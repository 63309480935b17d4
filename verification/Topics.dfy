/** Topic keys: lowercase, split into words, sort, join. */
module Topics {
  import opened Strings
  import opened Sorting

  /** ASCII case folding. */
  function LowerByte(c: Byte): Byte {
    if 'A' <= c <= 'Z' then (c as int + 32) as char else c
  }

  /** The capital letters become the small ones, in order, and every other byte stays. */
  lemma CapitalsBecomeSmall(c: Byte)
    ensures LowerByte('A') == 'a' && LowerByte('Z') == 'z'
    ensures 'A' <= c < 'Z' ==> LowerByte((c as int + 1) as char) as int == LowerByte(c) as int + 1
    ensures !('A' <= c <= 'Z') ==> LowerByte(c) == c
  {
  }

  function ToLower(s: Text): Text {
    seq(|s|, i requires 0 <= i < |s| => LowerByte(s[i]))
  }

  function FirstWord(s: Text): (w: Text)
    ensures w <= s && forall c :: c in w ==> !IsSpace(c)
    ensures |w| < |s| ==> IsSpace(s[|w|])
  {
    if s == [] || IsSpace(s[0]) then [] else [s[0]] + FirstWord(s[1..])
  }

  /** The maximal runs of bytes that are not white space. */
  function Words(s: Text): seq<Text>
    decreases |s|
  {
    if s == [] then []
    else if IsSpace(s[0]) then Words(s[1..])
    else [FirstWord(s)] + Words(s[|FirstWord(s)|..])
  }

  function Join(ws: seq<Text>): Text {
    JoinWith(ws, ' ')
  }

  predicate IsWord(w: Text) {
    w != [] && forall c :: c in w ==> !IsSpace(c)
  }

  lemma {:induction false} WordsAreWords(s: Text)
    ensures forall w :: w in Words(s) ==> IsWord(w)
    decreases |s|
  {
    if s != [] {
      if IsSpace(s[0]) {
        WordsAreWords(s[1..]);
      } else {
        WordsAreWords(s[|FirstWord(s)|..]);
      }
    }
  }

  lemma {:induction false} FirstWordThen(w: Text, rest: Text)
    requires forall c :: c in w ==> !IsSpace(c)
    requires rest != [] ==> IsSpace(rest[0])
    ensures FirstWord(w + rest) == w
    decreases |w|
  {
    if w == [] {
      assert w + rest == rest;
    } else {
      assert w[0] in w;
      assert forall c :: c in w[1..] ==> c in w;
      FirstWordThen(w[1..], rest);
      assert (w + rest)[1..] == w[1..] + rest;
    }
  }

  lemma WordThen(w: Text, rest: Text)
    requires IsWord(w) && (rest != [] ==> IsSpace(rest[0]))
    ensures Words(w + rest) == [w] + Words(rest)
  {
    FirstWordThen(w, rest);
    assert w[0] in w;
    assert (w + rest)[|w|..] == rest;
  }

  lemma WordThenJoined(w: Text, joined: Text)
    requires IsWord(w)
    ensures Words(w + (" " + joined)) == [w] + Words(joined)
  {
    var rest: Text := " " + joined;
    WordThen(w, rest);
    assert rest[1..] == joined;
  }

  predicate AllWords(ws: seq<Text>) {
    forall i :: 0 <= i < |ws| ==> IsWord(ws[i])
  }

  /** Splitting a joined list of words gives the list back. */
  lemma {:induction false} WordsOfJoin(ws: seq<Text>)
    requires AllWords(ws)
    ensures Words(Join(ws)) == ws
    decreases |ws|
  {
    if |ws| == 1 {
      WordThen(ws[0], []);
      assert ws[0] + [] == ws[0];
    } else if |ws| > 1 {
      var tail := ws[1..];
      WordsOfJoin(tail);
      WordThenJoined(ws[0], Join(tail));
      assert Join(ws) == ws[0] + (" " + Join(tail));
      assert ws == [ws[0]] + tail;
    }
  }

  lemma {:induction false} TrimLeftKeepsWords(s: Text)
    ensures Words(TrimLeft(s)) == Words(s)
    decreases |s|
  {
    if s != [] && IsSpace(s[0]) {
      TrimLeftKeepsWords(s[1..]);
    }
  }

  lemma {:induction false} TrailingSpace(s: Text, c: Byte)
    requires IsSpace(c)
    ensures Words(s + [c]) == Words(s)
    decreases |s|
  {
    if s == [] {
      assert s + [c] == [c] && [c][1..] == [];
    } else if IsSpace(s[0]) {
      TrailingSpace(s[1..], c);
      assert (s + [c])[1..] == s[1..] + [c];
    } else {
      var w := FirstWord(s);
      var rest := s[|w|..];
      assert s == w + rest;
      FirstWordThen(w, rest + [c]);
      assert s + [c] == w + (rest + [c]);
      TrailingSpace(rest, c);
      assert (s + [c])[|w|..] == rest + [c];
    }
  }

  lemma {:induction false} TrimRightKeepsWords(s: Text)
    ensures Words(TrimRight(s)) == Words(s)
    decreases |s|
  {
    if s != [] && IsSpace(s[|s| - 1]) {
      TrimRightKeepsWords(s[..|s| - 1]);
      assert s == s[..|s| - 1] + [s[|s| - 1]];
      TrailingSpace(s[..|s| - 1], s[|s| - 1]);
    }
  }

  function Normalize(s: Text): Text {
    Join(Sort(Words(Trim(ToLower(s))), TextLeq))
  }

  /** The words of a topic, whatever their order. */
  function Bag(s: Text): multiset<Text> {
    multiset(Words(ToLower(s)))
  }

  lemma NormalizedWords(s: Text)
    ensures multiset(Words(Normalize(s))) == Bag(s)
    ensures Words(Normalize(s)) == Sort(Words(ToLower(s)), TextLeq)
  {
    var lower := ToLower(s);
    TrimRightKeepsWords(TrimLeft(lower));
    TrimLeftKeepsWords(lower);
    var words := Words(lower);
    WordsAreWords(lower);
    var sorted := Sort(words, TextLeq);
    forall i | 0 <= i < |sorted|
      ensures IsWord(sorted[i])
    {
      assert sorted[i] in multiset(sorted);
    }
    WordsOfJoin(sorted);
  }

  /** Two strings are the same topic exactly when their lowercased words form the same multiset. */
  lemma SameTopicIffSameWords(a: Text, b: Text)
    ensures Normalize(a) == Normalize(b) <==> Bag(a) == Bag(b)
  {
    NormalizedWords(a);
    NormalizedWords(b);
    if Bag(a) == Bag(b) {
      var s, t := Sort(Words(ToLower(a)), TextLeq), Sort(Words(ToLower(b)), TextLeq);
      TextLeqIsTotalOrder();
      SortSorts(Words(ToLower(a)), TextLeq);
      SortSorts(Words(ToLower(b)), TextLeq);
      SortedIsUnique(s, t, TextLeq);
      TrimRightKeepsWords(TrimLeft(ToLower(a)));
      TrimLeftKeepsWords(ToLower(a));
      TrimRightKeepsWords(TrimLeft(ToLower(b)));
      TrimLeftKeepsWords(ToLower(b));
    }
  }

  /** A string is no topic at all exactly when it has no words. */
  lemma NoTopicIffNoWords(s: Text)
    ensures Normalize(s) == [] <==> Words(ToLower(s)) == []
  {
    NormalizedWords(s);
    if Words(ToLower(s)) == [] {
      TrimRightKeepsWords(TrimLeft(ToLower(s)));
      TrimLeftKeepsWords(ToLower(s));
    } else {
      assert Words(ToLower(s))[0] in Bag(s);
      assert Words(Normalize(s)) != [];
    }
  }
}
