/** The env file as a lens: updating its bindings, and loading them. */
module EnvFile {
  import opened Prelude
  import opened Strings
  import opened Sorting
  import opened EnvLines

  // ----- One line -----

  function IndexOfEquals(s: Text): (n: nat)
    ensures n <= |s| && '=' !in s[..n] && (n < |s| ==> s[n] == '=')
  {
    if s == [] || s[0] == '=' then 0 else
      var n := IndexOfEquals(s[1..]);
      assert s[..n + 1] == [s[0]] + s[1..][..n];
      n + 1
  }

  /** What stands before and after the first equals sign of a line that is neither blank nor a comment. */
  function Assignment(line: Text): Option<(Text, Text)> {
    var t := Trim(line);
    if t == [] || t[0] == '#' || IndexOfEquals(t) == |t| then None
    else Some((Trim(t[..IndexOfEquals(t)]), t[IndexOfEquals(t) + 1..]))
  }

  predicate IsQuote(c: Byte) {
    c == '"' || c == '\''
  }

  function TrimQuotesLeft(s: Text): Text {
    if s != [] && IsQuote(s[0]) then TrimQuotesLeft(s[1..]) else s
  }

  function TrimQuotes(s: Text): Text
    decreases |s|
  {
    var t := TrimQuotesLeft(s);
    TrimQuotesRight(t)
  }

  function TrimQuotesRight(s: Text): Text {
    if s != [] && IsQuote(Last(s)) then TrimQuotesRight(s[..|s| - 1]) else s
  }

  /** The variable a line sets when the file is loaded. */
  function Binding(line: Text): Option<(Text, Text)> {
    match Assignment(line)
    case None => None
    case Some((key, value)) => if key == [] then None else Some((key, TrimQuotes(Trim(value))))
  }

  predicate Unquoted(s: Text) {
    s == [] || (!IsQuote(s[0]) && !IsQuote(Last(s)))
  }

  /** A key and a value that can be written as a line and read back. */
  predicate Storable(key: Text, value: Text) {
    && key != [] && Trimmed(key) && key[0] != '#' && '=' !in key
    && Trimmed(value) && Unquoted(value)
  }

  lemma {:induction false} TrimLeftShorter(s: Text)
    ensures |TrimLeft(s)| <= |s| && (|TrimLeft(s)| == |s| ==> TrimLeft(s) == s)
  {
    if s != [] && IsSpace(s[0]) {
      TrimLeftShorter(s[1..]);
    }
  }

  lemma {:induction false} TrimRightShorter(s: Text)
    ensures |TrimRight(s)| <= |s| && (|TrimRight(s)| == |s| ==> TrimRight(s) == s)
    decreases |s|
  {
    if s != [] && IsSpace(s[|s| - 1]) {
      TrimRightShorter(s[..|s| - 1]);
    }
  }

  lemma TrimShorter(s: Text)
    ensures |Trim(s)| <= |s| && (|Trim(s)| == |s| ==> Trim(s) == s)
  {
    TrimLeftShorter(s);
    TrimRightShorter(TrimLeft(s));
  }

  lemma {:induction false} TrimQuotesLeftShorter(s: Text)
    ensures |TrimQuotesLeft(s)| <= |s| && (|TrimQuotesLeft(s)| == |s| ==> TrimQuotesLeft(s) == s)
    ensures TrimQuotesLeft(s) != [] ==> !IsQuote(TrimQuotesLeft(s)[0])
  {
    if s != [] && IsQuote(s[0]) {
      TrimQuotesLeftShorter(s[1..]);
    }
  }

  lemma {:induction false} TrimQuotesRightShorter(s: Text)
    ensures |TrimQuotesRight(s)| <= |s| && (|TrimQuotesRight(s)| == |s| ==> TrimQuotesRight(s) == s)
    ensures TrimQuotesRight(s) != [] ==> !IsQuote(Last(TrimQuotesRight(s)))
    decreases |s|
  {
    if s != [] && IsQuote(Last(s)) {
      TrimQuotesRightShorter(s[..|s| - 1]);
    }
  }

  lemma TrimQuotesShorter(s: Text)
    ensures |TrimQuotes(s)| <= |s| && (|TrimQuotes(s)| == |s| ==> TrimQuotes(s) == s)
    ensures TrimQuotes(s) == s <==> Unquoted(s)
  {
    TrimQuotesLeftShorter(s);
    TrimQuotesRightShorter(TrimQuotesLeft(s));
  }

  lemma TrimmedOrShorter(s: Text)
    ensures Trim(s) == s <==> Trimmed(s)
  {
    TrimIsTrimmed(s);
  }

  /** The line of a key without equals sign is cut where the key ends. */
  lemma CutsAfterKey(key: Text, rest: Text)
    requires '=' !in key
    ensures IndexOfEquals(key + "=" + rest) == |key|
  {
    var line := key + "=" + rest;
    var n := IndexOfEquals(line);
    forall i | 0 <= i < |key|
      ensures line[i] != '='
    {
      assert line[i] == key[i] && key[i] in key;
    }
    assert line[|key|] == '=';
    forall i | 0 <= i < n
      ensures line[i] != '='
    {
      assert line[i] in line[..n];
    }
  }

  /** A line is read back as it was written exactly for storable keys and values. */
  lemma BindingIsReadBack(key: Text, value: Text)
    ensures Binding(key + "=" + value) == Some((key, value)) <==> Storable(key, value)
  {
    if Storable(key, value) {
      StorableIsReadBack(key, value);
    }
    if Binding(key + "=" + value) == Some((key, value)) {
      ReadBackIsStorable(key, value);
    }
  }

  lemma StorableIsReadBack(key: Text, value: Text)
    requires Storable(key, value)
    ensures Trim(key + "=" + value) == key + "=" + value
    ensures Assignment(key + "=" + value) == Some((key, value)) && Binding(key + "=" + value) == Some((key, value))
  {
    var line := key + "=" + value;
    assert Trimmed(line) by {
      assert line[0] == key[0] && Last(line) == if value == [] then '=' else Last(value);
    }
    TrimmedIsFixed(line);
    CutsAfterKey(key, value);
    assert line[..|key|] == key && line[|key| + 1..] == value;
    TrimmedIsFixed(key);
    TrimmedIsFixed(value);
    TrimQuotesShorter(value);
  }

  lemma ReadBackIsStorable(key: Text, value: Text)
    requires Binding(key + "=" + value) == Some((key, value))
    ensures Storable(key, value)
  {
    var line := key + "=" + value;
    var t := Trim(line);
    var n := IndexOfEquals(t);
    TrimIsTrimmed(t[..n]);
    TrimShorter(t[..n]);
    TrimShorter(line);
    TrimShorter(t[n + 1..]);
    TrimQuotesShorter(Trim(t[n + 1..]));
    TrimmedOrShorter(key);
    assert |t| == n + 1 + |t[n + 1..]|;
    assert t == line && n == |key|;
    assert key == line[..|key|] && value == line[|key| + 1..];
    TrimmedOrShorter(value);
    TrimQuotesShorter(value);
    assert key[0] == t[0];
  }

  predicate AllQuotes(s: Text) {
    forall c :: c in s ==> IsQuote(c)
  }

  lemma {:induction false} TrimQuotesLeftOf(before: Text, s: Text)
    requires AllQuotes(before) && (s != [] ==> !IsQuote(s[0]))
    ensures TrimQuotesLeft(before + s) == s
  {
    if before == [] {
      assert before + s == s;
    } else {
      assert before[0] in before && (before + s)[1..] == before[1..] + s;
      TrimQuotesLeftOf(before[1..], s);
    }
  }

  lemma {:induction false} TrimQuotesRightOf(s: Text, after: Text)
    requires AllQuotes(after) && (s != [] ==> !IsQuote(Last(s)))
    ensures TrimQuotesRight(s + after) == s
    decreases |after|
  {
    if after == [] {
      assert s + after == s;
    } else {
      assert Last(after) in after && (s + after)[..|s + after| - 1] == s + after[..|after| - 1];
      TrimQuotesRightOf(s, after[..|after| - 1]);
    }
  }

  lemma TrimQuotesOf(before: Text, s: Text, after: Text)
    requires AllQuotes(before) && AllQuotes(after) && Unquoted(s)
    ensures TrimQuotes(before + s + after) == s
  {
    if s == [] {
      assert before + s + after == before + after + [];
      TrimQuotesLeftOf(before + after, []);
    } else {
      assert before + s + after == before + (s + after);
      TrimQuotesLeftOf(before, s + after);
      TrimQuotesRightOf(s, after);
    }
  }

  /** Without the white space around the line. */
  lemma CoreIsRead(key: Text, gap: Text, rest: Text, value: Text)
    requires key != [] && Trimmed(key) && key[0] != '#' && '=' !in key && AllSpace(gap)
    requires Trim(key + gap + "=" + rest) == key + gap + "=" + rest && TrimQuotes(Trim(rest)) == value
    ensures Binding(key + gap + "=" + rest) == Some((key, value))
  {
    var core := key + gap + "=" + rest;
    CutsAfterKey(key + gap, rest);
    assert core[..|key + gap|] == key + gap && core[|key + gap| + 1..] == rest;
    assert [] + key + gap == key + gap;
    TrimOf([], key, gap);
  }

  lemma TrimmedAlike(a: Text, b: Text)
    requires Trim(a) == Trim(b)
    ensures Binding(a) == Binding(b)
  {
  }

  /** What stands after the equals sign of a trimmed line. */
  function After(space: Text, quoted: Text): Text {
    if quoted == [] then [] else space + quoted
  }

  /** The part of a line from its key to its value is what is left of it when it is trimmed. */
  lemma CoreIsLeft(left: Text, start: Text, space: Text, quoted: Text, right: Text)
    requires AllSpace(left) && AllSpace(space) && AllSpace(right) && Trimmed(quoted)
    requires start != [] && !IsSpace(start[0]) && !IsSpace(Last(start))
    ensures var core := start + After(space, quoted);
            Trim(core) == core == Trim(left + start + space + quoted + right)
  {
    if quoted == [] {
      assert start + After(space, quoted) == start;
      assert left + start + space + quoted + right == left + start + (space + right);
      TrimmedIsFixed(start);
      TrimOf(left, start, space + right);
    } else {
      ValueIsLeft(left, start, space, quoted, right);
    }
  }

  lemma ValueIsLeft(left: Text, start: Text, space: Text, quoted: Text, right: Text)
    requires AllSpace(left) && AllSpace(right) && Trimmed(quoted) && quoted != []
    requires start != [] && !IsSpace(start[0])
    ensures var core := start + (space + quoted);
            Trim(core) == core == Trim(left + start + space + quoted + right)
  {
    var core := start + (space + quoted);
    assert core[0] == start[0] && Last(core) == Last(quoted);
    assert left + start + space + quoted + right == left + core + right;
    TrimmedIsFixed(core);
    TrimOf(left, core, right);
  }

  lemma TrimBefore(space: Text, quoted: Text)
    requires AllSpace(space) && Trimmed(quoted)
    ensures Trim(After(space, quoted)) == quoted
  {
    assert space + quoted + [] == space + quoted;
    TrimOf(space, quoted, []);
  }

  /** A line sets its key whatever white space stands around the parts, and whatever quotes around the value. */
  lemma LineIsRead(left: Text, key: Text, gap: Text, space: Text, open: Text, value: Text, close: Text, right: Text)
    requires AllSpace(left) && AllSpace(gap) && AllSpace(space) && AllSpace(right)
    requires AllQuotes(open) && AllQuotes(close) && Unquoted(value) && Trimmed(open + value + close)
    requires key != [] && Trimmed(key) && key[0] != '#' && '=' !in key
    ensures Binding(left + (key + gap + "=") + space + (open + value + close) + right) == Some((key, value))
  {
    TrimQuotesOf(open, value, close);
    QuotedIsRead(left, key, gap, space, open + value + close, value, right);
  }

  lemma QuotedIsRead(left: Text, key: Text, gap: Text, space: Text, quoted: Text, value: Text, right: Text)
    requires AllSpace(left) && AllSpace(gap) && AllSpace(space) && AllSpace(right) && Trimmed(quoted)
    requires key != [] && Trimmed(key) && key[0] != '#' && '=' !in key && TrimQuotes(quoted) == value
    ensures Binding(left + (key + gap + "=") + space + quoted + right) == Some((key, value))
  {
    CoreIsLeft(left, key + gap + "=", space, quoted, right);
    TrimBefore(space, quoted);
    CoreIsRead(key, gap, After(space, quoted), value);
    TrimmedAlike(left + (key + gap + "=") + space + quoted + right, key + gap + "=" + After(space, quoted));
  }

  /** A comment sets nothing, nor does a line without an equals sign or without a key. */
  lemma OtherLinesSetNothing(left: Text, rest: Text)
    requires AllSpace(left)
    ensures Binding(left + "#" + rest) == None && Binding(left + "=" + rest) == None
    ensures '=' !in rest ==> Binding(rest) == None
  {
    StartsAt(left, '#', rest);
    StartsAt(left, '=', rest);
    if '=' !in rest {
      var before, after := TrimCutsSpace(rest);
      assert forall c :: c in Trim(rest) ==> c in rest;
    }
  }

  lemma StartsAt(left: Text, c: Byte, rest: Text)
    requires AllSpace(left) && !IsSpace(c)
    ensures Trim(left + [c] + rest) != [] && Trim(left + [c] + rest)[0] == c
  {
    assert left + [c] + rest == left + ([c] + rest);
    TrimLeftOf(left, [c] + rest);
    TrimRightKeepsFirst([c] + rest);
  }

  // ----- Loading -----

  /** The values of `f` on the elements of `s`, where it has one. */
  function Collect<A, B>(s: seq<A>, f: A -> Option<B>): seq<B> {
    if s == [] then []
    else (match f(s[0]) case None => [] case Some(b) => [b]) + Collect(s[1..], f)
  }

  lemma {:induction false} CollectConcat<A, B>(s: seq<A>, t: seq<A>, f: A -> Option<B>)
    ensures Collect(s + t, f) == Collect(s, f) + Collect(t, f)
  {
    if s == [] {
      assert s + t == t;
    } else {
      assert (s + t)[0] == s[0] && (s + t)[1..] == s[1..] + t;
      CollectConcat(s[1..], t, f);
    }
  }

  lemma OneCollected<A, B>(a: A, f: A -> Option<B>)
    ensures Collect([a], f) == match f(a) case None => [] case Some(b) => [b]
  {
    assert [a][1..] == [];
  }

  /** The assignments of the lines, in order. */
  function Bindings(lines: seq<Text>): seq<(Text, Text)> {
    Collect(lines, Binding)
  }

  /** The first assignment of a variable is the one that counts. */
  function FirstWins(bindings: seq<(Text, Text)>): map<Text, Text> {
    if bindings == [] then map[] else FirstWins(bindings[1..])[bindings[0].0 := bindings[0].1]
  }

  function SetUnlessPresent(env: map<Text, Text>, binding: (Text, Text)): map<Text, Text> {
    if binding.0 in env then env else env[binding.0 := binding.1]
  }

  /** The environment after the lines have been read one by one. */
  function Loaded(env: map<Text, Text>, lines: seq<Text>): map<Text, Text> {
    if lines == [] then env
    else
      var before := Loaded(env, lines[..|lines| - 1]);
      var binding := Binding(Last(lines));
      if binding.None? then before else SetUnlessPresent(before, binding.value)
  }

  /** The lines a scanner yields: without carriage returns at their ends, and nothing after the last newline. */
  function Scanned(s: Text): seq<Text> {
    var lines := Split(s);
    DropAll(if Last(lines) == [] then lines[..|lines| - 1] else lines)
  }

  lemma {:induction false} FirstWinsConcat(a: seq<(Text, Text)>, b: seq<(Text, Text)>)
    ensures FirstWins(a + b) == FirstWins(b) + FirstWins(a)
  {
    if a == [] {
      assert a + b == b;
    } else {
      assert (a + b)[0] == a[0] && (a + b)[1..] == a[1..] + b;
      FirstWinsConcat(a[1..], b);
    }
  }

  lemma OneBinding(line: Text)
    ensures FirstWins(Bindings([line])) == (match Binding(line) case None => map[] case Some(b) => map[b.0 := b.1])
  {
    OneCollected(line, Binding);
    if Binding(line).Some? {
      var b: (Text, Text) := Binding(line).value;
      var rest: seq<(Text, Text)> := [b][1..];
      assert rest == [];
      assert FirstWins([b]) == FirstWins([])[b.0 := b.1];
    }
  }

  lemma SetIsOverridden(first: map<Text, Text>, env: map<Text, Text>, b: (Text, Text))
    ensures SetUnlessPresent(first + env, b) == (map[b.0 := b.1] + first) + env
  {
  }

  /** Loading line by line gives every variable its first assignment, and leaves the variables already set alone. */
  lemma {:induction false} LoadedIsFirstWins(env: map<Text, Text>, lines: seq<Text>)
    ensures Loaded(env, lines) == FirstWins(Bindings(lines)) + env
    decreases |lines|
  {
    if lines != [] {
      LoadedIsFirstWins(env, lines[..|lines| - 1]);
      FirstWinsOfSnoc(lines);
      var first := FirstWins(Bindings(lines[..|lines| - 1]));
      match Binding(Last(lines)) {
        case None =>
        case Some(b) => SetIsOverridden(first, env, b);
      }
    }
  }

  lemma FirstWinsOfSnoc(lines: seq<Text>)
    requires lines != []
    ensures FirstWins(Bindings(lines)) ==
            match Binding(Last(lines))
            case None => FirstWins(Bindings(lines[..|lines| - 1]))
            case Some(b) => map[b.0 := b.1] + FirstWins(Bindings(lines[..|lines| - 1]))
  {
    var init, last := lines[..|lines| - 1], Last(lines);
    assert lines == init + [last];
    CollectConcat(init, [last], Binding);
    FirstWinsConcat(Bindings(init), Bindings([last]));
    OneBinding(last);
  }

  lemma {:induction false} TrimLeftOfSnoc(s: Text, c: Byte)
    requires IsSpace(c)
    ensures TrimLeft(s + [c]) == if TrimLeft(s) == [] then [] else TrimLeft(s) + [c]
  {
    if s == [] {
      assert TrimLeft([c]) == TrimLeft([]);
    } else if IsSpace(s[0]) {
      assert (s + [c])[1..] == s[1..] + [c];
      TrimLeftOfSnoc(s[1..], c);
    }
  }

  lemma DropCrKeepsBinding(line: Text)
    ensures Trim(DropCr(line)) == Trim(line)
    ensures Assignment(DropCr(line)) == Assignment(line) && Binding(DropCr(line)) == Binding(line)
  {
    if DropCr(line) != line {
      assert line == DropCr(line) + ['\r'];
      TrimLeftOfSnoc(DropCr(line), '\r');
      var t := TrimLeft(DropCr(line));
      assert (t + ['\r'])[..|t|] == t;
    }
  }

  lemma {:induction false} DropAllKeepsBindings(lines: seq<Text>)
    ensures Bindings(DropAll(lines)) == Bindings(lines)
  {
    if lines != [] {
      DropCrKeepsBinding(lines[0]);
      DropAllKeepsBindings(lines[1..]);
      assert DropAll(lines)[1..] == DropAll(lines[1..]);
    }
  }

  lemma BlankBindsNothing()
    ensures Bindings([[]]) == []
  {
  }

  /** The loader and the updater read the same assignments from a file. */
  lemma ScannedBindings(s: Text)
    ensures Bindings(Scanned(s)) == Bindings(LinesOf(s))
  {
    var lines := Split(s);
    var init, last := lines[..|lines| - 1], Last(lines);
    assert lines == init + [last];
    SplitIsLines(s);
    JoinSplit(s);
    UnixJoin(lines);
    DropAllIsLines(init);
    assert last in lines;
    SplitJoin(DropAll(init) + [last]);
    CollectConcat(DropAll(init), [last], Binding);
    CollectConcat(init, [last], Binding);
    DropAllKeepsBindings(init);
    DropAllKeepsBindings(lines);
    BlankBindsNothing();
  }

  // ----- Updating -----

  /** Updates whose every line is read back as it is written, and is one line. */
  predicate WellFormed(updates: map<Text, Text>) {
    forall k :: k in updates ==> Storable(k, updates[k]) && OneLine(k) && OneLine(updates[k])
  }

  predicate Assigns(line: Text, key: Text) {
    Assignment(line).Some? && Assignment(line).value.0 == key
  }

  predicate IsUpdated(line: Text, updates: map<Text, Text>) {
    Assignment(line).Some? && Assignment(line).value.0 in updates
  }

  function Rewrite(line: Text, updates: map<Text, Text>): Text {
    if IsUpdated(line, updates) then Assignment(line).value.0 + "=" + updates[Assignment(line).value.0] else line
  }

  function RewriteAll(lines: seq<Text>, updates: map<Text, Text>): seq<Text> {
    seq(|lines|, i requires 0 <= i < |lines| => Rewrite(lines[i], updates))
  }

  predicate AssignedIn(lines: seq<Text>, key: Text) {
    exists l :: l in lines && Assigns(l, key)
  }

  /** The keys that no line assigns. */
  function Missing(keys: seq<Text>, lines: seq<Text>): seq<Text> {
    if keys == [] then []
    else
      var init := Missing(keys[..|keys| - 1], lines);
      if AssignedIn(lines, Last(keys)) then init else init + [Last(keys)]
  }

  function LineFor(key: Text, updates: map<Text, Text>): Text
    requires key in updates
  {
    key + "=" + updates[key]
  }

  function LinesFor(keys: seq<Text>, updates: map<Text, Text>): seq<Text>
    requires forall k :: k in keys ==> k in updates
  {
    seq(|keys|, i requires 0 <= i < |keys| => LineFor(keys[i], updates))
  }

  predicate InOrder(keys: seq<Text>, updates: map<Text, Text>) {
    Distinct(keys) && Elements(keys) == updates.Keys && Sorted(keys, TextLeq)
  }

  /** The missing keys come in the order of the keys, each once. */
  lemma {:induction false} MissingIsInOrder(keys: seq<Text>, lines: seq<Text>)
    requires Distinct(keys) && Sorted(keys, TextLeq)
    ensures Distinct(Missing(keys, lines)) && Sorted(Missing(keys, lines), TextLeq)
    ensures forall k :: k in Missing(keys, lines) <==> k in keys && forall l :: l in lines ==> !Assigns(l, k)
    decreases |keys|
  {
    MissingElements(keys, lines);
    if keys != [] {
      var init := keys[..|keys| - 1];
      MissingIsInOrder(init, lines);
      MissingElements(init, lines);
      forall k | k in Missing(init, lines)
        ensures TextLeq(k, Last(keys)) && k != Last(keys)
      {
        var i :| 0 <= i < |init| && init[i] == k;
        assert keys[i] == k;
      }
    }
  }

  lemma {:induction false} MissingElements(keys: seq<Text>, lines: seq<Text>)
    ensures forall k :: k in Missing(keys, lines) <==> k in keys && !AssignedIn(lines, k)
    decreases |keys|
  {
    if keys != [] {
      MissingElements(keys[..|keys| - 1], lines);
      assert keys == keys[..|keys| - 1] + [Last(keys)];
    }
  }

  lemma MissingIsKnown(keys: seq<Text>, lines: seq<Text>, updates: map<Text, Text>)
    requires Elements(keys) == updates.Keys
    ensures forall k :: k in Missing(keys, lines) ==> k in updates
  {
    MissingElements(keys, lines);
    forall k | k in Missing(keys, lines)
      ensures k in updates
    {
      assert k in Elements(keys);
    }
  }

  /** The lines after an update: assignments rewritten where they stand, missing keys appended in order. */
  function Updated(lines: seq<Text>, updates: map<Text, Text>, keys: seq<Text>): seq<Text>
    requires Elements(keys) == updates.Keys
  {
    MissingIsKnown(keys, lines, updates);
    RewriteAll(lines, updates) + LinesFor(Missing(keys, lines), updates)
  }

  /** A missing file has no lines; a file without text has one empty line. */
  function LinesIn(file: Option<Text>): seq<Text> {
    match file
    case None => []
    case Some(s) => LinesOf(s)
  }

  function Upserted(file: Option<Text>, updates: map<Text, Text>, keys: seq<Text>): Text
    requires Elements(keys) == updates.Keys
  {
    Written(Updated(LinesIn(file), updates, keys))
  }
}
