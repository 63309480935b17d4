/** What an update leaves alone, and what happens when it is repeated. */
module EnvRepeat {
  import opened Prelude
  import opened Strings
  import opened EnvLines
  import opened EnvFile
  import opened EnvLens

  // ----- Comments and other variables -----

  function Other(updates: map<Text, Text>): Text -> Option<Text> {
    (line: Text) => if IsUpdated(line, updates) then None else Some(line)
  }

  /** The lines that do not assign an updated variable: comments, blank lines and all others, in order. */
  function Others(lines: seq<Text>, updates: map<Text, Text>): seq<Text> {
    Collect(lines, Other(updates))
  }

  function OtherRead(updates: map<Text, Text>): Text -> Option<Text> {
    (line: Text) => if IsUpdated(line, updates) then None else Some(DropCr(line))
  }

  lemma {:induction false} SameCollected<A, B>(s: seq<A>, t: seq<A>, f: A -> Option<B>, g: A -> Option<B>)
    requires |s| == |t| && forall i :: 0 <= i < |s| ==> f(s[i]) == g(t[i])
    ensures Collect(s, f) == Collect(t, g)
  {
    if s != [] {
      SameCollected(s[1..], t[1..], f, g);
    }
  }

  lemma {:induction false} NoneCollected<A, B>(s: seq<A>, f: A -> Option<B>)
    requires forall i :: 0 <= i < |s| ==> f(s[i]) == None
    ensures Collect(s, f) == []
  {
    if s != [] {
      NoneCollected(s[1..], f);
    }
  }

  /** Dropping carriage returns and leaving out the updated lines can be done in either order. */
  lemma {:induction false} OthersRead(lines: seq<Text>, updates: map<Text, Text>)
    ensures Others(DropAll(lines), updates) == Collect(lines, OtherRead(updates)) == DropAll(Others(lines, updates))
  {
    forall i | 0 <= i < |lines|
      ensures Other(updates)(DropCr(lines[i])) == OtherRead(updates)(lines[i])
    {
      DropCrKeepsBinding(lines[i]);
    }
    SameCollected(DropAll(lines), lines, Other(updates), OtherRead(updates));
    if lines != [] {
      OthersRead(lines[1..], updates);
      OneMoreDropped(lines, updates);
    }
  }

  lemma OneMoreDropped(lines: seq<Text>, updates: map<Text, Text>)
    requires lines != [] && Collect(lines[1..], OtherRead(updates)) == DropAll(Others(lines[1..], updates))
    ensures Collect(lines, OtherRead(updates)) == DropAll(Others(lines, updates))
  {
    var rest := Others(lines[1..], updates);
    if !IsUpdated(lines[0], updates) {
      assert Others(lines, updates) == [lines[0]] + rest;
      assert DropAll([lines[0]] + rest) == [DropCr(lines[0])] + DropAll(rest);
    }
  }

  lemma {:induction false} StripKeepsOthers(lines: seq<Text>, updates: map<Text, Text>)
    ensures Strip(Collect(Strip(lines), OtherRead(updates))) == Strip(Collect(lines, OtherRead(updates)))
    decreases |lines|
  {
    if lines != [] && Last(lines) == [] {
      var init := lines[..|lines| - 1];
      StripKeepsOthers(init, updates);
      assert lines == init + [[]];
      CollectConcat(init, [[]], OtherRead(updates));
      OneCollected([], OtherRead(updates));
      StripSnoc(Collect(init, OtherRead(updates)));
    }
  }

  lemma StripSnoc(lines: seq<Text>)
    ensures Strip(lines + [[]]) == Strip(lines)
  {
    assert (lines + [[]])[..|lines|] == lines;
  }

  lemma UpdatedKeepsOthers(lines: seq<Text>, updates: map<Text, Text>, keys: seq<Text>)
    requires WellFormed(updates) && Elements(keys) == updates.Keys
    ensures Collect(Updated(lines, updates, keys), OtherRead(updates)) == Collect(lines, OtherRead(updates))
  {
    var missing, other := Missing(keys, lines), OtherRead(updates);
    MissingIsKnown(keys, lines, updates);
    forall i | 0 <= i < |lines|
      ensures other(Rewrite(lines[i], updates)) == other(lines[i])
    {
      RewriteKeepsKey(lines[i], updates);
      if IsUpdated(lines[i], updates) {
        LineForBinds(Assignment(lines[i]).value.0, updates);
      }
    }
    SameCollected(RewriteAll(lines, updates), lines, other, other);
    forall i | 0 <= i < |missing|
      ensures other(LineFor(missing[i], updates)) == None
    {
      assert missing[i] in missing;
      LineForBinds(missing[i], updates);
    }
    NoneCollected(LinesFor(missing, updates), other);
    CollectConcat(RewriteAll(lines, updates), LinesFor(missing, updates), other);
  }

  /** The lines that are written, with one empty line for an empty file. */
  function Body(lines: seq<Text>): seq<Text> {
    if Strip(lines) == [] then [[]] else Strip(lines)
  }

  lemma ReadBack(file: Option<Text>, updates: map<Text, Text>, keys: seq<Text>)
    requires WellFormed(updates) && Elements(keys) == updates.Keys
    ensures LinesOf(Upserted(file, updates, keys)) == DropAll(Body(Updated(LinesIn(file), updates, keys))) + [[]]
  {
    LinesInAreLines(file);
    UpdatedIsLines(LinesIn(file), updates, keys);
    LinesOfWritten(Updated(LinesIn(file), updates, keys));
  }

  lemma BodyKeepsOthers(lines: seq<Text>, updates: map<Text, Text>)
    ensures Strip(Others(DropAll(Body(lines)) + [[]], updates)) == Strip(Collect(lines, OtherRead(updates)))
  {
    CollectConcat(DropAll(Body(lines)), [[]], Other(updates));
    OneCollected([], Other(updates));
    StripSnoc(Others(DropAll(Body(lines)), updates));
    OthersRead(Body(lines), updates);
    StripKeepsOthers(lines, updates);
    if Strip(lines) == [] {
      OneCollected([], OtherRead(updates));
      StripSnoc([]);
    }
  }

  /**
   An update keeps every comment, blank line and other line as it stands and in order, up to a carriage return at
   its end and to the number of empty lines after the last of them.
   */
  lemma UpsertKeepsRest(file: Option<Text>, updates: map<Text, Text>, keys: seq<Text>)
    requires WellFormed(updates) && Elements(keys) == updates.Keys
    ensures Strip(Others(LinesOf(Upserted(file, updates, keys)), updates)) ==
      Strip(DropAll(Others(LinesIn(file), updates)))
  {
    ReadBack(file, updates, keys);
    BodyKeepsOthers(Updated(LinesIn(file), updates, keys), updates);
    UpdatedKeepsOthers(LinesIn(file), updates, keys);
    OthersRead(LinesIn(file), updates);
  }

  // ----- Repeated updates -----

  /** Some line that is not rewritten ends in a carriage return even after reading. */
  predicate KeepsCr(lines: seq<Text>, updates: map<Text, Text>) {
    exists l :: l in lines && l != [] && Last(l) == '\r' && !IsUpdated(l, updates)
  }

  lemma {:induction false} StripRewrite(lines: seq<Text>, updates: map<Text, Text>)
    requires WellFormed(updates)
    ensures Strip(RewriteAll(lines, updates)) == RewriteAll(Strip(lines), updates)
    decreases |lines|
  {
    if lines != [] {
      var init := lines[..|lines| - 1];
      RewriteKeepsKey(Last(lines), updates);
      StripRewrite(init, updates);
      assert RewriteAll(lines, updates)[..|lines| - 1] == RewriteAll(init, updates);
      assert Last(RewriteAll(lines, updates)) == Rewrite(Last(lines), updates);
    }
  }

  lemma {:induction false} StripTwice(lines: seq<Text>)
    ensures Strip(Strip(lines)) == Strip(lines)
    decreases |lines|
  {
    if lines != [] && Last(lines) == [] {
      StripTwice(lines[..|lines| - 1]);
    }
  }

  lemma {:induction false} StripKeepsLine(lines: seq<Text>, l: Text)
    requires l != []
    ensures l in Strip(lines) <==> l in lines
    decreases |lines|
  {
    if lines != [] && Last(lines) == [] {
      var init := lines[..|lines| - 1];
      StripKeepsLine(init, l);
      assert lines == init + [[]];
    }
  }

  lemma RewriteTwice(line: Text, u1: map<Text, Text>, u2: map<Text, Text>)
    requires WellFormed(u1) && u1.Keys == u2.Keys
    ensures Rewrite(Rewrite(line, u1), u2) == Rewrite(line, u2)
  {
    RewriteKeepsKey(line, u1);
    if IsUpdated(line, u1) {
      LineForBinds(Assignment(line).value.0, u1);
    }
    assert forall k :: k in u2 <==> k in u1.Keys;
  }

  /** Updating the updated lines again, with other values for the same keys, is updating the lines once. */
  lemma RewriteUpdated(lines: seq<Text>, u1: map<Text, Text>, u2: map<Text, Text>, keys: seq<Text>)
    requires WellFormed(u1) && u1.Keys == u2.Keys == Elements(keys)
    ensures RewriteAll(Updated(lines, u1, keys), u2) == Updated(lines, u2, keys)
  {
    var missing := Missing(keys, lines);
    MissingIsKnown(keys, lines, u1);
    MissingIsKnown(keys, lines, u2);
    var once := Updated(lines, u1, keys);
    var both := Updated(lines, u2, keys);
    forall i | 0 <= i < |once|
      ensures Rewrite(once[i], u2) == both[i]
    {
      if i < |lines| {
        RewriteTwice(lines[i], u1, u2);
      } else {
        var key := missing[i - |lines|];
        assert key in missing && key in u2;
        LineForBinds(key, u1);
      }
    }
  }

  lemma {:induction false} AllAssigned(keys: seq<Text>, lines: seq<Text>)
    requires forall k :: k in keys ==> AssignedIn(lines, k)
    ensures Missing(keys, lines) == []
    decreases |keys|
  {
    if keys != [] {
      assert Last(keys) in keys;
      AllAssigned(keys[..|keys| - 1], lines);
    }
  }

  /** After an update every key is assigned, so repeating it appends nothing. */
  lemma NothingMissing(lines: seq<Text>, updates: map<Text, Text>, keys: seq<Text>, after: seq<Text>)
    requires WellFormed(updates) && Elements(keys) == updates.Keys
    requires forall l :: l in Updated(lines, updates, keys) && l != [] ==> l in after || DropCr(l) in after
    ensures Missing(keys, after) == []
  {
    forall k | k in keys
      ensures AssignedIn(after, k)
    {
      var l := LineAssigning(lines, updates, keys, k);
      DropCrKeepsBinding(l);
      assert Assigns(l, k) && Assigns(DropCr(l), k) && l != [];
    }
    AllAssigned(keys, after);
  }

  lemma LineAssigning(lines: seq<Text>, updates: map<Text, Text>, keys: seq<Text>, k: Text) returns (l: Text)
    requires WellFormed(updates) && Elements(keys) == updates.Keys && k in keys
    ensures l in Updated(lines, updates, keys) && Assigns(l, k) && l != []
  {
    var missing := Missing(keys, lines);
    MissingIsKnown(keys, lines, updates);
    MissingElements(keys, lines);
    assert k in Elements(keys);
    if k in missing {
      var i :| 0 <= i < |missing| && missing[i] == k;
      l := LinesFor(missing, updates)[i];
      LineForBinds(k, updates);
      assert l in LinesFor(missing, updates);
    } else {
      var o :| o in lines && Assigns(o, k);
      var i :| 0 <= i < |lines| && lines[i] == o;
      l := RewriteAll(lines, updates)[i];
      RewriteKeepsKey(o, updates);
      assert l in RewriteAll(lines, updates);
    }
  }

  /** The lines an update leaves for the next one. */
  lemma AgainLines(lines: seq<Text>, u1: map<Text, Text>, u2: map<Text, Text>, keys: seq<Text>)
    requires WellFormed(u1) && u1.Keys == u2.Keys == Elements(keys)
    ensures var body := Body(Updated(lines, u1, keys));
            Updated(DropAll(body) + [[]], u2, keys) == RewriteAll(DropAll(body), u2) + [[]]
  {
    var body := Body(Updated(lines, u1, keys));
    var after := DropAll(body) + [[]];
    forall l | l in Updated(lines, u1, keys) && l != []
      ensures DropCr(l) in after
    {
      StripKeepsLine(Updated(lines, u1, keys), l);
      assert l in body;
      var i :| 0 <= i < |body| && body[i] == l;
      assert after[i] == DropCr(l);
    }
    NothingMissing(lines, u1, keys, after);
    RewriteSnoc(DropAll(body), u2);
  }

  lemma RewriteSnoc(lines: seq<Text>, updates: map<Text, Text>)
    ensures RewriteAll(lines + [[]], updates) == RewriteAll(lines, updates) + [[]]
  {
    assert Rewrite([], updates) == [];
  }

  lemma StripOfBody(lines: seq<Text>)
    ensures Strip(Body(lines)) == Strip(lines)
  {
    StripTwice(lines);
    if Strip(lines) == [] {
      assert [[]][..0] == Strip(lines);
    }
  }

  lemma SameWritten(a: seq<Text>, b: seq<Text>)
    requires AllLines(a) && AllLines(b) && Strip(a) == Strip(b)
    ensures Written(a) == Written(b)
  {
    TrimJoin(a);
    TrimJoin(b);
  }

  lemma UpdatedKeepsCr(lines: seq<Text>, updates: map<Text, Text>, keys: seq<Text>, l: Text)
    requires WellFormed(updates) && Elements(keys) == updates.Keys && l != [] && Last(l) == '\r'
    ensures l in Updated(lines, updates, keys) <==> l in lines && !IsUpdated(l, updates)
  {
    var missing := Missing(keys, lines);
    MissingIsKnown(keys, lines, updates);
    forall i | 0 <= i < |missing|
      ensures LinesFor(missing, updates)[i] != l
    {
      assert missing[i] in missing;
      LineForBinds(missing[i], updates);
    }
    forall i | 0 <= i < |lines|
      ensures Rewrite(lines[i], updates) == l <==> lines[i] == l && !IsUpdated(l, updates)
    {
      RewriteKeepsKey(lines[i], updates);
      if IsUpdated(lines[i], updates) {
        LineForBinds(Assignment(lines[i]).value.0, updates);
      }
    }
    RewrittenIn(lines, updates, l);
  }

  lemma RewrittenIn(lines: seq<Text>, updates: map<Text, Text>, l: Text)
    requires forall i :: 0 <= i < |lines| ==>
      (Rewrite(lines[i], updates) == l <==> lines[i] == l && !IsUpdated(l, updates))
    ensures l in RewriteAll(lines, updates) <==> l in lines && !IsUpdated(l, updates)
  {
    forall i | 0 <= i < |lines|
      ensures RewriteAll(lines, updates)[i] == l <==> lines[i] == l && !IsUpdated(l, updates)
    {
    }
  }

  /** The lines that are written end in a carriage return exactly if the file keeps one. */
  lemma BodyCr(lines: seq<Text>, updates: map<Text, Text>, keys: seq<Text>)
    requires WellFormed(updates) && Elements(keys) == updates.Keys
    ensures (DropAll(Body(Updated(lines, updates, keys))) != Body(Updated(lines, updates, keys))) <==>
      KeepsCr(lines, updates)
  {
    var once := Updated(lines, updates, keys);
    var body := Body(once);
    if l :| l in lines && l != [] && Last(l) == '\r' && !IsUpdated(l, updates) {
      UpdatedKeepsCr(lines, updates, keys, l);
      StripKeepsLine(once, l);
      assert l in body;
      var i :| 0 <= i < |body| && body[i] == l;
      assert DropAll(body)[i] != body[i];
    } else {
      forall i | 0 <= i < |body|
        ensures DropCr(body[i]) == body[i]
      {
        assert body[i] in body;
        if body[i] != [] && Last(body[i]) == '\r' {
          StripKeepsLine(once, body[i]);
          UpdatedKeepsCr(lines, updates, keys, body[i]);
          assert false;
        }
      }
    }
  }

  // ----- Two updates of the same variables -----

  lemma {:induction false} JoinShrinks(a: seq<Text>, b: seq<Text>)
    requires |a| == |b| && forall i :: 0 <= i < |a| ==> |a[i]| <= |b[i]|
    ensures |Join(a)| <= |Join(b)|
    ensures (exists i :: 0 <= i < |a| && |a[i]| < |b[i]|) ==> |Join(a)| < |Join(b)|
  {
    if |a| > 1 {
      JoinShrinks(a[1..], b[1..]);
      if i :| 0 <= i < |a| && |a[i]| < |b[i]| {
        if i > 0 {
          assert |a[1..][i - 1]| < |b[1..][i - 1]|;
        }
      }
    }
  }

  lemma {:induction false} StripShrinks(lines: seq<Text>)
    ensures |Join(Strip(lines))| <= |Join(lines)|
    decreases |lines|
  {
    if lines != [] && Last(lines) == [] {
      var init := lines[..|lines| - 1];
      StripShrinks(init);
      assert lines == init + [[]];
      if init != [] {
        JoinSnoc(init, []);
      }
    }
  }

  /** Rewriting a line and reading its carriage return away can be done in either order. */
  lemma RewriteDropsCr(line: Text, updates: map<Text, Text>)
    requires WellFormed(updates)
    ensures Rewrite(DropCr(line), updates) == DropCr(Rewrite(line, updates))
  {
    DropCrKeepsBinding(line);
    if IsUpdated(line, updates) {
      LineForBinds(Assignment(line).value.0, updates);
    }
  }

  /** The second update finds the lines the first one wrote, and makes of them what it makes of the file at once. */
  lemma SecondLines(lines: seq<Text>, u1: map<Text, Text>, u2: map<Text, Text>, keys: seq<Text>)
    requires WellFormed(u1) && WellFormed(u2) && u1.Keys == u2.Keys == Elements(keys)
    ensures Updated(DropAll(Body(Updated(lines, u1, keys))) + [[]], u2, keys) ==
            DropAll(Body(Updated(lines, u2, keys))) + [[]]
  {
    var once := Updated(lines, u1, keys);
    AgainLines(lines, u1, u2, keys);
    RewriteUpdated(lines, u1, u2, keys);
    StripRewrite(once, u2);
    assert RewriteAll(Body(once), u2) == Body(Updated(lines, u2, keys));
    forall i | 0 <= i < |Body(once)|
      ensures Rewrite(DropCr(Body(once)[i]), u2) == DropCr(Rewrite(Body(once)[i], u2))
    {
      RewriteDropsCr(Body(once)[i], u2);
    }
    assert RewriteAll(DropAll(Body(once)), u2) == DropAll(RewriteAll(Body(once), u2));
  }

  lemma SecondIsWritten(file: Option<Text>, u1: map<Text, Text>, u2: map<Text, Text>, keys: seq<Text>)
    requires WellFormed(u1) && WellFormed(u2) && u1.Keys == u2.Keys == Elements(keys)
    ensures Upserted(Some(Upserted(file, u1, keys)), u2, keys) ==
            Written(DropAll(Body(Updated(LinesIn(file), u2, keys))) + [[]])
    ensures AllLines(DropAll(Body(Updated(LinesIn(file), u2, keys))) + [[]])
    ensures AllLines(Updated(LinesIn(file), u2, keys))
  {
    ReadBack(file, u1, keys);
    SecondLines(LinesIn(file), u1, u2, keys);
    LinesInAreLines(file);
    LinesInAreLines(Some(Upserted(file, u1, keys)));
    UpdatedIsLines(LinesOf(Upserted(file, u1, keys)), u2, keys);
    UpdatedIsLines(LinesIn(file), u2, keys);
  }

  /** Of two updates of the same variables only the second shows exactly when no line keeps a carriage return. */
  lemma LastUpdateCounts(file: Option<Text>, u1: map<Text, Text>, u2: map<Text, Text>, keys: seq<Text>)
    requires WellFormed(u1) && WellFormed(u2) && u1.Keys == u2.Keys == Elements(keys)
    ensures Upserted(Some(Upserted(file, u1, keys)), u2, keys) == Upserted(file, u2, keys) <==>
            !KeepsCr(LinesIn(file), u2)
  {
    var once := Updated(LinesIn(file), u2, keys);
    SecondIsWritten(file, u1, u2, keys);
    BodyCr(LinesIn(file), u2, keys);
    if KeepsCr(LinesIn(file), u2) {
      DroppingShortens(once);
    } else {
      StripSnoc(Body(once));
      StripOfBody(once);
      SameWritten(Body(once) + [[]], once);
    }
  }

  /** A carriage return that is read away is missing from what is written. */
  lemma DroppingShortens(once: seq<Text>)
    requires AllLines(once) && AllLines(DropAll(Body(once)) + [[]]) && DropAll(Body(once)) != Body(once)
    ensures |Written(DropAll(Body(once)) + [[]])| < |Written(once)|
  {
    var body := Body(once);
    var i :| 0 <= i < |body| && DropAll(body)[i] != body[i];
    assert |DropAll(body)[i]| < |body[i]|;
    JoinShrinks(DropAll(body), body);
    StripSnoc(DropAll(body));
    StripShrinks(DropAll(body));
    TrimJoin(DropAll(body) + [[]]);
    TrimJoin(once);
    assert Join(body) == Join(Strip(once));
  }

  // ----- Repeating the same update -----

  /** Repeating an update leaves the file identical exactly when no line keeps a carriage return at its end. */
  lemma RepeatIsIdentical(file: Option<Text>, updates: map<Text, Text>, keys: seq<Text>)
    requires WellFormed(updates) && Elements(keys) == updates.Keys
    ensures Upserted(Some(Upserted(file, updates, keys)), updates, keys) == Upserted(file, updates, keys) <==>
            !KeepsCr(LinesIn(file), updates)
  {
    LastUpdateCounts(file, updates, updates, keys);
  }

  /** A file of one unterminated line ends in a carriage return: each of two empty updates rewrites it. */
  lemma RepeatCanDiffer()
    ensures var file, none := Some("x\r"), map[];
            && KeepsCr(LinesIn(file), none)
            && Upserted(Some(Upserted(file, none, [])), none, []) != Upserted(file, none, [])
  {
    var line: Text := "x\r";
    UnixFixes(line);
    SplitLine(line, []);
    assert line in LinesIn(Some(line)) && Trim(line) == "x" by {
      assert line[..1] == "x";
    }
    assert Assignment(line) == None by {
      assert IndexOfEquals("x") == 1;
    }
    assert Elements<Text>([]) == {};
    RepeatIsIdentical(Some(line), map[], []);
  }
}
