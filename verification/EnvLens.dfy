/** The laws of updating and then reading an env file. */
module EnvLens {
  import opened Prelude
  import opened Strings
  import opened EnvLines
  import opened EnvFile

  /** The bindings with the updated values in place of the old ones. */
  function Overridden(bindings: seq<(Text, Text)>, updates: map<Text, Text>): seq<(Text, Text)> {
    seq(|bindings|, i requires 0 <= i < |bindings| =>
      if bindings[i].0 in updates then (bindings[i].0, updates[bindings[i].0]) else bindings[i])
  }

  function Pairs(keys: seq<Text>, updates: map<Text, Text>): seq<(Text, Text)>
    requires forall k :: k in keys ==> k in updates
  {
    seq(|keys|, i requires 0 <= i < |keys| => (keys[i], updates[keys[i]]))
  }

  // ----- Rewriting -----

  lemma RewriteKeepsKey(line: Text, updates: map<Text, Text>)
    requires WellFormed(updates)
    ensures IsUpdated(line, updates) ==> Rewrite(line, updates) == LineFor(Assignment(line).value.0, updates)
    ensures forall k :: Assigns(Rewrite(line, updates), k) <==> Assigns(line, k)
    ensures Rewrite(line, updates) == [] <==> line == []
    ensures Binding(Rewrite(line, updates)) ==
            if IsUpdated(line, updates) then Some((Assignment(line).value.0, updates[Assignment(line).value.0]))
              else Binding(line)
  {
    if IsUpdated(line, updates) {
      var key := Assignment(line).value.0;
      StorableIsReadBack(key, updates[key]);
    }
  }

  lemma LineForBinds(key: Text, updates: map<Text, Text>)
    requires WellFormed(updates) && key in updates
    ensures Assignment(LineFor(key, updates)) == Some((key, updates[key])) &&
      Binding(LineFor(key, updates)) == Some((key, updates[key]))
    ensures OneLine(LineFor(key, updates)) && LineFor(key, updates) != [] && Last(LineFor(key, updates)) != '\r'
  {
    StorableIsReadBack(key, updates[key]);
    assert Last(LineFor(key, updates)) == if updates[key] == [] then '=' else Last(updates[key]);
  }

  lemma RewriteOverridesOne(line: Text, updates: map<Text, Text>)
    requires WellFormed(updates)
    ensures Binding(Rewrite(line, updates)) ==
            match Binding(line)
            case None => None
            case Some(b) => Some(if b.0 in updates then (b.0, updates[b.0]) else b)
  {
    RewriteKeepsKey(line, updates);
    assert IsUpdated(line, updates) ==> Storable(Assignment(line).value.0, updates[Assignment(line).value.0]);
  }

  lemma OverriddenCons(b: (Text, Text), rest: seq<(Text, Text)>, updates: map<Text, Text>)
    ensures Overridden([b] + rest, updates) ==
            [if b.0 in updates then (b.0, updates[b.0]) else b] + Overridden(rest, updates)
  {
  }

  lemma {:induction false} RewriteOverrides(lines: seq<Text>, updates: map<Text, Text>)
    requires WellFormed(updates)
    ensures Bindings(RewriteAll(lines, updates)) == Overridden(Bindings(lines), updates)
  {
    if lines != [] {
      RewriteOverrides(lines[1..], updates);
      RewriteOverridesOne(lines[0], updates);
      assert RewriteAll(lines, updates)[1..] == RewriteAll(lines[1..], updates);
      match Binding(lines[0]) {
        case None =>
        case Some(b) => OverriddenCons(b, Bindings(lines[1..]), updates);
      }
    }
  }

  lemma {:induction false} AllCollected<A, B>(s: seq<A>, t: seq<B>, f: A -> Option<B>)
    requires |s| == |t| && forall i :: 0 <= i < |s| ==> f(s[i]) == Some(t[i])
    ensures Collect(s, f) == t
  {
    if s != [] {
      AllCollected(s[1..], t[1..], f);
      assert t == [t[0]] + t[1..];
    }
  }

  lemma LinesForBind(keys: seq<Text>, updates: map<Text, Text>)
    requires WellFormed(updates) && forall k :: k in keys ==> k in updates
    ensures Bindings(LinesFor(keys, updates)) == Pairs(keys, updates)
  {
    forall i | 0 <= i < |keys|
      ensures Binding(LinesFor(keys, updates)[i]) == Some(Pairs(keys, updates)[i])
    {
      assert keys[i] in keys;
      LineForBinds(keys[i], updates);
    }
    AllCollected(LinesFor(keys, updates), Pairs(keys, updates), Binding);
  }

  lemma {:induction false} StripKeepsBindings(lines: seq<Text>)
    ensures Bindings(Strip(lines)) == Bindings(lines)
    decreases |lines|
  {
    if lines != [] && Last(lines) == [] {
      var init := lines[..|lines| - 1];
      StripKeepsBindings(init);
      assert lines == init + [[]];
      CollectConcat(init, [[]], Binding);
      BlankBindsNothing();
    }
  }

  lemma RewriteIsOneLine(line: Text, updates: map<Text, Text>)
    requires WellFormed(updates) && OneLine(line)
    ensures OneLine(Rewrite(line, updates))
  {
    RewriteKeepsKey(line, updates);
    if IsUpdated(line, updates) {
      LineForBinds(Assignment(line).value.0, updates);
    }
  }

  lemma LinesInAreLines(file: Option<Text>)
    ensures AllLines(LinesIn(file))
  {
    if file.Some? {
      SplitIsLines(Unix(file.value));
    }
  }

  lemma UpdatedIsLines(lines: seq<Text>, updates: map<Text, Text>, keys: seq<Text>)
    requires WellFormed(updates) && Elements(keys) == updates.Keys && AllLines(lines)
    ensures AllLines(Updated(lines, updates, keys))
  {
    var missing := Missing(keys, lines);
    MissingIsKnown(keys, lines, updates);
    forall l | l in Updated(lines, updates, keys)
      ensures OneLine(l)
    {
      if l in RewriteAll(lines, updates) {
        var i :| 0 <= i < |lines| && l == Rewrite(lines[i], updates);
        assert lines[i] in lines;
        RewriteIsOneLine(lines[i], updates);
      } else {
        var i :| 0 <= i < |missing| && l == LineFor(missing[i], updates);
        assert missing[i] in missing;
        LineForBinds(missing[i], updates);
      }
    }
  }

  /** What is read back from the written lines binds what the lines bind. */
  lemma WrittenBindings(lines: seq<Text>)
    requires AllLines(lines)
    ensures Bindings(LinesOf(Written(lines))) == Bindings(lines)
  {
    var body := if Strip(lines) == [] then [[]] else Strip(lines);
    LinesOfWritten(lines);
    CollectConcat(DropAll(body), [[]], Binding);
    DropAllKeepsBindings(body);
    StripKeepsBindings(lines);
    BlankBindsNothing();
  }

  /** An update changes the values of the updated variables where they stand and appends the missing ones in order. */
  lemma UpsertBindings(file: Option<Text>, updates: map<Text, Text>, keys: seq<Text>)
    requires WellFormed(updates) && Elements(keys) == updates.Keys
    ensures forall k :: k in Missing(keys, LinesIn(file)) ==> k in updates
    ensures Bindings(LinesOf(Upserted(file, updates, keys))) ==
            Overridden(Bindings(LinesIn(file)), updates) + Pairs(Missing(keys, LinesIn(file)), updates)
  {
    var lines := LinesIn(file);
    var missing := Missing(keys, lines);
    LinesInAreLines(file);
    UpdatedIsLines(lines, updates, keys);
    WrittenBindings(Updated(lines, updates, keys));
    MissingIsKnown(keys, lines, updates);
    CollectConcat(RewriteAll(lines, updates), LinesFor(missing, updates), Binding);
    RewriteOverrides(lines, updates);
    LinesForBind(missing, updates);
  }

  // ----- Loading what was updated -----

  function LoadFile(env: map<Text, Text>, file: Option<Text>): map<Text, Text> {
    match file
    case None => env
    case Some(s) => Loaded(env, Scanned(s))
  }

  lemma {:induction false} FirstWinsOverridden(bindings: seq<(Text, Text)>, updates: map<Text, Text>)
    ensures FirstWins(Overridden(bindings, updates)) ==
            map k | k in FirstWins(bindings) :: if k in updates then updates[k] else FirstWins(bindings)[k]
  {
    if bindings != [] {
      FirstWinsOverridden(bindings[1..], updates);
      assert Overridden(bindings, updates)[1..] == Overridden(bindings[1..], updates);
    }
  }

  lemma {:induction false} FirstWinsPairs(keys: seq<Text>, updates: map<Text, Text>)
    requires forall k :: k in keys ==> k in updates
    ensures FirstWins(Pairs(keys, updates)) == map k | k in keys :: updates[k]
  {
    if keys != [] {
      assert keys[0] in keys;
      FirstWinsPairs(keys[1..], updates);
      assert Pairs(keys, updates)[1..] == Pairs(keys[1..], updates);
      assert keys == [keys[0]] + keys[1..];
    }
  }

  lemma {:induction false} BoundIsAssigned(lines: seq<Text>, updates: map<Text, Text>, key: Text)
    requires WellFormed(updates) && key in updates
    ensures key in FirstWins(Bindings(lines)) <==> AssignedIn(lines, key)
  {
    if lines != [] {
      assert lines == [lines[0]] + lines[1..];
      CollectConcat([lines[0]], lines[1..], Binding);
      FirstWinsConcat(Bindings([lines[0]]), Bindings(lines[1..]));
      OneBinding(lines[0]);
      BoundIsAssigned(lines[1..], updates, key);
      assert AssignedIn(lines, key) <==> Assigns(lines[0], key) || AssignedIn(lines[1..], key) by {
        assert lines[0] in lines;
        assert forall l :: l in lines <==> l == lines[0] || l in lines[1..];
      }
    }
  }

  lemma OverrideAndExtend(bound: map<Text, Text>, missing: seq<Text>, updates: map<Text, Text>)
    requires forall k :: k in missing ==> k in updates && k !in bound
    requires forall k :: k in updates ==> k in bound || k in missing
    ensures (map k | k in missing :: updates[k]) +
      (map k | k in bound :: if k in updates then updates[k] else bound[k]) ==
            bound + updates
  {
  }

  lemma MissingOrBound(lines: seq<Text>, updates: map<Text, Text>, keys: seq<Text>)
    requires WellFormed(updates) && Elements(keys) == updates.Keys
    ensures forall k :: k in Missing(keys, lines) ==> k in updates && k !in FirstWins(Bindings(lines))
    ensures forall k :: k in updates ==> k in FirstWins(Bindings(lines)) || k in Missing(keys, lines)
  {
    MissingIsKnown(keys, lines, updates);
    MissingElements(keys, lines);
    forall k | k in updates
      ensures k in FirstWins(Bindings(lines)) <==> k !in Missing(keys, lines)
    {
      assert k in Elements(keys);
      BoundIsAssigned(lines, updates, k);
    }
  }

  lemma BoundAfterUpsert(file: Option<Text>, updates: map<Text, Text>, keys: seq<Text>)
    requires WellFormed(updates) && Elements(keys) == updates.Keys
    ensures FirstWins(Bindings(LinesOf(Upserted(file, updates, keys)))) == FirstWins(Bindings(LinesIn(file))) + updates
  {
    var bindings := Bindings(LinesIn(file));
    var missing := Missing(keys, LinesIn(file));
    UpsertBindings(file, updates, keys);
    FirstWinsConcat(Overridden(bindings, updates), Pairs(missing, updates));
    FirstWinsOverridden(bindings, updates);
    FirstWinsPairs(missing, updates);
    MissingOrBound(LinesIn(file), updates, keys);
    OverrideAndExtend(FirstWins(bindings), missing, updates);
  }

  /**
   Reading after an update: what the file bound before, overridden by the updates. As always, variables that are
   set already keep their values.
   */
  lemma LoadAfterUpsert(env: map<Text, Text>, file: Option<Text>, updates: map<Text, Text>, keys: seq<Text>)
    requires WellFormed(updates) && Elements(keys) == updates.Keys
    ensures LoadFile(env, Some(Upserted(file, updates, keys))) == (LoadFile(map[], file) + updates) + env
  {
    var after := Upserted(file, updates, keys);
    ScannedBindings(after);
    LoadedIsFirstWins(env, Scanned(after));
    BoundAfterUpsert(file, updates, keys);
    LoadFileIsFirstWins(file);
  }

  lemma LoadFileIsFirstWins(file: Option<Text>)
    ensures LoadFile(map[], file) == FirstWins(Bindings(LinesIn(file)))
  {
    if file.Some? {
      ScannedBindings(file.value);
      LoadedIsFirstWins(map[], Scanned(file.value));
      assert FirstWins(Bindings(Scanned(file.value))) + map[] == FirstWins(Bindings(Scanned(file.value)));
    }
  }
}
