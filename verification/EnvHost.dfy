/** The process that updates env files and loads them. */
module EnvHost {
  import opened Prelude
  import opened Strings
  import opened Sorting
  import opened EnvLines
  import opened EnvFile
  import opened EnvLens

  datatype EnvError = PathRequired

  /** The updated keys as they are reported: one for each rewritten line, then the appended ones. */
  function Reported(lines: seq<Text>, updates: map<Text, Text>): seq<Text> {
    Collect(lines, (line: Text) => if IsUpdated(line, updates) then Some(Assignment(line).value.0) else None)
  }

  function FileAt(files: map<Text, Text>, path: Text): Option<Text> {
    if path in files then Some(files[path]) else None
  }

  function DefaultPath(variables: map<Text, Text>): Text {
    var name: Text := "MNEMOSYNE_DOTENV_PATH";
    if name in variables && Trim(variables[name]) != [] then Trim(variables[name]) else ".env.local"
  }

  /** The files, and the environment of the process. */
  class Host {
    var files: map<Text, Text>
    var variables: map<Text, Text>

    constructor (variables: map<Text, Text>)
      ensures files == map[] && this.variables == variables
    {
      this.files, this.variables := map[], variables;
    }

    method UpsertEnvFile(given: Text, updates: map<Text, Text>)
      returns (r: Result<(bool, seq<Text>), EnvError>, ghost keys: seq<Text>)
      modifies `files
      ensures InOrder(keys, updates)
      ensures Trim(given) == [] ==> r == Err(PathRequired) && files == old(files)
      ensures Trim(given) != [] ==>
                var path, file := Trim(given), FileAt(old(files), Trim(given));
                && files == old(files)[path := Upserted(file, updates, keys)]
                && r == Ok((file.None?, Reported(LinesIn(file), updates) + Missing(keys, LinesIn(file))))
    {
      var sorted := SortedKeys(updates);
      keys := sorted;
      var path := Trim(given);
      if path == [] {
        return Err(PathRequired), keys;
      }
      var created, lines := false, [];
      if path in files {
        lines := Split(Unix(files[path]));
      } else {
        created := true;
      }
      ghost var before := lines;
      var updated, seen;
      lines, updated, seen := RewriteLines(lines, updates);
      lines, updated := AppendMissing(before, lines, updated, seen, updates, sorted);
      files := files[path := TrimNewlines(Join(lines)) + "\n"];
      return Ok((created, updated)), keys;
    }

    /** A missing file is no error. */
    method LoadEnvFile(path: Text)
      modifies `variables
      ensures variables == LoadFile(old(variables), FileAt(files, path))
    {
      if path !in files {
        return;
      }
      var lines := Scanned(files[path]);
      for i := 0 to |lines|
        invariant variables == Loaded(old(variables), lines[..i])
      {
        assert lines[..i + 1][..i] == lines[..i];
        var line := Trim(lines[i]);
        if line == [] || line[0] == '#' {
          continue;
        }
        var at := IndexOfEquals(line);
        if at == |line| {
          continue;
        }
        var key := Trim(line[..at]);
        var value := Trim(line[at + 1..]);
        value := TrimQuotes(value);
        if key == [] {
          continue;
        }
        if key in variables {
          continue;
        }
        variables := variables[key := value];
      }
      assert lines[..|lines|] == lines;
    }

    method LoadDefaultLocalEnv()
      modifies `variables
      ensures var named := "MNEMOSYNE_DOTENV_PATH" in old(variables) &&
                           Trim(old(variables)["MNEMOSYNE_DOTENV_PATH"]) != [];
              var path := if named then Trim(old(variables)["MNEMOSYNE_DOTENV_PATH"]) else ".env.local";
              variables == LoadFile(old(variables), FileAt(files, path))
    {
      LoadEnvFile(DefaultPath(variables));
    }
  }

  lemma DistinctByCount<T>(s: seq<T>)
    ensures Distinct(s) <==> forall x :: multiset(s)[x] <= 1
    decreases |s|
  {
    if s != [] {
      var init, last := s[..|s| - 1], Last(s);
      DistinctByCount(init);
      assert s == init + [last];
      assert last in init <==> multiset(init)[last] > 0;
      assert Distinct(s) <==> Distinct(init) && last !in init;
      if forall x :: multiset(s)[x] <= 1 {
        forall x
          ensures multiset(init)[x] <= 1
        {
          assert multiset(s)[x] <= 1;
        }
        assert multiset(s)[last] <= 1;
      }
    }
  }

  /** The keys of a map, sorted; maps are met in no particular order. */
  method SortedKeys(updates: map<Text, Text>) returns (keys: seq<Text>)
    ensures InOrder(keys, updates)
  {
    var met := [];
    var todo := updates.Keys;
    while todo != {}
      invariant Distinct(met) && Elements(met) == updates.Keys - todo && todo <= updates.Keys
      decreases |todo|
    {
      var k :| k in todo;
      assert k !in Elements(met);
      assert Elements(met + [k]) == Elements(met) + {k};
      todo := todo - {k};
      met := met + [k];
    }
    keys := Sort(met, TextLeq);
    TextLeqIsTotalOrder();
    SortSorts(met, TextLeq);
    DistinctByCount(met);
    DistinctByCount(keys);
    forall k
      ensures k in Elements(keys) <==> k in Elements(met)
    {
      assert k in keys <==> k in multiset(keys);
      assert k in met <==> k in multiset(met);
    }
  }

  /** The first `i` lines are rewritten, and their updated keys are reported and seen. */
  ghost predicate Rewritten(
      given: seq<Text>, updates: map<Text, Text>, i: nat, lines: seq<Text>, updated: seq<Text>, seen: set<Text>)
    requires i <= |given|
  {
    && lines == RewriteAll(given[..i], updates) + given[i..]
    && updated == Reported(given[..i], updates)
    && forall k :: k in updates ==> (k in seen <==> AssignedIn(given[..i], k))
  }

  lemma RewriteNext(given: seq<Text>, updates: map<Text, Text>, i: nat)
    requires i < |given|
    ensures (RewriteAll(given[..i], updates) + given[i..])[i := Rewrite(given[i], updates)] ==
            RewriteAll(given[..i + 1], updates) + given[i + 1..]
  {
    var was := RewriteAll(given[..i], updates) + given[i..];
    var now := RewriteAll(given[..i + 1], updates) + given[i + 1..];
    forall j | 0 <= j < |given|
      ensures was[i := Rewrite(given[i], updates)][j] == now[j]
    {
    }
  }

  lemma SeenNext(given: seq<Text>, updates: map<Text, Text>, i: nat, seen: set<Text>)
    requires i < |given| && forall k :: k in updates ==> (k in seen <==> AssignedIn(given[..i], k))
    ensures var now := if IsUpdated(given[i], updates) then seen + {Assignment(given[i]).value.0} else seen;
            forall k :: k in updates ==> (k in now <==> AssignedIn(given[..i + 1], k))
  {
    assert given[..i + 1] == given[..i] + [given[i]];
    AssignedSnoc(given[..i], given[i]);
  }

  lemma RewriteOne(given: seq<Text>, updates: map<Text, Text>, i: nat, lines: seq<Text>, updated: seq<Text>,
    seen: set<Text>)
    requires i < |given| && Rewritten(given, updates, i, lines, updated, seen)
    ensures |lines| == |given| && lines[i] == given[i]
    ensures !IsUpdated(given[i], updates) ==> Rewritten(given, updates, i + 1, lines, updated, seen)
    ensures IsUpdated(given[i], updates) ==>
              var key := Assignment(given[i]).value.0;
              Rewritten(given, updates, i + 1, lines[i := LineFor(key, updates)], updated + [key], seen + {key})
  {
    RewriteNext(given, updates, i);
    SeenNext(given, updates, i, seen);
    ReportedSnoc(given[..i], given[i], updates);
    assert given[..i + 1] == given[..i] + [given[i]];
    assert lines[i := lines[i]] == lines;
  }

  /** Rewrites the assignments of updated keys where they stand. */
  method RewriteLines(given: seq<Text>, updates: map<Text, Text>)
    returns (lines: seq<Text>, updated: seq<Text>, seen: set<Text>)
    ensures lines == RewriteAll(given, updates)
    ensures updated == Reported(given, updates)
    ensures forall k :: k in updates ==> (k in seen <==> AssignedIn(given, k))
  {
    lines, updated, seen := given, [], {};
    for i := 0 to |given|
      invariant Rewritten(given, updates, i, lines, updated, seen)
    {
      RewriteOne(given, updates, i, lines, updated, seen);
      var trimmed := Trim(lines[i]);
      if trimmed == [] || trimmed[0] == '#' {
        continue;
      }
      var at := IndexOfEquals(trimmed);
      if at == |trimmed| {
        continue;
      }
      var key := Trim(trimmed[..at]);
      if key !in updates {
        continue;
      }
      lines := lines[i := key + "=" + updates[key]];
      seen := seen + {key};
      updated := updated + [key];
    }
    assert given[..|given|] == given;
  }

  lemma ReportedSnoc(lines: seq<Text>, line: Text, updates: map<Text, Text>)
    ensures Reported(lines + [line], updates) ==
            Reported(lines, updates) + if IsUpdated(line, updates) then [Assignment(line).value.0] else []
  {
    var f := (line: Text) => if IsUpdated(line, updates) then Some(Assignment(line).value.0) else None;
    CollectConcat(lines, [line], f);
    OneCollected(line, f);
  }

  lemma AssignedSnoc(lines: seq<Text>, line: Text)
    ensures forall k :: AssignedIn(lines + [line], k) <==> AssignedIn(lines, k) || Assigns(line, k)
  {
    assert line in lines + [line];
    assert forall l :: l in lines + [line] <==> l in lines || l == line;
  }

  /** Appends a line for every key not met. */
  method AppendMissing(ghost before: seq<Text>, given: seq<Text>, reported: seq<Text>, seen: set<Text>,
    updates: map<Text, Text>, keys: seq<Text>)
    returns (lines: seq<Text>, updated: seq<Text>)
    requires Elements(keys) == updates.Keys
    requires forall k :: k in updates ==> (k in seen <==> AssignedIn(before, k))
    ensures forall k :: k in Missing(keys, before) ==> k in updates
    ensures lines == given + LinesFor(Missing(keys, before), updates)
    ensures updated == reported + Missing(keys, before)
  {
    MissingIsKnown(keys, before, updates);
    lines, updated := given, reported;
    for i := 0 to |keys|
      invariant forall k :: k in Missing(keys[..i], before) ==> k in updates
      invariant lines == given + LinesFor(Missing(keys[..i], before), updates)
      invariant updated == reported + Missing(keys[..i], before)
    {
      assert keys[..i + 1][..i] == keys[..i] && keys[i] in Elements(keys);
      if keys[i] in seen {
        continue;
      }
      lines := lines + [keys[i] + "=" + updates[keys[i]]];
      updated := updated + [keys[i]];
    }
    assert keys[..|keys|] == keys;
  }
}
