/** The snapshot files: writing, loading and rebuilding them. */
module MemoryFiles {
  import opened Prelude
  import opened Strings
  import opened FileNames
  import opened MemoryModel
  import opened MemoryInvariant
  import opened MemoryJournal

  // ----- The snapshot files -----

  /** Exactly one file for each stored entity, under its hexadecimal name, holding its value. */
  ghost predicate FilesHold<V(!new)>(live: map<Id, V>, files: map<Text, V>) {
    && (forall id :: id in live ==> HexName(id) in files && files[HexName(id)] == live[id])
    && (forall f :: f in files ==> exists id :: id in live && f == HexName(id))
  }

  /** No stored id is the one whose file would be taken for the legacy file of `id`. */
  ghost predicate Harmless<V(!new)>(live: map<Id, V>, id: Id) {
    forall b :: b in live ==> id != Hex(b)
  }

  lemma SnapshotKeepsFiles<V(!new)>(live: map<Id, V>, files: map<Text, V>, id: Id, v: V)
    requires FilesHold(live, files)
    ensures FilesHold(live[id := v], files[HexName(id) := v])
  {
    var live', files' := live[id := v], files[HexName(id) := v];
    forall b | b in live'
      ensures HexName(b) in files' && files'[HexName(b)] == live'[b]
    {
      if HexName(b) == HexName(id) {
        HexNameInjective(b, id);
      }
    }
    forall f | f in files'
      ensures exists b :: b in live' && f == HexName(b)
    {
      if f in files {
        var b :| b in live && f == HexName(b);
        assert b in live' && f == HexName(b);
      } else {
        assert id in live' && f == HexName(id);
      }
    }
  }

  /**
   Completing the write by deleting the legacy file leaves the files right exactly when the written id
   is not spelled as the hexadecimal form of another stored id.
   */
  lemma PersistKeepsFiles<V(!new)>(live: map<Id, V>, files: map<Text, V>, id: Id, v: V)
    requires FilesHold(live, files) && id != []
    ensures FilesHold(live[id := v], Unlinked(files[HexName(id) := v], id)) <==> Harmless(live, id)
  {
    var live', full := live[id := v], files[HexName(id) := v];
    SnapshotKeepsFiles(live, files, id, v);
    OwnNamesDiffer(id);
    var files' := Unlinked(full, id);
    assert files' == full - {LegacyName(id)};
    if Harmless(live, id) {
      forall b | b in live'
        ensures HexName(b) in files'
      {
        LegacyNameHits(id, b);
      }
    } else {
      var b :| b in live && id == Hex(b);
      LegacyNameHits(id, b);
      assert b in live' && HexName(b) !in files';
    }
  }

  /** Card `"61"` and card `"a"`: writing the first loses the file of the second. */
  lemma PersistCanLoseAFile(v: seq<Card>, files: map<Text, seq<Card>>)
    requires FilesHold(map["a" := v], files)
    ensures HexName("a") in files && HexName("a") !in Unlinked(files[HexName("61") := v], "61")
  {
    LegacyNameCollision();
    OwnNamesDiffer("61");
    assert "a" in map["a" := v];
  }

  // ----- Loading -----

  ghost predicate LoadedFrom<V(!new)>(files: map<Text, V>, live: map<Id, V>, key: V -> Option<Id>) {
    && (forall f :: f in files && key(files[f]).Some? ==> key(files[f]).value in live)
    && (forall id :: id in live ==> exists f :: f in files && key(files[f]) == Some(id) && files[f] == live[id])
  }

  function Restricted<V>(files: map<Text, V>, names: set<Text>): map<Text, V> {
    map f | f in files && f in names :: files[f]
  }

  /** Reading one more file, the last one with a given id winning. */
  lemma LoadOneMore<V(!new)>(files: map<Text, V>, read: set<Text>, f: Text, live: map<Id, V>, key: V -> Option<Id>)
    requires LoadedFrom(Restricted(files, read), live, key) && f in files
    ensures var live' := match key(files[f]) case None => live case Some(id) => live[id := files[f]];
            LoadedFrom(Restricted(files, read + {f}), live', key)
  {
    var more := Restricted(files, read + {f});
    assert f in more;
    assert forall f' :: f' in more && f' != f ==> f' in Restricted(files, read);
    forall id | id in live
      ensures exists f' :: f' in more && key(more[f']) == Some(id) && more[f'] == live[id]
    {
      var f' :| f' in Restricted(files, read) && key(files[f']) == Some(id) && files[f'] == live[id];
      assert f' in more && more[f'] == files[f'];
    }
  }

  function CardKey(versions: seq<Card>): Option<Id> {
    if versions == [] then None else Some(versions[0].id)
  }

  function EdgeKey(e: Edge): Option<Id> {
    Some(e.id)
  }

  ghost predicate OneFileEach(files: map<Text, Edge>) {
    forall f, g :: f in files && g in files && files[f].id == files[g].id ==> f == g
  }

  /** The files that hold edge `e` with card `c` at its first end, or at its second. */
  function From(files: map<Text, Edge>, c: Id, e: Id): set<Text> {
    set f | f in files && files[f].id == e && files[f].src == c
  }

  function To(files: map<Text, Edge>, c: Id, e: Id): set<Text> {
    set f | f in files && files[f].id == e && files[f].dst == c
  }

  /** The index lists, under each card, each edge once for each file and endpoint that says so, and nothing else. */
  ghost predicate IndexesFiles(index: map<Id, seq<Id>>, files: map<Text, Edge>) {
    && (forall c, e :: multiset(Get(index, c))[e] == |From(files, c, e)| + |To(files, c, e)|)
    && (forall c :: c in index ==> index[c] != [])
  }

  lemma NothingIndexed()
    ensures IndexesFiles(map[], map[])
  {
    forall c, e
      ensures multiset(Get<Id>(map[], c))[e] == |From(map[], c, e)| + |To(map[], c, e)|
    {
      assert From(map[], c, e) == {} && To(map[], c, e) == {};
      assert Get<Id>(map[], c) == [];
    }
  }

  /** Reading one more file lists its edge under both its endpoints. */
  lemma IndexOneMore(index: map<Id, seq<Id>>, files: map<Text, Edge>, read: set<Text>, f: Text)
    requires IndexesFiles(index, Restricted(files, read)) && f in files && f !in read
    ensures var e := files[f];
            IndexesFiles(IndexAdd(IndexAdd(index, e.src, e.id), e.dst, e.id), Restricted(files, read + {f}))
  {
    var edge, some, more := files[f], Restricted(files, read), Restricted(files, read + {f});
    var half := IndexAdd(index, edge.src, edge.id);
    var after := IndexAdd(half, edge.dst, edge.id);
    forall c, e
      ensures multiset(Get(after, c))[e] == |From(more, c, e)| + |To(more, c, e)|
    {
      IndexAddCounts(index, edge.src, edge.id, c, e);
      IndexAddCounts(half, edge.dst, edge.id, c, e);
      OneMoreFile(files, read, f, c, e);
      assert multiset(Get(index, c))[e] == |From(some, c, e)| + |To(some, c, e)|;
    }
    assert forall c :: c in after ==> after[c] != [];
  }

  lemma OneMoreFile(files: map<Text, Edge>, read: set<Text>, f: Text, c: Id, e: Id)
    requires f in files && f !in read
    ensures var some, more := Restricted(files, read), Restricted(files, read + {f});
            && |From(more, c, e)| == |From(some, c, e)| + (if files[f].id == e && files[f].src == c then 1 else 0)
            && |To(more, c, e)| == |To(some, c, e)| + (if files[f].id == e && files[f].dst == c then 1 else 0)
  {
    var some, more := Restricted(files, read), Restricted(files, read + {f});
    OneMoreRead(files, read, f);
    OneMoreAmong(From(some, c, e), From(more, c, e), f, files[f].id == e && files[f].src == c);
    OneMoreAmong(To(some, c, e), To(more, c, e), f, files[f].id == e && files[f].dst == c);
  }

  lemma OneMoreRead(files: map<Text, Edge>, read: set<Text>, f: Text)
    requires f in files && f !in read
    ensures var some, more := Restricted(files, read), Restricted(files, read + {f});
            && f !in some && f in more && more[f] == files[f]
            && forall g :: g != f ==> (g in more <==> g in some) && (g in some ==> more[g] == some[g])
  {
  }

  /** With one file for each edge, the index is that of the edges. */
  lemma OneFileIsIndexed(files: map<Text, Edge>, mem: Mem)
    requires LoadedFrom(files, mem.edges, EdgeKey) && OneFileEach(files) && IndexesFiles(mem.index, files)
    ensures Indexed(mem)
  {
    forall c, e
      ensures multiset(Get(mem.index, c))[e] == Ends(mem.edges, c, e)
    {
      OneFileEnds(files, mem.edges, c, e);
      assert multiset(Get(mem.index, c))[e] == |From(files, c, e)| + |To(files, c, e)|;
    }
  }

  lemma OneFileEnds(files: map<Text, Edge>, edges: map<Id, Edge>, c: Id, e: Id)
    requires LoadedFrom(files, edges, EdgeKey) && OneFileEach(files)
    ensures |From(files, c, e)| + |To(files, c, e)| == Ends(edges, c, e)
  {
    if e in edges {
      var f :| f in files && EdgeKey(files[f]) == Some(e) && files[f] == edges[e];
      assert From(files, c, e) == if edges[e].src == c then {f} else {};
      assert To(files, c, e) == if edges[e].dst == c then {f} else {};
    } else {
      forall f | f in files
        ensures files[f].id != e
      {
        assert EdgeKey(files[f]).Some?;
      }
      assert From(files, c, e) == {} && To(files, c, e) == {};
    }
  }

  /** What reading the two directories gives, whatever order the files come in. */
  ghost predicate Loaded(disk: Disk, mem: Mem) {
    && LoadedFrom(disk.cardFiles, mem.cards, CardKey)
    && LoadedFrom(disk.edgeFiles, mem.edges, EdgeKey)
    && IndexesFiles(mem.index, disk.edgeFiles)
  }

  lemma LoadRestoresMap<V(!new)>(live: map<Id, V>, files: map<Text, V>, loaded: map<Id, V>, key: V -> Option<Id>)
    requires FilesHold(live, files) && LoadedFrom(files, loaded, key)
    requires forall id :: id in live ==> key(live[id]) == Some(id)
    ensures loaded == live
  {
    forall id | id in live
      ensures id in loaded
    {
      assert key(files[HexName(id)]) == Some(id);
    }
    forall id | id in loaded
      ensures id in live && loaded[id] == live[id]
    {
      var f :| f in files && key(files[f]) == Some(id) && files[f] == loaded[id];
      var b :| b in live && f == HexName(b);
      assert key(live[b]) == Some(b);
    }
  }

  ghost predicate OnDisk(mem: Mem, disk: Disk) {
    FilesHold(mem.cards, disk.cardFiles) && FilesHold(mem.edges, disk.edgeFiles)
  }

  lemma HeldEdgesHaveOneFile(edges: map<Id, Edge>, files: map<Text, Edge>)
    requires FilesHold(edges, files) && forall e :: e in edges ==> edges[e].id == e
    ensures OneFileEach(files)
  {
    forall f, g | f in files && g in files && files[f].id == files[g].id
      ensures f == g
    {
      var a :| a in edges && f == HexName(a);
      var b :| b in edges && g == HexName(b);
      assert edges[a].id == a && edges[b].id == b;
    }
  }

  /** Reading files that hold whole chains and edges gives exactly those, and a well-formed store. */
  lemma LoadsWhatIsHeld(cards: map<Id, seq<Card>>, edges: map<Id, Edge>, disk: Disk, loaded: Mem)
    requires FilesHold(cards, disk.cardFiles) && FilesHold(edges, disk.edgeFiles) && Loaded(disk, loaded)
    requires forall id :: id in cards ==> id != [] && Chain(id, cards[id])
    requires forall e :: e in edges ==> e != [] && edges[e].id == e
    ensures loaded.cards == cards && loaded.edges == edges
    ensures WellFormed(loaded) && OnDisk(loaded, disk)
  {
    forall id | id in cards
      ensures CardKey(cards[id]) == Some(id)
    {
      assert Follows(id, cards[id], 0);
    }
    LoadRestoresMap(cards, disk.cardFiles, loaded.cards, CardKey);
    LoadRestoresMap(edges, disk.edgeFiles, loaded.edges, EdgeKey);
    HeldEdgesHaveOneFile(edges, disk.edgeFiles);
    OneFileIsIndexed(disk.edgeFiles, loaded);
  }

  /** Reading the files back gives the same cards and edges, and the same index up to the order of its lists. */
  lemma LoadRestores(mem: Mem, disk: Disk, loaded: Mem)
    requires WellFormed(mem) && OnDisk(mem, disk) && Loaded(disk, loaded)
    ensures loaded.cards == mem.cards && loaded.edges == mem.edges
    ensures WellFormed(loaded)
    ensures loaded.index.Keys == mem.index.Keys
    ensures forall c :: c in mem.index ==> multiset(loaded.index[c]) == multiset(mem.index[c])
  {
    LoadsWhatIsHeld(mem.cards, mem.edges, disk, loaded);
    SameButIndexed(mem, loaded);
  }

  lemma SameButIndexed(mem: Mem, loaded: Mem)
    requires WellFormed(mem) && Indexed(loaded) && loaded.cards == mem.cards && loaded.edges == mem.edges
    ensures WellFormed(loaded) && loaded.index.Keys == mem.index.Keys
    ensures forall c :: c in mem.index ==> multiset(loaded.index[c]) == multiset(mem.index[c])
  {
    IndexIsDeterminedByEdges(mem, loaded);
  }

  // ----- Rebuilding the snapshot files -----

  /** The files after wiping a directory and writing the entities of a map in the given order. */
  function Rewritten<V>(live: map<Id, V>, order: seq<Id>): map<Text, V>
    requires Elements(order) <= live.Keys
  {
    if order == [] then map[]
    else
      assert forall x :: x in Elements(order[..|order| - 1]) ==> x in Elements(order);
      assert Last(order) in Elements(order);
      var id := Last(order);
      Unlinked(Rewritten(live, order[..|order| - 1])[HexName(id) := live[id]], id)
  }

  /** No later id in the order is the hexadecimal form of an earlier one. */
  predicate HarmlessOrder(order: seq<Id>) {
    forall i, j :: 0 <= i < j < |order| ==> order[j] != Hex(order[i])
  }

  predicate Survives(order: seq<Id>, i: nat)
    requires i < |order|
  {
    forall j :: i < j < |order| ==> order[j] != Hex(order[i])
  }

  /** A file is left for each id that no later id in the order hits, and no other file. */
  ghost predicate Surviving<V(!new)>(live: map<Id, V>, order: seq<Id>, files: map<Text, V>)
    requires Elements(order) <= live.Keys
  {
    && (forall i :: 0 <= i < |order| ==> Left(live, order, files, i))
    && (forall f :: f in files ==> exists i :: 0 <= i < |order| && f == HexName(order[i]))
  }

  ghost predicate Left<V>(live: map<Id, V>, order: seq<Id>, files: map<Text, V>, i: nat)
    requires i < |order| && Elements(order) <= live.Keys
  {
    assert order[i] in Elements(order);
    && (HexName(order[i]) in files <==> Survives(order, i))
    && (Survives(order, i) ==> files[HexName(order[i])] == live[order[i]])
  }

  lemma SurvivesSnoc(init: seq<Id>, id: Id, i: nat)
    requires i < |init|
    ensures Survives(init + [id], i) <==> Survives(init, i) && id != Hex(init[i])
  {
    var order := init + [id];
    assert order[|init|] == id && order[i] == init[i];
    if Survives(order, i) {
      forall j | i < j < |init|
        ensures init[j] != Hex(init[i])
      {
        assert order[j] == init[j];
      }
    }
  }

  lemma RewriteOne<V(!new)>(live: map<Id, V>, init: seq<Id>, id: Id, files: map<Text, V>)
    requires Elements(init + [id]) <= live.Keys && id !in init && id != []
    requires Elements(init) <= live.Keys && id in live && Surviving(live, init, files)
    ensures Surviving(live, init + [id], Unlinked(files[HexName(id) := live[id]], id))
  {
    var order, n := init + [id], |init|;
    OwnNamesDiffer(id);
    var files' := files[HexName(id) := live[id]] - {LegacyName(id)};
    forall i | 0 <= i < |order|
      ensures Left(live, order, files', i)
    {
      if i < n {
        LegacyNameHits(id, order[i]);
        if HexName(order[i]) == HexName(id) {
          HexNameInjective(order[i], id);
        }
        assert Left(live, init, files, i);
        SurvivesSnoc(init, id, i);
      }
    }
    forall f | f in files'
      ensures exists i :: 0 <= i < |order| && f == HexName(order[i])
    {
      if f in files {
        var i :| 0 <= i < n && f == HexName(init[i]);
        assert f == HexName(order[i]);
      } else {
        assert f == HexName(order[n]);
      }
    }
  }

  lemma {:induction false} RewrittenFiles<V(!new)>(live: map<Id, V>, order: seq<Id>)
    requires Distinct(order) && Elements(order) <= live.Keys && [] !in order
    ensures Surviving(live, order, Rewritten(live, order))
    decreases |order|
  {
    if order != [] {
      var init, id := order[..|order| - 1], Last(order);
      assert order == init + [id] && id in Elements(order);
      assert forall x :: x in Elements(init) ==> x in Elements(order);
      RewrittenFiles(live, init);
      RewriteOne(live, init, id, Rewritten(live, init));
    }
  }

  /** The entities with the given ids. */
  function Only<V>(live: map<Id, V>, ids: set<Id>): map<Id, V> {
    map id | id in live && id in ids :: live[id]
  }

  lemma SurvivorsHold<V(!new)>(live: map<Id, V>, order: seq<Id>, files: map<Text, V>)
    requires Elements(order) <= live.Keys && Surviving(live, order, files)
    requires forall i :: 0 <= i < |order| ==> Survives(order, i)
    ensures FilesHold(Only(live, Elements(order)), files)
  {
    var part := Only(live, Elements(order));
    forall id | id in part
      ensures HexName(id) in files && files[HexName(id)] == part[id]
    {
      assert id in Elements(order);
      var i :| 0 <= i < |order| && order[i] == id;
      assert Left(live, order, files, i);
    }
    forall f | f in files
      ensures exists id :: id in part && f == HexName(id)
    {
      var i :| 0 <= i < |order| && f == HexName(order[i]);
      assert order[i] in Elements(order) && f == HexName(order[i]);
      assert order[i] in part;
    }
  }

  /** Rewriting some of the snapshots in a harmless order leaves exactly one right file for each of those. */
  lemma RewritingSomeHolds<V(!new)>(live: map<Id, V>, order: seq<Id>)
    requires Distinct(order) && Elements(order) <= live.Keys && [] !in order && HarmlessOrder(order)
    ensures FilesHold(Only(live, Elements(order)), Rewritten(live, order))
  {
    RewrittenFiles(live, order);
    assert forall i :: 0 <= i < |order| ==> Survives(order, i);
    SurvivorsHold(live, order, Rewritten(live, order));
  }

  /** The entities whose files are among the given ones. */
  function Named<V>(live: map<Id, V>, names: set<Text>): map<Id, V> {
    map id | id in live && HexName(id) in names :: live[id]
  }

  lemma RemainingHold<V(!new)>(live: map<Id, V>, files: map<Text, V>, names: set<Text>)
    requires FilesHold(live, files)
    ensures FilesHold(Named(live, names), Restricted(files, names))
  {
    forall f | f in Restricted(files, names)
      ensures exists id :: id in Named(live, names) && f == HexName(id)
    {
      var id :| id in live && f == HexName(id);
      assert id in Named(live, names);
    }
  }

  /** Rewriting all snapshots leaves exactly one right file each if and only if the order is harmless. */
  lemma RewritingHolds<V(!new)>(live: map<Id, V>, order: seq<Id>)
    requires Distinct(order) && Elements(order) == live.Keys && [] !in order
    ensures FilesHold(live, Rewritten(live, order)) <==> HarmlessOrder(order)
  {
    if HarmlessOrder(order) {
      RewritingSomeHolds(live, order);
      OnlyAll(live, Elements(order));
    } else {
      var i, j :| 0 <= i < j < |order| && order[j] == Hex(order[i]);
      RewritingLoses(live, order, i, j);
    }
  }

  lemma OnlyAll<V>(live: map<Id, V>, ids: set<Id>)
    requires ids == live.Keys
    ensures Only(live, ids) == live
  {
  }

  lemma RewritingLoses<V(!new)>(live: map<Id, V>, order: seq<Id>, i: nat, j: nat)
    requires Distinct(order) && Elements(order) == live.Keys && [] !in order
    requires i < j < |order| && order[j] == Hex(order[i])
    ensures !FilesHold(live, Rewritten(live, order))
  {
    RewrittenFiles(live, order);
    assert !Survives(order, i) && Left(live, order, Rewritten(live, order), i);
    assert order[i] in Elements(order);
  }

  /** The store after its snapshots are rebuilt from the journal, the files being written in the given orders. */
  function Rebuilt(world: World, cardOrder: seq<Id>, edgeOrder: seq<Id>): World
    requires Elements(cardOrder) <= Replay(world.disk.journal).cards.Keys
    requires Elements(edgeOrder) <= Replay(world.disk.journal).edges.Keys
  {
    var mem := Replay(world.disk.journal);
    World(mem, Disk(Rewritten(mem.cards, cardOrder), Rewritten(mem.edges, edgeOrder), world.disk.journal),
      world.persistent)
  }

  /**
   After any crash-free run, rebuilding changes no card, edge or index list, and leaves exactly one right
   file for each of them if and only if both writing orders are harmless.
   */
  lemma RebuildChangesNothing(ops: seq<Op>, cardOrder: seq<Id>, edgeOrder: seq<Id>)
    requires EnabledAll(FRESH, ops)
    requires Distinct(cardOrder) && Elements(cardOrder) == Replay(RunAll(FRESH, ops).disk.journal).cards.Keys
    requires Distinct(edgeOrder) && Elements(edgeOrder) == Replay(RunAll(FRESH, ops).disk.journal).edges.Keys
    ensures var before := RunAll(FRESH, ops);
            var after := Rebuilt(before, cardOrder, edgeOrder);
            && after.mem == before.mem && after.disk.journal == before.disk.journal
            && (OnDisk(after.mem, after.disk) <==> HarmlessOrder(cardOrder) && HarmlessOrder(edgeOrder))
  {
    var before := RunAll(FRESH, ops);
    RunIsJournaled(ops);
    assert [] !in cardOrder by {
      assert [] in cardOrder ==> [] in Elements(cardOrder);
    }
    assert [] !in edgeOrder by {
      assert [] in edgeOrder ==> [] in Elements(edgeOrder);
    }
    RewritingHolds(before.mem.cards, cardOrder);
    RewritingHolds(before.mem.edges, edgeOrder);
  }
}
