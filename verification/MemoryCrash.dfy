/** Runs in which operations are cut off, stores are opened again, and snapshots are rebuilt. */
module MemoryCrash {
  import opened Prelude
  import opened Strings
  import opened MemoryModel
  import opened MemoryInvariant
  import opened MemoryJournal
  import opened MemoryFiles
  import opened FileNames

  // ----- Runs with crashes -----

  datatype Stage = InMemory | Snapshotted | LegacyDropped

  /** The directory after a write that stops at the given stage. */
  function CutDisk(world: World, w: Write, stage: Stage): Disk {
    var mem := Remember(world.mem, w);
    match stage
    case InMemory => world.disk
    case Snapshotted => Snapshot(world.disk, mem, w)
    case LegacyDropped => DropLegacy(Snapshot(world.disk, mem, w), w)
  }

  datatype Move =
    | Completed(op: Op)
      /** The first `done` writes of the operation complete and the next one stops at a stage. */
    | Crashed(op: Op, done: nat, stage: Stage)
    | Restarted
      /** The snapshots are rebuilt from the journal, in the given orders. */
    | Rebuilding(cardOrder: seq<Id>, edgeOrder: seq<Id>)
      /** A rebuild is cut off. */
    | RebuildCut(at: RebuildStage)

  /** The files left, or the entities already written. In harmless orders, dropping legacy files changes nothing. */
  datatype RebuildStage =
    | WipingCards(left: set<Text>)
    | WipingEdges(left: set<Text>)
    | WritingCards(cardOrder: seq<Id>)
    | WritingEdges(cardOrder: seq<Id>, edgeOrder: seq<Id>)

  /** Some of the entities are written, each once. */
  predicate Partial(ids: set<Id>, order: seq<Id>) {
    Distinct(order) && Elements(order) <= ids
  }

  predicate StageFits(replayed: Mem, stage: RebuildStage) {
    match stage
    case WipingCards(_) => true
    case WipingEdges(_) => true
    case WritingCards(cardOrder) => Partial(replayed.cards.Keys, cardOrder)
    case WritingEdges(cardOrder, edgeOrder) =>
      && Partial(replayed.cards.Keys, cardOrder) && Elements(cardOrder) == replayed.cards.Keys
      && Partial(replayed.edges.Keys, edgeOrder)
  }

  /** The directory in which the rebuild stops. */
  function StageDisk(world: World, stage: RebuildStage): Disk
    requires StageFits(Replay(world.disk.journal), stage)
  {
    var replayed, disk := Replay(world.disk.journal), world.disk;
    match stage
    case WipingCards(left) => disk.(cardFiles := Restricted(disk.cardFiles, left))
    case WipingEdges(left) => disk.(cardFiles := map[], edgeFiles := Restricted(disk.edgeFiles, left))
    case WritingCards(cardOrder) => disk.(cardFiles := Rewritten(replayed.cards, cardOrder), edgeFiles := map[])
    case WritingEdges(cardOrder, edgeOrder) =>
      disk.(cardFiles := Rewritten(replayed.cards, cardOrder), edgeFiles := Rewritten(replayed.edges, edgeOrder))
  }

  /** The cards whose files are there then. */
  function StageCards(world: World, stage: RebuildStage): map<Id, seq<Card>> {
    match stage
    case WipingCards(left) => Named(world.mem.cards, left)
    case WipingEdges(_) => map[]
    case WritingCards(cardOrder) => Only(Replay(world.disk.journal).cards, Elements(cardOrder))
    case WritingEdges(cardOrder, _) => Only(Replay(world.disk.journal).cards, Elements(cardOrder))
  }

  function StageEdges(world: World, stage: RebuildStage): map<Id, Edge> {
    match stage
    case WipingCards(_) => world.mem.edges
    case WipingEdges(left) => Named(world.mem.edges, left)
    case WritingCards(_) => map[]
    case WritingEdges(_, edgeOrder) => Only(Replay(world.disk.journal).edges, Elements(edgeOrder))
  }

  /** The orders name every replayed card and edge once. */
  predicate RebuildFits(replayed: Mem, cardOrder: seq<Id>, edgeOrder: seq<Id>) {
    && Distinct(cardOrder) && Elements(cardOrder) == replayed.cards.Keys
    && Distinct(edgeOrder) && Elements(edgeOrder) == replayed.edges.Keys
  }

  ghost predicate Next(world: World, m: Move, world': World) {
    && world'.persistent == world.persistent
    && match m
       case Completed(op) => Enabled(world.mem, op) && world' == Step(world, op)
       case Crashed(op, done, stage) =>
         var ws := Writes(world.mem, op);
         && Enabled(world.mem, op) && done < |ws|
         && world'.disk == CutDisk(ApplyAll(world, ws[..done]), ws[done], stage)
         && Loaded(world'.disk, world'.mem)
       case Restarted => world'.disk == world.disk && Loaded(world'.disk, world'.mem)
       case Rebuilding(cardOrder, edgeOrder) =>
         && RebuildFits(Replay(world.disk.journal), cardOrder, edgeOrder)
         && world' == Rebuilt(world, cardOrder, edgeOrder)
       case RebuildCut(stage) =>
         && StageFits(Replay(world.disk.journal), stage)
         && world'.disk == StageDisk(world, stage) && Loaded(world'.disk, world'.mem)
  }

  // ----- What each step has to meet -----

  /** The written id is not spelled as the hexadecimal form of another stored one. */
  ghost predicate KeepsFiles(mem: Mem, w: Write) {
    match w
    case PutCard(_, c) => Harmless(mem.cards, c.id)
    case PutEdge(e) => Harmless(mem.edges, e.id)
  }

  predicate SameEnds(a: Edge, b: Edge) {
    (a.src == b.src && a.dst == b.dst) || (a.src == b.dst && a.dst == b.src)
  }

  /** The journal holds no edge of this id with other endpoints. */
  predicate LogsCleanly(world: World, w: Write) {
    var replayed := Replay(world.disk.journal);
    match w
    case PutCard(_, _) => true
    case PutEdge(e) => e.id in replayed.edges ==> SameEnds(replayed.edges[e.id], e)
  }

  /** The write does not create what the store lacks and the journal holds otherwise. */
  predicate CutsCleanly(world: World, w: Write) {
    var replayed := Replay(world.disk.journal);
    match w
    case PutCard(_, c) => c.id in world.mem.cards || c.id !in replayed.cards || replayed.cards[c.id] == [c]
    case PutEdge(e) => e.id !in replayed.edges || replayed.edges[e.id] == e
  }

  ghost predicate Guarded(world: World, w: Write) {
    Legal(world.mem, w) && KeepsFiles(world.mem, w) && LogsCleanly(world, w)
  }

  ghost predicate GuardedAll(world: World, ws: seq<Write>) {
    ws != [] ==> GuardedAll(world, ws[..|ws| - 1]) && Guarded(ApplyAll(world, ws[..|ws| - 1]), Last(ws))
  }

  /** The write may be cut off at this stage. */
  ghost predicate MayStop(world: World, w: Write, stage: Stage) {
    && (stage == LegacyDropped ==> KeepsFiles(world.mem, w))
    && (stage != InMemory ==> CutsCleanly(world, w))
  }

  predicate StageIsHarmless(stage: RebuildStage) {
    match stage
    case WipingCards(_) => true
    case WipingEdges(_) => true
    case WritingCards(cardOrder) => HarmlessOrder(cardOrder)
    case WritingEdges(cardOrder, edgeOrder) => HarmlessOrder(cardOrder) && HarmlessOrder(edgeOrder)
  }

  /** No write of the step loses a file or contradicts the journal. */
  ghost predicate Steady(world: World, m: Move) {
    match m
    case Completed(op) => GuardedAll(world, Writes(world.mem, op))
    case Crashed(op, done, stage) =>
      var ws := Writes(world.mem, op);
      done < |ws| ==> GuardedAll(world, ws[..done]) && MayStop(ApplyAll(world, ws[..done]), ws[done], stage)
    case Restarted => true
    case Rebuilding(cardOrder, edgeOrder) => HarmlessOrder(cardOrder) && HarmlessOrder(edgeOrder)
    case RebuildCut(stage) => StageIsHarmless(stage)
  }

  // ----- What a store that can be repaired is -----

  /** Where both have an entity, the journal may lag behind the store, but never disagrees with it. */
  ghost predicate Agree(replayed: Mem, live: Mem) {
    && (forall id :: id in replayed.cards && id in live.cards ==> replayed.cards[id] <= live.cards[id])
    && (forall e :: e in replayed.edges && e in live.edges ==> replayed.edges[e] == live.edges[e])
  }

  /** The cards and edges that the journal holds and the store lacks. */
  function Missing(world: World): (set<Id>, set<Id>) {
    var replayed := Replay(world.disk.journal);
    (replayed.cards.Keys - world.mem.cards.Keys, replayed.edges.Keys - world.mem.edges.Keys)
  }

  /** The directories hold exactly the store, and the journal agrees with it; but the store may lack something. */
  ghost predicate Repairable(world: World) {
    && world.persistent
    && WellFormed(world.mem)
    && OnDisk(world.mem, world.disk)
    && WellFormed(Replay(world.disk.journal))
    && Agree(Replay(world.disk.journal), world.mem)
  }

  ghost predicate Recoverable(world: World) {
    Repairable(world) && Missing(world) == ({}, {})
  }

  lemma SnapshotHolds(world: World, w: Write)
    requires OnDisk(world.mem, world.disk)
    ensures OnDisk(Remember(world.mem, w), Snapshot(world.disk, Remember(world.mem, w), w))
  {
    match w
    case PutCard(_, c) =>
      SnapshotKeepsFiles(world.mem.cards, world.disk.cardFiles, c.id, Remember(world.mem, w).cards[c.id]);
    case PutEdge(e) =>
      SnapshotKeepsFiles(world.mem.edges, world.disk.edgeFiles, e.id, e);
  }

  lemma PersistHoldsIff(world: World, w: Write)
    requires OnDisk(world.mem, world.disk) && Legal(world.mem, w)
    ensures OnDisk(Remember(world.mem, w), CutDisk(world, w, LegacyDropped)) <==> KeepsFiles(world.mem, w)
  {
    match w
    case PutCard(_, c) =>
      PersistKeepsFiles(world.mem.cards, world.disk.cardFiles, c.id, Remember(world.mem, w).cards[c.id]);
    case PutEdge(e) =>
      PersistKeepsFiles(world.mem.edges, world.disk.edgeFiles, e.id, e);
  }

  /** The card and the edge that a write concerns. */
  function Written(w: Write): (set<Id>, set<Id>) {
    match w
    case PutCard(_, c) => ({c.id}, {})
    case PutEdge(e) => ({}, {e.id})
  }

  lemma RememberAddsOne(mem: Mem, w: Write)
    ensures Remember(mem, w).cards.Keys == mem.cards.Keys + Written(w).0
    ensures Remember(mem, w).edges.Keys == mem.edges.Keys + Written(w).1
  {
  }

  function Without(a: (set<Id>, set<Id>), b: (set<Id>, set<Id>)): (set<Id>, set<Id>) {
    (a.0 - b.0, a.1 - b.1)
  }

  function Both(a: (set<Id>, set<Id>), b: (set<Id>, set<Id>)): (set<Id>, set<Id>) {
    (a.0 + b.0, a.1 + b.1)
  }

  lemma WithoutBoth(a: (set<Id>, set<Id>), b: (set<Id>, set<Id>), c: (set<Id>, set<Id>))
    ensures Without(Without(a, b), c) == Without(a, Both(b, c))
    ensures Without(a, ({}, {})) == a
    ensures Without(({}, {}), b) == ({}, {})
  {
    assert Without(Without(a, b), c).0 == Without(a, Both(b, c)).0;
    assert Without(Without(a, b), c).1 == Without(a, Both(b, c)).1;
    assert Without(a, ({}, {})).0 == a.0 && Without(a, ({}, {})).1 == a.1;
    assert Without(({}, {}), b).0 == {} && Without(({}, {}), b).1 == {};
  }

  /** What is written is no longer missing, whether the journal has it too or not. */
  lemma WrittenIsNotMissing(world: World, after: World, w: Write)
    requires after.mem.cards.Keys == world.mem.cards.Keys + Written(w).0
    requires after.mem.edges.Keys == world.mem.edges.Keys + Written(w).1
    requires var old_, new_ := Replay(world.disk.journal), Replay(after.disk.journal);
             && old_.cards.Keys <= new_.cards.Keys <= old_.cards.Keys + Written(w).0
             && old_.edges.Keys <= new_.edges.Keys <= old_.edges.Keys + Written(w).1
    ensures Missing(after) == Without(Missing(world), Written(w))
  {
    assert Missing(after).0 == Missing(world).0 - Written(w).0;
    assert Missing(after).1 == Missing(world).1 - Written(w).1;
  }

  /** In memory, and so on the disk, before the journal line: the journal agrees exactly if the write may stop there. */
  lemma RememberKeepsAgreementIff(world: World, w: Write)
    requires WellFormed(Replay(world.disk.journal)) && Legal(world.mem, w)
    requires Agree(Replay(world.disk.journal), world.mem)
    ensures Agree(Replay(world.disk.journal), Remember(world.mem, w)) <==> CutsCleanly(world, w)
  {
    var replayed, after := Replay(world.disk.journal), Remember(world.mem, w);
    match w
    case PutCard(_, c) =>
      if c.id in replayed.cards {
        assert Chain(c.id, replayed.cards[c.id]);
        if c.id !in world.mem.cards && replayed.cards[c.id] <= [c] {
          assert replayed.cards[c.id] == [c];
        }
      }
    case PutEdge(e) =>
  }

  lemma LogAgrees(world: World, w: Write)
    requires world.persistent && WellFormed(world.mem) && Legal(world.mem, w)
    requires Agree(Replay(world.disk.journal), world.mem)
    ensures Agree(Replay(Apply(world, w).disk.journal), Remember(world.mem, w))
    ensures Missing(Apply(world, w)) == Without(Missing(world), Written(w))
  {
    LogAddsOne(world, w);
    RememberAddsOne(world.mem, w);
    LoggedAgrees(Replay(world.disk.journal), Replay(Apply(world, w).disk.journal), world.mem, w);
    WrittenIsNotMissing(world, Apply(world, w), w);
  }

  /** The replayed store after a journal line. */
  ghost predicate Logged(before: Mem, after: Mem, mem: Mem, w: Write) {
    match w
    case PutCard(_, c) =>
      && after.cards == before.cards[c.id := Remember(mem, w).cards[c.id]]
      && after.edges == before.edges && after.index == before.index
    case PutEdge(e) =>
      after == if e.id in before.edges then before.(edges := before.edges[e.id := e]) else AddEdge(before, e)
  }

  lemma LoggedAgrees(before: Mem, after: Mem, mem: Mem, w: Write)
    requires Logged(before, after, mem, w) && Agree(before, mem)
    ensures Agree(after, Remember(mem, w))
    ensures before.cards.Keys <= after.cards.Keys <= before.cards.Keys + Written(w).0
    ensures before.edges.Keys <= after.edges.Keys <= before.edges.Keys + Written(w).1
  {
  }

  /** A journal line adds to the replayed store what the write adds to the store. */
  lemma LogAddsOne(world: World, w: Write)
    requires world.persistent && WellFormed(world.mem) && Legal(world.mem, w)
    ensures Logged(Replay(world.disk.journal), Replay(Apply(world, w).disk.journal), world.mem, w)
  {
    ReplayLogged(world, w);
    RememberKeepsWellFormed(world.mem, w);
    match w
    case PutCard(_, c) =>
      assert Follows(c.id, Remember(world.mem, w).cards[c.id], 0);
    case PutEdge(e) =>
  }

  /**
   A journal line adds to the replayed store the whole chain of one card, or an edge. An edge that it holds already
   keeps its old entries in the index, which are right exactly if the endpoints are the same.
   */
  lemma LogKeepsWellFormedIff(world: World, w: Write)
    requires world.persistent && WellFormed(world.mem) && Legal(world.mem, w)
    requires WellFormed(Replay(world.disk.journal))
    ensures WellFormed(Replay(Apply(world, w).disk.journal)) <==> LogsCleanly(world, w)
  {
    LogAddsOne(world, w);
    RememberKeepsWellFormed(world.mem, w);
    match w
    case PutCard(_, c) =>
      ReplacedCardKeepsWellFormed(Replay(world.disk.journal), c.id, Remember(world.mem, w).cards[c.id],
                                  Replay(Apply(world, w).disk.journal));
    case PutEdge(e) =>
      ReplayedEdgeWellFormedIff(Replay(world.disk.journal), e, Replay(Apply(world, w).disk.journal));
  }

  lemma ReplacedCardKeepsWellFormed(before: Mem, id: Id, versions: seq<Card>, after: Mem)
    requires WellFormed(before) && id != [] && Chain(id, versions)
    requires after.cards == before.cards[id := versions] && after.edges == before.edges && after.index == before.index
    ensures WellFormed(after)
  {
    assert Indexed(after);
  }

  lemma ReplayedEdgeWellFormedIff(before: Mem, e: Edge, after: Mem)
    requires WellFormed(before) && e.id != []
    requires after == if e.id in before.edges then before.(edges := before.edges[e.id := e]) else AddEdge(before, e)
    ensures WellFormed(after) <==> (e.id in before.edges ==> SameEnds(before.edges[e.id], e))
  {
    if e.id in before.edges {
      ReplacedEdgeIndexedIff(before, e);
    } else {
      AddEdgeKeepsIndexed(before, e);
    }
  }

  lemma ReplacedEdgeIndexedIff(mem: Mem, e: Edge)
    requires Indexed(mem) && e.id in mem.edges
    ensures Indexed(mem.(edges := mem.edges[e.id := e])) <==> SameEnds(mem.edges[e.id], e)
  {
    var after := mem.(edges := mem.edges[e.id := e]);
    if SameEnds(mem.edges[e.id], e) {
      forall c, x
        ensures multiset(Get(after.index, c))[x] == Ends(after.edges, c, x)
      {
        assert multiset(Get(mem.index, c))[x] == Ends(mem.edges, c, x);
      }
    } else {
      EndsDiffer(mem.edges[e.id], e);
      var c :| EndsAt(mem.edges[e.id], c) != EndsAt(e, c);
      assert multiset(Get(mem.index, c))[e.id] == Ends(mem.edges, c, e.id) == EndsAt(mem.edges[e.id], c);
      assert Ends(after.edges, c, e.id) == EndsAt(e, c);
    }
  }

  function EndsAt(e: Edge, c: Id): nat {
    (if e.src == c then 1 else 0) + (if e.dst == c then 1 else 0)
  }

  lemma EndsDiffer(a: Edge, b: Edge)
    requires !SameEnds(a, b)
    ensures exists c :: EndsAt(a, c) != EndsAt(b, c)
  {
    if EndsAt(a, a.src) == EndsAt(b, a.src) && EndsAt(a, a.dst) == EndsAt(b, a.dst) {
      assert EndsAt(a, b.src) != EndsAt(b, b.src) || EndsAt(a, b.dst) != EndsAt(b, b.dst);
    }
  }

  /** What reading the directories gives can be repaired exactly if the journal agrees with it. */
  lemma ReloadIsRepairableIff(cards: map<Id, seq<Card>>, edges: map<Id, Edge>, world': World)
    requires world'.persistent && FilesHold(cards, world'.disk.cardFiles) && FilesHold(edges, world'.disk.edgeFiles)
    requires forall id :: id in cards ==> id != [] && Chain(id, cards[id])
    requires forall e :: e in edges ==> e != [] && edges[e].id == e
    requires WellFormed(Replay(world'.disk.journal)) && Loaded(world'.disk, world'.mem)
    ensures Repairable(world') <==> Agree(Replay(world'.disk.journal), Mem(cards, edges, map[]))
    ensures WellFormed(world'.mem) && world'.mem.cards == cards && world'.mem.edges == edges
  {
    LoadsWhatIsHeld(cards, edges, world'.disk, world'.mem);
    SameAgreement(Replay(world'.disk.journal), world'.mem, Mem(cards, edges, map[]));
  }

  lemma SameAgreement(replayed: Mem, a: Mem, b: Mem)
    requires a.cards == b.cards && a.edges == b.edges
    ensures Agree(replayed, a) <==> Agree(replayed, b)
  {
  }

  lemma ApplyIsCutAndLog(world: World, w: Write)
    requires world.persistent
    ensures Apply(world, w).persistent && Apply(world, w).mem == Remember(world.mem, w)
    ensures Apply(world, w).disk.cardFiles == CutDisk(world, w, LegacyDropped).cardFiles
    ensures Apply(world, w).disk.edgeFiles == CutDisk(world, w, LegacyDropped).edgeFiles
  {
  }

  /**
   A completed write keeps the store repairable exactly when it loses no file of another entity, and is not an edge
   that the journal holds with other endpoints. What it writes is no longer missing.
   */
  lemma WriteIsRepairableIff(world: World, w: Write)
    requires Repairable(world) && Legal(world.mem, w)
    ensures Repairable(Apply(world, w)) <==> KeepsFiles(world.mem, w) && LogsCleanly(world, w)
    ensures Missing(Apply(world, w)) == Without(Missing(world), Written(w))
  {
    RememberKeepsWellFormed(world.mem, w);
    ApplyIsCutAndLog(world, w);
    PersistHoldsIff(world, w);
    LogAgrees(world, w);
    LogKeepsWellFormedIff(world, w);
  }

  /** If nothing is missing, only files can be lost. */
  lemma WriteIsRecoverableIff(world: World, w: Write)
    requires Recoverable(world) && Legal(world.mem, w)
    ensures Recoverable(Apply(world, w)) <==> KeepsFiles(world.mem, w)
  {
    WriteIsRepairableIff(world, w);
    NothingMissingLogsCleanly(world, w);
    WithoutBoth(({}, {}), Written(w), Written(w));
  }

  lemma NothingMissingLogsCleanly(world: World, w: Write)
    requires Missing(world) == ({}, {}) && Legal(world.mem, w)
    ensures LogsCleanly(world, w)
  {
    MissingIff(world);
  }

  /**
   A write that is cut off leaves the restarted store repairable exactly when it stopped before the snapshot, or does
   not create, with another value, what the journal holds and the store lacks.
   */
  lemma CutIsRepairableIff(world: World, w: Write, stage: Stage, world': World)
    requires Repairable(world) && Legal(world.mem, w) && world'.persistent
    requires stage == LegacyDropped ==> KeepsFiles(world.mem, w)
    requires world'.disk == CutDisk(world, w, stage) && Loaded(world'.disk, world'.mem)
    ensures Repairable(world') <==> stage == InMemory || CutsCleanly(world, w)
    ensures Missing(world') == if stage == InMemory then Missing(world) else Without(Missing(world), Written(w))
    ensures var mem := if stage == InMemory then world.mem else Remember(world.mem, w);
            world'.mem.cards == mem.cards && world'.mem.edges == mem.edges
  {
    var mem := CutHolds(world, w, stage);
    RememberKeepsWellFormed(world.mem, w);
    RememberKeepsAgreementIff(world, w);
    HeldIsRepairableIff(mem, world');
    if stage != InMemory {
      RememberAddsOne(world.mem, w);
      WrittenIsNotMissing(world, world', w);
    }
  }

  lemma HeldIsRepairableIff(mem: Mem, world': World)
    requires world'.persistent && WellFormed(mem) && OnDisk(mem, world'.disk)
    requires WellFormed(Replay(world'.disk.journal)) && Loaded(world'.disk, world'.mem)
    ensures Repairable(world') <==> Agree(Replay(world'.disk.journal), mem)
    ensures WellFormed(world'.mem) && world'.mem.cards == mem.cards && world'.mem.edges == mem.edges
  {
    ReloadIsRepairableIff(mem.cards, mem.edges, world');
  }

  /** A cut write leaves the directory right for the store before it or for the store after it. */
  lemma CutHolds(world: World, w: Write, stage: Stage) returns (mem: Mem)
    requires OnDisk(world.mem, world.disk) && Legal(world.mem, w)
    requires stage == LegacyDropped ==> KeepsFiles(world.mem, w)
    ensures mem == (if stage == InMemory then world.mem else Remember(world.mem, w))
    ensures OnDisk(mem, CutDisk(world, w, stage)) && CutDisk(world, w, stage).journal == world.disk.journal
  {
    SnapshotHolds(world, w);
    PersistHoldsIff(world, w);
    mem := if stage == InMemory then world.mem else Remember(world.mem, w);
  }

  /** The cards and edges that several writes concern. */
  function AllWritten(ws: seq<Write>): (set<Id>, set<Id>) {
    if ws == [] then ({}, {})
    else Both(AllWritten(ws[..|ws| - 1]), Written(Last(ws)))
  }

  lemma {:induction false} WritesAreRepairable(world: World, ws: seq<Write>)
    requires Repairable(world) && GuardedAll(world, ws)
    ensures Repairable(ApplyAll(world, ws))
    ensures Missing(ApplyAll(world, ws)) == Without(Missing(world), AllWritten(ws))
    decreases |ws|
  {
    if ws == [] {
      WithoutBoth(Missing(world), ({}, {}), ({}, {}));
    } else {
      WritesAreRepairable(world, ws[..|ws| - 1]);
      WriteIsRepairableIff(ApplyAll(world, ws[..|ws| - 1]), Last(ws));
      WithoutBoth(Missing(world), AllWritten(ws[..|ws| - 1]), Written(Last(ws)));
    }
  }

  lemma {:induction false} LegalAtEach(world: World, ws: seq<Write>, k: nat)
    requires LegalAll(world, ws) && k < |ws|
    ensures LegalAll(world, ws[..k]) && Legal(ApplyAll(world, ws[..k]).mem, ws[k])
    decreases |ws|
  {
    if k < |ws| - 1 {
      LegalAtEach(world, ws[..|ws| - 1], k);
      assert ws[..|ws| - 1][..k] == ws[..k];
    }
  }

  /** What a step writes into memory and the snapshots. */
  function Persisted(world: World, m: Move): (set<Id>, set<Id>) {
    match m
    case Completed(op) => AllWritten(Writes(world.mem, op))
    case Crashed(op, done, stage) =>
      var ws := Writes(world.mem, op);
      if |ws| <= done then ({}, {})
      else if stage == InMemory then AllWritten(ws[..done])
      else Both(AllWritten(ws[..done]), Written(ws[done]))
    case _ => ({}, {})
  }

  /** Operations, crashes in them and restarts: the store lacks afterwards what it lacked, but for what they write. */
  lemma NextKeepsRepairable(world: World, m: Move, world': World)
    requires Repairable(world) && Next(world, m, world') && Steady(world, m) && !m.Rebuilding? && !m.RebuildCut?
    ensures Repairable(world') && Missing(world') == Without(Missing(world), Persisted(world, m))
  {
    match m
    case Completed(op) => WritesAreRepairable(world, Writes(world.mem, op));
    case Crashed(op, done, stage) =>
      WritesAreLegal(world, op);
      CrashIsRepairable(world, Writes(world.mem, op), done, stage, world');
    case Restarted =>
      HeldIsRepairableIff(world.mem, world');
      WithoutBoth(Missing(world), ({}, {}), ({}, {}));
  }

  lemma CrashIsRepairable(world: World, ws: seq<Write>, done: nat, stage: Stage, world': World)
    requires Repairable(world) && LegalAll(world, ws) && done < |ws| && world'.persistent
    requires GuardedAll(world, ws[..done]) && MayStop(ApplyAll(world, ws[..done]), ws[done], stage)
    requires world'.disk == CutDisk(ApplyAll(world, ws[..done]), ws[done], stage) && Loaded(world'.disk, world'.mem)
    ensures Repairable(world')
    ensures Missing(world') == Without(Missing(world), if stage == InMemory then AllWritten(ws[..done])
                                                       else Both(AllWritten(ws[..done]), Written(ws[done])))
  {
    LegalAtEach(world, ws, done);
    WritesAreRepairable(world, ws[..done]);
    CutIsRepairableIff(ApplyAll(world, ws[..done]), ws[done], stage, world');
    WithoutBoth(Missing(world), AllWritten(ws[..done]), Written(ws[done]));
  }

  // ----- Rebuilds, complete and cut off -----

  lemma NoBlankId<V>(live: map<Id, V>, order: seq<Id>)
    requires Elements(order) <= live.Keys && [] !in live
    ensures [] !in order
  {
    assert [] in order ==> [] in Elements(order);
  }

  /** A complete rebuild mends whatever was missing, exactly when its orders lose no file. */
  lemma RebuildIsRecoverableIff(world: World, cardOrder: seq<Id>, edgeOrder: seq<Id>)
    requires world.persistent && WellFormed(Replay(world.disk.journal))
    requires RebuildFits(Replay(world.disk.journal), cardOrder, edgeOrder)
    ensures Repairable(Rebuilt(world, cardOrder, edgeOrder)) <==> HarmlessOrder(cardOrder) && HarmlessOrder(edgeOrder)
    ensures Missing(Rebuilt(world, cardOrder, edgeOrder)) == ({}, {})
  {
    var replayed := Replay(world.disk.journal);
    NoBlankId(replayed.cards, cardOrder);
    NoBlankId(replayed.edges, edgeOrder);
    RewritingHolds(replayed.cards, cardOrder);
    RewritingHolds(replayed.edges, edgeOrder);
    MissingIff(Rebuilt(world, cardOrder, edgeOrder));
  }

  lemma MissingIff(world: World)
    ensures var replayed := Replay(world.disk.journal);
            Missing(world) == ({}, {}) <==>
            && (forall id :: id in replayed.cards ==> id in world.mem.cards)
            && (forall e :: e in replayed.edges ==> e in world.mem.edges)
  {
    var replayed := Replay(world.disk.journal);
    assert Missing(world).0 == {} <==> forall id :: id in replayed.cards ==> id in world.mem.cards by {
      assert forall id :: id in Missing(world).0 <==> id in replayed.cards && id !in world.mem.cards;
    }
    assert Missing(world).1 == {} <==> forall e :: e in replayed.edges ==> e in world.mem.edges by {
      assert forall e :: e in Missing(world).1 <==> e in replayed.edges && e !in world.mem.edges;
    }
  }

  lemma StageHolds(world: World, stage: RebuildStage)
    requires Repairable(world) && StageFits(Replay(world.disk.journal), stage) && StageIsHarmless(stage)
    ensures FilesHold(StageCards(world, stage), StageDisk(world, stage).cardFiles)
    ensures FilesHold(StageEdges(world, stage), StageDisk(world, stage).edgeFiles)
  {
    var replayed := Replay(world.disk.journal);
    match stage
    case WipingCards(left) => RemainingHold(world.mem.cards, world.disk.cardFiles, left);
    case WipingEdges(left) => RemainingHold(world.mem.edges, world.disk.edgeFiles, left);
    case WritingCards(cardOrder) =>
      NoBlankId(replayed.cards, cardOrder);
      RewritingSomeHolds(replayed.cards, cardOrder);
    case WritingEdges(cardOrder, edgeOrder) =>
      NoBlankId(replayed.cards, cardOrder);
      NoBlankId(replayed.edges, edgeOrder);
      RewritingSomeHolds(replayed.cards, cardOrder);
      RewritingSomeHolds(replayed.edges, edgeOrder);
  }

  /** A rebuild that is cut off leaves, after the restart, the part of the store whose files were there. */
  lemma RebuildCutIsRepairable(world: World, stage: RebuildStage, world': World)
    requires Repairable(world) && Next(world, RebuildCut(stage), world') && StageIsHarmless(stage)
    ensures Repairable(world') && world'.disk.journal == world.disk.journal
    ensures world'.mem.cards == StageCards(world, stage) && world'.mem.edges == StageEdges(world, stage)
  {
    StageHolds(world, stage);
    ReloadIsRepairableIff(StageCards(world, stage), StageEdges(world, stage), world');
  }

  /** Every journaled entity has its file where the rebuild stops. */
  predicate LosesNothing(world: World, stage: RebuildStage) {
    var replayed := Replay(world.disk.journal);
    match stage
    case WipingCards(left) =>
      && (forall id :: id in replayed.cards ==> id in world.mem.cards && HexName(id) in left)
      && replayed.edges.Keys <= world.mem.edges.Keys
    case WipingEdges(left) =>
      && replayed.cards == map[]
      && (forall e :: e in replayed.edges ==> e in world.mem.edges && HexName(e) in left)
    case WritingCards(cardOrder) => Elements(cardOrder) == replayed.cards.Keys && replayed.edges == map[]
    case WritingEdges(_, edgeOrder) => Elements(edgeOrder) == replayed.edges.Keys
  }

  lemma RebuildCutIsRecoverableIff(world: World, stage: RebuildStage, world': World)
    requires Repairable(world) && Next(world, RebuildCut(stage), world') && StageIsHarmless(stage)
    ensures Recoverable(world') <==> LosesNothing(world, stage)
  {
    RebuildCutIsRepairable(world, stage, world');
    MissingIff(world');
    StageLosesNothing(world, stage, StageCards(world, stage), StageEdges(world, stage));
  }

  lemma StageLosesNothing(world: World, stage: RebuildStage, cards: map<Id, seq<Card>>, edges: map<Id, Edge>)
    requires StageFits(Replay(world.disk.journal), stage)
    requires cards == StageCards(world, stage) && edges == StageEdges(world, stage)
    ensures var replayed := Replay(world.disk.journal);
            LosesNothing(world, stage) <==>
            (forall id :: id in replayed.cards ==> id in cards) && (forall e :: e in replayed.edges ==> e in edges)
  {
    var replayed := Replay(world.disk.journal);
    match stage
    case WipingCards(left) =>
      assert forall id :: id in cards <==> id in world.mem.cards && HexName(id) in left;
      assert replayed.edges.Keys <= world.mem.edges.Keys <==> forall e :: e in replayed.edges ==> e in edges;
    case WipingEdges(left) =>
      assert replayed.cards == map[] <==> forall id :: id in replayed.cards ==> id in cards;
      assert forall e :: e in edges <==> e in world.mem.edges && HexName(e) in left;
    case WritingCards(cardOrder) =>
      assert Elements(cardOrder) == replayed.cards.Keys <==> forall id :: id in replayed.cards ==> id in cards;
      assert replayed.edges == map[] <==> forall e :: e in replayed.edges ==> e in edges;
    case WritingEdges(cardOrder, edgeOrder) =>
      assert Elements(edgeOrder) == replayed.edges.Keys <==> forall e :: e in replayed.edges ==> e in edges;
  }

  ghost predicate Run(worlds: seq<World>, moves: seq<Move>) {
    && |worlds| == |moves| + 1
    && worlds[0] == FRESH
    && forall i :: 0 <= i < |moves| ==> Next(worlds[i], moves[i], worlds[i + 1])
  }

  /** Each of the first `k` steps met its condition. */
  ghost predicate SteadyRun(worlds: seq<World>, moves: seq<Move>, k: nat)
    requires Run(worlds, moves) && k <= |moves|
  {
    forall i :: 0 <= i < k ==> Steady(worlds[i], moves[i])
  }

  lemma {:induction false} RunStaysRepairable(worlds: seq<World>, moves: seq<Move>, k: nat)
    requires Run(worlds, moves) && k <= |moves| && SteadyRun(worlds, moves, k)
    ensures Repairable(worlds[k])
    ensures k > 0 ==> Repairable(worlds[k - 1]) && Next(worlds[k - 1], moves[k - 1], worlds[k])
  {
    if k == 0 {
      FreshIsWellFormed();
    } else {
      RunStaysRepairable(worlds, moves, k - 1);
      assert Next(worlds[k - 1], moves[k - 1], worlds[k - 1 + 1]);
      StepKeepsRepairable(worlds[k - 1], moves[k - 1], worlds[k]);
    }
  }

  lemma StepKeepsRepairable(world: World, m: Move, world': World)
    requires Repairable(world) && Next(world, m, world') && Steady(world, m)
    ensures Repairable(world')
  {
    match m
    case Rebuilding(cardOrder, edgeOrder) => RebuildIsRecoverableIff(world, cardOrder, edgeOrder);
    case RebuildCut(stage) => RebuildCutIsRepairable(world, stage, world');
    case _ => NextKeepsRepairable(world, m, world');
  }

  /**
   The condition is exact for every step that performs at most one write, which is every step but a decay pass, and
   for complete rebuilds, as long as a crash does not drop the file of another entity.
   */
  lemma StepIsRepairableIff(world: World, m: Move, world': World)
    requires Repairable(world) && Next(world, m, world') && !m.RebuildCut?
    requires m.Completed? || m.Crashed? ==> |Writes(world.mem, m.op)| <= 1
    requires m.Crashed? && m.stage == LegacyDropped ==> KeepsFiles(world.mem, Writes(world.mem, m.op)[0])
    ensures Repairable(world') <==> Steady(world, m)
  {
    match m
    case Rebuilding(cardOrder, edgeOrder) => RebuildIsRecoverableIff(world, cardOrder, edgeOrder);
    case Restarted => NextKeepsRepairable(world, m, world');
    case Completed(op) =>
      WritesAreLegal(world, op);
      CompletedIsRepairableIff(world, Writes(world.mem, op), world');
    case Crashed(op, done, stage) =>
      WritesAreLegal(world, op);
      StoppedIsRepairableIff(world, Writes(world.mem, op), stage, world');
  }

  lemma CompletedIsRepairableIff(world: World, ws: seq<Write>, world': World)
    requires Repairable(world) && LegalAll(world, ws) && |ws| <= 1 && world' == ApplyAll(world, ws)
    ensures Repairable(world') <==> GuardedAll(world, ws)
  {
    if ws != [] {
      assert ws == [ws[0]] && ws[..0] == [];
      WriteIsRepairableIff(world, ws[0]);
    }
  }

  lemma StoppedIsRepairableIff(world: World, ws: seq<Write>, stage: Stage, world': World)
    requires Repairable(world) && LegalAll(world, ws) && |ws| == 1 && world'.persistent
    requires stage == LegacyDropped ==> KeepsFiles(world.mem, ws[0])
    requires world'.disk == CutDisk(ApplyAll(world, ws[..0]), ws[0], stage) && Loaded(world'.disk, world'.mem)
    ensures Repairable(world') <==> GuardedAll(world, ws[..0]) && MayStop(ApplyAll(world, ws[..0]), ws[0], stage)
  {
    assert ws == [ws[0]] && ws[..0] == [];
    CutIsRepairableIff(world, ws[0], stage, world');
  }

  /** What the last rebuild lost, if it was cut off, and nothing has written since. */
  function Lost(worlds: seq<World>, moves: seq<Move>, k: nat): (set<Id>, set<Id>)
    requires |worlds| == |moves| + 1 && k <= |moves|
  {
    if k == 0 then ({}, {})
    else
      match moves[k - 1]
      case Rebuilding(_, _) => ({}, {})
      case RebuildCut(stage) => LostAt(worlds[k - 1], stage)
      case _ => Without(Lost(worlds, moves, k - 1), Persisted(worlds[k - 1], moves[k - 1]))
  }

  /** The journaled entities without a file where the rebuild stops. */
  function LostAt(world: World, stage: RebuildStage): (set<Id>, set<Id>) {
    var replayed := Replay(world.disk.journal);
    (replayed.cards.Keys - StageCards(world, stage).Keys, replayed.edges.Keys - StageEdges(world, stage).Keys)
  }

  /**
   Over every run of steady steps the directories hold the store and the journal agrees with it; and what the store
   lacks of the journal is exactly what the last rebuild lost, if it was cut off, and nothing has written since.
   */
  lemma {:induction false} RunStaysRecoverable(worlds: seq<World>, moves: seq<Move>, k: nat)
    requires Run(worlds, moves) && k <= |moves| && SteadyRun(worlds, moves, k)
    ensures Repairable(worlds[k]) && Missing(worlds[k]) == Lost(worlds, moves, k)
    ensures Recoverable(worlds[k]) <==> Lost(worlds, moves, k) == ({}, {})
  {
    RunStaysRepairable(worlds, moves, k);
    if k == 0 {
      MissingIff(FRESH);
    } else {
      RunStaysRecoverable(worlds, moves, k - 1);
      StepLoses(worlds[k - 1], moves[k - 1], worlds[k], Lost(worlds, moves, k - 1), Lost(worlds, moves, k));
    }
  }

  lemma StepLoses(world: World, m: Move, world': World, before: (set<Id>, set<Id>), after: (set<Id>, set<Id>))
    requires Repairable(world) && Next(world, m, world') && Steady(world, m) && Missing(world) == before
    requires after == match m
                      case Rebuilding(_, _) => ({}, {})
                      case RebuildCut(stage) => LostAt(world, stage)
                      case _ => Without(before, Persisted(world, m))
    ensures Missing(world') == after
  {
    match m
    case Rebuilding(cardOrder, edgeOrder) => RebuildIsRecoverableIff(world, cardOrder, edgeOrder);
    case RebuildCut(stage) => RebuildCutIsRepairable(world, stage, world');
    case _ => NextKeepsRepairable(world, m, world');
  }

  // ----- The integrity check -----

  datatype Findings = Findings(
    missingCards: set<Id>, extraCards: set<Id>, mismatchCards: set<Id>, missingEdges: set<Id>, extraEdges: set<Id>)

  /** The check compares which entities exist and how many versions each card has. */
  function Compare(live: Mem, replayed: Mem): Findings {
    Findings(
      replayed.cards.Keys - live.cards.Keys,
      live.cards.Keys - replayed.cards.Keys,
      (set id | id in replayed.cards && id in live.cards && |live.cards[id]| != |replayed.cards[id]|),
      replayed.edges.Keys - live.edges.Keys,
      live.edges.Keys - replayed.edges.Keys)
  }

  const CLEAN := Findings({}, {}, {}, {}, {})

  lemma CleanMeansEqual(live: Mem, replayed: Mem)
    requires Agree(replayed, live) && Compare(live, replayed) == CLEAN
    ensures replayed.cards == live.cards && replayed.edges == live.edges
  {
    var found := Compare(live, replayed);
    forall id | id in replayed.cards
      ensures id in live.cards
    {
      assert id !in found.missingCards;
    }
    forall e | e in replayed.edges
      ensures e in live.edges
    {
      assert e !in found.missingEdges;
    }
    forall id | id in live.cards
      ensures id in replayed.cards && replayed.cards[id] == live.cards[id]
    {
      assert id !in found.extraCards;
      assert id !in found.mismatchCards;
    }
    forall e | e in live.edges
      ensures e in replayed.edges
    {
      assert e !in found.extraEdges;
    }
  }

  lemma LagIsReported(live: Mem, replayed: Mem)
    requires Agree(replayed, live)
    ensures forall id :: id in Compare(live, replayed).mismatchCards ==> |replayed.cards[id]| < |live.cards[id]|
    ensures replayed.cards == live.cards && replayed.edges == live.edges ==> Compare(live, replayed) == CLEAN
  {
    var found := Compare(live, replayed);
    forall id | id in found.mismatchCards
      ensures |replayed.cards[id]| < |live.cards[id]|
    {
      assert replayed.cards[id] <= live.cards[id];
    }
  }

  /**
   After any run of steady steps, with crashes, restarts and rebuilds, cut off or not, the check reports as missing
   exactly what the last rebuild lost and nothing has written since; a mismatch always means that the journal is
   short; and although it compares lengths only, it reports nothing exactly when the journal describes the live
   cards and edges.
   */
  lemma IntegrityOfRuns(worlds: seq<World>, moves: seq<Move>, k: nat)
    requires Run(worlds, moves) && k <= |moves| && SteadyRun(worlds, moves, k)
    ensures var live, replayed := worlds[k].mem, Replay(worlds[k].disk.journal);
            var found := Compare(live, replayed);
            && (found.missingCards, found.missingEdges) == Lost(worlds, moves, k)
            && (forall id :: id in found.mismatchCards ==> |replayed.cards[id]| < |live.cards[id]|)
            && (found == CLEAN <==> replayed.cards == live.cards && replayed.edges == live.edges)
  {
    RunStaysRecoverable(worlds, moves, k);
    var live, replayed := worlds[k].mem, Replay(worlds[k].disk.journal);
    LagIsReported(live, replayed);
    if Compare(live, replayed) == CLEAN {
      CleanMeansEqual(live, replayed);
    }
  }

  // ----- Edges without their cards -----

  /** The integrity check reports no endpoint of a replayed edge as an extra card. */
  predicate EndpointsAreLogged(live: Mem, replayed: Mem) {
    forall e :: e in replayed.edges ==>
      && replayed.edges[e].src !in Compare(live, replayed).extraCards
      && replayed.edges[e].dst !in Compare(live, replayed).extraCards
  }

  /** The running store has both endpoints of every replayed edge, or the check reports them as missing. */
  predicate EndpointsAreKnown(live: Mem, replayed: Mem) {
    forall e :: e in replayed.edges ==>
      && (replayed.edges[e].src in live.cards || replayed.edges[e].src in Compare(live, replayed).missingCards)
      && (replayed.edges[e].dst in live.cards || replayed.edges[e].dst in Compare(live, replayed).missingCards)
  }

  /**
   As long as the running store has the cards of its own edges and lacks nothing, every replayed edge has both its
   replayed cards exactly when the check reports none of them as extra. In general they also have to be known.
   */
  lemma ReplayIsLinkedIff(worlds: seq<World>, moves: seq<Move>, k: nat)
    requires Run(worlds, moves) && k <= |moves| && SteadyRun(worlds, moves, k)
    ensures var live, replayed := worlds[k].mem, Replay(worlds[k].disk.journal);
            && (Linked(live) && Lost(worlds, moves, k) == ({}, {}) ==>
                  (Linked(replayed) <==> EndpointsAreLogged(live, replayed)))
            && (Linked(replayed) <==> EndpointsAreLogged(live, replayed) && EndpointsAreKnown(live, replayed))
  {
    RunStaysRecoverable(worlds, moves, k);
    var live, replayed := worlds[k].mem, Replay(worlds[k].disk.journal);
    LinkedIffReported(live, replayed);
    if Linked(live) && Lost(worlds, moves, k) == ({}, {}) {
      EdgesAreKnown(worlds[k]);
    }
  }

  lemma EdgesAreKnown(world: World)
    requires Recoverable(world) && Linked(world.mem)
    ensures EndpointsAreKnown(world.mem, Replay(world.disk.journal))
  {
    var replayed := Replay(world.disk.journal);
    forall e | e in replayed.edges
      ensures e in world.mem.edges && world.mem.edges[e] == replayed.edges[e]
    {
      assert e !in replayed.edges.Keys - world.mem.edges.Keys;
    }
  }

  /** A rebuild changes no card or edge exactly when the integrity check finds nothing. */
  lemma RebuildIsHarmlessIff(worlds: seq<World>, moves: seq<Move>, k: nat, cardOrder: seq<Id>, edgeOrder: seq<Id>)
    requires Run(worlds, moves) && k <= |moves| && SteadyRun(worlds, moves, k)
    requires RebuildFits(Replay(worlds[k].disk.journal), cardOrder, edgeOrder)
    ensures var live, after := worlds[k].mem, Rebuilt(worlds[k], cardOrder, edgeOrder).mem;
            var found := Compare(live, Replay(worlds[k].disk.journal));
            && (after.cards == live.cards && after.edges == live.edges <==> found == CLEAN)
            && after.cards.Keys == live.cards.Keys - found.extraCards + found.missingCards
            && after.edges.Keys == live.edges.Keys - found.extraEdges + found.missingEdges
  {
    IntegrityOfRuns(worlds, moves, k);
  }

  /**
   A rebuild of a store that has the cards of its own edges and lacks nothing leaves every edge its cards exactly
   when the check reports none of them as extra. In general they also have to be known.
   */
  lemma RebuildKeepsLinkedIff(worlds: seq<World>, moves: seq<Move>, k: nat, cardOrder: seq<Id>, edgeOrder: seq<Id>)
    requires Run(worlds, moves) && k <= |moves| && SteadyRun(worlds, moves, k)
    requires RebuildFits(Replay(worlds[k].disk.journal), cardOrder, edgeOrder)
    ensures var live, replayed := worlds[k].mem, Replay(worlds[k].disk.journal);
            var after := Rebuilt(worlds[k], cardOrder, edgeOrder).mem;
            && (Linked(live) && Lost(worlds, moves, k) == ({}, {}) ==>
                  (Linked(after) <==> EndpointsAreLogged(live, replayed)))
            && (Linked(after) <==> EndpointsAreLogged(live, replayed) && EndpointsAreKnown(live, replayed))
  {
    ReplayIsLinkedIff(worlds, moves, k);
  }

  /** Where the rebuild stops, the edges whose files are there have both their cards' files. */
  predicate StageIsLinked(world: World, stage: RebuildStage) {
    var replayed := Replay(world.disk.journal);
    match stage
    case WipingCards(left) =>
      forall e :: e in world.mem.edges ==>
        && world.mem.edges[e].src in world.mem.cards && HexName(world.mem.edges[e].src) in left
        && world.mem.edges[e].dst in world.mem.cards && HexName(world.mem.edges[e].dst) in left
    case WipingEdges(left) => forall e :: e in world.mem.edges ==> HexName(e) !in left
    case WritingCards(_) => true
    case WritingEdges(_, edgeOrder) =>
      forall e :: e in replayed.edges && e in edgeOrder ==>
        replayed.edges[e].src in replayed.cards && replayed.edges[e].dst in replayed.cards
  }

  lemma RebuildCutKeepsLinkedIff(world: World, stage: RebuildStage, world': World)
    requires Repairable(world) && Next(world, RebuildCut(stage), world') && StageIsHarmless(stage)
    ensures Linked(world'.mem) <==> StageIsLinked(world, stage)
  {
    RebuildCutIsRepairable(world, stage, world');
    StageLinkedIff(world, stage, world'.mem);
  }

  lemma StageLinkedIff(world: World, stage: RebuildStage, mem: Mem)
    requires StageFits(Replay(world.disk.journal), stage)
    requires mem.cards == StageCards(world, stage) && mem.edges == StageEdges(world, stage)
    ensures Linked(mem) <==> StageIsLinked(world, stage)
  {
    match stage
    case WipingCards(left) =>
    case WipingEdges(left) =>
      forall e
        ensures e in mem.edges <==> e in world.mem.edges && HexName(e) in left
        ensures e in mem.edges ==> mem.edges[e].src !in mem.cards
      {
      }
    case WritingCards(_) =>
    case WritingEdges(cardOrder, edgeOrder) =>
      var replayed := Replay(world.disk.journal);
      assert mem.cards == replayed.cards;
      assert forall e :: e in mem.edges <==> e in replayed.edges && e in edgeOrder;
  }

  lemma LinkedIffReported(live: Mem, replayed: Mem)
    ensures Linked(replayed) <==> EndpointsAreLogged(live, replayed) && EndpointsAreKnown(live, replayed)
  {
  }

  /** What a rebuild, complete or cut off, has to meet for every edge to have its cards afterwards. */
  ghost predicate LeavesLinked(world: World, m: Move) {
    match m
    case Rebuilding(_, _) =>
      var live, replayed := world.mem, Replay(world.disk.journal);
      EndpointsAreLogged(live, replayed) && EndpointsAreKnown(live, replayed)
    case RebuildCut(stage) => StageIsLinked(world, stage)
    case _ => true
  }

  /**
   In a running store every edge has both its cards, whatever operations, crashes, restarts and rebuilds came
   before, as long as each rebuild met the condition that leaves it so.
   */
  lemma {:induction false} EndpointsSurviveCrashes(worlds: seq<World>, moves: seq<Move>, k: nat)
    requires Run(worlds, moves) && k <= |moves| && SteadyRun(worlds, moves, k)
    requires forall i :: 0 <= i < k ==> LeavesLinked(worlds[i], moves[i])
    ensures Linked(worlds[k].mem)
  {
    if k > 0 {
      EndpointsSurviveCrashes(worlds, moves, k - 1);
      RunStaysRepairable(worlds, moves, k);
      assert LeavesLinked(worlds[k - 1], moves[k - 1]);
      StepIsLinkedIff(worlds[k - 1], moves[k - 1], worlds[k]);
    }
  }

  /** After a step from a linked store every edge has its cards exactly when the step met that condition. */
  lemma StepIsLinkedIff(world: World, m: Move, world': World)
    requires Repairable(world) && Linked(world.mem) && Next(world, m, world') && Steady(world, m)
    ensures Linked(world'.mem) <==> LeavesLinked(world, m)
  {
    match m
    case Rebuilding(_, _) => LinkedIffReported(world.mem, Replay(world.disk.journal));
    case RebuildCut(stage) => RebuildCutKeepsLinkedIff(world, stage, world');
    case _ => NextKeepsLinked(world, m, world');
  }

  lemma NextKeepsLinked(world: World, m: Move, world': World)
    requires Repairable(world) && Linked(world.mem) && Next(world, m, world') && Steady(world, m)
    requires !m.Rebuilding? && !m.RebuildCut?
    ensures Linked(world'.mem)
  {
    match m
    case Completed(op) =>
      WritesAreLegal(world, op);
      ApplyAllKeepsLinked(world, Writes(world.mem, op));
    case Crashed(op, done, stage) =>
      var ws := Writes(world.mem, op);
      WritesAreLegal(world, op);
      LegalAtEach(world, ws, done);
      ApplyAllKeepsLinked(world, ws[..done]);
      WritesAreRepairable(world, ws[..done]);
      CutKeepsLinked(ApplyAll(world, ws[..done]), ws[done], stage, world');
    case Restarted => LoadRestores(world.mem, world'.disk, world'.mem);
  }

  lemma RememberKeepsLinked(mem: Mem, w: Write)
    requires Linked(mem) && Legal(mem, w)
    ensures Linked(Remember(mem, w))
  {
  }

  lemma CutKeepsLinked(world: World, w: Write, stage: Stage, world': World)
    requires Repairable(world) && Linked(world.mem) && Legal(world.mem, w) && world'.persistent
    requires stage == LegacyDropped ==> KeepsFiles(world.mem, w)
    requires world'.disk == CutDisk(world, w, stage) && Loaded(world'.disk, world'.mem)
    ensures Linked(world'.mem)
  {
    RememberKeepsLinked(world.mem, w);
    CutIsRepairableIff(world, w, stage, world');
  }

  lemma OneMoreWrite(world: World, w: Write)
    ensures ApplyAll(world, [w]) == Apply(world, w) && ApplyAll(world, [w][..0]) == world
  {
    assert [w][..0] == [];
  }
}
