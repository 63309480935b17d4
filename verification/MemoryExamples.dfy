/** Runs in which crashes and rebuilds lose something. */
module MemoryExamples {
  import opened Prelude
  import opened FileNames
  import opened MemoryModel
  import opened MemoryInvariant
  import opened MemoryJournal
  import opened MemoryFiles
  import opened MemoryCrash

  /** A store whose first card was cut off between its snapshot and its journal line, after the restart. */
  function Unlogged(card: Card): World {
    World(Mem(map[card.id := [card]], map[], map[]), Disk(map[HexName(card.id) := [card]], map[], []), true)
  }

  lemma CutFirstCard(creq: CreateCardRequest, now: Time)
    requires Created(creq, now).Ok?
    ensures Next(FRESH, Crashed(Create(creq, now), 0, Snapshotted), Unlogged(Created(creq, now).value))
  {
    var card := Created(creq, now).value;
    var put, w1 := PutCard("card_created", card), Unlogged(card);
    assert Get(EMPTY.cards, card.id) + [card] == [card];
    OneMoreWrite(FRESH, put);
    assert w1.disk.cardFiles[HexName(card.id)] == [card];
    assert Follows(card.id, [card], 0);
    NothingIndexed();
    assert Loaded(w1.disk, w1.mem);
  }

  lemma LinkAfterCut(card: Card, edge: Edge)
    requires edge.id != [] && edge.src == card.id && edge.dst == card.id
    ensures var w2 := Apply(Unlogged(card), PutEdge(edge));
            && edge.id in Replay(w2.disk.journal).edges && edge.src !in Replay(w2.disk.journal).cards
  {
    ReplayLogged(Unlogged(card), PutEdge(edge));
    assert Replay(Unlogged(card).disk.journal) == EMPTY;
  }

  /** A card whose creation stops between its snapshot and its journal line, and then an edge on it. */
  lemma LinkToUnlogged(creq: CreateCardRequest, ereq: CreateEdgeRequest, now: Time) returns (w1: World, w2: World)
    requires Created(creq, now).Ok?
    requires ereq.id != [] && ereq.edgeType != [] && ereq.src == creq.id && ereq.dst == creq.id
    ensures Next(FRESH, Crashed(Create(creq, now), 0, Snapshotted), w1) && Next(w1, Completed(Link(ereq, now)), w2)
    ensures creq.id in w2.mem.cards && ereq.id in w2.mem.edges && w2.mem.edges.Keys == {ereq.id}
    ensures w2.mem.edges[ereq.id].src == w2.mem.edges[ereq.id].dst == creq.id && Linked(w2.mem)
    ensures Replay(w2.disk.journal).cards == map[] && Replay(w2.disk.journal).edges == w2.mem.edges
    ensures RebuildFits(Replay(w2.disk.journal), [], [ereq.id])
  {
    w1 := Unlogged(Created(creq, now).value);
    CutFirstCard(creq, now);
    var edge := CreateEdge(w1.mem, ereq, now).value;
    LinkAfterCut(Created(creq, now).value, edge);
    OneMoreWrite(w1, PutEdge(edge));
    OnlyEdgeReplayed(w1, edge);
    w2 := Apply(w1, PutEdge(edge));
    LinkIsNext(w1, ereq, now);
  }

  lemma LinkIsNext(world: World, req: CreateEdgeRequest, now: Time)
    requires CreateEdge(world.mem, req, now).Ok?
    ensures Next(world, Completed(Link(req, now)), Apply(world, PutEdge(CreateEdge(world.mem, req, now).value)))
  {
    OneMoreWrite(world, PutEdge(CreateEdge(world.mem, req, now).value));
  }

  /** The journal is left with the edge alone: the replayed store lacks its cards. */
  lemma ReplayedEdgeCanDangle(creq: CreateCardRequest, ereq: CreateEdgeRequest, now: Time)
    returns (w1: World, w2: World)
    requires Created(creq, now).Ok?
    requires ereq.id != [] && ereq.edgeType != [] && ereq.src == creq.id && ereq.dst == creq.id
    ensures Next(FRESH, Crashed(Create(creq, now), 0, Snapshotted), w1) && Next(w1, Completed(Link(ereq, now)), w2)
    ensures Linked(w2.mem) && !Linked(Replay(w2.disk.journal))
  {
    w1, w2 := LinkToUnlogged(creq, ereq, now);
    assert ereq.id in Replay(w2.disk.journal).edges;
  }

  /**
   Rebuilding that store then loses the card: the running store is left with an edge without its cards, although
   every card and edge had been there and in the directory.
   */
  lemma RebuildCanLoseACard(creq: CreateCardRequest, ereq: CreateEdgeRequest, now: Time)
    returns (worlds: seq<World>, moves: seq<Move>)
    requires Created(creq, now).Ok?
    requires ereq.id != [] && ereq.edgeType != [] && ereq.src == creq.id && ereq.dst == creq.id
    ensures Run(worlds, moves) && |moves| == 3 && moves[2].Rebuilding?
    ensures creq.id in worlds[2].mem.cards && Linked(worlds[2].mem)
    ensures creq.id !in worlds[3].mem.cards && !Linked(worlds[3].mem)
  {
    worlds, moves := UnloggedRun(creq, ereq, now);
    var w3 := RebuildWithoutCards(worlds[2], ereq.id);
    worlds, moves := RunGrows(worlds, moves, Rebuilding([], [ereq.id]), w3);
  }

  lemma UnloggedRun(creq: CreateCardRequest, ereq: CreateEdgeRequest, now: Time)
    returns (worlds: seq<World>, moves: seq<Move>)
    requires Created(creq, now).Ok?
    requires ereq.id != [] && ereq.edgeType != [] && ereq.src == creq.id && ereq.dst == creq.id
    ensures Run(worlds, moves) && |moves| == 2
    ensures creq.id in worlds[2].mem.cards && Linked(worlds[2].mem)
    ensures Replay(worlds[2].disk.journal).cards == map[] && ereq.id in Replay(worlds[2].disk.journal).edges
    ensures RebuildFits(Replay(worlds[2].disk.journal), [], [ereq.id])
  {
    var w1, w2 := LinkToUnlogged(creq, ereq, now);
    worlds, moves := RunGrows([FRESH], [], Crashed(Create(creq, now), 0, Snapshotted), w1);
    worlds, moves := RunGrows(worlds, moves, Completed(Link(ereq, now)), w2);
  }

  lemma RunGrows(before: seq<World>, past: seq<Move>, m: Move, world: World)
    returns (worlds: seq<World>, moves: seq<Move>)
    requires Run(before, past) && Next(Last(before), m, world)
    ensures Run(worlds, moves) && worlds == before + [world] && moves == past + [m]
  {
    worlds, moves := before + [world], past + [m];
    forall i | 0 <= i < |moves|
      ensures Next(worlds[i], moves[i], worlds[i + 1])
    {
      if i < |past| {
        assert Next(before[i], past[i], before[i + 1]);
      }
    }
  }

  lemma RebuildWithoutCards(world: World, e: Id) returns (world': World)
    requires Replay(world.disk.journal).cards == map[] && e in Replay(world.disk.journal).edges
    requires RebuildFits(Replay(world.disk.journal), [], [e])
    ensures Next(world, Rebuilding([], [e]), world') && world'.mem.cards == map[] && !Linked(world'.mem)
  {
    world' := Rebuilt(world, [], [e]);
    assert e in world'.mem.edges;
  }

  lemma OnlyEdgeReplayed(w1: World, edge: Edge)
    requires w1.persistent && w1.disk.journal == []
    ensures var replayed := Replay(Apply(w1, PutEdge(edge)).disk.journal);
            replayed.cards == map[] && replayed.edges == map[edge.id := edge] &&
              RebuildFits(replayed, [], [edge.id])
  {
    ReplayLogged(w1, PutEdge(edge));
  }

  // ----- A rebuild that is cut off -----

  lemma CreatedAlone(creq: CreateCardRequest, now: Time) returns (w1: World)
    requires Created(creq, now).Ok?
    ensures Next(FRESH, Completed(Create(creq, now)), w1)
    ensures Alone(w1, creq.id)
  {
    var put := PutCard("card_created", Created(creq, now).value);
    OneMoreWrite(FRESH, put);
    FreshIsWellFormed();
    LogAddsOne(FRESH, put);
    RememberKeepsWellFormed(EMPTY, put);
    w1 := Apply(FRESH, put);
  }

  /** Every card file has been wiped, and none has been written. */
  lemma WipedAway(w1: World) returns (w2: World)
    requires w1.persistent && w1.disk.edgeFiles == map[]
    ensures Next(w1, RebuildCut(WipingCards({})), w2)
    ensures w2 == World(EMPTY, Disk(map[], map[], w1.disk.journal), true)
  {
    w2 := World(EMPTY, w1.disk.(cardFiles := map[]), true);
    assert Restricted(w1.disk.cardFiles, {}) == map[];
    NothingIndexed();
    assert Loaded(w2.disk, w2.mem);
  }

  /**
   A rebuild that is cut off after the card files are wiped loses the only card of the running store, which the
   check reports as missing. A complete rebuild brings it back.
   */
  lemma RebuildCutCanLoseACard(creq: CreateCardRequest, now: Time) returns (worlds: seq<World>, moves: seq<Move>)
    requires Created(creq, now).Ok?
    ensures Run(worlds, moves) && |moves| == 3 && moves[1].RebuildCut? && moves[2].Rebuilding?
    ensures worlds[1].mem.cards.Keys == {creq.id} && worlds[2].mem.cards == map[]
    ensures Compare(worlds[2].mem, Replay(worlds[2].disk.journal)).missingCards == {creq.id}
    ensures worlds[3].mem.cards == worlds[1].mem.cards
  {
    worlds, moves := WipedRun(creq, now);
    var w3 := BroughtBack(worlds[2], creq.id);
    worlds, moves := RunGrows(worlds, moves, Rebuilding([creq.id], []), w3);
  }

  lemma CreatedRun(creq: CreateCardRequest, now: Time) returns (worlds: seq<World>, moves: seq<Move>)
    requires Created(creq, now).Ok?
    ensures Run(worlds, moves) && |moves| == 1 && Alone(worlds[1], creq.id)
  {
    var w1 := CreatedAlone(creq, now);
    worlds, moves := RunGrows([FRESH], [], Completed(Create(creq, now)), w1);
  }

  lemma WipedRun(creq: CreateCardRequest, now: Time) returns (worlds: seq<World>, moves: seq<Move>)
    requires Created(creq, now).Ok?
    ensures Run(worlds, moves) && |moves| == 2 && moves[1].RebuildCut?
    ensures Alone(worlds[1], creq.id)
    ensures worlds[2] == World(EMPTY, Disk(map[], map[], worlds[1].disk.journal), true)
  {
    worlds, moves := CreatedRun(creq, now);
    var w2 := WipedAway(worlds[1]);
    worlds, moves := RunGrows(worlds, moves, RebuildCut(WipingCards({})), w2);
  }

  /** The store of one card, which the journal holds too. */
  ghost predicate Alone(w: World, id: Id) {
    && w.persistent && WellFormed(w.mem) && w.mem.cards.Keys == {id} && w.mem.edges == map[]
    && w.disk.edgeFiles == map[] && Replay(w.disk.journal) == w.mem && w.mem.index == map[]
  }

  lemma BroughtBack(w2: World, id: Id) returns (w3: World)
    requires Replay(w2.disk.journal).cards.Keys == {id} && Replay(w2.disk.journal).edges == map[]
    ensures Next(w2, Rebuilding([id], []), w3) && w3.mem.cards == Replay(w2.disk.journal).cards
  {
    assert RebuildFits(Replay(w2.disk.journal), [id], []);
    w3 := Rebuilt(w2, [id], []);
  }

  // ----- Creating again what a rebuild lost -----

  /** The card is created again, with another value, and its journal line is not written. */
  lemma RecreatedUnlogged(w2: World, creq: CreateCardRequest, now: Time) returns (w3: World)
    requires w2.persistent && w2.mem == EMPTY && w2.disk.cardFiles == map[] && w2.disk.edgeFiles == map[]
    requires Created(creq, now).Ok?
    ensures Next(w2, Crashed(Create(creq, now), 0, Snapshotted), w3)
    ensures w3.disk.journal == w2.disk.journal
    ensures w3.mem == Mem(map[creq.id := [Created(creq, now).value]], map[], map[])
  {
    var card := Created(creq, now).value;
    w3 := World(Mem(map[card.id := [card]], map[], map[]),
                Disk(map[HexName(card.id) := [card]], map[], w2.disk.journal), true);
    assert Get(EMPTY.cards, card.id) + [card] == [card];
    OneMoreWrite(w2, PutCard("card_created", card));
    NothingIndexed();
    assert w3.disk.cardFiles[HexName(card.id)] == [card];
    assert Loaded(w3.disk, w3.mem);
  }

  lemma CleanThoughDifferent(live: Mem, replayed: Mem, id: Id)
    requires live.cards.Keys == replayed.cards.Keys == {id} && live.edges == replayed.edges == map[]
    requires |live.cards[id]| == |replayed.cards[id]|
    ensures Compare(live, replayed) == CLEAN
  {
  }

  lemma CreatedAndWiped(creq: CreateCardRequest, now: Time) returns (worlds: seq<World>, moves: seq<Move>)
    requires Created(creq, now).Ok?
    ensures Run(worlds, moves) && |moves| == 2 && moves[1].RebuildCut?
    ensures worlds[2] == World(EMPTY, Disk(map[], map[], worlds[2].disk.journal), true)
    ensures Replay(worlds[2].disk.journal) == Mem(map[creq.id := [Created(creq, now).value]], map[], map[])
  {
    var card := Created(creq, now).value;
    var put := PutCard("card_created", card);
    FreshIsWellFormed();
    LogAddsOne(FRESH, put);
    assert Get(EMPTY.cards, card.id) + [card] == [card];
    OneMoreWrite(FRESH, put);
    var w1 := Apply(FRESH, put);
    var w2 := WipedAway(w1);
    worlds, moves := RunGrows([FRESH], [], Completed(Create(creq, now)), w1);
    worlds, moves := RunGrows(worlds, moves, RebuildCut(WipingCards({})), w2);
  }

  /**
   A card that an interrupted rebuild lost is created again with another value, and the journal line is cut off. The
   check, which compares lengths, reports nothing, although the journal has the old value; a rebuild brings that back.
   */
  lemma RecreatedCardCanDiffer(first: CreateCardRequest, at: Time, second: CreateCardRequest, now: Time)
    returns (worlds: seq<World>, moves: seq<Move>)
    requires Created(first, at).Ok? && Created(second, now).Ok? && first.id == second.id
    requires Created(first, at).value != Created(second, now).value
    ensures Run(worlds, moves) && |moves| == 4 && moves[1].RebuildCut? && moves[3].Rebuilding?
    ensures moves[2] == Crashed(Create(second, now), 0, Snapshotted)
    ensures Compare(worlds[3].mem, Replay(worlds[3].disk.journal)) == CLEAN
    ensures worlds[3].mem.cards != Replay(worlds[3].disk.journal).cards
    ensures worlds[4].mem.cards != worlds[3].mem.cards
  {
    worlds, moves := CreatedAndWiped(first, at);
    var w3 := RecreatedUnlogged(worlds[2], second, now);
    worlds, moves := RunGrows(worlds, moves, Crashed(Create(second, now), 0, Snapshotted), w3);
    CleanThoughDifferent(w3.mem, Replay(w3.disk.journal), first.id);
    assert w3.mem.cards[first.id] != Replay(w3.disk.journal).cards[first.id];
    var w4 := BroughtBack(w3, first.id);
    worlds, moves := RunGrows(worlds, moves, Rebuilding([first.id], []), w4);
  }

  /** The journal holds these cards and one edge, which the index lists under one of the cards. */
  predicate Journals(w: World, cards: set<Id>, e: Id, owner: Id) {
    var replayed := Replay(w.disk.journal);
    && w.persistent && replayed.cards.Keys == cards && replayed.edges.Keys == {e} && e in Get(replayed.index, owner)
  }

  /** An edge from a lone card to itself. */
  lemma LinkedAlone(w1: World, card: Id, ereq: CreateEdgeRequest, now: Time) returns (w2: World)
    requires Alone(w1, card) && ereq.id != [] && ereq.edgeType != [] && ereq.src == card && ereq.dst == card
    requires card != []
    ensures Next(w1, Completed(Link(ereq, now)), w2) && Journals(w2, {card}, ereq.id, card)
  {
    var put := PutEdge(CreateEdge(w1.mem, ereq, now).value);
    LogAddsOne(w1, put);
    OneMoreWrite(w1, put);
    w2 := Apply(w1, put);
  }

  /** Every file has been wiped. */
  lemma AllWiped(w2: World) returns (w3: World)
    requires w2.persistent
    ensures Next(w2, RebuildCut(WipingEdges({})), w3)
    ensures w3 == World(EMPTY, Disk(map[], map[], w2.disk.journal), true)
  {
    w3 := World(EMPTY, Disk(map[], map[], w2.disk.journal), true);
    assert Restricted(w2.disk.edgeFiles, {}) == map[];
    NothingIndexed();
    assert Loaded(w3.disk, w3.mem);
  }

  /** Another card is created. */
  lemma OtherCreated(w3: World, e: Id, owner: Id, creq: CreateCardRequest, now: Time) returns (w4: World)
    requires w3.mem == EMPTY && Journals(w3, {owner}, e, owner) && Created(creq, now).Ok?
    ensures Next(w3, Completed(Create(creq, now)), w4)
    ensures Journals(w4, {owner, creq.id}, e, owner)
    ensures WellFormed(w4.mem) && creq.id in w4.mem.cards && w4.mem.edges == map[]
  {
    var put := PutCard("card_created", Created(creq, now).value);
    FreshIsWellFormed();
    LogAddsOne(w3, put);
    RememberKeepsWellFormed(EMPTY, put);
    OneMoreWrite(w3, put);
    w4 := Apply(w3, put);
  }

  /** The edge is created again, at the other card. */
  lemma Relinked(w4: World, cards: set<Id>, owner: Id, ereq: CreateEdgeRequest, now: Time) returns (w5: World)
    requires Journals(w4, cards, ereq.id, owner) && WellFormed(w4.mem) && w4.mem.edges == map[]
    requires ereq.id != [] && ereq.edgeType != [] && ereq.src == ereq.dst && ereq.src in w4.mem.cards
    ensures Next(w4, Completed(Link(ereq, now)), w5) && Journals(w5, cards, ereq.id, owner)
    ensures Replay(w5.disk.journal).edges[ereq.id].src == ereq.src
    ensures Replay(w5.disk.journal).edges[ereq.id].dst == ereq.src
  {
    assert ereq.src != [];
    var put := PutEdge(CreateEdge(w4.mem, ereq, now).value);
    LogAddsOne(w4, put);
    OneMoreWrite(w4, put);
    w5 := Apply(w4, put);
  }

  lemma LinkedAndWiped(creq: CreateCardRequest, ereq: CreateEdgeRequest, now: Time)
    returns (worlds: seq<World>, moves: seq<Move>)
    requires Created(creq, now).Ok?
    requires ereq.id != [] && ereq.edgeType != [] && ereq.src == creq.id && ereq.dst == creq.id
    ensures Run(worlds, moves) && |moves| == 3 && moves[2].RebuildCut?
    ensures worlds[3].mem == EMPTY && Journals(worlds[3], {creq.id}, ereq.id, creq.id)
  {
    worlds, moves := CreatedRun(creq, now);
    var w2 := LinkedAlone(worlds[1], creq.id, ereq, now);
    worlds, moves := RunGrows(worlds, moves, Completed(Link(ereq, now)), w2);
    var w3 := AllWiped(w2);
    worlds, moves := RunGrows(worlds, moves, RebuildCut(WipingEdges({})), w3);
  }

  lemma RelinkedRun(creq: CreateCardRequest, ereq: CreateEdgeRequest, other: CreateCardRequest,
    again: CreateEdgeRequest, now: Time) returns (worlds: seq<World>, moves: seq<Move>)
    requires Created(creq, now).Ok? && Created(other, now).Ok? && creq.id != other.id
    requires ereq.id != [] && ereq.edgeType != [] && ereq.src == creq.id && ereq.dst == creq.id
    requires again.id == ereq.id && again.edgeType != [] && again.src == other.id && again.dst == other.id
    ensures Run(worlds, moves) && |moves| == 5 && moves[2].RebuildCut? && moves[4] == Completed(Link(again, now))
    ensures Journals(worlds[5], {creq.id, other.id}, ereq.id, creq.id)
    ensures Replay(worlds[5].disk.journal).edges[ereq.id].src == other.id
    ensures Replay(worlds[5].disk.journal).edges[ereq.id].dst == other.id
  {
    worlds, moves := LinkedAndWiped(creq, ereq, now);
    var w4 := OtherCreated(worlds[3], ereq.id, creq.id, other, now);
    worlds, moves := RunGrows(worlds, moves, Completed(Create(other, now)), w4);
    var w5 := Relinked(w4, {creq.id, other.id}, creq.id, again, now);
    worlds, moves := RunGrows(worlds, moves, Completed(Link(again, now)), w5);
  }

  /**
   An edge that an interrupted rebuild lost is created again between other cards. The journal keeps its old index
   entries, so that the next rebuild lists the edge under a card it does not touch.
   */
  lemma RecreatedEdgeCanMislead(creq: CreateCardRequest, ereq: CreateEdgeRequest, other: CreateCardRequest,
    again: CreateEdgeRequest, now: Time) returns (worlds: seq<World>, moves: seq<Move>)
    requires Created(creq, now).Ok? && Created(other, now).Ok? && creq.id != other.id
    requires ereq.id != [] && ereq.edgeType != [] && ereq.src == creq.id && ereq.dst == creq.id
    requires again.id == ereq.id && again.edgeType != [] && again.src == other.id && again.dst == other.id
    ensures Run(worlds, moves) && |moves| == 6 && moves[2].RebuildCut? && moves[5].Rebuilding?
    ensures moves[4] == Completed(Link(again, now))
    ensures var mem := worlds[6].mem;
            && ereq.id in Get(mem.index, creq.id) && ereq.id in mem.edges
            && mem.edges[ereq.id].src != creq.id && mem.edges[ereq.id].dst != creq.id && !WellFormed(mem)
  {
    worlds, moves := RelinkedRun(creq, ereq, other, again, now);
    var w6 := RebuiltMisled(worlds[5], creq.id, other.id, ereq.id);
    worlds, moves := RunGrows(worlds, moves, Rebuilding([creq.id, other.id], [ereq.id]), w6);
    StrayIsNotIndexed(w6.mem, creq.id, ereq.id);
  }

  lemma RebuiltMisled(w5: World, owner: Id, other: Id, e: Id) returns (w6: World)
    requires owner != other && Journals(w5, {owner, other}, e, owner)
    ensures Next(w5, Rebuilding([owner, other], [e]), w6) && w6.mem == Replay(w5.disk.journal)
  {
    assert RebuildFits(Replay(w5.disk.journal), [owner, other], [e]);
    w6 := Rebuilt(w5, [owner, other], [e]);
  }

  lemma StrayIsNotIndexed(mem: Mem, c: Id, e: Id)
    requires e in Get(mem.index, c) && e in mem.edges && mem.edges[e].src != c && mem.edges[e].dst != c
    ensures !WellFormed(mem)
  {
    assert Ends(mem.edges, c, e) == 0 && multiset(Get(mem.index, c))[e] > 0;
  }
}
