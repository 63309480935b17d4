/** The memory store: maps and files updated in place, each method proved against the model. */
module MemoryStore {
  import opened Prelude
  import opened Strings
  import opened FileNames
  import opened MemoryModel
  import opened MemoryInvariant
  import opened MemoryCrash
  import opened MemoryFiles
  import opened MemoryDecay
  import opened MemoryFields
  import opened MemoryQuery

  datatype IntegrityReport = IntegrityReport(
    ok: bool, missingCards: seq<Id>, extraCards: seq<Id>, mismatchCards: seq<Id>, missingEdges: seq<Id>,
      extraEdges: seq<Id>)

  class Store {
    var cards: map<Id, seq<Card>>
    var edges: map<Id, Edge>
    var edgesByCard: map<Id, seq<Id>>
    var cardFiles: map<Text, seq<Card>>
    var edgeFiles: map<Text, Edge>
    var journal: seq<Event>
    const persistent: bool

    function Memory(): Mem
      reads this
    {
      Mem(cards, edges, edgesByCard)
    }

    function Directory(): Disk
      reads this
    {
      Disk(cardFiles, edgeFiles, journal)
    }

    function State(): World
      reads this
    {
      World(Memory(), Directory(), persistent)
    }

    ghost predicate Valid()
      reads this
    {
      WellFormed(Memory())
    }

    /** An in-memory store. */
    constructor ()
      ensures Memory() == EMPTY && !persistent
      ensures Directory() == Disk(map[], map[], [])
    {
      cards, edges, edgesByCard := map[], map[], map[];
      cardFiles, edgeFiles, journal := map[], map[], [];
      persistent := false;
    }

    /** A store over a directory: reads every snapshot file. */
    constructor Open(disk: Disk)
      ensures persistent && Directory() == disk
      ensures Loaded(disk, Memory())
    {
      cards, edges, edgesByCard := map[], map[], map[];
      cardFiles, edgeFiles, journal := disk.cardFiles, disk.edgeFiles, disk.journal;
      persistent := true;
      new;
      LoadFromDisk();
    }

    method LoadFromDisk()
      requires Memory() == EMPTY
      modifies `cards, `edges, `edgesByCard
      ensures Loaded(Directory(), Memory())
    {
      LoadCards();
      LoadEdges();
    }

    method LoadCards()
      requires cards == map[]
      modifies `cards
      ensures LoadedFrom(cardFiles, cards, CardKey)
    {
      var todo := cardFiles.Keys;
      while todo != {}
        invariant todo <= cardFiles.Keys
        invariant LoadedFrom(Restricted(cardFiles, cardFiles.Keys - todo), cards, CardKey)
        decreases |todo|
      {
        var f :| f in todo;
        LoadOneMore(cardFiles, cardFiles.Keys - todo, f, cards, CardKey);
        assert cardFiles.Keys - (todo - {f}) == cardFiles.Keys - todo + {f};
        todo := todo - {f};
        var versions := cardFiles[f];
        if |versions| == 0 {
          continue;
        }
        cards := cards[versions[0].id := versions];
      }
      assert Restricted(cardFiles, cardFiles.Keys - {}) == cardFiles;
    }

    method LoadEdges()
      requires edges == map[] && edgesByCard == map[]
      modifies `edges, `edgesByCard
      ensures LoadedFrom(edgeFiles, edges, EdgeKey)
      ensures IndexesFiles(edgesByCard, edgeFiles)
    {
      NothingIndexed();
      assert Restricted(edgeFiles, edgeFiles.Keys - edgeFiles.Keys) == map[];
      var todo := edgeFiles.Keys;
      while todo != {}
        invariant todo <= edgeFiles.Keys
        invariant LoadedFrom(Restricted(edgeFiles, edgeFiles.Keys - todo), edges, EdgeKey)
        invariant IndexesFiles(edgesByCard, Restricted(edgeFiles, edgeFiles.Keys - todo))
        decreases |todo|
      {
        var f :| f in todo;
        var edge := edgeFiles[f];
        EdgeOneMore(edgeFiles, edgeFiles.Keys - todo, f, edges, edgesByCard);
        assert edgeFiles.Keys - (todo - {f}) == edgeFiles.Keys - todo + {f};
        todo := todo - {f};
        edges := edges[edge.id := edge];
        edgesByCard := edgesByCard[edge.src := Get(edgesByCard, edge.src) + [edge.id]];
        edgesByCard := edgesByCard[edge.dst := Get(edgesByCard, edge.dst) + [edge.id]];
      }
      assert Restricted(edgeFiles, edgeFiles.Keys - {}) == edgeFiles;
    }

    /** Writes all versions of a card, then deletes its legacy file. */
    method PersistCard(id: Id)
      requires id in cards
      modifies `cardFiles
      ensures cardFiles == Unlinked(old(cardFiles)[HexName(id) := cards[id]], id)
    {
      cardFiles := cardFiles[HexName(id) := cards[id]];
      if LegacyName(id) != HexName(id) {
        cardFiles := cardFiles - {LegacyName(id)};
      }
    }

    method PersistEdge(id: Id)
      requires id in edges
      modifies `edgeFiles
      ensures edgeFiles == Unlinked(old(edgeFiles)[HexName(id) := edges[id]], id)
    {
      edgeFiles := edgeFiles[HexName(id) := edges[id]];
      if LegacyName(id) != HexName(id) {
        edgeFiles := edgeFiles - {LegacyName(id)};
      }
    }

    method AppendCardJournalEvent(eventType: Text, c: Card)
      requires c.id in cards
      modifies `journal
      ensures journal == old(journal) + [Event(eventType, c.id, c.cardType, c.version, Some(cards[c.id]), None)]
    {
      journal := journal + [Event(eventType, c.id, c.cardType, c.version, Some(cards[c.id]), None)];
    }

    /** Appends a version to a card and, for a persistent store, its snapshot and journal line. */
    method Commit(eventType: Text, c: Card)
      modifies this
      ensures State() == Apply(old(State()), PutCard(eventType, c))
    {
      cards := cards[c.id := Get(cards, c.id) + [c]];
      if persistent {
        PersistCard(c.id);
        AppendCardJournalEvent(eventType, c);
      }
    }

    method CreateCard(req: CreateCardRequest, now: Time) returns (r: Result<Card, MemoryError>)
      modifies this
      ensures r == MemoryModel.CreateCard(old(Memory()), req, now)
      ensures State() == Step(old(State()), Create(req, now))
    {
      if req.id == [] || req.cardType == [] {
        return Err(InvalidArgument);
      }
      if req.status.Unsupported? {
        return Err(InvalidArgument);
      }
      var activation := Activation(1.0, None, None, []);
      if req.activation.Some? {
        activation := req.activation.value.(score := ClampUnit(req.activation.value.score));
      }
      var status := if req.status.Known? then req.status.status else Active;
      var card := Card(req.id, req.cardType, req.scope, now, req.validFrom, req.validTo, 1, [], status, req.supersedes,
                       req.content, req.evidence, req.provenance, activation);
      if req.id in cards {
        return Err(AlreadyExists);
      }
      OneWrite(State(), PutCard("card_created", card));
      Commit("card_created", card);
      return Ok(card);
    }

    /** What the request gives replaces what the latest version has. */
    method NextVersion(latest: Card, req: UpdateCardRequest, now: Time) returns (updated: Card)
      requires !req.status.Unsupported?
      ensures updated == Updated(latest, req, now)
    {
      updated := latest.(
        validFrom := req.validFrom,
        validTo := req.validTo,
        version := latest.version + 1,
        prev := latest.id + "#v" + Decimal(latest.version),
        activation := latest.activation.(lastAccess := Some(now)));
      if req.content.Some? {
        updated := updated.(content := req.content.value);
      }
      if req.status.Known? {
        updated := updated.(status := req.status.status);
      }
      if req.supersedes != [] {
        updated := updated.(supersedes := req.supersedes);
      }
      if req.scope != [] {
        updated := updated.(scope := req.scope);
      }
      if req.evidence.Some? {
        updated := updated.(evidence := req.evidence.value);
      }
      if GivesProvenance(req.provenance) {
        updated := updated.(provenance := req.provenance);
      }
    }

    method UpdateCard(id: Id, req: UpdateCardRequest, now: Time) returns (r: Result<Card, MemoryError>)
      requires Valid()
      modifies this
      ensures Valid()
      ensures r == MemoryModel.UpdateCard(old(Memory()), id, req, now)
      ensures State() == Step(old(State()), Update(id, req, now))
    {
      StepKeepsWellFormed(State(), Update(id, req, now));
      if id == [] {
        return Err(InvalidArgument);
      }
      if req.status.Unsupported? {
        return Err(InvalidArgument);
      }
      if id !in cards || cards[id] == [] {
        return Err(NotFound);
      }
      var latest := cards[id][|cards[id]| - 1];
      assert Follows(id, cards[id], |cards[id]| - 1);
      var updated := NextVersion(latest, req, now);
      OneWrite(State(), PutCard("card_updated", updated));
      Commit("card_updated", updated);
      return Ok(updated);
    }

    method TouchCard(id: Id, activationDelta: real, confidenceDelta: real, now: Time)
      returns (r: Result<Card, MemoryError>)
      requires Valid()
      modifies this
      ensures Valid()
      ensures r == MemoryModel.TouchCard(old(Memory()), id, activationDelta, confidenceDelta, now)
      ensures State() == Step(old(State()), Touch(id, activationDelta, confidenceDelta, now))
    {
      StepKeepsWellFormed(State(), Touch(id, activationDelta, confidenceDelta, now));
      if Trim(id) == [] {
        return Err(InvalidArgument);
      }
      if id !in cards || cards[id] == [] {
        return Err(NotFound);
      }
      var latest := cards[id][|cards[id]| - 1];
      assert Follows(id, cards[id], |cards[id]| - 1);
      var updated := latest;
      updated := updated.(version := latest.version + 1, prev := latest.id + "#v" + Decimal(latest.version));
      updated := updated.(activation := latest.activation.(lastAccess := Some(now)));
      updated := updated.(activation :=
        updated.activation.(score := ClampUnit(latest.activation.score + activationDelta)));
      updated := updated.(provenance := latest.provenance.(
        confidence := ClampUnit(latest.provenance.confidence + confidenceDelta)));
      assert updated == Touched(latest, activationDelta, confidenceDelta, now);
      OneWrite(State(), PutCard("card_touched", updated));
      Commit("card_touched", updated);
      return Ok(updated);
    }

    method CreateEdge(req: CreateEdgeRequest, now: Time) returns (r: Result<Edge, MemoryError>)
      requires Valid()
      modifies this
      ensures Valid()
      ensures r == MemoryModel.CreateEdge(old(Memory()), req, now)
      ensures State() == Step(old(State()), Link(req, now))
    {
      StepKeepsWellFormed(State(), Link(req, now));
      if req.id == [] || req.src == [] || req.dst == [] || req.edgeType == [] {
        return Err(InvalidArgument);
      }
      if req.id in edges {
        return Err(AlreadyExists);
      }
      if req.src !in cards {
        return Err(InvalidArgument);
      }
      if req.dst !in cards {
        return Err(InvalidArgument);
      }
      var edge := Edge(req.id, req.src, req.dst, req.edgeType, req.weight, req.confidence, req.validFrom,
                       req.validTo, req.evidence, now);
      OneWrite(State(), PutEdge(edge));
      edges := edges[edge.id := edge];
      edgesByCard := edgesByCard[edge.src := Get(edgesByCard, edge.src) + [edge.id]];
      edgesByCard := edgesByCard[edge.dst := Get(edgesByCard, edge.dst) + [edge.id]];
      if persistent {
        PersistEdge(edge.id);
        journal := journal + [Event("edge_created", edge.id, edge.edgeType, 0, None, Some(edge))];
      }
      return Ok(edge);
    }

    /** Visits the cards in the order `order`, which the caller does not control. */
    method DecayAndCompact(rate: real, staleBelow: real, archiveBelow: real, at: Option<Time>, clock: Time)
      returns (result: Tally, ghost order: seq<Id>)
      requires Valid()
      modifies this
      ensures Valid()
      ensures Visits(old(Memory()), order)
      ensures var g := Defaulted(rate, staleBelow, archiveBelow, at, clock);
              State() == Step(old(State()), Decay(g, order)) && result == TallyOf(old(Memory()), g, order)
      ensures cards.Keys == old(cards.Keys)
      ensures forall id :: id in old(cards) ==>
                FadedIn(old(Memory()), Memory(), id,
                  Governance(if rate > 0.0 then rate else 0.05, if staleBelow > 0.0 then staleBelow else 0.5,
                    if archiveBelow > 0.0 then archiveBelow else 0.1, if at == None then clock else at.value))
    {
      ghost var start := State();
      var g := Defaulted(rate, staleBelow, archiveBelow, at, clock);
      StepIsDecayed(State(), g);
      result, order := MeetAll(g);
      StoreDecays(start, g, order);
    }

    /** The decay loop, in whatever order the cards are met. */
    method MeetAll(g: Governance) returns (result: Tally, ghost order: seq<Id>)
      requires Valid()
      modifies this
      ensures Decaying(old(State()), g, {}, order, State(), result)
    {
      result, order := Tally(0, 0, 0, 0), [];
      ghost var start := State();
      var todo := cards.Keys;
      assert Elements(order) == {};
      while todo != {}
        invariant Decaying(start, g, todo, order, State(), result)
        decreases |todo|
      {
        var id :| id in todo;
        NotMetYet(start, g, order, id);
        DecayingStep(start, g, todo, order, State(), result, id);
        result := MeetCard(id, g, result);
        todo := todo - {id};
        order := order + [id];
      }
    }

    /** One turn of the decay loop. */
    method MeetCard(id: Id, g: Governance, tally: Tally) returns (t: Tally)
      requires id in cards && cards[id] != [] && Last(cards[id]).id == id
      modifies this
      ensures State() == Met(old(State()), Decayed(Last(old(cards)[id]), g))
      ensures t == TallyOne(tally, [Last(old(cards)[id])], g)
    {
      var versions := cards[id];
      var updated;
      updated, t := DecayLatest(versions[|versions| - 1], g, tally);
      if updated.Some? {
        Commit("decay_applied", updated.value);
      }
    }

    /** The new version of a card met by a decay pass, if any, and the counters after meeting it. */
    static method DecayLatest(latest: Card, g: Governance, tally: Tally) returns (updated: Option<Card>, t: Tally)
      ensures updated == Decayed(latest, g)
      ensures t == TallyOne(tally, [latest], g)
    {
      t, updated := tally, None;
      if latest.status == Archived || latest.status == Superseded || latest.status == Candidate {
        return;
      }
      t := t.(examined := t.examined + 1);
      var lastEval := latest.createdAt;
      if latest.activation.lastEval.Some? {
        lastEval := latest.activation.lastEval.value;
      }
      var hoursSinceEval := Hours(g.now - lastEval);
      assert lastEval == EvaluatedAt(latest);
      if hoursSinceEval <= 0.0 {
        return;
      }
      var effective := RateFor(latest.activation.policy, g.rate);
      var decayAmount := hoursSinceEval * effective;
      assert decayAmount == DecayAmount(latest, g);
      if decayAmount <= 0.001 && effective > 0.0 {
        return;
      }
      var newScore := ClampUnit(latest.activation.score - decayAmount);
      var newStatus := latest.status;
      if newScore < g.archiveBelow && latest.status == Stale {
        newStatus := Archived;
        t := t.(archived := t.archived + 1);
      } else if newScore < g.staleBelow && latest.status == Active {
        newStatus := Stale;
        t := t.(staled := t.staled + 1);
      }
      if newScore < latest.activation.score || newStatus != latest.status {
        updated := Some(latest.(
          version := latest.version + 1,
          prev := latest.id + "#v" + Decimal(latest.version),
          status := newStatus,
          activation := latest.activation.(score := newScore, lastEval := Some(g.now))));
        t := t.(decayed := t.decayed + 1);
      }
    }

    /** A fresh in-memory store holding what the journal describes. */
    static method ReplayFromJournal(events: seq<Event>) returns (s: Store)
      ensures fresh(s) && !s.persistent
      ensures s.Memory() == Replay(events)
    {
      s := new Store();
      for i := 0 to |events|
        invariant s.Memory() == Replay(events[..i])
      {
        var ev := events[i];
        assert events[..i + 1][..i] == events[..i];
        if ev.eventType == "card_created" || ev.eventType == "card_updated" || ev.eventType == "card_touched"
           || ev.eventType == "decay_applied"
        {
          if ev.cardSnapshot.Some? {
            var versions := ev.cardSnapshot.value;
            if versions != [] {
              s.cards := s.cards[versions[0].id := versions];
            }
          }
        } else if ev.eventType == "edge_created" {
          if ev.edgeSnapshot.Some? {
            var edge := ev.edgeSnapshot.value;
            if edge.id !in s.edges {
              s.edgesByCard := s.edgesByCard[edge.src := Get(s.edgesByCard, edge.src) + [edge.id]];
              s.edgesByCard := s.edgesByCard[edge.dst := Get(s.edgesByCard, edge.dst) + [edge.id]];
            }
            s.edges := s.edges[edge.id := edge];
          }
        }
      }
      assert events[..|events|] == events;
    }

    /** The cards of both stores whose chains differ in length. */
    method Mismatched(replayed: map<Id, seq<Card>>) returns (ids: seq<Id>)
      ensures Lists(ids, set id | id in replayed && id in cards && |cards[id]| != |replayed[id]|)
    {
      ids := [];
      ghost var all := set id | id in replayed && id in cards && |cards[id]| != |replayed[id]|;
      var todo := replayed.Keys;
      assert all - todo == {};
      while todo != {}
        invariant todo <= replayed.Keys
        invariant Lists(ids, all - todo)
        decreases |todo|
      {
        var id :| id in todo;
        if id in cards && |cards[id]| != |replayed[id]| {
          ListsOneMore(ids, all - todo, id);
          assert all - (todo - {id}) == all - todo + {id};
          ids := ids + [id];
        } else {
          assert all - (todo - {id}) == all - todo;
        }
        todo := todo - {id};
      }
      assert all - {} == all;
    }

    method VerifyIntegrity() returns (report: IntegrityReport)
      ensures !persistent ==> report == IntegrityReport(true, [], [], [], [], [])
      ensures persistent ==>
                var found := Compare(Memory(), Replay(journal));
                && report.ok == (found == CLEAN)
                && Lists(report.missingCards, found.missingCards) && Lists(report.extraCards, found.extraCards)
                && Lists(report.mismatchCards, found.mismatchCards)
                && Lists(report.missingEdges, found.missingEdges) && Lists(report.extraEdges, found.extraEdges)
    {
      if !persistent {
        return IntegrityReport(true, [], [], [], [], []);
      }
      var replayed := ReplayFromJournal(journal);
      ghost var described := Replay(journal);
      assert replayed.Memory() == described;
      var replayedCards, replayedEdges := replayed.cards, replayed.edges;
      var missingCards := Absent(replayedCards.Keys, cards.Keys);
      var extraCards := Absent(cards.Keys, replayedCards.Keys);
      var mismatchCards := Mismatched(replayedCards);
      ghost var found := Compare(Memory(), described);
      var missingEdges := Absent(replayedEdges.Keys, edges.Keys);
      var extraEdges := Absent(edges.Keys, replayedEdges.Keys);
      assert found.missingEdges == replayedEdges.Keys - edges.Keys;
      assert found.extraEdges == edges.Keys - replayedEdges.Keys;
      var ok := missingCards == [] && extraCards == [] && mismatchCards == [] && missingEdges == [] && extraEdges == [];
      EmptyLists(missingCards, found.missingCards);
      EmptyLists(extraCards, found.extraCards);
      EmptyLists(mismatchCards, found.mismatchCards);
      EmptyLists(missingEdges, found.missingEdges);
      EmptyLists(extraEdges, found.extraEdges);
      return IntegrityReport(ok, missingCards, extraCards, mismatchCards, missingEdges, extraEdges);
    }

    /** Replaces memory by the replayed journal and rewrites every snapshot file, in some order. */
    method RebuildProjections() returns (ghost cardOrder: seq<Id>, ghost edgeOrder: seq<Id>)
      modifies this
      ensures !persistent ==> State() == old(State())
      ensures persistent ==>
                && Memory() == Replay(old(journal)) && journal == old(journal)
                && Rewriting(cards, {}, cardOrder, cardFiles)
                && Rewriting(edges, {}, edgeOrder, edgeFiles)
    {
      cardOrder, edgeOrder := [], [];
      if !persistent {
        return;
      }
      var replayed := ReplayFromJournal(journal);
      assert replayed.Memory() == Replay(journal);
      cardFiles, edgeFiles := map[], map[];
      cards, edges, edgesByCard := replayed.cards, replayed.edges, replayed.edgesByCard;
      cardOrder := RewriteCards();
      edgeOrder := RewriteEdges();
    }

    method RewriteCards() returns (ghost order: seq<Id>)
      requires cardFiles == map[]
      modifies `cardFiles
      ensures Rewriting(cards, {}, order, cardFiles)
    {
      order := [];
      var todo := cards.Keys;
      assert Elements(order) == {};
      while todo != {}
        invariant Rewriting(cards, todo, order, cardFiles)
        decreases |todo|
      {
        var id :| id in todo;
        RewritingStep(cards, todo, order, cardFiles, id);
        PersistCard(id);
        todo := todo - {id};
        order := order + [id];
      }
    }

    method RewriteEdges() returns (ghost order: seq<Id>)
      requires edgeFiles == map[]
      modifies `edgeFiles
      ensures Rewriting(edges, {}, order, edgeFiles)
    {
      order := [];
      var todo := edges.Keys;
      assert Elements(order) == {};
      while todo != {}
        invariant Rewriting(edges, todo, order, edgeFiles)
        decreases |todo|
      {
        var id :| id in todo;
        RewritingStep(edges, todo, order, edgeFiles, id);
        PersistEdge(id);
        todo := todo - {id};
        order := order + [id];
      }
    }

    method ResolveAsOf(versions: seq<Card>, asOf: Option<Time>) returns (r: Option<Card>)
      ensures r == MemoryQuery.ResolveAsOf(versions, asOf)
    {
      if |versions| == 0 {
        return None;
      }
      if asOf.None? {
        return Some(versions[|versions| - 1]);
      }
      var i := |versions|;
      while i > 0
        invariant 0 <= i <= |versions|
        invariant forall j :: i <= j < |versions| ==> !InWindow(versions[j], asOf.value)
      {
        i := i - 1;
        var card := versions[i];
        if card.validFrom.Some? && asOf.value < card.validFrom.value {
          continue;
        }
        if card.validTo.Some? && asOf.value > card.validTo.value {
          continue;
        }
        ResolvesToLatest(versions, asOf.value, i);
        return Some(card);
      }
      ResolvesToNothing(versions, asOf.value);
      return None;
    }

    method CollectEdgesForCards(cardIds: seq<Id>) returns (found: seq<Edge>)
      requires Valid()
      ensures EdgesOf(Memory(), Elements(cardIds), found)
    {
      var seen: set<Id> := {};
      found := [];
      for i := 0 to |cardIds|
        invariant Collected(Memory(), seen, found)
        invariant forall e :: e in seen <==> e in edges && Touches(edges[e], Elements(cardIds[..i]))
      {
        var listed := Get(edgesByCard, cardIds[i]);
        ghost var before := seen;
        for k := 0 to |listed|
          invariant Collected(Memory(), seen, found)
          invariant seen == before + Elements(listed[..k])
        {
          var edgeId := listed[k];
          assert Elements(listed[..k + 1]) == Elements(listed[..k]) + {edgeId};
          IndexLists(Memory(), cardIds[i], edgeId);
          assert edgeId in listed;
          if edgeId in seen {
            continue;
          }
          CollectedOneMore(Memory(), seen, found, edgeId);
          found := found + [edges[edgeId]];
          seen := seen + {edgeId};
        }
        assert listed[..|listed|] == listed;
        assert Elements(cardIds[..i + 1]) == Elements(cardIds[..i]) + {cardIds[i]};
        forall e
          ensures e in seen <==> e in edges && Touches(edges[e], Elements(cardIds[..i + 1]))
        {
          IndexLists(Memory(), cardIds[i], e);
        }
      }
      assert cardIds[..|cardIds|] == cardIds;
    }

    method Query(req: QueryRequest) returns (found: seq<Card>, related: seq<Edge>)
      requires Valid()
      ensures CardsOf(Memory(), req, found)
      ensures EdgesOf(Memory(), Answers(Memory(), req), related)
    {
      if req.cardId != [] {
        found, related := QueryCard(req);
        return;
      }
      var ids;
      found, ids := QueryAll(req);
      related := CollectEdgesForCards(ids);
    }

    /** A query for one card ignores every other filter. */
    method QueryCard(req: QueryRequest) returns (found: seq<Card>, related: seq<Edge>)
      requires Valid() && req.cardId != []
      ensures CardsOf(Memory(), req, found)
      ensures EdgesOf(Memory(), Answers(Memory(), req), related)
    {
      found, related := [], [];
      var versions := Get(cards, req.cardId);
      if |versions| == 0 {
        return;
      }
      var card := ResolveAsOf(versions, req.asOf);
      assert forall c :: c in versions ==> c.id == req.cardId by {
        ChainIds(req.cardId, versions);
      }
      if card.Some? {
        found := [card.value];
        assert found[0].id == req.cardId;
        related := CollectEdgesForCards([req.cardId]);
        assert Elements([req.cardId]) == {req.cardId};
      }
    }

    method PassesFilters(card: Card, req: QueryRequest) returns (passes: bool)
      ensures passes == MemoryQuery.Passes(card, req)
    {
      if req.cardType != [] && card.cardType != req.cardType {
        return false;
      }
      if req.scope != [] && card.scope != req.scope {
        return false;
      }
      if req.status.Unsupported? || (req.status.Known? && card.status != req.status.status) {
        return false;
      }
      return true;
    }

    /** One turn of the loop over all cards. */
    method GatherCard(req: QueryRequest, id: Id, before: seq<Card>, known: seq<Id>)
      returns (found: seq<Card>, ids: seq<Id>)
      requires id in cards && req.cardId == [] && forall c :: c in cards[id] ==> c.id == id
      requires |known| == |before| && forall i :: 0 <= i < |known| ==> known[i] == before[i].id
      ensures found == (if id in Answers(Memory(), req)
                        then before + [MemoryQuery.ResolveAsOf(cards[id], req.asOf).value] else before)
      ensures |ids| == |found| && forall i :: 0 <= i < |ids| ==> ids[i] == found[i].id
    {
      found, ids := before, known;
      var card := ResolveAsOf(cards[id], req.asOf);
      if card.None? {
        return;
      }
      var passes := PassesFilters(card.value, req);
      if !passes {
        return;
      }
      ResolvedIsVersion(cards[id], req.asOf);
      found := found + [card.value];
      ids := ids + [id];
    }

    method QueryAll(req: QueryRequest) returns (found: seq<Card>, ids: seq<Id>)
      requires Valid() && req.cardId == []
      ensures CardsOf(Memory(), req, found)
      ensures Elements(ids) == Answers(Memory(), req)
    {
      found, ids := [], [];
      var todo := cards.Keys;
      while todo != {}
        invariant todo <= cards.Keys
        invariant Gathered(Memory(), req, cards.Keys - todo, found)
        invariant |ids| == |found| && forall i :: 0 <= i < |ids| ==> ids[i] == found[i].id
        decreases |todo|
      {
        var id :| id in todo;
        assert cards.Keys - (todo - {id}) == cards.Keys - todo + {id};
        ChainIds(id, cards[id]);
        GatheredOneMore(Memory(), req, cards.Keys - todo, found, id);
        todo := todo - {id};
        found, ids := GatherCard(req, id, found, ids);
      }
      assert Answers(Memory(), req) * (cards.Keys - {}) == Answers(Memory(), req);
      GatheredIds(Memory(), req, found, ids);
    }
  }

  // ----- Helpers of the loops -----

  lemma {:induction false} ResolvedIsVersion(versions: seq<Card>, asOf: Option<Time>)
    ensures MemoryQuery.ResolveAsOf(versions, asOf).Some? ==>
              MemoryQuery.ResolveAsOf(versions, asOf).value in versions
    decreases |versions|
  {
    if versions != [] && asOf.Some? && !InWindow(Last(versions), asOf.value) {
      ResolvedIsVersion(versions[..|versions| - 1], asOf);
    }
  }

  lemma EdgeOneMore(files: map<Text, Edge>, read: set<Text>, f: Text, edges: map<Id, Edge>, index: map<Id, seq<Id>>)
    requires LoadedFrom(Restricted(files, read), edges, EdgeKey) && IndexesFiles(index, Restricted(files, read))
    requires f in files && f !in read
    ensures var e := files[f];
            && LoadedFrom(Restricted(files, read + {f}), edges[e.id := e], EdgeKey)
            && IndexesFiles(IndexAdd(IndexAdd(index, e.src, e.id), e.dst, e.id), Restricted(files, read + {f}))
  {
    LoadOneMore(files, read, f, edges, EdgeKey);
    IndexOneMore(index, files, read, f);
  }

  lemma OrderSnoc(order: seq<Id>, id: Id)
    requires Distinct(order) && id !in Elements(order)
    ensures Distinct(order + [id]) && Elements(order + [id]) == Elements(order) + {id}
    ensures (order + [id])[..|order + [id]| - 1] == order && Last(order + [id]) == id
  {
  }

  /** A card the pass has not met is as it was when the pass began. */
  lemma NotMetYet(start: World, g: Governance, order: seq<Id>, id: Id)
    requires WellFormed(start.mem) && Distinct(order) && Elements(order) <= start.mem.cards.Keys
    requires id in start.mem.cards && id !in Elements(order)
    ensures var now := ApplyAll(start, DecayWrites(start.mem, g, order)).mem;
            now.cards.Keys == start.mem.cards.Keys && now.cards[id] == start.mem.cards[id] && now.cards[id] != []
    ensures Last(start.mem.cards[id]).id == id
  {
    DecayWritesAreLegal(start, g, order);
    assert Chain(id, start.mem.cards[id]);
    assert Follows(id, start.mem.cards[id], |start.mem.cards[id]| - 1);
  }

  /** A decay pass that still has to meet the cards in `todo`. */
  ghost predicate Decaying(start: World, g: Governance, todo: set<Id>, order: seq<Id>, now: World, t: Tally) {
    && todo <= start.mem.cards.Keys
    && Distinct(order) && Elements(order) == start.mem.cards.Keys - todo
    && now == ApplyAll(start, DecayWrites(start.mem, g, order))
    && t == TallyOf(start.mem, g, order)
  }

  /** A store all of whose cards have been met has taken the decay step. */
  lemma StepIsDecayed(start: World, g: Governance)
    requires WellFormed(start.mem)
    ensures forall order, now, t :: Decaying(start, g, {}, order, now, t) ==>
              && Visits(start.mem, order) && now == Step(start, Decay(g, order)) && WellFormed(now.mem)
              && t == TallyOf(start.mem, g, order)
  {
    forall order, now, t | Decaying(start, g, {}, order, now, t)
      ensures Visits(start.mem, order) && now == Step(start, Decay(g, order)) && WellFormed(now.mem)
    {
      StepKeepsWellFormed(start, Decay(g, order));
    }
  }

  /** The store after a pass has met one more card. */
  function Met(now: World, updated: Option<Card>): World {
    if updated.Some? then Apply(now, PutCard("decay_applied", updated.value)) else now
  }

  /** One more card met by a decay pass. */
  lemma DecayingStep(start: World, g: Governance, todo: set<Id>, order: seq<Id>, now: World, t: Tally, id: Id)
    requires Decaying(start, g, todo, order, now, t) && id in todo && start.mem.cards[id] != []
    ensures var latest := Last(start.mem.cards[id]);
            Decaying(start, g, todo - {id}, order + [id], Met(now, Decayed(latest, g)), TallyOne(t, [latest], g))
  {
    OrderSnoc(order, id);
    assert start.mem.cards.Keys - (todo - {id}) == start.mem.cards.Keys - todo + {id};
    var ws, step := DecayWrites(start.mem, g, order), DecayWrite(start.mem, g, id);
    assert DecayWrites(start.mem, g, order + [id]) == ws + step;
    if step == [] {
      assert ws + step == ws;
    } else {
      assert step == [step[0]];
      SnocWrites(start, ws, step[0]);
    }
  }

  lemma GatheredIds(mem: Mem, req: QueryRequest, found: seq<Card>, ids: seq<Id>)
    requires CardsOf(mem, req, found)
    requires |ids| == |found| && forall i :: 0 <= i < |ids| ==> ids[i] == found[i].id
    ensures Elements(ids) == Answers(mem, req)
  {
    forall id | id in Answers(mem, req)
      ensures id in ids
    {
      var i :| 0 <= i < |found| && found[i].id == id;
      assert ids[i] == id;
    }
  }

  /** A sequence that lists each element of a set once. */
  predicate Lists(s: seq<Id>, ids: set<Id>) {
    Distinct(s) && Elements(s) == ids
  }

  lemma ListsOneMore(s: seq<Id>, ids: set<Id>, id: Id)
    requires Lists(s, ids) && id !in ids
    ensures Lists(s + [id], ids + {id})
  {
    assert id !in Elements(s);
    assert Elements(s + [id]) == Elements(s) + {id};
  }

  lemma EmptyLists(s: seq<Id>, ids: set<Id>)
    requires Lists(s, ids)
    ensures s == [] <==> ids == {}
  {
    if s != [] {
      assert s[0] in Elements(s);
    }
  }

  /** The keys of one map that the other lacks. */
  method Absent(keys: set<Id>, others: set<Id>) returns (s: seq<Id>)
    ensures Lists(s, keys - others)
  {
    s := [];
    var todo := keys;
    while todo != {}
      invariant todo <= keys
      invariant Lists(s, keys - others - todo)
      decreases |todo|
    {
      var id :| id in todo;
      if id !in others {
        ListsOneMore(s, keys - others - todo, id);
        assert keys - others - (todo - {id}) == keys - others - todo + {id};
        s := s + [id];
      } else {
        assert keys - others - (todo - {id}) == keys - others - todo;
      }
      todo := todo - {id};
    }
    assert keys - others - {} == keys - others;
  }

  /** All entities but those in `todo` have been rewritten, in the given order. */
  ghost predicate Rewriting<V>(live: map<Id, V>, todo: set<Id>, order: seq<Id>, files: map<Text, V>) {
    && todo <= live.Keys
    && Distinct(order) && Elements(order) == live.Keys - todo
    && files == Rewritten(live, order)
  }

  lemma RewritingStep<V>(live: map<Id, V>, todo: set<Id>, order: seq<Id>, files: map<Text, V>, id: Id)
    requires Rewriting(live, todo, order, files) && id in todo
    ensures Rewriting(live, todo - {id}, order + [id], Unlinked(files[HexName(id) := live[id]], id))
  {
    OrderSnoc(order, id);
    assert live.Keys - (todo - {id}) == live.Keys - todo + {id};
  }

  /** The edges with the ids in `seen`, each once. */
  ghost predicate Collected(mem: Mem, seen: set<Id>, found: seq<Edge>) {
    && seen <= mem.edges.Keys
    && Distinct(found)
    && (forall e :: e in found ==> e.id in seen && mem.edges[e.id] == e)
    && (forall e :: e in seen ==> mem.edges[e] in found)
  }

  lemma CollectedOneMore(mem: Mem, seen: set<Id>, found: seq<Edge>, id: Id)
    requires WellFormed(mem) && Collected(mem, seen, found) && id in mem.edges && id !in seen
    ensures Collected(mem, seen + {id}, found + [mem.edges[id]])
  {
    assert mem.edges[id].id == id;
    assert mem.edges[id] !in found;
  }

  lemma ChainIds(id: Id, versions: seq<Card>)
    requires Chain(id, versions)
    ensures forall c :: c in versions ==> c.id == id
  {
    forall c | c in versions
      ensures c.id == id
    {
      var i :| 0 <= i < |versions| && versions[i] == c;
      assert Follows(id, versions, i);
    }
  }

  /** The answers to a query among the cards met so far. */
  ghost predicate Gathered(mem: Mem, req: QueryRequest, met: set<Id>, found: seq<Card>) {
    && (forall i :: 0 <= i < |found| ==>
         found[i].id in Answers(mem, req) * met &&
           MemoryQuery.ResolveAsOf(Get(mem.cards, found[i].id), req.asOf) == Some(found[i]))
    && (forall i, j :: 0 <= i < j < |found| ==> found[i].id != found[j].id)
    && (forall id :: id in Answers(mem, req) * met ==> exists i :: 0 <= i < |found| && found[i].id == id)
  }

  lemma GatheredOneMore(mem: Mem, req: QueryRequest, met: set<Id>, found: seq<Card>, id: Id)
    requires Gathered(mem, req, met, found) && id !in met && id in mem.cards && req.cardId == []
    requires forall c :: c in mem.cards[id] ==> c.id == id
    ensures id !in Answers(mem, req) ==> Gathered(mem, req, met + {id}, found)
    ensures id in Answers(mem, req) ==>
              Gathered(mem, req, met + {id}, found + [MemoryQuery.ResolveAsOf(mem.cards[id], req.asOf).value])
  {
    var answers := Answers(mem, req);
    if id !in answers {
      assert answers * (met + {id}) == answers * met;
    } else {
      var c := MemoryQuery.ResolveAsOf(mem.cards[id], req.asOf).value;
      var found' := found + [c];
      forall x | x in answers * (met + {id})
        ensures exists i :: 0 <= i < |found'| && found'[i].id == x
      {
        if x == id {
          assert found'[|found|].id == x;
        } else {
          assert x in answers * met;
          var i :| 0 <= i < |found| && found[i].id == x;
          assert found'[i].id == x;
        }
      }
    }
  }
}
