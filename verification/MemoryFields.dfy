/** What each operation of the memory store writes, field by field. */
module MemoryFields {
  import opened Prelude
  import opened Strings
  import opened FileNames
  import opened MemoryModel
  import opened MemoryInvariant
  import opened MemoryDecay

  /** `s` is the number between 0 and 1 that is closest to `x`. */
  predicate Closest(s: real, x: real) {
    0.0 <= s <= 1.0 && (s == x || (s == 0.0 && x < 0.0) || (s == 1.0 && x > 1.0))
  }

  /** `c` is the version after `latest`, with the same fields but those that may change in each operation. */
  predicate NextVersion(latest: Card, c: Card) {
    && (c.id, c.cardType, c.createdAt) == (latest.id, latest.cardType, latest.createdAt)
    && c.version == latest.version + 1 && c.prev == latest.id + "#v" + Decimal(latest.version)
    && c.activation.policy == latest.activation.policy
  }

  /** What a touch or a pass leaves as it is. */
  predicate SameClaim(latest: Card, c: Card) {
    && (c.scope, c.content, c.supersedes) == (latest.scope, latest.content, latest.supersedes)
    && (c.validFrom, c.validTo, c.evidence) == (latest.validFrom, latest.validTo, latest.evidence)
    && (c.provenance.agentId, c.provenance.source) == (latest.provenance.agentId, latest.provenance.source)
  }

  // ----- The versions that operations add -----

  predicate IsCreated(c: Card, req: CreateCardRequest, now: Time) {
    && (c.id, c.cardType, c.scope, c.content) == (req.id, req.cardType, req.scope, req.content)
    && (c.validFrom, c.validTo, c.evidence) == (req.validFrom, req.validTo, req.evidence)
    && (c.supersedes, c.provenance) == (req.supersedes, req.provenance)
    && c.createdAt == now && c.version == 1 && c.prev == []
    && (req.status == Known(c.status) || (req.status == Unset && c.status == Active))
    && if req.activation.None? then c.activation == Activation(1.0, None, None, [])
       else
         var a := req.activation.value;
         Closest(c.activation.score, a.score) && c.activation.policy == a.policy &&
         c.activation.lastAccess == a.lastAccess && c.activation.lastEval == a.lastEval
  }

  /** The request replaces what it gives, and always the window. */
  predicate IsUpdated(latest: Card, c: Card, req: UpdateCardRequest, now: Time) {
    && NextVersion(latest, c) && (c.validFrom, c.validTo) == (req.validFrom, req.validTo)
    && (c.activation.score, c.activation.lastEval) == (latest.activation.score, latest.activation.lastEval)
    && c.activation.lastAccess == Some(now)
    && (req.content == Some(c.content) || (req.content == None && c.content == latest.content))
    && (req.status == Known(c.status) || (req.status == Unset && c.status == latest.status))
    && (req.evidence == Some(c.evidence) || (req.evidence == None && c.evidence == latest.evidence))
    && c.supersedes == (if req.supersedes == [] then latest.supersedes else req.supersedes)
    && c.scope == (if req.scope == [] then latest.scope else req.scope)
    && c.provenance == (if req.provenance == Provenance([], [], 0.0) then latest.provenance else req.provenance)
  }

  predicate IsTouched(latest: Card, c: Card, activationDelta: real, confidenceDelta: real, now: Time) {
    && NextVersion(latest, c) && SameClaim(latest, c) && c.status == latest.status
    && c.activation.lastEval == latest.activation.lastEval && c.activation.lastAccess == Some(now)
    && Closest(c.activation.score, latest.activation.score + activationDelta)
    && Closest(c.provenance.confidence, latest.provenance.confidence + confidenceDelta)
  }

  /** The card is stored as the latest version under its id, written to its file, and put into the journal. */
  predicate Added(before: World, after: World, event: Text, c: Card) {
    var versions := (if c.id in before.mem.cards then before.mem.cards[c.id] else []) + [c];
    && after.persistent == before.persistent
    && after.mem == before.mem.(cards := before.mem.cards[c.id := versions])
    && if !before.persistent then after.disk == before.disk
       else
         && HexName(c.id) in after.disk.cardFiles && after.disk.cardFiles[HexName(c.id)] == versions
         && OnlyLegacyGoes(before.disk.cardFiles, after.disk.cardFiles, c.id)
         && after.disk.edgeFiles == before.disk.edgeFiles
         && after.disk.journal ==
            before.disk.journal + [Event(event, c.id, c.cardType, c.version, Some(versions), None)]
  }

  /** Of the files under other names, none changes and only the one under the legacy name of the id can go. */
  predicate OnlyLegacyGoes<V(==)>(before: map<Text, V>, after: map<Text, V>, id: Id) {
    && after.Keys == before.Keys + {HexName(id)} - ({LegacyName(id)} - {HexName(id)})
    && forall f :: f in after && f != HexName(id) ==> after[f] == before[f]
  }

  lemma PutCardAdds(world: World, event: Text, c: Card)
    ensures Added(world, Apply(world, PutCard(event, c)), event, c)
    ensures ApplyAll(world, [PutCard(event, c)]) == Apply(world, PutCard(event, c))
  {
    HexIsNotLegacy(c.id);
    OneWrite(world, PutCard(event, c));
  }

  /** An operation that writes one card adds it. */
  lemma CardIsAdded(world: World, op: Op, event: Text, c: Card)
    requires Writes(world.mem, op) == [PutCard(event, c)]
    ensures Added(world, Step(world, op), event, c)
  {
    PutCardAdds(world, event, c);
  }

  lemma LatestIsNamed(mem: Mem, id: Id)
    requires WellFormed(mem) && id in mem.cards
    ensures mem.cards[id] != [] && Last(mem.cards[id]).id == id && Get(mem.cards, id) == mem.cards[id]
  {
    assert Chain(id, mem.cards[id]);
    assert Follows(id, mem.cards[id], |mem.cards[id]| - 1);
  }

  lemma HexIsNotLegacy(id: Id)
    ensures LegacyName(id) != HexName(id) ==> HexName(id) !in {LegacyName(id)}
  {
  }

  /** A card is created as the request says, unless something required is missing, or the id is taken. */
  lemma CreateAdds(world: World, req: CreateCardRequest, now: Time)
    ensures var after, r := Step(world, Create(req, now)), CreateCard(world.mem, req, now);
            if req.id == [] || req.cardType == [] || req.status == Unsupported then
              r == Err(InvalidArgument) && after == world
            else if req.id in world.mem.cards then r == Err(AlreadyExists) && after == world
            else r.Ok? && IsCreated(r.value, req, now) && Added(world, after, "card_created", r.value)
  {
    var r := CreateCard(world.mem, req, now);
    if r.Ok? {
      CardIsAdded(world, Create(req, now), "card_created", r.value);
    }
  }

  lemma UpdatedIs(latest: Card, req: UpdateCardRequest, now: Time)
    requires !req.status.Unsupported?
    ensures IsUpdated(latest, Updated(latest, req, now), req, now)
  {
  }

  lemma TouchedIs(latest: Card, activationDelta: real, confidenceDelta: real, now: Time)
    ensures IsTouched(latest, Touched(latest, activationDelta, confidenceDelta, now), activationDelta,
                      confidenceDelta, now)
  {
  }

  /** A stored card gets a new version as the request says. */
  lemma UpdateAdds(world: World, id: Id, req: UpdateCardRequest, now: Time)
    requires WellFormed(world.mem)
    ensures var after, r := Step(world, Update(id, req, now)), UpdateCard(world.mem, id, req, now);
            if id == [] || req.status == Unsupported then r == Err(InvalidArgument) && after == world
            else if id !in world.mem.cards then r == Err(NotFound) && after == world
            else
              && r.Ok? && world.mem.cards[id] != [] && r.value.id == id
              && IsUpdated(Last(world.mem.cards[id]), r.value, req, now)
              && Added(world, after, "card_updated", r.value)
  {
    var r := UpdateCard(world.mem, id, req, now);
    if id in world.mem.cards {
      LatestIsNamed(world.mem, id);
    }
    if r.Ok? {
      UpdatedIs(Last(world.mem.cards[id]), req, now);
      CardIsAdded(world, Update(id, req, now), "card_updated", r.value);
    }
  }

  /** A touch adds the changes to score and confidence, kept between 0 and 1. */
  lemma TouchAdds(world: World, id: Id, activationDelta: real, confidenceDelta: real, now: Time)
    requires WellFormed(world.mem)
    ensures var after, r := Step(world, Touch(id, activationDelta, confidenceDelta, now)),
                            TouchCard(world.mem, id, activationDelta, confidenceDelta, now);
            if Trim(id) == [] then r == Err(InvalidArgument) && after == world
            else if id !in world.mem.cards then r == Err(NotFound) && after == world
            else
              && r.Ok? && world.mem.cards[id] != [] && r.value.id == id
              && IsTouched(Last(world.mem.cards[id]), r.value, activationDelta, confidenceDelta, now)
              && Added(world, after, "card_touched", r.value)
  {
    var r := TouchCard(world.mem, id, activationDelta, confidenceDelta, now);
    if id in world.mem.cards {
      LatestIsNamed(world.mem, id);
    }
    if r.Ok? {
      TouchedIs(Last(world.mem.cards[id]), activationDelta, confidenceDelta, now);
      CardIsAdded(world, Touch(id, activationDelta, confidenceDelta, now), "card_touched", r.value);
    }
  }

  /** The edge that a request asks for. */
  predicate IsLinked(e: Edge, req: CreateEdgeRequest, now: Time) {
    && (e.id, e.src, e.dst, e.edgeType) == (req.id, req.src, req.dst, req.edgeType)
    && (e.weight, e.confidence, e.evidence) == (req.weight, req.confidence, req.evidence)
    && (e.validFrom, e.validTo, e.createdAt) == (req.validFrom, req.validTo, now)
  }

  /** The entries of an edge under a card: one for each end. */
  function Entries(e: Edge, card: Id): seq<Id> {
    (if card == e.src then [e.id] else []) + (if card == e.dst then [e.id] else [])
  }

  /** The edge is listed last under its two cards, and the lists of other cards stay. */
  ghost predicate ListedLast(before: Mem, after: Mem, e: Edge) {
    forall c :: Get(after.index, c) == Get(before.index, c) + Entries(e, c)
  }

  ghost predicate EdgeAdded(before: World, after: World, e: Edge) {
    && after.persistent == before.persistent
    && after.mem.cards == before.mem.cards && after.mem.edges == before.mem.edges[e.id := e]
    && ListedLast(before.mem, after.mem, e)
    && if !before.persistent then after.disk == before.disk
       else
         && HexName(e.id) in after.disk.edgeFiles && after.disk.edgeFiles[HexName(e.id)] == e
         && OnlyLegacyGoes(before.disk.edgeFiles, after.disk.edgeFiles, e.id)
         && after.disk.cardFiles == before.disk.cardFiles
         && after.disk.journal == before.disk.journal + [Event("edge_created", e.id, e.edgeType, 0, None, Some(e))]
  }

  /** An edge is created as the request says, between two stored cards. */
  lemma LinkAdds(world: World, req: CreateEdgeRequest, now: Time)
    ensures var after, r := Step(world, Link(req, now)), CreateEdge(world.mem, req, now);
            if [] in [req.id, req.src, req.dst, req.edgeType] then r == Err(InvalidArgument) && after == world
            else if req.id in world.mem.edges then r == Err(AlreadyExists) && after == world
            else if req.src !in world.mem.cards || req.dst !in world.mem.cards then
              r == Err(InvalidArgument) && after == world
            else r.Ok? && IsLinked(r.value, req, now) && EdgeAdded(world, after, r.value)
  {
    var r := CreateEdge(world.mem, req, now);
    if r.Ok? {
      HexIsNotLegacy(req.id);
      OneWrite(world, PutEdge(r.value));
      AddedIsListedLast(world.mem, r.value);
    }
  }

  /** The line of a card replaces its versions by those in the snapshot, under the id that they have. */
  lemma CardLineReplaces(journal: seq<Event>, ev: Event)
    requires ev.eventType in {"card_created", "card_updated", "card_touched", "decay_applied"}
    requires ev.cardSnapshot.Some? && ev.cardSnapshot.value != []
    ensures var (before, after) := (Replay(journal), Replay(journal + [ev]));
            && after.edges == before.edges && after.index == before.index
            && after.cards == before.cards[ev.cardSnapshot.value[0].id := ev.cardSnapshot.value]
  {
    assert (journal + [ev])[..|journal|] == journal;
  }

  /** The line of an edge stores it; what it touches is indexed only when the edge is new. */
  lemma EdgeLineAdds(journal: seq<Event>, ev: Event)
    requires ev.eventType == "edge_created" && ev.edgeSnapshot.Some?
    ensures var (before, after, e) := (Replay(journal), Replay(journal + [ev]), ev.edgeSnapshot.value);
            && after.cards == before.cards && after.edges == before.edges[e.id := e]
            && (e.id in before.edges ==> after.index == before.index)
            && (e.id !in before.edges ==> ListedLast(before, after, e))
  {
    assert (journal + [ev])[..|journal|] == journal;
    AddedIsListedLast(Replay(journal), ev.edgeSnapshot.value);
  }

  lemma AddedIsListedLast(mem: Mem, e: Edge)
    ensures ListedLast(mem, AddEdge(mem, e), e)
  {
    forall c
      ensures Get(AddEdge(mem, e).index, c) == Get(mem.index, c) + Entries(e, c)
    {
      if c == e.src && c == e.dst {
        assert Get(mem.index, c) + [e.id] + [e.id] == Get(mem.index, c) + Entries(e, c);
      }
    }
  }

  /** A journal line of another kind, or one without its snapshot, says nothing. */
  lemma OtherLinesSayNothing(journal: seq<Event>, ev: Event)
    requires (ev.eventType in {"card_created", "card_updated", "card_touched", "decay_applied"} &&
              (ev.cardSnapshot == None || ev.cardSnapshot == Some([]))) ||
             (ev.eventType == "edge_created" && ev.edgeSnapshot == None) ||
             ev.eventType !in {"card_created", "card_updated", "card_touched", "decay_applied", "edge_created"}
    ensures Replay(journal + [ev]) == Replay(journal)
  {
    assert (journal + [ev])[..|journal|] == journal;
  }

  // ----- A decay pass -----

  /** How fast a card decays, given the rate of a pass. */
  predicate DecaysAt(rate: real, policy: Text, base: real) {
    if policy == "session_use" then rate == 5.0 * base
    else if policy == "durable" then 5.0 * rate == base
    else if policy == "never" then rate == 0.0
    else rate == base
  }

  /** What a pass takes off the score of `c`: the hours since its last evaluation times its rate. */
  ghost predicate Loses(c: Card, g: Governance, hours: real, loss: real) {
    var since := if c.activation.lastEval.Some? then c.activation.lastEval.value else c.createdAt;
    && hours * 3600000000000.0 == (g.now - since) as real
    && exists rate :: DecaysAt(rate, c.activation.policy, g.rate) && loss == hours * rate
  }

  /** The pass takes effect: the card is active or stale, time has passed, and what it loses is not negligible. */
  predicate TakesEffect(c: Card, hours: real, loss: real) {
    && (c.status == Active || c.status == Stale) && hours > 0.0
    && (loss > 0.001 || loss <= 0.0)
  }

  /**
   `d` is what a pass leaves of `c`. An active card goes stale exactly below one threshold, and a stale one is archived
   exactly below the other.
   */
  predicate DecayedTo(c: Card, d: Card, g: Governance, hours: real, loss: real) {
    if !TakesEffect(c, hours, loss) then d == c
    else
      && Closest(d.activation.score, c.activation.score - loss)
      && (c.status == Active ==> d.status == if d.activation.score < g.staleBelow then Stale else Active)
      && (c.status == Stale ==> d.status == if d.activation.score < g.archiveBelow then Archived else Stale)
      && (d == c || IsDecayed(c, d, g.now))
  }

  predicate IsDecayed(c: Card, d: Card, now: Time) {
    && NextVersion(c, d) && SameClaim(c, d) && d.provenance.confidence == c.provenance.confidence
    && d.activation.lastAccess == c.activation.lastAccess && d.activation.lastEval == Some(now)
    && (d.activation.score < c.activation.score || d.status != c.status)
  }

  /** For every card and pass. */
  lemma PassDecays(c: Card, g: Governance) returns (hours: real, loss: real)
    requires 0.0 <= c.activation.score <= 1.0 && g.rate > 0.0
    ensures Loses(c, g, hours, loss) && DecayedTo(c, Pass(c, g), g, hours, loss)
  {
    hours, loss := Hours(g.now - EvaluatedAt(c)), DecayAmount(c, g);
    LossOfPass(c, g, hours, loss, RateFor(c.activation.policy, g.rate));
    assert TakesEffect(c, hours, loss) <==> Governed(c) && DueForDecay(c, g);
    PassAfterLoss(c, g, hours, loss);
  }

  lemma LossOfPass(c: Card, g: Governance, hours: real, loss: real, rate: real)
    requires hours == Hours(g.now - EvaluatedAt(c)) && rate == RateFor(c.activation.policy, g.rate) && g.rate > 0.0
    requires loss == hours * rate
    ensures Loses(c, g, hours, loss)
    ensures hours > 0.0 ==> (rate > 0.0 <==> loss > 0.0) && loss >= 0.0
  {
    assert DecaysAt(rate, c.activation.policy, g.rate);
  }

  lemma PassAfterLoss(c: Card, g: Governance, hours: real, loss: real)
    requires 0.0 <= c.activation.score <= 1.0 && loss == DecayAmount(c, g)
    requires hours > 0.0 ==> loss >= 0.0
    requires TakesEffect(c, hours, loss) <==> Governed(c) && DueForDecay(c, g)
    ensures DecayedTo(c, Pass(c, g), g, hours, loss)
  {
  }

  /** What a pass with the options `g` did to a card. */
  ghost predicate Faded(c: Card, d: Card, g: Governance) {
    exists hours, loss :: Loses(c, g, hours, loss) && DecayedTo(c, d, g, hours, loss)
  }

  /** A pass over the store does this to each of its cards, and adds and removes none. */
  lemma StoreDecays(world: World, g: Governance, order: seq<Id>)
    requires WellFormed(world.mem) && Visits(world.mem, order) && g.rate > 0.0
    ensures Step(world, Decay(g, order)).mem.cards.Keys == world.mem.cards.Keys
    ensures forall id :: id in world.mem.cards ==> FadedIn(world.mem, Step(world, Decay(g, order)).mem, id, g)
  {
    DecayOrderIsIrrelevant(world, g, order);
    forall id | id in world.mem.cards
      ensures FadedIn(world.mem, DecayAll(world.mem, g), id, g)
    {
      assert Chain(id, world.mem.cards[id]);
      assert Follows(id, world.mem.cards[id], |world.mem.cards[id]| - 1);
      var hours, loss := PassDecays(Last(world.mem.cards[id]), g);
    }
  }

  ghost predicate FadedIn(before: Mem, after: Mem, id: Id, g: Governance) {
    && id in before.cards && before.cards[id] != [] && id in after.cards && after.cards[id] != []
    && (after.cards[id] == before.cards[id] || after.cards[id] == before.cards[id] + [Last(after.cards[id])])
    && Faded(Last(before.cards[id]), Last(after.cards[id]), g)
  }

  // ----- What a pass writes -----

  lemma {:induction false} WritesAreLogged(world: World, ws: seq<Write>, event: Text)
    requires world.persistent && forall w :: w in ws ==> w.PutCard? && w.event == event
    ensures var after, n := ApplyAll(world, ws), |world.disk.journal|;
            && after.persistent && |after.disk.journal| == n + |ws| && world.disk.journal <= after.disk.journal
            && (forall i :: n <= i < |after.disk.journal| ==> after.disk.journal[i].eventType == event)
            && after.disk.edgeFiles == world.disk.edgeFiles
    decreases |ws|
  {
    if ws != [] {
      WritesAreLogged(world, ws[..|ws| - 1], event);
      assert Last(ws) in ws;
    }
  }

  lemma {:induction false} DecayWritesAre(mem: Mem, g: Governance, order: seq<Id>)
    ensures forall w :: w in DecayWrites(mem, g, order) ==> w.PutCard? && w.event == "decay_applied"
    ensures |DecayWrites(mem, g, order)| == TallyOf(mem, g, order).decayed
    decreases |order|
  {
    if order != [] {
      DecayWritesAre(mem, g, order[..|order| - 1]);
    }
  }

  /** A pass over a store with a directory puts one line into the journal for each card that it counts as decayed. */
  lemma PassIsLogged(world: World, g: Governance, order: seq<Id>)
    requires world.persistent
    ensures var before, after := world.disk, Step(world, Decay(g, order)).disk;
            && before.journal <= after.journal && after.edgeFiles == before.edgeFiles
            && |after.journal| == |before.journal| + TallyOf(world.mem, g, order).decayed
            && (forall i :: |before.journal| <= i < |after.journal| ==> after.journal[i].eventType == "decay_applied")
  {
    DecayWritesAre(world.mem, g, order);
    WritesAreLogged(world, DecayWrites(world.mem, g, order), "decay_applied");
  }

  /** A store without a directory writes nothing. */
  lemma {:induction false} NothingIsWritten(world: World, ops: seq<Op>)
    requires !world.persistent
    ensures !RunAll(world, ops).persistent && RunAll(world, ops).disk == world.disk
    decreases |ops|
  {
    if ops != [] {
      NothingIsWritten(world, ops[..|ops| - 1]);
      var before := RunAll(world, ops[..|ops| - 1]);
      NoWriteIsWritten(before, Writes(before.mem, Last(ops)));
    }
  }

  lemma {:induction false} NoWriteIsWritten(world: World, ws: seq<Write>)
    requires !world.persistent
    ensures !ApplyAll(world, ws).persistent && ApplyAll(world, ws).disk == world.disk
    decreases |ws|
  {
    if ws != [] {
      NoWriteIsWritten(world, ws[..|ws| - 1]);
    }
  }
}
