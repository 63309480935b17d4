/** Reading the store: as-of resolution and the edges of a list of cards. */
module MemoryQuery {
  import opened Prelude
  import opened Strings
  import opened MemoryModel
  import opened MemoryInvariant

  predicate InWindow(c: Card, t: Time) {
    && (c.validFrom.Some? ==> c.validFrom.value <= t)
    && (c.validTo.Some? ==> t <= c.validTo.value)
  }

  /** The last version, or the last one whose validity window contains the instant. */
  function ResolveAsOf(versions: seq<Card>, asOf: Option<Time>): (r: Option<Card>)
    ensures r.Some? ==> r.value in versions
  {
    if versions == [] then None
    else if asOf.None? || InWindow(Last(versions), asOf.value) then Some(Last(versions))
    else ResolveAsOf(versions[..|versions| - 1], asOf)
  }

  /** The instant lies neither before the card is valid nor after. */
  predicate ValidAt(c: Card, t: Time) {
    !(c.validFrom.Some? && t < c.validFrom.value) && !(c.validTo.Some? && t > c.validTo.value)
  }

  lemma {:induction false} ResolvesToLatest(versions: seq<Card>, t: Time, i: nat)
    requires i < |versions| && ValidAt(versions[i], t)
    requires forall j :: i < j < |versions| ==> !ValidAt(versions[j], t)
    ensures ResolveAsOf(versions, Some(t)) == Some(versions[i])
    decreases |versions|
  {
    if i < |versions| - 1 {
      assert !ValidAt(versions[|versions| - 1], t);
      ResolvesToLatest(versions[..|versions| - 1], t, i);
    }
  }

  lemma {:induction false} ResolvesToNothing(versions: seq<Card>, t: Time)
    requires forall j :: 0 <= j < |versions| ==> !ValidAt(versions[j], t)
    ensures ResolveAsOf(versions, Some(t)) == None
    decreases |versions|
  {
    if versions != [] {
      assert !ValidAt(versions[|versions| - 1], t);
      ResolvesToNothing(versions[..|versions| - 1], t);
    }
  }

  /** Two answers that a reader of content cannot tell apart. */
  predicate SameView(a: Option<Card>, b: Option<Card>) {
    match (a, b)
    case (None, None) => true
    case (Some(c), Some(d)) =>
      c.id == d.id && c.cardType == d.cardType && c.scope == d.scope && c.content == d.content &&
      c.evidence == d.evidence && c.supersedes == d.supersedes && c.createdAt == d.createdAt &&
      c.validFrom == d.validFrom && c.validTo == d.validTo
    case _ => false
  }

  lemma ExtensionIsInvisible(versions: seq<Card>, c: Card, asOf: Option<Time>)
    requires versions != [] && SameView(Some(Last(versions)), Some(c))
    ensures SameView(ResolveAsOf(versions, asOf), ResolveAsOf(versions + [c], asOf))
  {
    assert (versions + [c])[..|versions|] == versions;
    if asOf.Some? && !InWindow(c, asOf.value) {
      var r := ResolveAsOf(versions, asOf);
      assert SameView(r, r);
    }
  }

  /**
   Touching and decaying never change what a reader sees: for every card and every instant, and for
   the present, the answer before and after agree; and chains only grow.
   */
  lemma TouchAndDecayAreInvisible(world: World, op: Op, id: Id, asOf: Option<Time>)
    requires WellFormed(world.mem) && Enabled(world.mem, op) && (op.Touch? || op.Decay?)
    ensures var before, after := Get(world.mem.cards, id), Get(Step(world, op).mem.cards, id);
            before <= after && SameView(ResolveAsOf(before, asOf), ResolveAsOf(after, asOf))
  {
    if op.Touch? {
      TouchIsInvisible(world, op, id, asOf);
    } else {
      DecayIsInvisible(world, op.g, op.order, id, asOf);
    }
  }

  lemma TouchIsInvisible(world: World, op: Op, id: Id, asOf: Option<Time>)
    requires WellFormed(world.mem) && op.Touch?
    ensures var before, after := Get(world.mem.cards, id), Get(Step(world, op).mem.cards, id);
            before <= after && SameView(ResolveAsOf(before, asOf), ResolveAsOf(after, asOf))
  {
    var before := Get(world.mem.cards, id);
    var r := ResolveAsOf(before, asOf);
    assert SameView(r, r);
    var touched := TouchCard(world.mem, op.id, op.activationDelta, op.confidenceDelta, op.now);
    if touched.Ok? {
      OneWrite(world, PutCard("card_touched", touched.value));
      assert Follows(op.id, world.mem.cards[op.id], |world.mem.cards[op.id]| - 1);
      if id == op.id {
        ExtensionIsInvisible(before, touched.value, asOf);
      }
    }
  }

  lemma DecayIsInvisible(world: World, g: Governance, order: seq<Id>, id: Id, asOf: Option<Time>)
    requires WellFormed(world.mem) && Enabled(world.mem, Decay(g, order))
    ensures var before, after := Get(world.mem.cards, id), Get(Step(world, Decay(g, order)).mem.cards, id);
            before <= after && SameView(ResolveAsOf(before, asOf), ResolveAsOf(after, asOf))
  {
    DecayPassesEach(world, g, order, id);
    PassIsInvisible(Get(world.mem.cards, id), Get(Step(world, Decay(g, order)).mem.cards, id), g, asOf);
  }

  lemma DecayPassesEach(world: World, g: Governance, order: seq<Id>, id: Id)
    requires WellFormed(world.mem) && Enabled(world.mem, Decay(g, order))
    ensures Get(Step(world, Decay(g, order)).mem.cards, id) == AfterPass(Get(world.mem.cards, id), g)
  {
    DecayWritesAreLegal(world, g, order);
    assert Step(world, Decay(g, order)).mem == Partly(world.mem, g, Elements(order));
  }

  /** One card, met by a decay pass. */
  lemma PassIsInvisible(before: seq<Card>, after: seq<Card>, g: Governance, asOf: Option<Time>)
    requires after == AfterPass(before, g)
    ensures before <= after && SameView(ResolveAsOf(before, asOf), ResolveAsOf(after, asOf))
  {
    var r := ResolveAsOf(before, asOf);
    assert SameView(r, r);
    if before != [] && Decayed(Last(before), g).Some? {
      ExtensionIsInvisible(before, Decayed(Last(before), g).value, asOf);
    }
  }

  /**
   An update takes its validity window from the request alone. The new version answers exactly the
   instants of that window; at every other instant the answer is the old one. A request without a
   window therefore answers every instant, whatever window the card had.
   */
  lemma UpdateReplacesWindow(versions: seq<Card>, req: UpdateCardRequest, now: Time, t: Time)
    requires versions != []
    ensures var c := Updated(Last(versions), req, now);
            && (InWindow(c, t) ==> ResolveAsOf(versions + [c], Some(t)) == Some(c))
            && (!InWindow(c, t) ==> ResolveAsOf(versions + [c], Some(t)) == ResolveAsOf(versions, Some(t)))
            && (InWindow(c, t) <==>
                 (req.validFrom.Some? ==> req.validFrom.value <= t) && (req.validTo.Some? ==> t <= req.validTo.value))
  {
    var c := Updated(Last(versions), req, now);
    assert (versions + [c])[..|versions|] == versions;
  }

  // ----- Edges -----

  predicate Touches(e: Edge, ids: set<Id>) {
    e.src in ids || e.dst in ids
  }

  /** Exactly the stored edges with an endpoint among the ids, each once. */
  ghost predicate EdgesOf(mem: Mem, ids: set<Id>, edges: seq<Edge>) {
    && Distinct(edges)
    && (forall e :: e in edges ==> e.id in mem.edges && mem.edges[e.id] == e && Touches(e, ids))
    && (forall e :: e in mem.edges && Touches(mem.edges[e], ids) ==> mem.edges[e] in edges)
  }

  /** The index lists an edge under a card exactly when the card is one of its endpoints. */
  lemma IndexLists(mem: Mem, c: Id, e: Id)
    requires Indexed(mem)
    ensures e in Get(mem.index, c) <==> e in mem.edges && (mem.edges[e].src == c || mem.edges[e].dst == c)
  {
    assert multiset(Get(mem.index, c))[e] == Ends(mem.edges, c, e);
    assert e in Get(mem.index, c) <==> e in multiset(Get(mem.index, c));
  }

  datatype QueryRequest = QueryRequest(cardId: Id, cardType: Text, scope: Text, status: StatusArg, asOf: Option<Time>)

  /** Whether a resolved card passes the filters of a query by type, scope and status. */
  predicate Passes(c: Card, req: QueryRequest) {
    && (req.cardType != [] ==> c.cardType == req.cardType)
    && (req.scope != [] ==> c.scope == req.scope)
    && !req.status.Unsupported?
    && (req.status.Known? ==> c.status == req.status.status)
  }

  /** The ids that answer a query. */
  function Answers(mem: Mem, req: QueryRequest): set<Id> {
    if req.cardId != [] then
      if ResolveAsOf(Get(mem.cards, req.cardId), req.asOf).Some? then {req.cardId} else {}
    else
      set id | id in mem.cards && ResolveAsOf(mem.cards[id], req.asOf).Some? &&
               Passes(ResolveAsOf(mem.cards[id], req.asOf).value, req)
  }

  /** The cards of a response: for each answering id its resolved version, once, in some order. */
  ghost predicate CardsOf(mem: Mem, req: QueryRequest, cards: seq<Card>) {
    && (forall i :: 0 <= i < |cards| ==>
         cards[i].id in Answers(mem, req) && ResolveAsOf(Get(mem.cards, cards[i].id), req.asOf) == Some(cards[i]))
    && (forall i, j :: 0 <= i < j < |cards| ==> cards[i].id != cards[j].id)
    && (forall id :: id in Answers(mem, req) ==> exists i :: 0 <= i < |cards| && cards[i].id == id)
  }

  /** The version of a card that holds at the instant asked for, or now. */
  ghost predicate Holds(mem: Mem, id: Id, asOf: Option<Time>, c: Card) {
    id in mem.cards && ResolveAsOf(mem.cards[id], asOf) == Some(c)
  }

  /** A card asked for by id is found whatever it is; others need the type, scope and status asked for, if any is. */
  lemma AnswersAre(mem: Mem, req: QueryRequest, id: Id)
    requires WellFormed(mem)
    ensures req.cardId != [] ==>
              (id in Answers(mem, req) <==> id == req.cardId && exists c :: Holds(mem, id, req.asOf, c))
    ensures req.cardId == [] && req.status == Unsupported ==> id !in Answers(mem, req)
    ensures req.cardId == [] && req.status != Unsupported ==>
              (id in Answers(mem, req) <==>
               exists c :: Holds(mem, id, req.asOf, c) && req.cardType in [[], c.cardType] &&
                           req.scope in [[], c.scope] && req.status in [Unset, Known(c.status)])
  {
    if id in mem.cards && ResolveAsOf(mem.cards[id], req.asOf).Some? {
      var c := ResolveAsOf(mem.cards[id], req.asOf).value;
      assert Holds(mem, id, req.asOf, c);
    }
  }
}
