/** What every operation of the memory store keeps true of its maps. */
module MemoryInvariant {
  import opened Prelude
  import opened Strings
  import opened MemoryModel

  /** Versions 1..n of one card, each naming the one before it. */
  predicate Chain(id: Id, versions: seq<Card>) {
    && versions != []
    && forall i :: 0 <= i < |versions| ==> Follows(id, versions, i)
  }

  predicate Follows(id: Id, versions: seq<Card>, i: nat)
    requires i < |versions|
  {
    && versions[i].id == id
    && versions[i].version == i + 1
    && versions[i].prev == (if i == 0 then [] else VersionRef(id, i))
    && versions[i].createdAt == versions[0].createdAt
    && versions[i].cardType == versions[0].cardType
    && 0.0 <= versions[i].activation.score <= 1.0
  }

  /** The back link of a version names exactly the version before it. */
  lemma BackLinkNamesPredecessor(id: Id, versions: seq<Card>, i: nat, j: nat)
    requires Chain(id, versions) && i < |versions| && j < |versions|
    ensures versions[i].prev == VersionRef(versions[j].id, versions[j].version) <==> i == j + 1
  {
    assert Follows(id, versions, i) && Follows(id, versions, j);
    var own := VersionRef(id, j + 1);
    if i > 0 && versions[i].prev == own {
      VersionRefsDiffer(id, i, j + 1);
    }
  }

  lemma VersionRefsDiffer(id: Id, m: nat, n: nat)
    requires VersionRef(id, m) == VersionRef(id, n)
    ensures m == n
  {
    var tag: Text := id + "#v";
    assert VersionRef(id, m)[|tag|..] == Decimal(m) && VersionRef(id, n)[|tag|..] == Decimal(n);
    DecimalInjective(m, n);
  }

  /** How many of the two endpoints of edge `e` are card `c`. */
  function Ends(edges: map<Id, Edge>, c: Id, e: Id): nat {
    if e in edges then (if edges[e].src == c then 1 else 0) + (if edges[e].dst == c then 1 else 0) else 0
  }

  /** The index lists, under each card, each edge once for each endpoint it has there, and nothing else. */
  ghost predicate Indexed(mem: Mem) {
    && (forall c, e :: multiset(Get(mem.index, c))[e] == Ends(mem.edges, c, e))
    && (forall c :: c in mem.index ==> mem.index[c] != [])
  }

  ghost predicate WellFormed(mem: Mem) {
    && (forall id :: id in mem.cards ==> id != [] && Chain(id, mem.cards[id]))
    && (forall e :: e in mem.edges ==> e != [] && mem.edges[e].id == e)
    && Indexed(mem)
  }

  /** Every edge has both its cards. */
  predicate Linked(mem: Mem) {
    forall e :: e in mem.edges ==> mem.edges[e].src in mem.cards && mem.edges[e].dst in mem.cards
  }

  /** A write that an operation may perform. */
  predicate Legal(mem: Mem, w: Write) {
    match w
    case PutCard(event, c) =>
      var versions := Get(mem.cards, c.id) + [c];
      event in CARD_EVENTS && c.id != [] && Follows(c.id, versions, |versions| - 1)
    case PutEdge(e) => e.id != [] && e.id !in mem.edges && e.src in mem.cards && e.dst in mem.cards
  }

  ghost predicate LegalAll(world: World, ws: seq<Write>) {
    ws != [] ==> LegalAll(world, ws[..|ws| - 1]) && Legal(ApplyAll(world, ws[..|ws| - 1]).mem, Last(ws))
  }

  /** A chain stays one when a version that follows is appended. */
  lemma ChainGrows(id: Id, versions: seq<Card>, c: Card)
    requires versions == [] || Chain(id, versions)
    requires Follows(id, versions + [c], |versions|)
    ensures Chain(id, versions + [c])
  {
    forall i | 0 <= i < |versions|
      ensures Follows(id, versions + [c], i)
    {
      assert Follows(id, versions, i);
    }
  }

  lemma AddCardKeepsWellFormed(mem: Mem, event: Text, c: Card)
    requires WellFormed(mem) && Legal(mem, PutCard(event, c))
    ensures WellFormed(AddCard(mem, c))
  {
    ChainGrows(c.id, Get(mem.cards, c.id), c);
    assert AddCard(mem, c).index == mem.index && AddCard(mem, c).edges == mem.edges;
    assert Indexed(AddCard(mem, c));
  }

  lemma IndexAddCounts(index: map<Id, seq<Id>>, card: Id, edge: Id, c: Id, e: Id)
    ensures multiset(Get(IndexAdd(index, card, edge), c))[e] ==
            multiset(Get(index, c))[e] + (if c == card && e == edge then 1 else 0)
  {
    assert multiset(Get(index, card) + [edge]) == multiset(Get(index, card)) + multiset{edge};
  }

  lemma AddEdgeKeepsIndexed(mem: Mem, edge: Edge)
    requires Indexed(mem) && edge.id !in mem.edges
    ensures Indexed(AddEdge(mem, edge))
  {
    var after := AddEdge(mem, edge);
    forall c, e
      ensures multiset(Get(after.index, c))[e] == Ends(after.edges, c, e)
    {
      var half := IndexAdd(mem.index, edge.src, edge.id);
      IndexAddCounts(mem.index, edge.src, edge.id, c, e);
      IndexAddCounts(half, edge.dst, edge.id, c, e);
      assert multiset(Get(mem.index, c))[e] == Ends(mem.edges, c, e);
    }
  }

  lemma RememberKeepsWellFormed(mem: Mem, w: Write)
    requires WellFormed(mem) && Legal(mem, w)
    ensures WellFormed(Remember(mem, w))
  {
    match w
    case PutCard(event, c) => AddCardKeepsWellFormed(mem, event, c);
    case PutEdge(e) => AddEdgeKeepsIndexed(mem, e);
  }

  lemma {:induction false} ApplyAllKeepsWellFormed(world: World, ws: seq<Write>)
    requires WellFormed(world.mem) && LegalAll(world, ws)
    ensures WellFormed(ApplyAll(world, ws).mem)
    decreases |ws|
  {
    if ws != [] {
      ApplyAllKeepsWellFormed(world, ws[..|ws| - 1]);
      RememberKeepsWellFormed(ApplyAll(world, ws[..|ws| - 1]).mem, Last(ws));
    }
  }

  // ----- The writes of every operation are legal -----

  lemma SuccessorIsLegal(mem: Mem, event: Text, id: Id, c: Card)
    requires WellFormed(mem) && event in CARD_EVENTS && id in mem.cards
    requires var latest := Last(mem.cards[id]);
             c.id == id && c.version == latest.version + 1 && c.prev == VersionRef(id, latest.version) &&
             c.createdAt == latest.createdAt && c.cardType == latest.cardType && 0.0 <= c.activation.score <= 1.0
    ensures Legal(mem, PutCard(event, c))
  {
    var versions := mem.cards[id];
    assert Follows(id, versions, |versions| - 1);
  }

  lemma UpdateIsLegal(mem: Mem, id: Id, req: UpdateCardRequest, now: Time)
    requires WellFormed(mem) && UpdateCard(mem, id, req, now).Ok?
    ensures Legal(mem, PutCard("card_updated", UpdateCard(mem, id, req, now).value))
  {
    var versions := mem.cards[id];
    assert Follows(id, versions, |versions| - 1);
    SuccessorIsLegal(mem, "card_updated", id, Updated(Last(versions), req, now));
  }

  lemma TouchIsLegal(mem: Mem, id: Id, da: real, dc: real, now: Time)
    requires WellFormed(mem) && TouchCard(mem, id, da, dc, now).Ok?
    ensures Legal(mem, PutCard("card_touched", TouchCard(mem, id, da, dc, now).value))
  {
    var versions := mem.cards[id];
    assert Follows(id, versions, |versions| - 1);
    SuccessorIsLegal(mem, "card_touched", id, Touched(Last(versions), da, dc, now));
  }

  /** The store when a decay pass has met the given cards. */
  function Partly(mem: Mem, g: Governance, met: set<Id>): Mem {
    mem.(cards := map id | id in mem.cards :: if id in met then AfterPass(mem.cards[id], g) else mem.cards[id])
  }

  lemma SnocWrites(world: World, ws: seq<Write>, w: Write)
    ensures ApplyAll(world, ws + [w]) == Apply(ApplyAll(world, ws), w)
    ensures LegalAll(world, ws + [w]) <==> LegalAll(world, ws) && Legal(ApplyAll(world, ws).mem, w)
  {
    assert (ws + [w])[..|ws + [w]| - 1] == ws;
  }

  lemma DecayVisit(start: Mem, mem: Mem, g: Governance, met: set<Id>, id: Id)
    requires WellFormed(start) && WellFormed(mem) && mem == Partly(start, g, met)
    requires id in start.cards && id !in met
    ensures DecayWrite(start, g, id) == [] ==> Partly(start, g, met + {id}) == mem
    ensures forall w :: DecayWrite(start, g, id) == [w] ==>
              Legal(mem, w) && Remember(mem, w) == Partly(start, g, met + {id})
  {
    assert Follows(id, start.cards[id], |start.cards[id]| - 1);
    PartlyStep(start, g, met, id);
    if Decayed(Last(start.cards[id]), g).Some? {
      DecayIsLegal(mem, g, id);
    }
  }

  lemma DecayIsLegal(mem: Mem, g: Governance, id: Id)
    requires WellFormed(mem) && id in mem.cards && Decayed(Last(mem.cards[id]), g).Some?
    ensures Legal(mem, PutCard("decay_applied", Decayed(Last(mem.cards[id]), g).value))
  {
    var versions := mem.cards[id];
    assert Follows(id, versions, |versions| - 1);
    SuccessorIsLegal(mem, "decay_applied", id, Decayed(Last(versions), g).value);
  }

  lemma PartlyStep(start: Mem, g: Governance, met: set<Id>, id: Id)
    requires id in start.cards && id !in met && start.cards[id] != []
    requires forall c :: Decayed(Last(start.cards[id]), g) == Some(c) ==> c.id == id
    ensures Partly(start, g, met + {id}) ==
            match Decayed(Last(start.cards[id]), g)
            case None => Partly(start, g, met)
            case Some(c) => AddCard(Partly(start, g, met), c)
  {
    var more := Partly(start, g, met + {id}).cards;
    match Decayed(Last(start.cards[id]), g)
    case None =>
      assert more == Partly(start, g, met).cards;
    case Some(c) =>
      assert more == AddCard(Partly(start, g, met), c).cards;
  }

  /** A decay pass performs legal writes and leaves the store `Partly` describes, whatever the order. */
  lemma {:induction false} DecayWritesAreLegal(world: World, g: Governance, order: seq<Id>)
    requires WellFormed(world.mem) && Distinct(order) && Elements(order) <= world.mem.cards.Keys
    ensures LegalAll(world, DecayWrites(world.mem, g, order))
    ensures ApplyAll(world, DecayWrites(world.mem, g, order)).mem == Partly(world.mem, g, Elements(order))
    decreases |order|
  {
    if order == [] {
      assert Partly(world.mem, g, {}).cards == world.mem.cards;
    } else {
      var init, id := order[..|order| - 1], Last(order);
      assert order == init + [id] && id in Elements(order);
      assert Elements(order) == Elements(init) + {id};
      DecayWritesAreLegal(world, g, init);
      var ws, step := DecayWrites(world.mem, g, init), DecayWrite(world.mem, g, id);
      ApplyAllKeepsWellFormed(world, ws);
      DecayVisit(world.mem, ApplyAll(world, ws).mem, g, Elements(init), id);
      if step == [] {
        assert ws + step == ws;
      } else {
        assert step == [step[0]];
        SnocWrites(world, ws, step[0]);
      }
    }
  }

  lemma OneWrite(world: World, w: Write)
    ensures ApplyAll(world, [w]) == Apply(world, w)
    ensures LegalAll(world, [w]) <==> Legal(world.mem, w)
  {
    assert [w][..0] == [];
  }

  /** Every operation, on every well-formed store, performs only legal writes. */
  lemma WritesAreLegal(world: World, op: Op)
    requires WellFormed(world.mem) && Enabled(world.mem, op)
    ensures LegalAll(world, Writes(world.mem, op))
  {
    var mem := world.mem;
    match op
    case Create(req, now) =>
      if CreateCard(mem, req, now).Ok? {
        OneWrite(world, PutCard("card_created", CreateCard(mem, req, now).value));
      }
    case Update(id, req, now) =>
      if UpdateCard(mem, id, req, now).Ok? {
        UpdateIsLegal(mem, id, req, now);
        OneWrite(world, PutCard("card_updated", UpdateCard(mem, id, req, now).value));
      }
    case Touch(id, da, dc, now) =>
      if TouchCard(mem, id, da, dc, now).Ok? {
        TouchIsLegal(mem, id, da, dc, now);
        OneWrite(world, PutCard("card_touched", TouchCard(mem, id, da, dc, now).value));
      }
    case Link(req, now) =>
      if CreateEdge(mem, req, now).Ok? {
        OneWrite(world, PutEdge(CreateEdge(mem, req, now).value));
      }
    case Decay(g, order) => DecayWritesAreLegal(world, g, order);
  }

  lemma StepKeepsWellFormed(world: World, op: Op)
    requires WellFormed(world.mem) && Enabled(world.mem, op)
    ensures WellFormed(Step(world, op).mem)
  {
    WritesAreLegal(world, op);
    ApplyAllKeepsWellFormed(world, Writes(world.mem, op));
  }

  lemma {:induction false} RunKeepsWellFormed(world: World, ops: seq<Op>)
    requires WellFormed(world.mem) && EnabledAll(world, ops)
    ensures WellFormed(RunAll(world, ops).mem)
    decreases |ops|
  {
    if ops != [] {
      RunKeepsWellFormed(world, ops[..|ops| - 1]);
      StepKeepsWellFormed(RunAll(world, ops[..|ops| - 1]), Last(ops));
    }
  }

  /** No operation takes a card away or adds an edge without its cards. */
  lemma StepKeepsLinked(world: World, op: Op)
    requires WellFormed(world.mem) && Enabled(world.mem, op) && Linked(world.mem)
    ensures Linked(Step(world, op).mem)
  {
    WritesAreLegal(world, op);
    ApplyAllKeepsLinked(world, Writes(world.mem, op));
  }

  lemma {:induction false} ApplyAllKeepsLinked(world: World, ws: seq<Write>)
    requires Linked(world.mem) && LegalAll(world, ws)
    ensures Linked(ApplyAll(world, ws).mem)
    decreases |ws|
  {
    if ws != [] {
      ApplyAllKeepsLinked(world, ws[..|ws| - 1]);
    }
  }

  // ----- The index of two stores with the same edges -----

  /** Any two well-formed stores with the same edges have the same index, up to the order of its lists. */
  lemma IndexIsDeterminedByEdges(a: Mem, b: Mem)
    requires Indexed(a) && Indexed(b) && a.edges == b.edges
    ensures a.index.Keys == b.index.Keys
    ensures forall c :: c in a.index ==> multiset(a.index[c]) == multiset(b.index[c])
  {
    forall c
      ensures multiset(Get(a.index, c)) == multiset(Get(b.index, c))
    {
      forall e
        ensures multiset(Get(a.index, c))[e] == multiset(Get(b.index, c))[e]
      {
        assert multiset(Get(a.index, c))[e] == Ends(a.edges, c, e);
        assert multiset(Get(b.index, c))[e] == Ends(b.edges, c, e);
      }
    }
    forall c
      ensures c in a.index <==> c in b.index
    {
      assert multiset(Get(a.index, c)) == multiset(Get(b.index, c));
      if c in a.index {
        assert a.index[c][0] in multiset(a.index[c]);
      }
      if c in b.index {
        assert b.index[c][0] in multiset(b.index[c]);
      }
    }
    forall c | c in a.index
      ensures multiset(a.index[c]) == multiset(b.index[c])
    {
      assert multiset(Get(a.index, c)) == multiset(Get(b.index, c));
    }
  }
}
