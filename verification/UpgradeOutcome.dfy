/** What an upgrade leaves behind: facts made from their events, an edge from each, and nothing else. */
module UpgradeOutcome {
  import opened Prelude
  import opened Strings
  import opened Topics
  import opened MemoryModel
  import opened MemoryInvariant
  import opened MemoryQuery
  import opened Consolidation
  import opened Upgrade

  // ----- Edges of one topic -----

  function LinkId(event: Id, fact: Id): Id {
    "edge:evidence:" + event + "->" + fact
  }

  /** The edge says that the event is evidence for the fact. */
  predicate IsEvidence(e: Edge, event: Card, fact: Id, now: Time) {
    && e.id == LinkId(event.id, fact) && e.src == event.id && e.dst == fact && e.edgeType == "evidence"
    && e.weight == 1.0 && e.confidence == event.provenance.confidence
    && e.validFrom == None && e.validTo == None && e.evidence == [] && e.createdAt == now
  }

  /** The event has its edge to the fact, which is new if its id was free. */
  predicate HasLink(before: map<Id, Edge>, after: map<Id, Edge>, event: Card, fact: Id, now: Time) {
    var id := LinkId(event.id, fact);
    id in after && (id !in before ==> IsEvidence(after[id], event, fact, now))
  }

  predicate Kept(before: map<Id, Edge>, after: map<Id, Edge>) {
    forall id :: id in before ==> id in after && after[id] == before[id]
  }

  predicate IsLinkTo(id: Id, cs: seq<Card>, fact: Id) {
    exists i :: 0 <= i < |cs| && id == LinkId(cs[i].id, fact)
  }

  /** Each of the events is linked to the fact, and no other edge is added. */
  predicate Links(before: map<Id, Edge>, after: map<Id, Edge>, cs: seq<Card>, fact: Id, now: Time) {
    && Kept(before, after)
    && (forall c :: c in cs ==> HasLink(before, after, c, fact, now))
    && (forall id :: id in after && id !in before ==> IsLinkTo(id, cs, fact))
  }

  lemma LinkIdsDiffer(a: Id, b: Id, fact: Id)
    requires LinkId(a, fact) == LinkId(b, fact)
    ensures a == b
  {
    var prefix: Text := "edge:evidence:";
    var rest: Text := "->" + fact;
    assert LinkId(a, fact) == prefix + a + rest && LinkId(b, fact) == prefix + b + rest;
    assert a == (prefix + a + rest)[|prefix|..|prefix| + |a|];
    assert b == (prefix + b + rest)[|prefix|..|prefix| + |b|];
  }

  lemma LinkOne(p: Plan, world: World, topic: Text, c: Card)
    requires c.id in world.mem.cards && c.id != [] && FactId(p, topic) in world.mem.cards
    ensures var before, after := world.mem.edges, Step(world, Link(EvidenceEdge(p, topic, c), p.now)).mem.edges;
            var id := LinkId(c.id, FactId(p, topic));
            && Kept(before, after) && after.Keys == before.Keys + {id}
            && HasLink(before, after, c, FactId(p, topic), p.now)
  {
    var req := EvidenceEdge(p, topic, c);
    if CreateEdge(world.mem, req, p.now).Ok? {
      OneWrite(world, PutEdge(CreateEdge(world.mem, req, p.now).value));
    }
  }

  lemma LinksGrow(before: map<Id, Edge>, mid: map<Id, Edge>, after: map<Id, Edge>, cs: seq<Card>, c: Card, fact: Id,
    now: Time)
    requires Links(before, mid, cs, fact, now) && forall i :: 0 <= i < |cs| ==> cs[i].id != c.id
    requires Kept(mid, after) && after.Keys == mid.Keys + {LinkId(c.id, fact)} && HasLink(mid, after, c, fact, now)
    ensures Links(before, after, cs + [c], fact, now)
  {
    var all := cs + [c];
    assert all[|cs|] == c;
    forall id | id in after && id !in before
      ensures IsLinkTo(id, all, fact)
    {
      if id in mid {
        var i :| 0 <= i < |cs| && id == LinkId(cs[i].id, fact);
        assert all[i] == cs[i];
      }
    }
    if LinkId(c.id, fact) in mid && LinkId(c.id, fact) !in before {
      var i :| 0 <= i < |cs| && LinkId(c.id, fact) == LinkId(cs[i].id, fact);
      LinkIdsDiffer(c.id, cs[i].id, fact);
    }
  }

  lemma LinkInit(p: Plan, world: World, topic: Text, cs: seq<Card>)
    requires WellFormed(world.mem) && Stored(world.mem, cs) && DistinctIds(cs) && cs != []
    ensures var init, last := cs[..|cs| - 1], Last(cs);
            var before := RunAll(world, LinkOps(p, topic, init));
            && Stored(world.mem, init) && DistinctIds(init) && cs == init + [last]
            && before.mem.cards == world.mem.cards && last.id in world.mem.cards && last.id != []
            && (forall i :: 0 <= i < |init| ==> init[i].id != last.id)
            && RunAll(world, LinkOps(p, topic, cs)) == Step(before, Link(EvidenceEdge(p, topic, last), p.now))
  {
    var init := cs[..|cs| - 1];
    LinkingKeepsCards(p, world, topic, init);
    RunSnoc(world, LinkOps(p, topic, init), Link(EvidenceEdge(p, topic, Last(cs)), p.now));
    assert Last(cs) in cs;
  }

  lemma {:induction false} LinkingLinks(p: Plan, world: World, topic: Text, cs: seq<Card>)
    requires WellFormed(world.mem) && Stored(world.mem, cs) && DistinctIds(cs) && FactId(p, topic) in world.mem.cards
    ensures Links(world.mem.edges, RunAll(world, LinkOps(p, topic, cs)).mem.edges, cs, FactId(p, topic), p.now)
    decreases |cs|
  {
    if cs != [] {
      var init := cs[..|cs| - 1];
      LinkInit(p, world, topic, cs);
      LinkingLinks(p, world, topic, init);
      LinkOneMore(p, world.mem.edges, RunAll(world, LinkOps(p, topic, init)), topic, init, Last(cs));
    }
  }

  lemma LinkOneMore(p: Plan, start: map<Id, Edge>, before: World, topic: Text, cs: seq<Card>, c: Card)
    requires Links(start, before.mem.edges, cs, FactId(p, topic), p.now)
    requires c.id in before.mem.cards && c.id != [] && FactId(p, topic) in before.mem.cards
    requires forall i :: 0 <= i < |cs| ==> cs[i].id != c.id
    ensures Links(start, Step(before, Link(EvidenceEdge(p, topic, c), p.now)).mem.edges, cs + [c], FactId(p, topic),
                  p.now)
  {
    LinkOne(p, before, topic, c);
    LinksGrow(start, before.mem.edges, Step(before, Link(EvidenceEdge(p, topic, c), p.now)).mem.edges, cs, c,
      FactId(p, topic), p.now);
  }

  lemma ArchivingKeepsEdges(p: Plan, world: World, cluster: seq<Card>)
    requires WellFormed(world.mem) && Stored(world.mem, cluster)
    ensures RunAll(world, SourceOps(p, cluster)).mem.edges == world.mem.edges
  {
    if p.archive {
      ArchiveOpsAre(cluster, p.now);
      forall op | op in SourceOps(p, cluster)
        ensures SetsStatus(world.mem, op)
      {
        var i :| 0 <= i < |cluster| && op == Update(cluster[i].id, StatusOnly(Archived), p.now);
        assert cluster[i] in cluster;
      }
      UpdatesSettle(world, SourceOps(p, cluster), []);
    }
  }

  /** What one topic does to the edges. */
  lemma TopicLinks(p: Plan, world: World, topic: Text, cluster: seq<Card>)
    requires WellFormed(world.mem) && Stored(world.mem, cluster) && DistinctIds(cluster)
    ensures var after := RunAll(world, TopicOps(p, world.mem, topic, cluster)).mem;
            if Creates(p, world.mem, topic, cluster) then
              Links(world.mem.edges, after.edges, cluster, FactId(p, topic), p.now)
            else after == world.mem
  {
    if Creates(p, world.mem, topic, cluster) {
      CreatingAddsTheFact(p, world, topic, cluster);
      CreatingKeepsEdges(p, world, topic, cluster);
      TopicOpsInTurn(p, world, topic, cluster);
      var w1 := Step(world, Create(FactRequest(p, topic, cluster), p.now));
      LinkingLinks(p, w1, topic, cluster);
      LinkingKeepsCards(p, w1, topic, cluster);
      ArchivingKeepsEdges(p, RunAll(w1, LinkOps(p, topic, cluster)), cluster);
    }
  }

  lemma CreatingKeepsEdges(p: Plan, world: World, topic: Text, cluster: seq<Card>)
    requires Creates(p, world.mem, topic, cluster)
    ensures Step(world, Create(FactRequest(p, topic, cluster), p.now)).mem.edges == world.mem.edges
  {
    OneWrite(world, PutCard("card_created", FactCard(p, topic, cluster)));
  }

  // ----- All topics -----

  /** The fact of a topic is new. */
  ghost predicate Made(p: Plan, start: Mem, cs: seq<Card>, mem: Mem, t: Text) {
    var f := FactId(p, t);
    f in mem.cards && f !in start.cards && mem.cards[f] == [FactCard(p, t, ClusterOf(cs, t))]
  }

  predicate Has(cs: seq<Card>, id: Id) {
    exists i :: 0 <= i < |cs| && cs[i].id == id
  }

  /** The event has its edge to the fact and, if the request says so, is archived. */
  ghost predicate Served(p: Plan, start: Mem, mem: Mem, event: Card, fact: Id) {
    && HasLink(start.edges, mem.edges, event, fact, p.now)
    && (p.archive ==> Get(mem.cards, event.id) != [] && Last(mem.cards[event.id]).status == Archived)
  }

  ghost predicate FactDone(p: Plan, start: Mem, cs: seq<Card>, mem: Mem, fact: Id) {
    exists t :: fact == FactId(p, t) && Made(p, start, cs, mem, t) &&
                forall c :: c in ClusterOf(cs, t) ==> Served(p, start, mem, c, fact)
  }

  ghost predicate EdgeDone(p: Plan, start: Mem, cs: seq<Card>, mem: Mem, id: Id) {
    exists t :: Made(p, start, cs, mem, t) && IsLinkTo(id, ClusterOf(cs, t), FactId(p, t))
  }

  ghost predicate CardDone(p: Plan, start: Mem, cs: seq<Card>, mem: Mem, id: Id)
    requires id in start.cards
  {
    && id in mem.cards
    && (mem.cards[id] == start.cards[id] ||
        (p.archive && exists t :: Made(p, start, cs, mem, t) && Has(ClusterOf(cs, t), id)))
  }

  ghost predicate Done(p: Plan, start: Mem, cs: seq<Card>, mem: Mem) {
    && WellFormed(mem) && Kept(start.edges, mem.edges)
    && (forall id :: id in start.cards ==> CardDone(p, start, cs, mem, id))
    && (forall f :: f in mem.cards && f !in start.cards ==> FactDone(p, start, cs, mem, f))
    && (forall id :: id in mem.edges && id !in start.edges ==> EdgeDone(p, start, cs, mem, id))
  }

  /** One topic is done on top of what was done before. */
  ghost predicate Turn(p: Plan, start: Mem, cs: seq<Card>, mem: Mem, t: Text, after: Mem) {
    var cluster := ClusterOf(cs, t);
    && Done(p, start, cs, mem) && TopicChange(p, mem, t, cluster, after) && Creates(p, mem, t, cluster)
    && Links(mem.edges, after.edges, cluster, FactId(p, t), p.now)
    && FactId(p, t) !in start.cards
    && forall c :: c in cs ==> c.id in start.cards
  }

  lemma TurnKeepsMade(p: Plan, start: Mem, cs: seq<Card>, mem: Mem, t: Text, after: Mem, u: Text)
    requires Turn(p, start, cs, mem, t, after) && Made(p, start, cs, mem, u)
    ensures Made(p, start, cs, after, u)
  {
    TurnChanges(p, start, cs, mem, t, after, FactId(p, u));
    NoNewSources(p, start, cs, mem, t, after, FactId(p, u));
  }

  /** A card that was stored before a turn is the same after it, unless it is a source that is archived. */
  lemma TurnChanges(p: Plan, start: Mem, cs: seq<Card>, mem: Mem, t: Text, after: Mem, id: Id)
    requires Turn(p, start, cs, mem, t, after) && id in mem.cards
    ensures id in after.cards && after.cards[id] != []
    ensures if p.archive && Has(ClusterOf(cs, t), id) then Last(after.cards[id]).status == Archived
            else after.cards[id] == mem.cards[id]
  {
    assert SourceOrSame(p, mem, ClusterOf(cs, t), after, id);
    assert Chain(id, after.cards[id]);
  }

  lemma NoNewSources(p: Plan, start: Mem, cs: seq<Card>, mem: Mem, t: Text, after: Mem, id: Id)
    requires Turn(p, start, cs, mem, t, after) && id !in start.cards
    ensures !Has(ClusterOf(cs, t), id)
  {
    ClusterMembers(cs, t);
    assert forall i :: 0 <= i < |ClusterOf(cs, t)| ==> ClusterOf(cs, t)[i] in ClusterOf(cs, t);
  }

  lemma TurnMakes(p: Plan, start: Mem, cs: seq<Card>, mem: Mem, t: Text, after: Mem)
    requires Turn(p, start, cs, mem, t, after)
    ensures Made(p, start, cs, after, t) && FactId(p, t) !in mem.cards
  {
  }

  lemma TurnKeepsServed(p: Plan, start: Mem, cs: seq<Card>, mem: Mem, t: Text, after: Mem, c: Card, fact: Id)
    requires Turn(p, start, cs, mem, t, after) && Served(p, start, mem, c, fact)
    ensures Served(p, start, after, c, fact)
  {
    LinkStays(start.edges, mem.edges, after.edges, c, fact, p.now);
    if p.archive {
      TurnChanges(p, start, cs, mem, t, after, c.id);
    }
  }

  lemma LinkStays(before: map<Id, Edge>, mid: map<Id, Edge>, after: map<Id, Edge>, event: Card, fact: Id, now: Time)
    requires HasLink(before, mid, event, fact, now) && Kept(mid, after)
    ensures HasLink(before, after, event, fact, now)
  {
  }

  /** Digests have one length, so an edge id tells which fact the edge is for. */
  lemma LinkIdsTellFacts(p: Plan, a: Id, t: Text, b: Id, u: Text)
    requires LinkId(a, FactId(p, t)) == LinkId(b, FactId(p, u))
    ensures FactId(p, t) == FactId(p, u)
  {
    var x, y := LinkId(a, FactId(p, t)), LinkId(b, FactId(p, u));
    assert |FactId(p, t)| == |FactId(p, u)|;
    assert FactId(p, t) == x[|x| - |FactId(p, t)|..];
    assert FactId(p, u) == y[|y| - |FactId(p, u)|..];
  }

  /** No edge to a fact was added before the fact. */
  lemma LinkIsFree(p: Plan, start: Mem, cs: seq<Card>, mem: Mem, t: Text, after: Mem, event: Id)
    requires Turn(p, start, cs, mem, t, after) && LinkId(event, FactId(p, t)) in mem.edges
    ensures LinkId(event, FactId(p, t)) in start.edges
  {
    var id := LinkId(event, FactId(p, t));
    if id !in start.edges {
      assert EdgeDone(p, start, cs, mem, id);
      var u :| Made(p, start, cs, mem, u) && IsLinkTo(id, ClusterOf(cs, u), FactId(p, u));
      var i :| 0 <= i < |ClusterOf(cs, u)| && id == LinkId(ClusterOf(cs, u)[i].id, FactId(p, u));
      LinkIdsTellFacts(p, event, t, ClusterOf(cs, u)[i].id, u);
    }
  }

  lemma TurnServes(p: Plan, start: Mem, cs: seq<Card>, mem: Mem, t: Text, after: Mem, c: Card)
    requires Turn(p, start, cs, mem, t, after) && c in ClusterOf(cs, t)
    ensures Served(p, start, after, c, FactId(p, t))
  {
    TurnLinks(p, start, cs, mem, t, after, c);
    TurnArchives(p, start, cs, mem, t, after, c);
  }

  lemma TurnLinks(p: Plan, start: Mem, cs: seq<Card>, mem: Mem, t: Text, after: Mem, c: Card)
    requires Turn(p, start, cs, mem, t, after) && c in ClusterOf(cs, t)
    ensures HasLink(start.edges, after.edges, c, FactId(p, t), p.now)
  {
    if LinkId(c.id, FactId(p, t)) in mem.edges {
      LinkIsFree(p, start, cs, mem, t, after, c.id);
    }
  }

  lemma TurnArchives(p: Plan, start: Mem, cs: seq<Card>, mem: Mem, t: Text, after: Mem, c: Card)
    requires Turn(p, start, cs, mem, t, after) && c in ClusterOf(cs, t)
    ensures p.archive ==> Get(after.cards, c.id) != [] && Last(after.cards[c.id]).status == Archived
  {
    ClusterMembers(cs, t);
    assert CardDone(p, start, cs, mem, c.id);
    TurnChanges(p, start, cs, mem, t, after, c.id);
    var i :| 0 <= i < |ClusterOf(cs, t)| && ClusterOf(cs, t)[i] == c;
    assert Has(ClusterOf(cs, t), c.id);
  }

  lemma TurnDoesFact(p: Plan, start: Mem, cs: seq<Card>, mem: Mem, t: Text, after: Mem, f: Id)
    requires Turn(p, start, cs, mem, t, after) && f in after.cards && f !in start.cards
    ensures FactDone(p, start, cs, after, f)
  {
    if f in mem.cards {
      assert FactDone(p, start, cs, mem, f);
      var u :| f == FactId(p, u) && Made(p, start, cs, mem, u) &&
               forall c :: c in ClusterOf(cs, u) ==> Served(p, start, mem, c, f);
      TurnKeepsMade(p, start, cs, mem, t, after, u);
      forall c | c in ClusterOf(cs, u)
        ensures Served(p, start, after, c, f)
      {
        TurnKeepsServed(p, start, cs, mem, t, after, c, f);
      }
    } else {
      TurnMakes(p, start, cs, mem, t, after);
      forall c | c in ClusterOf(cs, t)
        ensures Served(p, start, after, c, f)
      {
        TurnServes(p, start, cs, mem, t, after, c);
      }
    }
  }

  lemma TurnDoesEdge(p: Plan, start: Mem, cs: seq<Card>, mem: Mem, t: Text, after: Mem, id: Id)
    requires Turn(p, start, cs, mem, t, after) && id in after.edges && id !in start.edges
    ensures EdgeDone(p, start, cs, after, id)
  {
    if id in mem.edges {
      assert EdgeDone(p, start, cs, mem, id);
      var u :| Made(p, start, cs, mem, u) && IsLinkTo(id, ClusterOf(cs, u), FactId(p, u));
      TurnKeepsMade(p, start, cs, mem, t, after, u);
    } else {
      TurnMakes(p, start, cs, mem, t, after);
    }
  }

  lemma TurnDoesCard(p: Plan, start: Mem, cs: seq<Card>, mem: Mem, t: Text, after: Mem, id: Id)
    requires Turn(p, start, cs, mem, t, after) && id in start.cards
    ensures CardDone(p, start, cs, after, id)
  {
    assert CardDone(p, start, cs, mem, id);
    TurnChanges(p, start, cs, mem, t, after, id);
    if mem.cards[id] != start.cards[id] {
      var u :| Made(p, start, cs, mem, u) && Has(ClusterOf(cs, u), id);
      TurnKeepsMade(p, start, cs, mem, t, after, u);
    } else {
      TurnMakes(p, start, cs, mem, t, after);
    }
  }

  lemma TurnIsDone(p: Plan, start: Mem, cs: seq<Card>, mem: Mem, t: Text, after: Mem)
    requires Turn(p, start, cs, mem, t, after)
    ensures Done(p, start, cs, after)
  {
    forall id | id in start.cards
      ensures CardDone(p, start, cs, after, id)
    {
      TurnDoesCard(p, start, cs, mem, t, after, id);
    }
    forall f | f in after.cards && f !in start.cards
      ensures FactDone(p, start, cs, after, f)
    {
      TurnDoesFact(p, start, cs, mem, t, after, f);
    }
    forall id | id in after.edges && id !in start.edges
      ensures EdgeDone(p, start, cs, after, id)
    {
      TurnDoesEdge(p, start, cs, mem, t, after, id);
    }
  }

  lemma OneMoreTopic(p: Plan, start: Mem, cs: seq<Card>, world: World, t: Text)
    requires WellFormed(start) && CardsOf(start, EventsQuery(p), cs) && p.scope != [] && Done(p, start, cs, world.mem)
    ensures Done(p, start, cs, RunAll(world, TopicOps(p, world.mem, t, ClusterOf(cs, t))).mem)
  {
    var cluster := ClusterOf(cs, t);
    var after := RunAll(world, TopicOps(p, world.mem, t, cluster)).mem;
    ClusterIsStored(p, start, cs, t);
    ClusterIsDistinct(cs, t);
    forall c | c in cs
      ensures c.id in start.cards
    {
      EventIsLatest(start, p, cs, c);
    }
    forall id | id in start.cards
      ensures id in world.mem.cards
    {
      assert CardDone(p, start, cs, world.mem, id);
    }
    TopicChanges(p, world, t, cluster);
    TopicLinks(p, world, t, cluster);
    if Creates(p, world.mem, t, cluster) {
      assert FactId(p, t) !in world.mem.cards;
      TurnIsDone(p, start, cs, world.mem, t, after);
    }
  }

  lemma {:induction false} UpgradeIsDone(p: Plan, world: World, cs: seq<Card>, order: seq<Text>)
    requires WellFormed(world.mem) && CardsOf(world.mem, EventsQuery(p), cs) && p.scope != []
    ensures Done(p, world.mem, cs, UpgradeTopics(p, world, cs, order).mem)
    decreases |order|
  {
    if order != [] {
      UpgradeIsDone(p, world, cs, order[..|order| - 1]);
      OneMoreTopic(p, world.mem, cs, UpgradeTopics(p, world, cs, order[..|order| - 1]), Last(order));
    }
  }

  // ----- What a reader of the store sees -----

  /** A card that the upgrade added, which cites `id` as the event at position `i` of its evidence. */
  ghost predicate NewCites(before: Mem, after: Mem, fact: Id, i: nat, id: Id) {
    && fact in after.cards && fact !in before.cards && after.cards[fact] != []
    && i < |Last(after.cards[fact]).evidence| && Last(after.cards[fact]).evidence[i].cardId == id
  }

  ghost predicate Cited(before: Mem, after: Mem, id: Id) {
    exists fact, i :: NewCites(before, after, fact, i, id)
  }

  /**
   An event that a new fact cites has its edge to the fact: if the id of the edge was free, the edge goes from the event
   to the fact, with the confidence of the event. It is archived if the request says so.
   */
  ghost predicate EventServed(before: Mem, after: Mem, fact: Id, event: Id, archive: bool, now: Time) {
    && Get(before.cards, event) != [] && Get(after.cards, event) != []
    && HasLink(before.edges, after.edges, Last(before.cards[event]), fact, now)
    && Last(before.cards[event]).status == Active && Last(before.cards[event]).id == event
    && (if archive then Last(after.cards[event]).status == Archived else after.cards[event] == before.cards[event])
  }

  /** Edges are added between new facts and the events they cite, and only cited events change. */
  ghost predicate EvidenceLinked(before: Mem, after: Mem, archive: bool, now: Time) {
    && Kept(before.edges, after.edges)
    && (forall fact, i, event :: NewCites(before, after, fact, i, event) ==>
         EventServed(before, after, fact, event, archive, now))
    && (forall id :: id in after.edges && id !in before.edges ==>
         exists fact, i, event :: NewCites(before, after, fact, i, event) && id == LinkId(event, fact))
    && (forall id :: id in before.cards ==>
         id in after.cards && (after.cards[id] == before.cards[id] || Cited(before, after, id)))
  }

  lemma UpgradeLinksEvidence(p: Plan, world: World, cs: seq<Card>, order: seq<Text>)
    requires WellFormed(world.mem) && CardsOf(world.mem, EventsQuery(p), cs) && p.scope != []
    ensures EvidenceLinked(world.mem, UpgradeAll(p, world, cs, order).mem, p.archive, p.now)
  {
    var before, after := world.mem, UpgradeAll(p, world, cs, order).mem;
    UpgradeIsDone(p, world, cs, order);
    forall fact, i, event | NewCites(before, after, fact, i, event)
      ensures EventServed(before, after, fact, event, p.archive, p.now)
    {
      CitedIsServed(p, before, cs, after, fact, i, event);
    }
    forall id | id in after.edges && id !in before.edges
      ensures exists fact, i, event :: NewCites(before, after, fact, i, event) && id == LinkId(event, fact)
    {
      var fact, i, event := LinkIsCited(p, before, cs, after, id);
    }
    forall id | id in before.cards
      ensures id in after.cards && (after.cards[id] == before.cards[id] || Cited(before, after, id))
    {
      ChangedIsCited(p, before, cs, after, id);
    }
  }

  lemma MadeCites(p: Plan, before: Mem, cs: seq<Card>, after: Mem, t: Text, i: nat)
    requires Made(p, before, cs, after, t) && i < |ClusterOf(cs, t)|
    ensures NewCites(before, after, FactId(p, t), i, ClusterOf(cs, t)[i].id)
  {
  }

  lemma CitedIsServed(p: Plan, before: Mem, cs: seq<Card>, after: Mem, fact: Id, i: nat, event: Id)
    requires WellFormed(before) && CardsOf(before, EventsQuery(p), cs) && p.scope != []
    requires Done(p, before, cs, after) && NewCites(before, after, fact, i, event)
    ensures EventServed(before, after, fact, event, p.archive, p.now)
  {
    assert FactDone(p, before, cs, after, fact);
    var t :| fact == FactId(p, t) && Made(p, before, cs, after, t) &&
             forall c :: c in ClusterOf(cs, t) ==> Served(p, before, after, c, fact);
    var c := ClusterOf(cs, t)[i];
    assert c in ClusterOf(cs, t) && c.id == event;
    ClusterIsStored(p, before, cs, t);
    ServedEvent(p, before, cs, after, fact, c);
  }

  lemma ServedEvent(p: Plan, before: Mem, cs: seq<Card>, after: Mem, fact: Id, c: Card)
    requires WellFormed(before) && Done(p, before, cs, after) && Served(p, before, after, c, fact)
    requires c.id in before.cards && Last(before.cards[c.id]) == c && IsEvent(p, c)
    ensures EventServed(before, after, fact, c.id, p.archive, p.now)
  {
    assert CardDone(p, before, cs, after, c.id);
    assert Chain(c.id, before.cards[c.id]);
  }

  lemma LinkedAt(id: Id, cs: seq<Card>, fact: Id) returns (i: nat)
    requires IsLinkTo(id, cs, fact)
    ensures i < |cs| && id == LinkId(cs[i].id, fact)
  {
    i :| 0 <= i < |cs| && id == LinkId(cs[i].id, fact);
  }

  lemma LinkIsCited(p: Plan, before: Mem, cs: seq<Card>, after: Mem, id: Id) returns (fact: Id, i: nat, event: Id)
    requires Done(p, before, cs, after) && id in after.edges && id !in before.edges
    ensures NewCites(before, after, fact, i, event) && id == LinkId(event, fact)
  {
    assert EdgeDone(p, before, cs, after, id);
    var t :| Made(p, before, cs, after, t) && IsLinkTo(id, ClusterOf(cs, t), FactId(p, t));
    fact := FactId(p, t);
    i := LinkedAt(id, ClusterOf(cs, t), fact);
    event := ClusterOf(cs, t)[i].id;
    MadeCites(p, before, cs, after, t, i);
  }

  lemma ChangedIsCited(p: Plan, before: Mem, cs: seq<Card>, after: Mem, id: Id)
    requires Done(p, before, cs, after) && id in before.cards
    ensures id in after.cards && (after.cards[id] == before.cards[id] || Cited(before, after, id))
  {
    assert CardDone(p, before, cs, after, id);
    if after.cards[id] != before.cards[id] {
      var t :| Made(p, before, cs, after, t) && Has(ClusterOf(cs, t), id);
      var i :| 0 <= i < |ClusterOf(cs, t)| && ClusterOf(cs, t)[i].id == id;
      MadeCites(p, before, cs, after, t, i);
    }
  }

  // ----- What a fact says -----

  /** Entry number `i` is the first to satisfy `p`. */
  ghost predicate First<T>(xs: seq<T>, p: T -> bool, i: nat) {
    i < |xs| && p(xs[i]) && forall j :: 0 <= j < i ==> !p(xs[j])
  }

  ghost predicate NoneOf<T>(xs: seq<T>, p: T -> bool) {
    forall x :: x in xs ==> !p(x)
  }

  lemma FirstLater<T>(xs: seq<T>, p: T -> bool, i: nat)
    requires xs != [] && !p(xs[0]) && First(xs[1..], p, i)
    ensures First(xs, p, i + 1)
  {
    assert forall j :: 1 <= j < |xs| ==> xs[j] == xs[1..][j - 1];
  }

  lemma NoneLater<T>(xs: seq<T>, p: T -> bool)
    requires xs != [] && !p(xs[0]) && NoneOf(xs[1..], p)
    ensures NoneOf(xs, p)
  {
    assert xs == [xs[0]] + xs[1..];
  }

  predicate Says(c: Card, key: Text) {
    key in c.content && c.content[key].Str? && Trim(c.content[key].text) != []
  }

  predicate NamesTopic(c: Card, key: Text) {
    key in c.content && c.content[key].Str? && Normalize(c.content[key].text) != []
  }

  /** The first of the entries that has words, normalized. */
  ghost predicate IsTopicFrom(c: Card, keys: seq<Text>, t: Text) {
    || (t == [] && NoneOf(keys, key => NamesTopic(c, key)))
    || exists i: nat :: First(keys, key => NamesTopic(c, key), i) && t == Normalize(c.content[keys[i]].text)
  }

  /** The topic of an event. */
  ghost predicate IsTopic(c: Card, t: Text) {
    IsTopicFrom(c, ["topic", "subject", "summary", "query", "claim"], t)
  }

  /** The first of the entries that has a text, cut short, or else the id. */
  ghost predicate IsSnippetFrom(c: Card, keys: seq<Text>, s: Text) {
    || (s == c.id && NoneOf(keys, key => Says(c, key)))
    || exists i: nat :: First(keys, key => Says(c, key), i) && IsCut(s, c.content[keys[i]].text)
  }

  /** What a fact quotes of an event. */
  ghost predicate IsSnippet(c: Card, s: Text) {
    IsSnippetFrom(c, ["summary", "snippet", "body", "claim", "query"], s)
  }

  predicate IsCut(s: Text, text: Text) {
    if |text| <= 200 then s == text else |s| == 200 && s[..197] == text[..197] && s[197..] == "..."
  }

  /** What a fact says under a key is what the first event that says something there says. */
  ghost predicate IsText(cs: seq<Card>, key: Text, content: Content) {
    || (key !in content && NoneOf(cs, c => Says(c, key)))
    || exists i: nat ::
         First(cs, c => Says(c, key), i) && key in content && content[key] == Str(cs[i].content[key].text)
  }

  lemma {:induction false} FirstTopicAt(c: Card, keys: seq<Text>) returns (i: nat)
    ensures if FirstTopic(c.content, keys) == [] then NoneOf(keys, key => NamesTopic(c, key))
            else First(keys, key => NamesTopic(c, key), i) &&
                 FirstTopic(c.content, keys) == Normalize(c.content[keys[i]].text)
    decreases |keys|
  {
    i := 0;
    if keys != [] && !NamesTopic(c, keys[0]) {
      i := FirstTopicAt(c, keys[1..]);
      if FirstTopic(c.content, keys) == [] {
        NoneLater(keys, key => NamesTopic(c, key));
      } else {
        FirstLater(keys, key => NamesTopic(c, key), i);
        i := i + 1;
      }
    }
  }

  lemma TopicIsTopic(c: Card)
    ensures IsTopic(c, ExtractTopic(c))
  {
    var i := FirstTopicAt(c, TOPIC_KEYS);
    assert IsTopicFrom(c, TOPIC_KEYS, ExtractTopic(c));
  }

  lemma {:induction false} FirstTextAt(c: Card, keys: seq<Text>) returns (i: nat)
    ensures match FirstText(c.content, keys)
            case None => NoneOf(keys, key => Says(c, key))
            case Some(text) => First(keys, key => Says(c, key), i) && text == c.content[keys[i]].text
    decreases |keys|
  {
    i := 0;
    if keys != [] && !Says(c, keys[0]) {
      i := FirstTextAt(c, keys[1..]);
      if FirstText(c.content, keys) == None {
        NoneLater(keys, key => Says(c, key));
      } else {
        FirstLater(keys, key => Says(c, key), i);
        i := i + 1;
      }
    }
  }

  lemma SnippetIsSnippet(c: Card)
    ensures IsSnippet(c, ExtractSnippet(c))
  {
    var i := FirstTextAt(c, SNIPPET_KEYS);
    assert IsSnippetFrom(c, SNIPPET_KEYS, ExtractSnippet(c));
  }

  lemma {:induction false} FirstWithAt(cs: seq<Card>, key: Text) returns (i: nat)
    ensures match FirstWith(cs, key)
            case None => NoneOf(cs, c => Says(c, key))
            case Some(text) => First(cs, c => Says(c, key), i) && text == cs[i].content[key].text
    decreases |cs|
  {
    i := 0;
    if cs != [] && !Says(cs[0], key) {
      i := FirstWithAt(cs[1..], key);
      if FirstWith(cs, key) == None {
        NoneLater(cs, c => Says(c, key));
      } else {
        FirstLater(cs, c => Says(c, key), i);
        i := i + 1;
      }
    }
  }

  lemma {:induction false} WithTextsAt(content: Content, cs: seq<Card>, keys: seq<Text>, key: Text)
    requires Distinct(keys)
    ensures var r := WithTexts(content, cs, keys);
            if key in keys && FirstWith(cs, key).Some? then key in r && r[key] == Str(FirstWith(cs, key).value)
            else (key in r <==> key in content) && (key in content ==> r[key] == content[key])
    decreases |keys|
  {
    if keys != [] {
      assert keys == [keys[0]] + keys[1..];
      assert keys[0] !in keys[1..];
      match FirstWith(cs, keys[0])
      case None => WithTextsAt(content, cs, keys[1..], key);
      case Some(text) => WithTextsAt(content[keys[0] := Str(text)], cs, keys[1..], key);
    }
  }

  /** The entries of a fact: its topic, how many events it comes from, and which. */
  predicate HasSources(content: Content, t: Text, cs: seq<Card>) {
    && "topic" in content && content["topic"] == Str(t)
    && "source_count" in content && content["source_count"] == Num(|cs|)
    && "derived_from" in content && content["derived_from"] == Str("event-fact-upgrade")
    && "source_event_ids" in content && content["source_event_ids"].List?
    && ListsIds(content["source_event_ids"].items, cs)
  }

  /** And what its events say first. */
  ghost predicate HasTexts(content: Content, cs: seq<Card>) {
    IsText(cs, "summary", content) && IsText(cs, "claim", content) && IsText(cs, "body", content) &&
      IsText(cs, "answer", content)
  }

  predicate ListsIds(ids: seq<Text>, cs: seq<Card>) {
    |ids| == |cs| && forall i :: 0 <= i < |cs| ==> ids[i] == cs[i].id
  }

  function FirstContent(t: Text, n: nat): Content {
    map["topic" := Str(t), "source_count" := Num(n), "derived_from" := Str("event-fact-upgrade")]
  }

  lemma TextIsText(t: Text, cs: seq<Card>, key: Text)
    requires key in FACT_KEYS
    ensures IsText(cs, key, FactContent(t, cs))
  {
    WithTextsAt(FirstContent(t, |cs|), cs, FACT_KEYS, key);
    var i := FirstWithAt(cs, key);
  }

  lemma OtherKeyStays(t: Text, cs: seq<Card>, key: Text)
    requires key !in FACT_KEYS && key != "source_event_ids" && key in FirstContent(t, |cs|)
    ensures key in FactContent(t, cs) && FactContent(t, cs)[key] == FirstContent(t, |cs|)[key]
  {
    WithTextsAt(FirstContent(t, |cs|), cs, FACT_KEYS, key);
  }

  lemma SourcesAreThere(t: Text, cs: seq<Card>)
    ensures HasSources(FactContent(t, cs), t, cs)
  {
    OtherKeyStays(t, cs, "topic");
    OtherKeyStays(t, cs, "source_count");
    OtherKeyStays(t, cs, "derived_from");
  }

  lemma TextsAreThere(t: Text, cs: seq<Card>)
    ensures HasTexts(FactContent(t, cs), cs)
  {
    TextIsText(t, cs, "summary");
    TextIsText(t, cs, "claim");
    TextIsText(t, cs, "body");
    TextIsText(t, cs, "answer");
  }

  /** The evidence of a fact cites its events in turn, and quotes them. */
  ghost predicate CitesAll(refs: seq<EvidenceRef>, cs: seq<Card>) {
    |refs| == |cs| &&
    forall i :: 0 <= i < |cs| ==> refs[i].cardId == cs[i].id && refs[i].hash == [] && IsSnippet(cs[i], refs[i].snippet)
  }

  /** The candidate fact made from the events `cs` of a topic. */
  ghost predicate IsFact(f: Card, t: Text, scope: Text, cs: seq<Card>, now: Time) {
    && f.cardType == "fact" && f.scope == scope && f.status == Candidate && f.supersedes == []
    && f.createdAt == now && f.version == 1 && f.prev == [] && f.validFrom == None && f.validTo == None
    && f.activation == Activation(1.0, None, None, [])
    && f.provenance.source == "event-fact-upgrade" && f.provenance.agentId == []
    && f.provenance.confidence == AverageConfidence(cs)
    && CitesAll(f.evidence, cs) && HasSources(f.content, t, cs) && HasTexts(f.content, cs)
  }

  lemma FactIsFact(p: Plan, t: Text, cs: seq<Card>)
    ensures IsFact(FactCard(p, t, cs), t, p.scope, cs, p.now)
  {
    forall i | 0 <= i < |cs|
      ensures IsSnippet(cs[i], Citations(cs)[i].snippet)
    {
      SnippetIsSnippet(cs[i]);
    }
    SourcesAreThere(t, cs);
    TextsAreThere(t, cs);
  }

  // ----- Which facts there are -----

  lemma FirstIsOne<T>(xs: seq<T>, p: T -> bool, i: nat, j: nat)
    requires First(xs, p, i) && First(xs, p, j)
    ensures i == j
  {
  }

  /** A card has one topic. */
  lemma TopicIsOne(c: Card, t: Text)
    ensures IsTopic(c, t) <==> t == ExtractTopic(c)
  {
    TopicIsTopic(c);
    if IsTopic(c, t) {
      TopicFromIsOne(c, TOPIC_KEYS, t, ExtractTopic(c));
    }
  }

  lemma TopicFromIsOne(c: Card, keys: seq<Text>, t: Text, u: Text)
    requires IsTopicFrom(c, keys, t) && IsTopicFrom(c, keys, u)
    ensures t == u
  {
  }

  /** All the active events of a topic in a scope, each once. */
  ghost predicate AllEvents(mem: Mem, scope: Text, t: Text, cs: seq<Card>) {
    DistinctIds(cs) && forall c :: c in cs <==> IsEventOf(mem, scope, t, c)
  }

  ghost predicate IsEventOf(mem: Mem, scope: Text, t: Text, c: Card) {
    && Get(mem.cards, c.id) != [] && Last(mem.cards[c.id]) == c
    && c.status == Active && c.cardType == "event" && c.scope == scope && IsTopic(c, t)
  }

  lemma ClusterIsAllEvents(p: Plan, mem: Mem, cs: seq<Card>, t: Text)
    requires WellFormed(mem) && CardsOf(mem, EventsQuery(p), cs) && p.scope != []
    ensures AllEvents(mem, p.scope, t, ClusterOf(cs, t))
  {
    ClusterIsDistinct(cs, t);
    ClusterMembers(cs, t);
    forall c
      ensures c in ClusterOf(cs, t) <==> IsEventOf(mem, p.scope, t, c)
    {
      EventIsLatest(mem, p, cs, c);
      TopicIsOne(c, t);
      if c.id in mem.cards {
        assert Chain(c.id, mem.cards[c.id]);
      }
    }
  }

  /** Events enough to make a fact, and trusted enough. */
  ghost predicate Enough(cs: seq<Card>, minOccurrences: nat, minConfidence: real) {
    |cs| >= minOccurrences && AverageConfidence(cs) >= minConfidence
  }

  /** The fact was made from all events of its topic. */
  ghost predicate ComesFrom(before: Mem, f: Card, p: Plan, t: Text, cs: seq<Card>) {
    && t != [] && f.id == "fact:upgraded:" + p.digest(t) && IsFact(f, t, p.scope, cs, p.now)
    && AllEvents(before, p.scope, t, cs) && Enough(cs, p.minOccurrences, p.minConfidence)
  }

  /** A card is new exactly if it is the fact of a topic with enough events, and no card had its id. */
  ghost predicate FactsMade(before: Mem, after: Mem, p: Plan) {
    && (forall id :: id in after.cards && id !in before.cards ==>
         && after.cards[id] != [] && after.cards[id] == [after.cards[id][0]] && after.cards[id][0].id == id
         && exists t, cs :: ComesFrom(before, after.cards[id][0], p, t, cs))
    && (forall t, cs ::
         t != [] && AllEvents(before, p.scope, t, cs) && Enough(cs, p.minOccurrences, p.minConfidence) ==>
           "fact:upgraded:" + p.digest(t) in after.cards)
  }

  lemma {:induction false} ClusterIsSmaller(cs: seq<Card>, t: Text)
    ensures |ClusterOf(cs, t)| <= |cs|
    decreases |cs|
  {
    if cs != [] {
      ClusterIsSmaller(cs[..|cs| - 1], t);
    }
  }

  /** All events of a topic are as many, and as trusted, as those that a run finds. */
  lemma SameEvents(p: Plan, mem: Mem, found: seq<Card>, t: Text, cs: seq<Card>)
    requires WellFormed(mem) && CardsOf(mem, EventsQuery(p), found) && p.scope != []
    requires AllEvents(mem, p.scope, t, cs)
    ensures Enough(cs, p.minOccurrences, p.minConfidence) <==> Warranted(p, ClusterOf(found, t))
    ensures |cs| <= |found| && (cs != [] && t != [] ==> t in TopicsOf(found))
  {
    var cluster := ClusterOf(found, t);
    ClusterIsAllEvents(p, mem, found, t);
    ClusterIsSmaller(found, t);
    forall c
      ensures multiset(cs)[c] == multiset(cluster)[c]
    {
      NoCardTwice(cs, c);
      NoCardTwice(cluster, c);
    }
    assert multiset(cs) == multiset(cluster);
    SumsOfSameCards(cs, cluster);
    if cs != [] {
      assert cs[0] in cs && cs[0] in cluster;
      ClusterMembers(found, t);
    }
  }

  /** Whatever order the events are found and their topics met in. */
  lemma UpgradeMakesFacts(p: Plan, world: World, found: seq<Card>, order: seq<Text>)
    requires WellFormed(world.mem) && CardsOf(world.mem, EventsQuery(p), found) && p.scope != []
    requires Elements(order) == TopicsOf(found) && p.minOccurrences > 0
    ensures FactsMade(world.mem, UpgradeAll(p, world, found, order).mem, p)
  {
    var before, after := world.mem, UpgradeAll(p, world, found, order).mem;
    UpgradeProgresses(p, world, found, order);
    forall id | id in after.cards && id !in before.cards
      ensures after.cards[id] != [] && after.cards[id] == [after.cards[id][0]] && after.cards[id][0].id == id
      ensures exists t, cs :: ComesFrom(before, after.cards[id][0], p, t, cs)
    {
      var t := NewCardIsFact(p, before, found, Elements(order), after, id);
    }
    forall t, cs | t != [] && AllEvents(before, p.scope, t, cs) && Enough(cs, p.minOccurrences, p.minConfidence)
      ensures "fact:upgraded:" + p.digest(t) in after.cards
    {
      SameEvents(p, before, found, t, cs);
      assert FactId(p, t) in after.cards;
    }
  }

  lemma NewCardIsFact(p: Plan, before: Mem, found: seq<Card>, met: set<Text>, after: Mem, id: Id) returns (t: Text)
    requires WellFormed(before) && CardsOf(before, EventsQuery(p), found) && p.scope != []
    requires Progress(p, before, found, met, after) && id in after.cards && id !in before.cards
    requires met <= TopicsOf(found)
    ensures after.cards[id] == [FactCard(p, t, ClusterOf(found, t))]
    ensures after.cards[id][0].id == id && ComesFrom(before, after.cards[id][0], p, t, ClusterOf(found, t))
  {
    assert NewFact(p, found, met, after, id);
    t :| t in met && id == FactId(p, t) && Warranted(p, ClusterOf(found, t)) &&
         after.cards[id] == [FactCard(p, t, ClusterOf(found, t))];
    FactIsFact(p, t, ClusterOf(found, t));
    ClusterIsAllEvents(p, before, found, t);
  }

  // ----- How far a fact is trusted -----

  /** The confidences that were given. */
  function Given(cs: seq<Card>): set<nat> {
    set i: nat | i < |cs| && cs[i].provenance.confidence > 0.0
  }

  lemma {:induction false} CountIsGiven(cs: seq<Card>)
    ensures CountConfidence(cs) == |Given(cs)|
    decreases |cs|
  {
    if cs != [] {
      var init := cs[..|cs| - 1];
      CountIsGiven(init);
      if Last(cs).provenance.confidence > 0.0 {
        assert Given(cs) == Given(init) + {|cs| - 1};
      } else {
        assert Given(cs) == Given(init);
      }
    }
  }

  /**
   The mean of the confidences given: it is 0.7 if there are none, and one more confidence weighs as much as each of
   those before it.
   */
  lemma AverageIsMean(cs: seq<Card>, c: Card)
    ensures cs != [] && Given(cs) == {} ==> AverageConfidence(cs) == 0.7
    ensures c.provenance.confidence <= 0.0 && cs != [] ==> AverageConfidence(cs + [c]) == AverageConfidence(cs)
    ensures c.provenance.confidence > 0.0 && Given(cs) == {} ==> AverageConfidence(cs + [c]) == c.provenance.confidence
    ensures c.provenance.confidence > 0.0 && Given(cs) != {} ==>
              AverageConfidence(cs + [c]) * (|Given(cs)| + 1) as real ==
              AverageConfidence(cs) * |Given(cs)| as real + c.provenance.confidence
  {
    CountIsGiven(cs);
    NoneGiven(cs);
    assert (cs + [c])[..|cs|] == cs && Last(cs + [c]) == c;
  }

  lemma {:induction false} NoneGiven(cs: seq<Card>)
    ensures CountConfidence(cs) == 0 ==> SumConfidence(cs) == 0.0
    decreases |cs|
  {
    if cs != [] {
      NoneGiven(cs[..|cs| - 1]);
    }
  }
}
