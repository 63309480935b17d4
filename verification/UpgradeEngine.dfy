/** The upgrade engine as it runs over a store. */
module UpgradeEngine {
  import opened Prelude
  import opened Strings
  import opened MemoryModel
  import opened MemoryInvariant
  import opened MemoryQuery
  import opened MemoryStore
  import opened Consolidation
  import opened Upgrade
  import opened UpgradeOutcome

  datatype UpgradeResult = UpgradeResult(
    eventsExamined: nat, clustersFound: nat, factsCreated: nat, eventsArchived: nat, factCardIds: seq<Id>)

  /** How many sources the topics met so far have archived. */
  function ArchivedBy(p: Plan, world: World, cs: seq<Card>, order: seq<Text>): nat {
    if order == [] then 0
    else
      var init, t := order[..|order| - 1], Last(order);
      ArchivedBy(p, world, cs, init) +
      (if p.archive && Creates(p, UpgradeTopics(p, world, cs, init).mem, t, ClusterOf(cs, t)) then |ClusterOf(cs, t)|
        else 0)
  }

  /** The facts the topics met so far have created. */
  function FactsBy(p: Plan, world: World, cs: seq<Card>, order: seq<Text>): seq<Id> {
    if order == [] then []
    else
      var init, t := order[..|order| - 1], Last(order);
      FactsBy(p, world, cs, init) +
      (if Creates(p, UpgradeTopics(p, world, cs, init).mem, t, ClusterOf(cs, t)) then [FactId(p, t)] else [])
  }

  /** The reported facts are exactly the cards the upgrade added, each once. */
  lemma {:induction false} ReportedFactsAreNew(p: Plan, world: World, cs: seq<Card>, order: seq<Text>)
    requires WellFormed(world.mem) && CardsOf(world.mem, EventsQuery(p), cs) && p.scope != []
    ensures var after := UpgradeTopics(p, world, cs, order).mem;
            && Distinct(FactsBy(p, world, cs, order))
            && Elements(FactsBy(p, world, cs, order)) == after.cards.Keys - world.mem.cards.Keys
            && world.mem.cards.Keys <= after.cards.Keys
    decreases |order|
  {
    if order == [] {
      assert FactsBy(p, world, cs, order) == [];
    } else {
      var init, t := order[..|order| - 1], Last(order);
      ReportedFactsAreNew(p, world, cs, init);
      UpgradeProgresses(p, world, cs, init);
      ClusterIsStored(p, world.mem, cs, t);
      TopicChanges(p, UpgradeTopics(p, world, cs, init), t, ClusterOf(cs, t));
      OneMoreFact(p, UpgradeTopics(p, world, cs, init).mem, t, ClusterOf(cs, t), UpgradeTopics(p, world, cs, order).mem,
                  world.mem.cards.Keys, FactsBy(p, world, cs, init), FactsBy(p, world, cs, order));
    }
  }

  /** The cards that are no longer as they were. */
  function Changed(before: Mem, after: Mem): set<Id> {
    set id | id in before.cards && id in after.cards && after.cards[id] != before.cards[id]
  }

  /** Events count as archived once each: they are the cards that an upgrade changes. */
  lemma {:induction false} ArchivedAreChanged(p: Plan, world: World, cs: seq<Card>, order: seq<Text>)
    requires WellFormed(world.mem) && CardsOf(world.mem, EventsQuery(p), cs) && p.scope != [] && Distinct(order)
    ensures var changed := Changed(world.mem, UpgradeTopics(p, world, cs, order).mem);
            && |changed| == ArchivedBy(p, world, cs, order)
            && forall id :: id in changed ==> ExtractTopic(Last(world.mem.cards[id])) in order
    decreases |order|
  {
    assert forall id :: id in world.mem.cards ==> Chain(id, world.mem.cards[id]);
    if order == [] {
      assert Changed(world.mem, world.mem) == {};
    } else {
      var init, t := order[..|order| - 1], Last(order);
      var mem, after := UpgradeTopics(p, world, cs, init).mem, UpgradeTopics(p, world, cs, order).mem;
      ArchivedAreChanged(p, world, cs, init);
      UpgradeProgresses(p, world, cs, init);
      ClusterIsStored(p, world.mem, cs, t);
      TopicChanges(p, UpgradeTopics(p, world, cs, init), t, ClusterOf(cs, t));
      assert t !in init;
      OneMoreArchived(p, world.mem, cs, init, mem, t, after);
    }
  }

  function IdsOf(cs: seq<Card>): set<Id> {
    set c | c in cs :: c.id
  }

  lemma {:induction false} AsManyIds(cs: seq<Card>)
    requires DistinctIds(cs)
    ensures |IdsOf(cs)| == |cs|
    decreases |cs|
  {
    if cs != [] {
      var init := cs[..|cs| - 1];
      AsManyIds(init);
      assert cs == init + [Last(cs)];
      assert IdsOf(cs) == IdsOf(init) + {Last(cs).id};
    }
  }

  /** The events of a cluster are as they were before the upgrade. */
  predicate AsBefore(start: Mem, mem: Mem, cluster: seq<Card>) {
    forall c :: c in cluster ==>
      && c.id in start.cards && start.cards[c.id] != [] && Last(start.cards[c.id]) == c && c.status == Active
      && c.id in mem.cards && mem.cards[c.id] == start.cards[c.id]
  }

  lemma NotChangedYet(p: Plan, start: Mem, cs: seq<Card>, init: seq<Text>, mem: Mem, t: Text)
    requires WellFormed(start) && CardsOf(start, EventsQuery(p), cs) && p.scope != [] && t !in init
    requires start.cards.Keys <= mem.cards.Keys
    requires forall id :: id in start.cards ==> start.cards[id] != []
    requires forall id :: id in Changed(start, mem) ==> ExtractTopic(Last(start.cards[id])) in init
    ensures AsBefore(start, mem, ClusterOf(cs, t))
  {
    ClusterIsStored(p, start, cs, t);
    forall c | c in ClusterOf(cs, t)
      ensures c.id in mem.cards && mem.cards[c.id] == start.cards[c.id]
    {
      assert c.id !in Changed(start, mem);
    }
  }

  lemma OneMoreArchived(p: Plan, start: Mem, cs: seq<Card>, init: seq<Text>, mem: Mem, t: Text, after: Mem)
    requires WellFormed(start) && CardsOf(start, EventsQuery(p), cs) && p.scope != [] && t !in init
    requires start.cards.Keys <= mem.cards.Keys && TopicChange(p, mem, t, ClusterOf(cs, t), after)
    requires forall id :: id in start.cards ==> start.cards[id] != []
    requires forall id :: id in Changed(start, mem) ==> ExtractTopic(Last(start.cards[id])) in init
    ensures var more := if p.archive && Creates(p, mem, t, ClusterOf(cs, t)) then |ClusterOf(cs, t)| else 0;
            |Changed(start, after)| == |Changed(start, mem)| + more
    ensures forall id :: id in Changed(start, after) ==>
              id in Changed(start, mem) || ExtractTopic(Last(start.cards[id])) == t
  {
    var cluster := ClusterOf(cs, t);
    if Creates(p, mem, t, cluster) {
      NotChangedYet(p, start, cs, init, mem, t);
      MoreAreChanged(p, start, mem, cluster, t, after);
      ClusterIsDistinct(cs, t);
      AsManyIds(cluster);
      ClusterIsStored(p, start, cs, t);
    }
  }

  lemma MoreAreChanged(p: Plan, start: Mem, mem: Mem, cluster: seq<Card>, t: Text, after: Mem)
    requires start.cards.Keys <= mem.cards.Keys && AsBefore(start, mem, cluster)
    requires TopicChange(p, mem, t, cluster, after) && Creates(p, mem, t, cluster)
    ensures Changed(start, after) == Changed(start, mem) + if p.archive then IdsOf(cluster) else {}
    ensures Changed(start, mem) * IdsOf(cluster) == {}
  {
    forall id
      ensures id in Changed(start, after) <==> id in Changed(start, mem) || (p.archive && id in IdsOf(cluster))
    {
      if id in start.cards {
        ChangesOnce(p, start, mem, cluster, t, after, id);
      }
    }
  }

  lemma ChangesOnce(p: Plan, start: Mem, mem: Mem, cluster: seq<Card>, t: Text, after: Mem, id: Id)
    requires id in start.cards && id in mem.cards && AsBefore(start, mem, cluster)
    requires TopicChange(p, mem, t, cluster, after) && Creates(p, mem, t, cluster)
    ensures id in Changed(start, after) <==> id in Changed(start, mem) || (p.archive && id in IdsOf(cluster))
  {
    assert SourceOrSame(p, mem, cluster, after, id);
    if id in IdsOf(cluster) {
      var c :| c in cluster && c.id == id;
      var i :| 0 <= i < |cluster| && cluster[i] == c;
      assert cluster[i].id == id;
    }
  }

  lemma OneMoreFact(p: Plan, before: Mem, t: Text, cluster: seq<Card>, after: Mem, start: set<Id>, facts: seq<Id>,
    facts': seq<Id>)
    requires TopicChange(p, before, t, cluster, after)
    requires Distinct(facts) && Elements(facts) == before.cards.Keys - start && start <= before.cards.Keys
    requires facts' == facts + (if Creates(p, before, t, cluster) then [FactId(p, t)] else [])
    ensures Distinct(facts') && Elements(facts') == after.cards.Keys - start && start <= after.cards.Keys
  {
    if Creates(p, before, t, cluster) {
      assert FactId(p, t) !in Elements(facts);
      assert Elements(facts') == Elements(facts) + {FactId(p, t)};
    }
  }

  method AverageConfidenceOf(cards: seq<Card>) returns (r: real)
    ensures r == AverageConfidence(cards)
  {
    if |cards| == 0 {
      return 0.0;
    }
    var sum, count := 0.0, 0;
    for i := 0 to |cards|
      invariant sum == SumConfidence(cards[..i]) && count == CountConfidence(cards[..i])
    {
      assert cards[..i + 1][..i] == cards[..i] && Last(cards[..i + 1]) == cards[i];
      if cards[i].provenance.confidence > 0.0 {
        sum := sum + cards[i].provenance.confidence;
        count := count + 1;
      }
    }
    assert cards[..|cards|] == cards;
    if count == 0 {
      return 0.7;
    }
    return sum / count as real;
  }

  /** The clusters are grouped by a key, under every non-empty key that occurs. */
  ghost predicate Clustered(cards: seq<Card>, key: Card -> Text, clusters: map<Text, seq<Card>>) {
    && clusters.Keys == KeysBy(cards, key)
    && forall t :: t in clusters ==> clusters[t] == ClusterBy(cards, key, t)
  }

  function Grouped(clusters: map<Text, seq<Card>>, topic: Text, c: Card): map<Text, seq<Card>> {
    if topic == [] then clusters
    else clusters[topic := (if topic in clusters then clusters[topic] else []) + [c]]
  }

  method ClusterEventCards(cards: seq<Card>) returns (clusters: map<Text, seq<Card>>)
    ensures Clustered(cards, ExtractTopic, clusters)
  {
    clusters := map[];
    for i := 0 to |cards|
      invariant Clustered(cards[..i], ExtractTopic, clusters)
    {
      var topic := ExtractTopic(cards[i]);
      assert cards[..i + 1] == cards[..i] + [cards[i]];
      ClusterOneMore(cards[..i], ExtractTopic, cards[i], clusters);
      if topic == [] {
        continue;
      }
      clusters := clusters[topic := (if topic in clusters then clusters[topic] else []) + [cards[i]]];
    }
    assert cards[..|cards|] == cards;
  }

  lemma ClusterOneMore(cards: seq<Card>, key: Card -> Text, c: Card, clusters: map<Text, seq<Card>>)
    requires Clustered(cards, key, clusters)
    ensures Clustered(cards + [c], key, Grouped(clusters, key(c), c))
  {
    var topic, clusters' := key(c), Grouped(clusters, key(c), c);
    KeysSnoc(cards, key, c);
    forall t | t in clusters'
      ensures clusters'[t] == ClusterBy(cards + [c], key, t)
    {
      assert (cards + [c])[..|cards|] == cards;
      if topic != [] && topic !in clusters {
        NoCluster(cards, key, topic);
      }
    }
  }

  lemma KeysSnoc(cs: seq<Card>, key: Card -> Text, c: Card)
    ensures KeysBy(cs + [c], key) == KeysBy(cs, key) + (if key(c) != [] then {key(c)} else {})
  {
    var all := cs + [c];
    assert all[|cs|] == c;
    assert forall x :: x in cs ==> x in all;
  }

  lemma NoCluster(cs: seq<Card>, key: Card -> Text, topic: Text)
    requires topic != [] && topic !in KeysBy(cs, key)
    ensures ClusterBy(cs, key, topic) == []
  {
    var cluster := ClusterBy(cs, key, topic);
    forall c
      ensures multiset(cluster)[c] == 0
    {
      ClusterCounts(cs, key, topic, c);
      assert c in multiset(cs) ==> c in cs;
    }
    assert multiset(cluster) == multiset{};
    assert |cluster| == |multiset(cluster)|;
  }

  /** Creates the fact of one topic, links its sources and archives them on request. */
  method UpgradeTopic(s: Store, p: Plan, topic: Text, cards: seq<Card>) returns (created: bool, archived: nat)
    requires s.Valid() && Stored(s.Memory(), cards)
    modifies s
    ensures s.Valid()
    ensures s.State() == RunAll(old(s.State()), TopicOps(p, old(s.Memory()), topic, cards))
    ensures created == Creates(p, old(s.Memory()), topic, cards)
    ensures archived == if created && p.archive then |cards| else 0
  {
    created, archived := false, 0;
    if |cards| < p.minOccurrences {
      return;
    }
    var confidence := AverageConfidenceOf(cards);
    if confidence < p.minConfidence {
      return;
    }
    var factId := FactId(p, topic);
    var existing, _ := s.Query(QueryRequest(factId, [], [], Unset, None));
    FoundIffStored(s.Memory(), factId, existing);
    if |existing| > 0 {
      return;
    }
    ghost var start := s.State();
    CreatingAddsTheFact(p, start, topic, cards);
    TopicOpsInTurn(p, start, topic, cards);
    var _ := s.CreateCard(
      CreateCardRequest(factId, "fact", p.scope, Known(Candidate), [], None, None, None, FactContent(topic, cards),
                        Citations(cards), Provenance([], "event-fact-upgrade", confidence)), p.now);
    created := true;
    LinkingKeepsCards(p, s.State(), topic, cards);
    LinkSources(s, p, topic, cards);
    if p.archive {
      archived := ArchiveSources(s, p, cards);
    }
  }

  lemma FoundIffStored(mem: Mem, id: Id, found: seq<Card>)
    requires id != [] && CardsOf(mem, QueryRequest(id, [], [], Unset, None), found)
    ensures found != [] <==> Get(mem.cards, id) != []
  {
    var req := QueryRequest(id, [], [], Unset, None);
    if Get(mem.cards, id) != [] {
      assert id in Answers(mem, req);
    }
    if found != [] {
      assert found[0].id in Answers(mem, req);
    }
  }

  method LinkSources(s: Store, p: Plan, topic: Text, cards: seq<Card>)
    requires s.Valid()
    modifies s
    ensures s.Valid()
    ensures s.State() == RunAll(old(s.State()), LinkOps(p, topic, cards))
  {
    ghost var start := s.State();
    for i := 0 to |cards|
      invariant s.Valid() && s.State() == RunAll(start, LinkOps(p, topic, cards[..i]))
    {
      assert cards[..i + 1][..i] == cards[..i] && Last(cards[..i + 1]) == cards[i];
      RunSnoc(start, LinkOps(p, topic, cards[..i]), Link(EvidenceEdge(p, topic, cards[i]), p.now));
      var _ := s.CreateEdge(EvidenceEdge(p, topic, cards[i]), p.now);
    }
    assert cards[..|cards|] == cards;
  }

  method ArchiveSources(s: Store, p: Plan, cards: seq<Card>) returns (archived: nat)
    requires s.Valid() && Stored(s.Memory(), cards)
    modifies s
    ensures s.Valid()
    ensures s.State() == RunAll(old(s.State()), ArchiveOps(cards, p.now)) && archived == |cards|
  {
    ghost var start := s.State();
    archived := 0;
    for i := 0 to |cards|
      invariant s.Valid() && s.cards.Keys == start.mem.cards.Keys
      invariant s.State() == RunAll(start, ArchiveOps(cards[..i], p.now)) && archived == i
    {
      assert cards[i] in cards;
      ArchiveOneMore(start, cards, i, p.now);
      UpdateStep(s.State(), Update(cards[i].id, StatusOnly(Archived), p.now), cards[i].id);
      var r := s.UpdateCard(cards[i].id, StatusOnly(Archived), p.now);
      if r.Ok? {
        archived := archived + 1;
      }
    }
    assert cards[..|cards|] == cards;
  }

  /** However the events are found and their topics met. */
  lemma UpgradeIsTold(p: Plan, start: World)
    requires WellFormed(start.mem) && p.scope != [] && p.minOccurrences > 0
    ensures forall cs, order ::
              CardsOf(start.mem, EventsQuery(p), cs) && Elements(order) == TopicsOf(cs) ==>
                var after := UpgradeAll(p, start, cs, order).mem;
                EvidenceLinked(start.mem, after, p.archive, p.now) && FactsMade(start.mem, after, p)
  {
    forall cs, order | CardsOf(start.mem, EventsQuery(p), cs) && Elements(order) == TopicsOf(cs)
      ensures var after := UpgradeAll(p, start, cs, order).mem;
              EvidenceLinked(start.mem, after, p.archive, p.now) && FactsMade(start.mem, after, p)
    {
      UpgradeLinksEvidence(p, start, cs, order);
      UpgradeMakesFacts(p, start, cs, order);
    }
  }

  /** `cs` are the events examined and `order` the order their topics are met in. */
  method UpgradeEventsToFacts(s: Store, req: UpgradeRequest, digest: Text -> Digest, now: Time)
    returns (result: UpgradeResult, ghost cs: seq<Card>, ghost order: seq<Text>)
    requires s.Valid()
    modifies s
    ensures s.Valid()
    ensures var p, start := PlanFor(req, digest, now), old(s.State());
            && CardsOf(start.mem, EventsQuery(p), cs)
            && Distinct(order) && Elements(order) == TopicsOf(cs)
            && s.State() == UpgradeAll(p, start, cs, order)
            && result == (if |cs| < p.minOccurrences then UpgradeResult(|cs|, 0, 0, 0, [])
                          else
                            var facts := FactsBy(p, start, cs, order);
                            UpgradeResult(|cs|, |TopicsOf(cs)|, |facts|, ArchivedBy(p, start, cs, order), facts))
    ensures EvidenceLinked(old(s.Memory()), s.Memory(), req.archiveSources, now)
    ensures FactsMade(old(s.Memory()), s.Memory(),
              Plan(if Trim(req.scope) == [] then "project" else Trim(req.scope),
                if req.minOccurrences > 0 then req.minOccurrences else 2,
                if req.minConfidence > 0.0 then req.minConfidence else 0.5, req.archiveSources, digest, now))
  {
    var p := PlanFor(req, digest, now);
    ghost var start := s.State();
    UpgradeIsTold(p, start);
    var found, _ := s.Query(EventsQuery(p));
    cs := found;
    var clusters := ClusterEventCards(found);
    result := UpgradeResult(|found|, 0, 0, 0, []);
    if |found| < p.minOccurrences {
      order := SomeOrder(TopicsOf(cs));
      return;
    }
    result, order := MeetTopics(s, p, clusters, cs);
    result := result.(eventsExamined := |found|);
  }

  method MeetTopics(s: Store, p: Plan, clusters: map<Text, seq<Card>>, ghost cs: seq<Card>)
    returns (result: UpgradeResult, ghost order: seq<Text>)
    requires s.Valid() && Clustered(cs, ExtractTopic, clusters)
    requires CardsOf(s.Memory(), EventsQuery(p), cs) && p.scope != []
    modifies s
    ensures s.Valid() && Upgrading(p, old(s.State()), cs, {}, order, s.State(), result)
  {
    ghost var start := s.State();
    result := UpgradeResult(0, |clusters.Keys|, 0, 0, []);
    order := [];
    var todo := clusters.Keys;
    assert Elements(order) == {};
    while todo != {}
      invariant s.Valid() && Upgrading(p, start, cs, todo, order, s.State(), result)
      decreases |todo|
    {
      var topic :| topic in todo;
      StoredLater(p, start, cs, order, topic);
      UpgradingStep(p, start, cs, todo, order, s.State(), result, topic);
      result := MeetTopic(s, p, topic, clusters[topic], result);
      todo := todo - {topic};
      order := order + [topic];
    }
  }

  /** One turn of the loop over topics. */
  method MeetTopic(s: Store, p: Plan, topic: Text, cards: seq<Card>, r: UpgradeResult) returns (r': UpgradeResult)
    requires s.Valid() && Stored(s.Memory(), cards)
    modifies s
    ensures s.Valid()
    ensures s.State() == RunAll(old(s.State()), TopicOps(p, old(s.Memory()), topic, cards))
    ensures var created := Creates(p, old(s.Memory()), topic, cards);
            r' == Counted(r, created, if created && p.archive then |cards| else 0, FactId(p, topic))
  {
    r' := r;
    var created, archived := UpgradeTopic(s, p, topic, cards);
    if created {
      r' := r'.(factsCreated := r'.factsCreated + 1, factCardIds := r'.factCardIds + [FactId(p, topic)],
                eventsArchived := r'.eventsArchived + archived);
    }
  }

  /** An upgrade that still has to meet the topics in `todo`. */
  ghost predicate Upgrading(p: Plan, start: World, cs: seq<Card>, todo: set<Text>, order: seq<Text>, now: World,
    r: UpgradeResult) {
    && todo <= TopicsOf(cs)
    && Distinct(order) && Elements(order) == TopicsOf(cs) - todo
    && now == UpgradeTopics(p, start, cs, order)
    && r == UpgradeResult(r.eventsExamined, |TopicsOf(cs)|, |FactsBy(p, start, cs, order)|,
      ArchivedBy(p, start, cs, order),
                          FactsBy(p, start, cs, order))
  }

  /** The counters after one more topic. */
  function Counted(r: UpgradeResult, created: bool, archived: nat, fact: Id): UpgradeResult {
    if created then
      r.(factsCreated := r.factsCreated + 1, factCardIds := r.factCardIds + [fact],
        eventsArchived := r.eventsArchived + archived)
    else r
  }

  lemma UpgradingStep(p: Plan, start: World, cs: seq<Card>, todo: set<Text>, order: seq<Text>, now: World,
    r: UpgradeResult, t: Text)
    requires Upgrading(p, start, cs, todo, order, now, r) && t in todo
    ensures var cluster := ClusterOf(cs, t);
            var created := Creates(p, now.mem, t, cluster);
            Upgrading(p, start, cs, todo - {t}, order + [t], RunAll(now, TopicOps(p, now.mem, t, cluster)),
                      Counted(r, created, if created && p.archive then |cluster| else 0, FactId(p, t)))
  {
    TopicSnoc(order, t);
    assert TopicsOf(cs) - (todo - {t}) == TopicsOf(cs) - todo + {t};
  }

  lemma TopicSnoc(order: seq<Text>, topic: Text)
    requires Distinct(order) && topic !in Elements(order)
    ensures Distinct(order + [topic]) && Elements(order + [topic]) == Elements(order) + {topic}
    ensures (order + [topic])[..|order + [topic]| - 1] == order && Last(order + [topic]) == topic
  {
  }

  lemma StoredLater(p: Plan, start: World, cs: seq<Card>, order: seq<Text>, topic: Text)
    requires WellFormed(start.mem) && CardsOf(start.mem, EventsQuery(p), cs) && p.scope != []
    ensures Stored(UpgradeTopics(p, start, cs, order).mem, ClusterOf(cs, topic))
  {
    UpgradeProgresses(p, start, cs, order);
    ClusterIsStored(p, start.mem, cs, topic);
  }

  lemma SomeOrder(topics: set<Text>) returns (order: seq<Text>)
    ensures Distinct(order) && Elements(order) == topics
  {
    if topics == {} {
      order := [];
    } else {
      var t :| t in topics;
      order := SomeOrder(topics - {t});
      TopicSnoc(order, t);
      order := order + [t];
    }
  }
}
