/** The upgrade of recurring event cards into fact cards. */
module Upgrade {
  import opened Prelude
  import opened Strings
  import opened Topics
  import opened MemoryModel
  import opened MemoryInvariant
  import opened MemoryQuery
  import opened Consolidation

  datatype UpgradeRequest = UpgradeRequest(scope: Text, minOccurrences: int, minConfidence: real, archiveSources: bool)

  /** The part of a digest that names a fact, in hexadecimal. */
  type Digest = s: Text | |s| == 16 witness seq(16, _ => 'a')

  /** The request with its defaults, the digest that names fact cards, and the instant of the call. */
  datatype Plan = Plan(scope: Text, minOccurrences: nat, minConfidence: real, archive: bool, digest: Text -> Digest,
    now: Time)

  function PlanFor(req: UpgradeRequest, digest: Text -> Digest, now: Time): Plan {
    Plan(if Trim(req.scope) == [] then "project" else Trim(req.scope),
         if req.minOccurrences <= 0 then 2 else req.minOccurrences,
         if req.minConfidence <= 0.0 then 0.5 else req.minConfidence,
         req.archiveSources, digest, now)
  }

  function EventsQuery(p: Plan): QueryRequest {
    QueryRequest([], "event", p.scope, Known(Active), None)
  }

  // ----- Topics of cards -----

  const TOPIC_KEYS: seq<Text> := ["topic", "subject", "summary", "query", "claim"]
  const SNIPPET_KEYS: seq<Text> := ["summary", "snippet", "body", "claim", "query"]
  const FACT_KEYS: seq<Text> := ["summary", "claim", "body", "answer"]

  function FirstTopic(content: Content, keys: seq<Text>): Text {
    if keys == [] then []
    else if keys[0] in content && content[keys[0]].Str? && Normalize(content[keys[0]].text) != [] then
      Normalize(content[keys[0]].text)
    else FirstTopic(content, keys[1..])
  }

  function ExtractTopic(c: Card): Text {
    FirstTopic(c.content, TOPIC_KEYS)
  }

  function HasText(content: Content, key: Text): bool {
    key in content && content[key].Str? && Trim(content[key].text) != []
  }

  function FirstText(content: Content, keys: seq<Text>): Option<Text> {
    if keys == [] then None
    else if HasText(content, keys[0]) then Some(content[keys[0]].text)
    else FirstText(content, keys[1..])
  }

  function ExtractSnippet(c: Card): Text {
    match FirstText(c.content, SNIPPET_KEYS)
    case None => c.id
    case Some(text) => if |text| > 200 then text[..197] + "..." else text
  }

  /** The cards with one key, in the order they were found. */
  function ClusterBy(cs: seq<Card>, key: Card -> Text, topic: Text): seq<Card> {
    if cs == [] then []
    else ClusterBy(cs[..|cs| - 1], key, topic) + (if key(Last(cs)) == topic then [Last(cs)] else [])
  }

  function KeysBy(cs: seq<Card>, key: Card -> Text): set<Text> {
    set c | c in cs && key(c) != [] :: key(c)
  }

  /** The cards of one topic. */
  function ClusterOf(cs: seq<Card>, topic: Text): seq<Card> {
    ClusterBy(cs, ExtractTopic, topic)
  }

  function TopicsOf(cs: seq<Card>): set<Text> {
    KeysBy(cs, ExtractTopic)
  }

  // ----- Confidence -----

  function SumConfidence(cs: seq<Card>): real {
    if cs == [] then 0.0
    else SumConfidence(cs[..|cs| - 1]) +
         (if Last(cs).provenance.confidence > 0.0 then Last(cs).provenance.confidence else 0.0)
  }

  function CountConfidence(cs: seq<Card>): nat {
    if cs == [] then 0
    else CountConfidence(cs[..|cs| - 1]) + (if Last(cs).provenance.confidence > 0.0 then 1 else 0)
  }

  function AverageConfidence(cs: seq<Card>): real {
    if cs == [] then 0.0
    else if CountConfidence(cs) == 0 then 0.7
    else SumConfidence(cs) / CountConfidence(cs) as real
  }

  predicate Warranted(p: Plan, cluster: seq<Card>) {
    |cluster| >= p.minOccurrences && AverageConfidence(cluster) >= p.minConfidence
  }

  // ----- Facts -----

  function FactId(p: Plan, topic: Text): Id {
    "fact:upgraded:" + p.digest(topic)
  }

  function Citations(cs: seq<Card>): (refs: seq<EvidenceRef>)
    ensures |refs| == |cs|
  {
    seq(|cs|, i requires 0 <= i < |cs| => EvidenceRef(cs[i].id, ExtractSnippet(cs[i]), []))
  }

  /** The first card of the cluster that has a text under the key supplies it. */
  function FirstWith(cs: seq<Card>, key: Text): Option<Text> {
    if cs == [] then None
    else if HasText(cs[0].content, key) then Some(cs[0].content[key].text)
    else FirstWith(cs[1..], key)
  }

  function WithTexts(content: Content, cs: seq<Card>, keys: seq<Text>): Content
    decreases keys
  {
    if keys == [] then content
    else
      match FirstWith(cs, keys[0])
      case None => WithTexts(content, cs, keys[1..])
      case Some(text) => WithTexts(content[keys[0] := Str(text)], cs, keys[1..])
  }

  function FactContent(topic: Text, cs: seq<Card>): Content {
    WithTexts(map["topic" := Str(topic), "source_count" := Num(|cs|), "derived_from" := Str("event-fact-upgrade")],
              cs, FACT_KEYS)["source_event_ids" := List(Ids(cs))]
  }

  function FactRequest(p: Plan, topic: Text, cs: seq<Card>): CreateCardRequest {
    CreateCardRequest(FactId(p, topic), "fact", p.scope, Known(Candidate), [], None, None, None, FactContent(topic, cs),
                      Citations(cs), Provenance([], "event-fact-upgrade", AverageConfidence(cs)))
  }

  function EvidenceEdge(p: Plan, topic: Text, c: Card): CreateEdgeRequest {
    CreateEdgeRequest("edge:evidence:" + c.id + "->" + FactId(p, topic), c.id, FactId(p, topic), "evidence", 1.0,
                      c.provenance.confidence, None, None, [])
  }

  function LinkOps(p: Plan, topic: Text, cs: seq<Card>): seq<Op> {
    if cs == [] then [] else LinkOps(p, topic, cs[..|cs| - 1]) + [Link(EvidenceEdge(p, topic, Last(cs)), p.now)]
  }

  function SourceOps(p: Plan, cluster: seq<Card>): seq<Op> {
    if p.archive then ArchiveOps(cluster, p.now) else []
  }

  predicate Creates(p: Plan, mem: Mem, topic: Text, cluster: seq<Card>) {
    Warranted(p, cluster) && Get(mem.cards, FactId(p, topic)) == []
  }

  /** What is done for one topic. */
  function TopicOps(p: Plan, mem: Mem, topic: Text, cluster: seq<Card>): seq<Op> {
    if !Creates(p, mem, topic, cluster) then []
    else [Create(FactRequest(p, topic, cluster), p.now)] + LinkOps(p, topic, cluster) + SourceOps(p, cluster)
  }

  /** The topics met in the given order. */
  function UpgradeTopics(p: Plan, world: World, cs: seq<Card>, order: seq<Text>): World {
    if order == [] then world
    else
      var before := UpgradeTopics(p, world, cs, order[..|order| - 1]);
      RunAll(before, TopicOps(p, before.mem, Last(order), ClusterOf(cs, Last(order))))
  }

  function UpgradeAll(p: Plan, world: World, cs: seq<Card>, order: seq<Text>): World {
    if |cs| < p.minOccurrences then world else UpgradeTopics(p, world, cs, order)
  }

  // ----- Clusters do not depend on the order cards are found in -----

  lemma {:induction false} ClusterCounts(cs: seq<Card>, key: Card -> Text, topic: Text, c: Card)
    ensures multiset(ClusterBy(cs, key, topic))[c] == (if key(c) == topic then multiset(cs)[c] else 0)
    decreases |cs|
  {
    if cs != [] {
      ClusterCounts(cs[..|cs| - 1], key, topic, c);
      assert cs == cs[..|cs| - 1] + [Last(cs)];
    }
  }

  lemma ClusterMembers(cs: seq<Card>, topic: Text)
    ensures forall c :: c in ClusterOf(cs, topic) <==> c in cs && ExtractTopic(c) == topic
  {
    forall c
      ensures c in ClusterOf(cs, topic) <==> c in cs && ExtractTopic(c) == topic
    {
      ClusterCounts(cs, ExtractTopic, topic, c);
      assert c in ClusterOf(cs, topic) <==> c in multiset(ClusterOf(cs, topic));
      assert c in cs <==> c in multiset(cs);
    }
  }

  function Positive(c: Card): real {
    if c.provenance.confidence > 0.0 then c.provenance.confidence else 0.0
  }

  lemma {:induction false} SumWithout(cs: seq<Card>, i: nat)
    requires i < |cs|
    ensures SumConfidence(cs) == SumConfidence(cs[..i] + cs[i + 1..]) + Positive(cs[i])
    ensures CountConfidence(cs) == CountConfidence(cs[..i] + cs[i + 1..]) +
      (if cs[i].provenance.confidence > 0.0 then 1 else 0)
    decreases |cs|
  {
    var rest := cs[..i] + cs[i + 1..];
    if i == |cs| - 1 {
      assert rest == cs[..i];
    } else {
      var init := cs[..|cs| - 1];
      SumWithout(init, i);
      assert rest[..|rest| - 1] == init[..i] + init[i + 1..];
      assert Last(rest) == Last(cs);
    }
  }

  /** Taking the last card of one arrangement out of both. */
  lemma WithoutLast(a: seq<Card>, b: seq<Card>, i: nat)
    requires multiset(a) == multiset(b) && a != [] && i < |b| && b[i] == Last(a)
    ensures multiset(a[..|a| - 1]) == multiset(b[..i] + b[i + 1..])
  {
    var c := Last(a);
    assert a == a[..|a| - 1] + [c];
    assert b == b[..i] + [c] + b[i + 1..];
    assert multiset(a) == multiset(a[..|a| - 1]) + multiset{c};
    assert multiset(b) == multiset(b[..i] + b[i + 1..]) + multiset{c};
    assert multiset(a[..|a| - 1]) == multiset(a) - multiset{c};
    assert multiset(b[..i] + b[i + 1..]) == multiset(b) - multiset{c};
  }

  lemma {:induction false} SumsOfSameCards(a: seq<Card>, b: seq<Card>)
    requires multiset(a) == multiset(b)
    ensures SumConfidence(a) == SumConfidence(b) && CountConfidence(a) == CountConfidence(b) && |a| == |b|
    decreases |a|
  {
    assert |a| == |multiset(a)| == |multiset(b)| == |b|;
    if a != [] {
      assert Last(a) in multiset(a);
      var i :| 0 <= i < |b| && b[i] == Last(a);
      SumWithout(b, i);
      WithoutLast(a, b, i);
      SumsOfSameCards(a[..|a| - 1], b[..i] + b[i + 1..]);
    }
  }

  lemma WarrantIgnoresOrder(p: Plan, a: seq<Card>, b: seq<Card>)
    requires multiset(a) == multiset(b)
    ensures Warranted(p, a) <==> Warranted(p, b)
  {
    SumsOfSameCards(a, b);
  }

  // ----- One topic -----

  /** The cards of a cluster are stored, under distinct non-empty ids. */
  predicate Stored(mem: Mem, cluster: seq<Card>) {
    forall c :: c in cluster ==> c.id in mem.cards && c.id != []
  }

  lemma {:induction false} LinkingKeepsCards(p: Plan, world: World, topic: Text, cs: seq<Card>)
    requires WellFormed(world.mem)
    ensures var mem := RunAll(world, LinkOps(p, topic, cs)).mem;
            WellFormed(mem) && mem.cards == world.mem.cards
    decreases |cs|
  {
    if cs != [] {
      LinkingKeepsCards(p, world, topic, cs[..|cs| - 1]);
      var before := RunAll(world, LinkOps(p, topic, cs[..|cs| - 1]));
      var op := Link(EvidenceEdge(p, topic, Last(cs)), p.now);
      RunSnoc(world, LinkOps(p, topic, cs[..|cs| - 1]), op);
      StepKeepsWellFormed(before, op);
      if CreateEdge(before.mem, op.ereq, op.now).Ok? {
        OneWrite(before, PutEdge(CreateEdge(before.mem, op.ereq, op.now).value));
      }
    }
  }

  lemma ArchivingSettles(world: World, cs: seq<Card>, now: Time, id: Id)
    requires WellFormed(world.mem) && Stored(world.mem, cs)
    ensures var mem := RunAll(world, ArchiveOps(cs, now)).mem;
            && WellFormed(mem) && mem.cards.Keys == world.mem.cards.Keys
            && (id in mem.cards ==>
                 && mem.cards[id] != []
                 && (if exists i :: 0 <= i < |cs| && cs[i].id == id then Last(mem.cards[id]).status == Archived
                     else mem.cards[id] == world.mem.cards[id]))
  {
    ArchiveOpsAre(cs, now);
    var ops := ArchiveOps(cs, now);
    forall op | op in ops
      ensures SetsStatus(world.mem, op)
    {
      var i :| 0 <= i < |cs| && op == Update(cs[i].id, StatusOnly(Archived), now);
      assert cs[i] in cs;
    }
    UpdatesSettle(world, ops, id);
    if id in world.mem.cards {
      assert Chain(id, world.mem.cards[id]);
      StatusAfterArchiving([], cs, now, id, Last(world.mem.cards[id]).status);
      assert [] + ops == ops;
    }
  }

  /** The fact card that a topic's cluster gives rise to. */
  function FactCard(p: Plan, topic: Text, cluster: seq<Card>): Card {
    Created(FactRequest(p, topic, cluster), p.now).value
  }

  lemma CreatingAddsTheFact(p: Plan, world: World, topic: Text, cluster: seq<Card>)
    requires WellFormed(world.mem) && Creates(p, world.mem, topic, cluster)
    ensures var after := Step(world, Create(FactRequest(p, topic, cluster), p.now)).mem;
            && WellFormed(after)
            && FactId(p, topic) !in world.mem.cards
            && after.cards == world.mem.cards[FactId(p, topic) := [FactCard(p, topic, cluster)]]
  {
    var op := Create(FactRequest(p, topic, cluster), p.now);
    StepKeepsWellFormed(world, op);
    OneWrite(world, PutCard("card_created", FactCard(p, topic, cluster)));
    assert Get(world.mem.cards, FactId(p, topic)) + [FactCard(p, topic, cluster)] == [FactCard(p, topic, cluster)];
  }

  /** What one topic changes: its fact appears, its sources may be archived, nothing else. */
  ghost predicate TopicChange(p: Plan, before: Mem, topic: Text, cluster: seq<Card>, after: Mem) {
    && WellFormed(after)
    && (if !Creates(p, before, topic, cluster) then after == before
        else
          && FactId(p, topic) !in before.cards
          && after.cards.Keys == before.cards.Keys + {FactId(p, topic)}
          && after.cards[FactId(p, topic)] == [FactCard(p, topic, cluster)]
          && forall id :: id in before.cards ==> SourceOrSame(p, before, cluster, after, id))
  }

  ghost predicate SourceOrSame(p: Plan, before: Mem, cluster: seq<Card>, after: Mem, id: Id)
    requires id in before.cards && id in after.cards
  {
    if p.archive && exists i :: 0 <= i < |cluster| && cluster[i].id == id then
      after.cards[id] != [] && Last(after.cards[id]).status == Archived
    else after.cards[id] == before.cards[id]
  }

  lemma ArchivingSources(p: Plan, world: World, cluster: seq<Card>)
    requires WellFormed(world.mem) && Stored(world.mem, cluster)
    ensures var after := RunAll(world, SourceOps(p, cluster)).mem;
            && WellFormed(after) && after.cards.Keys == world.mem.cards.Keys
            && forall id :: id in world.mem.cards ==> SourceOrSame(p, world.mem, cluster, after, id)
  {
    ArchivingSettles(world, cluster, p.now, []);
    if p.archive {
      forall id | id in world.mem.cards
        ensures SourceOrSame(p, world.mem, cluster, RunAll(world, SourceOps(p, cluster)).mem, id)
      {
        ArchivingSettles(world, cluster, p.now, id);
      }
    }
  }

  lemma TopicOpsInTurn(p: Plan, world: World, topic: Text, cluster: seq<Card>)
    requires Creates(p, world.mem, topic, cluster)
    ensures var w1 := Step(world, Create(FactRequest(p, topic, cluster), p.now));
            RunAll(world, TopicOps(p, world.mem, topic, cluster)) ==
            RunAll(RunAll(w1, LinkOps(p, topic, cluster)), SourceOps(p, cluster))
  {
    var create := Create(FactRequest(p, topic, cluster), p.now);
    RunSnoc(world, [], create);
    assert [] + [create] == [create];
    RunAppend(world, [create], LinkOps(p, topic, cluster));
    RunAppend(world, [create] + LinkOps(p, topic, cluster), SourceOps(p, cluster));
  }

  lemma TopicChanges(p: Plan, world: World, topic: Text, cluster: seq<Card>)
    requires WellFormed(world.mem) && Stored(world.mem, cluster)
    ensures TopicChange(p, world.mem, topic, cluster, RunAll(world, TopicOps(p, world.mem, topic, cluster)).mem)
  {
    if Creates(p, world.mem, topic, cluster) {
      CreatingAddsTheFact(p, world, topic, cluster);
      TopicOpsInTurn(p, world, topic, cluster);
      var w1 := Step(world, Create(FactRequest(p, topic, cluster), p.now));
      LinkingKeepsCards(p, w1, topic, cluster);
      var w2 := RunAll(w1, LinkOps(p, topic, cluster));
      ArchivingSources(p, w2, cluster);
      var w3 := RunAll(w2, SourceOps(p, cluster));
      assert SourceOrSame(p, w2.mem, cluster, w3.mem, FactId(p, topic));
      assert forall i :: 0 <= i < |cluster| ==> cluster[i] in cluster;
      forall id | id in world.mem.cards
        ensures SourceOrSame(p, world.mem, cluster, w3.mem, id)
      {
        assert SourceOrSame(p, w2.mem, cluster, w3.mem, id);
      }
    }
  }

  // ----- All topics -----

  predicate IsEvent(p: Plan, c: Card) {
    c.status == Active && c.cardType == "event" && c.scope == p.scope
  }

  lemma EventIsLatest(mem: Mem, p: Plan, cs: seq<Card>, c: Card)
    requires WellFormed(mem) && CardsOf(mem, EventsQuery(p), cs) && p.scope != []
    ensures c in cs <==> c.id in mem.cards && Last(mem.cards[c.id]) == c && IsEvent(p, c)
  {
    var req := EventsQuery(p);
    if c in cs {
      var i :| 0 <= i < |cs| && cs[i] == c;
      assert cs[i].id in Answers(mem, req);
    }
    if c.id in mem.cards && Last(mem.cards[c.id]) == c && IsEvent(p, c) {
      assert Chain(c.id, mem.cards[c.id]);
      assert c.id in Answers(mem, req);
      var i :| 0 <= i < |cs| && cs[i].id == c.id;
      assert cs[i] in cs;
    }
  }

  /** A card that was there before the upgrade: unchanged, or an archived source of a warranted topic. */
  ghost predicate Kept(p: Plan, start: Mem, cs: seq<Card>, mem: Mem, id: Id)
    requires id in start.cards && id in mem.cards && start.cards[id] != []
  {
    || mem.cards[id] == start.cards[id]
    || (p.archive && mem.cards[id] != [] && Last(mem.cards[id]).status == Archived &&
        Warranted(p, ClusterOf(cs, ExtractTopic(Last(start.cards[id])))))
  }

  /** A card that was not there before: the fact of a warranted topic among those met. */
  ghost predicate NewFact(p: Plan, cs: seq<Card>, met: set<Text>, mem: Mem, id: Id)
    requires id in mem.cards
  {
    exists t :: t in met && id == FactId(p, t) && Warranted(p, ClusterOf(cs, t)) &&
                mem.cards[id] == [FactCard(p, t, ClusterOf(cs, t))]
  }

  ghost predicate Progress(p: Plan, start: Mem, cs: seq<Card>, met: set<Text>, mem: Mem)
    requires WellFormed(start)
  {
    && WellFormed(mem) && start.cards.Keys <= mem.cards.Keys
    && (forall id :: id in start.cards ==> start.cards[id] != [] && Kept(p, start, cs, mem, id))
    && (forall id :: id in mem.cards && id !in start.cards ==> NewFact(p, cs, met, mem, id))
    && (forall t :: t in met && Warranted(p, ClusterOf(cs, t)) ==> FactId(p, t) in mem.cards)
  }

  lemma ClusterIsStored(p: Plan, start: Mem, cs: seq<Card>, t: Text)
    requires WellFormed(start) && CardsOf(start, EventsQuery(p), cs) && p.scope != []
    ensures forall c :: c in ClusterOf(cs, t) ==>
              c.id in start.cards && c.id != [] && Last(start.cards[c.id]) == c && ExtractTopic(c) == t && IsEvent(p, c)
  {
    ClusterMembers(cs, t);
    forall c | c in ClusterOf(cs, t)
      ensures c.id in start.cards && Last(start.cards[c.id]) == c && IsEvent(p, c)
    {
      EventIsLatest(start, p, cs, c);
    }
  }

  lemma KeptStep(p: Plan, start: Mem, cs: seq<Card>, mem: Mem, t: Text, after: Mem, id: Id)
    requires WellFormed(start) && CardsOf(start, EventsQuery(p), cs) && p.scope != []
    requires id in start.cards && id in mem.cards && start.cards[id] != [] && Kept(p, start, cs, mem, id)
    requires TopicChange(p, mem, t, ClusterOf(cs, t), after)
    ensures id in after.cards && Kept(p, start, cs, after, id)
  {
    var cluster := ClusterOf(cs, t);
    if Creates(p, mem, t, cluster) {
      ClusterIsStored(p, start, cs, t);
      assert SourceOrSame(p, mem, cluster, after, id);
      if i :| 0 <= i < |cluster| && cluster[i].id == id {
        assert cluster[i] in cluster;
      }
    }
  }

  /** A card that is new is no source, and stays as it is. */
  lemma NewCardStays(p: Plan, start: Mem, cs: seq<Card>, mem: Mem, t: Text, after: Mem, id: Id)
    requires WellFormed(start) && CardsOf(start, EventsQuery(p), cs) && p.scope != []
    requires id !in start.cards && id in mem.cards && TopicChange(p, mem, t, ClusterOf(cs, t), after)
    ensures id in after.cards && after.cards[id] == mem.cards[id]
  {
    var cluster := ClusterOf(cs, t);
    if Creates(p, mem, t, cluster) {
      ClusterIsStored(p, start, cs, t);
      assert forall i :: 0 <= i < |cluster| ==> cluster[i] in cluster;
      assert SourceOrSame(p, mem, cluster, after, id);
    }
  }

  lemma NewFactStep(p: Plan, start: Mem, cs: seq<Card>, met: set<Text>, mem: Mem, t: Text, after: Mem, id: Id)
    requires WellFormed(start) && CardsOf(start, EventsQuery(p), cs) && p.scope != []
    requires id !in start.cards && (id in mem.cards ==> NewFact(p, cs, met, mem, id))
    requires TopicChange(p, mem, t, ClusterOf(cs, t), after) && id in after.cards
    ensures NewFact(p, cs, met + {t}, after, id)
  {
    var cluster := ClusterOf(cs, t);
    if id in mem.cards {
      var u :| u in met && id == FactId(p, u) && Warranted(p, ClusterOf(cs, u)) &&
               mem.cards[id] == [FactCard(p, u, ClusterOf(cs, u))];
      NewCardStays(p, start, cs, mem, t, after, id);
      assert u in met + {t};
    } else {
      assert t in met + {t};
    }
  }

  lemma ProgressStep(p: Plan, start: Mem, cs: seq<Card>, met: set<Text>, mem: Mem, t: Text, after: Mem)
    requires WellFormed(start) && CardsOf(start, EventsQuery(p), cs) && p.scope != []
    requires Progress(p, start, cs, met, mem) && TopicChange(p, mem, t, ClusterOf(cs, t), after)
    ensures Progress(p, start, cs, met + {t}, after)
  {
    forall id | id in start.cards
      ensures id in after.cards && Kept(p, start, cs, after, id)
    {
      KeptStep(p, start, cs, mem, t, after, id);
    }
    forall id | id in after.cards && id !in start.cards
      ensures NewFact(p, cs, met + {t}, after, id)
    {
      NewFactStep(p, start, cs, met, mem, t, after, id);
    }
  }

  lemma ProgressBegins(p: Plan, start: Mem, cs: seq<Card>)
    requires WellFormed(start)
    ensures Progress(p, start, cs, {}, start)
  {
    assert forall id :: id in start.cards ==> Chain(id, start.cards[id]);
  }

  lemma ProgressTurn(p: Plan, start: Mem, cs: seq<Card>, met: set<Text>, before: World, t: Text)
    requires WellFormed(start) && CardsOf(start, EventsQuery(p), cs) && p.scope != []
    requires Progress(p, start, cs, met, before.mem)
    ensures Progress(p, start, cs, met + {t}, RunAll(before, TopicOps(p, before.mem, t, ClusterOf(cs, t))).mem)
  {
    ClusterIsStored(p, start, cs, t);
    TopicChanges(p, before, t, ClusterOf(cs, t));
    ProgressStep(p, start, cs, met, before.mem, t, RunAll(before, TopicOps(p, before.mem, t, ClusterOf(cs, t))).mem);
  }

  lemma ElementsSnoc<T>(s: seq<T>)
    requires s != []
    ensures Elements(s) == Elements(s[..|s| - 1]) + {Last(s)}
  {
    assert s == s[..|s| - 1] + [Last(s)];
  }

  /** Every topic of a run, in any order. */
  lemma {:induction false} UpgradeProgresses(p: Plan, world: World, cs: seq<Card>, order: seq<Text>)
    requires WellFormed(world.mem) && CardsOf(world.mem, EventsQuery(p), cs) && p.scope != []
    ensures Progress(p, world.mem, cs, Elements(order), UpgradeTopics(p, world, cs, order).mem)
    decreases |order|
  {
    if order == [] {
      ProgressBegins(p, world.mem, cs);
      assert Elements(order) == {};
    } else {
      UpgradeProgresses(p, world, cs, order[..|order| - 1]);
      ProgressTurn(p, world.mem, cs, Elements(order[..|order| - 1]), UpgradeTopics(p, world, cs, order[..|order| - 1]),
        Last(order));
      ElementsSnoc(order);
    }
  }

  /** A candidate fact that cites, once each, enough events that were active in the scope and had the topic. */
  ghost predicate FactOf(p: Plan, start: Mem, t: Text, fact: Card) {
    && fact.status == Candidate && fact.cardType == "fact" && fact.scope == p.scope
    && |fact.evidence| >= p.minOccurrences
    && (forall i :: 0 <= i < |fact.evidence| ==> Cites(p, start, t, fact.evidence[i].cardId))
    && (forall i, j :: 0 <= i < j < |fact.evidence| ==> fact.evidence[i].cardId != fact.evidence[j].cardId)
  }

  lemma FactCardIsFactOf(p: Plan, start: Mem, cs: seq<Card>, t: Text)
    requires WellFormed(start) && CardsOf(start, EventsQuery(p), cs) && p.scope != []
    requires Warranted(p, ClusterOf(cs, t))
    ensures FactOf(p, start, t, FactCard(p, t, ClusterOf(cs, t)))
  {
    var cluster := ClusterOf(cs, t);
    var fact := FactCard(p, t, cluster);
    ClusterIsStored(p, start, cs, t);
    ClusterIsDistinct(cs, t);
    assert fact.evidence == Citations(cluster);
    forall i | 0 <= i < |fact.evidence|
      ensures Cites(p, start, t, fact.evidence[i].cardId)
    {
      assert cluster[i] in cluster;
      assert Chain(cluster[i].id, start.cards[cluster[i].id]);
    }
  }

  /**
   Every card an upgrade adds is the candidate fact of one topic; it cites, once each, at least the
   required number of events that were active in the scope and had that topic.
   */
  lemma FactsAreWarranted(p: Plan, world: World, cs: seq<Card>, order: seq<Text>, id: Id)
    requires WellFormed(world.mem) && CardsOf(world.mem, EventsQuery(p), cs) && p.scope != []
    requires var mem := UpgradeTopics(p, world, cs, order).mem; id in mem.cards && id !in world.mem.cards
    ensures exists t, fact ::
              t in order && UpgradeTopics(p, world, cs, order).mem.cards[id] == [fact] && FactOf(p, world.mem, t, fact)
  {
    UpgradeProgresses(p, world, cs, order);
    var mem := UpgradeTopics(p, world, cs, order).mem;
    assert NewFact(p, cs, Elements(order), mem, id);
    var t :| t in Elements(order) && id == FactId(p, t) && Warranted(p, ClusterOf(cs, t)) &&
             mem.cards[id] == [FactCard(p, t, ClusterOf(cs, t))];
    FactCardIsFactOf(p, world.mem, cs, t);
    assert t in order;
  }

  predicate Cites(p: Plan, mem: Mem, t: Text, id: Id) {
    Get(mem.cards, id) != [] && IsEvent(p, Last(mem.cards[id])) && ExtractTopic(Last(mem.cards[id])) == t
  }

  lemma {:induction false} ClusterIsDistinct(cs: seq<Card>, t: Text)
    requires DistinctIds(cs)
    ensures DistinctIds(ClusterOf(cs, t))
    decreases |cs|
  {
    if cs != [] {
      var init := cs[..|cs| - 1];
      ClusterIsDistinct(init, t);
      ClusterMembers(init, t);
      var c := ClusterOf(init, t);
      forall i | 0 <= i < |c|
        ensures c[i].id != Last(cs).id
      {
        assert c[i] in c && c[i] in init;
      }
    }
  }

  // ----- A second run -----

  lemma NewFactsAreCandidates(p: Plan, start: Mem, cs: seq<Card>, met: set<Text>, mem: Mem)
    requires WellFormed(start) && Progress(p, start, cs, met, mem)
    ensures forall id :: id in mem.cards && id !in start.cards ==>
                           mem.cards[id] != [] && Last(mem.cards[id]).status == Candidate
  {
    forall id | id in mem.cards && id !in start.cards
      ensures mem.cards[id] != [] && Last(mem.cards[id]).status == Candidate
    {
      assert NewFact(p, cs, met, mem, id);
    }
  }

  /** An event found by a second run was found by the first, and is unchanged. */
  lemma StillActiveWasActive(p: Plan, start: Mem, cs: seq<Card>, met: set<Text>, mem: Mem, again: seq<Card>, c: Card)
    requires WellFormed(start) && CardsOf(start, EventsQuery(p), cs) && p.scope != []
    requires Progress(p, start, cs, met, mem) && CardsOf(mem, EventsQuery(p), again)
    ensures c in again ==> c in cs
    ensures c in cs && !Warranted(p, ClusterOf(cs, ExtractTopic(c))) ==> c in again
  {
    EventIsLatest(start, p, cs, c);
    EventIsLatest(mem, p, again, c);
    NewFactsAreCandidates(p, start, cs, met, mem);
    if c in again {
      assert Kept(p, start, cs, mem, c.id);
    }
    if c in cs && !Warranted(p, ClusterOf(cs, ExtractTopic(c))) {
      assert Kept(p, start, cs, mem, c.id);
    }
  }

  lemma NoCardTwice(cs: seq<Card>, c: Card)
    requires DistinctIds(cs)
    ensures multiset(cs)[c] == (if c in cs then 1 else 0)
  {
    OnceInMultiset(cs, c);
    assert c in cs <==> c in multiset(cs);
  }

  /** A topic that was not warranted in the first run has the same cards, and no warrant, in the second. */
  lemma UnwarrantedStaysSo(p: Plan, start: Mem, cs: seq<Card>, met: set<Text>, mem: Mem, again: seq<Card>, t: Text)
    requires WellFormed(start) && CardsOf(start, EventsQuery(p), cs) && p.scope != []
    requires Progress(p, start, cs, met, mem) && CardsOf(mem, EventsQuery(p), again)
    requires !Warranted(p, ClusterOf(cs, t))
    ensures !Warranted(p, ClusterOf(again, t))
  {
    forall c
      ensures multiset(ClusterOf(again, t))[c] == multiset(ClusterOf(cs, t))[c]
    {
      StillActiveWasActive(p, start, cs, met, mem, again, c);
      ClusterCounts(cs, ExtractTopic, t, c);
      ClusterCounts(again, ExtractTopic, t, c);
      NoCardTwice(cs, c);
      NoCardTwice(again, c);
    }
    WarrantIgnoresOrder(p, ClusterOf(again, t), ClusterOf(cs, t));
  }

  lemma {:induction false} NothingLeftToCreate(p: Plan, world: World, again: seq<Card>, order: seq<Text>)
    requires forall t :: t in order ==> !Creates(p, world.mem, t, ClusterOf(again, t))
    ensures UpgradeTopics(p, world, again, order) == world
    decreases |order|
  {
    if order != [] {
      assert Last(order) in order;
      assert forall t :: t in order[..|order| - 1] ==> t in order;
      NothingLeftToCreate(p, world, again, order[..|order| - 1]);
    }
  }

  /** A topic met by the first run creates nothing more: its fact is there, or its cluster does not warrant one. */
  lemma TopicIsSettled(p: Plan, start: Mem, cs: seq<Card>, met: set<Text>, mem: Mem, again: seq<Card>, t: Text)
    requires WellFormed(start) && CardsOf(start, EventsQuery(p), cs) && p.scope != []
    requires Progress(p, start, cs, met, mem) && CardsOf(mem, EventsQuery(p), again)
    requires TopicsOf(cs) <= met && t in TopicsOf(again)
    ensures !Creates(p, mem, t, ClusterOf(again, t))
  {
    var c :| c in again && ExtractTopic(c) == t && t != [];
    StillActiveWasActive(p, start, cs, met, mem, again, c);
    assert t in TopicsOf(cs);
    if Warranted(p, ClusterOf(cs, t)) {
      assert FactId(p, t) in mem.cards;
      assert Chain(FactId(p, t), mem.cards[FactId(p, t)]);
    } else {
      UnwarrantedStaysSo(p, start, cs, met, mem, again, t);
    }
  }

  /** The instant of the call decides nothing. */
  lemma SettledLater(p: Plan, mem: Mem, t: Text, cluster: seq<Card>, later: Time)
    ensures Creates(p.(now := later), mem, t, cluster) <==> Creates(p, mem, t, cluster)
  {
  }

  /**
   A second run of the same request does nothing at all, at whatever later instant, with or without archiving,
   whatever order either run finds the cards and meets the topics in, and even if two topics share a digest.
   */
  lemma UpgradeIsIdempotent(p: Plan, world: World, cs: seq<Card>, order: seq<Text>, again: seq<Card>, order2: seq<Text>,
    later: Time)
    requires WellFormed(world.mem) && CardsOf(world.mem, EventsQuery(p), cs) && p.scope != []
    requires TopicsOf(cs) <= Elements(order)
    requires CardsOf(UpgradeAll(p, world, cs, order).mem, EventsQuery(p), again)
    requires Elements(order2) <= TopicsOf(again)
    ensures UpgradeAll(p.(now := later), UpgradeAll(p, world, cs, order), again, order2) ==
            UpgradeAll(p, world, cs, order)
  {
    if |cs| < p.minOccurrences {
      SameNumberFound(world.mem, EventsQuery(p), cs, again);
    } else {
      var after := UpgradeTopics(p, world, cs, order);
      UpgradeProgresses(p, world, cs, order);
      forall t | t in order2
        ensures !Creates(p.(now := later), after.mem, t, ClusterOf(again, t))
      {
        assert t in TopicsOf(again);
        TopicIsSettled(p, world.mem, cs, Elements(order), after.mem, again, t);
        SettledLater(p, after.mem, t, ClusterOf(again, t), later);
      }
      NothingLeftToCreate(p.(now := later), after, again, order2);
    }
  }

  lemma SameNumberFound(mem: Mem, req: QueryRequest, a: seq<Card>, b: seq<Card>)
    requires CardsOf(mem, req, a) && CardsOf(mem, req, b)
    ensures |a| == |b|
  {
    forall c
      ensures multiset(a)[c] == multiset(b)[c]
    {
      NoCardTwice(a, c);
      NoCardTwice(b, c);
      if c in a {
        FoundByBoth(mem, req, a, b, c);
      }
      if c in b {
        FoundByBoth(mem, req, b, a, c);
      }
    }
    assert multiset(a) == multiset(b);
    assert |a| == |multiset(a)| == |multiset(b)| == |b|;
  }

  lemma FoundByBoth(mem: Mem, req: QueryRequest, a: seq<Card>, b: seq<Card>, c: Card)
    requires CardsOf(mem, req, a) && CardsOf(mem, req, b) && c in a
    ensures c in b
  {
    var i :| 0 <= i < |a| && a[i] == c;
    var j :| 0 <= j < |b| && b[j].id == a[i].id;
    assert b[j] == c;
  }
}
