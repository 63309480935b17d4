/**
 Cards, edges, the journal and the snapshot files as values, and what one operation of the memory
 store does to them. An operation is a list of writes; a write updates memory, then the snapshot
 file, then the journal.
 */
module MemoryModel {
  import opened Prelude
  import opened Strings
  import opened FileNames

  type Id = Text
  /** An instant, in nanoseconds. */
  type Time = int

  datatype Status = Candidate | Active | Stale | Superseded | Archived

  /** A status as it appears in a request: absent, one of the five, or some other word. */
  datatype StatusArg = Unset | Known(status: Status) | Unsupported

  datatype Value = Str(text: Text) | Num(number: int) | List(items: seq<Text>) | Opaque(tag: int)
  type Content = map<Text, Value>

  datatype EvidenceRef = EvidenceRef(cardId: Id, snippet: Text, hash: Text)
  datatype Provenance = Provenance(agentId: Text, source: Text, confidence: real)
  datatype Activation = Activation(score: real, lastAccess: Option<Time>, lastEval: Option<Time>, policy: Text)

  datatype Card = Card(
    id: Id, cardType: Text, scope: Text, createdAt: Time, validFrom: Option<Time>, validTo: Option<Time>,
    version: nat, prev: Text, status: Status, supersedes: Text, content: Content,
    evidence: seq<EvidenceRef>, provenance: Provenance, activation: Activation)

  datatype Edge = Edge(
    id: Id, src: Id, dst: Id, edgeType: Text, weight: real, confidence: real,
    validFrom: Option<Time>, validTo: Option<Time>, evidence: seq<EvidenceRef>, createdAt: Time)

  datatype CreateCardRequest = CreateCardRequest(
    id: Id, cardType: Text, scope: Text, status: StatusArg, supersedes: Text, validFrom: Option<Time>,
    validTo: Option<Time>, activation: Option<Activation>, content: Content,
    evidence: seq<EvidenceRef>, provenance: Provenance)

  datatype UpdateCardRequest = UpdateCardRequest(
    content: Option<Content>, scope: Text, validFrom: Option<Time>, validTo: Option<Time>, status: StatusArg,
    supersedes: Text, evidence: Option<seq<EvidenceRef>>, provenance: Provenance)

  datatype CreateEdgeRequest = CreateEdgeRequest(
    id: Id, src: Id, dst: Id, edgeType: Text, weight: real, confidence: real,
    validFrom: Option<Time>, validTo: Option<Time>, evidence: seq<EvidenceRef>)

  datatype MemoryError = NotFound | AlreadyExists | InvalidArgument

  /** The three maps of a store. */
  datatype Mem = Mem(cards: map<Id, seq<Card>>, edges: map<Id, Edge>, index: map<Id, seq<Id>>)

  const EMPTY := Mem(map[], map[], map[])

  datatype Event = Event(
    eventType: Text, entityId: Id, entityType: Text, version: nat,
    cardSnapshot: Option<seq<Card>>, edgeSnapshot: Option<Edge>)

  datatype Disk = Disk(cardFiles: map<Text, seq<Card>>, edgeFiles: map<Text, Edge>, journal: seq<Event>)

  /** Memory together with the directory behind it; a store without a directory never writes. */
  datatype World = World(mem: Mem, disk: Disk, persistent: bool)

  const FRESH := World(EMPTY, Disk(map[], map[], []), true)

  // ----- Cards -----

  function ClampUnit(x: real): real {
    if x < 0.0 then 0.0 else if x > 1.0 then 1.0 else x
  }

  function VersionRef(id: Id, version: nat): Text {
    id + "#v" + Decimal(version)
  }

  /** The next version of a card, before any field is changed. */
  function Successor(latest: Card): Card {
    latest.(version := latest.version + 1, prev := VersionRef(latest.id, latest.version))
  }

  function Created(req: CreateCardRequest, now: Time): Result<Card, MemoryError> {
    if req.id == [] || req.cardType == [] || req.status.Unsupported? then Err(InvalidArgument)
    else
      Ok(Card(req.id, req.cardType, req.scope, now, req.validFrom, req.validTo, 1, [],
              if req.status.Known? then req.status.status else Active, req.supersedes, req.content, req.evidence,
              req.provenance,
              match req.activation
              case None => Activation(1.0, None, None, [])
              case Some(a) => a.(score := ClampUnit(a.score))))
  }

  predicate GivesProvenance(p: Provenance) {
    p.agentId != [] || p.source != [] || p.confidence != 0.0
  }

  function Updated(latest: Card, req: UpdateCardRequest, now: Time): Card {
    Successor(latest).(
      validFrom := req.validFrom,
      validTo := req.validTo,
      activation := latest.activation.(lastAccess := Some(now)),
      content := if req.content.Some? then req.content.value else latest.content,
      status := if req.status.Known? then req.status.status else latest.status,
      supersedes := if req.supersedes != [] then req.supersedes else latest.supersedes,
      scope := if req.scope != [] then req.scope else latest.scope,
      evidence := if req.evidence.Some? then req.evidence.value else latest.evidence,
      provenance := if GivesProvenance(req.provenance) then req.provenance else latest.provenance)
  }

  function Touched(latest: Card, activationDelta: real, confidenceDelta: real, now: Time): Card {
    Successor(latest).(
      activation := latest.activation.(lastAccess := Some(now),
        score := ClampUnit(latest.activation.score + activationDelta)),
      provenance := latest.provenance.(confidence := ClampUnit(latest.provenance.confidence + confidenceDelta)))
  }

  // ----- Decay -----

  datatype Governance = Governance(rate: real, staleBelow: real, archiveBelow: real, now: Time)

  /** The options of a pass as given: a zero or negative number, or no instant, asks for the default. */
  function Defaulted(rate: real, staleBelow: real, archiveBelow: real, now: Option<Time>,
    clock: Time): (g: Governance) {
    Governance(if rate <= 0.0 then 0.05 else rate, if staleBelow <= 0.0 then 0.5 else staleBelow,
               if archiveBelow <= 0.0 then 0.1 else archiveBelow, if now.Some? then now.value else clock)
  }

  const NANOS_PER_HOUR: real := 3600000000000.0

  function Hours(d: Time): real {
    d as real / NANOS_PER_HOUR
  }

  function RateFor(policy: Text, base: real): real {
    if policy == "session_use" then base * 5.0
    else if policy == "durable" then base * 0.2
    else if policy == "never" then 0.0
    else base
  }

  predicate Governed(c: Card) {
    c.status == Active || c.status == Stale
  }

  function EvaluatedAt(c: Card): Time {
    if c.activation.lastEval.Some? then c.activation.lastEval.value else c.createdAt
  }

  function DecayAmount(c: Card, g: Governance): real {
    Hours(g.now - EvaluatedAt(c)) * RateFor(c.activation.policy, g.rate)
  }

  /** Time has passed since the last evaluation, and enough to matter. */
  predicate DueForDecay(c: Card, g: Governance) {
    Hours(g.now - EvaluatedAt(c)) > 0.0 &&
    !(DecayAmount(c, g) <= 0.001 && RateFor(c.activation.policy, g.rate) > 0.0)
  }

  function StatusAfterDecay(status: Status, score: real, g: Governance): Status {
    if score < g.archiveBelow && status == Stale then Archived
    else if score < g.staleBelow && status == Active then Stale
    else status
  }

  /** The version a decay pass appends to a card, if it appends one. */
  function Decayed(latest: Card, g: Governance): Option<Card> {
    if !Governed(latest) || !DueForDecay(latest, g) then None
    else
      var score := ClampUnit(latest.activation.score - DecayAmount(latest, g));
      var status := StatusAfterDecay(latest.status, score, g);
      if score < latest.activation.score || status != latest.status then
        Some(Successor(latest).(status := status,
                                activation := latest.activation.(score := score, lastEval := Some(g.now))))
      else None
  }

  /** All versions of a card after a decay pass has met it. */
  function AfterPass(versions: seq<Card>, g: Governance): seq<Card> {
    if versions == [] then []
    else
      match Decayed(Last(versions), g)
      case None => versions
      case Some(c) => versions + [c]
  }

  // ----- Writes -----

  datatype Write = PutCard(event: Text, card: Card) | PutEdge(edge: Edge)

  const CARD_EVENTS: set<Text> := {"card_created", "card_updated", "card_touched", "decay_applied"}

  function Get<V>(m: map<Id, seq<V>>, id: Id): seq<V> {
    if id in m then m[id] else []
  }

  function IndexAdd(index: map<Id, seq<Id>>, card: Id, edge: Id): map<Id, seq<Id>> {
    index[card := Get(index, card) + [edge]]
  }

  function AddCard(mem: Mem, c: Card): Mem {
    mem.(cards := mem.cards[c.id := Get(mem.cards, c.id) + [c]])
  }

  function AddEdge(mem: Mem, e: Edge): Mem {
    mem.(edges := mem.edges[e.id := e], index := IndexAdd(IndexAdd(mem.index, e.src, e.id), e.dst, e.id))
  }

  function Remember(mem: Mem, w: Write): Mem {
    match w
    case PutCard(_, c) => AddCard(mem, c)
    case PutEdge(e) => AddEdge(mem, e)
  }

  /** Writing one snapshot file, before the legacy file is deleted. */
  function Snapshot(disk: Disk, mem: Mem, w: Write): Disk {
    match w
    case PutCard(_, c) => disk.(cardFiles := disk.cardFiles[HexName(c.id) := Get(mem.cards, c.id)])
    case PutEdge(e) => disk.(edgeFiles := disk.edgeFiles[HexName(e.id) := e])
  }

  function Unlinked<V>(files: map<Text, V>, id: Id): map<Text, V> {
    if LegacyName(id) != HexName(id) then files - {LegacyName(id)} else files
  }

  /** Deleting the file left under the legacy name. */
  function DropLegacy(disk: Disk, w: Write): Disk {
    match w
    case PutCard(_, c) => disk.(cardFiles := Unlinked(disk.cardFiles, c.id))
    case PutEdge(e) => disk.(edgeFiles := Unlinked(disk.edgeFiles, e.id))
  }

  function EventOf(mem: Mem, w: Write): Event {
    match w
    case PutCard(event, c) => Event(event, c.id, c.cardType, c.version, Some(Get(mem.cards, c.id)), None)
    case PutEdge(e) => Event("edge_created", e.id, e.edgeType, 0, None, Some(e))
  }

  function Log(disk: Disk, mem: Mem, w: Write): Disk {
    disk.(journal := disk.journal + [EventOf(mem, w)])
  }

  /** A completed write. */
  function Apply(world: World, w: Write): World {
    var mem := Remember(world.mem, w);
    var disk := if world.persistent then Log(DropLegacy(Snapshot(world.disk, mem, w), w), mem, w) else world.disk;
    world.(mem := mem, disk := disk)
  }

  function ApplyAll(world: World, ws: seq<Write>): World
    decreases |ws|
  {
    if ws == [] then world else Apply(ApplyAll(world, ws[..|ws| - 1]), Last(ws))
  }

  // ----- Operations -----

  datatype Op =
    | Create(creq: CreateCardRequest, now: Time)
    | Update(id: Id, ureq: UpdateCardRequest, now: Time)
    | Touch(id: Id, activationDelta: real, confidenceDelta: real, now: Time)
    | Link(ereq: CreateEdgeRequest, now: Time)
      /** A pass that meets the cards in the given order. */
    | Decay(g: Governance, order: seq<Id>)

  function CreateCard(mem: Mem, req: CreateCardRequest, now: Time): Result<Card, MemoryError> {
    if Created(req, now).Ok? && req.id in mem.cards then Err(AlreadyExists) else Created(req, now)
  }

  function UpdateCard(mem: Mem, id: Id, req: UpdateCardRequest, now: Time): Result<Card, MemoryError> {
    if id == [] || req.status.Unsupported? then Err(InvalidArgument)
    else if Get(mem.cards, id) == [] then Err(NotFound)
    else Ok(Updated(Last(mem.cards[id]), req, now))
  }

  function TouchCard(mem: Mem, id: Id, activationDelta: real, confidenceDelta: real, now: Time)
    : Result<Card, MemoryError> {
    if Trim(id) == [] then Err(InvalidArgument)
    else if Get(mem.cards, id) == [] then Err(NotFound)
    else Ok(Touched(Last(mem.cards[id]), activationDelta, confidenceDelta, now))
  }

  function CreateEdge(mem: Mem, req: CreateEdgeRequest, now: Time): Result<Edge, MemoryError> {
    if req.id == [] || req.src == [] || req.dst == [] || req.edgeType == [] then Err(InvalidArgument)
    else if req.id in mem.edges then Err(AlreadyExists)
    else if req.src !in mem.cards || req.dst !in mem.cards then Err(InvalidArgument)
    else Ok(Edge(req.id, req.src, req.dst, req.edgeType, req.weight, req.confidence, req.validFrom, req.validTo,
                 req.evidence, now))
  }

  function CardWrite(event: Text, r: Result<Card, MemoryError>): seq<Write> {
    if r.Ok? then [PutCard(event, r.value)] else []
  }

  function DecayWrite(mem: Mem, g: Governance, id: Id): seq<Write> {
    if Get(mem.cards, id) == [] then []
    else
      match Decayed(Last(mem.cards[id]), g)
      case None => []
      case Some(c) => [PutCard("decay_applied", c)]
  }

  function DecayWrites(mem: Mem, g: Governance, order: seq<Id>): seq<Write> {
    if order == [] then [] else DecayWrites(mem, g, order[..|order| - 1]) + DecayWrite(mem, g, Last(order))
  }

  function Writes(mem: Mem, op: Op): seq<Write> {
    match op
    case Create(req, now) => CardWrite("card_created", CreateCard(mem, req, now))
    case Update(id, req, now) => CardWrite("card_updated", UpdateCard(mem, id, req, now))
    case Touch(id, da, dc, now) => CardWrite("card_touched", TouchCard(mem, id, da, dc, now))
    case Link(req, now) => (match CreateEdge(mem, req, now) case Ok(e) => [PutEdge(e)] case Err(_) => [])
    case Decay(g, order) => DecayWrites(mem, g, order)
  }

  /** A decay pass meets every stored card exactly once, in some order. */
  predicate Visits(mem: Mem, order: seq<Id>) {
    Distinct(order) && Elements(order) == mem.cards.Keys
  }

  predicate Enabled(mem: Mem, op: Op) {
    op.Decay? ==> Visits(mem, op.order)
  }

  function Step(world: World, op: Op): World {
    ApplyAll(world, Writes(world.mem, op))
  }

  function RunAll(world: World, ops: seq<Op>): World {
    if ops == [] then world else Step(RunAll(world, ops[..|ops| - 1]), Last(ops))
  }

  /** Every decay pass in the run meets every card stored at that point once. */
  predicate EnabledAll(world: World, ops: seq<Op>) {
    ops != [] ==>
      EnabledAll(world, ops[..|ops| - 1]) && Enabled(RunAll(world, ops[..|ops| - 1]).mem, Last(ops))
  }

  // ----- Replay -----

  function ReplayEvent(mem: Mem, ev: Event): Mem {
    if ev.eventType in CARD_EVENTS then
      if ev.cardSnapshot.None? || ev.cardSnapshot.value == [] then mem
      else mem.(cards := mem.cards[ev.cardSnapshot.value[0].id := ev.cardSnapshot.value])
    else if ev.eventType == "edge_created" then
      if ev.edgeSnapshot.None? then mem
      else
        var e := ev.edgeSnapshot.value;
        if e.id in mem.edges then mem.(edges := mem.edges[e.id := e]) else AddEdge(mem, e)
    else mem
  }

  /** The store that the journal alone describes. */
  function Replay(journal: seq<Event>): Mem {
    if journal == [] then EMPTY else ReplayEvent(Replay(journal[..|journal| - 1]), Last(journal))
  }
}
