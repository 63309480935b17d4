/** Promotion of candidate cards. */
module Consolidation {
  import opened Prelude
  import opened Strings
  import opened Sorting
  import opened MemoryModel
  import opened MemoryInvariant
  import opened MemoryJournal
  import opened MemoryQuery
  import opened MemoryStore

  datatype ConsolidateRequest = ConsolidateRequest(cardType: Text, scope: Text, limit: int, archiveRemaining: bool)

  datatype ConsolidateResult = ConsolidateResult(
    examined: nat, promoted: nat, superseded: nat, archived: nat,
    promotedCards: seq<Id>, supersededCards: seq<Id>, archivedCards: seq<Id>)

  const NO_PROVENANCE := Provenance([], [], 0.0)

  function StatusOnly(s: Status): UpdateCardRequest {
    UpdateCardRequest(None, [], None, None, Known(s), [], None, NO_PROVENANCE)
  }

  function Promotion(c: Card): UpdateCardRequest {
    UpdateCardRequest(Some(c.content), c.scope, None, None, Known(Active), [], Some(c.evidence), c.provenance)
  }

  function CandidatesQuery(req: ConsolidateRequest): QueryRequest {
    QueryRequest([], Trim(req.cardType), Trim(req.scope), Known(Candidate), None)
  }

  /** How many of `n` candidates are promoted. */
  function Limit(limit: int, n: nat): nat {
    if limit <= 0 || limit > n then n else limit
  }

  /** The card a candidate replaces, or nothing. */
  function Target(c: Card): Id {
    Trim(c.supersedes)
  }

  function PromoteOne(c: Card, now: Time): seq<Op> {
    [Update(c.id, Promotion(c), now)] +
      (if Target(c) != [] then [Update(Target(c), StatusOnly(Superseded), now)] else [])
  }

  function PromoteOps(cs: seq<Card>, now: Time): seq<Op> {
    if cs == [] then [] else PromoteOps(cs[..|cs| - 1], now) + PromoteOne(Last(cs), now)
  }

  function ArchiveOps(cs: seq<Card>, now: Time): seq<Op> {
    if cs == [] then [] else ArchiveOps(cs[..|cs| - 1], now) + [Update(Last(cs).id, StatusOnly(Archived), now)]
  }

  /** The updates of a whole consolidation of the candidates `cs`, oldest first. */
  function ConsolidateOps(cs: seq<Card>, req: ConsolidateRequest, now: Time): seq<Op> {
    var limit := Limit(req.limit, |cs|);
    PromoteOps(cs[..limit], now) + (if req.archiveRemaining then ArchiveOps(cs[limit..], now) else [])
  }

  // ----- Runs of status updates -----

  lemma {:induction false} RunAppend(world: World, ops: seq<Op>, more: seq<Op>)
    ensures RunAll(world, ops + more) == RunAll(RunAll(world, ops), more)
    decreases |more|
  {
    if more == [] {
      assert ops + more == ops;
    } else {
      var all := ops + more;
      assert all[..|all| - 1] == ops + more[..|more| - 1];
      RunAppend(world, ops, more[..|more| - 1]);
    }
  }

  lemma RunSnoc(world: World, ops: seq<Op>, op: Op)
    ensures RunAll(world, ops + [op]) == Step(RunAll(world, ops), op)
  {
    assert (ops + [op])[..|ops + [op]| - 1] == ops;
  }

  /** What an update keeps of the card it is applied to. */
  predicate SameSubstance(a: Card, b: Card) {
    a.id == b.id && a.cardType == b.cardType && a.scope == b.scope && a.content == b.content &&
    a.evidence == b.evidence && a.supersedes == b.supersedes && a.createdAt == b.createdAt &&
    a.provenance == b.provenance && a.activation.score == b.activation.score
  }

  /** The request repeats the content, scope and evidence of the card, or leaves them out. */
  predicate Repeats(c: Card, req: UpdateCardRequest) {
    && req.supersedes == []
    && (req.content.Some? ==> req.content.value == c.content)
    && (req.scope != [] ==> req.scope == c.scope)
    && (req.evidence.Some? ==> req.evidence.value == c.evidence)
    && (GivesProvenance(req.provenance) ==> req.provenance == c.provenance)
  }

  /** The update gives the card a status and otherwise repeats what the card already says. */
  predicate SetsStatus(mem: Mem, op: Op) {
    && op.Update? && op.id != [] && op.ureq.status.Known?
    && (Get(mem.cards, op.id) != [] ==> Repeats(Last(mem.cards[op.id]), op.ureq))
    && op.ureq.supersedes == []
  }

  predicate Targets(op: Op, id: Id) {
    op.Update? && op.id == id && op.ureq.status.Known?
  }

  /** The status a card has after the updates: that of the last one aimed at it, else its own. */
  function StatusAfter(ops: seq<Op>, id: Id, before: Status): Status {
    if ops == [] then before
    else if Targets(Last(ops), id) then Last(ops).ureq.status.status
    else StatusAfter(ops[..|ops| - 1], id, before)
  }

  /** The card's history after the updates. */
  ghost predicate Settled(before: seq<Card>, after: seq<Card>, ops: seq<Op>, id: Id)
    requires before != []
  {
    && before <= after && after != []
    && SameSubstance(Last(before), Last(after))
    && Last(after).status == StatusAfter(ops, id, Last(before).status)
    && ((forall op :: op in ops ==> !Targets(op, id)) ==> after == before)
  }

  lemma UpdateStep(world: World, op: Op, id: Id)
    requires WellFormed(world.mem) && op.Update? && op.id != [] && op.ureq.status.Known?
    ensures var after := Step(world, op).mem;
            && WellFormed(after) && after.cards.Keys == world.mem.cards.Keys
            && after.edges == world.mem.edges && after.index == world.mem.index
            && (id in world.mem.cards ==>
                 after.cards[id] ==
                   (if Targets(op, id) then world.mem.cards[id] + [Updated(Last(world.mem.cards[id]), op.ureq, op.now)]
                    else world.mem.cards[id]))
  {
    StepKeepsWellFormed(world, op);
    if op.id in world.mem.cards {
      var versions := world.mem.cards[op.id];
      assert Follows(op.id, versions, |versions| - 1);
      OneWrite(world, PutCard("card_updated", Updated(Last(versions), op.ureq, op.now)));
    } else {
      assert Writes(world.mem, op) == [];
    }
  }

  lemma SettleOne(before: seq<Card>, mid: seq<Card>, init: seq<Op>, op: Op, id: Id)
    requires before != [] && mid != [] && Settled(before, mid, init, id)
    requires Targets(op, id) && Repeats(Last(before), op.ureq)
    ensures Settled(before, mid + [Updated(Last(mid), op.ureq, op.now)], init + [op], id)
  {
    var ops := init + [op];
    assert Last(ops) == op && op in ops;
  }

  lemma SettleOther(before: seq<Card>, mid: seq<Card>, init: seq<Op>, op: Op, id: Id)
    requires before != [] && Settled(before, mid, init, id) && !Targets(op, id)
    ensures Settled(before, mid, init + [op], id)
  {
    var ops := init + [op];
    assert Last(ops) == op && ops[..|ops| - 1] == init;
    assert forall o :: o in init ==> o in ops;
  }

  lemma {:induction false} UpdatesSettle(world: World, ops: seq<Op>, id: Id)
    requires WellFormed(world.mem)
    requires forall op :: op in ops ==> SetsStatus(world.mem, op)
    ensures var mem := RunAll(world, ops).mem;
            && WellFormed(mem) && mem.cards.Keys == world.mem.cards.Keys && mem.edges == world.mem.edges
            && (id in mem.cards ==> Settled(world.mem.cards[id], mem.cards[id], ops, id))
    decreases |ops|
  {
    if ops != [] {
      var init, op := ops[..|ops| - 1], Last(ops);
      assert ops == init + [op] && op in ops && SetsStatus(world.mem, op);
      UpdatesSettle(world, init, id);
      UpdateStep(RunAll(world, init), op, id);
      if id in world.mem.cards {
        assert Chain(id, world.mem.cards[id]);
        if Targets(op, id) {
          SettleOne(world.mem.cards[id], RunAll(world, init).mem.cards[id], init, op, id);
        } else {
          SettleOther(world.mem.cards[id], RunAll(world, init).mem.cards[id], init, op, id);
        }
      }
    }
  }

  // ----- The candidates of one consolidation -----

  /** `cs` are the candidates a consolidation examines, oldest first. */
  ghost predicate Candidates(mem: Mem, req: ConsolidateRequest, cs: seq<Card>) {
    CardsOf(mem, CandidatesQuery(req), cs) && Sorted(cs, OlderEq)
  }

  lemma CandidateIsLatest(mem: Mem, req: ConsolidateRequest, cs: seq<Card>, i: nat)
    requires WellFormed(mem) && Candidates(mem, req, cs) && i < |cs|
    ensures cs[i].id in mem.cards && Last(mem.cards[cs[i].id]) == cs[i] && cs[i].status == Candidate && cs[i].id != []
  {
    assert cs[i].id in Answers(mem, CandidatesQuery(req));
  }

  /** The latest version of a card, if it is a candidate of the type and scope asked for. */
  predicate IsCandidate(mem: Mem, req: ConsolidateRequest, c: Card) {
    && c.id in mem.cards && mem.cards[c.id] != [] && Last(mem.cards[c.id]) == c && c.status == Candidate
    && (Trim(req.cardType) != [] ==> c.cardType == Trim(req.cardType))
    && (Trim(req.scope) != [] ==> c.scope == Trim(req.scope))
  }

  /** Oldest first, and by id if they are of one age. */
  predicate BeforeInAge(a: Card, b: Card) {
    a.createdAt < b.createdAt || (a.createdAt == b.createdAt && a.id != b.id && TextLeq(a.id, b.id))
  }

  /** Which candidates are examined, in which order, and how many of them are promoted. */
  lemma CandidatesAre(mem: Mem, req: ConsolidateRequest, cs: seq<Card>)
    requires WellFormed(mem) && Candidates(mem, req, cs)
    ensures forall c :: c in cs <==> IsCandidate(mem, req, c)
    ensures forall i, j :: 0 <= i < j < |cs| ==> BeforeInAge(cs[i], cs[j])
    ensures Limit(req.limit, |cs|) == if 0 < req.limit < |cs| then req.limit else |cs|
  {
    forall c
      ensures c in cs <==> IsCandidate(mem, req, c)
    {
      if c in cs {
        var i :| 0 <= i < |cs| && cs[i] == c;
        CandidateIsLatest(mem, req, cs, i);
        assert cs[i].id in Answers(mem, CandidatesQuery(req));
      }
      if IsCandidate(mem, req, c) {
        assert Chain(c.id, mem.cards[c.id]);
        assert c.id in Answers(mem, CandidatesQuery(req));
        var i :| 0 <= i < |cs| && cs[i].id == c.id;
        assert cs[i] in cs;
      }
    }
  }

  lemma {:induction false} PromoteOpsAre(cs: seq<Card>, now: Time)
    ensures forall op :: op in PromoteOps(cs, now) ==>
              exists i :: 0 <= i < |cs| && op in PromoteOne(cs[i], now)
    decreases |cs|
  {
    if cs != [] {
      PromoteOpsAre(cs[..|cs| - 1], now);
      forall op | op in PromoteOps(cs, now)
        ensures exists i :: 0 <= i < |cs| && op in PromoteOne(cs[i], now)
      {
        if op in PromoteOps(cs[..|cs| - 1], now) {
          var i :| 0 <= i < |cs| - 1 && op in PromoteOne(cs[..|cs| - 1][i], now);
          assert op in PromoteOne(cs[i], now);
        } else {
          assert op in PromoteOne(cs[|cs| - 1], now);
        }
      }
    }
  }

  lemma {:induction false} ArchiveOpsAre(cs: seq<Card>, now: Time)
    ensures forall op :: op in ArchiveOps(cs, now) ==>
              exists i :: 0 <= i < |cs| && op == Update(cs[i].id, StatusOnly(Archived), now)
    decreases |cs|
  {
    if cs != [] {
      ArchiveOpsAre(cs[..|cs| - 1], now);
      forall op | op in ArchiveOps(cs, now)
        ensures exists i :: 0 <= i < |cs| && op == Update(cs[i].id, StatusOnly(Archived), now)
      {
        if op in ArchiveOps(cs[..|cs| - 1], now) {
          var i :| 0 <= i < |cs| - 1 && op == Update(cs[..|cs| - 1][i].id, StatusOnly(Archived), now);
          assert op == Update(cs[i].id, StatusOnly(Archived), now);
        } else {
          assert op == Update(cs[|cs| - 1].id, StatusOnly(Archived), now);
        }
      }
    }
  }

  lemma PromoteOneSetsStatus(mem: Mem, req: ConsolidateRequest, cs: seq<Card>, i: nat, now: Time, op: Op)
    requires WellFormed(mem) && Candidates(mem, req, cs) && i < |cs| && op in PromoteOne(cs[i], now)
    ensures SetsStatus(mem, op)
  {
    CandidateIsLatest(mem, req, cs, i);
  }

  lemma OpsSetStatus(mem: Mem, req: ConsolidateRequest, cs: seq<Card>, now: Time)
    requires WellFormed(mem) && Candidates(mem, req, cs)
    ensures forall op :: op in ConsolidateOps(cs, req, now) ==> SetsStatus(mem, op)
  {
    var limit := Limit(req.limit, |cs|);
    PromoteOpsAre(cs[..limit], now);
    ArchiveOpsAre(cs[limit..], now);
    forall op | op in ConsolidateOps(cs, req, now)
      ensures SetsStatus(mem, op)
    {
      if op in PromoteOps(cs[..limit], now) {
        var i :| 0 <= i < limit && op in PromoteOne(cs[..limit][i], now);
        assert cs[..limit][i] == cs[i];
        PromoteOneSetsStatus(mem, req, cs, i, now, op);
      } else {
        var i :| 0 <= i < |cs[limit..]| && op == Update(cs[limit..][i].id, StatusOnly(Archived), now);
        CandidateIsLatest(mem, req, cs, limit + i);
      }
    }
  }

  // ----- Who ends with which status -----

  predicate NamedFrom(cs: seq<Card>, k: nat, id: Id) {
    exists j :: k <= j < |cs| && Trim(cs[j].supersedes) == id
  }

  predicate DistinctIds(cs: seq<Card>) {
    forall i, j :: 0 <= i < j < |cs| ==> cs[i].id != cs[j].id
  }

  lemma StatusAfterAppend(ops: seq<Op>, op: Op, id: Id, before: Status)
    ensures StatusAfter(ops + [op], id, before) ==
            (if Targets(op, id) then op.ureq.status.status else StatusAfter(ops, id, before))
  {
    assert (ops + [op])[..|ops + [op]| - 1] == ops;
  }

  lemma StatusAfterPromoteOne(ops: seq<Op>, c: Card, now: Time, id: Id, before: Status)
    requires id != []
    ensures StatusAfter(ops + PromoteOne(c, now), id, before) ==
            (if Target(c) == id then Superseded else if c.id == id then Active else StatusAfter(ops, id, before))
  {
    var first := Update(c.id, Promotion(c), now);
    StatusAfterAppend(ops, first, id, before);
    if Target(c) != [] {
      var second := Update(Target(c), StatusOnly(Superseded), now);
      StatusAfterAppend(ops + [first], second, id, before);
      assert ops + PromoteOne(c, now) == ops + [first] + [second];
    } else {
      assert ops + PromoteOne(c, now) == ops + [first];
    }
  }

  lemma NamedSnoc(cs: seq<Card>, k: nat, id: Id)
    requires cs != [] && k < |cs|
    ensures NamedFrom(cs, k, id) <==> Target(Last(cs)) == id || NamedFrom(cs[..|cs| - 1], k, id)
  {
    var init := cs[..|cs| - 1];
    if NamedFrom(cs, k, id) && Target(Last(cs)) != id {
      var j :| k <= j < |cs| && Target(cs[j]) == id;
      assert Target(init[j]) == id;
    }
    if NamedFrom(init, k, id) {
      var j :| k <= j < |init| && Target(init[j]) == id;
      assert Target(cs[j]) == id;
    }
    if Target(Last(cs)) == id {
      assert Target(cs[|cs| - 1]) == id;
    }
  }

  /** After the promotions, in terms of who names whom. */
  lemma {:induction false} StatusAfterPromotions(cs: seq<Card>, now: Time, id: Id, before: Status)
    requires DistinctIds(cs) && id != []
    ensures forall i :: 0 <= i < |cs| && cs[i].id == id ==>
              StatusAfter(PromoteOps(cs, now), id, before) == (if NamedFrom(cs, i, id) then Superseded else Active)
    ensures (forall i :: 0 <= i < |cs| ==> cs[i].id != id) ==>
              StatusAfter(PromoteOps(cs, now), id, before) == (if NamedFrom(cs, 0, id) then Superseded else before)
    decreases |cs|
  {
    if cs != [] {
      var init, c := cs[..|cs| - 1], Last(cs);
      StatusAfterPromotions(init, now, id, before);
      StatusAfterPromoteOne(PromoteOps(init, now), c, now, id, before);
      NamedSnoc(cs, 0, id);
      forall i | 0 <= i < |cs| && cs[i].id == id
        ensures StatusAfter(PromoteOps(cs, now), id, before) == (if NamedFrom(cs, i, id) then Superseded else Active)
      {
        NamedSnoc(cs, i, id);
        if i < |init| {
          assert init[i].id == id;
        } else {
          assert !NamedFrom(init, i, id);
        }
      }
    }
  }

  lemma {:induction false} StatusAfterArchiving(ops: seq<Op>, cs: seq<Card>, now: Time, id: Id, before: Status)
    ensures StatusAfter(ops + ArchiveOps(cs, now), id, before) ==
            (if exists i :: 0 <= i < |cs| && cs[i].id == id then Archived else StatusAfter(ops, id, before))
    decreases |cs|
  {
    if cs == [] {
      assert ops + ArchiveOps(cs, now) == ops;
    } else {
      var init, c := cs[..|cs| - 1], Last(cs);
      var op := Update(c.id, StatusOnly(Archived), now);
      StatusAfterArchiving(ops, init, now, id, before);
      assert ops + ArchiveOps(cs, now) == ops + ArchiveOps(init, now) + [op];
      StatusAfterAppend(ops + ArchiveOps(init, now), op, id, before);
      if i :| 0 <= i < |init| && init[i].id == id {
        assert cs[i].id == id;
      }
      if i :| 0 <= i < |cs| && cs[i].id == id {
        if i < |init| {
          assert init[i].id == id;
        }
      }
    }
  }

  lemma {:induction false} NothingAimedAt(cs: seq<Card>, now: Time, id: Id)
    requires id != [] && !NamedFrom(cs, 0, id) && forall i :: 0 <= i < |cs| ==> cs[i].id != id
    ensures forall op :: op in PromoteOps(cs, now) + ArchiveOps(cs, now) ==> !Targets(op, id)
  {
    PromoteOpsAre(cs, now);
    ArchiveOpsAre(cs, now);
    forall op | op in PromoteOps(cs, now)
      ensures !Targets(op, id)
    {
      var i :| 0 <= i < |cs| && op in PromoteOne(cs[i], now);
      assert Target(cs[i]) != id;
    }
  }

  /** The status every stored card has after a consolidation. */
  function Outcome(cs: seq<Card>, req: ConsolidateRequest, id: Id, before: Status): Status {
    var limit := Limit(req.limit, |cs|);
    if exists i :: 0 <= i < limit && cs[i].id == id && !NamedFrom(cs[..limit], i, id) then Active
    else if req.archiveRemaining && exists i :: limit <= i < |cs| && cs[i].id == id then Archived
    else if NamedFrom(cs[..limit], 0, id) then Superseded
    else before
  }

  lemma OutcomeOfPromoted(cs: seq<Card>, req: ConsolidateRequest, id: Id, before: Status, i: nat)
    requires DistinctIds(cs) && i < Limit(req.limit, |cs|) && cs[i].id == id
    ensures Outcome(cs, req, id, before) ==
            (if NamedFrom(cs[..Limit(req.limit, |cs|)], i, id) then Superseded else Active)
  {
    var first := cs[..Limit(req.limit, |cs|)];
    if NamedFrom(first, i, id) {
      assert NamedFrom(first, 0, id);
    }
  }

  lemma OutcomeOfRemaining(cs: seq<Card>, req: ConsolidateRequest, id: Id, before: Status, i: nat)
    requires DistinctIds(cs) && Limit(req.limit, |cs|) <= i < |cs| && cs[i].id == id
    ensures Outcome(cs, req, id, before) ==
            (if req.archiveRemaining then Archived
             else if NamedFrom(cs[..Limit(req.limit, |cs|)], 0, id) then Superseded else before)
  {
  }

  lemma OutcomeOfOthers(cs: seq<Card>, req: ConsolidateRequest, id: Id, before: Status)
    requires forall i :: 0 <= i < |cs| ==> cs[i].id != id
    ensures Outcome(cs, req, id, before) ==
      (if NamedFrom(cs[..Limit(req.limit, |cs|)], 0, id) then Superseded else before)
  {
  }

  lemma StatusAfterAll(cs: seq<Card>, req: ConsolidateRequest, now: Time, id: Id, before: Status)
    ensures var limit := Limit(req.limit, |cs|);
            StatusAfter(ConsolidateOps(cs, req, now), id, before) ==
            (if req.archiveRemaining && exists i :: limit <= i < |cs| && cs[i].id == id then Archived
             else StatusAfter(PromoteOps(cs[..limit], now), id, before))
  {
    var limit := Limit(req.limit, |cs|);
    var first, rest := PromoteOps(cs[..limit], now), cs[limit..];
    StatusAfterArchiving(first, rest, now, id, before);
    assert first + [] == first;
    if i :| 0 <= i < |rest| && rest[i].id == id {
      assert cs[limit + i].id == id;
    }
    if i :| limit <= i < |cs| && cs[i].id == id {
      assert rest[i - limit].id == id;
    }
  }

  lemma StatusAfterConsolidation(cs: seq<Card>, req: ConsolidateRequest, now: Time, id: Id, before: Status)
    requires DistinctIds(cs) && id != []
    ensures StatusAfter(ConsolidateOps(cs, req, now), id, before) == Outcome(cs, req, id, before)
  {
    var limit := Limit(req.limit, |cs|);
    StatusAfterAll(cs, req, now, id, before);
    StatusAfterPromotions(cs[..limit], now, id, before);
    if i :| 0 <= i < |cs| && cs[i].id == id {
      if i < limit {
        OutcomeOfPromoted(cs, req, id, before, i);
        assert cs[..limit][i].id == id;
      } else {
        OutcomeOfRemaining(cs, req, id, before, i);
      }
    } else {
      OutcomeOfOthers(cs, req, id, before);
    }
  }

  /** The card is neither promoted, nor named by a promoted one, nor archived. */
  predicate Spared(cs: seq<Card>, req: ConsolidateRequest, id: Id) {
    var limit := Limit(req.limit, |cs|);
    && (forall i :: 0 <= i < limit ==> cs[i].id != id)
    && !NamedFrom(cs[..limit], 0, id)
    && (req.archiveRemaining ==> forall i :: limit <= i < |cs| ==> cs[i].id != id)
  }

  lemma OthersAreNotAimedAt(cs: seq<Card>, req: ConsolidateRequest, now: Time, id: Id)
    requires id != [] && Spared(cs, req, id)
    ensures forall op :: op in ConsolidateOps(cs, req, now) ==> !Targets(op, id)
  {
    var limit := Limit(req.limit, |cs|);
    NothingAimedAt(cs[..limit], now, id);
    ArchiveOpsAre(cs[limit..], now);
    forall op | op in ConsolidateOps(cs, req, now)
      ensures !Targets(op, id)
    {
      if op !in PromoteOps(cs[..limit], now) {
        var i :| 0 <= i < |cs[limit..]| && op == Update(cs[limit..][i].id, StatusOnly(Archived), now);
        assert cs[limit + i].id != id;
      }
    }
  }

  /**
   What a consolidation does to each stored card. A promoted candidate ends active exactly when no
   candidate from it on in the order of promotion names it as superseded; no card changes content, scope or
   evidence; and a card that is not promoted, not named by a promoted one and not archived is not touched.
   */
  lemma ConsolidationOutcome(world: World, req: ConsolidateRequest, cs: seq<Card>, now: Time, id: Id)
    requires WellFormed(world.mem) && Candidates(world.mem, req, cs) && id in world.mem.cards
    ensures var before, mem := world.mem.cards[id], RunAll(world, ConsolidateOps(cs, req, now)).mem;
            && id in mem.cards && before != [] && mem.cards[id] != [] && before <= mem.cards[id]
            && SameSubstance(Last(before), Last(mem.cards[id]))
            && Last(mem.cards[id]).status == Outcome(cs, req, id, Last(before).status)
            && (Spared(cs, req, id) ==> mem.cards[id] == before)
            && mem.cards.Keys == world.mem.cards.Keys && mem.edges == world.mem.edges
  {
    var before := world.mem.cards[id];
    assert Chain(id, before);
    OpsSetStatus(world.mem, req, cs, now);
    UpdatesSettle(world, ConsolidateOps(cs, req, now), id);
    assert DistinctIds(cs);
    StatusAfterConsolidation(cs, req, now, id, Last(before).status);
    if Spared(cs, req, id) {
      OthersAreNotAimedAt(cs, req, now, id);
    }
  }

  /**
   When no candidate names a candidate, exactly the oldest ones become active and the rest are archived or left
   as they are; of the other cards, exactly those that a promoted candidate names become superseded, and the rest
   are left as they are.
   */
  lemma IndependentCandidates(world: World, req: ConsolidateRequest, cs: seq<Card>, now: Time, id: Id)
    requires WellFormed(world.mem) && Candidates(world.mem, req, cs) && id in world.mem.cards
    requires Independent(cs)
    ensures var before, after := world.mem.cards[id], RunAll(world, ConsolidateOps(cs, req, now)).mem.cards;
            var limit := Limit(req.limit, |cs|);
            && id in after && after[id] != []
            && (if IsAmong(cs[..limit], id) then Last(after[id]).status == Active
                else if IsAmong(cs, id) then
                  if req.archiveRemaining then Last(after[id]).status == Archived else after[id] == before
                else if NamedFrom(cs[..limit], 0, id) then Last(after[id]).status == Superseded
                else after[id] == before)
            && (forall i, j :: 0 <= i < limit <= j < |cs| ==> OlderEq(cs[i], cs[j]))
  {
    var limit := Limit(req.limit, |cs|);
    ConsolidationOutcome(world, req, cs, now, id);
    IndependentOutcome(cs, req, id, Last(world.mem.cards[id]).status);
  }

  lemma IndependentOutcome(cs: seq<Card>, req: ConsolidateRequest, id: Id, before: Status)
    requires DistinctIds(cs) && Independent(cs)
    ensures var limit, status := Limit(req.limit, |cs|), Outcome(cs, req, id, before);
            if IsAmong(cs[..limit], id) then status == Active
            else if IsAmong(cs, id) then if req.archiveRemaining then status == Archived else Spared(cs, req, id)
            else if NamedFrom(cs[..limit], 0, id) then status == Superseded
            else Spared(cs, req, id)
  {
    var limit := Limit(req.limit, |cs|);
    AmongPromoted(cs, limit, id);
    if i :| 0 <= i < |cs| && cs[i].id == id {
      NoneNames(cs, limit, i);
      if i < limit {
        OutcomeOfPromoted(cs, req, id, before, i);
      } else {
        OutcomeOfRemaining(cs, req, id, before, i);
      }
    } else {
      OutcomeOfOthers(cs, req, id, before);
    }
  }

  lemma AmongPromoted(cs: seq<Card>, limit: nat, id: Id)
    requires limit <= |cs|
    ensures IsAmong(cs[..limit], id) <==> exists i :: 0 <= i < limit && cs[i].id == id
  {
    if i :| 0 <= i < limit && cs[i].id == id {
      assert cs[..limit][i].id == id;
    }
  }

  predicate Independent(cs: seq<Card>) {
    forall j, k :: 0 <= j < |cs| && 0 <= k < |cs| ==> Trim(cs[j].supersedes) != cs[k].id
  }

  predicate IsAmong(cs: seq<Card>, id: Id) {
    exists i :: 0 <= i < |cs| && cs[i].id == id
  }

  lemma NoneNames(cs: seq<Card>, limit: nat, i: nat)
    requires Independent(cs) && i < |cs| && limit <= |cs|
    ensures forall m: nat :: !NamedFrom(cs[..limit], m, cs[i].id)
  {
    forall j | 0 <= j < limit
      ensures Target(cs[..limit][j]) != cs[i].id
    {
      assert Target(cs[j]) != cs[i].id;
    }
  }

  const EVERYTHING := ConsolidateRequest([], [], 0, false)

  /** A new store after two candidates have been created. */
  function TwoCreated(older: CreateCardRequest, younger: CreateCardRequest, at: Time): World {
    RunAll(FRESH, [Create(older, at), Create(younger, at + 1)])
  }

  lemma TwoCreatedAre(older: CreateCardRequest, younger: CreateCardRequest, at: Time)
    requires Created(older, at).Ok? && Created(younger, at + 1).Ok? && older.id != younger.id
    ensures TwoCreated(older, younger, at).mem.cards ==
            map[older.id := [Created(older, at).value], younger.id := [Created(younger, at + 1).value]]
  {
    var ops := [Create(older, at), Create(younger, at + 1)];
    var world := Step(FRESH, Create(older, at));
    CreatedAlone(FRESH, older, at);
    CreatedAlone(world, younger, at + 1);
    RunSnoc(FRESH, [], Create(older, at));
    RunSnoc(FRESH, [Create(older, at)], Create(younger, at + 1));
    assert [] + [Create(older, at)] == [Create(older, at)] && [Create(older, at)] + [Create(younger, at + 1)] == ops;
  }

  lemma CreatedAlone(world: World, req: CreateCardRequest, at: Time)
    requires Created(req, at).Ok? && req.id !in world.mem.cards
    ensures Step(world, Create(req, at)).mem.cards == world.mem.cards[req.id := [Created(req, at).value]]
  {
    var put := PutCard("card_created", Created(req, at).value);
    OneWrite(world, put);
    assert Writes(world.mem, Create(req, at)) == [put];
    assert Get(world.mem.cards, req.id) + [put.card] == [put.card];
  }

  lemma TwoCandidates(mem: Mem, a: Card, b: Card)
    requires a.id != b.id && mem.cards == map[a.id := [a], b.id := [b]]
    requires a.status == Candidate && b.status == Candidate && OlderEq(a, b)
    ensures Candidates(mem, EVERYTHING, [a, b])
  {
    var q, cs := CandidatesQuery(EVERYTHING), [a, b];
    assert Answers(mem, q) == {a.id, b.id};
    assert cs[0].id == a.id && cs[1].id == b.id;
  }

  /**
   Two candidates, the younger naming the older, are created and consolidated: both are promoted, yet the older
   one ends superseded.
   */
  lemma PromotedCanEndSuperseded(older: CreateCardRequest, younger: CreateCardRequest, at: Time, now: Time)
    returns (cs: seq<Card>)
    requires Created(older, at).Ok? && Created(younger, at + 1).Ok? && older.id != younger.id
    requires older.status == younger.status == Known(Candidate) && Trim(younger.supersedes) == older.id
    ensures var before := TwoCreated(older, younger, at);
            var after := RunAll(before, ConsolidateOps(cs, EVERYTHING, now)).mem;
            && Candidates(before.mem, EVERYTHING, cs) && older.id in Ids(cs) && younger.id in Ids(cs)
            && Report(before.mem, cs, EVERYTHING).promotedCards == Ids(cs)
            && older.id in after.cards && after.cards[older.id] != [] &&
              Last(after.cards[older.id]).status == Superseded
  {
    var a, b := Created(older, at).value, Created(younger, at + 1).value;
    var world := TwoCreated(older, younger, at);
    TwoCreatedAre(older, younger, at);
    cs := [a, b];
    TwoCandidates(world.mem, a, b);
    assert cs[..2] == cs && Ids(cs)[0] == older.id && Ids(cs)[1] == younger.id;
    assert Target(cs[1]) == older.id && cs[0].id == older.id;
    TwoCreatedIsWellFormed(older, younger, at);
    ConsolidationOutcome(world, EVERYTHING, cs, now, older.id);
    assert NamedFrom(cs, 0, older.id);
  }

  lemma TwoCreatedIsWellFormed(older: CreateCardRequest, younger: CreateCardRequest, at: Time)
    ensures WellFormed(TwoCreated(older, younger, at).mem)
  {
    var ops := [Create(older, at), Create(younger, at + 1)];
    assert ops[..1] == [Create(older, at)] && ops[..1][..0] == [];
    RunIsJournaled(ops);
  }

  // ----- The consolidator -----

  /** The targets, among those of the first candidates, that name a stored card. */
  function Replaced(mem: Mem, cs: seq<Card>): seq<Id> {
    if cs == [] then []
    else Replaced(mem, cs[..|cs| - 1]) +
         (if Target(Last(cs)) != [] && Target(Last(cs)) in mem.cards then [Target(Last(cs))] else [])
  }

  function Ids(cs: seq<Card>): (ids: seq<Id>)
    ensures |ids| == |cs|
  {
    seq(|cs|, i requires 0 <= i < |cs| => cs[i].id)
  }

  function Report(mem: Mem, cs: seq<Card>, req: ConsolidateRequest): ConsolidateResult {
    var limit := Limit(req.limit, |cs|);
    var archived := if req.archiveRemaining then Ids(cs[limit..]) else [];
    ConsolidateResult(|cs|, limit, |Replaced(mem, cs[..limit])|, |archived|,
                      Ids(cs[..limit]), Replaced(mem, cs[..limit]), archived)
  }

  /** With archiving, every examined candidate is counted once as promoted or archived. */
  lemma ReportAddsUp(mem: Mem, cs: seq<Card>, req: ConsolidateRequest)
    ensures var r := Report(mem, cs, req);
            && r.promoted <= r.examined && r.superseded <= r.promoted
            && (req.archiveRemaining ==>
                  r.promoted + r.archived == r.examined && r.promotedCards + r.archivedCards == Ids(cs))
  {
    var limit := Limit(req.limit, |cs|);
    ReplacedIsShort(mem, cs[..limit]);
    assert Ids(cs[..limit]) + Ids(cs[limit..]) == Ids(cs);
  }

  /** The candidate names a stored card to replace. */
  predicate Replaces(mem: Mem, c: Card) {
    Trim(c.supersedes) != [] && Trim(c.supersedes) in mem.cards
  }

  /** Which of the first `n` candidates do. */
  function ReplacedBy(mem: Mem, cs: seq<Card>, n: nat): set<nat>
    requires n <= |cs|
  {
    set i: nat | i < n && Replaces(mem, cs[i])
  }

  predicate NamesReplaced(mem: Mem, cs: seq<Card>, n: nat, t: Id)
    requires n <= |cs|
  {
    exists i :: 0 <= i < n && Replaces(mem, cs[i]) && Trim(cs[i].supersedes) == t
  }

  lemma {:induction false} ReplacedAre(mem: Mem, cs: seq<Card>, n: nat)
    requires n <= |cs|
    ensures |Replaced(mem, cs[..n])| == |ReplacedBy(mem, cs, n)|
    ensures forall t :: t in Replaced(mem, cs[..n]) <==> NamesReplaced(mem, cs, n, t)
    decreases n
  {
    if n > 0 {
      ReplacedAre(mem, cs, n - 1);
      assert cs[..n][..n - 1] == cs[..n - 1] && Last(cs[..n]) == cs[n - 1];
      OneMoreReplaces(mem, cs, n);
      OneMoreNamed(mem, cs, n);
    }
  }

  lemma OneMoreReplaces(mem: Mem, cs: seq<Card>, n: nat)
    requires 0 < n <= |cs|
    ensures |ReplacedBy(mem, cs, n)| == |ReplacedBy(mem, cs, n - 1)| + if Replaces(mem, cs[n - 1]) then 1 else 0
  {
    OneMoreAmong(ReplacedBy(mem, cs, n - 1), ReplacedBy(mem, cs, n), n - 1, Replaces(mem, cs[n - 1]));
  }

  lemma OneMoreNamed(mem: Mem, cs: seq<Card>, n: nat)
    requires 0 < n <= |cs|
    ensures forall t :: NamesReplaced(mem, cs, n, t) <==>
              NamesReplaced(mem, cs, n - 1, t) || (Replaces(mem, cs[n - 1]) && t == Trim(cs[n - 1].supersedes))
  {
  }

  /** The report names the oldest candidates as promoted, what they replace, and the others as archived. */
  lemma ReportNames(mem: Mem, cs: seq<Card>, req: ConsolidateRequest)
    ensures var r, n := Report(mem, cs, req), if 0 < req.limit < |cs| then req.limit else |cs|;
            && r.examined == |cs| && r.promoted == n && r.archived == (if req.archiveRemaining then |cs| - n else 0)
            && |r.promotedCards| == r.promoted && |r.archivedCards| == r.archived
            && |r.supersededCards| == r.superseded == |ReplacedBy(mem, cs, n)|
            && (forall i :: 0 <= i < n ==> r.promotedCards[i] == cs[i].id)
            && (forall i :: 0 <= i < r.archived ==> r.archivedCards[i] == cs[n + i].id)
            && (forall t :: t in r.supersededCards <==> NamesReplaced(mem, cs, n, t))
  {
    ReplacedAre(mem, cs, Limit(req.limit, |cs|));
  }

  lemma {:induction false} ReplacedIsShort(mem: Mem, cs: seq<Card>)
    ensures |Replaced(mem, cs)| <= |cs|
    decreases |cs|
  {
    if cs != [] {
      ReplacedIsShort(mem, cs[..|cs| - 1]);
    }
  }

  class Consolidator {
    const store: Store

    constructor (store: Store)
      ensures this.store == store
    {
      this.store := store;
    }

    /** `cs` are the candidates examined, oldest first. */
    method PromoteCandidates(req: ConsolidateRequest, now: Time)
      returns (result: ConsolidateResult, ghost cs: seq<Card>)
      requires store.Valid()
      modifies store
      ensures store.Valid()
      ensures Candidates(old(store.Memory()), req, cs)
      ensures store.State() == RunAll(old(store.State()), ConsolidateOps(cs, req, now))
      ensures result == Report(old(store.Memory()), cs, req)
    {
      var cards := OldestFirst(req);
      cs := cards;
      result := Settle(cards, req, now);
    }

    method OldestFirst(req: ConsolidateRequest) returns (cards: seq<Card>)
      requires store.Valid()
      ensures Candidates(store.Memory(), req, cards)
      ensures AreStored(cards, store.cards.Keys)
    {
      var found, _ := store.Query(CandidatesQuery(req));
      cards := Sort(found, OlderEq);
      OlderEqIsTotalPreorder();
      SortSorts(found, OlderEq);
      SortedCards(store.Memory(), CandidatesQuery(req), found, cards);
      forall i | 0 <= i < |cards|
        ensures cards[i].id in store.cards && cards[i].id != []
      {
        CandidateIsLatest(store.Memory(), req, cards, i);
      }
    }

    /** Promotes the oldest candidates up to the limit and, when asked to, archives the rest. */
    method Settle(cards: seq<Card>, req: ConsolidateRequest, now: Time) returns (result: ConsolidateResult)
      requires store.Valid() && AreStored(cards, store.cards.Keys)
      modifies store
      ensures store.Valid()
      ensures store.State() == RunAll(old(store.State()), ConsolidateOps(cards, req, now))
      ensures result == Report(old(store.Memory()), cards, req)
    {
      ghost var start := store.State();
      result := ConsolidateResult(|cards|, 0, 0, 0, [], [], []);
      var limit := req.limit;
      if limit <= 0 || limit > |cards| {
        limit := |cards|;
      }
      ConsolidatesInTurn(start, cards, req, limit, now);
      ReportsInTurn(start.mem, cards, req, limit);
      StoredParts(cards, store.cards.Keys, limit);
      var oldest, rest := cards[..limit], cards[limit..];
      result := PromoteOldest(oldest, now, result);
      if req.archiveRemaining && limit < |cards| {
        result := ArchiveRest(rest, now, result);
      }
    }

    method PromoteOldest(cards: seq<Card>, now: Time, tally: ConsolidateResult) returns (r: ConsolidateResult)
      requires store.Valid() && tally == ConsolidateResult(tally.examined, 0, 0, 0, [], [], [])
      requires AreStored(cards, store.cards.Keys)
      modifies store
      ensures store.Valid() && store.cards.Keys == old(store.cards.Keys)
      ensures store.State() == RunAll(old(store.State()), PromoteOps(cards, now))
      ensures var hits := Replaced(old(store.Memory()), cards);
              r == tally.(promoted := |cards|, superseded := |hits|, promotedCards := Ids(cards),
                supersededCards := hits)
    {
      ghost var start := store.State();
      r := tally;
      for i := 0 to |cards|
        invariant store.Valid() && store.cards.Keys == start.mem.cards.Keys
        invariant store.State() == RunAll(start, PromoteOps(cards[..i], now))
        invariant var hits := Replaced(start.mem, cards[..i]);
                  r == tally.(promoted := i, superseded := |hits|, promotedCards := Ids(cards[..i]),
                    supersededCards := hits)
      {
        PromoteOneMoreOps(start, cards, i, now);
        PromoteOneMore(start, cards, i);
        r := PromoteCard(cards[i], now, r);
      }
      assert cards[..|cards|] == cards;
    }

    method ArchiveRest(cards: seq<Card>, now: Time, tally: ConsolidateResult) returns (r: ConsolidateResult)
      requires store.Valid() && tally.archived == 0 && tally.archivedCards == []
      requires AreStored(cards, store.cards.Keys)
      modifies store
      ensures store.Valid() && store.cards.Keys == old(store.cards.Keys)
      ensures store.State() == RunAll(old(store.State()), ArchiveOps(cards, now))
      ensures r == tally.(archived := |cards|, archivedCards := Ids(cards))
    {
      ghost var start := store.State();
      r := tally;
      for i := 0 to |cards|
        invariant store.Valid() && store.cards.Keys == start.mem.cards.Keys
        invariant store.State() == RunAll(start, ArchiveOps(cards[..i], now))
        invariant r == tally.(archived := i, archivedCards := Ids(cards[..i]))
      {
        var card := cards[i];
        ArchiveOneMore(start, cards, i, now);
        UpdateStep(store.State(), Update(card.id, StatusOnly(Archived), now), card.id);
        var _ := store.UpdateCard(card.id, StatusOnly(Archived), now);
        r := r.(archived := r.archived + 1, archivedCards := r.archivedCards + [card.id]);
      }
      assert cards[..|cards|] == cards;
    }

    /** Activates one candidate and supersedes the card it replaces, if that card exists. */
    method PromoteCard(card: Card, now: Time, result: ConsolidateResult) returns (r: ConsolidateResult)
      requires store.Valid() && card.id in store.cards && card.id != []
      modifies store
      ensures store.Valid() && store.cards.Keys == old(store.cards.Keys)
      ensures store.State() == RunAll(old(store.State()), PromoteOne(card, now))
      ensures r == result.(promoted := result.promoted + 1, promotedCards := result.promotedCards + [card.id],
                           superseded := r.superseded, supersededCards := r.supersededCards)
      ensures var hit := Target(card) != [] && Target(card) in old(store.cards);
              && r.superseded == result.superseded + (if hit then 1 else 0)
              && r.supersededCards == result.supersededCards + (if hit then [Target(card)] else [])
    {
      ghost var start := store.State();
      r := result;
      var first := Update(card.id, Promotion(card), now);
      UpdateStep(start, first, card.id);
      RunSnoc(start, [], first);
      assert [] + [first] == [first];
      var _ := store.UpdateCard(card.id, Promotion(card), now);
      r := r.(promoted := r.promoted + 1, promotedCards := r.promotedCards + [card.id]);
      var target := Trim(card.supersedes);
      if target != [] {
        var second := Update(target, StatusOnly(Superseded), now);
        UpdateStep(store.State(), second, target);
        RunSnoc(start, [first], second);
        assert [first] + [second] == PromoteOne(card, now);
        var updated := store.UpdateCard(target, StatusOnly(Superseded), now);
        if updated.Ok? {
          r := r.(superseded := r.superseded + 1, supersededCards := r.supersededCards + [target]);
        }
      } else {
        assert PromoteOne(card, now) == [first];
      }
    }
  }

  /** A consolidation promotes first and then archives what is left, if asked to and if anything is. */
  lemma ConsolidatesInTurn(start: World, cards: seq<Card>, req: ConsolidateRequest, limit: nat, now: Time)
    requires limit == Limit(req.limit, |cards|)
    ensures var promoted := RunAll(start, PromoteOps(cards[..limit], now));
            RunAll(start, ConsolidateOps(cards, req, now)) ==
            if req.archiveRemaining && limit < |cards| then RunAll(promoted, ArchiveOps(cards[limit..], now))
              else promoted
  {
    RunAppend(start, PromoteOps(cards[..limit], now), if req.archiveRemaining then ArchiveOps(cards[limit..], now)
      else []);
    if limit == |cards| {
      assert cards[limit..] == [];
    }
  }

  /** What a consolidation reports: first what was promoted, then what was archived. */
  lemma ReportsInTurn(mem: Mem, cards: seq<Card>, req: ConsolidateRequest, limit: nat)
    requires limit == Limit(req.limit, |cards|)
    ensures var hits := Replaced(mem, cards[..limit]);
            var promoted := ConsolidateResult(|cards|, limit, |hits|, 0, Ids(cards[..limit]), hits, []);
            Report(mem, cards, req) ==
            if req.archiveRemaining && limit < |cards|
            then promoted.(archived := |cards| - limit, archivedCards := Ids(cards[limit..])) else promoted
  {
    if limit == |cards| {
      assert cards[limit..] == [];
    }
  }

  /** The cards are stored. */
  predicate AreStored(cards: seq<Card>, ids: set<Id>) {
    forall c :: c in cards ==> c.id in ids && c.id != []
  }

  lemma StoredParts(cards: seq<Card>, ids: set<Id>, n: nat)
    requires AreStored(cards, ids) && n <= |cards|
    ensures AreStored(cards[..n], ids) && AreStored(cards[n..], ids)
  {
  }

  lemma PromoteOneMoreOps(start: World, cards: seq<Card>, i: nat, now: Time)
    requires i < |cards|
    ensures RunAll(start, PromoteOps(cards[..i + 1], now)) ==
            RunAll(RunAll(start, PromoteOps(cards[..i], now)), PromoteOne(cards[i], now))
  {
    var more := cards[..i + 1];
    assert more[..|more| - 1] == cards[..i] && Last(more) == cards[i];
    assert PromoteOps(more, now) == PromoteOps(cards[..i], now) + PromoteOne(cards[i], now);
    RunAppend(start, PromoteOps(cards[..i], now), PromoteOne(cards[i], now));
  }

  lemma PromoteOneMore(start: World, cards: seq<Card>, i: nat)
    requires i < |cards|
    ensures Ids(cards[..i + 1]) == Ids(cards[..i]) + [cards[i].id]
    ensures Replaced(start.mem, cards[..i + 1]) == Replaced(start.mem, cards[..i]) +
            (if Target(cards[i]) != [] && Target(cards[i]) in start.mem.cards then [Target(cards[i])] else [])
  {
    assert cards[..i + 1][..i] == cards[..i] && Last(cards[..i + 1]) == cards[i];
  }

  lemma IdsOneMore(cards: seq<Card>, i: nat)
    requires i < |cards|
    ensures Ids(cards[..i + 1]) == Ids(cards[..i]) + [cards[i].id]
  {
  }

  lemma ArchiveOneMore(start: World, cards: seq<Card>, i: nat, now: Time)
    requires i < |cards|
    ensures RunAll(start, ArchiveOps(cards[..i + 1], now)) ==
            Step(RunAll(start, ArchiveOps(cards[..i], now)), Update(cards[i].id, StatusOnly(Archived), now))
    ensures Ids(cards[..i + 1]) == Ids(cards[..i]) + [cards[i].id]
  {
    var more := cards[..i + 1];
    assert more[..|more| - 1] == cards[..i] && Last(more) == cards[i];
    assert ArchiveOps(more, now) == ArchiveOps(cards[..i], now) + [Update(cards[i].id, StatusOnly(Archived), now)];
    RunSnoc(start, ArchiveOps(cards[..i], now), Update(cards[i].id, StatusOnly(Archived), now));
    IdsOneMore(cards, i);
  }

  lemma SortedCards(mem: Mem, req: QueryRequest, found: seq<Card>, cards: seq<Card>)
    requires CardsOf(mem, req, found) && multiset(cards) == multiset(found)
    ensures CardsOf(mem, req, cards)
  {
    forall i | 0 <= i < |cards|
      ensures cards[i] in found
    {
      assert cards[i] in multiset(cards);
    }
    forall id | id in Answers(mem, req)
      ensures exists i :: 0 <= i < |cards| && cards[i].id == id
    {
      var i :| 0 <= i < |found| && found[i].id == id;
      assert found[i] in multiset(cards);
      var j :| 0 <= j < |cards| && cards[j] == found[i];
      assert cards[j].id == id;
    }
    OncePerId(found, cards);
  }

  lemma OncePerId(found: seq<Card>, cards: seq<Card>)
    requires DistinctIds(found) && multiset(cards) == multiset(found)
    ensures DistinctIds(cards)
  {
    forall i, j | 0 <= i < j < |cards|
      ensures cards[i].id != cards[j].id
    {
      if cards[i].id == cards[j].id {
        assert cards[i] in multiset(found) && cards[j] in multiset(found);
        assert cards[i] == cards[j];
        TwiceInMultiset(cards, i, j);
        OnceInMultiset(found, cards[i]);
      }
    }
  }

  lemma TwiceInMultiset<T>(s: seq<T>, i: nat, j: nat)
    requires i < j < |s| && s[i] == s[j]
    ensures multiset(s)[s[i]] >= 2
  {
    assert s == s[..j] + s[j..];
    assert s[i] in s[..j] && s[j] in s[j..];
  }

  lemma {:induction false} OnceInMultiset(s: seq<Card>, c: Card)
    requires DistinctIds(s)
    ensures multiset(s)[c] <= 1
    decreases |s|
  {
    if s != [] {
      OnceInMultiset(s[..|s| - 1], c);
      assert s == s[..|s| - 1] + [Last(s)];
      if Last(s) == c {
        assert c !in s[..|s| - 1];
      }
    }
  }
}
