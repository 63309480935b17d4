/** Approval requests: pending, approved with a one-shot token, then denied or consumed. */
module Approvals {
  import opened Prelude
  import opened Strings

  type Time = nat

  datatype Status = Pending | Approved | Denied | Consumed

  datatype Request = Request(
    id: nat, taskId: Text, profile: Text, actionKind: Text, summary: Text, requestedBy: Text,
    approvedBy: Text, deniedBy: Text, deniedReason: Text, status: Status, token: Text, metadata: map<Text, Text>,
    createdAt: Time, updatedAt: Time, expiresAt: Option<Time>, usedAt: Option<Time>)

  datatype CreateRequest = CreateRequest(
    taskId: Text, profile: Text, actionKind: Text, summary: Text, requestedBy: Text, metadata: map<Text, Text>)

  datatype ApprovalError = NotFound | InvalidInput | Refused

  /** One record file for each request, in the directory of its status. */
  type Files = map<(Status, nat), Request>

  /** The directory, the least clock reading not yet used for an id, and the consumptions so far. */
  datatype Vault = Vault(files: Files, clock: nat, uses: seq<Use>)

  /** A consumption that authorized a caller. */
  datatype Use = Use(id: nat, at: Time)

  const EMPTY := Vault(map[], 0, [])

  const SEARCH_ORDER: seq<Status> := [Pending, Approved, Denied, Consumed]

  /** The directory in which a request is found first. */
  function Find(files: Files, id: nat): Option<Status> {
    if (Pending, id) in files then Some(Pending)
    else if (Approved, id) in files then Some(Approved)
    else if (Denied, id) in files then Some(Denied)
    else if (Consumed, id) in files then Some(Consumed)
    else None
  }

  /** Removing the record found in one directory and writing it to the directory of its status. */
  function Refile(files: Files, from_: Status, r: Request): Files {
    (files - {(from_, r.id)})[(r.status, r.id) := r]
  }

  // ----- Operations -----

  datatype Op =
    | Create(req: CreateRequest, now: Time)
    | Approve(id: nat, who: Text, token: Text, now: Time)
    | Deny(id: nat, who: Text, reason: Text, now: Time)
      /** The record met first among those that match, when one is consumed. */
    | Consume(profile: Text, token: Text, now: Time, met: Option<nat>)

  function Created(req: CreateRequest, now: nat): Request {
    Request(now, Trim(req.taskId), Trim(req.profile), Trim(req.actionKind), Trim(req.summary), Trim(req.requestedBy),
            [], [], [], Pending, [], req.metadata, now, now, None, None)
  }

  predicate CreateIsValid(req: CreateRequest) {
    Trim(req.profile) != [] && Trim(req.actionKind) != [] && Trim(req.summary) != []
  }

  function ApprovedBy(r: Request, who: Text, token: Text, now: Time, ttl: nat): Request {
    r.(status := Approved, token := token, approvedBy := Trim(who), updatedAt := now, expiresAt := Some(now + ttl))
  }

  function DeniedBy(r: Request, who: Text, reason: Text, now: Time): Request {
    r.(status := Denied, token := [], approvedBy := [], deniedBy := Trim(who), deniedReason := Trim(reason),
       updatedAt := now, expiresAt := None)
  }

  function ConsumedAt(r: Request, now: Time): Request {
    r.(status := Consumed, token := [], usedAt := Some(now), updatedAt := now)
  }

  predicate Matches(v: Vault, id: nat, profile: Text, token: Text) {
    (Approved, id) in v.files && v.files[(Approved, id)].profile == Trim(profile) &&
    v.files[(Approved, id)].token == Trim(token)
  }

  predicate Expired(r: Request, now: Time) {
    r.expiresAt.Some? && now > r.expiresAt.value
  }

  /** What the operation may assume: the clock moves on, tokens are not empty, and `met` is a match, if there is one. */
  predicate Enabled(v: Vault, op: Op) {
    match op
    case Create(_, now) => v.clock <= now
    case Approve(_, _, token, _) => token != []
    case Deny(_, _, _, _) => true
    case Consume(profile, token, _, met) =>
      match met
      case Some(id) => Matches(v, id, profile, token)
      case None => forall k :: k in v.files ==> !Matches(v, k.1, profile, token)
  }

  function Step(v: Vault, op: Op, ttl: nat): Vault {
    match op
    case Create(req, now) =>
      if CreateIsValid(req) then v.(files := v.files[(Pending, now) := Created(req, now)], clock := now + 1) else v
    case Approve(id, who, token, now) =>
      if Find(v.files, id) == Some(Pending) && v.files[(Pending, id)].status == Pending then
        v.(files := Refile(v.files, Pending, ApprovedBy(v.files[(Pending, id)], who, token, now, ttl)))
      else v
    case Deny(id, who, reason, now) =>
      var found := Find(v.files, id);
      if found.Some? && v.files[(found.value, id)].status in {Pending, Approved} then
        v.(files := Refile(v.files, found.value, DeniedBy(v.files[(found.value, id)], who, reason, now)))
      else v
    case Consume(profile, token, now, met) =>
      if Trim(profile) == [] || Trim(token) == [] || met.None? || (Approved, met.value) !in v.files ||
         Expired(v.files[(Approved, met.value)], now)
      then v
      else
        v.(files := Refile(v.files, Approved, ConsumedAt(v.files[(Approved, met.value)], now)),
           uses := v.uses + [Use(met.value, now)])
  }

  function RunAll(v: Vault, ops: seq<Op>, ttl: nat): Vault {
    if ops == [] then v else Step(RunAll(v, ops[..|ops| - 1], ttl), Last(ops), ttl)
  }

  predicate EnabledAll(v: Vault, ops: seq<Op>, ttl: nat) {
    ops != [] ==> EnabledAll(v, ops[..|ops| - 1], ttl) && Enabled(RunAll(v, ops[..|ops| - 1], ttl), Last(ops))
  }

  // ----- Invariant -----

  /** A record is filed under its own status and id, in no other directory, with a token exactly while approved. */
  predicate Filed(files: Files, clock: nat) {
    forall k :: k in files ==> FiledAt(files, clock, k)
  }

  predicate FiledAt(files: Files, clock: nat, k: (Status, nat))
    requires k in files
  {
    var r := files[k];
    && r.status == k.0 && r.id == k.1 && r.id < clock
    && (r.token != [] <==> r.status == Approved)
    && (forall s: Status :: s != k.0 ==> (s, k.1) !in files)
  }

  /** Each use is of a request that is now consumed, was not expired at the time, and is used once. */
  predicate Accounted(v: Vault) {
    && (forall i :: 0 <= i < |v.uses| ==> UsedAt(v, v.uses[i]))
    && (forall i, j :: 0 <= i < j < |v.uses| ==> v.uses[i].id != v.uses[j].id)
    && (forall k :: k in v.files && k.0 == Consumed ==> exists i :: 0 <= i < |v.uses| && v.uses[i].id == k.1)
  }

  predicate UsedAt(v: Vault, u: Use) {
    && (Consumed, u.id) in v.files
    && v.files[(Consumed, u.id)].usedAt == Some(u.at)
    && !Expired(v.files[(Consumed, u.id)], u.at)
  }

  predicate Sound(v: Vault) {
    Filed(v.files, v.clock) && Accounted(v)
  }

  lemma RefileKeepsFiled(files: Files, clock: nat, from_: Status, r: Request)
    requires Filed(files, clock) && (from_, r.id) in files
    requires r.token != [] <==> r.status == Approved
    ensures Filed(Refile(files, from_, r), clock)
  {
    assert FiledAt(files, clock, (from_, r.id));
    var after := Refile(files, from_, r);
    forall k | k in after
      ensures FiledAt(after, clock, k)
    {
      if k != (r.status, r.id) {
        assert FiledAt(files, clock, k);
      }
    }
  }

  lemma FiledUnderStatus(v: Vault, k: (Status, nat))
    requires Sound(v) && k in v.files
    ensures v.files[k].status == k.0 && v.files[k].id == k.1
  {
    assert FiledAt(v.files, v.clock, k);
  }

  lemma FindsTheOnly(files: Files, clock: nat, k: (Status, nat))
    requires Filed(files, clock) && k in files
    ensures Find(files, k.1) == Some(k.0)
  {
    assert FiledAt(files, clock, k);
  }

  /** Moving a record that is not consumed to a status other than consumed leaves the account as it is. */
  lemma RefileKeepsAccount(v: Vault, from_: Status, r: Request)
    requires Sound(v) && (from_, r.id) in v.files && from_ != Consumed && r.status != Consumed
    ensures Accounted(v.(files := Refile(v.files, from_, r)))
  {
    var after := v.(files := Refile(v.files, from_, r));
    forall i | 0 <= i < |v.uses|
      ensures UsedAt(after, v.uses[i])
    {
      assert UsedAt(v, v.uses[i]);
      assert FiledAt(v.files, v.clock, (Consumed, v.uses[i].id));
    }
  }

  lemma ConsumeKeepsAccount(v: Vault, id: nat, now: Time)
    requires Sound(v) && (Approved, id) in v.files && !Expired(v.files[(Approved, id)], now)
    ensures var r := ConsumedAt(v.files[(Approved, id)], now);
            Accounted(v.(files := Refile(v.files, Approved, r), uses := v.uses + [Use(id, now)]))
  {
    assert FiledAt(v.files, v.clock, (Approved, id));
    var r := ConsumedAt(v.files[(Approved, id)], now);
    var after := v.(files := Refile(v.files, Approved, r), uses := v.uses + [Use(id, now)]);
    forall i | 0 <= i < |after.uses|
      ensures UsedAt(after, after.uses[i])
      ensures i < |v.uses| ==> v.uses[i].id != id
    {
      if i < |v.uses| {
        assert UsedAt(v, v.uses[i]);
        assert FiledAt(v.files, v.clock, (Consumed, v.uses[i].id));
      }
    }
    forall k | k in after.files && k.0 == Consumed
      ensures exists i :: 0 <= i < |after.uses| && after.uses[i].id == k.1
    {
      if k.1 == id {
        assert after.uses[|v.uses|].id == id;
      } else {
        assert k in v.files;
        var i :| 0 <= i < |v.uses| && v.uses[i].id == k.1;
        assert after.uses[i].id == k.1;
      }
    }
  }

  lemma CreateKeepsSound(v: Vault, req: CreateRequest, now: nat)
    requires Sound(v) && v.clock <= now
    ensures Sound(v.(files := v.files[(Pending, now) := Created(req, now)], clock := now + 1))
  {
    var after := v.(files := v.files[(Pending, now) := Created(req, now)], clock := now + 1);
    forall k | k in v.files
      ensures k.1 < v.clock
    {
      assert FiledAt(v.files, v.clock, k);
    }
    forall k | k in after.files
      ensures FiledAt(after.files, after.clock, k)
    {
      if k in v.files {
        assert FiledAt(v.files, v.clock, k);
      }
    }
    forall i | 0 <= i < |v.uses|
      ensures UsedAt(after, v.uses[i])
    {
      assert UsedAt(v, v.uses[i]);
    }
  }

  lemma StepKeepsSound(v: Vault, op: Op, ttl: nat)
    requires Sound(v) && Enabled(v, op)
    ensures Sound(Step(v, op, ttl))
  {
    match op
    case Create(req, now) => CreateKeepsSound(v, req, now);
    case Approve(id, who, token, now) =>
      if Find(v.files, id) == Some(Pending) {
        assert FiledAt(v.files, v.clock, (Pending, id));
        var r := ApprovedBy(v.files[(Pending, id)], who, token, now, ttl);
        RefileKeepsFiled(v.files, v.clock, Pending, r);
        RefileKeepsAccount(v, Pending, r);
      }
    case Deny(id, who, reason, now) =>
      var found := Find(v.files, id);
      if found.Some? && v.files[(found.value, id)].status in {Pending, Approved} {
        assert FiledAt(v.files, v.clock, (found.value, id));
        var r := DeniedBy(v.files[(found.value, id)], who, reason, now);
        RefileKeepsFiled(v.files, v.clock, found.value, r);
        RefileKeepsAccount(v, found.value, r);
      }
    case Consume(profile, token, now, met) =>
      if Step(v, op, ttl) != v {
        var r := v.files[(Approved, met.value)];
        assert FiledAt(v.files, v.clock, (Approved, met.value));
        RefileKeepsFiled(v.files, v.clock, Approved, ConsumedAt(r, now));
        ConsumeKeepsAccount(v, met.value, now);
      }
  }

  /** On every run: one file for each request, tokens exactly on approved ones, and every use accounted for. */
  lemma {:induction false} RunIsSound(ops: seq<Op>, ttl: nat)
    requires EnabledAll(EMPTY, ops, ttl)
    ensures Sound(RunAll(EMPTY, ops, ttl))
    decreases |ops|
  {
    if ops != [] {
      RunIsSound(ops[..|ops| - 1], ttl);
      StepKeepsSound(RunAll(EMPTY, ops[..|ops| - 1], ttl), Last(ops), ttl);
    }
  }

  /** Denied and consumed requests never change again. */
  lemma ClosedIsTerminal(v: Vault, op: Op, ttl: nat, k: (Status, nat))
    requires Sound(v) && Enabled(v, op) && k in v.files && (k.0 == Denied || k.0 == Consumed)
    ensures k in Step(v, op, ttl).files && Step(v, op, ttl).files[k] == v.files[k]
  {
    assert FiledAt(v.files, v.clock, k);
    FindsTheOnly(v.files, v.clock, k);
    if op.Consume? && op.met.Some? && (Approved, op.met.value) in v.files {
      assert FiledAt(v.files, v.clock, (Approved, op.met.value));
    }
    if op.Approve? && (Pending, op.id) in v.files {
      assert FiledAt(v.files, v.clock, (Pending, op.id));
    }
  }

  /** A request that was denied is never used, then or at any later point of any run. */
  lemma {:induction false} DeniedIsNeverUsed(v: Vault, ops: seq<Op>, ttl: nat, id: nat)
    requires Sound(v) && EnabledAll(v, ops, ttl) && (Denied, id) in v.files
    ensures var after := RunAll(v, ops, ttl);
            && Sound(after) && (Denied, id) in after.files && after.files[(Denied, id)] == v.files[(Denied, id)]
            && forall i :: 0 <= i < |after.uses| ==> after.uses[i].id != id
    decreases |ops|
  {
    if ops != [] {
      var before := RunAll(v, ops[..|ops| - 1], ttl);
      DeniedIsNeverUsed(v, ops[..|ops| - 1], ttl, id);
      StepKeepsSound(before, Last(ops), ttl);
      ClosedIsTerminal(before, Last(ops), ttl, (Denied, id));
    }
    var after := RunAll(v, ops, ttl);
    assert FiledAt(after.files, after.clock, (Denied, id));
    forall i | 0 <= i < |after.uses|
      ensures after.uses[i].id != id
    {
      assert UsedAt(after, after.uses[i]);
    }
  }

  /** The ids of the consumed requests. */
  function ConsumedIds(v: Vault): set<nat> {
    set k | k in v.files && k.0 == Consumed :: k.1
  }

  function UsedIds(uses: seq<Use>): set<nat> {
    set i | 0 <= i < |uses| :: uses[i].id
  }

  lemma {:induction false} UsesAreCounted(uses: seq<Use>)
    requires forall i, j :: 0 <= i < j < |uses| ==> uses[i].id != uses[j].id
    ensures |UsedIds(uses)| == |uses|
    decreases |uses|
  {
    if uses != [] {
      var init := uses[..|uses| - 1];
      UsesAreCounted(init);
      forall i | 0 <= i < |init|
        ensures init[i].id != Last(uses).id && init[i] == uses[i]
      {
      }
      assert UsedIds(uses) == UsedIds(init) + {Last(uses).id};
    }
  }

  /** Conservation: the number of uses is the number of consumed requests. */
  lemma UsesAreConserved(v: Vault)
    requires Sound(v)
    ensures |v.uses| == |ConsumedIds(v)|
  {
    UsesAreCounted(v.uses);
    forall id
      ensures id in UsedIds(v.uses) <==> id in ConsumedIds(v)
    {
      if id in UsedIds(v.uses) {
        var i :| 0 <= i < |v.uses| && v.uses[i].id == id;
        assert UsedAt(v, v.uses[i]);
        assert (Consumed, id) in v.files;
      }
      if id in ConsumedIds(v) {
        assert (Consumed, id) in v.files;
      }
    }
    assert UsedIds(v.uses) == ConsumedIds(v);
  }

  // ----- Where a use comes from -----

  /** The operation at `h` created the request. */
  predicate CreatedAt(ops: seq<Op>, h: nat, r: Request) {
    h < |ops| && ops[h].Create? && ops[h].now == r.id && r.profile == Trim(ops[h].req.profile)
  }

  /** The operation at `i`, after that at `h`, gave the request its token and its time. */
  predicate GrantedAt(ops: seq<Op>, h: nat, i: nat, r: Request, ttl: nat) {
    && h < i < |ops| && ops[i].Approve? && ops[i].id == r.id
    && r.token == ops[i].token && r.expiresAt == Some(ops[i].now + ttl)
  }

  ghost predicate Originates(ops: seq<Op>, r: Request, ttl: nat) {
    exists h :: CreatedAt(ops, h, r) && (r.status == Approved ==> exists i :: GrantedAt(ops, h, i, r, ttl))
  }

  /**
   The use was made by presenting, for the profile the request was created for, the token that an approval had
   given it, at most `ttl` after that.
   */
  predicate UsedWith(ops: seq<Op>, h: nat, i: nat, j: nat, u: Use, ttl: nat) {
    && h < i < j < |ops|
    && ops[h].Create? && ops[h].now == u.id
    && ops[i].Approve? && ops[i].id == u.id
    && ops[j].Consume? && ops[j].met == Some(u.id) && ops[j].now == u.at
    && Trim(ops[j].token) == ops[i].token
    && Trim(ops[j].profile) == Trim(ops[h].req.profile)
    && u.at <= ops[i].now + ttl
  }

  ghost predicate Warranted(ops: seq<Op>, u: Use, ttl: nat) {
    exists h, i, j :: UsedWith(ops, h, i, j, u, ttl)
  }

  lemma OriginatesLater(ops: seq<Op>, op: Op, r: Request, ttl: nat)
    requires Originates(ops, r, ttl)
    ensures Originates(ops + [op], r, ttl)
  {
    var h :| CreatedAt(ops, h, r) && (r.status == Approved ==> exists i :: GrantedAt(ops, h, i, r, ttl));
    assert CreatedAt(ops + [op], h, r);
    if r.status == Approved {
      var i :| GrantedAt(ops, h, i, r, ttl);
      assert GrantedAt(ops + [op], h, i, r, ttl);
    }
  }

  lemma WarrantedLater(ops: seq<Op>, op: Op, u: Use, ttl: nat)
    requires Warranted(ops, u, ttl)
    ensures Warranted(ops + [op], u, ttl)
  {
    var h, i, j :| UsedWith(ops, h, i, j, u, ttl);
    assert UsedWith(ops + [op], h, i, j, u, ttl);
  }

  lemma ApprovedOriginates(ops: seq<Op>, op: Op, v: Vault, ttl: nat, k: (Status, nat))
    requires Sound(v) && op.Approve? && Enabled(v, op) && forall j :: j in v.files ==> Originates(ops, v.files[j], ttl)
    requires k in Step(v, op, ttl).files && (k in v.files ==> Step(v, op, ttl).files[k] != v.files[k])
    ensures Originates(ops + [op], Step(v, op, ttl).files[k], ttl)
  {
    var r, all := Step(v, op, ttl).files[k], ops + [op];
    assert FiledAt(v.files, v.clock, (Pending, op.id));
    var h := Origin(ops, v.files[(Pending, op.id)], ttl);
    assert CreatedAt(all, h, r) && GrantedAt(all, h, |ops|, r, ttl);
  }

  /** The record that an operation writes comes from the record it found, or is new. */
  lemma WrittenOriginates(ops: seq<Op>, op: Op, v: Vault, ttl: nat, k: (Status, nat))
    requires Sound(v) && Enabled(v, op) && forall j :: j in v.files ==> Originates(ops, v.files[j], ttl)
    requires k in Step(v, op, ttl).files && (k in v.files ==> Step(v, op, ttl).files[k] != v.files[k])
    ensures Originates(ops + [op], Step(v, op, ttl).files[k], ttl)
  {
    var r, all := Step(v, op, ttl).files[k], ops + [op];
    match op
    case Create(_, _) => assert CreatedAt(all, |ops|, r);
    case Approve(_, _, _, _) => ApprovedOriginates(ops, op, v, ttl, k);
    case Deny(id, _, _, _) =>
      var f := Find(v.files, id).value;
      assert FiledAt(v.files, v.clock, (f, id));
      var h := Origin(ops, v.files[(f, id)], ttl);
      assert CreatedAt(all, h, r);
    case Consume(_, _, _, met) =>
      assert FiledAt(v.files, v.clock, (Approved, met.value));
      var h := Origin(ops, v.files[(Approved, met.value)], ttl);
      assert CreatedAt(all, h, r);
  }

  lemma Origin(ops: seq<Op>, r: Request, ttl: nat) returns (h: nat)
    requires Originates(ops, r, ttl)
    ensures CreatedAt(ops, h, r) && (r.status == Approved ==> exists i :: GrantedAt(ops, h, i, r, ttl))
  {
    h :| CreatedAt(ops, h, r) && (r.status == Approved ==> exists i :: GrantedAt(ops, h, i, r, ttl));
  }

  /** A use that an operation makes is of the approval whose token it presents. */
  lemma NewUseIsWarranted(ops: seq<Op>, op: Op, v: Vault, ttl: nat)
    requires Sound(v) && Enabled(v, op) && forall j :: j in v.files ==> Originates(ops, v.files[j], ttl)
    requires Step(v, op, ttl).uses != v.uses
    ensures Step(v, op, ttl).uses == v.uses + [Use(op.met.value, op.now)]
    ensures Warranted(ops + [op], Use(op.met.value, op.now), ttl)
  {
    var id := op.met.value;
    var r := v.files[(Approved, id)];
    assert FiledAt(v.files, v.clock, (Approved, id));
    var h := Origin(ops, r, ttl);
    var i :| GrantedAt(ops, h, i, r, ttl);
    assert UsedWith(ops + [op], h, i, |ops|, Use(id, op.now), ttl);
  }

  ghost predicate Traced(ops: seq<Op>, v: Vault, ttl: nat) {
    && (forall k :: k in v.files ==> Originates(ops, v.files[k], ttl))
    && (forall i :: 0 <= i < |v.uses| ==> Warranted(ops, v.uses[i], ttl))
  }

  lemma StepKeepsTraced(ops: seq<Op>, op: Op, v: Vault, ttl: nat)
    requires Sound(v) && Enabled(v, op) && Traced(ops, v, ttl)
    ensures Traced(ops + [op], Step(v, op, ttl), ttl)
  {
    var after := Step(v, op, ttl);
    forall k | k in after.files
      ensures Originates(ops + [op], after.files[k], ttl)
    {
      if k in v.files && after.files[k] == v.files[k] {
        OriginatesLater(ops, op, v.files[k], ttl);
      } else {
        WrittenOriginates(ops, op, v, ttl, k);
      }
    }
    StepKeepsWarranted(ops, op, v, ttl);
  }

  lemma StepKeepsWarranted(ops: seq<Op>, op: Op, v: Vault, ttl: nat)
    requires Sound(v) && Enabled(v, op) && Traced(ops, v, ttl)
    ensures forall i :: 0 <= i < |Step(v, op, ttl).uses| ==> Warranted(ops + [op], Step(v, op, ttl).uses[i], ttl)
  {
    if Step(v, op, ttl).uses != v.uses {
      NewUseIsWarranted(ops, op, v, ttl);
    }
    forall i | 0 <= i < |v.uses|
      ensures Warranted(ops + [op], v.uses[i], ttl)
    {
      WarrantedLater(ops, op, v.uses[i], ttl);
    }
  }

  /**
   On every run, every record was created by an operation and, if it is approved, got its token by a later one; and
   every use was made with the token and for the profile of the approval it uses up, before it expired.
   */
  lemma {:induction false} UsesAreWarranted(ops: seq<Op>, ttl: nat)
    requires EnabledAll(EMPTY, ops, ttl)
    ensures Traced(ops, RunAll(EMPTY, ops, ttl), ttl)
    decreases |ops|
  {
    if ops != [] {
      var init, op := ops[..|ops| - 1], Last(ops);
      UsesAreWarranted(init, ttl);
      RunIsSound(init, ttl);
      StepKeepsTraced(init, op, RunAll(EMPTY, init, ttl), ttl);
      assert init + [op] == ops;
    }
  }

  // ----- Authorization -----

  /**
   The approvals behind an executor and its static root token; how often the executor let a root caller in, how
   often by the token, and how often an approval was used without the executor, as external skills do.
   */
  datatype Gate = Gate(vault: Vault, hasStore: bool, rootToken: Text, granted: nat, byToken: nat, elsewhere: nat)

  predicate Lets(v: Vault, profile: Text, token: Text, now: Time, met: Option<nat>) {
    Trim(profile) != [] && Trim(token) != [] && met.Some? && (Approved, met.value) in v.files &&
    !Expired(v.files[(Approved, met.value)], now)
  }

  /** Whether a profile is allowed, and the gate afterwards. */
  function Authorize(g: Gate, profile: Text, token: Text, now: Time, met: Option<nat>): (bool, Gate) {
    if profile == "user" then (true, g)
    else if profile != "root" || (g.rootToken == [] && !g.hasStore) || Trim(token) == [] then (false, g)
    else if g.hasStore && Lets(g.vault, profile, token, now, met) then
      (true, g.(vault := Step(g.vault, Consume(profile, token, now, met), 0), granted := g.granted + 1))
    else if Trim(token) == g.rootToken then (true, g.(granted := g.granted + 1, byToken := g.byToken + 1))
    else (false, g)
  }

  datatype GateOp = Manage(op: Op) | Enter(profile: Text, token: Text, now: Time, met: Option<nat>)

  function GateStep(g: Gate, op: GateOp, ttl: nat): Gate {
    match op
    case Manage(o) =>
      var used := o.Consume? && Lets(g.vault, o.profile, o.token, o.now, o.met);
      g.(vault := Step(g.vault, o, ttl), elsewhere := g.elsewhere + if used then 1 else 0)
    case Enter(profile, token, now, met) => Authorize(g, profile, token, now, met).1
  }

  predicate GateEnabled(g: Gate, op: GateOp) {
    match op
    case Manage(o) => Enabled(g.vault, o)
    case Enter(profile, token, now, met) => Enabled(g.vault, Consume(profile, token, now, met))
  }

  function GateRun(g: Gate, ops: seq<GateOp>, ttl: nat): Gate {
    if ops == [] then g else GateStep(GateRun(g, ops[..|ops| - 1], ttl), Last(ops), ttl)
  }

  predicate GateEnabledAll(g: Gate, ops: seq<GateOp>, ttl: nat) {
    ops != [] ==> GateEnabledAll(g, ops[..|ops| - 1], ttl) && GateEnabled(GateRun(g, ops[..|ops| - 1], ttl), Last(ops))
  }

  /** What an operation at the gate does to the approvals. */
  function AtVault(g: Gate, op: GateOp): seq<Op> {
    match op
    case Manage(o) => [o]
    case Enter(profile, token, now, met) =>
      if profile == "root" && g.hasStore && Trim(token) != [] then [Consume(profile, token, now, met)] else []
  }

  function VaultOps(g: Gate, ops: seq<GateOp>, ttl: nat): seq<Op> {
    if ops == [] then []
    else VaultOps(g, ops[..|ops| - 1], ttl) + AtVault(GateRun(g, ops[..|ops| - 1], ttl), Last(ops))
  }

  lemma {:induction false} GateRunsVault(g: Gate, ops: seq<GateOp>, ttl: nat)
    requires GateEnabledAll(g, ops, ttl)
    ensures GateRun(g, ops, ttl).vault == RunAll(g.vault, VaultOps(g, ops, ttl), ttl)
    ensures EnabledAll(g.vault, VaultOps(g, ops, ttl), ttl)
    decreases |ops|
  {
    if ops != [] {
      var init := ops[..|ops| - 1];
      GateRunsVault(g, init, ttl);
      OneMoreAtVault(g, GateRun(g, init, ttl), Last(ops), VaultOps(g, init, ttl), ttl);
    }
  }

  lemma OneMoreAtVault(start: Gate, g: Gate, op: GateOp, before: seq<Op>, ttl: nat)
    requires g.vault == RunAll(start.vault, before, ttl) && EnabledAll(start.vault, before, ttl) && GateEnabled(g, op)
    ensures GateStep(g, op, ttl).vault == RunAll(start.vault, before + AtVault(g, op), ttl)
    ensures EnabledAll(start.vault, before + AtVault(g, op), ttl)
  {
    var at := AtVault(g, op);
    var all := before + at;
    AtVaultIsStep(g, op, ttl);
    if at == [] {
      assert all == before;
    } else {
      assert all[..|all| - 1] == before && Last(all) == at[0];
    }
  }

  lemma AtVaultIsStep(g: Gate, op: GateOp, ttl: nat)
    requires GateEnabled(g, op)
    ensures |AtVault(g, op)| <= 1
    ensures GateStep(g, op, ttl).vault ==
            if AtVault(g, op) == [] then g.vault else Step(g.vault, AtVault(g, op)[0], ttl)
    ensures AtVault(g, op) != [] ==> Enabled(g.vault, AtVault(g, op)[0])
  {
  }

  /** The same for the approvals behind an executor: whoever uses one up presents its token in time. */
  lemma RootUsesAreWarranted(hasStore: bool, rootToken: Text, ops: seq<GateOp>, ttl: nat)
    requires GateEnabledAll(Gate(EMPTY, hasStore, rootToken, 0, 0, 0), ops, ttl)
    ensures var start := Gate(EMPTY, hasStore, rootToken, 0, 0, 0);
            Traced(VaultOps(start, ops, ttl), GateRun(start, ops, ttl).vault, ttl)
  {
    var start := Gate(EMPTY, hasStore, rootToken, 0, 0, 0);
    GateRunsVault(start, ops, ttl);
    UsesAreWarranted(VaultOps(start, ops, ttl), ttl);
  }

  /** A root caller is let in exactly by an approval of its token that has not expired, or by the static token. */
  lemma RootIsLetInBy(g: Gate, token: Text, now: Time, met: Option<nat>)
    requires Enabled(g.vault, Consume("root", token, now, met))
    ensures Authorize(g, "root", token, now, met).0 <==>
            || (g.hasStore && ByApproval(g.vault.files, "root", token, now, met))
            || (Trim(token) != [] && Trim(token) == g.rootToken)
  {
    var root: Text := "root";
    assert root[0] == 'r' && root[3] == 't';
    TrimmedIsFixed(root);
  }

  /** The approval is of this profile, has this token, and has not expired. */
  predicate ByApproval(files: Files, profile: Text, token: Text, now: Time, met: Option<nat>) {
    && Trim(token) != []
    && met.Some? && (Approved, met.value) in files
    && var r := files[(Approved, met.value)];
    && r.token == Trim(token) && r.profile == profile
    && (r.expiresAt.Some? ==> now <= r.expiresAt.value)
  }

  predicate Balanced(g: Gate) {
    Sound(g.vault) && g.granted + g.elsewhere == |g.vault.uses| + g.byToken && (g.rootToken == [] ==> g.byToken == 0)
  }

  lemma GateStepKeepsBalance(g: Gate, op: GateOp, ttl: nat)
    requires Balanced(g) && GateEnabled(g, op)
    ensures Balanced(GateStep(g, op, ttl))
  {
    match op
    case Manage(o) => StepKeepsSound(g.vault, o, ttl);
    case Enter(profile, token, now, met) => StepKeepsSound(g.vault, Consume(profile, token, now, met), 0);
  }

  /**
   Root authorizations are conserved over every run: those by the executor and those elsewhere are together the
   consumed approvals and the uses of the static token; without a static token, exactly the consumed approvals.
   */
  lemma {:induction false} RootGrantsAreConserved(hasStore: bool, rootToken: Text, ops: seq<GateOp>, ttl: nat)
    requires GateEnabledAll(Gate(EMPTY, hasStore, rootToken, 0, 0, 0), ops, ttl)
    ensures var g := GateRun(Gate(EMPTY, hasStore, rootToken, 0, 0, 0), ops, ttl);
            && Balanced(g) && g.rootToken == rootToken
            && g.granted + g.elsewhere == |ConsumedIds(g.vault)| + g.byToken
            && (rootToken == [] ==> g.granted + g.elsewhere == |ConsumedIds(g.vault)|)
    decreases |ops|
  {
    var start := Gate(EMPTY, hasStore, rootToken, 0, 0, 0);
    if ops != [] {
      RootGrantsAreConserved(hasStore, rootToken, ops[..|ops| - 1], ttl);
      GateStepKeepsBalance(GateRun(start, ops[..|ops| - 1], ttl), Last(ops), ttl);
    }
    UsesAreConserved(GateRun(start, ops, ttl).vault);
  }
}
