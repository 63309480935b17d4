/** The approval store: record files moved between status directories. */
module ApprovalStore {
  import opened Prelude
  import opened Strings
  import opened Approvals

  const TEN_MINUTES: nat := 600000000000

  class Store {
    var files: Files
    var clock: Time
    ghost var uses: seq<Use>
    const ttl: nat

    ghost function State(): Vault
      reads this
    {
      Vault(files, clock, uses)
    }

    ghost predicate Valid()
      reads this
    {
      Sound(State())
    }

    constructor (defaultTtl: int)
      ensures Valid() && State() == EMPTY
      ensures ttl == if defaultTtl <= 0 then TEN_MINUTES else defaultTtl
    {
      files, clock, uses := map[], 0, [];
      ttl := if defaultTtl <= 0 then TEN_MINUTES else defaultTtl;
    }

    method FindLocked(id: nat) returns (found: Option<Status>)
      ensures found == Find(files, id)
    {
      for i := 0 to |SEARCH_ORDER|
        invariant i > 0 ==> (Pending, id) !in files
        invariant i > 1 ==> (Approved, id) !in files
        invariant i > 2 ==> (Denied, id) !in files
        invariant i > 3 ==> (Consumed, id) !in files
      {
        assert SEARCH_ORDER == [Pending, Approved, Denied, Consumed];
        if (SEARCH_ORDER[i], id) in files {
          return Some(SEARCH_ORDER[i]);
        }
      }
      assert |SEARCH_ORDER| == 4;
      return None;
    }

    /** Deletes the record found in one directory and writes it to the directory of its status. */
    method Move(from_: Status, record: Request)
      modifies `files
      ensures files == Refile(old(files), from_, record)
    {
      files := files - {(from_, record.id)};
      files := files[(record.status, record.id) := record];
    }

    /** `now` is a fresh clock reading; it also names the request. */
    method Create(req: CreateRequest, now: Time) returns (r: Result<Request, ApprovalError>)
      requires Valid() && clock <= now
      modifies this
      ensures Valid() && State() == Step(old(State()), Op.Create(req, now), ttl)
      ensures r == if CreateIsValid(req) then Ok(Created(req, now)) else Err(InvalidInput)
      ensures r.Ok? <==> Trim(req.profile) != [] && Trim(req.actionKind) != [] && Trim(req.summary) != []
      ensures r.Ok? ==>
                && r.value.id == now && r.value.status == Pending && r.value.token == [] && r.value.expiresAt == None
                && r.value.taskId == Trim(req.taskId) && r.value.profile == Trim(req.profile)
                && r.value.actionKind == Trim(req.actionKind) && r.value.summary == Trim(req.summary)
                && r.value.requestedBy == Trim(req.requestedBy) && r.value.metadata == req.metadata
                && files == old(files)[(Pending, now) := r.value]
    {
      StepKeepsSound(State(), Op.Create(req, now), ttl);
      if Trim(req.profile) == [] || Trim(req.actionKind) == [] || Trim(req.summary) == [] {
        return Err(InvalidInput);
      }
      var record := Request(now, Trim(req.taskId), Trim(req.profile), Trim(req.actionKind), Trim(req.summary),
                            Trim(req.requestedBy), [], [], [], Pending, [], req.metadata, now, now, None, None);
      files := files[(Pending, now) := record];
      clock := now + 1;
      return Ok(record);
    }

    /** `token` is the random token drawn for the request. */
    method Approve(id: nat, who: Text, token: Text, now: Time) returns (r: Result<Request, ApprovalError>)
      requires Valid() && token != []
      modifies this
      ensures Valid() && State() == Step(old(State()), Op.Approve(id, who, token, now), ttl)
      ensures r.Ok? <==> (Pending, id) in old(files)
      ensures r.Ok? ==> r.value == ApprovedBy(old(files)[(Pending, id)], who, token, now, ttl)
      ensures r.Ok? ==>
                && r.value.token == token && r.value.expiresAt == Some(now + ttl) && r.value.approvedBy == Trim(who)
                && (Pending, id) !in files && (Approved, id) in files && files[(Approved, id)] == r.value
      ensures r.Err? ==> r.error == if Find(old(files), id).None? then NotFound else Refused
    {
      StepKeepsSound(State(), Op.Approve(id, who, token, now), ttl);
      var found := FindLocked(id);
      if found.None? {
        return Err(NotFound);
      }
      var record := files[(found.value, id)];
      FiledUnderStatus(State(), (found.value, id));
      if record.status != Pending {
        return Err(Refused);
      }
      record := record.(status := Approved, token := token);
      record := record.(approvedBy := Trim(who), updatedAt := now, expiresAt := Some(now + ttl));
      assert record == ApprovedBy(files[(Pending, id)], who, token, now, ttl);
      Move(found.value, record);
      return Ok(record);
    }

    method Deny(id: nat, who: Text, reason: Text, now: Time) returns (r: Result<Request, ApprovalError>)
      requires Valid()
      modifies this
      ensures Valid() && State() == Step(old(State()), Op.Deny(id, who, reason, now), ttl)
      ensures r.Ok? <==> (Pending, id) in old(files) || (Approved, id) in old(files)
      ensures r.Ok? ==>
                && r.value.token == [] && r.value.expiresAt == None && r.value.approvedBy == []
                && r.value.deniedBy == Trim(who) && r.value.deniedReason == Trim(reason)
                && (Pending, id) !in files && (Approved, id) !in files && (Denied, id) in files
                && files[(Denied, id)] == r.value
      ensures r.Err? ==> r.error == if Find(old(files), id).None? then NotFound else Refused
    {
      StepKeepsSound(State(), Op.Deny(id, who, reason, now), ttl);
      var found := FindLocked(id);
      if found.None? {
        return Err(NotFound);
      }
      var record := files[(found.value, id)];
      FiledUnderStatus(State(), (found.value, id));
      if record.status != Pending && record.status != Approved {
        return Err(Refused);
      }
      record := record.(status := Denied, token := [], approvedBy := []);
      record := record.(deniedBy := Trim(who), deniedReason := Trim(reason), updatedAt := now, expiresAt := None);
      Move(found.value, record);
      return Ok(record);
    }

    /** The approved records are met in any order; `met` is the first one that matches. */
    method Consume(profile: Text, token: Text, now: Time)
      returns (r: Result<Request, ApprovalError>, ghost met: Option<nat>)
      requires Valid()
      modifies this
      ensures Valid() && State() == Step(old(State()), Op.Consume(profile, token, now, met), ttl)
      ensures Trim(profile) != [] && Trim(token) != [] ==> Enabled(old(State()), Op.Consume(profile, token, now, met))
      ensures r.Ok? <==> Lets(old(State()), profile, token, now, met)
      ensures r.Ok? ==> r.value == ConsumedAt(old(files)[(Approved, met.value)], now)
      ensures r.Ok? ==>
                && met.Some? && (Approved, met.value) in old(files) && Trim(profile) != [] && Trim(token) != []
                && old(files)[(Approved, met.value)].token == Trim(token)
                && old(files)[(Approved, met.value)].profile == Trim(profile)
                && (old(files)[(Approved, met.value)].expiresAt.Some? ==>
                      now <= old(files)[(Approved, met.value)].expiresAt.value)
                && (Approved, met.value) !in files && (Consumed, met.value) in files
      ensures Trim(profile) != [] && Trim(token) != [] && met.None? ==>
                forall k :: k in files && k.0 == Approved ==>
                              files[k].profile != Trim(profile) || files[k].token != Trim(token)
      ensures r.Err? ==> files == old(files)
      ensures r.Err? ==> r.error == if Trim(profile) == [] || Trim(token) == [] then InvalidInput else Refused
    {
      met := None;
      if Trim(profile) == [] || Trim(token) == [] {
        return Err(InvalidInput), None;
      }
      var entries := set k | k in files && k.0 == Approved :: k;
      while entries != {}
        invariant forall k :: k in entries ==> k in files && k.0 == Approved
        invariant forall k :: k in files && k.0 == Approved && k !in entries ==> !Matches(State(), k.1, profile, token)
        decreases |entries|
      {
        var k :| k in entries;
        entries := entries - {k};
        var record := files[k];
        assert k == (Approved, k.1);
        if record.profile != Trim(profile) {
          continue;
        }
        if Trim(token) != record.token {
          continue;
        }
        met := Some(k.1);
        StepKeepsSound(State(), Op.Consume(profile, token, now, met), ttl);
        if record.expiresAt.Some? && now > record.expiresAt.value {
          return Err(Refused), met;
        }
        assert FiledAt(files, clock, k);
        record := UseUp(record, now);
        return Ok(record), met;
      }
      return Err(Refused), None;
    }

    /** The record of an approval that is being used. */
    method UseUp(given: Request, now: Time) returns (record: Request)
      requires (Approved, given.id) in files && files[(Approved, given.id)] == given
      modifies `files, `uses
      ensures record == ConsumedAt(given, now)
      ensures files == Refile(old(files), Approved, record) && uses == old(uses) + [Use(given.id, now)]
      ensures (Approved, given.id) !in files && (Consumed, given.id) in files
    {
      record := given.(status := Consumed, token := [], usedAt := Some(now), updatedAt := now);
      Move(Approved, record);
      uses := uses + [Use(record.id, now)];
    }
  }
}
