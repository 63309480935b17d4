/** What each operation of the task runtime makes of the task it is for, field by field. */
module RuntimeFields {
  import opened Prelude
  import opened Strings
  import opened Runtime

  /** A task in the inbox, as the request asks for it. */
  predicate IsNew(t: Task, req: CreateTaskRequest, now: Time) {
    && t.id == now && t.state == Inbox && t.createdAt == now && t.updatedAt == now
    && (t.title, t.goal, t.skill) == (Trim(req.title), Trim(req.goal), Trim(req.skill))
    && (t.requestedBy, t.source) == (Trim(req.requestedBy), Trim(req.source))
    && t.profile == OrElse(req.profile, "user") && t.requiresApproval == req.requiresApproval
    && t.nextAction == [] && t.failureReason == [] && t.metadata == req.metadata
  }

  /** What no operation changes. */
  predicate SameAssignment(a: Task, b: Task) {
    && a.id == b.id && a.createdAt == b.createdAt && a.title == b.title && a.goal == b.goal
    && a.requestedBy == b.requestedBy && a.source == b.source && a.profile == b.profile
  }

  /** The task is filed under its state and id. */
  predicate FiledAs(s: System, t: Task) {
    (t.state, t.id) in s.files && s.files[(t.state, t.id)] == t
  }

  /** The task was taken up: it is active, and has a skill if it came from the inbox. */
  predicate TakenUp(before: Task, t: Task, suggest: Task -> Text, m: Moment) {
    && SameAssignment(before, t) && t.requiresApproval == before.requiresApproval
    && t.state == Active && t.updatedAt == m.now && t.nextAction == "execute via selected skill"
    && t.failureReason == before.failureReason && t.metadata == before.metadata
    && t.skill == if before.state == Inbox && Trim(before.skill) == [] then suggest(before) else before.skill
  }

  lemma MovedIsFiled(s: System, k: (TaskState, nat), next: TaskState, mutate: Task -> Task, now: Time)
    requires Filed(s) && KeepsIdentity(mutate) && k in s.files
    ensures var (after, r) := MoveTask(s, k.1, next, mutate, now);
            && r == Ok(mutate(s.files[k]).(state := next, updatedAt := now))
            && Filed(after) && FiledAs(after, r.value) && k.1 in Ids(after) && SameBut(s, after, k.1)
            && r.value.id == k.1 && after.state == s.state
  {
    FindsTheOnly(s, k);
    MoveKeepsFiled(s, k.1, next, mutate, now);
    assert k.1 in Ids(s);
  }

  lemma ActivatedIsTakenUp(s: System, k: (TaskState, nat), suggest: Task -> Text, m: Moment)
    requires Filed(s) && s.state.Some? && k in s.files && k.0 != Inbox
    ensures var (after, r) := ActivateTask(s, k.1, m);
            r.Ok? && FiledAs(after, r.value) && TakenUp(s.files[k], r.value, suggest, m)
  {
    FindsTheOnly(s, k);
    MovedIsFiled(s, k, Active, Activated(), m.now);
  }

  /** Taking up the newest open task. */
  lemma TakeUpTakesUp(s: System, k: (TaskState, nat), suggest: Task -> Text, m: Moment)
    requires Filed(s) && s.state.Some? && k in s.files && Open(s.files[k].state)
    ensures var (after, r) := TakeUp(s, s.files[k], suggest, m);
            && r.Ok? && FiledAs(after, r.value)
            && if k.0 == Inbox || k.0 == Planned then TakenUp(s.files[k], r.value, suggest, m)
               else after == s && r.value == s.files[k]
  {
    FindsTheOnly(s, k);
    if k.0 == Inbox {
      MovedIsFiled(s, k, Planned, Planned_(suggest), m.now);
      ActivatedIsTakenUp(MoveTask(s, k.1, Planned, Planned_(suggest), m.now).0, (Planned, k.1), suggest, m);
    } else if k.0 == Planned {
      ActivatedIsTakenUp(s, k, suggest, m);
    }
  }

  /** Waiting to be carried on with: no task that was created later is. */
  predicate NewestWaiting(s: System, k: (TaskState, nat)) {
    && k in s.files && k.0 in {Inbox, Planned, AwaitingApproval, Active}
    && forall j :: j in s.files && j.0 in {Inbox, Planned, AwaitingApproval, Active} ==>
      s.files[j].createdAt <= s.files[k].createdAt
  }

  lemma NewestIsWaiting(s: System, k: (TaskState, nat))
    requires Filed(s)
    ensures IsNewestOpen(s.files, k) <==> NewestWaiting(s, k)
  {
    forall j | j in s.files
      ensures j.0 != Archived && Open(s.files[j].state) <==> j.0 in {Inbox, Planned, AwaitingApproval, Active}
    {
      assert FiledAt(s, j);
    }
  }

  /** The orchestrator carries on with the task pointed at, if it is active, and else with the newest one that waits. */
  lemma AdvanceTakesUp(s: System, suggest: Task -> Text, m: Moment)
    requires Tidy(s) && s.state.Some?
    ensures var (after, r) := Advance(s, suggest, m);
            if PointsAtActive(s) then
              && after == s && (Active, s.state.value.active.value) in s.files
              && r == Ok(s.files[(Active, s.state.value.active.value)])
            else if exists k :: NewestWaiting(s, k) then
              && r.Ok? && FiledAs(after, r.value)
              && exists k :: NewestWaiting(s, k) &&
                   if k.0 == Inbox || k.0 == Planned then TakenUp(s.files[k], r.value, suggest, m)
                   else after.files == s.files && r.value == s.files[k]
            else r == Err(TaskNotFound) && after.files == s.files
  {
    if PointsAtActive(s) {
      FoundIsFiled(s, s.state.value.active.value);
    } else {
      var s1 := if s.state.value.active.Some? then s.(state := Some(IDLE)) else s;
      StateChangeKeepsFiled(s, s1.state);
      WaitingIffOpen(s);
      if NewestOpen(s.files).Some? {
        var k := NewestOpen(s.files).value;
        NewestIsWaiting(s, k);
        TakeUpTakesUp(s1, k, suggest, m);
      }
    }
  }

  lemma WaitingIffOpen(s: System)
    requires Filed(s)
    ensures NewestOpen(s.files).Some? <==> exists k :: NewestWaiting(s, k)
    ensures NewestOpen(s.files).Some? ==> IsNewestOpen(s.files, NewestOpen(s.files).value)
  {
    if k :| NewestWaiting(s, k) {
      NewestIsWaiting(s, k);
    }
    if NewestOpen(s.files).Some? {
      NewestIsWaiting(s, NewestOpen(s.files).value);
    }
  }

  /** A new task is as its request asks, in the inbox or taken up already; a request needs a title and a goal. */
  lemma SubmittedIsAsAsked(s: System, req: CreateTaskRequest, suggest: Task -> Text, now: Time, m: Moment)
    requires Tidy(s) && s.clock <= now
    ensures var (after, r) := SubmitTask(s, req, suggest, now, m);
            if Trim(req.title) == [] || Trim(req.goal) == [] then after == s && r == Err(InvalidInput)
            else if s.state.None? || PointsAtActive(s) then
              (Inbox, now) in after.files && IsNew(after.files[(Inbox, now)], req, now)
            else
              && r.Ok? && FiledAs(after, r.value)
              && exists t :: IsNew(t, req, now) && TakenUp(t, r.value, suggest, m)
  {
    if Creatable(req) {
      var t := NewTask(req, now);
      DefaultIsTaken(req.profile, "user");
      assert IsNew(t, req, now);
      CreateKeepsTasks(s, req, now);
      if s.state.Some? {
        PointerSurvivesCreation(s, req, now);
        if !PointsAtActive(s) {
          SubmitTakesUp(s, req, suggest, now, m);
          var created := CreateTask(s, req, now);
          var s1 := if created.state.value.active.Some? then created.(state := Some(IDLE)) else created;
          TakeUpTakesUp(s1, (Inbox, now), suggest, m);
        }
      }
    }
  }

  // ----- Recovery, requeueing, approval and denial -----

  /** A task that a crash left active is planned again, and says so. */
  lemma RecoveredSaysSo(s: System, m: Moment)
    requires Tidy(s) && PointsAtActive(s)
    ensures var id := s.state.value.active.value;
            var after := Recover(s, m).0;
            && (Active, id) in s.files && (Planned, id) in after.files
            && var (t, r) := (s.files[(Active, id)], after.files[(Planned, id)]);
               && SameAssignment(t, r) && r.state == Planned && r.updatedAt == m.now
               && (r.requiresApproval, r.skill, r.failureReason) == (t.requiresApproval, t.skill, t.failureReason)
               && r.nextAction == "recovered for re-execution"
               && r.metadata == t.metadata + map["recovered_from_active" := "true", "recovered_at" := m.stamp]
  {
    var id := s.state.value.active.value;
    FoundIsFiled(s, id);
    MovedIsFiled(s, (Active, id), Planned, Recovered(m), m.now);
  }

  predicate IsNamed(state: TaskState, name: Text) {
    match state
    case Planned => name == "planned"
    case Active => name == "active"
    case Blocked => name == "blocked"
    case Failed => name == "failed"
    case AwaitingApproval => name == "awaiting_approval"
    case _ => false
  }

  /** The metadata of a task that runs again: one more run, and no trace of the token and the action of the last. */
  predicate RunsAgain(t: Task, metadata: map<Text, Text>, trigger: Text, count: Text -> Text, m: Moment) {
    && metadata.Keys == t.metadata.Keys - {"approval_token", "last_action_id"} +
         {"rerun_count", "last_rerun_trigger", "last_rerun_from_state", "last_rerun_at"}
    && metadata["rerun_count"] == count(if "rerun_count" in t.metadata then t.metadata["rerun_count"] else [])
    && metadata["last_rerun_trigger"] == trigger && metadata["last_rerun_at"] == m.stamp
    && IsNamed(t.state, metadata["last_rerun_from_state"])
    && (forall key :: key in t.metadata && key in metadata ==>
         || metadata[key] == t.metadata[key]
         || key in {"rerun_count", "last_rerun_trigger", "last_rerun_from_state", "last_rerun_at"})
  }

  lemma RerunRunsAgain(t: Task, trigger: Text, count: Text -> Text, m: Moment)
    requires Requeueable(t.state)
    ensures var md := RerunMetadata(t.metadata, trigger, StateName(t.state), count, m);
            RunsAgain(t, md, OrElse(trigger, "manual"), count, m)
  {
    DefaultIsTaken(trigger, "manual");
  }

  /** The states that a task can be requeued from. */
  predicate CanRunAgain(s: System, k: (TaskState, nat)) {
    k in s.files && k.0 in {Planned, Active, Blocked, Failed, AwaitingApproval}
  }

  /** The task as it is requeued, before what the caller changes of it. */
  ghost predicate IsRerun(t: Task, r: Task, trigger: Text, count: Text -> Text, m: Moment) {
    && SameAssignment(t, r) && r.requiresApproval == t.requiresApproval && r.skill == t.skill && r.failureReason == []
    && r.nextAction == "rerun requested" && RunsAgain(t, r.metadata, trigger, count, m)
  }

  lemma RequeueChanges(s: System, k: (TaskState, nat), trigger: Text, count: Text -> Text, mutate: Task -> Task,
    m: Moment) returns (rerun: Task)
    requires Tidy(s) && CanRunAgain(s, k) && s.state.Some? && KeepsIdentity(mutate)
    ensures IsRerun(s.files[k], rerun, OrElse(trigger, "manual"), count, m)
    ensures var (after, r) := RequeueTask(s, k.1, trigger, count, mutate, m);
            && r == Ok(mutate(rerun).(state := Planned, updatedAt := m.now))
            && Filed(after) && FiledAs(after, r.value) && r.value.id == k.1 && after.state.Some?
  {
    FindsTheOnly(s, k);
    var t := s.files[k];
    RerunRunsAgain(t, trigger, count, m);
    rerun := t.(metadata := RerunMetadata(t.metadata, trigger, StateName(t.state), count, m), failureReason := [],
                nextAction := "rerun requested");
    var s1 := if s.state.value.active == Some(k.1) then s.(state := Some(IDLE)) else s;
    StateChangeKeepsFiled(s, s1.state);
    RequeuedKeepsIdentity(trigger, StateName(t.state), count, m, mutate);
    MovedIsFiled(s1, k, Planned, Requeued(trigger, StateName(t.state), count, m, mutate), m.now);
  }

  lemma RequeuedRunsAgain(s: System, k: (TaskState, nat), trigger: Text, count: Text -> Text, m: Moment)
    requires Tidy(s) && CanRunAgain(s, k) && s.state.Some?
    ensures var (after, r) := RequeueTask(s, k.1, trigger, count, Unchanged(), m);
            && r.Ok? && FiledAs(after, r.value) && IsRerun(s.files[k], r.value, OrElse(trigger, "manual"), count, m)
            && r.value.state == Planned && r.value.updatedAt == m.now
  {
    var rerun := RequeueChanges(s, k, trigger, count, Unchanged(), m);
  }

  /** The task was requeued, and then approved and activated. */
  ghost predicate IsApproved(t: Task, r: Task, who: Text, count: Text -> Text, m: Moment) {
    && SameAssignment(t, r) && r.state == Active && r.updatedAt == m.now && !r.requiresApproval
    && r.nextAction == "execute via selected skill" && r.skill == t.skill && r.failureReason == []
    && exists md :: RunsAgain(t, md, "approval_granted", count, m) && r.metadata == md["approved_by" := who]
  }

  /** An approved task is active, needs no approval any more, and says who approved it. */
  lemma ApprovedIsActive(s: System, k: (TaskState, nat), who: Text, count: Text -> Text, m: Moment)
    requires Tidy(s) && CanRunAgain(s, k) && s.state.Some?
    ensures var (after, r) := ApproveTask(s, k.1, who, count, m);
            r.Ok? && FiledAs(after, r.value) && IsApproved(s.files[k], r.value, who, count, m)
  {
    TrimmedIsFixed("approval_granted");
    var rerun := RequeueChanges(s, k, "approval_granted", count, ApprovedBy(who), m);
    var requeued := RequeueTask(s, k.1, "approval_granted", count, ApprovedBy(who), m).0;
    MovedIsFiled(requeued, (Planned, k.1), Active, Activated(), m.now);
    assert RunsAgain(s.files[k], rerun.metadata, "approval_granted", count, m);
  }

  /** A denied task has failed, and says why and by whom; a task without metadata cannot be denied. */
  lemma DeniedSaysWhy(s: System, k: (TaskState, nat), who: Text, reason: Text, m: Moment)
    requires Tidy(s) && k in s.files
    ensures var (after, r) := DenyTask(s, k.1, who, reason, m);
            var t := s.files[k];
            if t.metadata == map[] then r == Err(Panic) && after == s
            else
              && r.Ok? && FiledAs(after, r.value) && SameAssignment(t, r.value)
              && r.value.state == Failed && r.value.updatedAt == m.now && r.value.nextAction == "task denied"
              && r.value.requiresApproval == t.requiresApproval && r.value.skill == t.skill
              && r.value.failureReason == OrElse(reason, "denied")
              && r.value.metadata == t.metadata["denied_by" := who]
  {
    FindsTheOnly(s, k);
    DefaultIsTaken(reason, "denied");
    MovedIsFiled(s, k, Failed, DeniedBy(who, reason), m.now);
  }
}
