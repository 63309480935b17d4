/** Tasks in state-named directories, the runtime record that points at the active one, and what moves them. */
module Runtime {
  import opened Prelude
  import opened Strings

  type Time = nat

  datatype TaskState = Inbox | Planned | Active | Blocked | AwaitingApproval | Done | Failed | Archived

  datatype Task = Task(
    id: nat, title: Text, goal: Text, state: TaskState, createdAt: Time, updatedAt: Time, requestedBy: Text,
      source: Text,
    profile: Text, requiresApproval: bool, skill: Text, nextAction: Text, failureReason: Text,
      metadata: map<Text, Text>)

  datatype CreateTaskRequest = CreateTaskRequest(
    title: Text, goal: Text, requestedBy: Text, source: Text, profile: Text, requiresApproval: bool, skill: Text,
    metadata: map<Text, Text>)

  datatype RuntimeState = RuntimeState(status: Text, active: Option<nat>)

  datatype RuntimeError = NoState | TaskNotFound | InvalidInput | NotRequeueable | Panic

  type Files = map<(TaskState, nat), Task>

  /** The task files, the runtime record if it has been written, and the least clock reading not yet used for an id. */
  datatype System = System(files: Files, state: Option<RuntimeState>, clock: nat)

  /** The instant of an operation, and its printed form. */
  datatype Moment = Moment(now: Time, stamp: Text)

  // ----- The task store -----

  function Find(files: Files, id: nat): Option<TaskState> {
    if (Inbox, id) in files then Some(Inbox)
    else if (Planned, id) in files then Some(Planned)
    else if (Active, id) in files then Some(Active)
    else if (Blocked, id) in files then Some(Blocked)
    else if (AwaitingApproval, id) in files then Some(AwaitingApproval)
    else if (Done, id) in files then Some(Done)
    else if (Failed, id) in files then Some(Failed)
    else if (Archived, id) in files then Some(Archived)
    else None
  }

  function GetTask(files: Files, id: nat): Result<Task, RuntimeError> {
    match Find(files, id)
    case None => Err(TaskNotFound)
    case Some(s) => Ok(files[(s, id)])
  }

  function NewTask(req: CreateTaskRequest, now: Time): Task {
    Task(now, Trim(req.title), Trim(req.goal), Inbox, now, now, Trim(req.requestedBy), Trim(req.source),
         FirstNonEmpty(req.profile, "user"), req.requiresApproval, Trim(req.skill), [], [], req.metadata)
  }

  predicate Creatable(req: CreateTaskRequest) {
    Trim(req.title) != [] && Trim(req.goal) != []
  }

  function CreateTask(s: System, req: CreateTaskRequest, now: Time): System {
    if Creatable(req) then s.(files := s.files[(Inbox, now) := NewTask(req, now)], clock := now + 1) else s
  }

  /** Moving a found task: its changed copy replaces it, in the directory of its new state. */
  function Moved(files: Files, from_: TaskState, t: Task, next: TaskState, now: Time): Files {
    (files - {(from_, t.id)})[(next, t.id) := t.(state := next, updatedAt := now)]
  }

  function MoveTask(s: System, id: nat, next: TaskState, mutate: Task -> Task, now: Time)
    : (System, Result<Task, RuntimeError>) {
    match Find(s.files, id)
    case None => (s, Err(TaskNotFound))
    case Some(f) =>
      var t := mutate(s.files[(f, id)]);
      (s.(files := Moved(s.files, f, t, next, now)), Ok(t.(state := next, updatedAt := now)))
  }

  // ----- The orchestrator -----

  const IDLE := RuntimeState("idle", None)

  function Recovered(m: Moment): Task -> Task {
    (t: Task) => t.(metadata := t.metadata["recovered_from_active" := "true"]["recovered_at" := m.stamp],
            nextAction := "recovered for re-execution")
  }

  function Recover(s: System, m: Moment): (System, Result<(), RuntimeError>) {
    if s.state.None? then (s, Err(NoState))
    else if s.state.value.active.None? then
      (if s.state.value.status != "idle" then s.(state := Some(s.state.value.(status := "idle"))) else s, Ok(()))
    else
      var id := s.state.value.active.value;
      var found := GetTask(s.files, id);
      var moved := if found.Ok? && found.value.state == Active then MoveTask(s, id, Planned, Recovered(m), m.now).0
        else s;
      (moved.(state := Some(IDLE)), Ok(()))
  }

  function Planned_(suggest: Task -> Text): Task -> Task {
    (t: Task) => t.(skill := if Trim(t.skill) == [] then suggest(t) else t.skill, nextAction := "ready for execution")
  }

  function Activated(): Task -> Task {
    (t: Task) => t.(nextAction := "execute via selected skill")
  }

  function ActivateTask(s: System, id: nat, m: Moment): (System, Result<Task, RuntimeError>) {
    var (moved, r) := MoveTask(s, id, Active, Activated(), m.now);
    if r.Err? then (moved, r)
    else if moved.state.None? then (moved, Err(NoState))
    else (moved.(state := Some(RuntimeState("busy", Some(r.value.id)))), r)
  }

  predicate Open(state: TaskState) {
    state == Inbox || state == Planned || state == AwaitingApproval || state == Active
  }

  /** The newest task that is still open; archived tasks are not listed. */
  ghost predicate IsNewestOpen(files: Files, k: (TaskState, nat)) {
    && k in files && k.0 != Archived && Open(files[k].state)
    && forall j :: j in files && j.0 != Archived && Open(files[j].state) ==> files[j].createdAt <= files[k].createdAt
  }

  ghost function NewestOpen(files: Files): Option<(TaskState, nat)> {
    if k :| IsNewestOpen(files, k) then Some(k) else None
  }

  predicate PointsAtActive(s: System) {
    s.state.Some? && s.state.value.active.Some? && GetTask(s.files, s.state.value.active.value).Ok? &&
    GetTask(s.files, s.state.value.active.value).value.state == Active
  }

  /** Carrying on with the newest open task. */
  function TakeUp(s: System, t: Task, suggest: Task -> Text, m: Moment): (System, Result<Task, RuntimeError>) {
    if t.state == Inbox then
      var (planned, r) := MoveTask(s, t.id, Planned, Planned_(suggest), m.now);
      if r.Err? then (planned, r) else ActivateTask(planned, r.value.id, m)
    else if t.state == Planned then ActivateTask(s, t.id, m)
    else (s, Ok(t))
  }

  ghost function Advance(s: System, suggest: Task -> Text, m: Moment): (System, Result<Task, RuntimeError>) {
    if s.state.None? then (s, Err(NoState))
    else if PointsAtActive(s) then (s, GetTask(s.files, s.state.value.active.value))
    else
      var s1 := if s.state.value.active.Some? then s.(state := Some(IDLE)) else s;
      match NewestOpen(s1.files)
      case None => (s1, Err(TaskNotFound))
      case Some(k) => TakeUp(s1, s1.files[k], suggest, m)
  }

  ghost function SubmitTask(s: System, req: CreateTaskRequest, suggest: Task -> Text, now: Time, m: Moment)
    : (System, Result<Task, RuntimeError>)
  {
    if !Creatable(req) then (s, Err(InvalidInput)) else Advance(CreateTask(s, req, now), suggest, m)
  }

  predicate Requeueable(state: TaskState) {
    state == Planned || state == Active || state == Blocked || state == Failed || state == AwaitingApproval
  }

  function RerunMetadata(metadata: map<Text, Text>, trigger: Text, origin: Text, count: Text -> Text,
    m: Moment): map<Text, Text> {
    var md := metadata - {"approval_token", "last_action_id"};
    var md := md["rerun_count" := count(if "rerun_count" in md then md["rerun_count"] else [])];
    var md := md["last_rerun_trigger" := FirstNonEmpty(trigger, "manual")];
    var md := md["last_rerun_from_state" := origin];
    md["last_rerun_at" := m.stamp]
  }

  /** The requeued task, given how its run counter and its state of origin are printed. */
  function Requeued(trigger: Text, origin: Text, count: Text -> Text, m: Moment, mutate: Task -> Task): Task -> Task {
    (t: Task) =>
      mutate(t.(metadata := RerunMetadata(t.metadata, trigger, origin, count, m), failureReason := [],
                nextAction := "rerun requested"))
  }

  function StateName(state: TaskState): Text {
    match state
    case Inbox => "inbox"
    case Planned => "planned"
    case Active => "active"
    case Blocked => "blocked"
    case AwaitingApproval => "awaiting_approval"
    case Done => "done"
    case Failed => "failed"
    case Archived => "archived"
  }

  function RequeueTask(s: System, id: nat, trigger: Text, count: Text -> Text, mutate: Task -> Task, m: Moment)
    : (System, Result<Task, RuntimeError>)
  {
    var found := GetTask(s.files, id);
    if found.Err? then (s, found)
    else if !Requeueable(found.value.state) then (s, Err(NotRequeueable))
    else if s.state.None? then (s, Err(NoState))
    else
      var s1 := if s.state.value.active == Some(id) then s.(state := Some(IDLE)) else s;
      MoveTask(s1, id, Planned, Requeued(trigger, StateName(found.value.state), count, m, mutate), m.now)
  }

  function ApprovedBy(who: Text): Task -> Task {
    (t: Task) => t.(requiresApproval := false, metadata := t.metadata["approved_by" := who],
      nextAction := "approved for execution")
  }

  function ApproveTask(s: System, id: nat, who: Text, count: Text -> Text, m: Moment)
    : (System, Result<Task, RuntimeError>) {
    var (requeued, r) := RequeueTask(s, id, "approval_granted", count, ApprovedBy(who), m);
    if r.Err? then (requeued, r) else ActivateTask(requeued, r.value.id, m)
  }

  function DeniedBy(who: Text, reason: Text): Task -> Task {
    (t: Task) => t.(failureReason := FirstNonEmpty(reason, "denied"), nextAction := "task denied",
      metadata := t.metadata["denied_by" := who])
  }

  /** An empty metadata map is not stored, so a task without metadata is read back without a map to write to. */
  function DenyTask(s: System, id: nat, who: Text, reason: Text, m: Moment): (System, Result<Task, RuntimeError>) {
    var found := GetTask(s.files, id);
    if found.Ok? && found.value.metadata == map[] then (s, Err(Panic))
    else MoveTask(s, id, Failed, DeniedBy(who, reason), m.now)
  }

  /** A skill run ends: the task moves on and the runtime record lets go of it. */
  function FinishTask(s: System, id: nat, next: TaskState, mutate: Task -> Task, m: Moment)
    : (System, Result<Task, RuntimeError>) {
    var (moved, r) := MoveTask(s, id, next, mutate, m.now);
    if r.Err? then (moved, r)
    else if moved.state.None? then (moved, Err(NoState))
    else (if moved.state.value.active == Some(id) then moved.(state := Some(IDLE)) else moved, r)
  }

  // ----- Invariant -----

  predicate FiledAt(s: System, k: (TaskState, nat))
    requires k in s.files
  {
    var t := s.files[k];
    && t.state == k.0 && t.id == k.1 && t.createdAt == t.id && t.id < s.clock
    && (forall d: TaskState :: d != k.0 ==> (d, k.1) !in s.files)
  }

  /** Every task is in exactly one directory, that of its state. */
  predicate Filed(s: System) {
    forall k :: k in s.files ==> FiledAt(s, k)
  }

  /** The record says busy exactly when it points at a task, and every active task is the one it points at. */
  predicate Pointed(s: System) {
    && StatusFits(s)
    && OnlyActive(s, if s.state.Some? then s.state.value.active else None)
  }

  predicate StatusFits(s: System) {
    s.state.Some? ==> (s.state.value.status == "busy" <==> s.state.value.active.Some?)
  }

  predicate OnlyActive(s: System, id: Option<nat>) {
    forall k :: k in s.files && k.0 == Active ==> id == Some(k.1)
  }

  /** What holds whatever is approved when: the part of the invariant that does not speak of active tasks. */
  predicate Tidy(s: System) {
    Filed(s) && StatusFits(s)
  }

  predicate Sound(s: System) {
    Filed(s) && Pointed(s)
  }

  /** What a change to a task may not touch. */
  ghost predicate KeepsIdentity(mutate: Task -> Task) {
    forall t :: mutate(t).id == t.id && mutate(t).createdAt == t.createdAt
  }

  function Ids(s: System): set<nat> {
    set k | k in s.files :: k.1
  }

  lemma FindsTheOnly(s: System, k: (TaskState, nat))
    requires Filed(s) && k in s.files
    ensures Find(s.files, k.1) == Some(k.0) && GetTask(s.files, k.1) == Ok(s.files[k]) && s.files[k].state == k.0 &&
      s.files[k].id == k.1
  {
    assert FiledAt(s, k);
  }

  lemma FoundIsFiled(s: System, id: nat)
    requires Filed(s) && Find(s.files, id).Some?
    ensures var k := (Find(s.files, id).value, id); k in s.files && FiledAt(s, k)
  {
  }

  /** Moving keeps every task in one directory and loses none; the moved one is where it was sent. */
  lemma MoveKeepsFiled(s: System, id: nat, next: TaskState, mutate: Task -> Task, now: Time)
    requires Filed(s) && KeepsIdentity(mutate)
    ensures var (after, r) := MoveTask(s, id, next, mutate, now);
            && Filed(after) && Ids(after) == Ids(s) && after.state == s.state && after.clock == s.clock
            && (r.Ok? <==> id in Ids(s))
            && (r.Err? ==> after == s && r.error == TaskNotFound)
            && (r.Ok? ==> r.value.id == id && r.value.state == next
                          && (next, id) in after.files && after.files[(next, id)] == r.value)
            && (forall k: (TaskState, nat) :: k.1 != id ==> (k in after.files <==> k in s.files))
            && (forall k: (TaskState, nat) :: k.1 != id && k in s.files ==> after.files[k] == s.files[k])
            && (forall d: TaskState :: r.Ok? && d != next ==> (d, id) !in after.files)
  {
    var (after, r) := MoveTask(s, id, next, mutate, now);
    if Find(s.files, id).None? {
      assert id !in Ids(s);
    } else {
      FoundIsFiled(s, id);
      var f := Find(s.files, id).value;
      assert (f, id) in s.files;
      assert mutate(s.files[(f, id)]).id == id;
      forall k | k in after.files
        ensures FiledAt(after, k)
      {
        if k != (next, id) {
          assert FiledAt(s, k);
        }
      }
      forall i
        ensures i in Ids(after) <==> i in Ids(s)
      {
        if i in Ids(s) {
          var k :| k in s.files && k.1 == i;
          assert i == id || k in after.files;
          assert i == id ==> (next, id) in after.files;
        }
      }
    }
  }

  /** No other task has changed. */
  ghost predicate SameBut(s: System, after: System, id: nat) {
    && (forall k: (TaskState, nat) :: k.1 != id ==> (k in after.files <==> k in s.files))
    && (forall k: (TaskState, nat) :: k.1 != id && k in s.files ==> after.files[k] == s.files[k])
  }

  /** Activating a task: it becomes the one pointed at, and that is right exactly when no other task is active. */
  lemma ActivateTaskOutcome(s: System, id: nat, m: Moment)
    requires Filed(s) && s.state.Some? && id in Ids(s)
    ensures var (after, r) := ActivateTask(s, id, m);
            && Filed(after) && Ids(after) == Ids(s) && r.Ok? && r.value.id == id && r.value.state == Active
            && after.state == Some(RuntimeState("busy", Some(id))) && after.clock == s.clock
            && (Active, id) in after.files && PointsAtActive(after)
            && (Sound(after) <==> forall k :: k in s.files && k.0 == Active ==> k.1 == id)
            && SameBut(s, after, id)
  {
    MoveKeepsFiled(s, id, Active, Activated(), m.now);
    var (after, r) := ActivateTask(s, id, m);
    assert after.files == MoveTask(s, id, Active, Activated(), m.now).0.files;
    forall k | k in after.files
      ensures FiledAt(after, k)
    {
      assert FiledAt(MoveTask(s, id, Active, Activated(), m.now).0, k);
    }
    FindsTheOnly(after, (Active, id));
    forall k: (TaskState, nat) | k.0 == Active && k.1 != id
      ensures k in after.files <==> k in s.files
    {
    }
  }

  lemma StateChangeKeepsFiled(s: System, state: Option<RuntimeState>)
    requires Filed(s)
    ensures Filed(s.(state := state)) && Ids(s.(state := state)) == Ids(s)
  {
    forall k | k in s.files
      ensures FiledAt(s.(state := state), k)
    {
      assert FiledAt(s, k);
    }
  }

  lemma TakeUpOutcome(s: System, k: (TaskState, nat), suggest: Task -> Text, m: Moment)
    requires Tidy(s) && s.state.Some? && s.state.value.active.None? && k in s.files && Open(s.files[k].state)
    ensures var (after, r) := TakeUp(s, s.files[k], suggest, m);
            && Tidy(after) && Ids(after) == Ids(s) && r.Ok? && r.value.id == k.1 && after.state.Some?
            && (after.state.value.active.Some? ==> PointsAtActive(after))
            && (k.0 == Inbox || k.0 == Planned ==>
                  r.value.state == Active && PointsAtActive(after) && after.state.value.active == Some(k.1))
            && (Sound(after) <==> OnlyActive(s, None))
            && SameBut(s, after, k.1)
  {
    FindsTheOnly(s, k);
    assert k.1 in Ids(s) && FiledAt(s, k);
    if k.0 == Inbox {
      MoveKeepsFiled(s, k.1, Planned, Planned_(suggest), m.now);
      var planned := MoveTask(s, k.1, Planned, Planned_(suggest), m.now).0;
      assert forall id: nat :: (Active, id) in planned.files <==> (Active, id) in s.files;
      ActivateTaskOutcome(planned, k.1, m);
    } else if k.0 == Planned {
      ActivateTaskOutcome(s, k.1, m);
    }
  }

  /**
   Advancing loses no task; afterwards the pointer is empty or names an active task, also when other tasks are
   active. It neither breaks nor mends the invariant.
   */
  lemma AdvanceOutcome(s: System, suggest: Task -> Text, m: Moment)
    requires Tidy(s)
    ensures var (after, r) := Advance(s, suggest, m);
            && Tidy(after) && Ids(after) == Ids(s)
            && (after.state.Some? && after.state.value.active.Some? ==> PointsAtActive(after))
            && (s.state.None? <==> r == Err(NoState)) && (s.state.Some? <==> after.state.Some?)
            && (Sound(after) <==> Sound(s))
  {
    if s.state.Some? && !PointsAtActive(s) {
      var s1 := if s.state.value.active.Some? then s.(state := Some(IDLE)) else s;
      StateChangeKeepsFiled(s, s1.state);
      PointerWasStale(s);
      assert OnlyActive(s1, None) <==> OnlyActive(s, None);
      if NewestOpen(s1.files).Some? {
        TakeUpOutcome(s1, NewestOpen(s1.files).value, suggest, m);
      }
    }
  }

  /** If the pointer does not name an active task, the invariant says that no task is active. */
  lemma PointerWasStale(s: System)
    requires Tidy(s) && s.state.Some? && !PointsAtActive(s)
    ensures Sound(s) <==> OnlyActive(s, None)
  {
    forall k | k in s.files && k.0 == Active
      ensures !OnlyActive(s, s.state.value.active)
    {
      FindsTheOnly(s, k);
    }
  }

  /** A new task is newer than every other, so it is what an orchestrator with nothing active takes up. */
  lemma NewTaskIsNewest(s: System, req: CreateTaskRequest, now: Time)
    requires Filed(s) && s.clock <= now && Creatable(req)
    ensures NewestOpen(CreateTask(s, req, now).files) == Some((Inbox, now))
  {
    var after := CreateTask(s, req, now);
    forall k | k in s.files
      ensures s.files[k].createdAt < now
    {
      assert FiledAt(s, k);
    }
    assert IsNewestOpen(after.files, (Inbox, now));
    var k := NewestOpen(after.files).value;
    assert IsNewestOpen(after.files, k);
  }

  /**
   Submitting adds one task and touches no other, whatever is active. It returns the task just created, already
   active, exactly when the pointer did not name an active task; otherwise it returns that one. It neither breaks
   nor mends the invariant.
   */
  lemma SubmitOutcome(s: System, req: CreateTaskRequest, suggest: Task -> Text, now: Time, m: Moment)
    requires Tidy(s) && s.clock <= now && Creatable(req)
    ensures var (after, r) := SubmitTask(s, req, suggest, now, m);
            && Tidy(after) && now !in Ids(s) && Ids(after) == Ids(s) + {now}
            && (s.state.Some? ==> r.Ok? && r.value.state == Active && PointsAtActive(after))
            && (s.state.Some? ==> after.state.value.active == Some(r.value.id))
            && (s.state.Some? ==> (r.value.id == now <==> !PointsAtActive(s)))
            && (Sound(after) <==> Sound(s))
            && (forall k :: k in s.files ==> k in after.files && after.files[k] == s.files[k])
  {
    var created := CreateTask(s, req, now);
    CreateKeepsTasks(s, req, now);
    NewIsUnknown(s, now);
    AdvanceOutcome(created, suggest, m);
    assert OnlyActive(created, if s.state.Some? then s.state.value.active else None) <==>
           OnlyActive(s, if s.state.Some? then s.state.value.active else None);
    if s.state.Some? {
      PointerSurvivesCreation(s, req, now);
      if !PointsAtActive(s) {
        SubmittedIsTakenUp(s, req, suggest, now, m);
      }
    }
  }

  lemma NewIsUnknown(s: System, now: Time)
    requires Filed(s) && s.clock <= now
    ensures now !in Ids(s)
  {
    forall k | k in s.files
      ensures k.1 != now
    {
      assert FiledAt(s, k);
    }
  }

  /** With nothing active pointed at, a submission is the creation, the release of the pointer and the take-up. */
  lemma SubmitTakesUp(s: System, req: CreateTaskRequest, suggest: Task -> Text, now: Time, m: Moment)
    requires Tidy(s) && s.clock <= now && Creatable(req) && s.state.Some? && !PointsAtActive(s)
    ensures var created := CreateTask(s, req, now);
            var s1 := if created.state.value.active.Some? then created.(state := Some(IDLE)) else created;
            && Tidy(s1) && (Inbox, now) in s1.files && s1.files[(Inbox, now)].state == Inbox
            && s1.state.Some? && s1.state.value.active.None?
            && (forall k :: k in s.files ==> k in s1.files && s1.files[k] == s.files[k])
            && SubmitTask(s, req, suggest, now, m) == TakeUp(s1, s1.files[(Inbox, now)], suggest, m)
  {
    var created := CreateTask(s, req, now);
    CreateKeepsTasks(s, req, now);
    PointerSurvivesCreation(s, req, now);
    var s1 := if created.state.value.active.Some? then created.(state := Some(IDLE)) else created;
    StateChangeKeepsFiled(created, s1.state);
    NewTaskIsNewest(s, req, now);
    NewIsUnknown(s, now);
    forall k | k in s.files
      ensures k != (Inbox, now)
    {
      assert k.1 in Ids(s);
    }
  }

  lemma SubmittedIsTakenUp(s: System, req: CreateTaskRequest, suggest: Task -> Text, now: Time, m: Moment)
    requires Tidy(s) && s.clock <= now && Creatable(req) && s.state.Some? && !PointsAtActive(s)
    ensures var (after, r) := SubmitTask(s, req, suggest, now, m);
            && r.Ok? && r.value.id == now && r.value.state == Active
            && PointsAtActive(after) && after.state.value.active == Some(now)
            && (forall k :: k in s.files ==> k in after.files && after.files[k] == s.files[k])
  {
    var created := CreateTask(s, req, now);
    NewIsUnknown(s, now);
    SubmitTakesUp(s, req, suggest, now, m);
    var s1 := if created.state.value.active.Some? then created.(state := Some(IDLE)) else created;
    TakeUpOutcome(s1, (Inbox, now), suggest, m);
    OldTasksAreKept(s, s1, TakeUp(s1, s1.files[(Inbox, now)], suggest, m).0, now);
  }

  lemma OldTasksAreKept(s: System, s1: System, after: System, now: Time)
    requires now !in Ids(s) && SameBut(s1, after, now)
    requires forall k :: k in s.files ==> k in s1.files && s1.files[k] == s.files[k]
    ensures forall k :: k in s.files ==> k in after.files && after.files[k] == s.files[k]
  {
    forall k | k in s.files
      ensures k in after.files && after.files[k] == s.files[k]
    {
      assert k.1 in Ids(s);
    }
  }

  lemma PointerSurvivesCreation(s: System, req: CreateTaskRequest, now: Time)
    requires Filed(s) && s.clock <= now && Creatable(req) && s.state.Some?
    ensures PointsAtActive(CreateTask(s, req, now)) <==> PointsAtActive(s)
    ensures PointsAtActive(s) ==>
              GetTask(CreateTask(s, req, now).files, s.state.value.active.value) ==
                GetTask(s.files, s.state.value.active.value)
              && s.state.value.active.value != now
    ensures PointsAtActive(s) ==> GetTask(s.files, s.state.value.active.value).value.id == s.state.value.active.value
  {
    var after := CreateTask(s, req, now);
    CreateKeepsTasks(s, req, now);
    FindsTheOnly(after, (Inbox, now));
    if s.state.value.active.Some? {
      var id := s.state.value.active.value;
      if Find(s.files, id).Some? {
        FoundIsFiled(s, id);
        FindsTheOnly(after, (Find(s.files, id).value, id));
      }
    }
  }

  /**
   Recovering loses no task and leaves the record idle. It replans only the task pointed at, so nothing is active
   afterwards exactly when no other task was.
   */
  lemma RecoverOutcome(s: System, m: Moment)
    requires Tidy(s) && s.state.Some?
    ensures var (after, r) := Recover(s, m);
            && r == Ok(()) && Tidy(after) && Ids(after) == Ids(s)
            && after.state == Some(IDLE)
            && ((forall k :: k in after.files ==> k.0 != Active) <==> OnlyActive(s, s.state.value.active))
            && (Sound(after) <==> Sound(s))
            && (forall k :: k in s.files && Some(k.1) != s.state.value.active ==>
                              k in after.files && after.files[k] == s.files[k])
  {
    RecoverKeepsTasks(s, m);
    if PointsAtActive(s) {
      RecoverReplans(s, m);
    } else {
      PointerWasStale(s);
      assert Recover(s, m).0.files == s.files;
    }
    assert OnlyActive(Recover(s, m).0, None) <==> forall k :: k in Recover(s, m).0.files ==> k.0 != Active;
  }

  lemma RecoverReplans(s: System, m: Moment)
    requires Tidy(s) && PointsAtActive(s)
    ensures var after := Recover(s, m).0;
            && SameBut(s, after, s.state.value.active.value)
            && (forall k :: k in after.files && k.0 == Active ==> k.1 != s.state.value.active.value)
  {
    MoveKeepsFiled(s, s.state.value.active.value, Planned, Recovered(m), m.now);
  }

  /** The tasks that are active besides `id` are all pointed at. */
  predicate OthersPointed(s: System, id: nat) {
    forall k :: k in s.files && k.0 == Active && k.1 != id ==> s.state.Some? && s.state.value.active == Some(k.1)
  }

  /** Moving a task anywhere but to active: the invariant holds afterwards exactly when the others meet it. */
  lemma MoveOffOutcome(s: System, id: nat, next: TaskState, mutate: Task -> Task, now: Time)
    requires Tidy(s) && KeepsIdentity(mutate) && next != Active
    ensures var (after, r) := MoveTask(s, id, next, mutate, now);
            && Tidy(after) && Ids(after) == Ids(s) && after.clock == s.clock && after.state == s.state
            && (r.Ok? <==> id in Ids(s)) && (r.Err? ==> after == s && r.error == TaskNotFound)
            && (r.Ok? ==> r.value.id == id && r.value.state == next)
            && (r.Ok? ==> (Sound(after) <==> OthersPointed(s, id)))
            && (r.Ok? && s.state.Some? && s.state.value.active == Some(id) ==>
                  (OnlyActive(after, None) <==> OthersPointed(s, id)))
  {
    MoveKeepsFiled(s, id, next, mutate, now);
  }

  /** Letting go of a pointer. */
  lemma ReleaseOutcome(s: System)
    requires Filed(s)
    ensures Tidy(s.(state := Some(IDLE))) && Ids(s.(state := Some(IDLE))) == Ids(s)
    ensures Sound(s.(state := Some(IDLE))) <==> OnlyActive(s, None)
  {
    StateChangeKeepsFiled(s, Some(IDLE));
  }

  lemma RequeueIsMoveAndRelease(s: System, id: nat, change: Task -> Task, m: Moment)
    requires s.state.Some?
    ensures var s1 := if s.state.value.active == Some(id) then s.(state := Some(IDLE)) else s;
            var (moved, r) := MoveTask(s, id, Planned, change, m.now);
            && MoveTask(s1, id, Planned, change, m.now).1 == r
            && MoveTask(s1, id, Planned, change, m.now).0 ==
               (if s.state.value.active == Some(id) then moved.(state := Some(IDLE)) else moved)
  {
  }

  lemma RequeueMoves(s: System, id: nat, change: Task -> Task, m: Moment)
    requires Tidy(s) && KeepsIdentity(change) && s.state.Some? && id in Ids(s)
    ensures var s1 := if s.state.value.active == Some(id) then s.(state := Some(IDLE)) else s;
            var (after, r) := MoveTask(s1, id, Planned, change, m.now);
            && Tidy(after) && Ids(after) == Ids(s) && after.clock == s.clock && after.state.Some?
            && after.state.value.active != Some(id)
            && r.Ok? && r.value.id == id && r.value.state == Planned
            && (Sound(after) <==> OthersPointed(s, id))
  {
    RequeueIsMoveAndRelease(s, id, change, m);
    MoveOffOutcome(s, id, Planned, change, m.now);
    if s.state.value.active == Some(id) {
      ReleaseOutcome(MoveTask(s, id, Planned, change, m.now).0);
    }
  }

  lemma RequeuedKeepsIdentity(trigger: Text, origin: Text, count: Text -> Text, m: Moment, mutate: Task -> Task)
    requires KeepsIdentity(mutate)
    ensures KeepsIdentity(Requeued(trigger, origin, count, m, mutate))
  {
    var requeued := Requeued(trigger, origin, count, m, mutate);
    forall t: Task
      ensures requeued(t).id == t.id && requeued(t).createdAt == t.createdAt
    {
      var rerun := t.(metadata := RerunMetadata(t.metadata, trigger, origin, count, m), failureReason := [],
                      nextAction := "rerun requested");
      assert requeued(t) == mutate(rerun) && mutate(rerun).id == rerun.id;
    }
  }

  /**
   Requeueing loses no task; it puts the task back among the planned ones and the pointer lets go of it. The
   invariant holds afterwards exactly when the other active tasks meet it.
   */
  lemma RequeueOutcome(s: System, id: nat, trigger: Text, count: Text -> Text, mutate: Task -> Task, m: Moment)
    requires Tidy(s) && KeepsIdentity(mutate)
    ensures var (after, r) := RequeueTask(s, id, trigger, count, mutate, m);
            && Tidy(after) && Ids(after) == Ids(s) && after.clock == s.clock
            && (r.Err? ==> after == s)
            && (r.Ok? <==> id in Ids(s) && Requeueable(GetTask(s.files, id).value.state) && s.state.Some?)
            && (r.Ok? ==> r.value.id == id && r.value.state == Planned && after.state.Some? && id in Ids(after))
            && (r.Ok? ==> after.state.value.active != Some(id))
            && (r.Ok? ==> (Sound(after) <==> OthersPointed(s, id)))
  {
    var found := GetTask(s.files, id);
    FoundIffKnown(s, id);
    if found.Ok? && Requeueable(found.value.state) && s.state.Some? {
      RequeuedKeepsIdentity(trigger, StateName(found.value.state), count, m, mutate);
      RequeueMoves(s, id, Requeued(trigger, StateName(found.value.state), count, m, mutate), m);
    }
  }

  lemma FoundIffKnown(s: System, id: nat)
    requires Filed(s)
    ensures GetTask(s.files, id).Ok? <==> id in Ids(s)
  {
    if Find(s.files, id).Some? {
      assert (Find(s.files, id).value, id) in s.files;
    } else if id in Ids(s) {
      var k :| k in s.files && k.1 == id;
      FindsTheOnly(s, k);
    }
  }

  lemma OthersStay(s: System, id: nat, next: TaskState, mutate: Task -> Task, now: Time)
    requires Filed(s) && KeepsIdentity(mutate) && next != Active && id in Ids(s)
    ensures forall k: (TaskState, nat) :: k.0 == Active ==>
              (k in MoveTask(s, id, next, mutate, now).0.files <==> k in s.files && k.1 != id)
  {
    MoveKeepsFiled(s, id, next, mutate, now);
  }

  /** The other active tasks are as they were. */
  lemma RequeueKeepsOthers(s: System, id: nat, trigger: Text, count: Text -> Text, mutate: Task -> Task, m: Moment)
    requires Tidy(s) && KeepsIdentity(mutate) && RequeueTask(s, id, trigger, count, mutate, m).1.Ok? && id in Ids(s)
    ensures var after := RequeueTask(s, id, trigger, count, mutate, m).0;
            forall k: (TaskState, nat) :: k.0 == Active ==> (k in after.files <==> k in s.files && k.1 != id)
  {
    var found := GetTask(s.files, id);
    var change := Requeued(trigger, StateName(found.value.state), count, m, mutate);
    RequeuedKeepsIdentity(trigger, StateName(found.value.state), count, m, mutate);
    RequeueIsMoveAndRelease(s, id, change, m);
    OthersStay(s, id, Planned, change, m.now);
    var moved := MoveTask(s, id, Planned, change, m.now).0;
    assert RequeueTask(s, id, trigger, count, mutate, m).0.files == moved.files;
  }

  /**
   Approving loses no task and files every one. When it succeeds the approved task is active and pointed at,
   and the invariant holds if and only if no other task was active before.
   */
  lemma ApproveOutcome(s: System, id: nat, who: Text, count: Text -> Text, m: Moment)
    requires Tidy(s)
    ensures var (after, r) := ApproveTask(s, id, who, count, m);
            && Tidy(after) && Ids(after) == Ids(s)
            && (r.Err? ==> after == s)
            && (r.Ok? <==> id in Ids(s) && Requeueable(GetTask(s.files, id).value.state) && s.state.Some?)
            && (r.Ok? ==> r.value.id == id && r.value.state == Active && PointsAtActive(after))
            && (r.Ok? ==> after.state.value.active == Some(id) && (Active, id) in after.files)
            && (r.Ok? ==> (Sound(after) <==> forall k :: k in s.files && k.0 == Active ==> k.1 == id))
            && (r.Ok? ==> forall j: nat :: j != id ==> ((Active, j) in after.files <==> (Active, j) in s.files))
  {
    RequeueOutcome(s, id, "approval_granted", count, ApprovedBy(who), m);
    var (requeued, r) := RequeueTask(s, id, "approval_granted", count, ApprovedBy(who), m);
    if r.Ok? {
      RequeueKeepsOthers(s, id, "approval_granted", count, ApprovedBy(who), m);
      ActivateTaskOutcome(requeued, id, m);
      assert ApproveTask(s, id, who, count, m) == ActivateTask(requeued, id, m);
    }
  }

  /**
   Denying loses no task. It breaks off exactly on a task that has no metadata, and changes nothing then; it
   succeeds on every other one, and the invariant holds afterwards exactly when the other active tasks meet it.
   */
  lemma DenyOutcome(s: System, id: nat, who: Text, reason: Text, m: Moment)
    requires Tidy(s)
    ensures var (after, r) := DenyTask(s, id, who, reason, m);
            && Tidy(after) && Ids(after) == Ids(s)
            && (r == Err(Panic) <==> id in Ids(s) && GetTask(s.files, id).value.metadata == map[])
            && (r.Ok? <==> id in Ids(s) && GetTask(s.files, id).value.metadata != map[])
            && (r.Err? ==> after == s) && (r.Ok? ==> r.value.id == id && r.value.state == Failed)
            && (r.Ok? ==> (Sound(after) <==> OthersPointed(s, id)))
  {
    MoveOffOutcome(s, id, Failed, DeniedBy(who, reason), m.now);
    FoundIffKnown(s, id);
  }

  /** A finished skill run touches no other task, and lets go of the pointer to its own. */
  lemma FinishOutcome(s: System, id: nat, next: TaskState, mutate: Task -> Task, m: Moment)
    requires Tidy(s) && KeepsIdentity(mutate) && next != Active && s.state.Some?
    ensures var (after, r) := FinishTask(s, id, next, mutate, m);
            && Tidy(after) && Ids(after) == Ids(s) && after.clock == s.clock && after.state.Some?
            && (r.Err? ==> after == s) && (r.Ok? ==> r.value.id == id)
            && after.files == MoveTask(s, id, next, mutate, m.now).0.files
            && (r.Ok? <==> id in Ids(s))
            && (r.Ok? ==> (Sound(after) <==> OthersPointed(s, id)))
  {
    MoveOffOutcome(s, id, next, mutate, m.now);
    var (moved, r) := MoveTask(s, id, next, mutate, m.now);
    if r.Ok? && s.state.value.active == Some(id) {
      ReleaseOutcome(moved);
    }
  }

  const START := System(map[], Some(IDLE), 0)

  /** The first task, stored without metadata: denying it breaks off. */
  lemma DenyCanPanic(req: CreateTaskRequest, h: Habits, m: Moment, who: Text, reason: Text)
    requires Creatable(req) && req.metadata == map[]
    ensures var after := Step(START, Submitting(req, 0), h, m);
            DenyTask(after, 0, who, reason, m) == (after, Err(Panic))
  {
    var created := CreateTask(START, req, 0);
    CreateKeepsTasks(START, req, 0);
    NewTaskIsNewest(START, req, 0);
    FindsTheOnly(created, (Inbox, 0));
    MoveKeepsFiled(created, 0, Planned, Planned_(h.suggest), m.now);
    var planned := MoveTask(created, 0, Planned, Planned_(h.suggest), m.now).0;
    FindsTheOnly(planned, (Planned, 0));
    MoveKeepsFiled(planned, 0, Active, Activated(), m.now);
    var active := ActivateTask(planned, 0, m).0;
    assert Step(START, Submitting(req, 0), h, m) == active;
    ActivateKeepsTasks(planned, 0, m);
    FindsTheOnly(active, (Active, 0));
  }

  // ----- Runs -----

  datatype Op =
    | Submitting(req: CreateTaskRequest, id: nat)
    | Advancing
    | Recovering
    | Requeueing(id: nat, trigger: Text)
    | Approving(id: nat, who: Text)
    | Denying(id: nat, who: Text, reason: Text)
    | Finishing(id: nat, next: TaskState, mutate: Task -> Task)

  /** A skill run that changes nothing but the state of its task. */
  function Unchanged(): Task -> Task {
    (t: Task) => t
  }

  /** How skills are suggested and run counters printed. */
  datatype Habits = Habits(suggest: Task -> Text, count: Text -> Text)

  ghost function Step(s: System, op: Op, h: Habits, m: Moment): System {
    match op
    case Submitting(req, id) => SubmitTask(s, req, h.suggest, id, m).0
    case Advancing => Advance(s, h.suggest, m).0
    case Recovering => Recover(s, m).0
    case Requeueing(id, trigger) => RequeueTask(s, id, trigger, h.count, Unchanged(), m).0
    case Approving(id, who) => ApproveTask(s, id, who, h.count, m).0
    case Denying(id, who, reason) => DenyTask(s, id, who, reason, m).0
    case Finishing(id, next, mutate) => FinishTask(s, id, next, mutate, m).0
  }

  /** The clock moves on, and a skill run changes no identities. */
  ghost predicate Possible(s: System, op: Op) {
    match op
    case Submitting(_, id) => s.clock <= id
    case Finishing(_, _, mutate) => KeepsIdentity(mutate)
    case _ => true
  }

  /** Moreover an approval waits until no other task is active, and a finished task does not stay active. */
  ghost predicate Permitted(s: System, op: Op) {
    Possible(s, op) &&
    match op
    case Approving(id, _) => forall k :: k in s.files && k.0 == Active ==> k.1 == id
    case Finishing(_, next, _) => next != Active
    case _ => true
  }

  // What every operation keeps, also while several tasks are active.

  predicate TasksKept(s: System, after: System) {
    Tidy(after) && Ids(after) == Ids(s) && after.clock == s.clock && (s.state.Some? ==> after.state.Some?)
  }

  lemma ActivateKeepsTasks(s: System, id: nat, m: Moment)
    requires Tidy(s)
    ensures var after := ActivateTask(s, id, m).0; TasksKept(s, after)
  {
    var moved := MoveTask(s, id, Active, Activated(), m.now).0;
    MoveKeepsFiled(s, id, Active, Activated(), m.now);
    StateChangeKeepsFiled(moved, ActivateTask(s, id, m).0.state);
  }

  lemma TakeUpKeepsTasks(s: System, t: Task, suggest: Task -> Text, m: Moment)
    requires Tidy(s)
    ensures var after := TakeUp(s, t, suggest, m).0; TasksKept(s, after)
  {
    if t.state == Inbox {
      MoveKeepsFiled(s, t.id, Planned, Planned_(suggest), m.now);
      ActivateKeepsTasks(MoveTask(s, t.id, Planned, Planned_(suggest), m.now).0, t.id, m);
    } else {
      ActivateKeepsTasks(s, t.id, m);
    }
  }

  lemma AdvanceKeepsTasks(s: System, suggest: Task -> Text, m: Moment)
    requires Tidy(s)
    ensures var after := Advance(s, suggest, m).0; TasksKept(s, after)
  {
    if s.state.Some? && !PointsAtActive(s) {
      var s1 := if s.state.value.active.Some? then s.(state := Some(IDLE)) else s;
      StateChangeKeepsFiled(s, s1.state);
      if NewestOpen(s1.files).Some? {
        TakeUpKeepsTasks(s1, s1.files[NewestOpen(s1.files).value], suggest, m);
      }
    }
  }

  lemma CreateKeepsTasks(s: System, req: CreateTaskRequest, now: Time)
    requires Filed(s) && s.clock <= now && Creatable(req)
    ensures Filed(CreateTask(s, req, now)) && Ids(CreateTask(s, req, now)) == Ids(s) + {now}
  {
    var after := CreateTask(s, req, now);
    forall k | k in s.files
      ensures k.1 < s.clock && k in after.files && k.1 in Ids(after)
    {
      assert FiledAt(s, k);
    }
    forall k | k in after.files
      ensures FiledAt(after, k)
    {
      if k in s.files {
        assert FiledAt(s, k);
      }
    }
    assert (Inbox, now) in after.files;
    assert now in Ids(after);
  }

  lemma RequeueKeepsTasks(s: System, id: nat, trigger: Text, count: Text -> Text, mutate: Task -> Task, m: Moment)
    requires Tidy(s) && KeepsIdentity(mutate)
    ensures var after := RequeueTask(s, id, trigger, count, mutate, m).0;
            TasksKept(s, after)
  {
    var found := GetTask(s.files, id);
    if found.Ok? && Requeueable(found.value.state) && s.state.Some? {
      var change := Requeued(trigger, StateName(found.value.state), count, m, mutate);
      var s1 := if s.state.value.active == Some(id) then s.(state := Some(IDLE)) else s;
      RequeuedKeepsIdentity(trigger, StateName(found.value.state), count, m, mutate);
      StateChangeKeepsFiled(s, s1.state);
      MoveKeepsFiled(s1, id, Planned, change, m.now);
    }
  }

  lemma FinishKeepsTasks(s: System, id: nat, next: TaskState, mutate: Task -> Task, m: Moment)
    requires Tidy(s) && KeepsIdentity(mutate)
    ensures var after := FinishTask(s, id, next, mutate, m).0; TasksKept(s, after)
  {
    MoveKeepsFiled(s, id, next, mutate, m.now);
    StateChangeKeepsFiled(MoveTask(s, id, next, mutate, m.now).0, FinishTask(s, id, next, mutate, m).0.state);
  }

  lemma RecoverKeepsTasks(s: System, m: Moment)
    requires Tidy(s)
    ensures var after := Recover(s, m).0; TasksKept(s, after)
  {
    if s.state.Some? {
      StateChangeKeepsFiled(s, Recover(s, m).0.state);
      if s.state.value.active.Some? {
        var id := s.state.value.active.value;
        MoveKeepsFiled(s, id, Planned, Recovered(m), m.now);
        StateChangeKeepsFiled(MoveTask(s, id, Planned, Recovered(m), m.now).0, Some(IDLE));
      }
    }
  }

  lemma SubmitKeepsTasks(s: System, req: CreateTaskRequest, suggest: Task -> Text, id: Time, m: Moment)
    requires Tidy(s) && s.clock <= id
    ensures var after := SubmitTask(s, req, suggest, id, m).0;
            if Creatable(req) then TasksKept(CreateTask(s, req, id), after) && Ids(after) == Ids(s) + {id}
              else after == s
  {
    if Creatable(req) {
      CreateKeepsTasks(s, req, id);
      AdvanceKeepsTasks(CreateTask(s, req, id), suggest, m);
    }
  }

  lemma ApproveKeepsTasks(s: System, id: nat, who: Text, count: Text -> Text, m: Moment)
    requires Tidy(s)
    ensures TasksKept(s, ApproveTask(s, id, who, count, m).0)
  {
    var (requeued, r) := RequeueTask(s, id, "approval_granted", count, ApprovedBy(who), m);
    RequeueKeepsTasks(s, id, "approval_granted", count, ApprovedBy(who), m);
    if r.Ok? {
      ActivateKeepsTasks(requeued, r.value.id, m);
    }
  }

  lemma DenyKeepsTasks(s: System, id: nat, who: Text, reason: Text, m: Moment)
    requires Tidy(s)
    ensures TasksKept(s, DenyTask(s, id, who, reason, m).0)
  {
    MoveKeepsFiled(s, id, Failed, DeniedBy(who, reason), m.now);
  }

  /** Whatever is active, every operation keeps each task in the one directory of its state and loses none. */
  lemma StepKeepsTasks(s: System, op: Op, h: Habits, m: Moment)
    requires Tidy(s) && Possible(s, op)
    ensures var after := Step(s, op, h, m);
            && Tidy(after) && (s.state.Some? ==> after.state.Some?)
            && Ids(after) == Ids(s) + (if op.Submitting? && Creatable(op.req) then {op.id} else {})
  {
    match op
    case Submitting(req, id) => SubmitKeepsTasks(s, req, h.suggest, id, m);
    case Advancing => AdvanceKeepsTasks(s, h.suggest, m);
    case Recovering => RecoverKeepsTasks(s, m);
    case Requeueing(id, trigger) => RequeueKeepsTasks(s, id, trigger, h.count, Unchanged(), m);
    case Approving(id, who) => ApproveKeepsTasks(s, id, who, h.count, m);
    case Denying(id, who, reason) => DenyKeepsTasks(s, id, who, reason, m);
    case Finishing(id, next, mutate) => FinishKeepsTasks(s, id, next, mutate, m);
  }

  lemma StepKeepsSound(s: System, op: Op, h: Habits, m: Moment)
    requires Sound(s) && s.state.Some? && Permitted(s, op)
    ensures Sound(Step(s, op, h, m)) && Step(s, op, h, m).state.Some?
    ensures Ids(Step(s, op, h, m)) == Ids(s) + (if op.Submitting? && Creatable(op.req) then {op.id} else {})
  {
    StepKeepsTasks(s, op, h, m);
    match op
    case Submitting(req, id) =>
      if Creatable(req) {
        SubmitOutcome(s, req, h.suggest, id, m);
      }
    case Advancing => AdvanceOutcome(s, h.suggest, m);
    case Recovering => RecoverOutcome(s, m);
    case Requeueing(id, trigger) => RequeueOutcome(s, id, trigger, h.count, Unchanged(), m);
    case Approving(id, who) => ApproveOutcome(s, id, who, h.count, m);
    case Denying(id, who, reason) => DenyOutcome(s, id, who, reason, m);
    case Finishing(id, next, mutate) => FinishOutcome(s, id, next, mutate, m);
  }

  ghost predicate Leads(s: System, op: Op, after: System, h: Habits, m: Moment) {
    Possible(s, op) && after == Step(s, op, h, m)
  }

  /** A run: systems connected by possible steps, each at its own moment. Any task may be approved at any time. */
  ghost predicate Run(systems: seq<System>, ops: seq<Op>, moments: seq<Moment>, h: Habits) {
    && |systems| == |ops| + 1 && |moments| == |ops|
    && systems[0] == START
    && forall i :: 0 <= i < |ops| ==> Leads(systems[i], ops[i], systems[i + 1], h, moments[i])
  }

  /**
   On every run each task id sits in exactly one directory, that of its state, none is ever lost, and the record
   says busy exactly when it points at a task.
   */
  lemma {:induction false} RunKeepsTasks(systems: seq<System>, ops: seq<Op>, moments: seq<Moment>, h: Habits, n: nat,
    k: nat)
    requires Run(systems, ops, moments, h) && k <= n <= |ops|
    ensures Tidy(systems[n]) && systems[n].state.Some? && Ids(systems[k]) <= Ids(systems[n])
  {
    if n > 0 {
      RunKeepsTasks(systems, ops, moments, h, n - 1, if k < n then k else 0);
      assert Leads(systems[n - 1], ops[n - 1], systems[n - 1 + 1], h, moments[n - 1]);
      StepKeepsTasks(systems[n - 1], ops[n - 1], h, moments[n - 1]);
    }
  }

  /** If moreover every approval finds no other task active, an active task is always the one pointed at. */
  lemma {:induction false} RunIsSound(systems: seq<System>, ops: seq<Op>, moments: seq<Moment>, h: Habits, n: nat)
    requires Run(systems, ops, moments, h) && n <= |ops|
    requires forall i :: 0 <= i < n ==> Permitted(systems[i], ops[i])
    ensures Sound(systems[n]) && systems[n].state.Some?
  {
    if n > 0 {
      RunIsSound(systems, ops, moments, h, n - 1);
      assert Leads(systems[n - 1], ops[n - 1], systems[n - 1 + 1], h, moments[n - 1]);
      StepKeepsSound(systems[n - 1], ops[n - 1], h, moments[n - 1]);
    }
  }

  /** On every run the record's pointer is right after advancing and submitting, whatever else is active. */
  lemma PointerOfRun(systems: seq<System>, ops: seq<Op>, moments: seq<Moment>, h: Habits, n: nat)
    requires Run(systems, ops, moments, h) && n < |ops|
    requires ops[n].Advancing? || (ops[n].Submitting? && Creatable(ops[n].req))
    ensures systems[n + 1].state.Some?
    ensures systems[n + 1].state.value.active.Some? ==> PointsAtActive(systems[n + 1])
  {
    RunKeepsTasks(systems, ops, moments, h, n + 1, n);
    RunKeepsTasks(systems, ops, moments, h, n, n);
    assert Leads(systems[n], ops[n], systems[n + 1], h, moments[n]);
    if ops[n].Advancing? {
      AdvanceOutcome(systems[n], h.suggest, moments[n]);
    } else {
      SubmitOutcome(systems[n], ops[n].req, h.suggest, ops[n].id, moments[n]);
    }
  }

  /** On every run a recovery leaves nothing active exactly when nothing was active but the task pointed at. */
  lemma RecoveryOfRun(systems: seq<System>, ops: seq<Op>, moments: seq<Moment>, h: Habits, n: nat)
    requires Run(systems, ops, moments, h) && n < |ops| && ops[n].Recovering?
    ensures systems[n + 1].state == Some(IDLE)
    ensures (forall k :: k in systems[n + 1].files ==> k.0 != Active) <==>
            OnlyActive(systems[n], systems[n].state.value.active)
  {
    RunKeepsTasks(systems, ops, moments, h, n, n);
    assert Leads(systems[n], ops[n], systems[n + 1], h, moments[n]);
    RecoverOutcome(systems[n], moments[n]);
  }

  // ----- A run that ends with two active tasks -----

  lemma StartIsSound()
    ensures Sound(START) && Ids(START) == {}
  {
  }

  /** A first task is submitted. */
  lemma FirstIsActive(a: CreateTaskRequest, h: Habits, m: Moment) returns (s1: System)
    requires Creatable(a)
    ensures Leads(START, Submitting(a, 0), s1, h, m)
    ensures Sound(s1) && s1.state.Some? && Ids(s1) == {0} && s1.clock == 1
  {
    StartIsSound();
    SubmitOutcome(START, a, h.suggest, 0, m);
    SubmitKeepsTasks(START, a, h.suggest, 0, m);
    s1 := Step(START, Submitting(a, 0), h, m);
  }

  /** It ends blocked. */
  lemma FirstIsBlocked(s1: System, h: Habits, m: Moment) returns (s2: System)
    requires Sound(s1) && s1.state.Some? && Ids(s1) == {0} && s1.clock == 1
    ensures Leads(s1, Finishing(0, Blocked, Unchanged()), s2, h, m)
    ensures OnlyBlocked(s2) && s2.clock == 1
  {
    FinishOutcome(s1, 0, Blocked, Unchanged(), m);
    MoveKeepsFiled(s1, 0, Blocked, Unchanged(), m.now);
    s2 := Step(s1, Finishing(0, Blocked, Unchanged()), h, m);
  }

  predicate OnlyBlocked(s: System) {
    Sound(s) && s.state.Some? && Ids(s) == {0} && (Blocked, 0) in s.files
  }

  lemma BlockedAlone(s: System)
    requires OnlyBlocked(s)
    ensures !PointsAtActive(s)
  {
    FindsTheOnly(s, (Blocked, 0));
    if PointsAtActive(s) {
      FoundIffKnown(s, s.state.value.active.value);
    }
  }

  /** A second task is submitted. */
  lemma SecondIsActive(s2: System, b: CreateTaskRequest, h: Habits, m: Moment) returns (s3: System)
    requires Creatable(b) && OnlyBlocked(s2) && s2.clock == 1
    ensures Leads(s2, Submitting(b, 1), s3, h, m)
    ensures Sound(s3) && s3.state.Some? && (Blocked, 0) in s3.files && (Active, 1) in s3.files
  {
    BlockedAlone(s2);
    SubmitOutcome(s2, b, h.suggest, 1, m);
    s3 := Step(s2, Submitting(b, 1), h, m);
    FoundIsFiled(s3, 1);
  }

  /** The first is approved. */
  lemma FirstIsApproved(s3: System, h: Habits, m: Moment, who: Text) returns (s4: System)
    requires Sound(s3) && s3.state.Some? && (Blocked, 0) in s3.files && (Active, 1) in s3.files
    ensures Leads(s3, Approving(0, who), s4, h, m)
    ensures Tidy(s4) && s4.state.Some? && s4.state.value.active == Some(0)
    ensures (Active, 0) in s4.files && (Active, 1) in s4.files
  {
    FindsTheOnly(s3, (Blocked, 0));
    assert 0 in Ids(s3);
    ApproveOutcome(s3, 0, who, h.count, m);
    s4 := Step(s3, Approving(0, who), h, m);
  }

  lemma RunGrows(systems: seq<System>, ops: seq<Op>, moments: seq<Moment>, h: Habits, op: Op, after: System, m: Moment)
    requires Run(systems, ops, moments, h) && Leads(Last(systems), op, after, h, m)
    ensures Run(systems + [after], ops + [op], moments + [m], h)
  {
    var systems', ops', moments' := systems + [after], ops + [op], moments + [m];
    forall i | 0 <= i < |ops'|
      ensures Leads(systems'[i], ops'[i], systems'[i + 1], h, moments'[i])
    {
      if i < |ops| {
        assert Leads(systems[i], ops[i], systems[i + 1], h, moments[i]);
      }
    }
  }

  /** The first task alone: submitted, and then blocked. */
  lemma BlockedRun(a: CreateTaskRequest, h: Habits, m: Moment)
    returns (systems: seq<System>, ops: seq<Op>, moments: seq<Moment>)
    requires Creatable(a)
    ensures Run(systems, ops, moments, h) && |ops| == 2
    ensures OnlyBlocked(systems[2]) && systems[2].clock == 1
  {
    var s1 := FirstIsActive(a, h, m);
    var s2 := FirstIsBlocked(s1, h, m);
    RunGrows([START], [], [], h, Submitting(a, 0), s1, m);
    RunGrows([START] + [s1], [] + [Submitting(a, 0)], [] + [m], h, Finishing(0, Blocked, Unchanged()), s2, m);
    systems, moments := [START] + [s1] + [s2], [] + [m] + [m];
    ops := [] + [Submitting(a, 0)] + [Finishing(0, Blocked, Unchanged())];
  }

  /** A second task submitted after it. */
  lemma SecondRun(a: CreateTaskRequest, b: CreateTaskRequest, h: Habits, m: Moment)
    returns (systems: seq<System>, ops: seq<Op>, moments: seq<Moment>)
    requires Creatable(a) && Creatable(b)
    ensures Run(systems, ops, moments, h) && |ops| == 3
    ensures Sound(systems[3]) && systems[3].state.Some?
    ensures (Blocked, 0) in systems[3].files && (Active, 1) in systems[3].files
  {
    systems, ops, moments := BlockedRun(a, h, m);
    var s3 := SecondIsActive(systems[2], b, h, m);
    RunGrows(systems, ops, moments, h, Submitting(b, 1), s3, m);
    systems, ops, moments := systems + [s3], ops + [Submitting(b, 1)], moments + [m];
  }

  /** Approving a blocked task while another is active leaves two active, and the pointer on the first. */
  lemma ApproveCanMakeTwoActive(a: CreateTaskRequest, b: CreateTaskRequest, h: Habits, m: Moment, who: Text)
    returns (systems: seq<System>, ops: seq<Op>, moments: seq<Moment>)
    requires Creatable(a) && Creatable(b)
    ensures Run(systems, ops, moments, h) && |ops| == 4 && ops[3] == Approving(0, who) && Sound(systems[3])
    ensures (Active, 0) in systems[4].files && (Active, 1) in systems[4].files
    ensures systems[4].state.Some? && systems[4].state.value.active == Some(0)
  {
    systems, ops, moments := SecondRun(a, b, h, m);
    var s4 := FirstIsApproved(systems[3], h, m, who);
    RunGrows(systems, ops, moments, h, Approving(0, who), s4, m);
    systems, ops, moments := systems + [s4], ops + [Approving(0, who)], moments + [m];
  }

  /** A recovery then leaves a task active that nothing points at. */
  lemma RecoverCanLeaveActive(a: CreateTaskRequest, b: CreateTaskRequest, h: Habits, m: Moment, who: Text)
    returns (systems: seq<System>, ops: seq<Op>, moments: seq<Moment>)
    requires Creatable(a) && Creatable(b)
    ensures Run(systems, ops, moments, h) && |ops| == 5 && ops[4] == Recovering
    ensures systems[5].state == Some(IDLE) && (Active, 1) in systems[5].files
  {
    systems, ops, moments := ApproveCanMakeTwoActive(a, b, h, m, who);
    RunKeepsTasks(systems, ops, moments, h, 4, 4);
    RecoverOutcome(systems[4], m);
    var s5 := Recover(systems[4], m).0;
    RunGrows(systems, ops, moments, h, Recovering, s5, m);
    systems, ops, moments := systems + [s5], ops + [Recovering], moments + [m];
  }
}
