/** The scheduler that submits memory-consolidation tasks under guards. */
module Scheduler {
  import opened Prelude
  import opened Strings
  import opened Runtime
  import RuntimeFields

  const SKILL: Text := "memory-consolidate"

  /** Cooldown in nanoseconds; the other settings of the scheduler only name what is consolidated. */
  datatype Config = Config(cooldown: nat, minCandidates: nat, scope: Text, extractProcedures: bool,
    procedureMinRuns: nat)

  /** The settings with their defaults. */
  function Configured(c: Config): Config {
    Config(if c.cooldown == 0 then 300000000000 else c.cooldown, if c.minCandidates == 0 then 1 else c.minCandidates,
           if Trim(c.scope) == [] then "project" else c.scope, c.extractProcedures,
           if c.procedureMinRuns == 0 then 2 else c.procedureMinRuns)
  }

  datatype Skip = NotSkipped | NoEligible | Threshold | NoCandidates | Cooldown | RuntimeBusy | ExistingTask

  datatype SchedulerState = SchedulerState(lastTriggered: Option<Time>, reason: Text, lastTask: Option<nat>,
    count: nat, skip: Skip)

  const NEVER := SchedulerState(None, [], None, 0, NotSkipped)

  datatype Decision = Decision(triggered: bool, task: Option<Task>, count: nat, skip: Skip)

  predicate Unfinished(state: TaskState) {
    state == Inbox || state == Planned || state == Active || state == AwaitingApproval || state == Blocked
  }

  /** A consolidation task that is still to be finished. */
  predicate OpenConsolidation(files: Files, k: (TaskState, nat)) {
    k in files && k.0 != Archived && files[k].skill == SKILL && Unfinished(files[k].state)
  }

  ghost predicate IsNewestConsolidation(files: Files, k: (TaskState, nat)) {
    OpenConsolidation(files, k) &&
    forall j :: j in files && OpenConsolidation(files, j) ==> files[j].createdAt <= files[k].createdAt
  }

  ghost function NewestConsolidation(files: Files): Option<(TaskState, nat)> {
    if k :| IsNewestConsolidation(files, k) then Some(k) else None
  }

  function BoolText(b: bool): Text {
    if b then "true" else "false"
  }

  function Consolidate(c: Config, reason: Text): CreateTaskRequest {
    CreateTaskRequest("Consolidate memory maintenance", "Consolidate candidate memory " + "into durable runtime state",
                      "memory-scheduler", "memory-scheduler", [], false, SKILL,
                      map["scope" := c.scope, "extract_procedures" := BoolText(c.extractProcedures),
                          "min_runs" := Decimal(c.procedureMinRuns), "scheduled_reason" := reason])
  }

  function Reason(given: Text): Text {
    OrElse(given, "manual")
  }

  /** What memory offers: eligible candidates, and whether the scope has any candidate at all. */
  datatype Offer = Offer(eligible: nat, any: bool)

  predicate CoolingDown(st: SchedulerState, c: Config, now: Time) {
    st.lastTriggered.Some? && now as int - st.lastTriggered.value as int < c.cooldown
  }

  /** One evaluation: the task system and the saved scheduler state afterwards, and the decision. */
  ghost function Evaluate(s: System, st: SchedulerState, c: Config, offer: Offer, given: Text, suggest: Task -> Text,
                          now: Time, m: Moment): (System, SchedulerState, Result<Decision, RuntimeError>) {
    var reason := Reason(given);
    var skipped := (skip: Skip, n: nat) =>
      (s, SchedulerState(None, reason, None, n, skip), Ok(Decision(false, None, offer.eligible, skip)));
    if offer.eligible == 0 then skipped(NoEligible, 0)
    else if offer.eligible < c.minCandidates then skipped(Threshold, offer.eligible)
    else if !offer.any then skipped(NoCandidates, 0)
    else if CoolingDown(st, c, now) then
      (s, SchedulerState(st.lastTriggered, reason, st.lastTask, offer.eligible, Cooldown),
       Ok(Decision(false, Known(s, st.lastTask), offer.eligible, Cooldown)))
    else if s.state.None? then (s, st, Err(NoState))
    else if s.state.value.active.Some? then skipped(RuntimeBusy, offer.eligible)
    else
      match NewestConsolidation(s.files)
      case Some(k) =>
        (s, SchedulerState(None, reason, Some(s.files[k].id), offer.eligible, ExistingTask),
         Ok(Decision(false, Some(s.files[k]), offer.eligible, ExistingTask)))
      case None =>
        var (after, r) := SubmitTask(s, Consolidate(c, reason), suggest, now, m);
        if r.Err? then (after, st, Err(r.error))
        else
          (after, SchedulerState(Some(m.now), reason, Some(r.value.id), offer.eligible, NotSkipped),
           Ok(Decision(true, Some(r.value), offer.eligible, NotSkipped)))
  }

  /** The task a decision shows while cooling down. */
  function Known(s: System, task: Option<nat>): Option<Task> {
    if task.Some? && GetTask(s.files, task.value).Ok? then Some(GetTask(s.files, task.value).value) else None
  }

  // ----- At most one open consolidation task -----

  predicate AtMostOneOpen(s: System) {
    forall j, k :: j in s.files && k in s.files && OpenConsolidation(s.files, j) && OpenConsolidation(s.files, k) ==>
      j == k
  }

  lemma SubmittedAlone(s: System, req: CreateTaskRequest, suggest: Task -> Text, now: Time, m: Moment)
    requires Tidy(s) && s.clock <= now && Creatable(req) && s.state.Some? && s.state.value.active.None?
    requires Trim(req.skill) != []
    ensures var (after, r) := SubmitTask(s, req, suggest, now, m);
            && r.Ok? && (Active, now) in after.files && after.files[(Active, now)] == r.value
            && r.value.id == now && r.value.state == Active && r.value.skill == Trim(req.skill)
            && (forall k: (TaskState, nat) :: k.1 != now ==> (k in after.files <==> k in s.files))
            && (forall k: (TaskState, nat) :: k.1 != now && k in s.files ==> after.files[k] == s.files[k])
            && (forall k: (TaskState, nat) :: k in s.files ==> k.1 != now)
  {
    var created := CreateTask(s, req, now);
    CreateKeepsTasks(s, req, now);
    NewTaskIsNewest(s, req, now);
    TrimIsTrimmed(req.skill);
    forall k | k in s.files
      ensures k.1 != now
    {
      assert FiledAt(s, k);
    }
    TakenUpAlone(created, now, suggest, m);
  }

  /** Taking up an inbox task moves it through planning and changes no other task. */
  lemma TakenUpAlone(s: System, id: nat, suggest: Task -> Text, m: Moment)
    requires Filed(s) && (Inbox, id) in s.files && s.state.Some? && Trim(s.files[(Inbox, id)].skill) != []
    ensures var (after, r) := TakeUp(s, s.files[(Inbox, id)], suggest, m);
            && r.Ok? && (Active, id) in after.files && after.files[(Active, id)] == r.value
            && r.value.id == id && r.value.state == Active && r.value.skill == s.files[(Inbox, id)].skill
            && (forall k: (TaskState, nat) :: k.1 != id ==> (k in after.files <==> k in s.files))
            && (forall k: (TaskState, nat) :: k.1 != id && k in s.files ==> after.files[k] == s.files[k])
  {
    FindsTheOnly(s, (Inbox, id));
    MoveKeepsFiled(s, id, Planned, Planned_(suggest), m.now);
    var planned := MoveTask(s, id, Planned, Planned_(suggest), m.now).0;
    FindsTheOnly(planned, (Planned, id));
    MoveKeepsFiled(planned, id, Active, Activated(), m.now);
  }

  lemma ConsolidateIsCreatable(c: Config, reason: Text)
    ensures Creatable(Consolidate(c, reason)) && Trim(Consolidate(c, reason).skill) == SKILL
  {
    var title, goal := Consolidate(c, reason).title, Consolidate(c, reason).goal;
    assert title[0] == 'C' && title[|title| - 1] == 'e' && goal[0] == 'C' && goal[|goal| - 1] == 'e';
    TrimmedIsFixed(title);
    TrimmedIsFixed(goal);
    assert SKILL[0] == 'm' && SKILL[|SKILL| - 1] == 'e';
    TrimmedIsFixed(SKILL);
  }

  ghost predicate Triggers(s: System, st: SchedulerState, c: Config, offer: Offer, now: Time) {
    && offer.eligible != 0 && offer.eligible >= c.minCandidates && offer.any && !CoolingDown(st, c, now)
    && s.state.Some? && s.state.value.active.None? && NewestConsolidation(s.files).None?
  }

  lemma NothingOpenToConsolidate(s: System)
    ensures NewestConsolidation(s.files).None? <==> forall k :: k in s.files ==> !OpenConsolidation(s.files, k)
  {
    if k :| k in s.files && OpenConsolidation(s.files, k) {
      var open := set j | j in s.files && OpenConsolidation(s.files, j) :: j;
      assert k in open;
      var best := NewestAmong(s.files, open);
      assert IsNewestConsolidation(s.files, best);
    }
  }

  lemma NewestAmong(files: Files, keys: set<(TaskState, nat)>) returns (best: (TaskState, nat))
    requires keys != {} && forall k :: k in keys ==> k in files
    ensures best in keys && forall k :: k in keys ==> files[k].createdAt <= files[best].createdAt
  {
    var k :| k in keys;
    if keys == {k} {
      best := k;
    } else {
      var rest := NewestAmong(files, keys - {k});
      best := if files[k].createdAt <= files[rest].createdAt then rest else k;
      forall j | j in keys
        ensures files[j].createdAt <= files[best].createdAt
      {
        if j != k {
          assert j in keys - {k};
        }
      }
    }
  }

  /**
   Exactly when an evaluation triggers, whatever is active. A triggered decision returns the task just created,
   already active; every other decision leaves the tasks as they were. It neither breaks nor mends the invariant,
   and keeps at most one open consolidation task.
   */
  lemma EvaluateOutcome(s: System, st: SchedulerState, c: Config, offer: Offer, given: Text, suggest: Task -> Text,
    now: Time, m: Moment)
    requires Tidy(s) && s.clock <= now && s.state.Some?
    ensures var (after, st', r) := Evaluate(s, st, c, offer, given, suggest, now, m);
            && Tidy(after) && after.state.Some? && r.Ok?
            && (Sound(after) <==> Sound(s)) && (AtMostOneOpen(s) ==> AtMostOneOpen(after))
            && (r.value.triggered <==> Triggers(s, st, c, offer, now))
            && (r.value.triggered ==>
                 && r.value.task.Some? && r.value.task.value.id == now && r.value.task.value.state == Active
                 && r.value.task.value.skill == SKILL && PointsAtActive(after)
                 && (Active, now) in after.files && after.files[(Active, now)] == r.value.task.value)
            && (!r.value.triggered ==> after == s)
  {
    if Triggers(s, st, c, offer, now) {
      var req := Consolidate(c, Reason(given));
      ConsolidateIsCreatable(c, Reason(given));
      SubmitOutcome(s, req, suggest, now, m);
      SubmittedAlone(s, req, suggest, now, m);
      NothingOpenToConsolidate(s);
      var after := SubmitTask(s, req, suggest, now, m).0;
      FindsTheOnly(after, (Active, now));
      forall k | k in after.files && k != (Active, now)
        ensures !OpenConsolidation(after.files, k)
      {
        FindsTheOnly(after, k);
        assert !OpenConsolidation(s.files, k);
      }
    }
  }

  // ----- What an evaluation says -----

  /** A consolidation task in one of the states that are not final. */
  predicate InTheWay(s: System, k: (TaskState, nat)) {
    && k in s.files && s.files[k].skill == "memory-consolidate"
    && k.0 in {Inbox, Planned, Active, AwaitingApproval, Blocked}
  }

  ghost predicate NewestInTheWay(s: System, k: (TaskState, nat)) {
    InTheWay(s, k) && forall j :: InTheWay(s, j) ==> s.files[j].createdAt <= s.files[k].createdAt
  }

  /** The task that an evaluation submits. */
  predicate IsMaintenance(t: Task, c: Config, reason: Text) {
    && t.title == "Consolidate memory maintenance"
    && t.goal == "Consolidate candidate memory " + "into durable runtime state"
    && t.requestedBy == "memory-scheduler" && t.source == "memory-scheduler" && t.profile == "user"
    && !t.requiresApproval && t.state == Active && t.skill == "memory-consolidate"
    && t.metadata == map["scope" := c.scope, "extract_procedures" := if c.extractProcedures then "true" else "false",
                         "min_runs" := Decimal(c.procedureMinRuns), "scheduled_reason" := reason]
  }

  /** Whether enough is eligible; nothing is remembered of an evaluation that stops here but its reason. */
  predicate StopsAtOffer(c: Config, offer: Offer, st: SchedulerState, d: Decision) {
    && (d.skip == NoEligible <==> offer.eligible == 0)
    && (d.skip == Threshold <==> 0 < offer.eligible < c.minCandidates)
    && (d.skip == NoCandidates <==> 0 < offer.eligible && c.minCandidates <= offer.eligible && !offer.any)
    && (d.skip in {NoEligible, Threshold, NoCandidates, RuntimeBusy} ==>
         (st.lastTriggered, st.lastTask, d.task) == (None, None, None))
    && st.count == if d.skip in {NoEligible, NoCandidates} then 0 else offer.eligible
  }

  /** What held the evaluation back, or what it submitted. */
  ghost predicate SaysWhy(s: System, st: SchedulerState, c: Config, reason: Text, st': SchedulerState, d: Decision,
    now: Time, m: Moment) {
    match d.skip
    case Cooldown =>
      && st.lastTriggered.Some? && now < st.lastTriggered.value + c.cooldown
      && (st'.lastTriggered, st'.lastTask) == (st.lastTriggered, st.lastTask)
      && (d.task.Some? <==> st.lastTask.Some? && st.lastTask.value in Ids(s))
      && (d.task.Some? ==> d.task.value.id == st.lastTask.value && RuntimeFields.FiledAs(s, d.task.value))
    case RuntimeBusy => s.state.Some? && s.state.value.active.Some?
    case ExistingTask =>
      && st'.lastTriggered == None
      && exists k :: NewestInTheWay(s, k) && d.task == Some(s.files[k]) && st'.lastTask == Some(k.1)
    case NotSkipped =>
      && (st.lastTriggered.Some? ==> now >= st.lastTriggered.value + c.cooldown)
      && (forall k :: !InTheWay(s, k))
      && d.task.Some? && IsMaintenance(d.task.value, c, reason)
      && (st'.lastTriggered, st'.lastTask) == (Some(m.now), Some(d.task.value.id))
    case _ => true
  }

  lemma InTheWayIsOpen(s: System, k: (TaskState, nat))
    requires Filed(s)
    ensures OpenConsolidation(s.files, k) <==> InTheWay(s, k)
    ensures IsNewestConsolidation(s.files, k) <==> NewestInTheWay(s, k)
  {
    forall j | j in s.files
      ensures OpenConsolidation(s.files, j) <==> InTheWay(s, j)
    {
      assert FiledAt(s, j);
    }
  }

  lemma MaintenanceIsScheduled(s: System, c: Config, reason: Text, suggest: Task -> Text, now: Time, m: Moment)
    requires Tidy(s) && s.clock <= now && s.state.Some? && s.state.value.active.None?
    ensures var r := SubmitTask(s, Consolidate(c, reason), suggest, now, m).1;
            r.Ok? && IsMaintenance(r.value, c, reason)
  {
    var req := Consolidate(c, reason);
    ConsolidateIsCreatable(c, reason);
    RuntimeFields.SubmittedIsAsAsked(s, req, suggest, now, m);
    var r := SubmitTask(s, req, suggest, now, m).1;
    var t :| RuntimeFields.IsNew(t, req, now) && RuntimeFields.TakenUp(t, r.value, suggest, m);
    TakenUpMaintains(t, r.value, c, reason, suggest, now, m);
  }

  lemma ConsolidateIsTrimmed(c: Config, reason: Text)
    ensures var req := Consolidate(c, reason);
            && Trim(req.title) == req.title && Trim(req.goal) == req.goal && Trim(req.skill) == req.skill != []
            && Trim(req.requestedBy) == req.requestedBy && Trim(req.source) == req.source
            && OrElse(req.profile, "user") == "user"
  {
    ConsolidateIsCreatable(c, reason);
    TrimmedIsFixed(Consolidate(c, reason).title);
    TrimmedIsFixed(Consolidate(c, reason).goal);
    TrimmedIsFixed(Consolidate(c, reason).source);
    TrimmedIsFixed([]);
  }

  lemma TakenUpMaintains(t: Task, taken: Task, c: Config, reason: Text, suggest: Task -> Text, now: Time, m: Moment)
    requires RuntimeFields.IsNew(t, Consolidate(c, reason), now) && RuntimeFields.TakenUp(t, taken, suggest, m)
    ensures IsMaintenance(taken, c, reason)
  {
    ConsolidateIsTrimmed(c, reason);
  }

  lemma ShownIsKnown(s: System, task: Option<nat>)
    requires Tidy(s)
    ensures Known(s, task).Some? <==> task.Some? && task.value in Ids(s)
    ensures Known(s, task).Some? ==>
              Known(s, task).value.id == task.value && RuntimeFields.FiledAs(s, Known(s, task).value)
  {
    if task.Some? {
      FoundIffKnown(s, task.value);
      if Find(s.files, task.value).Some? {
        FoundIsFiled(s, task.value);
      }
    }
  }

  /** What is remembered of an evaluation, and what it reports. */
  ghost predicate Reported(s: System, st: SchedulerState, c: Config, offer: Offer, reason: Text, st': SchedulerState,
    r: Result<Decision, RuntimeError>, now: Time, m: Moment) {
    && r.Ok? && r.value.count == offer.eligible && (r.value.triggered <==> r.value.skip == NotSkipped)
    && st'.reason == reason && st'.skip == r.value.skip
    && StopsAtOffer(c, offer, st', r.value) && SaysWhy(s, st, c, reason, st', r.value, now, m)
  }

  lemma TriggeredSaysWhy(s: System, st: SchedulerState, c: Config, offer: Offer, given: Text, suggest: Task -> Text,
    now: Time, m: Moment)
    requires Tidy(s) && s.clock <= now && Triggers(s, st, c, offer, now)
    ensures var (after, st', r) := Evaluate(s, st, c, offer, given, suggest, now, m);
            Reported(s, st, c, offer, Reason(given), st', r, now, m)
  {
    MaintenanceIsScheduled(s, c, Reason(given), suggest, now, m);
    NothingOpenToConsolidate(s);
    forall k
      ensures !InTheWay(s, k)
    {
      InTheWayIsOpen(s, k);
    }
  }

  lemma EvaluationSaysWhy(s: System, st: SchedulerState, c: Config, offer: Offer, given: Text, suggest: Task -> Text,
    now: Time, m: Moment)
    requires Tidy(s) && s.clock <= now && s.state.Some?
    ensures var (after, st', r) := Evaluate(s, st, c, offer, given, suggest, now, m);
            Reported(s, st, c, offer, OrElse(given, "manual"), st', r, now, m)
  {
    ShownIsKnown(s, st.lastTask);
    if Triggers(s, st, c, offer, now) {
      TriggeredSaysWhy(s, st, c, offer, given, suggest, now, m);
    } else if NewestConsolidation(s.files).Some? {
      var k := NewestConsolidation(s.files).value;
      assert IsNewestConsolidation(s.files, k);
      InTheWayIsOpen(s, k);
      assert FiledAt(s, k);
    }
  }

  /** A skill run that ends an active task opens no consolidation task. */
  lemma FinishKeepsAtMostOne(s: System, id: nat, next: TaskState, mutate: Task -> Task, m: Moment)
    requires Sound(s) && KeepsIdentity(mutate) && next != Active && s.state.Some? && AtMostOneOpen(s)
    requires (Active, id) in s.files && mutate(s.files[(Active, id)]).skill == s.files[(Active, id)].skill
    ensures AtMostOneOpen(FinishTask(s, id, next, mutate, m).0)
  {
    FinishOutcome(s, id, next, mutate, m);
    FindsTheOnly(s, (Active, id));
    MoveKeepsFiled(s, id, next, mutate, m.now);
    var after := FinishTask(s, id, next, mutate, m).0;
    forall k | k in after.files && OpenConsolidation(after.files, k)
      ensures k.1 == id ==> k == (next, id) && OpenConsolidation(s.files, (Active, id))
      ensures k.1 != id ==> OpenConsolidation(s.files, k)
    {
    }
  }

  // ----- Runs -----

  datatype Event =
    | Evaluation(offer: Offer, given: Text, now: Time, m: Moment)
    | Finished(id: nat, next: TaskState, mutate: Task -> Task, m: Moment)

  ghost predicate Permitted(s: System, e: Event) {
    match e
    case Evaluation(_, _, now, m) => s.clock <= now <= m.now
    case Finished(id, next, mutate, _) =>
      && (Active, id) in s.files && next != Active && KeepsIdentity(mutate)
      && mutate(s.files[(Active, id)]).skill == s.files[(Active, id)].skill
  }

  datatype Stage = Stage(s: System, st: SchedulerState)

  ghost function After(stage: Stage, e: Event, c: Config, suggest: Task -> Text): Stage {
    match e
    case Evaluation(offer, given, now, m) =>
      var (s, st, _) := Evaluate(stage.s, stage.st, c, offer, given, suggest, now, m);
      Stage(s, st)
    case Finished(id, next, mutate, m) => Stage(FinishTask(stage.s, id, next, mutate, m).0, stage.st)
  }

  ghost predicate Leads(stage: Stage, e: Event, next: Stage, c: Config, suggest: Task -> Text) {
    Permitted(stage.s, e) && next == After(stage, e, c, suggest)
  }

  ghost predicate Run(stages: seq<Stage>, events: seq<Event>, c: Config, suggest: Task -> Text) {
    && |stages| == |events| + 1 && stages[0] == Stage(START, NEVER)
    && forall i :: 0 <= i < |events| ==> Leads(stages[i], events[i], stages[i + 1], c, suggest)
  }

  /** Over evaluations interleaved only with tasks finishing there is never more than one open consolidation task. */
  lemma {:induction false} NeverTwoOpen(stages: seq<Stage>, events: seq<Event>, c: Config, suggest: Task -> Text,
    n: nat)
    requires Run(stages, events, c, suggest) && n <= |events|
    ensures Sound(stages[n].s) && stages[n].s.state.Some? && AtMostOneOpen(stages[n].s)
  {
    if n > 0 {
      NeverTwoOpen(stages, events, c, suggest, n - 1);
      assert Leads(stages[n - 1], events[n - 1], stages[n - 1 + 1], c, suggest);
      var s, st := stages[n - 1].s, stages[n - 1].st;
      match events[n - 1]
      case Evaluation(offer, given, now, m) => EvaluateOutcome(s, st, c, offer, given, suggest, now, m);
      case Finished(id, next, mutate, m) =>
        FinishOutcome(s, id, next, mutate, m);
        FinishKeepsAtMostOne(s, id, next, mutate, m);
    }
  }

  // ----- The cooldown -----

  ghost function DecisionOf(stage: Stage, e: Event, c: Config, suggest: Task -> Text): Option<Decision> {
    match e
    case Finished(_, _, _, _) => None
    case Evaluation(offer, given, now, m) =>
      match Evaluate(stage.s, stage.st, c, offer, given, suggest, now, m).2
      case Ok(d) => Some(d)
      case Err(_) => None
  }

  /**
   The last trigger that the saved state still remembers: a trigger is remembered through evaluations skipped
   for the cooldown, and forgotten at the first evaluation skipped for any other reason.
   */
  ghost function Remembered(stages: seq<Stage>, events: seq<Event>, c: Config, suggest: Task -> Text,
    n: nat): Option<Time>
    requires n <= |events| && |stages| == |events| + 1
  {
    if n == 0 then None
    else
      RememberedAfter(Remembered(stages, events, c, suggest, n - 1), events[n - 1],
                      DecisionOf(stages[n - 1], events[n - 1], c, suggest))
  }

  function RememberedAfter(last: Option<Time>, e: Event, decision: Option<Decision>): Option<Time> {
    match decision
    case None => last
    case Some(d) => if d.triggered then Some(e.m.now) else if d.skip == Cooldown then last else None
  }

  lemma EvaluateRemembers(s: System, st: SchedulerState, c: Config, offer: Offer, given: Text, suggest: Task -> Text,
    now: Time, m: Moment)
    requires Tidy(s) && s.clock <= now && s.state.Some?
    ensures var (_, st', r) := Evaluate(s, st, c, offer, given, suggest, now, m);
            && r.Ok?
            && st'.lastTriggered ==
               (if r.value.triggered then Some(m.now) else if r.value.skip == Cooldown then st.lastTriggered else None)
  {
    EvaluateOutcome(s, st, c, offer, given, suggest, now, m);
  }

  lemma StageIsReached(stages: seq<Stage>, events: seq<Event>, c: Config, suggest: Task -> Text, m: nat)
    requires Run(stages, events, c, suggest) && m < |events|
    ensures Leads(stages[m], events[m], stages[m + 1], c, suggest)
    ensures Sound(stages[m].s) && stages[m].s.state.Some? && AtMostOneOpen(stages[m].s)
  {
    NeverTwoOpen(stages, events, c, suggest, m);
    assert Leads(stages[m], events[m], stages[m + 1], c, suggest);
  }

  lemma {:induction false} SavedStateRemembers(stages: seq<Stage>, events: seq<Event>, c: Config,
    suggest: Task -> Text, n: nat)
    requires Run(stages, events, c, suggest) && n <= |events|
    ensures stages[n].st.lastTriggered == Remembered(stages, events, c, suggest, n)
  {
    if n > 0 {
      var m := n - 1;
      SavedStateRemembers(stages, events, c, suggest, m);
      StageIsReached(stages, events, c, suggest, m);
      RemembersOneMore(stages[m], events[m], stages[n], c, suggest, Remembered(stages, events, c, suggest, m),
        Remembered(stages, events, c, suggest, n));
    }
  }

  lemma RemembersOneMore(a: Stage, e: Event, b: Stage, c: Config, suggest: Task -> Text, last: Option<Time>,
    last': Option<Time>)
    requires Leads(a, e, b, c, suggest) && Sound(a.s) && a.s.state.Some? && AtMostOneOpen(a.s)
    requires a.st.lastTriggered == last && last' == RememberedAfter(last, e, DecisionOf(a, e, c, suggest))
    ensures b.st.lastTriggered == last'
  {
    match e
    case Finished(_, _, _, _) =>
    case Evaluation(offer, given, now, m) => EvaluateRemembers(a.s, a.st, c, offer, given, suggest, now, m);
  }

  /**
   Exactly when the cooldown holds: an evaluation that finds enough candidates is skipped for the cooldown if
   and only if a trigger less than the cooldown ago is still remembered; so a trigger follows a remembered
   trigger by at least the cooldown, and a forgotten one by any time at all.
   */
  lemma CooldownHoldsWhileRemembered(stages: seq<Stage>, events: seq<Event>, c: Config, suggest: Task -> Text, n: nat)
    requires Run(stages, events, c, suggest) && n < |events| && events[n].Evaluation?
    requires var o := events[n].offer; o.eligible != 0 && o.eligible >= c.minCandidates && o.any
    ensures var last, d := Remembered(stages, events, c, suggest, n), DecisionOf(stages[n], events[n], c, suggest);
            && d.Some?
            && (d.value.skip == Cooldown <==> last.Some? && events[n].now as int - last.value as int < c.cooldown)
            && (d.value.triggered && last.Some? ==> events[n].m.now as int - last.value as int >= c.cooldown)
  {
    SavedStateRemembers(stages, events, c, suggest, n);
    NeverTwoOpen(stages, events, c, suggest, n);
    assert Leads(stages[n], events[n], stages[n + 1], c, suggest);
    var e := events[n];
    EvaluateOutcome(stages[n].s, stages[n].st, c, e.offer, e.given, suggest, e.now, e.m);
  }

  // A run with two triggers one after the other, whatever the cooldown.

  function At(t: Time): Moment {
    Moment(t, [])
  }

  function Enough(c: Config): Offer {
    Offer(c.minCandidates + 1, true)
  }

  /** An idle runtime in which the given task, if there is one, is done and there is no other. */
  ghost predicate Idle(s: System, id: nat) {
    && Sound(s) && s.state.Some? && s.state.value.active.None? && Ids(s) <= {id} && s.clock <= id + 1
    && forall k :: k in s.files ==> k.0 == Done
  }

  lemma IdleTriggers(s: System, id: nat, st: SchedulerState, c: Config)
    requires Idle(s, id) && st.lastTriggered == None
    ensures Triggers(s, st, c, Enough(c), 0) && AtMostOneOpen(s)
  {
    forall k | k in s.files
      ensures !OpenConsolidation(s.files, k)
    {
      FindsTheOnly(s, k);
    }
    NothingOpenToConsolidate(s);
  }

  /** The first trigger, the end of its task, and an evaluation that finds no candidates. */
  lemma TriggerFinishForget(c: Config, suggest: Task -> Text) returns (s1: Stage, s2: Stage, s3: Stage)
    ensures Leads(Stage(START, NEVER), Evaluation(Enough(c), [], 0, At(0)), s1, c, suggest)
    ensures Triggered(Stage(START, NEVER), Evaluation(Enough(c), [], 0, At(0)), c, suggest)
    ensures Leads(s1, Finished(0, Done, Unchanged(), At(1)), s2, c, suggest)
    ensures Leads(s2, Evaluation(Offer(0, false), [], 1, At(1)), s3, c, suggest)
    ensures Idle(s3.s, 0) && s3.st.lastTriggered == None
  {
    var start := Stage(START, NEVER);
    IdleTriggers(START, 0, NEVER, c);
    EvaluateOutcome(START, NEVER, c, Enough(c), [], suggest, 0, At(0));
    s1 := After(start, Evaluation(Enough(c), [], 0, At(0)), c, suggest);
    OneTaskAfterTrigger(c, suggest);
    s2 := After(s1, Finished(0, Done, Unchanged(), At(1)), c, suggest);
    FinishedIsIdle(s1.s);
    s3 := After(s2, Evaluation(Offer(0, false), [], 1, At(1)), c, suggest);
  }

  ghost predicate Triggered(stage: Stage, e: Event, c: Config, suggest: Task -> Text) {
    DecisionOf(stage, e, c, suggest).Some? && DecisionOf(stage, e, c, suggest).value.triggered
  }

  lemma IdleEvaluationTriggers(stage: Stage, c: Config, suggest: Task -> Text) returns (next: Stage)
    requires Idle(stage.s, 0) && stage.st.lastTriggered == None
    ensures Leads(stage, Evaluation(Enough(c), [], 2, At(2)), next, c, suggest)
    ensures Triggered(stage, Evaluation(Enough(c), [], 2, At(2)), c, suggest)
  {
    IdleTriggers(stage.s, 0, stage.st, c);
    EvaluateOutcome(stage.s, stage.st, c, Enough(c), [], suggest, 2, At(2));
    next := After(stage, Evaluation(Enough(c), [], 2, At(2)), c, suggest);
  }

  lemma OneTaskAfterTrigger(c: Config, suggest: Task -> Text)
    ensures var s := Evaluate(START, NEVER, c, Enough(c), [], suggest, 0, At(0)).0;
            Sound(s) && s.state.Some? && (Active, 0) in s.files && Ids(s) == {0} && s.clock == 1
  {
    IdleTriggers(START, 0, NEVER, c);
    EvaluateOutcome(START, NEVER, c, Enough(c), [], suggest, 0, At(0));
    ConsolidateIsCreatable(c, Reason([]));
    FirstTaskAlone(Consolidate(c, Reason([])), suggest);
  }

  lemma FirstTaskAlone(req: CreateTaskRequest, suggest: Task -> Text)
    requires Creatable(req)
    ensures var s := SubmitTask(START, req, suggest, 0, At(0)).0; Ids(s) == {0} && s.clock == 1
  {
    SubmitKeepsTasks(START, req, suggest, 0, At(0));
    assert Ids(START) == {};
  }

  lemma FinishedIsIdle(s: System)
    requires Sound(s) && s.state.Some? && (Active, 0) in s.files && Ids(s) == {0} && s.clock == 1
    ensures Idle(FinishTask(s, 0, Done, Unchanged(), At(1)).0, 0)
  {
    var after := FinishTask(s, 0, Done, Unchanged(), At(1)).0;
    FinishOutcome(s, 0, Done, Unchanged(), At(1));
    MoveKeepsFiled(s, 0, Done, Unchanged(), 1);
    FindsTheOnly(s, (Active, 0));
    forall k | k in after.files
      ensures k.0 == Done
    {
      assert k.1 in Ids(after);
      FindsTheOnly(after, k);
    }
  }

  /**
   An evaluation that finds no candidates makes the scheduler forget its last trigger. So it can trigger twice
   within two nanoseconds, whatever the cooldown.
   */
  lemma CooldownCanFail(c: Config, suggest: Task -> Text) returns (stages: seq<Stage>, events: seq<Event>)
    ensures Run(stages, events, c, suggest) && |events| == 4
    ensures Triggered(stages[0], events[0], c, suggest) && Triggered(stages[3], events[3], c, suggest)
    ensures events[0] == Evaluation(Enough(c), [], 0, At(0)) && events[3] == Evaluation(Enough(c), [], 2, At(2))
  {
    var s1, s2, s3 := TriggerFinishForget(c, suggest);
    var s4 := IdleEvaluationTriggers(s3, c, suggest);
    stages, events := RunOfFour(Stage(START, NEVER), Evaluation(Enough(c), [], 0, At(0)), s1,
      Finished(0, Done, Unchanged(), At(1)), s2, Evaluation(Offer(0, false), [], 1, At(1)), s3,
      Evaluation(Enough(c), [], 2, At(2)), s4, c, suggest);
  }

  lemma RunOfFour(s0: Stage, e0: Event, s1: Stage, e1: Event, s2: Stage, e2: Event, s3: Stage, e3: Event, s4: Stage,
    c: Config, suggest: Task -> Text) returns (stages: seq<Stage>, events: seq<Event>)
    requires s0 == Stage(START, NEVER) && Leads(s0, e0, s1, c, suggest) && Leads(s1, e1, s2, c, suggest)
    requires Leads(s2, e2, s3, c, suggest) && Leads(s3, e3, s4, c, suggest)
    ensures Run(stages, events, c, suggest) && |events| == 4
    ensures stages[0] == s0 && events[0] == e0 && stages[3] == s3 && events[3] == e3
  {
    stages, events := [s0, s1, s2, s3, s4], [e0, e1, e2, e3];
    forall i | 0 <= i < 4
      ensures Leads(stages[i], events[i], stages[i + 1], c, suggest)
    {
      assert i == 0 || i == 1 || i == 2 || i == 3;
    }
  }
}
