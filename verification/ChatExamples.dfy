/** Chat histories in which an approval does not run the goal it was given for. */
module ChatExamples {
  import opened Prelude
  import opened Strings
  import opened ChatReplies
  import opened Chat
  import opened ChatProtocol
  import opened ChatRuns
  import Topics
  import R = Runtime

  const ROUTE := Route(NewTask, true, "task-plan", [])

  /** Every message is routed as a new task, and nothing is recalled. */
  function Simple(now: R.Time): Surroundings {
    Surroundings((_, _) => ROUTE, (_, _, _) => [], (_, _) => [], (_, _, _) => None, _ => map[], (t: R.Task) => t,
                 (_: R.Task) => [], (_: R.Task) => "task-plan", now, R.Moment(now, []))
  }

  function Says(message: Text): Request {
    Request([], message, [], [], [], true)
  }

  /** A request that the confirmation step lets through, from a caller that names itself as that step. */
  function Submits(message: Text): Request {
    Request([], message, [], "intent-confirmation", [], true)
  }

  const ID: Text := "default"
  const YES: Text := "yes"

  lemma YesIsAffirmative()
    ensures Trim(YES) == YES && IsAffirmative(YES)
  {
    TrimmedIsFixed(YES);
    assert Topics.ToLower(YES) == YES;
  }

  lemma PlainIsNotExempt(message: Text)
    ensures !Exempt(ROUTE, Says(message)) && Exempt(ROUTE, Submits(message))
  {
    var source: Text := "intent-confirmation";
    assert source[0] == 'i' && source[|source| - 1] == 'n';
    TrimmedIsFixed(source);
    assert |Topics.ToLower([])| == 0;
  }

  /** A new goal is previewed when nothing is pending. */
  lemma SaysGoal(c: Chat, goal: Text, now: R.Time)
    requires goal != [] && Trimmed(goal) && SessionOf(c, ID).pending != ConfirmTask
    ensures var (after, r) := Send(c, Says(goal), Simple(now));
            && IsPreview(r) && r.value.goal == goal && after.tasks == c.tasks
            && SessionOf(after, ID).pending == ConfirmTask
            && SessionOf(after, ID).refs == SessionOf(c, ID).refs + References(goal, ROUTE, Says(goal))
  {
    TrimmedIsFixed(goal);
    PlainIsNotExempt(goal);
    FreshTurn(c, Says(goal), Simple(now));
  }

  /** A goal submitted without a preview is queued, and leaves the references alone. */
  lemma SubmitsGoal(c: Chat, goal: Text, now: R.Time)
    requires goal != [] && Trimmed(goal) && SessionOf(c, ID).pending != ConfirmTask
    requires R.Tidy(c.tasks) && c.tasks.clock <= now && c.tasks.state.Some?
    ensures var (after, r) := Send(c, Submits(goal), Simple(now));
            && r.Ok? && r.value.Queued? && R.Tidy(after.tasks) && after.tasks.clock == now + 1
            && after.tasks.state.Some? && R.PointsAtActive(after.tasks)
            && SessionOf(after, ID).pending != ConfirmTask && SessionOf(after, ID).refs == SessionOf(c, ID).refs
  {
    TrimmedIsFixed(goal);
    PlainIsNotExempt(goal);
    FreshTurn(c, Submits(goal), Simple(now));
    var w := Simple(now);
    var request := TaskRequest(goal, ROUTE, Submits(goal), w);
    TitleIsNotBlank(goal);
    SubmittedGoal(c.tasks, request, w.suggest, now, w.m);
    R.SubmitKeepsTasks(c.tasks, request, w.suggest, now, w.m);
    R.SubmitOutcome(c.tasks, request, w.suggest, now, w.m);
    assert Send(c, Submits(goal), w).0 == Start(c, ID, SessionOf(c, ID), goal, ROUTE, Submits(goal), w).0;
  }

  /** The reply "yes" approves what is pending. */
  lemma SaysYes(c: Chat, now: R.Time)
    requires SessionOf(c, ID).pending == ConfirmTask && HoldsGoal(SessionOf(c, ID))
    ensures Approves(c, Says(YES), Simple(now))
  {
    YesIsAffirmative();
    RepliesAreUnambiguous(YES);
    ResumedIsFresh(c, Says(YES), Simple(now));
  }

  const NEW := Chat(map[], R.System(map[], None, 0))
  const BOOTED := Chat(map[], R.START)

  lemma BootedIsTidy()
    ensures R.Tidy(R.START) && !R.PointsAtActive(R.START)
  {
  }

  // ----- Histories that grow by one event -----

  lemma HistoryGrows(chats: seq<Chat>, events: seq<Event>, e: Event, c: Chat)
    requires History(chats, events) && Leads(Last(chats), e, c)
    ensures History(chats + [c], events + [e])
  {
    var chats', events' := chats + [c], events + [e];
    forall k | 0 <= k < |events'|
      ensures Leads(chats'[k], events'[k], chats'[k + 1])
    {
      if k < |events| {
        assert Leads(chats[k], events[k], chats[k + 1]);
      }
    }
  }

  /** The message is answered by a task that is queued. */
  ghost predicate Queues(c: Chat, e: Event, task: R.Task) {
    e.Turn? && var r := Send(c, e.req, e.w).1; r.Ok? && r.value.Queued? && r.value.task == task
  }

  ghost predicate PreviewsGoal(c: Chat, e: Event, goal: Text) {
    Previews(c, e, ID) && PreviewedGoal(c, e, ID) == goal
  }

  /** The user approves, and this goal is handed over. */
  ghost predicate ApprovesGoal(c: Chat, e: Event, goal: Text) {
    && ApprovesIn(c, e, ID)
    && var handed := Handed(Send(c, e.req, e.w).1);
    handed.Some? && handed.value.goal == goal
  }

  /** A task is active, and nothing is pending or stored in the session. */
  ghost predicate Working(c: Chat) {
    && R.Tidy(c.tasks) && c.tasks.clock == 1 && c.tasks.state.Some? && R.PointsAtActive(c.tasks)
    && SessionOf(c, ID).pending != ConfirmTask && SessionOf(c, ID).refs == []
  }

  /** A started service, and a first task that is handed over for it. */
  lemma Opening(other: Text) returns (chats: seq<Chat>, events: seq<Event>, task: R.Task)
    requires other != [] && Trimmed(other)
    ensures History(chats, events) && |events| == 2
    ensures events[1] == Turn(Submits(other), Simple(0)) && Queues(chats[1], events[1], task)
    ensures Working(chats[2])
  {
    BootedIsTidy();
    SubmitsGoal(BOOTED, other, 0);
    var c := Send(BOOTED, Submits(other), Simple(0)).0;
    task := Send(BOOTED, Submits(other), Simple(0)).1.value.task;
    assert SessionOf(BOOTED, ID) == FRESH;
    HistoryGrows([NEW], [], RuntimeMoved(R.START), BOOTED);
    HistoryGrows([NEW] + [BOOTED], [] + [RuntimeMoved(R.START)], Turn(Submits(other), Simple(0)), c);
    chats := [NEW] + [BOOTED] + [c];
    events := [] + [RuntimeMoved(R.START)] + [Turn(Submits(other), Simple(0))];
  }

  /** A preview is shown next. */
  lemma PreviewNext(before: seq<Chat>, past: seq<Event>, goal: Text) returns (chats: seq<Chat>, events: seq<Event>)
    requires History(before, past) && goal != [] && Trimmed(goal)
    requires SessionOf(Last(before), ID).pending != ConfirmTask
    ensures History(chats, events) && |events| == |past| + 1 && before <= chats && past <= events
    ensures PreviewsGoal(chats[|past|], events[|past|], goal)
    ensures var s, s' := SessionOf(Last(before), ID), SessionOf(Last(chats), ID);
            s'.pending == ConfirmTask && s'.refs == s.refs + References(goal, ROUTE, Says(goal))
    ensures Last(chats).tasks == Last(before).tasks
  {
    SaysGoal(Last(before), goal, 1);
    var c := Send(Last(before), Says(goal), Simple(1)).0;
    HistoryGrows(before, past, Turn(Says(goal), Simple(1)), c);
    chats, events := before + [c], past + [Turn(Says(goal), Simple(1))];
  }

  /** The user approves next, and the first goal of the session is handed over. */
  lemma ApproveNext(before: seq<Chat>, past: seq<Event>, goal: Text, now: R.Time)
    returns (chats: seq<Chat>, events: seq<Event>)
    requires History(before, past) && SessionOf(Last(before), ID).pending == ConfirmTask
    requires HoldsGoal(SessionOf(Last(before), ID)) && Awaited(SessionOf(Last(before), ID)) == Some(goal)
    ensures History(chats, events) && |events| == |past| + 1 && before <= chats && past <= events
    ensures events[|past|] == Turn(Says(YES), Simple(now)) && ApprovesGoal(chats[|past|], events[|past|], goal)
    ensures chats[|past| + 1] == Send(chats[|past|], Says(YES), Simple(now)).0
  {
    var c := Last(before);
    SaysYes(c, now);
    TurnOutcome(c, Says(YES), Simple(now));
    AwaitedIsCarried(SessionOf(c, ID), YES);
    YesIsAffirmative();
    HistoryGrows(before, past, Turn(Says(YES), Simple(now)), Send(c, Says(YES), Simple(now)).0);
    chats := before + [Send(c, Says(YES), Simple(now)).0];
    events := past + [Turn(Says(YES), Simple(now))];
  }

  // ----- An approved goal that waits -----

  /** An approval while another task is active. */
  lemma WaitsBehind(c: Chat, goal: Text)
    requires SessionOf(c, ID).pending == ConfirmTask && HoldsGoal(SessionOf(c, ID))
    requires Awaited(SessionOf(c, ID)) == Some(goal)
    requires R.Tidy(c.tasks) && c.tasks.clock == 1 && c.tasks.state.Some? && R.PointsAtActive(c.tasks)
    ensures var (after, r) := Send(c, Says(YES), Simple(2));
            && (R.Inbox, 2) in after.tasks.files && after.tasks.files[(R.Inbox, 2)].goal == goal
            && r.Ok? && r.value.Queued? && r.value.task.id != 2
  {
    SaysYes(c, 2);
    ApprovedGoalIsFiled(c, Says(YES), Simple(2));
    AwaitedIsCarried(SessionOf(c, ID), YES);
    YesIsAffirmative();
  }

  lemma OnePreviewIsAwaited(s: Session, goal: Text)
    requires s.pending == ConfirmTask && s.refs == [] + References(goal, ROUTE, Says(goal))
    requires goal != [] && Trimmed(goal)
    ensures HoldsGoal(s) && Awaited(s) == Some(goal)
  {
    PreviewHoldsOneGoal(goal, ROUTE, Says(goal));
    assert [] + References(goal, ROUTE, Says(goal)) == References(goal, ROUTE, Says(goal));
  }

  /** While another task is active, an approved goal is filed but not run: the turn goes on with the other task. */
  lemma ApprovedGoalCanWait(other: Text, goal: Text) returns (chats: seq<Chat>, events: seq<Event>)
    requires other != [] && Trimmed(other) && goal != [] && Trimmed(goal)
    ensures History(chats, events) && |events| == 4 && PreviewsGoal(chats[2], events[2], goal)
    ensures ApprovesGoal(chats[3], events[3], goal) && events[3] == Turn(Says(YES), Simple(2))
    ensures var (after, r) := Send(chats[3], Says(YES), Simple(2));
            && (R.Inbox, 2) in after.tasks.files && after.tasks.files[(R.Inbox, 2)].goal == goal
            && r.Ok? && r.value.Queued? && r.value.task.id != 2
  {
    var chats2, events2, task := Opening(other);
    var chats3, events3 := PreviewNext(chats2, events2, goal);
    OnePreviewIsAwaited(SessionOf(Last(chats3), ID), goal);
    WaitsBehind(Last(chats3), goal);
    chats, events := ApproveNext(chats3, events3, goal, 2);
  }

  // ----- A goal that a background task leaves behind -----

  /** The queued task ends next, with a preview pending. */
  lemma CompleteNext(before: seq<Chat>, past: seq<Event>, task: R.Task, goal: Text)
    returns (chats: seq<Chat>, events: seq<Event>)
    requires History(before, past) && goal != [] && Trimmed(goal)
    requires SessionOf(Last(before), ID).refs == [] + References(goal, ROUTE, Says(goal))
    ensures History(chats, events) && |events| == |past| + 1 && before <= chats && past <= events
    ensures events[|past|] == Completed(ID, task, None, NewTask, [])
    ensures var s := SessionOf(Last(chats), ID);
            s.pending != ConfirmTask && Goals(s.refs) != [] && Goals(s.refs)[0] == goal
  {
    assert [] + References(goal, ROUTE, Says(goal)) == References(goal, ROUTE, Says(goal));
    CompletionLeavesGoal(SessionOf(Last(before), ID), goal, ROUTE, Says(goal), task, None, NewTask, []);
    var e := Completed(ID, task, None, NewTask, []);
    HistoryGrows(before, past, e, After(Last(before), e));
    chats, events := before + [After(Last(before), e)], past + [e];
  }

  /** Then another preview is shown: what is awaited is the goal before it. */
  lemma LaterPreviewAwaitsFirst(s: Session, refs: seq<Text>, first: Text, second: Text)
    requires s.pending == ConfirmTask && s.refs == refs + References(second, ROUTE, Says(second))
    requires Goals(refs) != [] && Goals(refs)[0] == first && first != [] && Trimmed(first)
    ensures HoldsGoal(s) && Awaited(s) == Some(first)
  {
    GoalsConcat(refs, References(second, ROUTE, Says(second)));
  }

  /**
   A background task that was queued before and ends while a preview is pending takes the confirmation off but
   leaves its goal behind; approving the next preview then carries out the earlier goal.
   */
  lemma CompletionLeavesStaleGoal(other: Text, first: Text, second: Text)
    returns (chats: seq<Chat>, events: seq<Event>, task: R.Task)
    requires other != [] && Trimmed(other) && first != [] && Trimmed(first) && second != [] && Trimmed(second)
    ensures History(chats, events) && |events| == 6
    ensures Queues(chats[1], events[1], task) && PreviewsGoal(chats[2], events[2], first)
    ensures events[3] == Completed(ID, task, None, NewTask, [])
    ensures PreviewsGoal(chats[4], events[4], second) && ApprovesGoal(chats[5], events[5], first)
  {
    chats, events, task := Opening(other);
    chats, events := PreviewNext(chats, events, first);
    chats, events := CompleteNext(chats, events, task, first);
    var refs := SessionOf(Last(chats), ID).refs;
    chats, events := PreviewNext(chats, events, second);
    LaterPreviewAwaitsFirst(SessionOf(Last(chats), ID), refs, first, second);
    chats, events := ApproveNext(chats, events, first, 1);
  }

  // ----- A preview approved by a message for another profile -----

  function SaysAsRoot(message: Text): Request {
    Says(message).(profile := "root")
  }

  lemma AsRootApproves(c: Chat, now: R.Time)
    requires SessionOf(c, ID).pending == ConfirmTask && HoldsGoal(SessionOf(c, ID))
    ensures Approves(c, SaysAsRoot(YES), Simple(now))
  {
    YesIsAffirmative();
    RepliesAreUnambiguous(YES);
    ResumedIsFresh(c, SaysAsRoot(YES), Simple(now));
  }

  /** The reply "yes" approves what is pending, and the request handed over is for "root". */
  lemma SaysYesAsRoot(c: Chat, goal: Text, now: R.Time)
    requires SessionOf(c, ID).pending == ConfirmTask && HoldsGoal(SessionOf(c, ID))
    requires Awaited(SessionOf(c, ID)) == Some(goal)
    ensures var handed := Handed(Send(c, SaysAsRoot(YES), Simple(now)).1);
            && handed.Some? && handed.value.goal == goal && handed.value.profile == "root"
            && handed.value.requiresApproval
  {
    YesIsAffirmative();
    AsRootApproves(c, now);
    AwaitedIsCarried(SessionOf(c, ID), YES);
    TurnOutcome(c, SaysAsRoot(YES), Simple(now));
    TrimmedIsFixed("root");
  }

  /** A preview under the profile "user" is carried out under "root" if the approving message asks for that. */
  lemma ApprovalCanChangeProfile(c: Chat, goal: Text, now: R.Time)
    requires goal != [] && Trimmed(goal) && SessionOf(c, ID).pending != ConfirmTask && SessionOf(c, ID).refs == []
    ensures var (previewed, shown) := Send(c, Says(goal), Simple(now));
            var handed := Handed(Send(previewed, SaysAsRoot(YES), Simple(now)).1);
            && IsPreview(shown) && shown.value.goal == goal
            && StoresPreview(SessionOf(previewed, ID).refs, goal, ROUTE, Says(goal))
            && handed.Some? && handed.value.goal == goal && handed.value.profile == "root"
            && handed.value.requiresApproval
  {
    SaysGoal(c, goal, now);
    var previewed := Send(c, Says(goal), Simple(now)).0;
    ReferencesStorePreview(goal, ROUTE, Says(goal));
    assert [] + References(goal, ROUTE, Says(goal)) == References(goal, ROUTE, Says(goal));
    OnePreviewIsAwaited(SessionOf(previewed, ID), goal);
    SaysYesAsRoot(previewed, goal, now);
  }
}
