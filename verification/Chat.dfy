/** The confirmation protocol of the chat: preview a task, then approve, abandon or refine it. */
module Chat {
  import opened Prelude
  import opened Strings
  import opened ChatReplies
  import Topics
  import R = Runtime

  datatype Act = NoAct | Chatting | NewTask | Answer | Confirm | Deny | ContinueTask | Clarify | SwitchTopic

  /** How a message is routed. */
  datatype Route = Route(act: Act, task: bool, skill: Text, scope: Text)

  datatype Pending = Nothing | ConfirmTask | SummarizeFocus

  datatype Session = Session(
    topic: Text, focus: Option<nat>, question: Text, pending: Pending, userAct: Act, assistantAct: Text,
      refs: seq<Text>)

  const FRESH := Session([], None, [], Nothing, NoAct, [], [])

  datatype Request = Request(session: Text, message: Text, requestedBy: Text, source: Text, profile: Text, async: bool)

  /** The saved session states, and the task runtime. */
  datatype Chat = Chat(sessions: map<Text, Session>, tasks: R.System)

  /** What a turn gets from routing, recall, the model and the skill runner; `now` names the task it may create. */
  datatype Surroundings = Surroundings(
    route: (Text, Session) -> Route,
    preview: (Text, Route, Text) -> Text,
    asks: (Text, Session) -> Text,
    hits: (Text, Session, Text) -> Option<seq<Text>>,
    metadata: Text -> map<Text, Text>,
    run: R.Task -> R.Task,
    summary: R.Task -> Text,
    suggest: R.Task -> Text,
    now: R.Time,
    m: R.Moment)

  datatype ChatError = MessageRequired

  /** The kind of answer; `Queued` and `NotCreated` carry the request handed to the orchestrator. */
  datatype Reply =
    | FollowUp
    | Continued
    | Direct
    | Preview(goal: Text, question: Text)
    | Declined
    | NotCreated(request: R.CreateTaskRequest, error: R.RuntimeError)
    | Queued(request: R.CreateTaskRequest, task: R.Task)

  function IdOf(session: Text): Text {
    if Trim(session) == [] then "default" else Trim(session)
  }

  function SessionOf(c: Chat, id: Text): Session {
    if id in c.sessions then c.sessions[id] else FRESH
  }

  function Saved(c: Chat, id: Text, s: Session): Chat {
    c.(sessions := c.sessions[id := s])
  }

  // ----- The guards of a turn -----

  predicate Follows(act: Act) {
    act == Confirm || act == Answer || act == ContinueTask
  }

  predicate FollowsUp(files: R.Files, s: Session, route: Route) {
    Follows(route.act) && s.focus.Some? && s.pending == SummarizeFocus && R.GetTask(files, s.focus.value).Ok?
  }

  predicate Reviewable(skill: Text) {
    skill == "web-search" || skill == "email-inbox" || skill == "github-issue-search" || skill == "task-plan"
  }

  predicate Continues(files: R.Files, s: Session, route: Route) {
    && Trim(route.scope) == "focused_task" && s.focus.Some? && Follows(route.act)
    && R.GetTask(files, s.focus.value).Ok?
    && R.GetTask(files, s.focus.value).value.state == R.Done && Reviewable(R.GetTask(files, s.focus.value).value.skill)
  }

  predicate EqualFold(s: Text, t: Text) {
    Topics.ToLower(s) == Topics.ToLower(t)
  }

  /** A routed task request is previewed first, but for four exceptions. */
  predicate NeedsConfirmation(route: Route, text: Text, source: Text, profile: Text) {
    && route.task && !Follows(route.act) && !EqualFold(Trim(source), "intent-confirmation")
    && !EqualFold(Trim(profile), "root") && Trim(text) != []
  }

  // ----- The references a preview stores -----

  function References(text: Text, route: Route, req: Request): seq<Text> {
    ["confirm_goal:" + text, "confirm_skill:" + route.skill, "confirm_scope:" + route.scope,
     "confirm_profile:" + FirstNonEmpty(req.profile, "user"),
     "confirm_requested_by:" + FirstNonEmpty(req.requestedBy, "web-chat"),
     "confirm_source:" + FirstNonEmpty(req.source, "web-chat")]
  }

  /** What the first reference with the key says. */
  function Parse(refs: seq<Text>, key: Text): Text {
    if refs == [] then []
    else if key + ":" <= refs[0] then refs[0][|key| + 1..]
    else Parse(refs[1..], key)
  }

  /** Trimmed, without blanks and repetitions, in order of first occurrence. */
  function Dedupe(values: seq<Text>): seq<Text> {
    if values == [] then []
    else
      var init := Dedupe(values[..|values| - 1]);
      var value := Trim(Last(values));
      if value == [] || value in init then init else init + [value]
  }

  // ----- One turn -----

  function Title(text: Text): Text {
    var message := seq(|text|, i requires 0 <= i < |text| => if text[i] == '\n' then ' ' else text[i]);
    if |message| > 72 then Trim(message[..72]) + "..." else message
  }

  function TaskRequest(text: Text, route: Route, req: Request, w: Surroundings): R.CreateTaskRequest {
    var profile := FirstNonEmpty(req.profile, "user");
    R.CreateTaskRequest(Title(text), text, FirstNonEmpty(req.requestedBy, "web-chat"),
      FirstNonEmpty(req.source, "web-chat"),
                        profile, profile == "root", route.skill, w.metadata(text)["chat_origin" := "true"])
  }

  function Started(s: Session, task: R.Task, hits: Option<seq<Text>>, act: Act): Session {
    Session(FirstNonEmpty(task.title, s.topic), Some(task.id), [], Nothing, act, "task_started",
            if hits.Some? then hits.value else s.refs)
  }

  function FinalStage(task: R.Task): Text {
    match task.state
    case Done => "done"
    case AwaitingApproval => "awaiting_approval"
    case Blocked => "blocked"
    case Failed => "failed"
    case _ => "responded"
  }

  /** The session once the task has run; `question` is the one its summary ends in. */
  function Finalized(s: Session, task: R.Task, hits: Option<seq<Text>>, act: Act, question: Text): Session {
    Session(FirstNonEmpty(task.title, s.topic), Some(task.id), question,
            if question != [] && (task.skill == "web-search" || task.skill == "email-inbox") then SummarizeFocus
              else Nothing,
            if act == NoAct then s.userAct else act, FinalStage(task),
            Dedupe(s.refs + Dedupe(if hits.Some? then hits.value else [])))
  }

  predicate Runs(task: R.Task) {
    task.state == R.Active || task.state == R.Planned
  }

  ghost function Start(c: Chat, id: Text, s: Session, text: Text, route: Route, req: Request, w: Surroundings)
    : (Chat, Reply) {
    var request := TaskRequest(text, route, req, w);
    var hits := w.hits(text, s, route.skill);
    var (tasks, r) := R.SubmitTask(c.tasks, request, w.suggest, w.now, w.m);
    if r.Err? then (c.(tasks := tasks), NotCreated(request, r.error))
    else
      var started := Started(s, r.value, hits, route.act);
      if req.async then (Saved(c.(tasks := tasks), id, started), Queued(request, r.value))
      else
        var task := if Runs(r.value) then w.run(r.value) else r.value;
        (Saved(c.(tasks := tasks), id, Finalized(started, task, hits, route.act, w.summary(task))),
          Queued(request, task))
  }

  function Previewed(s: Session, text: Text, route: Route, req: Request, question: Text): Session {
    s.(question := question, pending := ConfirmTask, refs := s.refs + References(text, route, req),
      userAct := route.act,
       assistantAct := "clarify")
  }

  function Answered(s: Session, act: Act, question: Text): Session {
    var s1 := s.(userAct := act, assistantAct := "direct_reply");
    if question != [] then s1.(question := question, focus := None, pending := Nothing) else s1
  }

  /** The answer to a message that no follow-up or pending confirmation takes. */
  ghost function Respond(c: Chat, id: Text, s: Session, text: Text, route: Route, req: Request,
    w: Surroundings): (Chat, Reply) {
    if !route.task then (Saved(c, id, Answered(s, route.act, w.asks(text, s))), Direct)
    else if NeedsConfirmation(route, text, req.source, req.profile) then
      var question := w.preview(text, route, FirstNonEmpty(req.profile, "user"));
      (Saved(c, id, Previewed(s, text, route, req, question)), Preview(text, question))
    else Start(c, id, s, text, route, req, w)
  }

  /** The pending confirmation is taken off before the reply to it is acted on. */
  function Cleared(s: Session): Session {
    s.(pending := Nothing, question := [], refs := [])
  }

  function StoredGoal(s: Session, text: Text): Text {
    var goal := Parse(s.refs, "confirm_goal");
    if Trim(goal) == [] then text else goal
  }

  ghost function Send(c: Chat, req: Request, w: Surroundings): (Chat, Result<Reply, ChatError>)
    decreases if SessionOf(c, IdOf(req.session)).pending == ConfirmTask then 1 else 0
  {
    var text := Trim(req.message);
    if text == [] then (c, Err(MessageRequired))
    else
      var id := IdOf(req.session);
      var s := SessionOf(c, id);
      var route := w.route(text, s);
      if FollowsUp(c.tasks.files, s, route) then
        (Saved(c, id, s.(userAct := route.act, assistantAct := "followup_reply", question := [], pending := Nothing)),
          Ok(FollowUp))
      else if Continues(c.tasks.files, s, route) then
        (Saved(c, id, s.(userAct := route.act, assistantAct := "focused_task_followup")), Ok(Continued))
      else if s.pending == ConfirmTask then
        if IsAffirmative(text) then
          Send(Saved(c, id, Cleared(s)), req.(message := StoredGoal(s, text), source := "intent-confirmation"), w)
        else if IsNegative(text) then
          (Saved(c, id, Cleared(s)), Ok(Declined))
        else
          Send(Saved(c, id, Cleared(s).(assistantAct := [])), req.(message := text), w)
      else
        var (after, reply) := Respond(c, id, s, text, route, req, w);
        (after, Ok(reply))
  }
}
