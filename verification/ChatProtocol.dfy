/** What the confirmation protocol guarantees, turn by turn and over whole runs. */
module ChatProtocol {
  import opened Prelude
  import opened Strings
  import opened ChatReplies
  import opened Chat
  import R = Runtime

  // ----- Goals among the references of a session -----

  const GOAL: Text := "confirm_goal:"

  predicate GoalRef(ref: Text) {
    GOAL <= ref
  }

  /** The goals the references hold, in order. */
  function Goals(refs: seq<Text>): seq<Text> {
    if refs == [] then []
    else (if GoalRef(refs[0]) then [refs[0][|GOAL|..]] else []) + Goals(refs[1..])
  }

  lemma {:induction false} GoalsConcat(a: seq<Text>, b: seq<Text>)
    ensures Goals(a + b) == Goals(a) + Goals(b)
  {
    if a == [] {
      assert a + b == b;
    } else {
      GoalsConcat(a[1..], b);
      assert (a + b)[0] == a[0] && (a + b)[1..] == a[1..] + b;
      var first := if GoalRef(a[0]) then [a[0][|GOAL|..]] else [];
      assert first + (Goals(a[1..]) + Goals(b)) == (first + Goals(a[1..])) + Goals(b);
    }
  }

  lemma {:induction false} ParseIsFirstGoal(refs: seq<Text>)
    ensures Parse(refs, "confirm_goal") == if Goals(refs) == [] then [] else Goals(refs)[0]
  {
    assert "confirm_goal" + ":" == GOAL;
    if refs != [] {
      ParseIsFirstGoal(refs[1..]);
    }
  }

  lemma {:induction false} NoGoals(refs: seq<Text>)
    ensures Goals(refs) == [] <==> forall r :: r in refs ==> !GoalRef(r)
  {
    if refs != [] {
      NoGoals(refs[1..]);
      assert refs == [refs[0]] + refs[1..];
    }
  }

  /** A preview stores its goal, and no other reference of it reads as a goal. */
  lemma PreviewHoldsOneGoal(text: Text, route: Route, req: Request)
    ensures Goals(References(text, route, req)) == [text]
  {
    var refs := References(text, route, req);
    assert refs[0] == GOAL + text && refs[0][|GOAL|..] == text && GOAL[8] == 'g';
    assert refs[1][8] == 's' && refs[2][8] == 's' && refs[3][8] == 'p' && refs[4][8] == 'r' && refs[5][8] == 's';
    forall r | r in refs[1..]
      ensures !GoalRef(r)
    {
      assert r[8] != GOAL[8];
    }
    NoGoals(refs[1..]);
  }

  lemma {:induction false} TrimRightKeepsPrefix(p: Text, s: Text)
    requires p != [] && !IsSpace(Last(p)) && p <= s
    ensures p <= TrimRight(s)
    decreases |s|
  {
    if IsSpace(s[|s| - 1]) {
      assert p != s;
      assert p <= s[..|s| - 1];
      TrimRightKeepsPrefix(p, s[..|s| - 1]);
    }
  }

  lemma TrimKeepsGoal(r: Text)
    requires GoalRef(r)
    ensures GoalRef(Trim(r))
  {
    assert r[0] == GOAL[0];
    TrimRightKeepsPrefix(GOAL, r);
  }

  /** None of the references is a goal, even once trimmed. */
  predicate Clean(refs: seq<Text>) {
    forall r :: r in refs ==> !GoalRef(Trim(r))
  }

  lemma CleanHoldsNoGoal(refs: seq<Text>)
    requires Clean(refs)
    ensures Goals(refs) == []
  {
    forall r | r in refs
      ensures !GoalRef(r)
    {
      if GoalRef(r) {
        TrimKeepsGoal(r);
      }
    }
    NoGoals(refs);
  }

  lemma {:induction false} DedupeElements(values: seq<Text>, v: Text)
    ensures v in Dedupe(values) <==> v != [] && exists i :: 0 <= i < |values| && Trim(values[i]) == v
    decreases |values|
  {
    if values != [] {
      var init := values[..|values| - 1];
      DedupeElements(init, v);
      assert forall i :: 0 <= i < |init| ==> init[i] == values[i];
    }
  }

  // ----- One turn -----

  /** The goal that awaits approval. */
  function Awaited(s: Session): Option<Text> {
    if s.pending == ConfirmTask && Goals(s.refs) != [] then Some(Goals(s.refs)[0]) else None
  }

  /** The goal an approval carries out: the first one stored, or the reply itself when that is blank. */
  function Carried(s: Session, reply: Text): Text {
    Trim(StoredGoal(s, reply))
  }

  lemma AwaitedIsCarried(s: Session, reply: Text)
    requires s.pending == ConfirmTask && HoldsGoal(s)
    ensures Awaited(s) == Some(Carried(s, reply))
  {
    ParseIsFirstGoal(s.refs);
    TrimmedIsFixed(Goals(s.refs)[0]);
  }

  /** A reply is carried out in place of a goal only if the first goal stored is blank. */
  lemma CarriedIsFirstGoal(s: Session, reply: Text)
    requires Goals(s.refs) != [] && reply != [] && Trimmed(reply)
    ensures Carried(s, reply) == (if Trim(Goals(s.refs)[0]) == [] then reply else Trim(Goals(s.refs)[0]))
    ensures Carried(s, reply) != []
  {
    ParseIsFirstGoal(s.refs);
    TrimmedIsFixed(reply);
  }

  /** The sources that recall may cite on a turn. */
  ghost function Cited(w: Surroundings): iset<Text> {
    iset text, s, skill, r | w.hits(text, s, skill).Some? && r in w.hits(text, s, skill).value :: r
  }

  /** Recall cites no source that reads as a stored goal. */
  ghost predicate CleanHits(w: Surroundings) {
    forall text, s, skill :: w.hits(text, s, skill).Some? ==> Clean(w.hits(text, s, skill).value)
  }

  /** The request a turn handed to the orchestrator. */
  function Handed(r: Result<Reply, ChatError>): Option<R.CreateTaskRequest> {
    if r.Ok? && (r.value.Queued? || r.value.NotCreated?) then Some(r.value.request) else None
  }

  predicate Exempt(route: Route, req: Request) {
    Follows(route.act) || EqualFold(Trim(req.source), "intent-confirmation") || EqualFold(Trim(req.profile), "root")
  }

  // How the references of a session come about.

  /** Every reference that reads as a goal is one of the given sources, but for white space around it. */
  ghost predicate Inherits(refs: seq<Text>, from_: iset<Text>) {
    forall r :: r in refs && GoalRef(Trim(r)) ==> Inherited(r, from_)
  }

  ghost predicate Inherited(r: Text, from_: iset<Text>) {
    exists q :: q in from_ && (r == q || r == Trim(q))
  }

  ghost function All(refs: seq<Text>): iset<Text> {
    iset r | r in refs
  }

  lemma InheritsSources(refs: seq<Text>, from_: iset<Text>)
    requires All(refs) <= from_
    ensures Inherits(refs, from_)
  {
    forall r | r in refs
      ensures Inherited(r, from_)
    {
      assert r in All(refs);
    }
  }

  /** Merging sources in, and trimming and deduplicating all of them, brings in nothing else. */
  lemma DedupeInherits(refs: seq<Text>, hits: seq<Text>, from_: iset<Text>)
    requires Inherits(refs, from_) && All(hits) <= from_
    ensures Inherits(Dedupe(refs + Dedupe(hits)), from_)
  {
    var all := refs + Dedupe(hits);
    forall r | r in Dedupe(all) && GoalRef(Trim(r))
      ensures Inherited(r, from_)
    {
      DedupeElements(all, r);
      var i :| 0 <= i < |all| && Trim(all[i]) == r;
      TrimIsTrimmed(all[i]);
      if i < |refs| {
        assert all[i] == refs[i] && refs[i] in refs;
        assert Inherited(all[i], from_);
        var q :| q in from_ && (all[i] == q || all[i] == Trim(q));
        TrimIsTrimmed(q);
      } else {
        assert all[i] == Dedupe(hits)[i - |refs|] && all[i] in Dedupe(hits);
        DedupeElements(hits, all[i]);
        var j :| 0 <= j < |hits| && Trim(hits[j]) == all[i];
        TrimIsTrimmed(hits[j]);
        assert hits[j] in All(hits);
      }
    }
  }

  /** A started task, and one that has also finished, leaves no confirmation pending and only goals it found. */
  lemma TaskInherits(s: Session, task: R.Task, hits: Option<seq<Text>>, act: Act, question: Text, from_: iset<Text>)
    requires Inherits(s.refs, from_) && (hits.Some? ==> All(hits.value) <= from_)
    ensures Started(s, task, hits, act).pending == Nothing && Inherits(Started(s, task, hits, act).refs, from_)
    ensures Finalized(s, task, hits, act, question).pending != ConfirmTask
    ensures Inherits(Finalized(s, task, hits, act, question).refs, from_)
  {
    var right := if hits.Some? then hits.value else [];
    DedupeInherits(s.refs, right, from_);
    InheritsSources(right, if hits.Some? then from_ else All(right));
  }

  /** What a turn may leave behind: the references it starts from, and what recall cites. */
  ghost function Sources(refs: seq<Text>, w: Surroundings): iset<Text> {
    All(refs) + Cited(w)
  }

  lemma HitsAreCited(w: Surroundings, text: Text, s: Session, skill: Text)
    ensures w.hits(text, s, skill).Some? ==> All(w.hits(text, s, skill).value) <= Cited(w)
  {
  }

  /** The session after a task was started on it, and perhaps run. */
  lemma StartInherits(s: Session, task: R.Task, route: Route, text: Text, w: Surroundings)
    ensures var hits, from_ := w.hits(text, s, route.skill), Sources(s.refs, w);
            var started := Started(s, task, hits, route.act);
            && started.pending == Nothing && Inherits(started.refs, from_)
            && forall run: R.Task, question ::
                 var final := Finalized(started, run, hits, route.act, question);
                 final.pending != ConfirmTask && Inherits(final.refs, from_)
  {
    var hits, from_ := w.hits(text, s, route.skill), Sources(s.refs, w);
    HitsAreCited(w, text, s, route.skill);
    InheritsSources(s.refs, from_);
    var started := Started(s, task, hits, route.act);
    TaskInherits(s, task, hits, route.act, [], from_);
    forall run: R.Task, question
      ensures var final := Finalized(started, run, hits, route.act, question);
              final.pending != ConfirmTask && Inherits(final.refs, from_)
    {
      TaskInherits(started, run, hits, route.act, question, from_);
    }
  }

  lemma StartOutcome(c: Chat, id: Text, s: Session, text: Text, route: Route, req: Request, w: Surroundings)
    requires s == SessionOf(c, id) && s.pending != ConfirmTask
    ensures var (after, reply) := Start(c, id, s, text, route, req, w);
            && SessionOf(after, id).pending != ConfirmTask && Inherits(SessionOf(after, id).refs, Sources(s.refs, w))
            && (forall j :: j != id ==> SessionOf(after, j) == SessionOf(c, j))
            && Handed(Ok(reply)) == Some(TaskRequest(text, route, req, w))
            && !reply.Preview?
  {
    var request := TaskRequest(text, route, req, w);
    var r := R.SubmitTask(c.tasks, request, w.suggest, w.now, w.m).1;
    if r.Ok? {
      StartInherits(s, r.value, route, text, w);
    } else {
      InheritsSources(s.refs, Sources(s.refs, w));
    }
  }

  /** An answer adds at most the goal it previews; it hands over exactly the exempt task requests. */
  lemma RespondOutcome(c: Chat, id: Text, s: Session, text: Text, route: Route, req: Request, w: Surroundings)
    requires s == SessionOf(c, id) && s.pending != ConfirmTask && text != [] && Trimmed(text)
    ensures var (after, reply) := Respond(c, id, s, text, route, req, w);
            && (forall j :: j != id ==> SessionOf(after, j) == SessionOf(c, j))
            && (reply.Preview? <==> route.task && !Exempt(route, req)) && (reply.Preview? ==> reply.goal == text)
            && (if reply.Preview?
                then SessionOf(after, id).pending == ConfirmTask
                     && SessionOf(after, id).refs == s.refs + References(text, route, req)
                else SessionOf(after, id).pending != ConfirmTask
                     && Inherits(SessionOf(after, id).refs, Sources(s.refs, w)))
            && Handed(Ok(reply)) == (if route.task && Exempt(route, req) then Some(TaskRequest(text, route, req, w))
              else None)
  {
    TrimmedIsFixed(text);
    InheritsSources(s.refs, Sources(s.refs, w));
    if route.task && Exempt(route, req) {
      StartOutcome(c, id, s, text, route, req, w);
    }
  }

  function Before(c: Chat, req: Request): Session {
    SessionOf(c, IdOf(req.session))
  }

  function RouteOf(c: Chat, req: Request, w: Surroundings): Route {
    w.route(Trim(req.message), Before(c, req))
  }

  /** The message gets past the two follow-up handlers. */
  predicate PassesFollowUps(c: Chat, req: Request, w: Surroundings) {
    && Trim(req.message) != []
    && !FollowsUp(c.tasks.files, Before(c, req), RouteOf(c, req, w))
    && !Continues(c.tasks.files, Before(c, req), RouteOf(c, req, w))
  }

  /** The message follows up on the question that ended the summary of a task that is still there. */
  predicate AnswersSummary(c: Chat, s: Session, act: Act) {
    act in {Confirm, Answer, ContinueTask} && s.pending == SummarizeFocus && s.focus.Some? &&
      R.GetTask(c.tasks.files, s.focus.value).Ok?
  }

  /** The message goes on about a task that is done and whose result can be looked at again. */
  predicate GoesOn(c: Chat, s: Session, act: Act, scope: Text) {
    && act in {Confirm, Answer, ContinueTask} && Trim(scope) == "focused_task" && s.focus.Some?
    && var task := R.GetTask(c.tasks.files, s.focus.value);
    task.Ok? && task.value.state == R.Done &&
    task.value.skill in {"web-search", "email-inbox", "github-issue-search", "task-plan"}
  }

  /** Which messages are taken by the two handlers that come first. */
  lemma FollowUpsAre(c: Chat, req: Request, w: Surroundings)
    ensures var (s, route, r) := (Before(c, req), RouteOf(c, req, w), Send(c, req, w).1);
            && (PassesFollowUps(c, req, w) <==>
                 Trim(req.message) != [] && !AnswersSummary(c, s, route.act) && !GoesOn(c, s, route.act, route.scope))
            && (s.pending != ConfirmTask ==>
                 && (r == Ok(FollowUp) <==> Trim(req.message) != [] && AnswersSummary(c, s, route.act))
                 && (r == Ok(Continued) <==>
                      && Trim(req.message) != [] && !AnswersSummary(c, s, route.act)
                      && GoesOn(c, s, route.act, route.scope)))
  {
  }

  /** The turn answers a pending confirmation. */
  predicate Settles(c: Chat, req: Request, w: Surroundings) {
    Before(c, req).pending == ConfirmTask && PassesFollowUps(c, req, w)
  }

  /** The turn on which an approval, or a refinement, is acted on: the confirmation is gone and saved as gone. */
  function Resumed(c: Chat, req: Request): (Chat, Request) {
    var s := Before(c, req);
    var text := Trim(req.message);
    if IsAffirmative(text) then
      (Saved(c, IdOf(req.session), Cleared(s)), req.(message := StoredGoal(s, text), source := "intent-confirmation"))
    else (Saved(c, IdOf(req.session), Cleared(s).(assistantAct := [])), req.(message := text))
  }

  /** The turn declines the pending confirmation. */
  predicate Declines(c: Chat, req: Request, w: Surroundings) {
    Settles(c, req, w) && IsNegative(Trim(req.message))
  }

  predicate IsPreview(r: Result<Reply, ChatError>) {
    r.Ok? && r.value.Preview?
  }

  /** A message to a session in which nothing is pending. */
  lemma FreshTurn(c: Chat, req: Request, w: Surroundings)
    requires Before(c, req).pending != ConfirmTask
    ensures var (after, r) := Send(c, req, w);
            var text, route := Trim(req.message), RouteOf(c, req, w);
            var s, s' := Before(c, req), SessionOf(after, IdOf(req.session));
            && (forall j :: j != IdOf(req.session) ==> SessionOf(after, j) == SessionOf(c, j))
            && (r.Err? <==> text == [])
            && (IsPreview(r) <==> PassesFollowUps(c, req, w) && route.task && !Exempt(route, req))
            && (if IsPreview(r)
                then r.value.goal == text && s'.pending == ConfirmTask
                     && s'.refs == s.refs + References(text, route, req)
                else s'.pending != ConfirmTask && Inherits(s'.refs, Sources(s.refs, w)))
            && Handed(r) == (if PassesFollowUps(c, req, w) && route.task && Exempt(route, req)
                             then Some(TaskRequest(text, route, req, w)) else None)
  {
    TrimIsTrimmed(req.message);
    InheritsSources(Before(c, req).refs, Sources(Before(c, req).refs, w));
    if PassesFollowUps(c, req, w) {
      RespondOutcome(c, IdOf(req.session), Before(c, req), Trim(req.message), RouteOf(c, req, w), req, w);
    }
  }

  /** While a confirmation is pending, the session holds a goal, and the first one is a text that can be sent. */
  predicate HoldsGoal(s: Session) {
    s.pending == ConfirmTask ==> Goals(s.refs) != [] && Goals(s.refs)[0] != [] && Trimmed(Goals(s.refs)[0])
  }

  lemma ResumedIsFresh(c: Chat, req: Request, w: Surroundings)
    requires Settles(c, req, w) && !Declines(c, req, w)
    ensures var (c', req') := Resumed(c, req);
            && Send(c, req, w) == Send(c', req', w)
            && IdOf(req'.session) == IdOf(req.session) && Before(c', req').pending == Nothing &&
              Before(c', req').refs == []
            && (forall j :: j != IdOf(req.session) ==> SessionOf(c', j) == SessionOf(c, j))
            && Trim(req'.message) == (if IsAffirmative(Trim(req.message))
                                     then Carried(Before(c, req), Trim(req.message)) else Trim(req.message))
            && Trim(req'.message) != []
  {
    TrimIsTrimmed(req.message);
  }

  /** The turn carries out a goal that was previewed and is now approved. */
  predicate Approves(c: Chat, req: Request, w: Surroundings) {
    && Settles(c, req, w) && IsAffirmative(Trim(req.message))
    && var (c', req') := Resumed(c, req);
    PassesFollowUps(c', req', w) && RouteOf(c', req', w).task
  }

  /** The turn hands its own message over without a preview, under one of the exceptions. */
  predicate Bypasses(c: Chat, req: Request, w: Surroundings) {
    && !(Settles(c, req, w) && IsAffirmative(Trim(req.message))) && !Declines(c, req, w)
    && PassesFollowUps(c, req, w)
    && var (c', req') := if Settles(c, req, w) then Resumed(c, req) else (c, req);
    PassesFollowUps(c', req', w) && RouteOf(c', req', w).task && Exempt(RouteOf(c', req', w), req')
  }

  lemma ApprovedIsExempt(c: Chat, req: Request, route: Route)
    requires IsAffirmative(Trim(req.message))
    ensures Exempt(route, Resumed(c, req).1)
  {
    var source: Text := "intent-confirmation";
    assert source[0] == 'i' && source[|source| - 1] == 'n';
    TrimmedIsFixed(source);
  }

  /** The references a turn starts from: none, once a pending confirmation has been answered. */
  function Base(c: Chat, req: Request, w: Surroundings): seq<Text> {
    if Settles(c, req, w) then [] else Before(c, req).refs
  }

  /** What a turn makes of the references, and of what is pending. */
  ghost predicate Ensues(c: Chat, req: Request, w: Surroundings, after: Session, r: Result<Reply, ChatError>) {
    if IsPreview(r) then
      after.pending == ConfirmTask
      && exists route, req' :: after.refs == Base(c, req, w) + References(r.value.goal, route, req')
    else if Settles(c, req, w) || Before(c, req).pending != ConfirmTask then
      after.pending != ConfirmTask && Inherits(after.refs, Sources(Base(c, req, w), w))
    else after.pending == ConfirmTask && after.refs == Before(c, req).refs
  }

  // What a request that is handed over asks for.

  /** The session that the message is routed on: without the pending confirmation, if the message answered one. */
  function Seen(c: Chat, req: Request, w: Surroundings): Session {
    var s := Before(c, req);
    if !Settles(c, req, w) then s
    else if Approves(c, req, w) then s.(pending := Nothing, question := [], refs := [])
    else s.(pending := Nothing, question := [], refs := [], assistantAct := [])
  }

  function SourceOf(req: Request): Text {
    OrElse(req.source, "web-chat")
  }

  /** One line, with at most 72 bytes of the goal. */
  ghost predicate IsTitle(title: Text, goal: Text) {
    if |goal| <= 72 then IsOneLine(title, goal)
    else exists line :: IsOneLine(line, goal[..72]) && title == Trim(line) + "..."
  }

  predicate IsOneLine(line: Text, text: Text) {
    |line| == |text| && forall i :: 0 <= i < |text| ==> line[i] == if text[i] == '\n' then ' ' else text[i]
  }

  /**
   The request is for the goal, with the skill. It runs under the profile that the message asks for, or "user", and
   needs approval exactly for "root". It says who asked, and through what.
   */
  ghost predicate IsAsked(request: R.CreateTaskRequest, goal: Text, skill: Text, req: Request, source: Text,
    w: Surroundings) {
    && request.goal == goal && request.skill == skill && IsTitle(request.title, goal)
    && request.profile == OrElse(req.profile, "user") && (request.requiresApproval <==> request.profile == "root")
    && request.requestedBy == OrElse(req.requestedBy, "web-chat") && request.source == source
    && request.metadata == w.metadata(goal) + map["chat_origin" := "true"]
  }

  /** With the routed skill, for the approved goal or the message; an approved goal comes from the confirmation. */
  ghost predicate AsksFor(c: Chat, req: Request, w: Surroundings, request: R.CreateTaskRequest) {
    var approved := Approves(c, req, w);
    var goal := if approved then Carried(Before(c, req), Trim(req.message)) else Trim(req.message);
    var source := if approved then "intent-confirmation" else SourceOf(req);
    IsAsked(request, goal, w.route(goal, Seen(c, req, w)).skill, req, source, w)
  }

  lemma TitleIsTitle(goal: Text)
    ensures IsTitle(Title(goal), goal)
  {
    var line: Text := seq(|goal|, i requires 0 <= i < |goal| => if goal[i] == '\n' then ' ' else goal[i]);
    if |goal| > 72 {
      assert IsOneLine(line[..72], goal[..72]);
    }
  }

  /** The request made for a message is as the message asks. */
  lemma RequestIsAsked(text: Text, route: Route, req: Request, w: Surroundings)
    ensures IsAsked(TaskRequest(text, route, req, w), text, route.skill, req, SourceOf(req), w)
  {
    DefaultIsTaken(req.profile, "user");
    DefaultIsTaken(req.requestedBy, "web-chat");
    DefaultIsTaken(req.source, "web-chat");
    TitleIsTitle(text);
  }

  lemma FreshIsAsked(c: Chat, req: Request, w: Surroundings, request: R.CreateTaskRequest)
    requires Before(c, req).pending != ConfirmTask && Handed(Send(c, req, w).1) == Some(request)
    ensures IsAsked(request, Trim(req.message), RouteOf(c, req, w).skill, req, SourceOf(req), w)
  {
    FreshTurn(c, req, w);
    RequestIsAsked(Trim(req.message), RouteOf(c, req, w), req, w);
  }

  lemma SettledIsAsked(c: Chat, req: Request, w: Surroundings, request: R.CreateTaskRequest)
    requires Settles(c, req, w) && !Declines(c, req, w) && Handed(Send(c, req, w).1) == Some(request)
    ensures AsksFor(c, req, w, request)
  {
    ResumedIsFresh(c, req, w);
    var (c', req') := Resumed(c, req);
    FreshIsAsked(c', req', w, request);
    FreshTurn(c', req', w);
    ConfirmationIsTrimmed();
  }

  lemma HandedIsAsked(c: Chat, req: Request, w: Surroundings, request: R.CreateTaskRequest)
    requires Handed(Send(c, req, w).1) == Some(request)
    ensures AsksFor(c, req, w, request)
  {
    if Before(c, req).pending != ConfirmTask {
      FreshIsAsked(c, req, w, request);
    } else if Declines(c, req, w) {
      DeclineOutcome(c, req, w);
    } else if Settles(c, req, w) {
      SettledIsAsked(c, req, w, request);
    } else {
      KeptWaiting(c, req, w);
    }
  }

  lemma ConfirmationIsTrimmed()
    ensures OrElse("intent-confirmation", "web-chat") == "intent-confirmation"
  {
    var source: Text := "intent-confirmation";
    assert source[0] == 'i' && source[|source| - 1] == 'n';
    TrimmedIsFixed(source);
  }

  /**
   What one message does. A request is handed to the orchestrator exactly when the message approves what is
   pending, and then it is for the first goal stored, or when one of the exceptions lets the message through by
   itself. The request asks for what the message asks for. A message that previews is itself the goal previewed.
   */
  lemma TurnOutcome(c: Chat, req: Request, w: Surroundings)
    ensures var (after, r) := Send(c, req, w);
            && (forall j :: j != IdOf(req.session) ==> SessionOf(after, j) == SessionOf(c, j))
            && (Handed(r).Some? <==> Approves(c, req, w) || Bypasses(c, req, w))
            && (Approves(c, req, w) ==> Handed(r).value.goal == Carried(Before(c, req), Trim(req.message)))
            && (Bypasses(c, req, w) ==> Handed(r).value.goal == Trim(req.message))
            && (Handed(r).Some? ==> AsksFor(c, req, w, Handed(r).value))
            && (IsPreview(r) ==> r.value.goal == Trim(req.message) && r.value.goal != [] && Trimmed(r.value.goal))
            && Ensues(c, req, w, SessionOf(after, IdOf(req.session)), r)
  {
    TurnEffect(c, req, w);
    if Handed(Send(c, req, w).1).Some? {
      HandedIsAsked(c, req, w, Handed(Send(c, req, w).1).value);
    }
  }

  lemma TurnEffect(c: Chat, req: Request, w: Surroundings)
    ensures var (after, r) := Send(c, req, w);
            && (forall j :: j != IdOf(req.session) ==> SessionOf(after, j) == SessionOf(c, j))
            && (Handed(r).Some? <==> Approves(c, req, w) || Bypasses(c, req, w))
            && (Approves(c, req, w) ==> Handed(r).value.goal == Carried(Before(c, req), Trim(req.message)))
            && (Bypasses(c, req, w) ==> Handed(r).value.goal == Trim(req.message))
            && (IsPreview(r) ==> r.value.goal == Trim(req.message) && r.value.goal != [] && Trimmed(r.value.goal))
            && Ensues(c, req, w, SessionOf(after, IdOf(req.session)), r)
  {
    TrimIsTrimmed(req.message);
    if Before(c, req).pending != ConfirmTask {
      FreshTurn(c, req, w);
    } else if Declines(c, req, w) {
      DeclineOutcome(c, req, w);
    } else if Settles(c, req, w) {
      SettledTurn(c, req, w);
    } else {
      KeptWaiting(c, req, w);
    }
  }

  lemma SettledTurn(c: Chat, req: Request, w: Surroundings)
    requires Settles(c, req, w) && !Declines(c, req, w)
    ensures var (after, r) := Send(c, req, w);
            && (forall j :: j != IdOf(req.session) ==> SessionOf(after, j) == SessionOf(c, j))
            && (Handed(r).Some? <==> Approves(c, req, w) || Bypasses(c, req, w))
            && (Approves(c, req, w) ==> Handed(r).value.goal == Carried(Before(c, req), Trim(req.message)))
            && (Bypasses(c, req, w) ==> Handed(r).value.goal == Trim(req.message))
            && (IsPreview(r) ==> r.value.goal == Trim(req.message))
            && Ensues(c, req, w, SessionOf(after, IdOf(req.session)), r)
  {
    ResumedIsFresh(c, req, w);
    var (c', req') := Resumed(c, req);
    if IsAffirmative(Trim(req.message)) {
      ApprovedIsExempt(c, req, RouteOf(c', req', w));
    }
    FreshTurn(c', req', w);
  }

  lemma DeclineOutcome(c: Chat, req: Request, w: Surroundings)
    requires Declines(c, req, w)
    ensures Send(c, req, w) == (Saved(c, IdOf(req.session), Cleared(Before(c, req))), Ok(Declined))
    ensures !Approves(c, req, w)
  {
    RepliesAreUnambiguous(Trim(req.message));
  }

  /** A blank message, or one that only continues with a finished task, leaves the confirmation pending. */
  lemma KeptWaiting(c: Chat, req: Request, w: Surroundings)
    requires Before(c, req).pending == ConfirmTask && !Settles(c, req, w)
    ensures var (after, r) := Send(c, req, w);
            && (forall j :: j != IdOf(req.session) ==> SessionOf(after, j) == SessionOf(c, j))
            && SessionOf(after, IdOf(req.session)).pending == ConfirmTask
            && SessionOf(after, IdOf(req.session)).refs == Before(c, req).refs
            && (r == Err(MessageRequired) || r == Ok(Continued))
  {
  }

  // ----- One goal at a time -----

  /** While a confirmation is pending the session holds exactly one goal, and otherwise none. */
  predicate Coherent(s: Session) {
    if s.pending == ConfirmTask then |Goals(s.refs)| == 1 && Goals(s.refs)[0] != [] && Trimmed(Goals(s.refs)[0])
    else Clean(s.refs)
  }

  lemma InheritsClean(refs: seq<Text>, from_: iset<Text>)
    requires Inherits(refs, from_) && forall q :: q in from_ ==> !GoalRef(Trim(q))
    ensures Clean(refs)
  {
    forall r | r in refs
      ensures !GoalRef(Trim(r))
    {
      if GoalRef(Trim(r)) {
        var q :| q in from_ && (r == q || r == Trim(q));
        TrimIsTrimmed(q);
        assert false;
      }
    }
  }

  lemma PreviewAwaitsItsGoal(base: seq<Text>, text: Text, route: Route, req: Request)
    requires Clean(base) && text != [] && Trimmed(text)
    ensures Goals(base + References(text, route, req)) == [text]
  {
    CleanHoldsNoGoal(base);
    PreviewHoldsOneGoal(text, route, req);
    GoalsConcat(base, References(text, route, req));
  }

  /**
   A turn keeps a session coherent. A goal awaits approval afterwards exactly when this message previewed it or an
   earlier one still stands.
   */
  lemma TurnKeepsCoherent(c: Chat, req: Request, w: Surroundings)
    requires Coherent(Before(c, req)) && CleanHits(w)
    ensures var (after, r) := Send(c, req, w);
            && Coherent(SessionOf(after, IdOf(req.session)))
            && Awaited(SessionOf(after, IdOf(req.session))) ==
               (if IsPreview(r) then Some(r.value.goal) else if Settles(c, req, w) then None
                 else Awaited(Before(c, req)))
  {
    TurnOutcome(c, req, w);
    var (after, r) := Send(c, req, w);
    var s, s' := Before(c, req), SessionOf(after, IdOf(req.session));
    if IsPreview(r) {
      var route, req' :| s'.refs == Base(c, req, w) + References(r.value.goal, route, req');
      PreviewIsFresh(c, req, w);
      PreviewAwaitsItsGoal(Base(c, req, w), r.value.goal, route, req');
    } else if Settles(c, req, w) || s.pending != ConfirmTask {
      InheritsClean(s'.refs, Sources(Base(c, req, w), w));
    }
  }

  /** A preview is shown only when nothing else is pending, or once that has been answered. */
  lemma PreviewIsFresh(c: Chat, req: Request, w: Surroundings)
    requires IsPreview(Send(c, req, w).1)
    ensures Before(c, req).pending == ConfirmTask ==> Settles(c, req, w)
  {
    if Before(c, req).pending == ConfirmTask && !Settles(c, req, w) {
      KeptWaiting(c, req, w);
    }
  }

  // ----- What a session says after a turn -----

  /** The six references of a preview. */
  predicate StoresPreview(refs: seq<Text>, goal: Text, route: Route, req: Request) {
    && |refs| == 6 && refs[0] == "confirm_goal:" + goal && refs[1] == "confirm_skill:" + route.skill
    && refs[2] == "confirm_scope:" + route.scope && refs[3] == "confirm_profile:" + OrElse(req.profile, "user")
    && refs[4] == "confirm_requested_by:" + OrElse(req.requestedBy, "web-chat")
    && refs[5] == "confirm_source:" + SourceOf(req)
  }

  lemma ReferencesStorePreview(goal: Text, route: Route, req: Request)
    ensures StoresPreview(References(goal, route, req), goal, route, req)
  {
    DefaultIsTaken(req.profile, "user");
    DefaultIsTaken(req.requestedBy, "web-chat");
    DefaultIsTaken(req.source, "web-chat");
  }

  /** The preview waits for its answer. */
  predicate Waits(s: Session, s': Session, goal: Text, question: Text, route: Route, req: Request) {
    && (s'.pending, s'.question, s'.userAct, s'.assistantAct) == (ConfirmTask, question, route.act, "clarify")
    && (s'.topic, s'.focus) == (s.topic, s.focus)
    && s.refs <= s'.refs && StoresPreview(s'.refs[|s.refs|..], goal, route, req)
  }

  /** Messages go to the same session exactly if they name it alike, where a blank name is the default one. */
  lemma SessionsAreNamed(a: Text, b: Text)
    ensures IdOf(a) == IdOf(b) <==> OrElse(a, "default") == OrElse(b, "default")
    ensures Trimmed(IdOf(a)) && IdOf(a) != []
  {
    TrimIsTrimmed(a);
  }

  /** The session is about the task; nothing is pending but, after a search or a look at the inbox, its summary. */
  predicate IsAbout(s': Session, task: R.Task, route: Route) {
    && s'.focus == Some(task.id) && (Trim(task.title) != [] ==> s'.topic == Trim(task.title)) && s'.userAct == route.act
    && (s'.pending == SummarizeFocus <==> s'.question != [] && task.skill in {"web-search", "email-inbox"})
    && (s'.pending == Nothing || s'.pending == SummarizeFocus)
  }

  /** The references are the sources, trimmed, without blanks. */
  ghost predicate HoldsEach(refs: seq<Text>, sources: seq<Text>) {
    forall v :: v in refs <==> v != [] && exists i :: 0 <= i < |sources| && Trim(sources[i]) == v
  }

  predicate SaysStage(state: R.TaskState, stage: Text) {
    match state
    case Done => stage == "done"
    case AwaitingApproval => stage == "awaiting_approval"
    case Blocked => stage == "blocked"
    case Failed => stage == "failed"
    case _ => stage == "responded"
  }

  /** What a turn with nothing pending leaves of the session, by the kind of its reply. */
  ghost predicate Leaves(s: Session, s': Session, reply: Reply, text: Text, route: Route, req: Request,
    w: Surroundings) {
    match reply
    case FollowUp =>
      s' == s.(userAct := route.act, assistantAct := "followup_reply", question := [], pending := Nothing)
    case Continued => s' == s.(userAct := route.act, assistantAct := "focused_task_followup")
    case Direct =>
      && (s'.userAct, s'.assistantAct, s'.topic, s'.refs) == (route.act, "direct_reply", s.topic, s.refs)
      && if w.asks(text, s) == [] then (s'.focus, s'.question, s'.pending) == (s.focus, s.question, s.pending)
         else (s'.focus, s'.question, s'.pending) == (None, w.asks(text, s), Nothing)
    case Preview(goal, question) =>
      && question == w.preview(goal, route, OrElse(req.profile, "user"))
      && Waits(s, s', goal, question, route, req)
    case NotCreated(_, _) => s' == s
    case Queued(_, task) =>
      && IsAbout(s', task, route)
      && var sources := if w.hits(text, s, route.skill).Some? then w.hits(text, s, route.skill).value else s.refs;
         if req.async then s'.question == [] && s'.assistantAct == "task_started" && s'.refs == sources
         else
           && s'.question == w.summary(task) && SaysStage(task.state, s'.assistantAct)
           && HoldsEach(s'.refs, sources)
    case Declined => false
  }

  lemma StartLeaves(c: Chat, id: Text, s: Session, text: Text, route: Route, req: Request, w: Surroundings)
    requires s == SessionOf(c, id)
    ensures var (after, reply) := Start(c, id, s, text, route, req, w);
            Leaves(s, SessionOf(after, id), reply, text, route, req, w)
  {
    var r := R.SubmitTask(c.tasks, TaskRequest(text, route, req, w), w.suggest, w.now, w.m).1;
    if r.Ok? {
      var started := Started(s, r.value, w.hits(text, s, route.skill), route.act);
      StartedIsAbout(s, r.value, w.hits(text, s, route.skill), route);
      var task := if Runs(r.value) then w.run(r.value) else r.value;
      FinalizedIsAbout(started, task, w.hits(text, s, route.skill), route, w.summary(task));
    }
  }

  lemma StartedIsAbout(s: Session, task: R.Task, hits: Option<seq<Text>>, route: Route)
    ensures var s' := Started(s, task, hits, route.act);
            && IsAbout(s', task, route) && s'.question == [] && s'.assistantAct == "task_started"
            && s'.refs == if hits.Some? then hits.value else s.refs
  {
  }

  lemma FinalizedIsAbout(s: Session, task: R.Task, hits: Option<seq<Text>>, route: Route, question: Text)
    requires s.userAct == route.act && (hits.Some? ==> s.refs == hits.value)
    ensures var s' := Finalized(s, task, hits, route.act, question);
            && IsAbout(s', task, route) && s'.question == question && SaysStage(task.state, s'.assistantAct)
            && HoldsEach(s'.refs, s.refs)
  {
    var right := if hits.Some? then hits.value else [];
    forall v
      ensures v in Dedupe(s.refs + Dedupe(right)) <==> v != [] && exists i :: 0 <= i < |s.refs| && Trim(s.refs[i]) == v
    {
      DedupeTwice(s.refs, right, v);
    }
  }

  lemma DedupeTwice(refs: seq<Text>, right: seq<Text>, v: Text)
    requires right == refs || right == []
    ensures v in Dedupe(refs + Dedupe(right)) <==> v != [] && exists i :: 0 <= i < |refs| && Trim(refs[i]) == v
  {
    var all := refs + Dedupe(right);
    DedupeElements(all, v);
    if i :| |refs| <= i < |all| && Trim(all[i]) == v {
      var u := all[i];
      DedupeElements(right, u);
      var j :| 0 <= j < |right| && Trim(right[j]) == u;
      TrimIsTrimmed(right[j]);
    }
    if i :| 0 <= i < |refs| && Trim(refs[i]) == v {
      assert all[i] == refs[i];
    }
  }

  lemma RespondLeaves(c: Chat, id: Text, s: Session, text: Text, route: Route, req: Request, w: Surroundings)
    requires s == SessionOf(c, id)
    ensures var (after, reply) := Respond(c, id, s, text, route, req, w);
            Leaves(s, SessionOf(after, id), reply, text, route, req, w)
  {
    if route.task && NeedsConfirmation(route, text, req.source, req.profile) {
      ReferencesStorePreview(text, route, req);
      DefaultIsTaken(req.profile, "user");
    } else if route.task {
      StartLeaves(c, id, s, text, route, req, w);
    }
  }

  lemma TurnLeaves(c: Chat, req: Request, w: Surroundings)
    requires Before(c, req).pending != ConfirmTask && Trim(req.message) != []
    ensures var (after, r) := Send(c, req, w);
            r.Ok? && Leaves(Before(c, req), SessionOf(after, IdOf(req.session)), r.value, Trim(req.message),
                            RouteOf(c, req, w), req, w)
  {
    if PassesFollowUps(c, req, w) {
      RespondLeaves(c, IdOf(req.session), Before(c, req), Trim(req.message), RouteOf(c, req, w), req, w);
    }
  }
}
