/** The chat service: the saved sessions, and the task runtime it submits to. */
module ChatService {
  import opened Prelude
  import opened Strings
  import opened ChatReplies
  import opened Chat
  import C = Chat
  import R = Runtime
  import Orchestrator

  class Service {
    const orchestrator: Orchestrator.TaskOrchestrator
    const runtime: Orchestrator.TaskStore
    var sessions: map<Text, Session>

    constructor (orchestrator: Orchestrator.TaskOrchestrator)
      ensures this.orchestrator == orchestrator && runtime == orchestrator.store && sessions == map[]
    {
      this.orchestrator, this.runtime, this.sessions := orchestrator, orchestrator.store, map[];
    }

    function State(): Chat
      reads this, runtime
    {
      Chat(sessions, runtime.Contents())
    }

    ghost predicate Valid()
      reads this, runtime
    {
      runtime == orchestrator.store && R.Tidy(runtime.Contents())
    }

    /** The surroundings are those of this service: its orchestrator, and a clock reading not used before. */
    ghost predicate Fits(w: Surroundings)
      reads this, runtime
    {
      w.suggest == orchestrator.suggest && runtime.clock <= w.now
    }

    method LoadSessionState(id: Text) returns (s: Session)
      ensures s == SessionOf(State(), id)
    {
      if id in sessions {
        return sessions[id];
      }
      return FRESH;
    }

    method SaveSessionState(id: Text, s: Session)
      modifies `sessions
      ensures State() == Saved(old(State()), id, s)
    {
      sessions := sessions[id := s];
    }

    method TryHandleSessionFollowup(route: Route, s: Session) returns (handled: bool)
      ensures handled == FollowsUp(runtime.files, s, route)
    {
      if !(route.act == Confirm || route.act == Answer || route.act == ContinueTask) {
        return false;
      }
      if s.focus.None? || s.pending == Nothing {
        return false;
      }
      var task := runtime.GetTask(s.focus.value);
      if task.Err? {
        return false;
      }
      return s.pending == SummarizeFocus;
    }

    method TryHandleFocusedTaskContinuation(route: Route, s: Session) returns (handled: bool)
      ensures handled == Continues(runtime.files, s, route)
    {
      if Trim(route.scope) != "focused_task" || s.focus.None? {
        return false;
      }
      if route.act != ContinueTask && route.act != Answer && route.act != Confirm {
        return false;
      }
      var task := runtime.GetTask(s.focus.value);
      if task.Err? || task.value.state != R.Done {
        return false;
      }
      return Reviewable(task.value.skill);
    }

    /** A follow-up changes the session alone. */
    method SaveFollowup(id: Text, s: Session, route: Route)
      modifies `sessions
      ensures State() == Saved(old(State()), id, s.(userAct := route.act, assistantAct := "followup_reply",
                                                    question := [], pending := Nothing))
    {
      var next := s.(userAct := route.act);
      next := next.(assistantAct := "followup_reply");
      next := next.(question := []);
      next := next.(pending := Nothing);
      SaveSessionState(id, next);
    }

    /** A session whose confirmation is pending when `Send` is entered recurs at most once. */
    method Send(req: Request, w: Surroundings) returns (r: Result<Reply, ChatError>)
      requires Valid() && Fits(w)
      modifies this, runtime
      ensures Valid()
      ensures (State(), r) == C.Send(old(State()), req, w)
      decreases if SessionOf(State(), IdOf(req.session)).pending == ConfirmTask then 1 else 0, 1
    {
      var text := Trim(req.message);
      if text == [] {
        return Err(MessageRequired);
      }
      var id := IdOf(req.session);
      var s := LoadSessionState(id);
      var route := w.route(text, s);
      var handled := TryHandleSessionFollowup(route, s);
      if handled {
        SaveFollowup(id, s, route);
        return Ok(FollowUp);
      }
      handled := TryHandleFocusedTaskContinuation(route, s);
      if handled {
        s := s.(userAct := route.act);
        s := s.(assistantAct := "focused_task_followup");
        SaveSessionState(id, s);
        return Ok(Continued);
      }
      r := ConfirmOrAnswer(id, text, req, s, route, w);
    }

    /** A message that neither follow-up handler takes. */
    method ConfirmOrAnswer(id: Text, text: Text, req: Request, s: Session, route: Route, w: Surroundings)
      returns (r: Result<Reply, ChatError>)
      requires Valid() && Fits(w)
      requires id == IdOf(req.session) && text == Trim(req.message) && text != []
      requires s == SessionOf(State(), id) && route == w.route(text, s)
      requires !FollowsUp(runtime.files, s, route) && !Continues(runtime.files, s, route)
      modifies this, runtime
      ensures Valid()
      ensures (State(), r) == C.Send(old(State()), req, w)
      decreases if s.pending == ConfirmTask then 1 else 0, 0, 1
    {
      if s.pending == ConfirmTask {
        r := HandleIntentConfirmation(id, text, req, s, w);
        return;
      }
      var reply := AnswerMessage(id, text, req, s, route, w);
      return Ok(reply);
    }

    /** The reply to a pending preview. The confirmation is taken off and saved before the turn goes on. */
    method HandleIntentConfirmation(id: Text, text: Text, req: Request, s: Session, w: Surroundings)
      returns (r: Result<Reply, ChatError>)
      requires Valid() && Fits(w)
      requires id == IdOf(req.session) && text == Trim(req.message) && text != []
      requires s == SessionOf(State(), id) && s.pending == ConfirmTask
      requires !Continues(runtime.files, s, w.route(text, s))
      modifies this, runtime
      ensures Valid()
      ensures (State(), r) == C.Send(old(State()), req, w)
      decreases 1, 0, 0
    {
      TrimIsTrimmed(req.message);
      if IsAffirmative(text) {
        var goal := ParseConfirmationFromState(s.refs, "confirm_goal");
        if Trim(goal) == [] {
          goal := text;
        }
        SaveSessionState(id, Cleared(s));
        r := Send(req.(message := goal, source := "intent-confirmation"), w);
      } else if IsNegative(text) {
        SaveSessionState(id, Cleared(s));
        return Ok(Declined);
      } else {
        SaveSessionState(id, Cleared(s).(assistantAct := []));
        r := Send(req.(message := text), w);
      }
    }

    method AnswerMessage(id: Text, text: Text, req: Request, s: Session, route: Route, w: Surroundings)
      returns (reply: Reply)
      requires Valid() && Fits(w)
      requires s == SessionOf(State(), id) && text != []
      modifies this, runtime
      ensures Valid()
      ensures (State(), reply) == Respond(old(State()), id, s, text, route, req, w)
    {
      if !route.task {
        var s1 := s.(userAct := route.act, assistantAct := "direct_reply");
        var question := w.asks(text, s);
        if question != [] {
          s1 := s1.(question := question, focus := None, pending := Nothing);
        }
        SaveSessionState(id, s1);
        return Direct;
      }
      if NeedsConfirmation(route, text, req.source, req.profile) {
        var question := w.preview(text, route, FirstNonEmpty(req.profile, "user"));
        var s1 := s.(question := question, pending := ConfirmTask);
        s1 := s1.(refs := s1.refs + References(text, route, req));
        s1 := s1.(userAct := route.act, assistantAct := "clarify");
        SaveSessionState(id, s1);
        return Preview(text, question);
      }
      reply := StartTask(id, text, req, s, route, w);
    }

    method StartTask(id: Text, text: Text, req: Request, s: Session, route: Route, w: Surroundings)
      returns (reply: Reply)
      requires Valid() && Fits(w)
      requires s == SessionOf(State(), id)
      modifies this, runtime
      ensures Valid()
      ensures (State(), reply) == Start(old(State()), id, s, text, route, req, w)
    {
      var request := TaskRequest(text, route, req, w);
      var hits := w.hits(text, s, route.skill);
      var submitted := orchestrator.SubmitTask(request, w.now, w.m);
      if submitted.Err? {
        return NotCreated(request, submitted.error);
      }
      var task := RecordTask(id, s, submitted.value, hits, route.act, req.async, w);
      return Queued(request, task);
    }

    /** Records that the task has started and, unless it is left to run in the background, that it has run. */
    method RecordTask(id: Text, s: Session, queued: R.Task, hits: Option<seq<Text>>, act: Act, async: bool,
      w: Surroundings)
      returns (task: R.Task)
      modifies `sessions
      ensures task == if !async && Runs(queued) then w.run(queued) else queued
      ensures var started := Started(s, queued, hits, act);
              State() == Saved(old(State()), id, if async then started
                else Finalized(started, task, hits, act, w.summary(task)))
    {
      task := queued;
      SaveSessionState(id, Started(s, task, hits, act));
      if async {
        return;
      }
      if task.state == R.Active || task.state == R.Planned {
        task := w.run(task);
      }
      assert SessionOf(State(), id) == Started(s, queued, hits, act);
      FinalizeSessionState(id, task, hits, act, w.summary(task));
    }

    /** Records that a task has ended; `question` is the one its summary ends in. */
    method FinalizeSessionState(id: Text, task: R.Task, hits: Option<seq<Text>>, act: Act, question: Text)
      modifies `sessions
      ensures State() == Saved(old(State()), id, Finalized(SessionOf(old(State()), id), task, hits, act, question))
    {
      var s := LoadSessionState(id);
      s := s.(topic := FirstNonEmpty(task.title, s.topic), focus := Some(task.id));
      s := s.(userAct := if act == NoAct then s.userAct else act, assistantAct := FinalStage(task));
      var right := DedupeStrings(if hits.Some? then hits.value else []);
      var refs := DedupeStrings(s.refs + right);
      s := s.(refs := refs, question := question);
      var asksForMore := question != [] && (task.skill == "web-search" || task.skill == "email-inbox");
      s := s.(pending := if asksForMore then SummarizeFocus else Nothing);
      SaveSessionState(id, s);
    }
  }

  method DedupeStrings(values: seq<Text>) returns (out: seq<Text>)
    ensures out == Dedupe(values)
  {
    var seen: set<Text> := {};
    out := [];
    for i := 0 to |values|
      invariant out == Dedupe(values[..i])
      invariant forall v :: v in seen <==> v in out
    {
      assert values[..i + 1][..i] == values[..i];
      var value := Trim(values[i]);
      if value == [] || value in seen {
        continue;
      }
      seen := seen + {value};
      out := out + [value];
    }
    assert values[..|values|] == values;
  }

  lemma {:induction false} ParseSkips(refs: seq<Text>, key: Text, i: nat)
    requires i <= |refs| && forall j :: 0 <= j < i ==> !(key + ":" <= refs[j])
    ensures Parse(refs, key) == Parse(refs[i..], key)
  {
    if i > 0 {
      ParseSkips(refs[1..], key, i - 1);
      assert refs[1..][i - 1..] == refs[i..];
    } else {
      assert refs[0..] == refs;
    }
  }

  method ParseConfirmationFromState(refs: seq<Text>, key: Text) returns (said: Text)
    ensures said == Parse(refs, key)
    ensures (exists i :: 0 <= i < |refs| && key + ":" <= refs[i]) ==> key + ":" + said in refs
  {
    var prefix := key + ":";
    for i := 0 to |refs|
      invariant forall j :: 0 <= j < i ==> !(prefix <= refs[j])
    {
      if prefix <= refs[i] {
        ParseSkips(refs, key, i);
        said := refs[i][|prefix|..];
        assert prefix + said == refs[i];
        return;
      }
    }
    ParseSkips(refs, key, |refs|);
    return [];
  }
}
