/** Whole chat histories: no goal runs unseen, and each preview buys at most one task. */
module ChatRuns {
  import opened Prelude
  import opened Strings
  import opened ChatReplies
  import opened Chat
  import opened ChatProtocol
  import opened RuntimeFields
  import R = Runtime

  // ----- Histories -----

  /** A message; a background task that ends; a session removed; the runtime moving on by itself. */
  datatype Event =
    | Turn(req: Request, w: Surroundings)
    | Completed(id: Text, task: R.Task, hits: Option<seq<Text>>, act: Act, question: Text)
    | Dropped(id: Text)
    | RuntimeMoved(tasks: R.System)

  ghost function After(c: Chat, e: Event): Chat {
    match e
    case Turn(req, w) => Send(c, req, w).0
    case Completed(id, task, hits, act, question) => Saved(c, id,
      Finalized(SessionOf(c, id), task, hits, act, question))
    case Dropped(id) => c.(sessions := c.sessions - {id})
    case RuntimeMoved(tasks) => c.(tasks := tasks)
  }

  /** No recalled source reads as a goal. */
  ghost predicate Plain(e: Event) {
    match e
    case Turn(_, w) => CleanHits(w)
    case Completed(_, _, hits, _, _) => hits.Some? ==> Clean(hits.value)
    case _ => true
  }

  /** A background task that ends does so in a session without a pending confirmation. */
  predicate Undisturbed(c: Chat, e: Event) {
    e.Completed? ==> SessionOf(c, e.id).pending != ConfirmTask
  }

  ghost predicate Leads(c: Chat, e: Event, after: Chat) {
    after == After(c, e)
  }

  ghost predicate History(chats: seq<Chat>, events: seq<Event>) {
    && |chats| == |events| + 1 && chats[0].sessions == map[]
    && forall k :: 0 <= k < |events| ==> Leads(chats[k], events[k], chats[k + 1])
  }

  lemma HistoryLeads(chats: seq<Chat>, events: seq<Event>, k: nat)
    requires History(chats, events) && k < |events|
    ensures chats[k + 1] == After(chats[k], events[k])
  {
    assert Leads(chats[k], events[k], chats[k + 1]);
  }

  predicate IsTurnIn(e: Event, id: Text) {
    e.Turn? && IdOf(e.req.session) == id
  }

  ghost predicate Previews(c: Chat, e: Event, id: Text) {
    IsTurnIn(e, id) && IsPreview(Send(c, e.req, e.w).1)
  }

  ghost function PreviewedGoal(c: Chat, e: Event, id: Text): Text
    requires Previews(c, e, id)
  {
    Send(c, e.req, e.w).1.value.goal
  }

  /** A pending confirmation of the session is answered, or taken off by a task that ends,
    or removed with the session. */
  predicate Closes(c: Chat, e: Event, id: Text) {
    || (IsTurnIn(e, id) && Settles(c, e.req, e.w))
    || (e.Completed? && e.id == id && SessionOf(c, id).pending == ConfirmTask)
    || (e == Dropped(id) && SessionOf(c, id).pending == ConfirmTask)
  }

  predicate ApprovesIn(c: Chat, e: Event, id: Text) {
    IsTurnIn(e, id) && Approves(c, e.req, e.w)
  }

  // ----- Every history: where a goal that runs comes from -----

  /** The goals the session was shown previews of, among the first `n` events. */
  ghost function ShownGoals(chats: seq<Chat>, events: seq<Event>, id: Text, n: nat): set<Text>
    requires History(chats, events) && n <= |events|
  {
    set k | 0 <= k < n && Previews(chats[k], events[k], id) :: PreviewedGoal(chats[k], events[k], id)
  }

  ghost function ShownBy(c: Chat, e: Event, id: Text): set<Text> {
    if Previews(c, e, id) then {PreviewedGoal(c, e, id)} else {}
  }

  /** The sources recall may have cited in the session, among the first `n` events. */
  ghost function CitedSources(events: seq<Event>, id: Text, n: nat): iset<Text>
    requires n <= |events|
  {
    iset k, r | 0 <= k < n && r in CitedBy(events[k], id) :: r
  }

  ghost function CitedBy(e: Event, id: Text): iset<Text> {
    if IsTurnIn(e, id) then Cited(e.w)
    else if e.Completed? && e.id == id && e.hits.Some? then All(e.hits.value)
    else iset{}
  }

  /** A cited source reads as this goal. */
  ghost predicate ReadsAs(cited: iset<Text>, goal: Text) {
    exists q :: q in cited && GoalRef(Trim(q)) && goal == Trim(Trim(q)[|GOAL|..])
  }

  /** The reference is the goal of one of the previews shown. */
  predicate FromPreview(r: Text, shown: set<Text>) {
    GoalRef(r) && r[|GOAL|..] in shown && r[|GOAL|..] != [] && Trimmed(r[|GOAL|..])
  }

  /** Every reference that reads as a goal was previewed or cited. */
  ghost predicate Accounted(refs: seq<Text>, shown: set<Text>, cited: iset<Text>) {
    forall r :: r in refs && GoalRef(Trim(r)) ==> FromPreview(r, shown) || Inherited(r, cited)
  }

  /** Every goal the session holds was shown to it or cited, and while a confirmation is pending it holds one. */
  ghost predicate Traceable(s: Session, shown: set<Text>, cited: iset<Text>) {
    Accounted(s.refs, shown, cited) && (s.pending == ConfirmTask ==> Goals(s.refs) != [])
  }

  lemma {:induction false} TrimRightOfTail(p: Text, t: Text)
    requires p != [] && !IsSpace(Last(p))
    ensures TrimRight(p + t) == p + TrimRight(t)
    decreases |t|
  {
    if t == [] {
      assert p + t == p;
    } else if IsSpace(Last(t)) {
      assert (p + t)[..|p + t| - 1] == p + t[..|t| - 1];
      TrimRightOfTail(p, t[..|t| - 1]);
    }
  }

  /** Trimming a reference and reading its goal is reading its goal and trimming that. */
  lemma TrimmedReference(r: Text)
    requires GoalRef(r)
    ensures GoalRef(Trim(r)) && Trim(Trim(r)[|GOAL|..]) == Trim(r[|GOAL|..])
  {
    var t := r[|GOAL|..];
    assert r == GOAL + t && r[0] == 'c' && Last(GOAL) == ':';
    TrimRightOfTail(GOAL, t);
    assert Trim(r) == GOAL + TrimRight(t);
    assert Trim(r)[|GOAL|..] == TrimRight(t);
    TrimOfTrimRight(t);
  }

  lemma {:induction false} TrimOfTrimRight(t: Text)
    ensures Trim(TrimRight(t)) == Trim(t)
    decreases |t|
  {
    if t != [] && IsSpace(Last(t)) {
      var init := t[..|t| - 1];
      TrimOfTrimRight(init);
      TrimOfInit(t);
    }
  }

  lemma {:induction false} TrimOfInit(t: Text)
    requires t != [] && IsSpace(Last(t))
    ensures Trim(t) == Trim(t[..|t| - 1])
  {
    if |t| == 1 {
      assert t[1..] == [] && t[..0] == [];
      assert TrimLeft(t) == TrimLeft([]);
    } else if IsSpace(t[0]) {
      TrimOfInit(t[1..]);
      assert t[1..][..|t| - 2] == t[..|t| - 1][1..];
    }
  }

  lemma {:induction false} GoalsAreOfReferences(refs: seq<Text>)
    ensures forall g :: g in Goals(refs) ==> exists r :: r in refs && GoalRef(r) && g == r[|GOAL|..]
  {
    if refs != [] {
      GoalsAreOfReferences(refs[1..]);
      forall g | g in Goals(refs)
        ensures exists r :: r in refs && GoalRef(r) && g == r[|GOAL|..]
      {
        if GoalRef(refs[0]) && g == refs[0][|GOAL|..] {
          assert refs[0] in refs;
        } else {
          assert g in Goals(refs[1..]);
          var r :| r in refs[1..] && GoalRef(r) && g == r[|GOAL|..];
          assert r in refs;
        }
      }
    }
  }

  /** What an approval carries out was shown, was cited, or is the reply, in place of a blank goal cited. */
  lemma CarriedIsAccounted(s: Session, reply: Text, shown: set<Text>, cited: iset<Text>)
    requires Traceable(s, shown, cited) && s.pending == ConfirmTask && reply != [] && Trimmed(reply)
    ensures var goal := Carried(s, reply);
            goal in shown || ReadsAs(cited, goal) || (goal == reply && ReadsAs(cited, []))
  {
    var g := Goals(s.refs)[0];
    CarriedIsFirstGoal(s, reply);
    GoalsAreOfReferences(s.refs);
    assert g in Goals(s.refs);
    var r :| r in s.refs && GoalRef(r) && g == r[|GOAL|..];
    TrimmedReference(r);
    if FromPreview(r, shown) {
      TrimmedIsFixed(g);
    } else {
      var q :| q in cited && (r == q || r == Trim(q));
      TrimIsTrimmed(q);
      assert Trim(q) == Trim(r);
      assert ReadsAs(cited, Trim(g));
    }
  }

  lemma FromPreviewIsTrimmed(r: Text, shown: set<Text>)
    requires FromPreview(r, shown)
    ensures Trim(r) == r
  {
    assert r[0] == GOAL[0] && Last(r) == Last(r[|GOAL|..]);
    TrimmedIsFixed(r);
  }

  lemma InheritsAccounted(refs: seq<Text>, old_: seq<Text>, more: iset<Text>, shown: set<Text>, cited: iset<Text>)
    requires Inherits(refs, All(old_) + more) && Accounted(old_, shown, cited)
    ensures Accounted(refs, shown, cited + more)
  {
    forall r | r in refs && GoalRef(Trim(r))
      ensures FromPreview(r, shown) || Inherited(r, cited + more)
    {
      assert Inherited(r, All(old_) + more);
      var q :| q in All(old_) + more && (r == q || r == Trim(q));
      TrimIsTrimmed(q);
      if q in old_ {
        if FromPreview(q, shown) {
          FromPreviewIsTrimmed(q, shown);
        } else {
          var q' :| q' in cited && (q == q' || q == Trim(q'));
          TrimIsTrimmed(q');
          assert q' in cited + more && (r == q' || r == Trim(q'));
        }
      } else {
        assert q in cited + more;
      }
    }
  }

  lemma AccountedGrows(refs: seq<Text>, shown: set<Text>, cited: iset<Text>, shown': set<Text>, cited': iset<Text>)
    requires Accounted(refs, shown, cited) && shown <= shown' && cited <= cited'
    ensures Accounted(refs, shown', cited')
  {
    forall r | r in refs && GoalRef(Trim(r))
      ensures FromPreview(r, shown') || Inherited(r, cited')
    {
      if !FromPreview(r, shown) {
        var q :| q in cited && (r == q || r == Trim(q));
        assert q in cited';
      }
    }
  }

  lemma {:induction false} TrimRightIsPrefix(s: Text)
    ensures TrimRight(s) <= s
    decreases |s|
  {
    if s != [] && IsSpace(s[|s| - 1]) {
      TrimRightIsPrefix(s[..|s| - 1]);
    }
  }

  lemma OtherTagIsNoGoal(r: Text)
    requires |r| > 8 && r[0] == 'c' && r[8] != 'g'
    ensures !GoalRef(Trim(r))
  {
    TrimRightIsPrefix(r);
    assert GOAL[8] == 'g';
  }

  lemma ReferencesAreAccounted(text: Text, route: Route, req: Request, shown: set<Text>, cited: iset<Text>)
    requires text in shown && text != [] && Trimmed(text)
    ensures Accounted(References(text, route, req), shown, cited)
  {
    var refs := References(text, route, req);
    assert refs[0] == GOAL + text && refs[0][|GOAL|..] == text && FromPreview(refs[0], shown);
    assert refs[1][8] == 's' && refs[2][8] == 's' && refs[3][8] == 'p' && refs[4][8] == 'r' && refs[5][8] == 's';
    forall r | r in refs[1..]
      ensures !GoalRef(Trim(r))
    {
      OtherTagIsNoGoal(r);
    }
  }

  lemma ConcatAccounted(a: seq<Text>, b: seq<Text>, shown: set<Text>, cited: iset<Text>)
    requires Accounted(a, shown, cited) && Accounted(b, shown, cited)
    ensures Accounted(a + b, shown, cited)
  {
  }

  lemma TurnKeepsTraceable(c: Chat, req: Request, w: Surroundings, shown: set<Text>, cited: iset<Text>)
    requires Traceable(Before(c, req), shown, cited)
    ensures var (after, r) := Send(c, req, w);
            Traceable(SessionOf(after, IdOf(req.session)),
                      shown + (if IsPreview(r) then {r.value.goal} else {}), cited + Cited(w))
  {
    TurnOutcome(c, req, w);
    var (after, r) := Send(c, req, w);
    var s', base := SessionOf(after, IdOf(req.session)), Base(c, req, w);
    if IsPreview(r) {
      var route, req' :| s'.refs == base + References(r.value.goal, route, req');
      PreviewIsTraceable(base, r.value.goal, route, req', shown, cited, Cited(w));
    } else if Settles(c, req, w) || Before(c, req).pending != ConfirmTask {
      InheritsAccounted(s'.refs, base, Cited(w), shown, cited);
    } else {
      AccountedGrows(s'.refs, shown, cited, shown, cited + Cited(w));
    }
  }

  lemma PreviewIsTraceable(base: seq<Text>, goal: Text, route: Route, req: Request, shown: set<Text>,
    cited: iset<Text>, more: iset<Text>)
    requires Accounted(base, shown, cited) && goal != [] && Trimmed(goal)
    ensures Accounted(base + References(goal, route, req), shown + {goal}, cited + more)
    ensures Goals(base + References(goal, route, req)) != []
  {
    ReferencesAreAccounted(goal, route, req, shown + {goal}, cited + more);
    AccountedGrows(base, shown, cited, shown + {goal}, cited + more);
    ConcatAccounted(base, References(goal, route, req), shown + {goal}, cited + more);
    PreviewHoldsOneGoal(goal, route, req);
    GoalsConcat(base, References(goal, route, req));
  }

  /** A message touches no session but its own. */
  lemma {:induction false} SendKeepsOthers(c: Chat, req: Request, w: Surroundings, id: Text)
    requires id != IdOf(req.session)
    ensures SessionOf(Send(c, req, w).0, id) == SessionOf(c, id)
    decreases if Before(c, req).pending == ConfirmTask then 1 else 0
  {
    if Before(c, req).pending != ConfirmTask {
      FreshTurn(c, req, w);
    } else if Settles(c, req, w) && (IsAffirmative(Trim(req.message)) || !IsNegative(Trim(req.message))) {
      var (c', req') := Resumed(c, req);
      SendKeepsOthers(c', req', w, id);
    }
  }

  lemma StepKeepsTraceable(c: Chat, e: Event, id: Text, shown: set<Text>, cited: iset<Text>)
    requires Traceable(SessionOf(c, id), shown, cited)
    ensures Traceable(SessionOf(After(c, e), id), shown + ShownBy(c, e, id), cited + CitedBy(e, id))
  {
    match e
    case Turn(req, w) =>
      if IdOf(req.session) == id {
        TurnKeepsTraceable(c, req, w, shown, cited);
      } else {
        SendKeepsOthers(c, req, w, id);
        AccountedGrows(SessionOf(c, id).refs, shown, cited, shown + ShownBy(c, e, id), cited + CitedBy(e, id));
      }
    case Completed(which, task, hits, act, question) =>
      var s := SessionOf(c, id);
      if which == id {
        CompletionInherits(s, task, hits, act, question);
        InheritsAccounted(SessionOf(After(c, e), id).refs, s.refs, CitedBy(e, id), shown, cited);
      }
    case Dropped(_) =>
    case RuntimeMoved(_) =>
  }

  lemma CompletionInherits(s: Session, task: R.Task, hits: Option<seq<Text>>, act: Act, question: Text)
    ensures var final := Finalized(s, task, hits, act, question);
            && final.pending != ConfirmTask
            && Inherits(final.refs, All(s.refs) + if hits.Some? then All(hits.value) else iset{})
  {
    var from_ := All(s.refs) + if hits.Some? then All(hits.value) else iset{};
    InheritsSources(s.refs, from_);
    TaskInherits(s, task, hits, act, question, from_);
  }

  lemma TraceableStep(chats: seq<Chat>, events: seq<Event>, id: Text, n: nat)
    requires History(chats, events) && 0 < n <= |events|
    requires Traceable(SessionOf(chats[n - 1], id), ShownGoals(chats, events, id, n - 1),
                       CitedSources(events, id, n - 1))
    ensures Traceable(SessionOf(chats[n], id), ShownGoals(chats, events, id, n), CitedSources(events, id, n))
  {
    HistoryLeads(chats, events, n - 1);
    OneMoreShown(chats, events, id, n);
    OneMoreCited(events, id, n);
    TraceableAfter(chats[n - 1], events[n - 1], id, ShownGoals(chats, events, id, n - 1),
                   CitedSources(events, id, n - 1), SessionOf(chats[n], id), ShownGoals(chats, events, id, n),
                   CitedSources(events, id, n));
  }

  lemma OneMoreShown(chats: seq<Chat>, events: seq<Event>, id: Text, n: nat)
    requires History(chats, events) && 0 < n <= |events|
    ensures ShownGoals(chats, events, id, n) ==
            ShownGoals(chats, events, id, n - 1) + ShownBy(chats[n - 1], events[n - 1], id)
  {
    var e, c := events[n - 1], chats[n - 1];
    if Previews(c, e, id) {
      assert PreviewedGoal(c, e, id) in ShownGoals(chats, events, id, n);
    }
  }

  lemma OneMoreCited(events: seq<Event>, id: Text, n: nat)
    requires 0 < n <= |events|
    ensures CitedSources(events, id, n) == CitedSources(events, id, n - 1) + CitedBy(events[n - 1], id)
  {
  }

  lemma FreshIsTraceable(c: Chat, id: Text, shown: set<Text>, cited: iset<Text>)
    requires c.sessions == map[]
    ensures Traceable(SessionOf(c, id), shown, cited)
  {
  }

  lemma TraceableAfter(c: Chat, e: Event, id: Text, shown: set<Text>, cited: iset<Text>, after: Session,
    shown': set<Text>, cited': iset<Text>)
    requires Traceable(SessionOf(c, id), shown, cited) && after == SessionOf(After(c, e), id)
    requires shown' == shown + ShownBy(c, e, id) && cited' == cited + CitedBy(e, id)
    ensures Traceable(after, shown', cited')
  {
    StepKeepsTraceable(c, e, id, shown, cited);
  }

  lemma {:induction false} HistoryIsTraceable(chats: seq<Chat>, events: seq<Event>, id: Text, n: nat)
    requires History(chats, events) && n <= |events|
    ensures Traceable(SessionOf(chats[n], id), ShownGoals(chats, events, id, n), CitedSources(events, id, n))
  {
    if n == 0 {
      FreshIsTraceable(chats[0], id, ShownGoals(chats, events, id, 0), CitedSources(events, id, 0));
    } else {
      HistoryIsTraceable(chats, events, id, n - 1);
      TraceableStep(chats, events, id, n);
    }
  }

  /**
   Over any history, with background tasks ending at any time and recall citing anything, a request reaches the
   orchestrator only as the user approves, or for the message itself under one of the exceptions. What is approved
   is a goal the user was shown in that session, or one that a cited source reads as; or the reply itself, if a
   cited source reads as a blank goal.
   */
  lemma NothingRunsUnseen(chats: seq<Chat>, events: seq<Event>, n: nat)
    requires History(chats, events) && n < |events| && events[n].Turn?
    ensures var req, w := events[n].req, events[n].w;
            var handed := Handed(Send(chats[n], req, w).1);
            var cited := CitedSources(events, IdOf(req.session), n);
            && (handed.Some? <==> Approves(chats[n], req, w) || Bypasses(chats[n], req, w))
            && (Approves(chats[n], req, w) ==>
                  || handed.value.goal in ShownGoals(chats, events, IdOf(req.session), n)
                  || ReadsAs(cited, handed.value.goal)
                  || (handed.value.goal == Trim(req.message) && ReadsAs(cited, [])))
            && (Bypasses(chats[n], req, w) ==> handed.value.goal == Trim(req.message))
  {
    var req, w := events[n].req, events[n].w;
    var id := IdOf(req.session);
    HistoryIsTraceable(chats, events, id, n);
    TurnOutcome(chats[n], req, w);
    TrimIsTrimmed(req.message);
    if Approves(chats[n], req, w) {
      CarriedIsAccounted(Before(chats[n], req), Trim(req.message), ShownGoals(chats, events, id, n),
                         CitedSources(events, id, n));
    }
  }

  lemma PlainCitesNoGoal(events: seq<Event>, id: Text, n: nat)
    requires n <= |events| && forall k :: 0 <= k < n ==> Plain(events[k])
    ensures forall q :: q in CitedSources(events, id, n) ==> !GoalRef(Trim(q))
  {
    forall k, q | 0 <= k < n && q in CitedBy(events[k], id)
      ensures !GoalRef(Trim(q))
    {
      assert Plain(events[k]);
    }
  }

  /** As long as recall cites nothing that reads as a goal, only goals that were shown are carried out. */
  lemma OnlyShownGoalsRun(chats: seq<Chat>, events: seq<Event>, n: nat)
    requires History(chats, events) && n < |events| && events[n].Turn? && Approves(chats[n], events[n].req, events[n].w)
    requires forall k :: 0 <= k < n ==> Plain(events[k])
    ensures var handed := Handed(Send(chats[n], events[n].req, events[n].w).1);
            handed.Some? && handed.value.goal in ShownGoals(chats, events, IdOf(events[n].req.session), n)
  {
    NothingRunsUnseen(chats, events, n);
    PlainCitesNoGoal(events, IdOf(events[n].req.session), n);
  }

  // ----- Every history: previews are conserved -----

  datatype Kind = Shown | Closed | Approved

  ghost predicate Counts(kind: Kind, c: Chat, e: Event, id: Text) {
    match kind
    case Shown => Previews(c, e, id)
    case Closed => Closes(c, e, id)
    case Approved => ApprovesIn(c, e, id)
  }

  /** How many of the first `n` events are of the kind. */
  ghost function Count(chats: seq<Chat>, events: seq<Event>, kind: Kind, id: Text, n: nat): nat
    requires History(chats, events) && n <= |events|
  {
    |Occurrences(chats, events, kind, id, n)|
  }

  ghost function Occurrences(chats: seq<Chat>, events: seq<Event>, kind: Kind, id: Text, n: nat): set<int>
    requires History(chats, events) && n <= |events|
  {
    set k | 0 <= k < n && Counts(kind, chats[k], events[k], id)
  }

  lemma CountsOneMore(chats: seq<Chat>, events: seq<Event>, kind: Kind, id: Text, n: nat, occurs: bool)
    requires History(chats, events) && 0 < n <= |events|
    requires occurs == Counts(kind, chats[n - 1], events[n - 1], id)
    ensures Count(chats, events, kind, id, n) == Count(chats, events, kind, id, n - 1) + if occurs then 1 else 0
  {
    OneMoreAmong(Occurrences(chats, events, kind, id, n - 1), Occurrences(chats, events, kind, id, n), n - 1, occurs);
  }

  predicate IsPending(c: Chat, id: Text) {
    SessionOf(c, id).pending == ConfirmTask
  }

  /** What is closed was pending, and only a preview makes something pending, once nothing else is. */
  lemma PendingChanges(c: Chat, e: Event, id: Text)
    ensures Closes(c, e, id) ==> IsPending(c, id)
    ensures Previews(c, e, id) && IsPending(c, id) ==> Closes(c, e, id)
    ensures ApprovesIn(c, e, id) ==> Closes(c, e, id)
    ensures IsPending(After(c, e), id) <==> Previews(c, e, id) || (IsPending(c, id) && !Closes(c, e, id))
    ensures IsPending(c, id) && !Closes(c, e, id) ==> SessionOf(After(c, e), id).refs == SessionOf(c, id).refs
  {
    match e
    case Turn(req, w) =>
      if IdOf(req.session) == id {
        TurnOutcome(c, req, w);
        if Previews(c, e, id) {
          PreviewIsFresh(c, req, w);
        }
      } else {
        SendKeepsOthers(c, req, w, id);
      }
    case Completed(_, _, _, _, _) =>
    case Dropped(_) =>
    case RuntimeMoved(_) =>
  }

  lemma PendingStep(chats: seq<Chat>, events: seq<Event>, id: Text, k: nat)
    requires History(chats, events) && k < |events|
    ensures Closes(chats[k], events[k], id) ==> IsPending(chats[k], id)
    ensures Previews(chats[k], events[k], id) && IsPending(chats[k], id) ==> Closes(chats[k], events[k], id)
    ensures ApprovesIn(chats[k], events[k], id) ==> Closes(chats[k], events[k], id)
    ensures IsPending(chats[k + 1], id) <==>
            Previews(chats[k], events[k], id) || (IsPending(chats[k], id) && !Closes(chats[k], events[k], id))
    ensures IsPending(chats[k], id) && !Closes(chats[k], events[k], id) ==>
              SessionOf(chats[k + 1], id).refs == SessionOf(chats[k], id).refs
  {
    HistoryLeads(chats, events, k);
    PendingChanges(chats[k], events[k], id);
  }

  /**
   Every preview is answered, taken off or removed once, but for the one that may still be pending; so a session
   never approves more tasks than it was shown.
   */
  lemma {:induction false} PreviewsAreConserved(chats: seq<Chat>, events: seq<Event>, id: Text, n: nat)
    requires History(chats, events) && n <= |events|
    ensures Count(chats, events, Shown, id, n) ==
            Count(chats, events, Closed, id, n) + if IsPending(chats[n], id) then 1 else 0
    ensures Count(chats, events, Approved, id, n) <= Count(chats, events, Closed, id, n)
  {
    if n == 0 {
      NothingCounted(chats, events, id);
    } else {
      PreviewsAreConserved(chats, events, id, n - 1);
      ConservedStep(chats, events, id, n);
    }
  }

  lemma NothingCounted(chats: seq<Chat>, events: seq<Event>, id: Text)
    requires History(chats, events)
    ensures forall kind :: Count(chats, events, kind, id, 0) == 0
    ensures !IsPending(chats[0], id)
  {
    forall kind
      ensures Count(chats, events, kind, id, 0) == 0
    {
      assert Occurrences(chats, events, kind, id, 0) == {};
    }
  }

  /** How much of each kind one event adds. */
  lemma ConservedStep(chats: seq<Chat>, events: seq<Event>, id: Text, n: nat)
    requires History(chats, events) && 0 < n <= |events|
    ensures Count(chats, events, Shown, id, n) - Count(chats, events, Shown, id, n - 1) ==
            Count(chats, events, Closed, id, n) - Count(chats, events, Closed, id, n - 1)
            + (if IsPending(chats[n], id) then 1 else 0) - (if IsPending(chats[n - 1], id) then 1 else 0)
    ensures Count(chats, events, Approved, id, n) - Count(chats, events, Approved, id, n - 1) <=
            Count(chats, events, Closed, id, n) - Count(chats, events, Closed, id, n - 1)
  {
    var c, e := chats[n - 1], events[n - 1];
    PendingStep(chats, events, id, n - 1);
    CountsOneMore(chats, events, Shown, id, n, Previews(c, e, id));
    CountsOneMore(chats, events, Closed, id, n, Closes(c, e, id));
    CountsOneMore(chats, events, Approved, id, n, ApprovesIn(c, e, id));
  }

  // ----- Every history: which preview an approval carries out -----

  /** From a preview until something closes it, the session stays as the preview left it. */
  lemma PreviewStands(chats: seq<Chat>, events: seq<Event>, id: Text, m: nat, n: nat)
    requires History(chats, events) && m < n <= |events| && Previews(chats[m], events[m], id)
    requires forall k :: m < k < n ==> !Closes(chats[k], events[k], id)
    ensures IsPending(chats[n], id) && SessionOf(chats[n], id).refs == SessionOf(chats[m + 1], id).refs
  {
    PreviewPends(chats, events, id, m);
    forall k | m < k < n
      ensures Stands(chats, id, k)
    {
      StandsStep(chats, events, id, k);
    }
    RefsStand(chats, id, m + 1, n);
  }

  /** What is pending is still pending after the step, with the same references. */
  predicate Stands(chats: seq<Chat>, id: Text, k: nat)
    requires k + 1 < |chats|
  {
    IsPending(chats[k], id) ==>
      IsPending(chats[k + 1], id) && SessionOf(chats[k + 1], id).refs == SessionOf(chats[k], id).refs
  }

  lemma {:induction false} RefsStand(chats: seq<Chat>, id: Text, m: nat, n: nat)
    requires m <= n < |chats| && IsPending(chats[m], id) && forall k :: m <= k < n ==> Stands(chats, id, k)
    ensures IsPending(chats[n], id) && SessionOf(chats[n], id).refs == SessionOf(chats[m], id).refs
  {
    if m < n {
      RefsStand(chats, id, m, n - 1);
      assert Stands(chats, id, n - 1);
    }
  }

  lemma StandsStep(chats: seq<Chat>, events: seq<Event>, id: Text, k: nat)
    requires History(chats, events) && k < |events| && !Closes(chats[k], events[k], id)
    ensures Stands(chats, id, k)
  {
    HistoryLeads(chats, events, k);
    if IsPending(chats[k], id) {
      PendingChanges(chats[k], events[k], id);
    }
  }

  lemma PreviewPends(chats: seq<Chat>, events: seq<Event>, id: Text, k: nat)
    requires History(chats, events) && k < |events| && Previews(chats[k], events[k], id)
    ensures IsPending(chats[k + 1], id)
  {
    HistoryLeads(chats, events, k);
    PendingChanges(chats[k], events[k], id);
  }

  /**
   Over any history, an approval of a preview that still stands carries out the goal that was previewed if and only
   if no other goal was in the session before it; a blank goal before it counts as the reply.
   */
  lemma ApprovalCarriesPreviewIff(chats: seq<Chat>, events: seq<Event>, id: Text, m: nat, n: nat)
    requires History(chats, events) && m < n < |events|
    requires Previews(chats[m], events[m], id) && ApprovesIn(chats[n], events[n], id)
    requires forall k :: m < k < n ==> !Closes(chats[k], events[k], id)
    ensures var handed := Handed(Send(chats[n], events[n].req, events[n].w).1);
            var goal := PreviewedGoal(chats[m], events[m], id);
            var before := Goals(Base(chats[m], events[m].req, events[m].w));
            && handed.Some?
            && (handed.value.goal == goal <==>
                 || before == []
                 || Trim(before[0]) == goal
                 || (Trim(before[0]) == [] && Trim(events[n].req.message) == goal))
  {
    var req, w, goal := events[m].req, events[m].w, PreviewedGoal(chats[m], events[m], id);
    HistoryLeads(chats, events, m);
    PreviewStands(chats, events, id, m, n);
    TurnOutcome(chats[m], req, w);
    TurnOutcome(chats[n], events[n].req, events[n].w);
    var route, req' :| SessionOf(chats[m + 1], id).refs == Base(chats[m], req, w) + References(goal, route, req');
    TrimIsTrimmed(events[n].req.message);
    StoredGoalIsPreviewedOne(SessionOf(chats[n], id), Base(chats[m], req, w), goal, route, req',
                             Trim(events[n].req.message));
  }

  /** And under the profile that was shown with it exactly if the two messages ask for the same one. */
  lemma ApprovalCarriesProfileIff(chats: seq<Chat>, events: seq<Event>, id: Text, m: nat, n: nat)
    requires History(chats, events) && m < n < |events|
    requires Previews(chats[m], events[m], id) && ApprovesIn(chats[n], events[n], id)
    ensures var handed := Handed(Send(chats[n], events[n].req, events[n].w).1);
            var shown, asked := OrElse(events[m].req.profile, "user"), OrElse(events[n].req.profile, "user");
            handed.Some? && (handed.value.profile == shown <==> asked == shown)
  {
    TurnOutcome(chats[n], events[n].req, events[n].w);
  }

  /** A session that holds a preview carries out its goal exactly when no other goal precedes it. */
  lemma StoredGoalIsPreviewedOne(s: Session, base: seq<Text>, goal: Text, route: Route, req: Request, reply: Text)
    requires s.refs == base + References(goal, route, req) && goal != [] && Trimmed(goal)
    requires reply != [] && Trimmed(reply)
    ensures Carried(s, reply) == goal <==>
            || Goals(base) == []
            || Trim(Goals(base)[0]) == goal
            || (Trim(Goals(base)[0]) == [] && reply == goal)
  {
    GoalsConcat(base, References(goal, route, req));
    PreviewHoldsOneGoal(goal, route, req);
    CarriedIsFirstGoal(s, reply);
    TrimmedIsFixed(goal);
  }

  // ----- Undisturbed runs: what runs was shown last -----

  /** A history in which no background task ends in a session while a confirmation is pending there, and recall
      cites nothing that reads as a goal. */
  ghost predicate Run(chats: seq<Chat>, events: seq<Event>) {
    History(chats, events) && forall k :: 0 <= k < |events| ==> Plain(events[k]) && Undisturbed(chats[k], events[k])
  }

  lemma StepKeepsCoherent(c: Chat, e: Event, id: Text)
    requires Coherent(SessionOf(c, id)) && Plain(e) && Undisturbed(c, e)
    ensures Coherent(SessionOf(After(c, e), id))
    ensures Awaited(SessionOf(After(c, e), id)) ==
            if Previews(c, e, id) then Some(PreviewedGoal(c, e, id))
            else if Closes(c, e, id) then None
            else Awaited(SessionOf(c, id))
  {
    match e
    case Turn(req, w) =>
      if IdOf(req.session) == id {
        TurnKeepsCoherent(c, req, w);
      } else {
        SendKeepsOthers(c, req, w, id);
      }
    case Completed(which, task, hits, act, question) =>
      if which == id {
        var s := SessionOf(c, id);
        CompletionInherits(s, task, hits, act, question);
        InheritsClean(SessionOf(After(c, e), id).refs, All(s.refs) + if hits.Some? then All(hits.value) else iset{});
      }
    case Dropped(_) =>
    case RuntimeMoved(_) =>
  }

  /** The goal the session was last shown a preview of, among the first `n` events. */
  ghost function LastPreview(chats: seq<Chat>, events: seq<Event>, id: Text, n: nat): Option<Text>
    requires History(chats, events) && n <= |events|
  {
    if n == 0 then None
    else if Previews(chats[n - 1], events[n - 1], id) then Some(PreviewedGoal(chats[n - 1], events[n - 1], id))
    else LastPreview(chats, events, id, n - 1)
  }

  lemma {:induction false} AwaitedWasPreviewed(chats: seq<Chat>, events: seq<Event>, id: Text, n: nat)
    requires Run(chats, events) && n <= |events|
    ensures Coherent(SessionOf(chats[n], id))
    ensures Awaited(SessionOf(chats[n], id)).Some? ==>
      LastPreview(chats, events, id, n) == Awaited(SessionOf(chats[n], id))
  {
    if n > 0 {
      AwaitedWasPreviewed(chats, events, id, n - 1);
      HistoryLeads(chats, events, n - 1);
      StepKeepsCoherent(chats[n - 1], events[n - 1], id);
    }
  }

  /** Over an undisturbed run, an approval carries out the goal that was shown last. */
  lemma ApprovalIsOfLastPreview(chats: seq<Chat>, events: seq<Event>, n: nat)
    requires Run(chats, events) && n < |events| && events[n].Turn? && Approves(chats[n], events[n].req, events[n].w)
    ensures var handed := Handed(Send(chats[n], events[n].req, events[n].w).1);
            handed.Some? && LastPreview(chats, events, IdOf(events[n].req.session), n) == Some(handed.value.goal)
  {
    var req := events[n].req;
    AwaitedWasPreviewed(chats, events, IdOf(req.session), n);
    TurnOutcome(chats[n], req, events[n].w);
    AwaitedIsCarried(Before(chats[n], req), Trim(req.message));
  }

  // ----- The approved goal in the runtime -----

  lemma TitleIsNotBlank(text: Text)
    requires text != [] && Trimmed(text)
    ensures Trim(Title(text)) != []
  {
    var message := seq(|text|, i requires 0 <= i < |text| => if text[i] == '\n' then ' ' else text[i]);
    assert message[0] == text[0];
    if |message| > 72 {
      TrimRightKeepsFirst(message[..72]);
      assert Title(text)[0] == text[0];
    }
    TrimRightKeepsFirst(Title(text));
  }

  /** A submitted request becomes a new task with its goal; it starts at once exactly when nothing else is active. */
  lemma SubmittedGoal(s: R.System, request: R.CreateTaskRequest, suggest: R.Task -> Text, now: R.Time, m: R.Moment)
    requires R.Tidy(s) && s.clock <= now && R.Creatable(request) && s.state.Some?
    ensures var (after, r) := R.SubmitTask(s, request, suggest, now, m);
            var k := (if R.PointsAtActive(s) then R.Inbox else R.Active, now);
            && now !in R.Ids(s) && R.Tidy(after) && r.Ok? && (r.value.id == now <==> !R.PointsAtActive(s))
            && k in after.files && after.files[k].goal == Trim(request.goal)
            && after.files[k].requiresApproval == request.requiresApproval
  {
    R.SubmitKeepsTasks(s, request, suggest, now, m);
    R.CreateKeepsTasks(s, request, now);
    R.PointerSurvivesCreation(s, request, now);
    forall k | k in s.files
      ensures k.1 != now
    {
      assert R.FiledAt(s, k);
    }
    var created := R.CreateTask(s, request, now);
    if !R.PointsAtActive(s) {
      R.NewTaskIsNewest(s, request, now);
      var s1 := if created.state.value.active.Some? then created.(state := Some(R.IDLE)) else created;
      R.StateChangeKeepsFiled(created, s1.state);
      R.FindsTheOnly(s1, (R.Inbox, now));
      R.MoveKeepsFiled(s1, now, R.Planned, R.Planned_(suggest), m.now);
      var planned := R.MoveTask(s1, now, R.Planned, R.Planned_(suggest), m.now).0;
      R.FindsTheOnly(planned, (R.Planned, now));
      R.MoveKeepsFiled(planned, now, R.Active, R.Activated(), m.now);
    }
  }

  /** The task filed is as the request asks: in the inbox, or taken up from there. */
  ghost predicate FiledFor(task: R.Task, request: R.CreateTaskRequest, w: Surroundings) {
    || IsNew(task, request, w.now)
    || exists t :: IsNew(t, request, w.now) && TakenUp(t, task, w.suggest, w.m)
  }

  lemma SubmittedIsFiled(s: R.System, request: R.CreateTaskRequest, w: Surroundings)
    requires R.Tidy(s) && s.clock <= w.now && R.Creatable(request) && s.state.Some?
    ensures var after := R.SubmitTask(s, request, w.suggest, w.now, w.m).0;
            var k := (if R.PointsAtActive(s) then R.Inbox else R.Active, w.now);
            k in after.files && FiledFor(after.files[k], request, w)
  {
    SubmittedIsAsAsked(s, request, w.suggest, w.now, w.m);
    SubmittedGoal(s, request, w.suggest, w.now, w.m);
  }

  /** What the message asks for is what the task says. */
  predicate RunsAs(task: R.Task, req: Request, source: Text) {
    && task.profile == OrElse(req.profile, "user") && (task.requiresApproval <==> task.profile == "root")
    && task.requestedBy == OrElse(req.requestedBy, "web-chat") && task.source == source
  }

  lemma TrimmedOnce(text: Text, default_: Text)
    requires Trimmed(default_) && default_ != []
    ensures OrElse(text, default_) != [] && Trim(OrElse(text, default_)) == OrElse(text, default_)
  {
    TrimIsTrimmed(text);
    TrimmedIsFixed(default_);
  }

  lemma FiledRunsAs(task: R.Task, request: R.CreateTaskRequest, goal: Text, skill: Text, req: Request, source: Text,
    w: Surroundings)
    requires FiledFor(task, request, w) && IsAsked(request, goal, skill, req, source, w)
    ensures RunsAs(task, req, Trim(source))
  {
    TrimmedOnce(req.profile, "user");
    TrimmedOnce(req.requestedBy, "web-chat");
  }

  /** An approved turn submits its request, whatever the session was. */
  lemma ApprovedTurn(c: Chat, req: Request, w: Surroundings) returns (request: R.CreateTaskRequest)
    requires Approves(c, req, w)
    requires R.Tidy(c.tasks) && c.tasks.clock <= w.now && c.tasks.state.Some?
    ensures R.Creatable(request) && Trim(request.goal) == Carried(Before(c, req), Trim(req.message))
    ensures var (after, r) := Send(c, req, w);
            var (tasks, queued) := R.SubmitTask(c.tasks, request, w.suggest, w.now, w.m);
            && after.tasks == tasks && queued.Ok?
            && r == Ok(Queued(request, if !req.async && Runs(queued.value) then w.run(queued.value) else queued.value))
  {
    RepliesAreUnambiguous(Trim(req.message));
    ResumedIsFresh(c, req, w);
    var (c', req') := Resumed(c, req);
    var text, route := Trim(req'.message), RouteOf(c', req', w);
    ApprovedIsExempt(c, req, route);
    TrimIsTrimmed(req'.message);
    request := TaskRequest(text, route, req', w);
    TrimmedIsFixed(text);
    TitleIsNotBlank(text);
    assert c'.tasks == c.tasks;
    SubmittedGoal(c.tasks, request, w.suggest, w.now, w.m);
    assert Send(c', req', w).0 == Respond(c', IdOf(req'.session), Before(c', req'), text, route, req', w).0;
  }

  /**
   An approved turn files a new task with exactly the goal that awaited approval, for the profile that the message asks
   for. That task is the one the turn goes on to run only if no other task was active; otherwise the active one is run
   in its place.
   */
  lemma ApprovedGoalIsFiled(c: Chat, req: Request, w: Surroundings)
    requires Approves(c, req, w)
    requires R.Tidy(c.tasks) && c.tasks.clock <= w.now && c.tasks.state.Some?
    ensures var (after, r) := Send(c, req, w);
            var k := (if R.PointsAtActive(c.tasks) then R.Inbox else R.Active, w.now);
            && w.now !in R.Ids(c.tasks) && R.Tidy(after.tasks) && r.Ok? && r.value.Queued?
            && k in after.tasks.files && after.tasks.files[k].goal == Carried(Before(c, req), Trim(req.message))
            && AsksFor(c, req, w, r.value.request) && FiledFor(after.tasks.files[k], r.value.request, w)
            && RunsAs(after.tasks.files[k], req, "intent-confirmation")
            && var queued := R.SubmitTask(c.tasks, r.value.request, w.suggest, w.now, w.m).1;
            && queued.Ok? && (queued.value.id == w.now <==> !R.PointsAtActive(c.tasks))
            && r.value.task == if !req.async && Runs(queued.value) then w.run(queued.value) else queued.value
  {
    var request := ApprovedTurn(c, req, w);
    SubmittedGoal(c.tasks, request, w.suggest, w.now, w.m);
    SubmittedIsFiled(c.tasks, request, w);
    HandedIsAsked(c, req, w, request);
    var k := (if R.PointsAtActive(c.tasks) then R.Inbox else R.Active, w.now);
    ApprovedRunsAs(c, req, w, request, R.SubmitTask(c.tasks, request, w.suggest, w.now, w.m).0.files[k]);
  }

  lemma ApprovedRunsAs(c: Chat, req: Request, w: Surroundings, request: R.CreateTaskRequest, task: R.Task)
    requires Approves(c, req, w) && AsksFor(c, req, w, request) && FiledFor(task, request, w)
    ensures RunsAs(task, req, "intent-confirmation")
  {
    ConfirmationIsTrimmed();
    FiledRunsAs(task, request, request.goal, request.skill, req, request.source, w);
  }

  // ----- A background task that ends while a confirmation is pending -----

  lemma {:induction false} DedupeKeepsFirst(values: seq<Text>)
    requires values != [] && values[0] != [] && Trimmed(values[0])
    ensures Dedupe(values) != [] && Dedupe(values)[0] == values[0]
    decreases |values|
  {
    TrimmedIsFixed(values[0]);
    if |values| > 1 {
      DedupeKeepsFirst(values[..|values| - 1]);
    } else {
      assert Dedupe(values[..0]) == [];
    }
  }

  /** A task that ends while only a preview is stored takes the confirmation off but leaves its goal, first of all. */
  lemma CompletionLeavesGoal(s: Session, goal: Text, route: Route, req: Request, task: R.Task, hits: Option<seq<Text>>,
    act: Act, question: Text)
    requires s.refs == References(goal, route, req) && goal != [] && Trimmed(goal)
    ensures var ended := Finalized(s, task, hits, act, question);
            ended.pending != ConfirmTask && Goals(ended.refs) != [] && Goals(ended.refs)[0] == goal
  {
    var values := s.refs + Dedupe(if hits.Some? then hits.value else []);
    assert values[0] == GOAL + goal && GOAL[0] == 'c' && Last(values[0]) == Last(goal);
    DedupeKeepsFirst(values);
  }
}
