/** The scheduler as it runs over a memory store and the task runtime. */
module SchedulerService {
  import opened Prelude
  import opened Strings
  import opened Scheduler
  import Runtime
  import Orchestrator
  import MM = MemoryModel
  import MI = MemoryInvariant
  import MD = MemoryDecay
  import MQ = MemoryQuery
  import MS = MemoryStore

  function CandidatesIn(scope: Text): MQ.QueryRequest {
    MQ.QueryRequest([], [], Trim(scope), MM.Known(MM.Candidate), None)
  }

  predicate TypeAllowed(allowed: seq<Text>, cardType: Text) {
    allowed == [] || exists i :: 0 <= i < |allowed| && Trim(allowed[i]) != [] && Trim(allowed[i]) == Trim(cardType)
  }

  /** The candidates of the scope whose type the scheduler may consolidate. */
  function Eligible(mem: MM.Mem, scope: Text, allowed: seq<Text>): set<MM.Id> {
    set id | id in MQ.Answers(mem, CandidatesIn(scope)) && id in mem.cards && mem.cards[id] != [] &&
             TypeAllowed(allowed, Last(mem.cards[id]).cardType)
  }

  /** The card is a candidate of the scope, or of any if none is given. */
  predicate CandidateOf(versions: seq<MM.Card>, scope: Text) {
    && versions != [] && Last(versions).status == MM.Candidate
    && (Trim(scope) != [] ==> Last(versions).scope == Trim(scope))
  }

  /** Its type is listed, or nothing is. */
  predicate Listed(cardType: Text, allowed: seq<Text>) {
    allowed == [] || (Trim(cardType) != [] && exists i :: 0 <= i < |allowed| && Trim(allowed[i]) == Trim(cardType))
  }

  /** Which candidates count, and when there is any. */
  lemma EligibleAre(mem: MM.Mem, scope: Text, allowed: seq<Text>)
    requires MI.WellFormed(mem)
    ensures MQ.Answers(mem, CandidatesIn(scope)) == set id | id in mem.cards && CandidateOf(mem.cards[id], scope)
    ensures Eligible(mem, scope, allowed) ==
            set id | id in mem.cards && CandidateOf(mem.cards[id], scope) &&
                     Listed(Last(mem.cards[id]).cardType, allowed)
  {
    forall id | id in mem.cards
      ensures mem.cards[id] != [] && MQ.ResolveAsOf(mem.cards[id], None) == Some(Last(mem.cards[id]))
    {
      assert MI.Chain(id, mem.cards[id]);
    }
  }

  /** A decay pass changes neither the candidates of any scope nor which of them are eligible. */
  lemma DecayKeepsCandidates(mem: MM.Mem, g: MM.Governance, scope: Text, allowed: seq<Text>)
    requires MI.WellFormed(mem)
    ensures var after := MD.DecayAll(mem, g);
            && MQ.Answers(after, CandidatesIn(scope)) == MQ.Answers(mem, CandidatesIn(scope))
            && Eligible(after, scope, allowed) == Eligible(mem, scope, allowed)
  {
    var after := MD.DecayAll(mem, g);
    forall id | id in mem.cards
      ensures SameCandidate(mem.cards[id], after.cards[id], scope)
    {
      assert MI.Chain(id, mem.cards[id]);
      PassKeepsCandidate(mem.cards[id], g, scope);
    }
  }

  /** Before and after, the latest version answers the query for candidates alike, and has the same type. */
  predicate SameCandidate(before: seq<MM.Card>, after: seq<MM.Card>, scope: Text) {
    && before != [] && after != []
    && Last(after).cardType == Last(before).cardType
    && MQ.ResolveAsOf(before, None) == Some(Last(before)) && MQ.ResolveAsOf(after, None) == Some(Last(after))
    && (MQ.Passes(Last(after), CandidatesIn(scope)) <==> MQ.Passes(Last(before), CandidatesIn(scope)))
  }

  lemma PassKeepsCandidate(versions: seq<MM.Card>, g: MM.Governance, scope: Text)
    requires versions != []
    ensures SameCandidate(versions, MM.AfterPass(versions, g), scope)
  {
  }

  lemma {:induction false} DistinctCount(cards: seq<MM.Card>)
    requires forall i, j :: 0 <= i < j < |cards| ==> cards[i].id != cards[j].id
    ensures |set i | 0 <= i < |cards| :: cards[i].id| == |cards|
    decreases |cards|
  {
    if cards != [] {
      var init := cards[..|cards| - 1];
      DistinctCount(init);
      assert (set i | 0 <= i < |cards| :: cards[i].id) == (set i | 0 <= i < |init| :: init[i].id) + {Last(cards).id};
    }
  }

  class MemoryScheduler {
    const runtime: Orchestrator.TaskStore
    const orchestrator: Orchestrator.TaskOrchestrator
    const memory: MS.Store
    const config: Config
    const allowed: seq<Text>
    var saved: SchedulerState

    constructor (orchestrator: Orchestrator.TaskOrchestrator, memory: MS.Store, config: Config, allowed: seq<Text>)
      ensures this.orchestrator == orchestrator && this.runtime == orchestrator.store && this.memory == memory
      ensures this.config == Config(if config.cooldown > 0 then config.cooldown else 300000000000,
                                    if config.minCandidates > 0 then config.minCandidates else 1,
                                    if Trim(config.scope) != [] then config.scope else "project",
                                    config.extractProcedures,
                                    if config.procedureMinRuns > 0 then config.procedureMinRuns else 2)
      ensures this.allowed == allowed && saved == NEVER
    {
      this.orchestrator, this.runtime, this.memory := orchestrator, orchestrator.store, memory;
      this.config, this.allowed, this.saved := Configured(config), allowed, NEVER;
    }

    ghost predicate Valid()
      reads this, memory, runtime
    {
      runtime == orchestrator.store && memory.Valid() && Runtime.Tidy(runtime.Contents())
    }

    /** How many candidates of the scope are of an allowed type. */
    method EligibleCandidates() returns (n: nat)
      requires Valid()
      ensures n == |Eligible(memory.Memory(), config.scope, allowed)|
    {
      var cards, _ := memory.Query(CandidatesIn(config.scope));
      ghost var eligible := Eligible(memory.Memory(), config.scope, allowed);
      var kept := [];
      for i := 0 to |cards|
        invariant forall c :: c in kept ==> c in cards[..i]
        invariant forall j :: 0 <= j < i && TypeAllowed(allowed, cards[j].cardType) ==> cards[j] in kept
        invariant forall k :: 0 <= k < |kept| ==> TypeAllowed(allowed, kept[k].cardType)
        invariant forall j, k :: 0 <= j < k < |kept| ==> kept[j].id != kept[k].id
      {
        assert cards[..i + 1] == cards[..i] + [cards[i]];
        if |allowed| == 0 || TypeAllowed(allowed, cards[i].cardType) {
          NotKeptBefore(cards, i, kept);
          kept := kept + [cards[i]];
        }
      }
      KeptAreEligible(memory.Memory(), config.scope, allowed, cards, kept);
      DistinctCount(kept);
      return |kept|;
    }

    method AnyCandidate() returns (any: bool)
      requires Valid()
      ensures any == (MQ.Answers(memory.Memory(), CandidatesIn(config.scope)) != {})
    {
      var cards, _ := memory.Query(CandidatesIn(config.scope));
      if |cards| > 0 {
        assert cards[0].id in MQ.Answers(memory.Memory(), CandidatesIn(config.scope));
      }
      return |cards| > 0;
    }

    /** `order` is the order the decay pass met the cards in. */
    method EvaluateAndSchedule(given: Text, now: Runtime.Time, m: Runtime.Moment)
      returns (r: Result<Decision, Runtime.RuntimeError>, ghost order: seq<MM.Id>)
      requires Valid() && runtime.clock <= now
      modifies this, runtime, memory
      ensures Valid()
      ensures MI.WellFormed(old(memory.Memory())) && MM.Visits(old(memory.Memory()), order)
      ensures memory.State() ==
              MM.Step(old(memory.State()), MM.Decay(MM.Defaulted(0.0, 0.0, 0.0, None, now), order))
      ensures var offer := Offer(|Eligible(old(memory.Memory()), config.scope, allowed)|,
                                 MQ.Answers(old(memory.Memory()), CandidatesIn(config.scope)) != {});
              (runtime.Contents(), saved, r) ==
              Evaluate(old(runtime.Contents()), old(saved), config, offer, given, orchestrator.suggest, now, m)
    {
      ghost var g := MM.Defaulted(0.0, 0.0, 0.0, None, now);
      ghost var before := memory.State();
      var tally;
      tally, order := memory.DecayAndCompact(0.0, 0.0, 0.0, None, now);
      MD.DecayOrderIsIrrelevant(before, g, order);
      DecayKeepsCandidates(before.mem, g, config.scope, allowed);
      r := Schedule(given, now, m);
    }

    /** The evaluation after the decay pass. */
    method Schedule(given: Text, now: Runtime.Time, m: Runtime.Moment)
      returns (r: Result<Decision, Runtime.RuntimeError>)
      requires Valid() && runtime.clock <= now
      modifies this, runtime
      ensures Valid() && memory.State() == old(memory.State())
      ensures var offer := Offer(|Eligible(memory.Memory(), config.scope, allowed)|,
                                 MQ.Answers(memory.Memory(), CandidatesIn(config.scope)) != {});
              (runtime.Contents(), saved, r) ==
              Evaluate(old(runtime.Contents()), old(saved), config, offer, given, orchestrator.suggest, now, m)
    {
      var reason := Trim(given);
      if reason == [] {
        reason := "manual";
      }
      TrimIsTrimmed(given);
      assert reason == Reason(given) && Reason(reason) == reason;
      var eligible := EligibleCandidates();
      if eligible == 0 {
        r := Skip(reason, 0, 0, NoEligible);
        return;
      }
      if eligible < config.minCandidates {
        r := Skip(reason, eligible, eligible, Threshold);
        return;
      }
      var any := AnyCandidate();
      if !any {
        // An eligible card is a candidate, so the skip written for this case never happens.
        assert false;
      }
      r := Decide(reason, eligible, now, m);
    }

    /** Records why nothing was scheduled. The instant of the last trigger is not carried over. */
    method Skip(reason: Text, count: nat, eligible: nat, why: Skip) returns (r: Result<Decision, Runtime.RuntimeError>)
      modifies `saved
      ensures saved == SchedulerState(None, reason, None, count, why)
      ensures r == Ok(Decision(false, None, eligible, why))
    {
      saved := SchedulerState(None, reason, None, count, why);
      return Ok(Decision(false, None, eligible, why));
    }

    /** The guards that look at the saved state and the runtime, and the submission. */
    method Decide(reason: Text, eligible: nat, now: Runtime.Time, m: Runtime.Moment)
      returns (r: Result<Decision, Runtime.RuntimeError>)
      requires Valid() && runtime.clock <= now && eligible > 0 && eligible >= config.minCandidates
      requires reason == Reason(reason)
      modifies this, runtime
      ensures Valid()
      ensures (runtime.Contents(), saved, r) ==
              Evaluate(old(runtime.Contents()), old(saved), config, Offer(eligible, true), reason,
                orchestrator.suggest, now, m)
    {
      var state := saved;
      if state.lastTriggered.Some? && now as int - state.lastTriggered.value as int < config.cooldown {
        var shown := None;
        if state.lastTask.Some? {
          var task := runtime.GetTask(state.lastTask.value);
          if task.Ok? {
            shown := Some(task.value);
          }
        }
        saved := SchedulerState(state.lastTriggered, reason, state.lastTask, eligible, Cooldown);
        return Ok(Decision(false, shown, eligible, Cooldown));
      }
      if runtime.state.None? {
        return Err(Runtime.NoState);
      }
      if runtime.state.value.active.Some? {
        r := Skip(reason, eligible, eligible, RuntimeBusy);
        return;
      }
      var existing := FindConsolidation();
      if existing.Some? {
        saved := SchedulerState(None, reason, Some(existing.value.id), eligible, ExistingTask);
        return Ok(Decision(false, existing, eligible, ExistingTask));
      }
      var task := orchestrator.SubmitTask(Consolidate(config, reason), now, m);
      if task.Err? {
        return Err(task.error);
      }
      saved := SchedulerState(Some(m.now), reason, Some(task.value.id), eligible, NotSkipped);
      return Ok(Decision(true, Some(task.value), eligible, NotSkipped));
    }

    /** The first unfinished consolidation task of the listing. */
    method FindConsolidation() returns (found: Option<Runtime.Task>)
      requires Valid()
      ensures match NewestConsolidation(runtime.files)
              case None => found == None
              case Some(k) => k in runtime.files && found == Some(runtime.files[k])
    {
      var tasks := runtime.ListTasks();
      for i := 0 to |tasks|
        invariant forall j :: 0 <= j < i ==> !(tasks[j].skill == SKILL && Unfinished(tasks[j].state))
      {
        var task := tasks[i];
        if task.skill != SKILL {
          continue;
        }
        if Unfinished(task.state) {
          FirstIsNewest(runtime.Contents(), tasks, i);
          return Some(task);
        }
      }
      NoneListed(runtime.Contents(), tasks);
      return None;
    }
  }

  lemma NotKeptBefore(cards: seq<MM.Card>, i: nat, kept: seq<MM.Card>)
    requires i < |cards| && (forall c :: c in kept ==> c in cards[..i])
    requires forall j, k :: 0 <= j < k < |cards| ==> cards[j].id != cards[k].id
    ensures forall j :: 0 <= j < |kept| ==> kept[j].id != cards[i].id
  {
    forall j | 0 <= j < |kept|
      ensures kept[j].id != cards[i].id
    {
      assert kept[j] in cards[..i];
    }
  }

  lemma KeptAreEligible(mem: MM.Mem, scope: Text, allowed: seq<Text>, cards: seq<MM.Card>, kept: seq<MM.Card>)
    requires MI.WellFormed(mem) && MQ.CardsOf(mem, CandidatesIn(scope), cards)
    requires forall c :: c in kept ==> c in cards
    requires forall j :: 0 <= j < |cards| && TypeAllowed(allowed, cards[j].cardType) ==> cards[j] in kept
    requires forall k :: 0 <= k < |kept| ==> TypeAllowed(allowed, kept[k].cardType)
    ensures (set i | 0 <= i < |kept| :: kept[i].id) == Eligible(mem, scope, allowed)
  {
    var q := CandidatesIn(scope);
    forall k | 0 <= k < |kept|
      ensures kept[k].id in Eligible(mem, scope, allowed)
    {
      assert kept[k] in cards;
      var j :| 0 <= j < |cards| && cards[j] == kept[k];
      assert cards[j].id in MQ.Answers(mem, q);
    }
    forall id | id in Eligible(mem, scope, allowed)
      ensures exists i :: 0 <= i < |kept| && kept[i].id == id
    {
      var j :| 0 <= j < |cards| && cards[j].id == id;
      assert Last(mem.cards[id]) == cards[j];
      assert cards[j] in kept;
    }
  }

  lemma FirstIsNewest(s: Runtime.System, tasks: seq<Runtime.Task>, i: nat)
    requires Runtime.Filed(s) && Orchestrator.Listing(s.files, tasks) && i < |tasks|
    requires tasks[i].skill == SKILL && Unfinished(tasks[i].state)
    requires forall j :: 0 <= j < i ==> !(tasks[j].skill == SKILL && Unfinished(tasks[j].state))
    ensures match NewestConsolidation(s.files)
            case None => false
            case Some(k) => k in s.files && s.files[k] == tasks[i]
  {
    var t := tasks[i];
    assert t in tasks;
    var k :| k in s.files && k.0 != Runtime.Archived && s.files[k] == t;
    forall j | j in s.files && OpenConsolidation(s.files, j)
      ensures s.files[j].createdAt <= t.createdAt
    {
      assert s.files[j] in tasks;
      var n :| 0 <= n < |tasks| && tasks[n] == s.files[j];
      if n > i {
        assert Orchestrator.NewerEq(tasks[i], tasks[n]);
      }
    }
    assert IsNewestConsolidation(s.files, k);
    var best := NewestConsolidation(s.files).value;
    assert IsNewestConsolidation(s.files, best);
    assert Runtime.FiledAt(s, k) && Runtime.FiledAt(s, best);
  }

  lemma NoneListed(s: Runtime.System, tasks: seq<Runtime.Task>)
    requires Orchestrator.Listing(s.files, tasks)
    requires forall j :: 0 <= j < |tasks| ==> !(tasks[j].skill == SKILL && Unfinished(tasks[j].state))
    ensures NewestConsolidation(s.files) == None
  {
    forall k | k in s.files && k.0 != Runtime.Archived
      ensures !OpenConsolidation(s.files, k)
    {
      assert s.files[k] in tasks;
    }
  }
}
