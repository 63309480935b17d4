/** The task store and the orchestrator that moves tasks through it. */
module Orchestrator {
  import opened Prelude
  import opened Strings
  import opened Sorting
  import opened Runtime

  class TaskStore {
    var files: Files
    var state: Option<RuntimeState>
    var clock: nat

    function Contents(): System
      reads this
    {
      System(files, state, clock)
    }

    constructor (bootstrapped: bool)
      ensures Contents() == System(map[], if bootstrapped then Some(IDLE) else None, 0)
    {
      files, clock := map[], 0;
      state := if bootstrapped then Some(IDLE) else None;
    }

    method FindTaskLocked(id: nat) returns (found: Option<TaskState>)
      ensures found == Find(files, id)
    {
      var dirs := [Inbox, Planned, Active, Blocked, AwaitingApproval, Done, Failed, Archived];
      for i := 0 to |dirs|
        invariant i > 0 ==> (Inbox, id) !in files
        invariant i > 1 ==> (Planned, id) !in files
        invariant i > 2 ==> (Active, id) !in files
        invariant i > 3 ==> (Blocked, id) !in files
        invariant i > 4 ==> (AwaitingApproval, id) !in files
        invariant i > 5 ==> (Done, id) !in files
        invariant i > 6 ==> (Failed, id) !in files
        invariant i > 7 ==> (Archived, id) !in files
      {
        if (dirs[i], id) in files {
          return Some(dirs[i]);
        }
      }
      return None;
    }

    method GetTask(id: nat) returns (r: Result<Task, RuntimeError>)
      ensures r == Runtime.GetTask(files, id)
    {
      var found := FindTaskLocked(id);
      if found.None? {
        return Err(TaskNotFound);
      }
      return Ok(files[(found.value, id)]);
    }

    /** `now` is a fresh clock reading; it also names the task. */
    method CreateTask(req: CreateTaskRequest, now: Time) returns (r: Result<Task, RuntimeError>)
      modifies `files, `clock
      ensures Contents() == Runtime.CreateTask(old(Contents()), req, now)
      ensures r == if Creatable(req) then Ok(NewTask(req, now)) else Err(InvalidInput)
    {
      if Trim(req.title) == [] || Trim(req.goal) == [] {
        return Err(InvalidInput);
      }
      var task := Task(now, Trim(req.title), Trim(req.goal), Inbox, now, now, Trim(req.requestedBy), Trim(req.source),
                       FirstNonEmpty(req.profile, "user"), req.requiresApproval, Trim(req.skill), [], [], req.metadata);
      files := files[(Inbox, now) := task];
      clock := now + 1;
      return Ok(task);
    }

    method MoveTask(id: nat, next: TaskState, mutate: Task -> Task, now: Time) returns (r: Result<Task, RuntimeError>)
      requires Filed(Contents()) && KeepsIdentity(mutate)
      modifies `files
      ensures (Contents(), r) == Runtime.MoveTask(old(Contents()), id, next, mutate, now)
    {
      var found := FindTaskLocked(id);
      if found.None? {
        return Err(TaskNotFound);
      }
      var task := mutate(files[(found.value, id)]);
      assert FiledAt(Contents(), (found.value, id));
      task := task.(state := next);
      task := task.(updatedAt := now);
      files := files - {(found.value, id)};
      files := files[(task.state, task.id) := task];
      return Ok(task);
    }

    /** The tasks outside the archive, newest first. */
    method ListTasks() returns (tasks: seq<Task>)
      ensures Listing(files, tasks)
    {
      var found := [];
      var todo := set k | k in files && k.0 != Archived :: k;
      NothingCollected(files, todo);
      while todo != {}
        invariant forall k :: k in todo ==> k in files && k.0 != Archived
        invariant Collected(files, todo, found)
        decreases |todo|
      {
        var k :| k in todo;
        assert todo - {k} + {k} == todo;
        todo := todo - {k};
        CollectOneMore(files, todo, found, k);
        found := found + [files[k]];
      }
      tasks := Sort(found, NewerEq);
      assert TotalPreorder(NewerEq);
      SortSorts(found, NewerEq);
      CollectedAreListed(files, tasks);
    }
  }

  predicate NewerEq(a: Task, b: Task) {
    a.createdAt >= b.createdAt
  }

  /** The unarchived files outside `todo` that hold the task. */
  function FilesOf(files: Files, todo: set<(TaskState, nat)>, t: Task): set<(TaskState, nat)> {
    set k | k in files && k.0 != Archived && k !in todo && files[k] == t
  }

  /** Each task is there once for each of its files outside `todo`. */
  ghost predicate Collected(files: Files, todo: set<(TaskState, nat)>, found: seq<Task>) {
    forall t :: multiset(found)[t] == |FilesOf(files, todo, t)|
  }

  lemma NothingCollected(files: Files, todo: set<(TaskState, nat)>)
    requires forall k :: k in files && k.0 != Archived ==> k in todo
    ensures Collected(files, todo, [])
  {
    forall t
      ensures |FilesOf(files, todo, t)| == 0
    {
      assert FilesOf(files, todo, t) == {};
    }
  }

  lemma CollectOneMore(files: Files, todo: set<(TaskState, nat)>, found: seq<Task>, k: (TaskState, nat))
    requires Collected(files, todo + {k}, found) && k in files && k.0 != Archived && k !in todo
    ensures Collected(files, todo, found + [files[k]])
  {
    forall t
      ensures multiset(found + [files[k]])[t] == |FilesOf(files, todo, t)|
    {
      OneMoreAmong(FilesOf(files, todo + {k}, t), FilesOf(files, todo, t), k, files[k] == t);
      assert multiset(found)[t] == |FilesOf(files, todo + {k}, t)|;
    }
  }

  /** The unarchived tasks, newest first, each once for each of its files. */
  ghost predicate Listing(files: Files, tasks: seq<Task>) {
    && Sorted(tasks, NewerEq)
    && Collected(files, {}, tasks)
    && (forall t :: t in tasks <==> exists k :: k in files && k.0 != Archived && files[k] == t)
  }

  lemma CollectedAreListed(files: Files, tasks: seq<Task>)
    requires Collected(files, {}, tasks)
    ensures forall t :: t in tasks <==> exists k :: k in files && k.0 != Archived && files[k] == t
  {
    forall t
      ensures t in tasks <==> exists k :: k in files && k.0 != Archived && files[k] == t
    {
      assert multiset(tasks)[t] == |FilesOf(files, {}, t)|;
      if k :| k in files && k.0 != Archived && files[k] == t {
        assert k in FilesOf(files, {}, t);
      } else {
        assert FilesOf(files, {}, t) == {};
      }
    }
  }

  /** The first open task of a listing is the newest open one. */
  lemma FirstOpenIsNewest(s: System, tasks: seq<Task>, i: nat)
    requires Filed(s) && Listing(s.files, tasks) && i < |tasks| && Open(tasks[i].state)
    requires forall j :: 0 <= j < i ==> !Open(tasks[j].state)
    ensures var k := (tasks[i].state, tasks[i].id);
            k in s.files && s.files[k] == tasks[i] && NewestOpen(s.files) == Some(k)
  {
    var t := tasks[i];
    assert t in tasks;
    var k :| k in s.files && k.0 != Archived && s.files[k] == t;
    FindsTheOnly(s, k);
    forall j | j in s.files && j.0 != Archived && Open(s.files[j].state)
      ensures s.files[j].createdAt <= t.createdAt
    {
      assert s.files[j] in tasks;
      var n :| 0 <= n < |tasks| && tasks[n] == s.files[j];
      if n > i {
        assert NewerEq(tasks[i], tasks[n]);
      }
    }
    assert IsNewestOpen(s.files, k);
    NewestIsUnique(s, k);
  }

  lemma NewestIsUnique(s: System, k: (TaskState, nat))
    requires Filed(s) && IsNewestOpen(s.files, k)
    ensures NewestOpen(s.files) == Some(k)
  {
    var j := NewestOpen(s.files).value;
    assert IsNewestOpen(s.files, j);
    assert FiledAt(s, k) && FiledAt(s, j);
  }

  lemma NothingOpen(s: System, tasks: seq<Task>)
    requires Listing(s.files, tasks) && forall i :: 0 <= i < |tasks| ==> !Open(tasks[i].state)
    ensures NewestOpen(s.files) == None
  {
    forall k | k in s.files && k.0 != Archived
      ensures !Open(s.files[k].state)
    {
      assert s.files[k] in tasks;
    }
  }

  class TaskOrchestrator {
    const store: TaskStore
    const suggest: Task -> Text
    const count: Text -> Text

    constructor (store: TaskStore, suggest: Task -> Text, count: Text -> Text)
      ensures this.store == store && this.suggest == suggest && this.count == count
    {
      this.store, this.suggest, this.count := store, suggest, count;
    }

    method Recover(m: Moment) returns (r: Result<(), RuntimeError>)
      requires Tidy(store.Contents())
      modifies store
      ensures (store.Contents(), r) == Runtime.Recover(old(store.Contents()), m)
      ensures Tidy(store.Contents())
    {
      if store.state.None? {
        return Err(NoState);
      }
      RecoverKeepsTasks(store.Contents(), m);
      var state := store.state.value;
      if state.active.None? {
        if state.status != "idle" {
          store.state := Some(state.(status := "idle"));
        }
        return Ok(());
      }
      var id := state.active.value;
      var task := store.GetTask(id);
      if task.Err? {
        store.state := Some(RuntimeState("idle", None));
        return Ok(());
      }
      if task.value.state == Active {
        var _ := store.MoveTask(id, Planned, Recovered(m), m.now);
      }
      store.state := Some(RuntimeState("idle", None));
      return Ok(());
    }

    method SubmitTask(req: CreateTaskRequest, now: Time, m: Moment) returns (r: Result<Task, RuntimeError>)
      requires Tidy(store.Contents()) && store.clock <= now
      modifies store
      ensures (store.Contents(), r) == Runtime.SubmitTask(old(store.Contents()), req, suggest, now, m)
      ensures Tidy(store.Contents())
    {
      var created := store.CreateTask(req, now);
      if created.Err? {
        return Err(created.error);
      }
      CreateKeepsTasks(old(store.Contents()), req, now);
      r := Advance(m);
    }

    method Advance(m: Moment) returns (r: Result<Task, RuntimeError>)
      requires Tidy(store.Contents())
      modifies store
      ensures (store.Contents(), r) == Runtime.Advance(old(store.Contents()), suggest, m)
      ensures Tidy(store.Contents())
    {
      AdvanceKeepsTasks(store.Contents(), suggest, m);
      if store.state.None? {
        return Err(NoState);
      }
      if store.state.value.active.Some? {
        var activeTask := store.GetTask(store.state.value.active.value);
        if activeTask.Ok? && activeTask.value.state == Active {
          return activeTask;
        }
        StateChangeKeepsFiled(store.Contents(), Some(IDLE));
        store.state := Some(RuntimeState("idle", None));
      }
      r := TakeUpNewest(m);
    }

    /** Carries on with the first open task of the listing. */
    method TakeUpNewest(m: Moment) returns (r: Result<Task, RuntimeError>)
      requires Filed(store.Contents())
      modifies store
      ensures match NewestOpen(old(store.files))
              case None => r == Err(TaskNotFound) && store.Contents() == old(store.Contents())
              case Some(k) =>
                && k in old(store.files)
                && (store.Contents(), r) == TakeUp(old(store.Contents()), old(store.files)[k], suggest, m)
    {
      var tasks := store.ListTasks();
      for i := 0 to |tasks|
        invariant store.Contents() == old(store.Contents())
        invariant forall j :: 0 <= j < i ==> !Open(tasks[j].state)
      {
        var task := tasks[i];
        match task.state {
          case Inbox =>
            FirstOpenIsNewest(store.Contents(), tasks, i);
            r := PlanTask(task.id, m);
            if r.Err? {
              return;
            }
            r := ActivateTask(r.value.id, m);
            return;
          case Planned =>
            FirstOpenIsNewest(store.Contents(), tasks, i);
            r := ActivateTask(task.id, m);
            return;
          case AwaitingApproval =>
            FirstOpenIsNewest(store.Contents(), tasks, i);
            return Ok(task);
          case Active =>
            FirstOpenIsNewest(store.Contents(), tasks, i);
            return Ok(task);
          case _ =>
        }
      }
      NothingOpen(store.Contents(), tasks);
      return Err(TaskNotFound);
    }

    method PlanTask(id: nat, m: Moment) returns (r: Result<Task, RuntimeError>)
      requires Filed(store.Contents())
      modifies store
      ensures (store.Contents(), r) == Runtime.MoveTask(old(store.Contents()), id, Planned, Planned_(suggest), m.now)
      ensures Filed(store.Contents())
    {
      MoveKeepsFiled(store.Contents(), id, Planned, Planned_(suggest), m.now);
      r := store.MoveTask(id, Planned, Planned_(suggest), m.now);
    }

    method ActivateTask(id: nat, m: Moment) returns (r: Result<Task, RuntimeError>)
      requires Filed(store.Contents())
      modifies store
      ensures (store.Contents(), r) == Runtime.ActivateTask(old(store.Contents()), id, m)
    {
      r := store.MoveTask(id, Active, Activated(), m.now);
      if r.Err? {
        return;
      }
      if store.state.None? {
        return Err(NoState);
      }
      store.state := Some(RuntimeState("busy", Some(r.value.id)));
    }

    method ApproveTask(id: nat, who: Text, m: Moment) returns (r: Result<Task, RuntimeError>)
      requires Tidy(store.Contents())
      modifies store
      ensures (store.Contents(), r) == Runtime.ApproveTask(old(store.Contents()), id, who, count, m)
      ensures Tidy(store.Contents())
    {
      ApproveKeepsTasks(store.Contents(), id, who, count, m);
      r := RequeueTask(id, "approval_granted", ApprovedBy(who), m);
      if r.Err? {
        return;
      }
      r := ActivateTask(r.value.id, m);
    }

    method DenyTask(id: nat, who: Text, reason: Text, m: Moment) returns (r: Result<Task, RuntimeError>)
      requires Tidy(store.Contents())
      modifies store
      ensures (store.Contents(), r) == Runtime.DenyTask(old(store.Contents()), id, who, reason, m)
      ensures Tidy(store.Contents())
    {
      DenyKeepsTasks(store.Contents(), id, who, reason, m);
      var task := store.GetTask(id);
      if task.Ok? && task.value.metadata == map[] {
        return Err(Panic);
      }
      r := store.MoveTask(id, Failed, DeniedBy(who, reason), m.now);
    }

    method RequeueTask(id: nat, trigger: Text, mutate: Task -> Task, m: Moment) returns (r: Result<Task, RuntimeError>)
      requires Tidy(store.Contents()) && KeepsIdentity(mutate)
      modifies store
      ensures (store.Contents(), r) == Runtime.RequeueTask(old(store.Contents()), id, trigger, count, mutate, m)
      ensures Tidy(store.Contents())
    {
      RequeueKeepsTasks(store.Contents(), id, trigger, count, mutate, m);
      r := store.GetTask(id);
      if r.Err? {
        return;
      }
      var task := r.value;
      match task.state {
        case Planned => case Active => case Blocked => case Failed => case AwaitingApproval =>
        case _ => return Err(NotRequeueable);
      }
      if store.state.None? {
        return Err(NoState);
      }
      RequeuedKeepsIdentity(trigger, StateName(task.state), count, m, mutate);
      StateChangeKeepsFiled(store.Contents(), Some(IDLE));
      if store.state.value.active == Some(id) {
        store.state := Some(RuntimeState("idle", None));
      }
      r := store.MoveTask(id, Planned, Requeued(trigger, StateName(task.state), count, m, mutate), m.now);
    }
  }
}
