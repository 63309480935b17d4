/** The executor: authorization, replay and the retry loops, over a store of action records. */
module Executor {
  import opened Prelude
  import opened Strings
  import opened Execution
  import opened Requests
  import Approvals
  import ApprovalStore

  datatype ExecutionError = InvalidInput | Denied | Unresolved

  class ActionStore {
    var files: Files
    var clock: nat
    ghost var effects: seq<Effect>

    ghost function State(): Plane
      reads this
    {
      Plane(files, effects, clock)
    }

    constructor ()
      ensures State() == EMPTY
    {
      files, clock, effects := map[], 0, [];
    }

    method Save(r: Record)
      modifies `files
      ensures files == Execution.Save(old(files), r)
    {
      files := files[(r.status, r.id) := r];
    }

    method FindLocked(id: nat) returns (found: Option<Status>)
      ensures found == Find(files, id)
    {
      if (Pending, id) in files {
        return Some(Pending);
      }
      if (Running, id) in files {
        return Some(Running);
      }
      if (Completed, id) in files {
        return Some(Completed);
      }
      if (Failed, id) in files {
        return Some(Failed);
      }
      return None;
    }

    method Move(r: Record, next: Status)
      modifies `files
      ensures files == Execution.Move(old(files), r, next)
    {
      var record := r;
      var found := FindLocked(r.id);
      if found.Some? {
        record := record.(startedAt := files[(found.value, r.id)].startedAt);
        files := files - {(found.value, r.id)};
      }
      record := record.(status := next);
      files := files[(record.status, record.id) := record];
    }

    /** The record that started last among the completed ones that agree; an empty fingerprint agrees with any. */
    method FindCompletedByIdempotency(kind: Kind, profile: Text, key: Text, fingerprint: Text)
      returns (found: Option<(Status, nat)>)
      ensures var wanted := Tag(kind, profile, Trim(key), fingerprint);
              if Trim(key) == [] then found == None
              else if found.Some? then LatestAgreeing(files, found.value, wanted)
              else forall k :: k in files && k.0 == Completed ==> !Agrees(files[k], wanted)
    {
      if Trim(key) == [] {
        return None;
      }
      ghost var wanted := Tag(kind, profile, Trim(key), fingerprint);
      found := None;
      var entries := set k | k in files && k.0 == Completed :: k;
      while entries != {}
        invariant Scanned(files, entries, found, wanted)
        decreases |entries|
      {
        var k :| k in entries;
        var record := files[k];
        ScanStep(files, entries, found, wanted, k);
        entries := entries - {k};
        if record.kind != kind {
          continue;
        }
        if record.profile != profile {
          continue;
        }
        if Trim(record.key) != Trim(key) {
          continue;
        }
        if fingerprint != [] && Trim(record.fingerprint) != fingerprint {
          continue;
        }
        if found.None? || files[found.value].startedAt < record.startedAt {
          found := Some(k);
        }
      }
    }
  }

  /** The record is one that the search for a key, kind, profile and fingerprint accepts. */
  predicate Agrees(r: Record, wanted: Tag) {
    && r.kind == wanted.kind && r.profile == wanted.profile && Trim(r.key) == wanted.key
    && (wanted.fingerprint != [] ==> Trim(r.fingerprint) == wanted.fingerprint)
  }

  ghost predicate LatestAgreeing(files: Files, k: (Status, nat), wanted: Tag) {
    && k in files && k.0 == Completed && Agrees(files[k], wanted)
    && forall j :: j in files && j.0 == Completed && Agrees(files[j], wanted) ==>
      files[j].startedAt <= files[k].startedAt
  }

  /** Stored fingerprints are trimmed and a request always has one, so what agrees is what matches. */
  lemma AgreeingIsMatching(files: Files, wanted: Tag)
    requires wanted.fingerprint != [] && forall k :: k in files ==> Trimmed(files[k].fingerprint)
    ensures forall k :: k in files && k.0 == Completed ==> (Agrees(files[k], wanted) <==> IsMatch(files, k, wanted))
    ensures forall k :: LatestAgreeing(files, k, wanted) <==> Newest(files, k, wanted)
  {
    forall k | k in files
      ensures Trim(files[k].fingerprint) == files[k].fingerprint
    {
      TrimmedIsFixed(files[k].fingerprint);
    }
  }

  /** `found` is the best among the agreeing completed records outside `entries`. */
  ghost predicate Scanned(files: Files, entries: set<(Status, nat)>, found: Option<(Status, nat)>, wanted: Tag) {
    && (forall k :: k in entries ==> k in files && k.0 == Completed)
    && (found.Some? ==> found.value in files && found.value.0 == Completed && Agrees(files[found.value], wanted))
    && (forall k :: k in files && k.0 == Completed && Agrees(files[k], wanted) && k !in entries ==>
         found.Some? && files[k].startedAt <= files[found.value].startedAt)
  }

  lemma ScanStep(files: Files, entries: set<(Status, nat)>, found: Option<(Status, nat)>, wanted: Tag, k: (Status, nat))
    requires Scanned(files, entries, found, wanted) && k in entries
    ensures !Agrees(files[k], wanted) ==> Scanned(files, entries - {k}, found, wanted)
    ensures Agrees(files[k], wanted) ==>
              Scanned(files, entries - {k},
                      if found.None? || files[found.value].startedAt < files[k].startedAt then Some(k) else found,
                        wanted)
  {
  }

  /** The store moved from `before` to `after` by carrying one request, which ended in record `r`. */
  ghost predicate Answered(before: Plane, carried: Carried, after: Plane, r: Record) {
    Possible(before, carried) && after == Carry(before, carried) && r == Final(before, carried)
  }

  lemma AnsweredByReplay(before: Plane, draft: Record, source: (Status, nat), clock: Clock)
    requires Consistent(before) && Draft(before, draft) && Trim(draft.key) != [] && source in before.files
    requires Newest(before.files, source, TagOf(draft))
    ensures var r := ReplayOf(draft, before.files[source], clock.replayStartedAt, clock.replayFinishedAt);
            var after := Plane(Execution.Save(before.files, r), before.effects, draft.id + 1);
            && Answered(before, Replayed(draft, source, clock.replayStartedAt, clock.replayFinishedAt), after, r)
            && Consistent(after)
  {
    CarryKeepsConsistent(before, Replayed(draft, source, clock.replayStartedAt, clock.replayFinishedAt));
  }

  lemma AnsweredByRunning(before: Plane, draft: Record, work: Work)
    requires Consistent(before) && Possible(before, Ran(draft, work))
    ensures Answered(before, Ran(draft, work), Carry(before, Ran(draft, work)), Settled(draft, work))
    ensures Consistent(Carry(before, Ran(draft, work)))
  {
    CarryKeepsConsistent(before, Ran(draft, work));
  }

  /** The effect of an attempt comes before those of the attempts after it, if there are any. */
  lemma ShellEffectsInTurn(done: seq<Effect>, r: Record, n: int, maxAttempts: int, run: int -> ShellAttempt)
    requires n <= maxAttempts
    ensures var o := run(n).outcome;
            var now := done + ShellEffect(r, n, o);
            done + ShellEffects(r, n, maxAttempts, run) ==
            if !o.Exits? && ShouldRetry(Shell, ShellCategory(o), n, maxAttempts)
            then now + ShellEffects(r, n + 1, maxAttempts, run) else now
  {
    var o := run(n).outcome;
    if !o.Exits? && ShouldRetry(Shell, ShellCategory(o), n, maxAttempts) {
      AppendTwice(done, ShellEffect(r, n, o), ShellEffects(r, n + 1, maxAttempts, run));
    } else {
      AppendTwice(done, ShellEffect(r, n, o), []);
    }
  }

  lemma FileEffectsInTurn(done: seq<Effect>, r: Record, n: int, maxAttempts: int, size: nat, run: int -> FileAttempt)
    requires n <= maxAttempts
    ensures var o := run(n).outcome;
            var now := done + FileEffect(r, n, o, size);
            done + FileEffects(r, n, maxAttempts, size, run) ==
            if FileRetries(r.kind, o, n, maxAttempts) then now + FileEffects(r, n + 1, maxAttempts, size, run) else now
  {
    var o := run(n).outcome;
    if FileRetries(r.kind, o, n, maxAttempts) {
      AppendTwice(done, FileEffect(r, n, o, size), FileEffects(r, n + 1, maxAttempts, size, run));
    } else {
      AppendTwice(done, FileEffect(r, n, o, size), []);
    }
  }

  lemma AppendTwice<T>(a: seq<T>, b: seq<T>, c: seq<T>)
    ensures a + (b + c) == (a + b) + c
    ensures a + b + [] == a + b
  {
  }

  class ActionExecutor {
    const store: ActionStore
    const approvals: ApprovalStore.Store?
    const rootToken: Text
    const digest: Text -> Digest
    ghost var granted: nat
    ghost var byToken: nat
    ghost var elsewhere: nat

    constructor (store: ActionStore, approvals: ApprovalStore.Store?, rootToken: Text, digest: Text -> Digest)
      ensures this.store == store && this.approvals == approvals && this.digest == digest
      ensures this.rootToken == Trim(rootToken) && granted == byToken == elsewhere == 0
    {
      this.store, this.approvals, this.digest := store, approvals, digest;
      this.rootToken := Trim(rootToken);
      granted, byToken, elsewhere := 0, 0, 0;
    }

    ghost function GateState(): Approvals.Gate
      reads this, approvals
    {
      Approvals.Gate(Vault(), approvals != null, rootToken, granted, byToken, elsewhere)
    }

    ghost function Vault(): Approvals.Vault
      reads this, approvals
    {
      if approvals == null then Approvals.EMPTY else approvals.State()
    }

    ghost predicate Valid()
      reads this, store, approvals
    {
      Consistent(store.State()) && (approvals != null ==> approvals.Valid())
    }

    /** `met` is the approval that the token led to, if any. */
    method AuthorizeProfile(profile: Text, token: Text, now: Time) returns (allowed: bool, ghost met: Option<nat>)
      requires Valid()
      modifies this, approvals
      ensures Valid()
      ensures (allowed, GateState()) == Approvals.Authorize(old(GateState()), profile, token, now, met)
      ensures approvals != null && profile == "root" && Trim(token) != [] ==>
                old(Approvals.Enabled(approvals.State(), Approvals.Op.Consume(profile, token, now, met)))
      ensures allowed ==> profile == "user" || profile == "root"
      ensures profile == "user" ==> allowed && GateState() == old(GateState())
      ensures profile == "root" ==>
                (allowed <==>
                 || (approvals != null && Approvals.ByApproval(old(Vault().files), "root", token, now, met))
                 || (Trim(token) != [] && Trim(token) == rootToken))
      ensures profile == "root" && allowed && Trim(token) != rootToken ==>
                && approvals != null && met.Some? && (Approvals.Approved, met.value) in old(approvals.files)
                && old(approvals.files)[(Approvals.Approved, met.value)].token == Trim(token)
                && old(approvals.files)[(Approvals.Approved, met.value)].profile == "root"
                && (Approvals.Approved, met.value) !in approvals.files
    {
      RootIsLetIn(profile, token, now);
      met := None;
      if profile == "user" {
        return true, None;
      } else if profile == "root" {
        allowed, met := AuthorizeRoot(profile, token, now);
      } else {
        return false, None;
      }
    }

    lemma RootIsLetIn(profile: Text, token: Text, now: Time)
      ensures profile == "root" ==>
                forall met :: Approvals.Enabled(Vault(), Approvals.Op.Consume(profile, token, now, met)) ==>
                  (Approvals.Authorize(GateState(), profile, token, now, met).0 <==>
                   || (approvals != null && Approvals.ByApproval(Vault().files, "root", token, now, met))
                   || (Trim(token) != [] && Trim(token) == rootToken))
    {
      if profile == "root" {
        forall met | Approvals.Enabled(Vault(), Approvals.Op.Consume(profile, token, now, met))
          ensures Approvals.Authorize(GateState(), profile, token, now, met).0 <==>
                  || (approvals != null && Approvals.ByApproval(Vault().files, "root", token, now, met))
                  || (Trim(token) != [] && Trim(token) == rootToken)
        {
          Approvals.RootIsLetInBy(GateState(), token, now, met);
        }
      }
    }

    method AuthorizeRoot(profile: Text, token: Text, now: Time) returns (allowed: bool, ghost met: Option<nat>)
      requires Valid() && profile == "root"
      modifies this, approvals
      ensures Valid()
      ensures (allowed, GateState()) == Approvals.Authorize(old(GateState()), profile, token, now, met)
      ensures approvals != null && Trim(token) != [] ==>
                old(Approvals.Enabled(approvals.State(), Approvals.Op.Consume(profile, token, now, met)))
    {
      met := None;
      if rootToken == [] && approvals == null {
        return false, None;
      }
      if Trim(token) == [] {
        return false, None;
      }
      if approvals != null {
        allowed, met := ConsumeApproval(profile, token, now);
        if allowed {
          return;
        }
      }
      if Trim(token) == rootToken {
        granted, byToken := granted + 1, byToken + 1;
        return true, met;
      }
      return false, met;
    }

    method ConsumeApproval(profile: Text, token: Text, now: Time) returns (allowed: bool, ghost met: Option<nat>)
      requires Valid() && approvals != null && Trim(profile) != [] && Trim(token) != []
      modifies this`granted, approvals
      ensures Valid()
      ensures allowed == Approvals.Lets(old(approvals.State()), profile, token, now, met)
      ensures !allowed ==> approvals.State() == old(approvals.State())
      ensures approvals.State() == Approvals.Step(old(approvals.State()),
        Approvals.Op.Consume(profile, token, now, met), 0)
      ensures granted == old(granted) + if allowed then 1 else 0
      ensures Approvals.Enabled(old(approvals.State()), Approvals.Op.Consume(profile, token, now, met))
    {
      var consumed;
      consumed, met := approvals.Consume(profile, token, now);
      if consumed.Ok? {
        granted := granted + 1;
      }
      return consumed.Ok?, met;
    }

    /** Answers a request from a completed record with the same key, kind, profile and fingerprint. */
    method TryReplay(draft: Record, clock: Clock)
      returns (replayed: Option<Record>, ghost source: Option<(Status, nat)>)
      requires Consistent(store.State()) && Draft(store.State(), draft)
      modifies store`files
      ensures replayed.None? ==>
                && store.files == old(store.files) && source == None
                && (Trim(draft.key) != [] ==> forall k :: k in store.files ==> !IsMatch(store.files, k, TagOf(draft)))
      ensures replayed.Some? ==>
                && source.Some? && source.value in old(store.files) && Trim(draft.key) != []
                && Newest(old(store.files), source.value, TagOf(draft))
                && replayed.value == ReplayOf(draft, old(store.files)[source.value], clock.replayStartedAt,
                  clock.replayFinishedAt)
                && store.files == Execution.Save(old(store.files), replayed.value)
    {
      source := None;
      if Trim(draft.key) == [] {
        return None, None;
      }
      forall k | k in store.files
        ensures Trimmed(store.files[k].fingerprint)
      {
        assert Filed(store.State(), k);
      }
      AgreeingIsMatching(store.files, TagOf(draft));
      var found := store.FindCompletedByIdempotency(draft.kind, draft.profile, draft.key, draft.fingerprint);
      if found.None? {
        return None, None;
      }
      var existing := store.files[found.value];
      assert Filed(store.State(), found.value);
      var r := draft;
      r := r.(status := Completed, replayed := true, replayOf := Some(existing.id));
      r := r.(command := FirstNonEmpty(r.command, existing.command), args := FirstNonEmptySlice(r.args, existing.args));
      r := r.(path := FirstNonEmpty(r.path, existing.path), workdir := FirstNonEmpty(r.workdir, existing.workdir));
      r := r.(changedFiles := FirstNonEmptySlice(r.changedFiles, existing.changedFiles));
      r := r.(stdout := existing.stdout, stderr := existing.stderr, exitCode := existing.exitCode);
      r := r.(startedAt := clock.replayStartedAt, finishedAt := Some(clock.replayFinishedAt));
      r := r.(history := [Attempt(r.attempt, Completed, NoFailure, false, 0, [], r.startedAt, r.finishedAt)]);
      store.Save(r);
      return Some(r), found;
    }

    /** A replay answers the request; otherwise nothing has changed and no completed record matches. */
    method Replay(draft: Record, clock: Clock) returns (replayed: Option<Record>, ghost carried: Option<Carried>)
      requires Consistent(store.State()) && Draft(store.State(), draft)
      modifies store
      ensures Consistent(store.State())
      ensures replayed.Some? ==>
                && carried.Some? && carried.value.Replayed? && carried.value.draft == draft
                && Answered(old(store.State()), carried.value, store.State(), replayed.value)
      ensures replayed.None? ==>
                && store.State() == old(store.State())
                && (Trim(draft.key) != [] ==> forall k :: k in store.files ==> !IsMatch(store.files, k, TagOf(draft)))
    {
      ghost var source;
      replayed, source := TryReplay(draft, clock);
      carried := None;
      if replayed.Some? {
        carried := Some(Replayed(draft, source.value, clock.replayStartedAt, clock.replayFinishedAt));
        AnsweredByReplay(old(store.State()), draft, source.value, clock);
        store.clock := draft.id + 1;
      }
    }

    /** The retry loop of a command. It always settles inside the loop. A success is an effect as it happens. */
    method RunCommand(draft: Record, maxAttempts: int, run: int -> ShellAttempt) returns (r: Record)
      requires Consistent(store.State()) && Draft(store.State(), draft)
      requires draft.kind == Shell && draft.attempt <= maxAttempts && draft.history == []
      requires Trim(draft.key) != [] ==> forall k :: k in store.files ==> !IsMatch(store.files, k, TagOf(draft))
      modifies store
      ensures var ran := Ran(draft, Commands(maxAttempts, run));
              Possible(old(store.State()), ran) && store.State() == Carry(old(store.State()), ran) &&
                r == Settled(draft, ran.work)
    {
      ghost var start := store.State();
      ghost var all := start.effects + ShellEffects(draft, draft.attempt, maxAttempts, run);
      ghost var work := Commands(maxAttempts, run);
      ghost var settled := Settled(draft, work);
      assert Possible(start, Ran(draft, work)) && all == start.effects + Effects(draft, work);
      store.Save(draft);
      r := draft;
      var attempt := draft.attempt;
      while attempt <= maxAttempts
        invariant draft.attempt <= attempt <= maxAttempts
        invariant ShellLoop(r, attempt, maxAttempts, run) == settled
        invariant store.files == Execution.Save(start.files, draft)
        invariant store.effects + ShellEffects(draft, attempt, maxAttempts, run) == all
        decreases maxAttempts - attempt
      {
        var result := run(attempt);
        ShellEffectsInTurn(store.effects, draft, attempt, maxAttempts, run);
        r := RecordCommand(r, attempt, result, draft);
        if result.outcome.Exits? {
          r := r.(status := Completed, retryable := false, error := [], category := NoFailure);
          assert r == settled;
          assert store.effects == all;
          Settle(r, start, draft, work);
          return;
        }
        if !ShouldRetry(Shell, ShellCategory(result.outcome), attempt, maxAttempts) {
          r := r.(status := Failed);
          assert r == settled;
          assert store.effects == all;
          Settle(r, start, draft, work);
          return;
        }
        assert ShellLoop(r, attempt + 1, maxAttempts, run) == settled;
        attempt := attempt + 1;
      }
      assert false;
    }

    /** The record after an attempt. The attempt itself, if it succeeded, is an effect in the outside world. */
    method RecordCommand(before: Record, attempt: int, result: ShellAttempt, ghost draft: Record) returns (r: Record)
      modifies store`effects
      ensures r == AfterShell(before, attempt, result)
      ensures store.effects == old(store.effects) + ShellEffect(draft, attempt, result.outcome)
    {
      var outcome := result.outcome;
      store.effects := store.effects + ShellEffect(draft, attempt, outcome);
      var retryable, exitCode, error := outcome.TimesOut?, 0, [];
      if outcome.Fails? {
        exitCode := outcome.exitCode;
      }
      if !outcome.Exits? {
        error := outcome.error;
      }
      var category := ShellCategory(outcome);
      r := before.(attempt := attempt);
      r := r.(history := r.history + [Attempt(attempt, if outcome.Exits? then Completed else Failed, category,
                                              retryable, exitCode, error, result.startedAt,
                                              Some(result.finishedAt))]);
      r := r.(stdout := outcome.stdout, stderr := outcome.stderr, exitCode := exitCode, error := error);
      r := r.(category := category, retryable := retryable, finishedAt := Some(result.finishedAt));
    }

    /** The retry loop of a read or a write. It always settles inside the loop. */
    method RunFileAction(draft: Record, maxAttempts: int, size: nat, run: int -> FileAttempt) returns (r: Record)
      requires Consistent(store.State()) && Draft(store.State(), draft)
      requires draft.kind != Shell && draft.attempt <= maxAttempts && draft.history == []
      requires Trim(draft.key) != [] ==> forall k :: k in store.files ==> !IsMatch(store.files, k, TagOf(draft))
      modifies store
      ensures var ran := Ran(draft, FileActions(maxAttempts, size, run));
              Possible(old(store.State()), ran) && store.State() == Carry(old(store.State()), ran) &&
                r == Settled(draft, ran.work)
    {
      ghost var start := store.State();
      ghost var all := start.effects + FileEffects(draft, draft.attempt, maxAttempts, size, run);
      ghost var work := FileActions(maxAttempts, size, run);
      assert Possible(start, Ran(draft, work));
      store.Save(draft);
      r := draft;
      var attempt := draft.attempt;
      while attempt <= maxAttempts
        invariant draft.attempt <= attempt <= maxAttempts
        invariant r.kind == draft.kind && r.startedAt == draft.startedAt
        invariant FileLoop(r, attempt, maxAttempts, size, run) == Settled(draft, work)
        invariant store.files == Execution.Save(start.files, draft)
        invariant store.effects + FileEffects(draft, attempt, maxAttempts, size, run) == all
        decreases maxAttempts - attempt
      {
        var result := run(attempt);
        FileEffectsInTurn(store.effects, draft, attempt, maxAttempts, size, run);
        var outcome := result.outcome;
        store.effects := store.effects + FileEffect(draft, attempt, outcome, size);
        if outcome.Done? {
          r := r.(attempt := attempt, finishedAt := Some(result.finishedAt));
          r := r.(history := r.history + [Attempt(attempt, Completed, NoFailure, false, 0, [], r.startedAt,
            Some(result.finishedAt))]);
          r := r.(status := Completed, stdout := FileReport(r.kind, outcome.data, size));
          r := r.(retryable := false, error := [], category := NoFailure);
          assert r == Settled(draft, work);
          assert store.effects == all;
          Settle(r, start, draft, work);
          return;
        }
        var again := outcome.transient && ShouldRetry(r.kind, IoError, attempt, maxAttempts);
        r := RecordFailure(r, attempt, result, again);
        if !again {
          assert r == Settled(draft, work);
          assert store.effects == all;
          Settle(r, start, draft, work);
          return;
        }
        attempt := attempt + 1;
      }
      assert false;
    }

    /** The record after a failed attempt, which counts as retryable only if it is tried again. */
    method RecordFailure(before: Record, attempt: int, result: FileAttempt, again: bool) returns (r: Record)
      requires result.outcome.IoFailure? && (again ==> result.outcome.transient)
      ensures r == before.(attempt := attempt, history := before.history + [FileTried(before, attempt, result, again)],
                           finishedAt := Some(result.finishedAt), status := Failed, error := result.outcome.error,
                           category := IoError, retryable := again)
    {
      var outcome := result.outcome;
      r := before.(attempt := attempt, finishedAt := Some(result.finishedAt));
      var tried := Attempt(attempt, Failed, IoError, outcome.transient, 0, outcome.error, r.startedAt,
        Some(result.finishedAt));
      var history := r.history;
      r := r.(history := history + [tried], status := Failed, error := outcome.error, category := IoError);
      r := r.(retryable := outcome.transient);
      if !again {
        r := r.(retryable := false, history := history + [tried.(retryable := false)]);
      }
    }

    /** Moves the record to the directory it settled in. */
    method Settle(r: Record, ghost start: Plane, ghost draft: Record, ghost work: Work)
      requires Fits(draft, work) && r == Settled(draft, work)
      requires store.files == Execution.Save(start.files, draft) &&
        store.effects == start.effects + Effects(draft, work)
      modifies store
      ensures store.State() == Carry(start, Ran(draft, work))
    {
      AtMostOneAttemptSucceeds(draft, work);
      store.Move(r, r.status);
      store.clock := r.id + 1;
    }

    method ReplayOrRunCommand(draft: Record, maxAttempts: int, clock: Clock, run: int -> ShellAttempt)
      returns (r: Record, ghost carried: Carried)
      requires Consistent(store.State()) && Draft(store.State(), draft) && draft.kind == Shell && draft.history == []
      modifies store
      ensures Consistent(store.State()) && carried.draft == draft
      ensures Answered(old(store.State()), carried, store.State(), r)
      ensures carried.Ran? ==> carried.work == Commands(NormalizeMaxAttempts(maxAttempts, draft.attempt), run)
    {
      var replayed, replaying := Replay(draft, clock);
      if replayed.Some? {
        return replayed.value, replaying.value;
      }
      var settled := RunCommand(draft, NormalizeMaxAttempts(maxAttempts, draft.attempt), run);
      carried := Ran(draft, Commands(NormalizeMaxAttempts(maxAttempts, draft.attempt), run));
      AnsweredByRunning(old(store.State()), draft, carried.work);
      return settled, carried;
    }

    method ReplayOrRunFile(draft: Record, maxAttempts: int, size: nat, clock: Clock, run: int -> FileAttempt)
      returns (r: Record, ghost carried: Carried)
      requires Consistent(store.State()) && Draft(store.State(), draft) && draft.kind != Shell && draft.history == []
      modifies store
      ensures Consistent(store.State()) && carried.draft == draft
      ensures Answered(old(store.State()), carried, store.State(), r)
      ensures carried.Ran? ==> carried.work == FileActions(NormalizeMaxAttempts(maxAttempts, draft.attempt), size, run)
    {
      var replayed, replaying := Replay(draft, clock);
      if replayed.Some? {
        return replayed.value, replaying.value;
      }
      var settled := RunFileAction(draft, NormalizeMaxAttempts(maxAttempts, draft.attempt), size, run);
      carried := Ran(draft, FileActions(NormalizeMaxAttempts(maxAttempts, draft.attempt), size, run));
      AnsweredByRunning(old(store.State()), draft, carried.work);
      return settled, carried;
    }

    /**
     `resolved` is what resolving the command and the work directory gave, and `run` how attempt number n
     ends in the outside world. `carried` says how the request was answered.
     */
    method ExecuteShell(req: ShellRequest, resolved: Option<(Text, Text)>, clock: Clock, run: int -> ShellAttempt)
      returns (r: Result<Record, ExecutionError>, ghost carried: Option<Carried>, ghost met: Option<nat>)
      requires Valid() && store.clock <= clock.id
      modifies this, store, approvals
      ensures Valid()
      ensures r.Err? ==> store.State() == old(store.State())
      ensures r.Ok? ==> Trim(req.command) != [] && resolved.Some?
      ensures r.Err? && r.error == InvalidInput <==> Trim(req.command) == []
      ensures r.Err? && r.error == Unresolved ==> resolved.None?
      ensures if Trim(req.command) == [] then GateState() == old(GateState()) else
                var (allowed, gate) := Approvals.Authorize(old(GateState()), Profile(req.common),
                                                           req.common.approvalToken, clock.startedAt, met);
                GateState() == gate && (r.Err? && r.error == Denied <==> !allowed)
      ensures r.Ok? ==> carried.Some? && Answered(old(store.State()), carried.value, store.State(), r.value)
      ensures r.Ok? ==>
                var draft := ShellDraft(req, resolved.value.0, resolved.value.1, digest, clock);
                && carried.value.draft == draft
                && (carried.value.Ran? ==>
                     carried.value.work == Commands(NormalizeMaxAttempts(req.common.maxAttempts, draft.attempt), run))
    {
      carried, met := None, None;
      if Trim(req.command) == [] {
        return Err(InvalidInput), None, None;
      }
      var profile := FirstNonEmpty(req.common.profile, "user");
      var allowed;
      allowed, met := AuthorizeProfile(profile, req.common.approvalToken, clock.startedAt);
      if !allowed {
        return Err(Denied), None, met;
      }
      if resolved.None? {
        return Err(Unresolved), None, met;
      }
      var draft := ShellDraft(req, resolved.value.0, resolved.value.1, digest, clock);
      FingerprintsAreTrimmed(digest, ShellParts(req, resolved.value.0, resolved.value.1));
      var record, how := ReplayOrRunCommand(draft, req.common.maxAttempts, clock, run);
      return Ok(record), Some(how), met;
    }

    /** A read or a write of a file, answered in the same way. */
    method ExecuteFile(req: FileRequest, resolved: Option<Text>, clock: Clock, run: int -> FileAttempt)
      returns (r: Result<Record, ExecutionError>, ghost carried: Option<Carried>, ghost met: Option<nat>)
      requires Valid() && store.clock <= clock.id && req.kind != Shell
      modifies this, store, approvals
      ensures Valid()
      ensures r.Err? ==> store.State() == old(store.State())
      ensures r.Ok? ==> Trim(req.path) != [] && resolved.Some?
      ensures r.Err? && r.error == InvalidInput <==> Trim(req.path) == []
      ensures r.Err? && r.error == Unresolved ==> resolved.None?
      ensures if Trim(req.path) == [] then GateState() == old(GateState()) else
                var (allowed, gate) := Approvals.Authorize(old(GateState()), Profile(req.common),
                                                           req.common.approvalToken, clock.startedAt, met);
                GateState() == gate && (r.Err? && r.error == Denied <==> !allowed)
      ensures r.Ok? ==> carried.Some? && Answered(old(store.State()), carried.value, store.State(), r.value)
      ensures r.Ok? ==>
                var draft := FileDraft(req, resolved.value, digest, clock);
                && carried.value.draft == draft
                && (carried.value.Ran? ==>
                     carried.value.work ==
                       FileActions(NormalizeMaxAttempts(req.common.maxAttempts, draft.attempt), |req.content|, run))
    {
      carried, met := None, None;
      if Trim(req.path) == [] {
        return Err(InvalidInput), None, None;
      }
      var profile := FirstNonEmpty(req.common.profile, "user");
      var allowed;
      allowed, met := AuthorizeProfile(profile, req.common.approvalToken, clock.startedAt);
      if !allowed {
        return Err(Denied), None, met;
      }
      if resolved.None? {
        return Err(Unresolved), None, met;
      }
      var draft := FileDraft(req, resolved.value, digest, clock);
      FileDraftIsTrimmed(req, resolved.value, digest, clock);
      var record, how := ReplayOrRunFile(draft, req.common.maxAttempts, |req.content|, clock, run);
      return Ok(record), Some(how), met;
    }
  }
}
