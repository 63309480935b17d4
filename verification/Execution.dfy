/** Actions, their bounded retry loops, and replay by idempotency key. */
module Execution {
  import opened Prelude
  import opened Strings

  type Time = nat

  datatype Kind = Shell | FileRead | FileWrite
  datatype Status = Pending | Running | Completed | Failed
  datatype Category = NoFailure | Timeout | ProcessExit | IoError | ExecutionError

  datatype Attempt = Attempt(
    number: int, status: Status, category: Category, retryable: bool, exitCode: int, error: Text,
    startedAt: Time, finishedAt: Option<Time>)

  datatype Record = Record(
    id: nat, taskId: Text, kind: Kind, status: Status, profile: Text, command: Text, args: seq<Text>, path: Text,
    workdir: Text, changedFiles: seq<Text>, fingerprint: Text, attempt: int, history: seq<Attempt>, key: Text,
    replayed: bool, replayOf: Option<nat>, retryable: bool, category: Category, stdout: Text, stderr: Text,
    exitCode: int, error: Text, startedAt: Time, finishedAt: Option<Time>)

  // ----- Attempts -----

  /** How one run of a command ends, in the outside world. */
  datatype ShellOutcome =
    | Exits(stdout: Text, stderr: Text)
    | TimesOut(stdout: Text, stderr: Text, error: Text)
    | Fails(stdout: Text, stderr: Text, error: Text, exitCode: int)
    | CannotRun(stdout: Text, stderr: Text, error: Text)

  datatype ShellAttempt = ShellAttempt(outcome: ShellOutcome, startedAt: Time, finishedAt: Time)

  /** How one read or write of a file ends. */
  datatype FileOutcome = Done(data: Text) | IoFailure(transient: bool, error: Text)

  datatype FileAttempt = FileAttempt(outcome: FileOutcome, finishedAt: Time)

  function NormalizeAttempt(explicit: int, fromMetadata: Option<int>): (n: int)
    ensures n >= 1
  {
    if explicit > 0 then explicit
    else if fromMetadata.Some? && fromMetadata.value > 0 then fromMetadata.value
    else 1
  }

  function NormalizeMaxAttempts(explicit: int, attempt: int): (n: int)
    ensures n >= attempt && n >= 1
  {
    if explicit > 0 then (if explicit < attempt then attempt else explicit)
    else if attempt <= 0 then 1
    else attempt
  }

  predicate ShouldRetry(kind: Kind, category: Category, attempt: int, maxAttempts: int) {
    attempt < maxAttempts && category == (if kind == Shell then Timeout else IoError)
  }

  function ShellCategory(o: ShellOutcome): Category {
    match o
    case Exits(_, _) => NoFailure
    case TimesOut(_, _, _) => Timeout
    case Fails(_, _, _, _) => ProcessExit
    case CannotRun(_, _, _) => ExecutionError
  }

  function Succeeded(r: Record): Record {
    r.(status := Completed, retryable := false, error := [], category := NoFailure)
  }

  /** The record after one attempt of a command, before its status is settled. */
  function AfterShell(r: Record, n: int, a: ShellAttempt): Record {
    var o := a.outcome;
    var exitCode := if o.Fails? then o.exitCode else 0;
    var error := if o.Exits? then [] else o.error;
    var tried := Attempt(n, if o.Exits? then Completed else Failed, ShellCategory(o), o.TimesOut?, exitCode, error,
                         a.startedAt, Some(a.finishedAt));
    r.(attempt := n, history := r.history + [tried], stdout := o.stdout, stderr := o.stderr, exitCode := exitCode,
       error := error, category := ShellCategory(o), retryable := o.TimesOut?, finishedAt := Some(a.finishedAt))
  }

  /** The settled record of the retry loop of a command. */
  function ShellLoop(r: Record, n: int, maxAttempts: int, run: int -> ShellAttempt): Record
    requires n <= maxAttempts
    decreases maxAttempts - n
  {
    var after := AfterShell(r, n, run(n));
    if run(n).outcome.Exits? then Succeeded(after)
    else if !ShouldRetry(Shell, ShellCategory(run(n).outcome), n, maxAttempts) then after.(status := Failed)
    else ShellLoop(after, n + 1, maxAttempts, run)
  }

  /** What a completed file action reports: the data read, or how much was written. */
  function FileReport(kind: Kind, data: Text, size: nat): Text {
    if kind == FileWrite then "wrote " + Decimal(size) + " bytes" else data
  }

  function FileTried(r: Record, n: int, a: FileAttempt, retryable: bool): Attempt {
    match a.outcome
    case Done(_) => Attempt(n, Completed, NoFailure, false, 0, [], r.startedAt, Some(a.finishedAt))
    case IoFailure(_, error) => Attempt(n, Failed, IoError, retryable, 0, error, r.startedAt, Some(a.finishedAt))
  }

  predicate FileRetries(kind: Kind, o: FileOutcome, n: int, maxAttempts: int) {
    o.IoFailure? && o.transient && ShouldRetry(kind, IoError, n, maxAttempts)
  }

  /** The settled record of the retry loop of a file action. */
  function FileLoop(r: Record, n: int, maxAttempts: int, size: nat, run: int -> FileAttempt): Record
    requires n <= maxAttempts
    decreases maxAttempts - n
  {
    var a := run(n);
    var retries := FileRetries(r.kind, a.outcome, n, maxAttempts);
    var after := r.(attempt := n, history := r.history + [FileTried(r, n, a, retries)],
      finishedAt := Some(a.finishedAt));
    match a.outcome
    case Done(data) => Succeeded(after.(stdout := FileReport(r.kind, data, size)))
    case IoFailure(_, error) =>
      var failed := after.(status := Failed, error := error, category := IoError, retryable := retries);
      if retries then FileLoop(failed, n + 1, maxAttempts, size, run) else failed
  }

  /** The failure category that each kind retries. */
  function RetryCategory(kind: Kind): Category {
    if kind == Shell then Timeout else IoError
  }

  /**
   The attempts after the first `base` entries: numbered consecutively from `first`, at least one and at
   most up to `last`, all but the final one failed in the retryable category, the final one as settled.
   */
  predicate Attempted(kind: Kind, history: seq<Attempt>, base: nat, first: int, last: int, settled: Record) {
    && base < |history| <= base + (last - first + 1)
    && (forall i :: base <= i < |history| ==> history[i].number == first + (i - base))
    && (forall i :: base <= i < |history| - 1 ==>
         history[i].status == Failed && history[i].retryable && history[i].category == RetryCategory(kind))
    && (settled.status == Completed || settled.status == Failed)
    && Last(history).status == settled.status && Last(history).category == settled.category
    && settled.attempt == Last(history).number && settled.history == history
  }

  /** What a retry loop leaves alone. */
  predicate SameAction(a: Record, b: Record) {
    a.id == b.id && a.taskId == b.taskId && a.kind == b.kind && a.profile == b.profile && a.command == b.command &&
    a.args == b.args && a.path == b.path && a.workdir == b.workdir && a.changedFiles == b.changedFiles &&
    a.fingerprint == b.fingerprint && a.key == b.key && a.replayed == b.replayed && a.replayOf == b.replayOf &&
    a.startedAt == b.startedAt
  }

  predicate EndsWith(h: Attempt, status: Status, category: Category, exitCode: int, error: Text, retryable: bool) {
    h.status == status && h.category == category && h.exitCode == exitCode && h.error == error &&
      h.retryable == retryable
  }

  /** The entry of an attempt of a command says how it ended. */
  predicate Tells(h: Attempt, a: ShellAttempt) {
    && h.startedAt == a.startedAt && h.finishedAt == Some(a.finishedAt)
    && match a.outcome
       case Exits(_, _) => EndsWith(h, Completed, NoFailure, 0, [], false)
       case TimesOut(_, _, error) => EndsWith(h, Failed, Timeout, 0, error, true)
       case Fails(_, _, error, code) => EndsWith(h, Failed, ProcessExit, code, error, false)
       case CannotRun(_, _, error) => EndsWith(h, Failed, ExecutionError, 0, error, false)
  }

  /** The entry of an attempt of a file action does, too, and whether it was tried again. */
  predicate TellsFile(h: Attempt, startedAt: Time, a: FileAttempt, again: bool) {
    && h.startedAt == startedAt && h.finishedAt == Some(a.finishedAt)
    && match a.outcome
       case Done(_) => EndsWith(h, Completed, NoFailure, 0, [], again)
       case IoFailure(_, error) => EndsWith(h, Failed, IoError, 0, error, again)
  }

  /** The settled record says what the last entry of its history says. */
  predicate EndsAs(r: Record, last: Attempt) {
    && EndsWith(last, r.status, r.category, r.exitCode, r.error, r.retryable)
    && r.attempt == last.number && r.finishedAt == last.finishedAt
  }

  lemma RetryAttempted(kind: Kind, history: seq<Attempt>, base: nat, first: int, last: int, settled: Record)
    requires Attempted(kind, history, base + 1, first + 1, last, settled)
    requires history[base].number == first && history[base].status == Failed && history[base].retryable
    requires history[base].category == RetryCategory(kind)
    ensures Attempted(kind, history, base, first, last, settled)
  {
  }

  lemma {:induction false} ShellLoopAttempts(r: Record, n: int, maxAttempts: int, run: int -> ShellAttempt)
    requires n <= maxAttempts
    ensures var settled := ShellLoop(r, n, maxAttempts, run);
            && Attempted(Shell, settled.history, |r.history|, n, maxAttempts, settled)
            && SameAction(r, settled)
            && r.history <= settled.history
            && (settled.status == Completed <==> run(settled.attempt).outcome.Exits?)
            && settled.stdout == run(settled.attempt).outcome.stdout
            && settled.stderr == run(settled.attempt).outcome.stderr
            && (settled.status == Completed ==> settled.exitCode == 0 && settled.error == [] && !settled.retryable)
    decreases maxAttempts - n
  {
    var after := AfterShell(r, n, run(n));
    if !run(n).outcome.Exits? && ShouldRetry(Shell, ShellCategory(run(n).outcome), n, maxAttempts) {
      ShellLoopAttempts(after, n + 1, maxAttempts, run);
      var settled := ShellLoop(after, n + 1, maxAttempts, run);
      assert settled.history[|r.history|] == after.history[|r.history|];
    }
  }

  /**
   Attempts number `first` and on were made of a command, at least one, as long as they timed out and `last` allowed
   another. The history after `base` entries tells what happened in each of them, and the record says it of the last.
   */
  ghost predicate TriedCommand(r: Record, base: nat, first: int, last: int, run: int -> ShellAttempt) {
    && first <= r.attempt <= last && |r.history| == base + r.attempt - first + 1
    && (forall n :: first <= n < r.attempt ==> run(n).outcome.TimesOut?)
    && (r.attempt == last || !run(r.attempt).outcome.TimesOut?)
    && (forall i :: base <= i < |r.history| ==>
         r.history[i].number == first + i - base && Tells(r.history[i], run(first + i - base)))
    && EndsAs(r, Last(r.history))
    && r.stdout == run(r.attempt).outcome.stdout && r.stderr == run(r.attempt).outcome.stderr
  }

  lemma {:induction false} ShellLoopStops(r: Record, n: int, maxAttempts: int, run: int -> ShellAttempt)
    requires n <= maxAttempts
    ensures TriedCommand(ShellLoop(r, n, maxAttempts, run), |r.history|, n, maxAttempts, run)
    ensures r.history <= ShellLoop(r, n, maxAttempts, run).history
    decreases maxAttempts - n
  {
    if run(n).outcome.TimesOut? && n < maxAttempts {
      var after := AfterShell(r, n, run(n));
      ShellLoopStops(after, n + 1, maxAttempts, run);
      var settled := ShellLoop(after, n + 1, maxAttempts, run);
      assert settled.history[|r.history|] == Last(after.history);
      CommandTriedAgain(settled, |r.history|, n, maxAttempts, run);
    } else {
      LastCommandTells(r, n, maxAttempts, run);
    }
  }

  lemma CommandTriedAgain(r: Record, base: nat, first: int, last: int, run: int -> ShellAttempt)
    requires TriedCommand(r, base + 1, first + 1, last, run) && run(first).outcome.TimesOut?
    requires r.history[base].number == first && Tells(r.history[base], run(first))
    ensures TriedCommand(r, base, first, last, run)
  {
  }

  lemma LastCommandTells(r: Record, n: int, maxAttempts: int, run: int -> ShellAttempt)
    requires n <= maxAttempts && (n == maxAttempts || !run(n).outcome.TimesOut?)
    ensures TriedCommand(ShellLoop(r, n, maxAttempts, run), |r.history|, n, maxAttempts, run)
    ensures r.history <= ShellLoop(r, n, maxAttempts, run).history
  {
    var settled := ShellLoop(r, n, maxAttempts, run);
    assert Tells(Last(settled.history), run(n));
  }

  /** The record after a failed attempt of a file action that is tried again. */
  function AfterFailure(r: Record, n: int, a: FileAttempt): Record
    requires a.outcome.IoFailure?
  {
    r.(attempt := n, history := r.history + [FileTried(r, n, a, true)], finishedAt := Some(a.finishedAt),
       status := Failed, error := a.outcome.error, category := IoError, retryable := true)
  }

  lemma FileLoopRetries(r: Record, n: int, maxAttempts: int, size: nat, run: int -> FileAttempt)
    requires n <= maxAttempts && FileRetries(r.kind, run(n).outcome, n, maxAttempts)
    ensures run(n).outcome.IoFailure? && n < maxAttempts
    ensures FileLoop(r, n, maxAttempts, size, run) ==
            FileLoop(AfterFailure(r, n, run(n)), n + 1, maxAttempts, size, run)
  {
  }

  lemma {:induction false} FileLoopAttempts(r: Record, n: int, maxAttempts: int, size: nat, run: int -> FileAttempt)
    requires n <= maxAttempts && r.kind != Shell
    ensures var settled := FileLoop(r, n, maxAttempts, size, run);
            && Attempted(r.kind, settled.history, |r.history|, n, maxAttempts, settled)
            && SameAction(r, settled)
            && r.history <= settled.history
            && !Last(settled.history).retryable && !settled.retryable
            && (settled.status == Completed <==> run(settled.attempt).outcome.Done?)
            && (settled.status == Completed ==>
                 settled.stdout == FileReport(r.kind, run(settled.attempt).outcome.data, size) && settled.error == [])
            && settled.stderr == r.stderr && settled.exitCode == r.exitCode
    decreases maxAttempts - n
  {
    var a := run(n);
    if FileRetries(r.kind, a.outcome, n, maxAttempts) {
      FileLoopRetries(r, n, maxAttempts, size, run);
      var next := AfterFailure(r, n, a);
      FileLoopAttempts(next, n + 1, maxAttempts, size, run);
      var settled := FileLoop(next, n + 1, maxAttempts, size, run);
      assert settled.history[|r.history|] == next.history[|r.history|];
      RetryAttempted(r.kind, settled.history, |r.history|, n, maxAttempts, settled);
    } else {
      LastFileAttempt(r, n, maxAttempts, size, run);
    }
  }

  /** The same of a read or a write of `size` bytes, which is tried again if it fails in passing. */
  ghost predicate TriedFile(r: Record, base: nat, first: int, last: int, size: nat, run: int -> FileAttempt) {
    && first <= r.attempt <= last && |r.history| == base + r.attempt - first + 1
    && (forall n :: first <= n < r.attempt ==> Passing(run(n).outcome))
    && (r.attempt == last || !Passing(run(r.attempt).outcome))
    && (forall i :: base <= i < |r.history| ==>
         && r.history[i].number == first + i - base
         && TellsFile(r.history[i], r.startedAt, run(first + i - base), i < |r.history| - 1))
    && EndsAs(r, Last(r.history))
    && (run(r.attempt).outcome.Done? ==>
         r.stdout == if r.kind == FileWrite then "wrote " + Decimal(size) + " bytes" else run(r.attempt).outcome.data)
  }

  lemma {:induction false} FileLoopStops(r: Record, n: int, maxAttempts: int, size: nat, run: int -> FileAttempt)
    requires n <= maxAttempts && r.kind != Shell && r.exitCode == 0
    ensures TriedFile(FileLoop(r, n, maxAttempts, size, run), |r.history|, n, maxAttempts, size, run)
    ensures SameAction(r, FileLoop(r, n, maxAttempts, size, run))
    ensures r.history <= FileLoop(r, n, maxAttempts, size, run).history
    decreases maxAttempts - n
  {
    var a := run(n);
    if Passing(a.outcome) && n < maxAttempts {
      FileLoopRetries(r, n, maxAttempts, size, run);
      var next := AfterFailure(r, n, a);
      FileLoopStops(next, n + 1, maxAttempts, size, run);
      var settled := FileLoop(next, n + 1, maxAttempts, size, run);
      assert settled.history[|r.history|] == Last(next.history);
      FileTriedAgain(settled, |r.history|, n, maxAttempts, size, run);
    } else {
      LastFileTells(r, n, maxAttempts, size, run);
    }
  }

  lemma FileTriedAgain(r: Record, base: nat, first: int, last: int, size: nat, run: int -> FileAttempt)
    requires TriedFile(r, base + 1, first + 1, last, size, run) && Passing(run(first).outcome)
    requires r.history[base].number == first && TellsFile(r.history[base], r.startedAt, run(first), true)
    ensures TriedFile(r, base, first, last, size, run)
  {
  }

  lemma LastFileTells(r: Record, n: int, maxAttempts: int, size: nat, run: int -> FileAttempt)
    requires n <= maxAttempts && r.kind != Shell && r.exitCode == 0 && (n == maxAttempts || !Passing(run(n).outcome))
    ensures var settled := FileLoop(r, n, maxAttempts, size, run);
            && settled.attempt == n && |settled.history| == |r.history| + 1 && r.history <= settled.history
            && TellsFile(Last(settled.history), r.startedAt, run(n), false) && EndsAs(settled, Last(settled.history))
            && Last(settled.history).number == n && SameAction(r, settled)
            && (run(n).outcome.Done? ==>
                 settled.stdout == if r.kind == FileWrite then "wrote " + Decimal(size) + " bytes"
                                   else run(n).outcome.data)
  {
    LastFileAttempt(r, n, maxAttempts, size, run);
  }

  predicate Passing(o: FileOutcome) {
    o.IoFailure? && o.transient
  }

  lemma LastFileAttempt(r: Record, n: int, maxAttempts: int, size: nat, run: int -> FileAttempt)
    requires n <= maxAttempts && r.kind != Shell && !FileRetries(r.kind, run(n).outcome, n, maxAttempts)
    ensures var settled := FileLoop(r, n, maxAttempts, size, run);
            && settled.history == r.history + [FileTried(r, n, run(n), false)] && settled.attempt == n
            && SameAction(r, settled) && !settled.retryable
            && (settled.status == Completed <==> run(n).outcome.Done?)
            && (settled.status == Completed ==>
                 && settled.stdout == FileReport(r.kind, run(n).outcome.data, size) && settled.error == []
                 && settled.category == NoFailure)
            && (settled.status != Completed ==> settled.status == Failed && settled.category == IoError)
            && settled.stderr == r.stderr && settled.exitCode == r.exitCode
  {
  }

  // ----- The store -----

  type Files = map<(Status, nat), Record>

  function Find(files: Files, id: nat): Option<Status> {
    if (Pending, id) in files then Some(Pending)
    else if (Running, id) in files then Some(Running)
    else if (Completed, id) in files then Some(Completed)
    else if (Failed, id) in files then Some(Failed)
    else None
  }

  function Save(files: Files, r: Record): Files {
    files[(r.status, r.id) := r]
  }

  /** Moving a record to a status: the file found first is deleted and its start time kept. */
  function Move(files: Files, r: Record, status: Status): Files {
    match Find(files, r.id)
    case None => Save(files, r.(status := status))
    case Some(s) => Save(files - {(s, r.id)}, r.(status := status, startedAt := files[(s, r.id)].startedAt))
  }

  /** What a replay has to agree on. */
  datatype Tag = Tag(kind: Kind, profile: Text, key: Text, fingerprint: Text)

  function TagOf(r: Record): Tag {
    Tag(r.kind, r.profile, Trim(r.key), r.fingerprint)
  }

  predicate IsMatch(files: Files, k: (Status, nat), tag: Tag) {
    k in files && k.0 == Completed && TagOf(files[k]) == tag
  }

  /** The completed record replayed for a tag: a match that no match started after. */
  ghost predicate Newest(files: Files, k: (Status, nat), tag: Tag) {
    IsMatch(files, k, tag) && forall j :: j in files && IsMatch(files, j, tag) ==>
      files[j].startedAt <= files[k].startedAt
  }

  function FirstNonEmptySlice<T>(a: seq<T>, b: seq<T>): seq<T> {
    if |a| > 0 then a else b
  }

  /** The record saved for a request that repeats a completed one. */
  function ReplayOf(draft: Record, original: Record, startedAt: Time, finishedAt: Time): Record {
    draft.(status := Completed, replayed := true, replayOf := Some(original.id),
           command := FirstNonEmpty(draft.command, original.command),
           args := FirstNonEmptySlice(draft.args, original.args),
           path := FirstNonEmpty(draft.path, original.path),
           workdir := FirstNonEmpty(draft.workdir, original.workdir),
           changedFiles := FirstNonEmptySlice(draft.changedFiles, original.changedFiles),
           stdout := original.stdout, stderr := original.stderr, exitCode := original.exitCode,
           startedAt := startedAt, finishedAt := Some(finishedAt),
           history := [Attempt(draft.attempt, Completed, NoFailure, false, 0, [], startedAt, Some(finishedAt))])
  }

  // ----- Runs -----

  /** An attempt that succeeded in the outside world, with what it produced. */
  datatype Effect = Effect(tag: Tag, id: nat, attempt: int, stdout: Text, stderr: Text, exitCode: int)

  /** The record files, the effects so far, and the least clock reading not yet used for an id. */
  datatype Plane = Plane(files: Files, effects: seq<Effect>, clock: nat)

  const EMPTY := Plane(map[], [], 0)

  /** A request as it enters the store: running, new, not a replay. */
  predicate Draft(p: Plane, r: Record) {
    r.status == Running && !r.replayed && r.replayOf == None && p.clock <= r.id && r.fingerprint != [] &&
      Trimmed(r.fingerprint)
  }

  /** What the retry loop of a request tries: how attempt number n ends, and the last number it may reach. */
  datatype Work =
    | Commands(maxAttempts: int, commands: int -> ShellAttempt)
    | FileActions(maxAttempts: int, size: nat, actions: int -> FileAttempt)

  /** One request carried through: replayed from a completed record, or run. */
  datatype Carried =
    | Replayed(draft: Record, original: (Status, nat), startedAt: Time, finishedAt: Time)
    | Ran(draft: Record, work: Work)

  predicate Fits(draft: Record, work: Work) {
    draft.attempt <= work.maxAttempts && draft.history == [] && (work.Commands? <==> draft.kind == Shell)
  }

  function Settled(draft: Record, work: Work): Record
    requires Fits(draft, work)
  {
    match work
    case Commands(maxAttempts, run) => ShellLoop(draft, draft.attempt, maxAttempts, run)
    case FileActions(maxAttempts, size, run) => FileLoop(draft, draft.attempt, maxAttempts, size, run)
  }

  /** What attempt number `n` of a command does in the outside world. */
  function ShellEffect(r: Record, n: int, o: ShellOutcome): seq<Effect> {
    if o.Exits? then [Effect(TagOf(r), r.id, n, o.stdout, o.stderr, 0)] else []
  }

  /** The successes among the attempts that the retry loop of a command makes. */
  function ShellEffects(r: Record, n: int, maxAttempts: int, run: int -> ShellAttempt): seq<Effect>
    requires n <= maxAttempts
    decreases maxAttempts - n
  {
    var o := run(n).outcome;
    ShellEffect(r, n, o) +
    if !o.Exits? && ShouldRetry(Shell, ShellCategory(o), n, maxAttempts) then ShellEffects(r, n + 1, maxAttempts, run)
      else []
  }

  function FileEffect(r: Record, n: int, o: FileOutcome, size: nat): seq<Effect> {
    if o.Done? then [Effect(TagOf(r), r.id, n, FileReport(r.kind, o.data, size), r.stderr, r.exitCode)] else []
  }

  function FileEffects(r: Record, n: int, maxAttempts: int, size: nat, run: int -> FileAttempt): seq<Effect>
    requires n <= maxAttempts
    decreases maxAttempts - n
  {
    var o := run(n).outcome;
    FileEffect(r, n, o, size) +
    if FileRetries(r.kind, o, n, maxAttempts) then FileEffects(r, n + 1, maxAttempts, size, run) else []
  }

  function Effects(draft: Record, work: Work): seq<Effect>
    requires Fits(draft, work)
  {
    match work
    case Commands(maxAttempts, run) => ShellEffects(draft, draft.attempt, maxAttempts, run)
    case FileActions(maxAttempts, size, run) => FileEffects(draft, draft.attempt, maxAttempts, size, run)
  }

  /** The success that a completed record shows. */
  function Shown(r: Record): seq<Effect> {
    if r.status == Completed then [Effect(TagOf(r), r.id, r.attempt, r.stdout, r.stderr, r.exitCode)] else []
  }

  lemma {:induction false} ShellLoopEffects(r: Record, n: int, maxAttempts: int, run: int -> ShellAttempt)
    requires n <= maxAttempts
    ensures ShellEffects(r, n, maxAttempts, run) == Shown(ShellLoop(r, n, maxAttempts, run))
    decreases maxAttempts - n
  {
    var o := run(n).outcome;
    if !o.Exits? && ShouldRetry(Shell, ShellCategory(o), n, maxAttempts) {
      var after := AfterShell(r, n, run(n));
      ShellLoopEffects(after, n + 1, maxAttempts, run);
      ShellEffectsOfSame(r, after, n + 1, maxAttempts, run);
    }
  }

  lemma {:induction false} ShellEffectsOfSame(a: Record, b: Record, n: int, maxAttempts: int, run: int -> ShellAttempt)
    requires n <= maxAttempts && TagOf(a) == TagOf(b) && a.id == b.id
    ensures ShellEffects(a, n, maxAttempts, run) == ShellEffects(b, n, maxAttempts, run)
    decreases maxAttempts - n
  {
    if n < maxAttempts {
      ShellEffectsOfSame(a, b, n + 1, maxAttempts, run);
    }
  }

  lemma {:induction false} FileLoopEffects(r: Record, n: int, maxAttempts: int, size: nat, run: int -> FileAttempt)
    requires n <= maxAttempts
    ensures FileEffects(r, n, maxAttempts, size, run) == Shown(FileLoop(r, n, maxAttempts, size, run))
    decreases maxAttempts - n
  {
    var a := run(n);
    if FileRetries(r.kind, a.outcome, n, maxAttempts) {
      var next := r.(attempt := n, history := r.history + [FileTried(r, n, a, true)], finishedAt := Some(a.finishedAt),
                     status := Failed, error := a.outcome.error, category := IoError, retryable := true);
      FileLoopEffects(next, n + 1, maxAttempts, size, run);
      FileEffectsOfSame(r, next, n + 1, maxAttempts, size, run);
    }
  }

  lemma {:induction false} FileEffectsOfSame(a: Record, b: Record, n: int, maxAttempts: int, size: nat,
    run: int -> FileAttempt)
    requires n <= maxAttempts && TagOf(a) == TagOf(b) && a.id == b.id && a.kind == b.kind
    requires a.stderr == b.stderr && a.exitCode == b.exitCode
    ensures FileEffects(a, n, maxAttempts, size, run) == FileEffects(b, n, maxAttempts, size, run)
    decreases maxAttempts - n
  {
    if n < maxAttempts {
      FileEffectsOfSame(a, b, n + 1, maxAttempts, size, run);
    }
  }

  /**
   However often a request is tried, at most one of its attempts succeeds, and then the settled record is
   completed and shows that attempt; otherwise the record has failed.
   */
  lemma AtMostOneAttemptSucceeds(draft: Record, work: Work)
    requires Fits(draft, work)
    ensures var settled := Settled(draft, work);
            && Effects(draft, work) == Shown(settled) && |Effects(draft, work)| <= 1
            && Attempted(draft.kind, settled.history, 0, draft.attempt, work.maxAttempts, settled)
            && SameAction(draft, settled)
  {
    match work
    case Commands(maxAttempts, run) =>
      ShellLoopEffects(draft, draft.attempt, maxAttempts, run);
      ShellLoopAttempts(draft, draft.attempt, maxAttempts, run);
    case FileActions(maxAttempts, size, run) =>
      FileLoopEffects(draft, draft.attempt, maxAttempts, size, run);
      FileLoopAttempts(draft, draft.attempt, maxAttempts, size, run);
  }

  ghost predicate Possible(p: Plane, c: Carried) {
    match c
    case Replayed(draft, original, _, _) => Draft(p, draft) && Trim(draft.key) != [] &&
      Newest(p.files, original, TagOf(draft))
    case Ran(draft, work) =>
      && Draft(p, draft) && Fits(draft, work)
      && (Trim(draft.key) != [] ==> forall k :: k in p.files ==> !IsMatch(p.files, k, TagOf(draft)))
  }

  function Carry(p: Plane, c: Carried): Plane
    requires if c.Replayed? then c.original in p.files else Fits(c.draft, c.work)
  {
    match c
    case Replayed(draft, original, startedAt, finishedAt) =>
      p.(files := Save(p.files, ReplayOf(draft, p.files[original], startedAt, finishedAt)), clock := draft.id + 1)
    case Ran(draft, work) =>
      var settled := Settled(draft, work);
      Plane(Move(Save(p.files, draft), settled, settled.status), p.effects + Effects(draft, work), draft.id + 1)
  }

  /** Filed under its status and id, in no other directory; an original has a smaller id, is completed, and agrees. */
  ghost predicate Filed(p: Plane, k: (Status, nat))
    requires k in p.files
  {
    var r := p.files[k];
    && r.status == k.0 && r.id == k.1 && r.id < p.clock && Trimmed(r.fingerprint)
    && (forall s: Status :: s != k.0 ==> (s, k.1) !in p.files)
    && (r.replayed <==> r.replayOf.Some?)
    && (r.replayed ==> Trim(r.key) != [] && r.status == Completed && RepeatsOriginal(p, r))
  }

  predicate RepeatsOriginal(p: Plane, r: Record) {
    && r.replayOf.Some? && r.replayOf.value < r.id
    && var o := (Completed, r.replayOf.value);
       o in p.files && TagOf(p.files[o]) == TagOf(r) && SameOutput(p.files[o], r)
  }

  predicate SameOutput(a: Record, b: Record) {
    a.stdout == b.stdout && a.stderr == b.stderr && a.exitCode == b.exitCode
  }

  predicate Shows(r: Record, e: Effect) {
    TagOf(r) == e.tag && r.stdout == e.stdout && r.stderr == e.stderr && r.exitCode == e.exitCode
  }

  /** The record shows what some effect produced. */
  ghost predicate Reports(p: Plane, r: Record) {
    exists i :: 0 <= i < |p.effects| && Shows(r, p.effects[i])
  }

  /** No keyed effect happens twice. */
  ghost predicate NoneTwice(p: Plane) {
    forall i, j :: 0 <= i < j < |p.effects| && p.effects[i].tag.key != [] ==> p.effects[i].tag != p.effects[j].tag
  }

  /** Each keyed effect can be found again. */
  ghost predicate AllFindable(p: Plane) {
    forall i :: 0 <= i < |p.effects| && p.effects[i].tag.key != [] ==> Findable(p, p.effects[i].tag)
  }

  ghost predicate Findable(p: Plane, tag: Tag) {
    exists k :: k in p.files && IsMatch(p.files, k, tag)
  }

  /** Each completed record reports an effect. */
  ghost predicate AllReport(p: Plane) {
    forall k :: k in p.files && k.0 == Completed ==> Reports(p, p.files[k])
  }

  ghost predicate Consistent(p: Plane) {
    (forall k :: k in p.files ==> Filed(p, k)) && NoneTwice(p) && AllFindable(p) && AllReport(p)
  }

  /** The record a carried request ends in. */
  function Final(p: Plane, c: Carried): Record
    requires if c.Replayed? then c.original in p.files else Fits(c.draft, c.work)
  {
    match c
    case Replayed(draft, original, startedAt, finishedAt) => ReplayOf(draft, p.files[original], startedAt, finishedAt)
    case Ran(draft, work) => Settled(draft, work)
  }

  lemma IdsAreOld(p: Plane)
    requires Consistent(p)
    ensures forall k :: k in p.files ==> k.1 < p.clock
  {
    forall k | k in p.files
      ensures k.1 < p.clock
    {
      assert Filed(p, k);
    }
  }

  /** Carrying a request adds one file, under an id that no other file has, and removes none. */
  lemma CarryAddsOneFile(p: Plane, c: Carried)
    requires Consistent(p) && Possible(p, c)
    ensures var final := Final(p, c);
            && Carry(p, c).files == p.files[(final.status, final.id) := final]
            && final.id == c.draft.id && TagOf(final) == TagOf(c.draft)
            && forall k :: k in p.files ==> k.1 < final.id
  {
    IdsAreOld(p);
    if c.Ran? {
      AtMostOneAttemptSucceeds(c.draft, c.work);
      var saved := Save(p.files, c.draft);
      assert Find(saved, c.draft.id) == Some(Running);
      assert saved[(Running, c.draft.id)].startedAt == Settled(c.draft, c.work).startedAt;
      assert saved - {(Running, c.draft.id)} == p.files;
    }
  }

  lemma FiledStays(p: Plane, after: Plane, final: Record, k: (Status, nat))
    requires k in p.files && Filed(p, k) && k.1 < final.id && after.clock == final.id + 1
    requires after.files == p.files[(final.status, final.id) := final]
    ensures k in after.files && after.files[k] == p.files[k] && Filed(after, k)
  {
    var r := p.files[k];
    if r.replayed {
      assert RepeatsOriginal(after, r);
    }
  }

  lemma FinalIsFiled(p: Plane, c: Carried)
    requires Consistent(p) && Possible(p, c)
    ensures var final := Final(p, c);
            (final.status, final.id) in Carry(p, c).files && Filed(Carry(p, c), (final.status, final.id))
  {
    CarryAddsOneFile(p, c);
    if c.Ran? {
      AtMostOneAttemptSucceeds(c.draft, c.work);
    } else {
      assert Filed(p, c.original);
      assert RepeatsOriginal(Carry(p, c), Final(p, c));
    }
  }

  lemma FilesStayFiled(p: Plane, c: Carried)
    requires Consistent(p) && Possible(p, c)
    ensures forall k :: k in Carry(p, c).files ==> Filed(Carry(p, c), k)
  {
    CarryAddsOneFile(p, c);
    FinalIsFiled(p, c);
    forall k | k in p.files
      ensures k in Carry(p, c).files && Filed(Carry(p, c), k)
    {
      FiledStays(p, Carry(p, c), Final(p, c), k);
    }
  }

  /** A replay reports the effect its original reports; a run that succeeds reports the effect it adds. */
  lemma FinalReports(p: Plane, c: Carried)
    requires Consistent(p) && Possible(p, c) && Final(p, c).status == Completed
    ensures Reports(Carry(p, c), Final(p, c))
  {
    var after, final := Carry(p, c), Final(p, c);
    CarryAddsOneFile(p, c);
    if c.Replayed? {
      assert Reports(p, p.files[c.original]);
      var i :| 0 <= i < |p.effects| && Shows(p.files[c.original], p.effects[i]);
      assert Shows(final, after.effects[i]);
    } else {
      AtMostOneAttemptSucceeds(c.draft, c.work);
      assert after.effects == p.effects + Shown(final);
      assert Shows(final, after.effects[|p.effects|]);
    }
  }

  lemma EffectsStayDistinct(p: Plane, c: Carried)
    requires Consistent(p) && Possible(p, c)
    ensures NoneTwice(Carry(p, c))
  {
    var effects := Carry(p, c).effects;
    if c.Ran? {
      AtMostOneAttemptSucceeds(c.draft, c.work);
    }
    forall i, j | 0 <= i < j < |effects| && effects[i].tag.key != []
      ensures effects[i].tag != effects[j].tag
    {
      if j == |p.effects| {
        assert c.Ran? && effects[j] == Shown(Settled(c.draft, c.work))[0];
        assert Findable(p, p.effects[i].tag);
      }
    }
  }

  lemma FindableStays(p: Plane, after: Plane, tag: Tag)
    requires Findable(p, tag) && forall k :: k in p.files ==> k in after.files && after.files[k] == p.files[k]
    ensures Findable(after, tag)
  {
    var k :| k in p.files && IsMatch(p.files, k, tag);
    assert k in after.files && IsMatch(after.files, k, tag);
  }

  lemma EffectsStayFindable(p: Plane, c: Carried)
    requires Consistent(p) && Possible(p, c)
    ensures AllFindable(Carry(p, c))
  {
    var after, final := Carry(p, c), Final(p, c);
    CarryAddsOneFile(p, c);
    if c.Ran? {
      AtMostOneAttemptSucceeds(c.draft, c.work);
    }
    forall i | 0 <= i < |after.effects| && after.effects[i].tag.key != []
      ensures Findable(after, after.effects[i].tag)
    {
      if i < |p.effects| {
        assert Findable(p, p.effects[i].tag);
        FindableStays(p, after, p.effects[i].tag);
      } else {
        assert IsMatch(after.files, (Completed, final.id), after.effects[i].tag);
      }
    }
  }

  lemma RecordsStayReporting(p: Plane, c: Carried)
    requires Consistent(p) && Possible(p, c)
    ensures AllReport(Carry(p, c))
  {
    var after, final := Carry(p, c), Final(p, c);
    CarryAddsOneFile(p, c);
    forall k | k in after.files && k.0 == Completed
      ensures Reports(after, after.files[k])
    {
      if k == (final.status, final.id) {
        FinalReports(p, c);
      } else {
        assert Reports(p, p.files[k]);
        var i :| 0 <= i < |p.effects| && Shows(p.files[k], p.effects[i]);
        assert Shows(after.files[k], after.effects[i]);
      }
    }
  }

  lemma CarryKeepsConsistent(p: Plane, c: Carried)
    requires Consistent(p) && Possible(p, c)
    ensures Consistent(Carry(p, c))
  {
    FilesStayFiled(p, c);
    EffectsStayDistinct(p, c);
    EffectsStayFindable(p, c);
    RecordsStayReporting(p, c);
  }

  /** A sequential run: each request starts where the one before it ended. */
  ghost predicate Run(planes: seq<Plane>, requests: seq<Carried>) {
    && |planes| == |requests| + 1 && planes[0] == EMPTY
    && forall i :: 0 <= i < |requests| ==>
         Possible(planes[i], requests[i]) && planes[i + 1] == Carry(planes[i], requests[i])
  }

  lemma {:induction false} RunIsConsistent(planes: seq<Plane>, requests: seq<Carried>, n: nat)
    requires Run(planes, requests) && n <= |requests|
    ensures Consistent(planes[n])
  {
    if n > 0 {
      RunIsConsistent(planes, requests, n - 1);
      CarryKeepsConsistent(planes[n - 1], requests[n - 1]);
    }
  }

  /**
   Over any sequential run, for one non-empty key, kind, profile and fingerprint: at most one attempt ever
   succeeds in the outside world, and every completed record carries that attempt's output and exit code.
   */
  lemma AtMostOneEffect(planes: seq<Plane>, requests: seq<Carried>, n: nat, tag: Tag, i: nat, j: nat)
    requires Run(planes, requests) && n <= |requests| && tag.key != []
    requires i < |planes[n].effects| && j < |planes[n].effects|
    requires planes[n].effects[i].tag == tag && planes[n].effects[j].tag == tag
    ensures i == j
    ensures forall k :: k in planes[n].files && IsMatch(planes[n].files, k, tag) ==>
      Shows(planes[n].files[k], planes[n].effects[i])
  {
    RunIsConsistent(planes, requests, n);
    var p := planes[n];
    forall k | k in p.files && IsMatch(p.files, k, tag)
      ensures Shows(p.files[k], p.effects[i])
    {
      assert Reports(p, p.files[k]);
      var m :| 0 <= m < |p.effects| && Shows(p.files[k], p.effects[m]);
      assert m == i;
    }
  }

  // ----- When a request is replayed -----

  /** The record that a request of a run ended in, under its status and id. */
  ghost predicate EndedIn(planes: seq<Plane>, requests: seq<Carried>, m: nat, k: (Status, nat), r: Record)
    requires m < |planes| && m < |requests|
  {
    Consistent(planes[m]) && Possible(planes[m], requests[m]) && r == Final(planes[m], requests[m]) &&
      k == (r.status, r.id)
  }

  lemma RequestAddsItsFile(planes: seq<Plane>, requests: seq<Carried>, m: nat) returns (k: (Status, nat), r: Record)
    requires Run(planes, requests) && m < |requests|
    ensures EndedIn(planes, requests, m, k, r)
    ensures planes[m + 1].files == planes[m].files[k := r] && k !in planes[m].files
    ensures TagOf(r) == TagOf(requests[m].draft)
  {
    RunIsConsistent(planes, requests, m);
    CarryAddsOneFile(planes[m], requests[m]);
    r := Final(planes[m], requests[m]);
    k := (r.status, r.id);
  }

  /** One file after another is added, under a name that is not taken. */
  predicate Grown(files: seq<Files>, added: seq<((Status, nat), Record)>) {
    && |files| == |added| + 1 && files[0] == map[]
    && forall i :: 0 <= i < |added| ==> Grows(files[i], added[i], files[i + 1])
  }

  predicate Grows(before: Files, added: ((Status, nat), Record), after: Files) {
    added.0 !in before && after == before[added.0 := added.1]
  }

  lemma {:induction false} AddedStays(files: seq<Files>, added: seq<((Status, nat), Record)>, m: nat, n: nat)
    requires Grown(files, added) && m < n <= |added|
    ensures added[m].0 in files[n] && files[n][added[m].0] == added[m].1
  {
    assert Grows(files[n - 1], added[n - 1], files[n]);
    if m < n - 1 {
      AddedStays(files, added, m, n - 1);
    }
  }

  lemma {:induction false} StoredWasAdded(files: seq<Files>, added: seq<((Status, nat), Record)>, n: nat,
    k: (Status, nat)) returns (m: nat)
    requires Grown(files, added) && n <= |added| && k in files[n]
    ensures m < n && added[m] == (k, files[n][k])
  {
    assert Grows(files[n - 1], added[n - 1], files[n]);
    if k == added[n - 1].0 {
      m := n - 1;
    } else {
      m := StoredWasAdded(files, added, n - 1, k);
    }
  }

  /** The files of a run, and the record that each of its requests added. */
  ghost predicate Filing(planes: seq<Plane>, requests: seq<Carried>, files: seq<Files>,
    added: seq<((Status, nat), Record)>) {
    && Grown(files, added) && |added| <= |requests| && |added| < |planes|
    && (forall i :: 0 <= i < |files| ==> files[i] == planes[i].files)
    && forall i :: 0 <= i < |added| ==> EndedIn(planes, requests, i, added[i].0, added[i].1)
  }

  lemma {:induction false} RunIsFiled(planes: seq<Plane>, requests: seq<Carried>, n: nat)
    returns (files: seq<Files>, added: seq<((Status, nat), Record)>)
    requires Run(planes, requests) && n <= |requests|
    ensures Filing(planes, requests, files, added) && |added| == n
  {
    if n == 0 {
      files, added := [planes[0].files], [];
    } else {
      files, added := RunIsFiled(planes, requests, n - 1);
      var k, r := RequestAddsItsFile(planes, requests, n - 1);
      FiledNext(planes, requests, files, added, k, r);
      files, added := files + [planes[n].files], added + [(k, r)];
    }
  }

  lemma FiledNext(planes: seq<Plane>, requests: seq<Carried>, files: seq<Files>, added: seq<((Status, nat), Record)>,
    k: (Status, nat), r: Record)
    requires Filing(planes, requests, files, added) && |added| < |requests| && |added| + 1 < |planes|
    requires EndedIn(planes, requests, |added|, k, r)
    requires Grows(planes[|added|].files, (k, r), planes[|added| + 1].files)
    ensures Filing(planes, requests, files + [planes[|added| + 1].files], added + [(k, r)])
  {
  }

  /** Every file is the record that some request ended in. */
  lemma FilesComeFromRequests(planes: seq<Plane>, requests: seq<Carried>, n: nat, k: (Status, nat)) returns (m: nat)
    requires Run(planes, requests) && n <= |requests| && k in planes[n].files
    ensures m < n && EndedIn(planes, requests, m, k, planes[n].files[k])
  {
    var files, added := RunIsFiled(planes, requests, n);
    assert files[n] == planes[n].files;
    m := StoredWasAdded(files, added, n, k);
  }

  /** And stays where it was put. */
  lemma FilesStay(planes: seq<Plane>, requests: seq<Carried>, m: nat, n: nat) returns (k: (Status, nat), r: Record)
    requires Run(planes, requests) && m < n <= |requests|
    ensures EndedIn(planes, requests, m, k, r) && k in planes[n].files && planes[n].files[k] == r
  {
    var files, added := RunIsFiled(planes, requests, n);
    AddedStays(files, added, m, n);
    assert files[n] == planes[n].files;
    k, r := added[m].0, added[m].1;
  }

  /** Two requests under one key that agree in kind, profile and fingerprint. */
  predicate Alike(a: Record, b: Record) {
    a.kind == b.kind && a.profile == b.profile && Trim(a.key) == Trim(b.key) && a.fingerprint == b.fingerprint
  }

  /** The request was run, and an attempt of it succeeded. */
  predicate RanWell(c: Carried) {
    c.Ran? && Fits(c.draft, c.work) && Settled(c.draft, c.work).status == Completed
  }

  /** A replay repeats the output of a request that was run before, with success, and that it is like. */
  lemma ReplayHasRun(planes: seq<Plane>, requests: seq<Carried>, n: nat) returns (m: nat)
    requires Run(planes, requests) && n < |requests| && requests[n].Replayed?
    ensures m < n && RanWell(requests[m]) && Alike(requests[m].draft, requests[n].draft)
    ensures requests[n].original in planes[n].files
    ensures SameOutput(Settled(requests[m].draft, requests[m].work), Final(planes[n], requests[n]))
  {
    RunIsConsistent(planes, requests, n);
    ReplayChainEnds(planes[n], requests[n].original);
    m := FilesComeFromRequests(planes, requests, n, Root(planes[n], requests[n].original));
    CarryAddsOneFile(planes[m], requests[m]);
  }

  /** Once a request under a key has succeeded, those like it are not run again. */
  lemma SuccessIsReplayed(planes: seq<Plane>, requests: seq<Carried>, m: nat, n: nat)
    requires Run(planes, requests) && m < n < |requests| && RanWell(requests[m])
    requires Alike(requests[m].draft, requests[n].draft) && Trim(requests[n].draft.key) != []
    ensures requests[n].Replayed?
  {
    var k, r := FilesStay(planes, requests, m, n);
    CarryAddsOneFile(planes[m], requests[m]);
    assert IsMatch(planes[n].files, k, TagOf(requests[n].draft));
  }

  /** Over any run, a request is replayed exactly if it has a key and one like it was run before, with success. */
  lemma ReplayedIffRanWell(planes: seq<Plane>, requests: seq<Carried>, n: nat)
    requires Run(planes, requests) && n < |requests|
    ensures requests[n].Replayed? <==>
            && Trim(requests[n].draft.key) != []
            && exists m :: 0 <= m < n && RanWell(requests[m]) && Alike(requests[m].draft, requests[n].draft)
  {
    if requests[n].Replayed? {
      var m := ReplayHasRun(planes, requests, n);
      assert Possible(planes[n], requests[n]);
    } else {
      forall m | 0 <= m < n && RanWell(requests[m]) && Alike(requests[m].draft, requests[n].draft)
        ensures Trim(requests[n].draft.key) == []
      {
        if Trim(requests[n].draft.key) != [] {
          SuccessIsReplayed(planes, requests, m, n);
        }
      }
    }
  }

  /** Following replays back from a record. */
  function Root(p: Plane, k: (Status, nat)): (Status, nat)
    decreases k.1
  {
    if k in p.files && p.files[k].replayOf.Some? && p.files[k].replayOf.value < k.1
    then Root(p, (Completed, p.files[k].replayOf.value))
    else k
  }

  /** Every chain of replays is finite and ends at a completed record that is no replay and says the same. */
  lemma {:induction false} ReplayChainEnds(p: Plane, k: (Status, nat))
    requires Consistent(p) && k in p.files
    ensures var root := Root(p, k);
            && root in p.files && !p.files[root].replayed
            && TagOf(p.files[root]) == TagOf(p.files[k])
            && SameOutput(p.files[root], p.files[k])
            && p.files[root].status == p.files[k].status
    decreases k.1
  {
    assert Filed(p, k);
    if p.files[k].replayed {
      assert Filed(p, (Completed, p.files[k].replayOf.value));
      ReplayChainEnds(p, (Completed, p.files[k].replayOf.value));
    }
  }
}
