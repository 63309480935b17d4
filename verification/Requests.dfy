/** Requests for actions, the records they start as, and what their fingerprints tell apart. */
module Requests {
  import opened Prelude
  import opened Strings
  import opened Execution

  /** A digest of fixed size. */
  type Digest = s: Text | |s| == 20 witness seq(20, _ => 'a')

  /** The bytes that separate the parts of a fingerprint and the arguments of a command, and the sign of a number. */
  const UNIT: Byte := '\U{1F}'
  const NUL: Byte := '\U{00}'
  const MINUS: Byte := '-'

  /** What every action request carries. */
  datatype Common = Common(
    taskId: Text, profile: Text, approvalToken: Text, attempt: int, attemptInMetadata: Option<int>, maxAttempts: int,
    key: Text, keyInMetadata: Text)

  datatype ShellRequest = ShellRequest(common: Common, command: Text, args: seq<Text>, workdir: Text, timeoutMs: int)

  datatype FileRequest = FileRequest(common: Common, kind: Kind, path: Text, content: Text, createParents: bool)

  /** The clock readings of one request: its id, its start, and the two of a replay. */
  datatype Clock = Clock(id: nat, startedAt: Time, replayStartedAt: Time, replayFinishedAt: Time)

  function Profile(c: Common): Text {
    FirstNonEmpty(c.profile, "user")
  }

  function DecimalInt(n: int): Text {
    if n < 0 then [MINUS] + Decimal(-n) else Decimal(n)
  }

  function Fingerprint(digest: Text -> Digest, parts: seq<Text>): Text {
    Hex(digest(JoinWith(parts, UNIT)))
  }

  lemma FingerprintsAreTrimmed(digest: Text -> Digest, parts: seq<Text>)
    ensures Fingerprint(digest, parts) != [] && Trimmed(Fingerprint(digest, parts))
  {
    var f := Fingerprint(digest, parts);
    HexLength(digest(JoinWith(parts, UNIT)));
    HexIsDigits(digest(JoinWith(parts, UNIT)));
    assert f[0] in f && f[|f| - 1] in f;
    assert forall c :: c in DIGITS ==> !IsSpace(c);
  }

  function BlankRecord(kind: Kind, c: Common, clock: Clock, fingerprint: Text): Record {
    Record(clock.id, Trim(c.taskId), kind, Running, Profile(c), [], [], [], [], [], fingerprint,
           NormalizeAttempt(c.attempt, c.attemptInMetadata), [], FirstNonEmpty(c.key, c.keyInMetadata),
           false, None, false, NoFailure, [], [], 0, [], clock.startedAt, None)
  }

  /** What the fingerprint of a command is made from. */
  function ShellParts(req: ShellRequest, command: Text, workdir: Text): seq<Text> {
    ["shell", Profile(req.common), command, workdir, DecimalInt(req.timeoutMs), JoinWith(req.args, NUL)]
  }

  function FileParts(req: FileRequest, path: Text): seq<Text> {
    if req.kind == FileWrite then
      ["file-write", Profile(req.common), path, req.content, if req.createParents then "true" else "false"]
    else ["file-read", Profile(req.common), path]
  }

  function ShellDraft(req: ShellRequest, command: Text, workdir: Text, digest: Text -> Digest, clock: Clock): Record {
    BlankRecord(Shell, req.common, clock, Fingerprint(digest, ShellParts(req, command, workdir))).(
      command := command, args := req.args, workdir := workdir)
  }

  function FileDraft(req: FileRequest, path: Text, digest: Text -> Digest, clock: Clock): Record {
    if req.kind == FileWrite then
      BlankRecord(FileWrite, req.common, clock, Fingerprint(digest, FileParts(req, path))).(
        path := path, changedFiles := [path])
    else
      BlankRecord(FileRead, req.common, clock, Fingerprint(digest, FileParts(req, path))).(path := path)
  }

  lemma FileDraftIsTrimmed(req: FileRequest, path: Text, digest: Text -> Digest, clock: Clock)
    requires req.kind != Shell
    ensures var r := FileDraft(req, path, digest, clock);
            && r.fingerprint != [] && Trimmed(r.fingerprint) && r.kind == req.kind && r.id == clock.id
            && r.status == Running && !r.replayed && r.replayOf == None && r.history == []
  {
    FingerprintsAreTrimmed(digest, FileParts(req, path));
  }

  // ----- Joined parts can be taken apart again -----

  lemma FirstAt(text: Text, a: Text, x: Text, separator: Byte)
    requires text == a + [separator] + x && separator !in a
    ensures |a| < |text| && text[|a|] == separator && forall i :: 0 <= i < |a| ==> text[i] != separator
    ensures a == text[..|a|] && x == text[|a| + 1..]
  {
    assert forall i :: 0 <= i < |a| ==> text[i] == a[i];
  }

  lemma LastAt(text: Text, a: Text, x: Text, separator: Byte)
    requires text == a + [separator] + x && separator !in x
    ensures |a| < |text| && text[|a|] == separator && forall i :: |a| < i < |text| ==> text[i] != separator
    ensures a == text[..|a|] && x == text[|a| + 1..]
  {
    assert forall i :: |a| < i < |text| ==> text[i] == x[i - |a| - 1];
  }

  /** Where a separator first occurs, two joined texts that agree are cut alike. */
  lemma CutLeft(a: Text, x: Text, b: Text, y: Text, separator: Byte)
    requires separator !in a && separator !in b && a + [separator] + x == b + [separator] + y
    ensures a == b && x == y
  {
    FirstAt(a + [separator] + x, a, x, separator);
    FirstAt(a + [separator] + x, b, y, separator);
  }

  /** And where one last occurs. */
  lemma CutRight(a: Text, x: Text, b: Text, y: Text, separator: Byte)
    requires separator !in x && separator !in y && a + [separator] + x == b + [separator] + y
    ensures a == b && x == y
  {
    LastAt(a + [separator] + x, a, x, separator);
    LastAt(a + [separator] + x, b, y, separator);
  }

  lemma {:induction false} JoinOfSnoc(parts: seq<Text>, last: Text, separator: Byte)
    requires parts != []
    ensures JoinWith(parts + [last], separator) == JoinWith(parts, separator) + [separator] + last
  {
    if |parts| == 1 {
      assert (parts + [last])[1..] == [last] && (parts + [last])[0] == parts[0];
    } else {
      JoinOfSnoc(parts[1..], last, separator);
      assert (parts + [last])[1..] == parts[1..] + [last] && (parts + [last])[0] == parts[0];
    }
  }

  /** All parts but the one at `free` are without the separator. */
  predicate Separable(parts: seq<Text>, free: nat, separator: Byte) {
    forall i :: 0 <= i < |parts| && i != free ==> separator !in parts[i]
  }

  /** Equally many parts, of which all but one are without the separator, are told by their joined text. */
  lemma {:induction false} JoinTellsParts(p: seq<Text>, q: seq<Text>, free: nat, separator: Byte)
    requires |p| == |q| && free < |p| && Separable(p, free, separator) && Separable(q, free, separator)
    requires JoinWith(p, separator) == JoinWith(q, separator)
    ensures p == q
    decreases |p|
  {
    if free > 0 {
      CutLeft(p[0], JoinWith(p[1..], separator), q[0], JoinWith(q[1..], separator), separator);
      JoinTellsParts(p[1..], q[1..], free - 1, separator);
      assert p == [p[0]] + p[1..] && q == [q[0]] + q[1..];
    } else if |p| > 1 {
      var pi, qi := p[..|p| - 1], q[..|q| - 1];
      assert p == pi + [Last(p)] && q == qi + [Last(q)];
      JoinOfSnoc(pi, Last(p), separator);
      JoinOfSnoc(qi, Last(q), separator);
      CutRight(JoinWith(pi, separator), Last(p), JoinWith(qi, separator), Last(q), separator);
      JoinTellsParts(pi, qi, 0, separator);
    } else {
      assert p == [p[0]] && q == [q[0]];
    }
  }

  /** Lists of texts without the separator are told apart, but for no text and one empty text. */
  lemma {:induction false} JoinTellsLists(a: seq<Text>, b: seq<Text>, separator: Byte)
    requires (forall s :: s in a ==> separator !in s) && (forall s :: s in b ==> separator !in s)
    ensures JoinWith(a, separator) == JoinWith(b, separator) <==>
            a == b || (a == [] && b == [[]]) || (a == [[]] && b == [])
  {
    if |a| > 1 && |b| > 1 {
      if JoinWith(a, separator) == JoinWith(b, separator) {
        assert a[0] in a && b[0] in b;
        CutLeft(a[0], JoinWith(a[1..], separator), b[0], JoinWith(b[1..], separator), separator);
        JoinTellsLists(a[1..], b[1..], separator);
        assert a == [a[0]] + a[1..] && b == [b[0]] + b[1..];
      }
    } else {
      ShortOrSeparated(a, separator);
      ShortOrSeparated(b, separator);
    }
  }

  lemma ShortOrSeparated(a: seq<Text>, separator: Byte)
    requires forall s :: s in a ==> separator !in s
    ensures |a| > 1 <==> separator in JoinWith(a, separator)
    ensures |a| == 1 ==> a == [JoinWith(a, separator)]
    ensures a == [] ==> JoinWith(a, separator) == []
  {
    if |a| > 1 {
      assert JoinWith(a, separator)[|a[0]|] == separator;
    } else if |a| == 1 {
      assert a[0] in a && a == [a[0]];
    }
  }

  lemma {:induction false} DecimalDigits(n: nat)
    ensures forall c :: c in Decimal(n) ==> c in DIGITS
  {
    if n >= 10 {
      DecimalDigits(n / 10);
    }
  }

  /** Only a negative number starts with a minus sign. */
  lemma NumberStarts(n: int)
    ensures DecimalInt(n) != [] && (DecimalInt(n)[0] == MINUS <==> n < 0) && UNIT !in DecimalInt(n)
  {
    var size := if n < 0 then -n else n;
    DecimalDigits(size);
    DecimalNonEmpty(size);
    assert Decimal(size)[0] in Decimal(size);
    assert forall c :: c in DIGITS ==> c != MINUS && c != UNIT;
  }

  lemma SignsAreTold(a: Text, b: Text)
    requires [MINUS] + a == [MINUS] + b
    ensures a == b
  {
    assert a == ([MINUS] + a)[1..] && b == ([MINUS] + b)[1..];
  }

  lemma NegativesAreTold(m: nat, n: nat)
    requires [MINUS] + Decimal(m) == [MINUS] + Decimal(n)
    ensures m == n
  {
    SignsAreTold(Decimal(m), Decimal(n));
    DecimalInjective(m, n);
  }

  lemma SignIsTold(m: int, n: int)
    requires DecimalInt(m) == DecimalInt(n)
    ensures m < 0 <==> n < 0
  {
    NumberStarts(m);
    NumberStarts(n);
  }

  lemma NumbersAreTold(m: int, n: int)
    requires DecimalInt(m) == DecimalInt(n)
    ensures m == n
  {
    SignIsTold(m, n);
    if m < 0 {
      NegativesAreTold(-m, -n);
    } else {
      DecimalInjective(m, n);
    }
  }

  // ----- What a fingerprint tells -----

  /** The digest does not happen to be the same for these two. */
  predicate NoCollision(digest: Text -> Digest, p: seq<Text>, q: seq<Text>) {
    digest(JoinWith(p, UNIT)) == digest(JoinWith(q, UNIT)) ==> JoinWith(p, UNIT) == JoinWith(q, UNIT)
  }

  lemma FingerprintTellsParts(digest: Text -> Digest, p: seq<Text>, q: seq<Text>, free: nat)
    requires |p| == |q| && free < |p| && Separable(p, free, UNIT) && Separable(q, free, UNIT)
    requires NoCollision(digest, p, q)
    ensures Fingerprint(digest, p) == Fingerprint(digest, q) <==> p == q
  {
    if Fingerprint(digest, p) == Fingerprint(digest, q) {
      HexInjective(digest(JoinWith(p, UNIT)), digest(JoinWith(q, UNIT)));
      JoinTellsParts(p, q, free, UNIT);
    }
  }

  /**
   Two writes have the same fingerprint exactly if they are for the same profile, to the same path, with the same
   content, and agree on creating the directories above.
   */
  lemma WritesAreTold(a: FileRequest, pa: Text, ca: Clock, b: FileRequest, pb: Text, cb: Clock, digest: Text -> Digest)
    requires a.kind == b.kind == FileWrite && NoCollision(digest, FileParts(a, pa), FileParts(b, pb))
    requires UNIT !in Profile(a.common) && UNIT !in Profile(b.common) && UNIT !in pa && UNIT !in pb
    ensures FileDraft(a, pa, digest, ca).fingerprint == FileDraft(b, pb, digest, cb).fingerprint <==>
            && Profile(a.common) == Profile(b.common) && pa == pb
            && a.content == b.content && a.createParents == b.createParents
  {
    var p, q := FileParts(a, pa), FileParts(b, pb);
    FingerprintTellsParts(digest, p, q, 3);
    assert p == q <==> p[1] == q[1] && p[2] == q[2] && p[3] == q[3] && p[4] == q[4];
    FlagsAreTold(a.createParents, b.createParents);
  }

  lemma FlagsAreTold(a: bool, b: bool)
    ensures var x: Text, y: Text := if a then "true" else "false", if b then "true" else "false"; x == y <==> a == b
  {
    var t: Text, f: Text := "true", "false";
    assert |t| != |f|;
  }

  /** Two reads have the same fingerprint exactly if they are for the same profile and of the same path. */
  lemma ReadsAreTold(a: FileRequest, pa: Text, ca: Clock, b: FileRequest, pb: Text, cb: Clock, digest: Text -> Digest)
    requires a.kind == b.kind == FileRead && NoCollision(digest, FileParts(a, pa), FileParts(b, pb))
    requires UNIT !in Profile(a.common) && UNIT !in Profile(b.common)
    ensures FileDraft(a, pa, digest, ca).fingerprint == FileDraft(b, pb, digest, cb).fingerprint <==>
            Profile(a.common) == Profile(b.common) && pa == pb
  {
    var p, q := FileParts(a, pa), FileParts(b, pb);
    FingerprintTellsParts(digest, p, q, 2);
    assert p == q <==> p[1] == q[1] && p[2] == q[2];
  }

  /** The arguments differ as no arguments and one empty argument do. */
  predicate AlikeWhenJoined(a: seq<Text>, b: seq<Text>) {
    a == b || (a == [] && b == [[]]) || (a == [[]] && b == [])
  }

  /**
   Two commands have the same fingerprint exactly if they are for the same profile, the same resolved command and
   directory, the same time limit, and the same arguments; but no arguments look like one empty argument.
   */
  lemma CommandsAreTold(a: ShellRequest, commandA: Text, dirA: Text, ca: Clock, b: ShellRequest, commandB: Text,
    dirB: Text, cb: Clock, digest: Text -> Digest)
    requires NoCollision(digest, ShellParts(a, commandA, dirA), ShellParts(b, commandB, dirB))
    requires UNIT !in Profile(a.common) && UNIT !in commandA && UNIT !in dirA
    requires UNIT !in Profile(b.common) && UNIT !in commandB && UNIT !in dirB
    requires forall s :: s in a.args + b.args ==> NUL !in s
    ensures ShellDraft(a, commandA, dirA, digest, ca).fingerprint ==
            ShellDraft(b, commandB, dirB, digest, cb).fingerprint <==>
            && Profile(a.common) == Profile(b.common) && commandA == commandB && dirA == dirB
            && a.timeoutMs == b.timeoutMs && AlikeWhenJoined(a.args, b.args)
  {
    var p, q := ShellParts(a, commandA, dirA), ShellParts(b, commandB, dirB);
    if DecimalInt(a.timeoutMs) == DecimalInt(b.timeoutMs) {
      NumbersAreTold(a.timeoutMs, b.timeoutMs);
    }
    NumberStarts(a.timeoutMs);
    NumberStarts(b.timeoutMs);
    FingerprintTellsParts(digest, p, q, 5);
    assert p == q <==> p[1] == q[1] && p[2] == q[2] && p[3] == q[3] && p[4] == q[4] && p[5] == q[5];
    assert forall s :: s in a.args ==> s in a.args + b.args;
    assert forall s :: s in b.args ==> s in a.args + b.args;
    JoinTellsLists(a.args, b.args, NUL);
  }

  /** A command without arguments is taken for the same command with one empty argument. */
  lemma NoArgumentsLookLikeAnEmptyOne(req: ShellRequest, command: Text, dir: Text, digest: Text -> Digest, ca: Clock,
    cb: Clock)
    ensures ShellDraft(req.(args := []), command, dir, digest, ca).fingerprint ==
            ShellDraft(req.(args := [[]]), command, dir, digest, cb).fingerprint
  {
  }

  // ----- When a request is replayed -----

  /** A request as it was asked for, with what was resolved for it. */
  datatype Asked =
    | AskedShell(shell: ShellRequest, command: Text, workdir: Text, clock: Clock)
    | AskedFile(file: FileRequest, path: Text, clock: Clock)
  {
    function Common(): Common {
      if AskedShell? then shell.common else file.common
    }

    function Kind(): Kind {
      if AskedShell? then Shell else file.kind
    }
  }

  function PartsOf(a: Asked): seq<Text> {
    match a
    case AskedShell(req, command, workdir, _) => ShellParts(req, command, workdir)
    case AskedFile(req, path, _) => FileParts(req, path)
  }

  function DraftOf(a: Asked, digest: Text -> Digest): Record {
    match a
    case AskedShell(req, command, workdir, clock) => ShellDraft(req, command, workdir, digest, clock)
    case AskedFile(req, path, clock) => FileDraft(req, path, digest, clock)
  }

  /** What is resolved for a request has no separators in it. The content that a write carries may have them. */
  predicate Plain(a: Asked) {
    && UNIT !in Profile(a.Common())
    && match a
       case AskedShell(req, command, workdir, _) =>
         UNIT !in command && UNIT !in workdir && forall s :: s in req.args ==> NUL !in s
       case AskedFile(req, path, _) => req.kind != Shell && (req.kind == FileWrite ==> UNIT !in path)
  }

  /** The key that a request comes with. */
  function KeyOf(c: Common): Text {
    OrElse(c.key, Trim(c.keyInMetadata))
  }

  /** Both ask for the same action, under the same profile and key. */
  predicate SameRequest(a: Asked, b: Asked) {
    && OrElse(a.Common().profile, "user") == OrElse(b.Common().profile, "user")
    && KeyOf(a.Common()) == KeyOf(b.Common())
    && a.Kind() == b.Kind()
    && if a.AskedShell? && b.AskedShell? then
         && a.command == b.command && a.workdir == b.workdir && a.shell.timeoutMs == b.shell.timeoutMs
         && AlikeWhenJoined(a.shell.args, b.shell.args)
       else if a.AskedFile? && b.AskedFile? then
         && a.path == b.path
         && (a.Kind() == FileWrite ==>
              a.file.content == b.file.content && a.file.createParents == b.file.createParents)
       else false
  }

  lemma KeysAreAsAsked(a: Asked, digest: Text -> Digest)
    requires Plain(a)
    ensures var r := DraftOf(a, digest);
            && r.kind == a.Kind() && r.profile == OrElse(a.Common().profile, "user")
            && r.key == KeyOf(a.Common()) && Trim(r.key) == r.key
  {
    DefaultIsTaken(a.Common().profile, "user");
    TrimIsTrimmed(a.Common().key);
    TrimIsTrimmed(a.Common().keyInMetadata);
  }

  /** Drafts are alike exactly if the requests ask for the same action. */
  lemma AlikeIffSameRequest(a: Asked, b: Asked, digest: Text -> Digest)
    requires Plain(a) && Plain(b) && NoCollision(digest, PartsOf(a), PartsOf(b))
    ensures Alike(DraftOf(a, digest), DraftOf(b, digest)) <==> SameRequest(a, b)
  {
    KeysAreAsAsked(a, digest);
    KeysAreAsAsked(b, digest);
    if a.Kind() == b.Kind() {
      match a.Kind()
      case Shell =>
        CommandsAreTold(a.shell, a.command, a.workdir, a.clock, b.shell, b.command, b.workdir, b.clock, digest);
      case FileRead => ReadsAreTold(a.file, a.path, a.clock, b.file, b.path, b.clock, digest);
      case FileWrite => WritesAreTold(a.file, a.path, a.clock, b.file, b.path, b.clock, digest);
    }
  }

  /** A run for requests that were asked for, over which the digest does not collide. */
  ghost predicate AskedRun(planes: seq<Plane>, requests: seq<Carried>, asked: seq<Asked>, digest: Text -> Digest) {
    && Run(planes, requests) && |asked| == |requests|
    && (forall i :: 0 <= i < |asked| ==> Plain(asked[i]) && requests[i].draft == DraftOf(asked[i], digest))
    && forall i, j :: 0 <= i < |asked| && 0 <= j < |asked| ==>
         NoCollision(digest, PartsOf(asked[i]), PartsOf(asked[j]))
  }

  /** A replay has the output of a request for the same action that was run. */
  lemma ReplayRepeatsAction(planes: seq<Plane>, requests: seq<Carried>, asked: seq<Asked>, digest: Text -> Digest,
    n: nat) returns (m: nat)
    requires AskedRun(planes, requests, asked, digest) && n < |requests| && requests[n].Replayed?
    ensures m < n && RanWell(requests[m]) && SameRequest(asked[m], asked[n])
    ensures requests[n].original in planes[n].files
    ensures SameOutput(Settled(requests[m].draft, requests[m].work), Final(planes[n], requests[n]))
  {
    m := ReplayHasRun(planes, requests, n);
    AlikeIffSameRequest(asked[m], asked[n], digest);
  }

  /** Over any run, a request is replayed exactly if it has a key and the same action was run under it with success. */
  lemma ReplayedIffDone(planes: seq<Plane>, requests: seq<Carried>, asked: seq<Asked>, digest: Text -> Digest, n: nat)
    requires AskedRun(planes, requests, asked, digest) && n < |requests|
    ensures requests[n].Replayed? <==>
            && KeyOf(asked[n].Common()) != []
            && exists m :: 0 <= m < n && RanWell(requests[m]) && SameRequest(asked[m], asked[n])
  {
    ReplayedIffRanWell(planes, requests, n);
    KeysAreAsAsked(asked[n], digest);
    forall m | 0 <= m < n
      ensures Alike(requests[m].draft, requests[n].draft) <==> SameRequest(asked[m], asked[n])
    {
      AlikeIffSameRequest(asked[m], asked[n], digest);
    }
  }

  // ----- What a request is tried for, and how often -----

  /** The number of the first attempt of a request, and of the last that it may make. */
  function FirstTry(c: Common): int {
    if c.attempt > 0 then c.attempt
    else if c.attemptInMetadata.Some? && c.attemptInMetadata.value > 0 then c.attemptInMetadata.value else 1
  }

  function LastTry(c: Common): int {
    if c.maxAttempts > FirstTry(c) then c.maxAttempts else FirstTry(c)
  }

  /** A command is tried again exactly as long as it times out and the limit asked for allows it. */
  lemma CommandIsTriedAsAsked(req: ShellRequest, command: Text, workdir: Text, digest: Text -> Digest, clock: Clock,
    run: int -> ShellAttempt)
    ensures var draft := ShellDraft(req, command, workdir, digest, clock);
            var work := Commands(NormalizeMaxAttempts(req.common.maxAttempts, draft.attempt), run);
            && Fits(draft, work)
            && TriedCommand(Settled(draft, work), 0, FirstTry(req.common), LastTry(req.common), run)
  {
    var draft := ShellDraft(req, command, workdir, digest, clock);
    ShellLoopStops(draft, draft.attempt, NormalizeMaxAttempts(req.common.maxAttempts, draft.attempt), run);
  }

  /** A read or a write is tried again exactly as long as it fails in passing and the limit asked for allows it. */
  lemma FileIsTriedAsAsked(req: FileRequest, path: Text, digest: Text -> Digest, clock: Clock, run: int -> FileAttempt)
    requires req.kind != Shell
    ensures var draft := FileDraft(req, path, digest, clock);
            var work := FileActions(NormalizeMaxAttempts(req.common.maxAttempts, draft.attempt), |req.content|, run);
            && Fits(draft, work)
            && TriedFile(Settled(draft, work), 0, FirstTry(req.common), LastTry(req.common), |req.content|, run)
  {
    var draft := FileDraft(req, path, digest, clock);
    var last := NormalizeMaxAttempts(req.common.maxAttempts, draft.attempt);
    FileLoopStops(draft, draft.attempt, last, |req.content|, run);
  }

  function OrList<T(==)>(given: seq<T>, default_: seq<T>): seq<T> {
    if given == [] then default_ else given
  }

  /** A replay says what was asked for and, where that is blank, what the original says. */
  predicate Copies(r: Record, original: Record, c: Carried)
    requires c.Replayed?
  {
    && r.status == Completed && r.replayed && r.replayOf == Some(original.id)
    && (r.stdout, r.stderr, r.exitCode) == (original.stdout, original.stderr, original.exitCode)
    && r.command == OrElse(c.draft.command, Trim(original.command))
    && r.path == OrElse(c.draft.path, Trim(original.path))
    && r.workdir == OrElse(c.draft.workdir, Trim(original.workdir))
    && r.args == OrList(c.draft.args, original.args)
    && r.changedFiles == OrList(c.draft.changedFiles, original.changedFiles)
    && r.startedAt == c.startedAt && r.finishedAt == Some(c.finishedAt) && |r.history| == 1
    && EndsWith(r.history[0], Completed, NoFailure, 0, [], false) && r.history[0].number == c.draft.attempt
    && r.history[0].startedAt == c.startedAt && r.history[0].finishedAt == Some(c.finishedAt)
  }

  /** The record that a request is answered with names what was asked for. */
  lemma AnswerNamesAction(p: Plane, c: Carried, a: Asked, digest: Text -> Digest)
    requires Consistent(p) && Possible(p, c) && Plain(a) && c.draft == DraftOf(a, digest)
    ensures c.Replayed? ==> c.original in p.files
    ensures var r := Final(p, c);
            && r.id == a.clock.id && r.taskId == Trim(a.Common().taskId) && r.kind == a.Kind()
            && r.profile == OrElse(a.Common().profile, "user")
            && r.key == KeyOf(a.Common())
            && (c.Ran? && a.AskedShell? ==>
                 && (r.command, r.workdir, r.args) == (a.command, a.workdir, a.shell.args)
                 && (r.path, r.changedFiles) == ([], []))
            && (c.Ran? && a.AskedFile? ==>
                 && r.path == a.path && r.changedFiles == (if a.Kind() == FileWrite then [a.path] else [])
                 && (r.command, r.workdir, r.args) == ([], [], []))
            && (c.Ran? ==> r.startedAt == a.clock.startedAt && !r.replayed)
            && (c.Replayed? ==> Copies(r, p.files[c.original], c))
  {
    KeysAreAsAsked(a, digest);
    if c.Ran? {
      AtMostOneAttemptSucceeds(c.draft, c.work);
    }
  }
}
