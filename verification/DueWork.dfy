/** Planning recovery work for due executions, and the worker that picks the planned task up
    (crates/runtime/src/scheduler/mod.rs, crates/runtime/src/recovery/mod.rs, crates/durable-store/src/due_work.rs). */
module DueWork {
  import opened Prelude
  import opened Text
  import opened Identity
  import opened RecoveryInput

  const I64: int := 0x8000_0000_0000_0000

  datatype Candidate = Candidate(
    runId: Id,
    stageExecutionId: Option<Id>,
    kind: DueWorkKind,
    executionId: Id,
    dueAt: int,
    expectedRevision: nat,
    runVersion: nat,
    executionGeneration: nat,
    checkpointSequence: nat)

  datatype ExpectedRun = ExpectedRun(runId: Id, version: nat, executionGeneration: nat)

  datatype NewTask = NewTask(
    taskId: DerivedId,
    stageExecutionId: Option<Id>,
    logicalKey: string,
    reconcile: bool,
    generation: nat,
    basedOnCheckpointSequence: nat,
    priority: int,
    availableAt: int,
    maxAttempts: nat,
    input: string,
    createdEventId: DerivedId)

  datatype ApplyDueWork = ApplyDueWork(candidate: Candidate, expectedRun: ExpectedRun, recoveryTask: NewTask, appliedEventId: DerivedId)

  datatype Planned = Planned(
    commandId: DerivedId,
    correlationId: DerivedId,
    scope: string,
    idempotencyKey: string,
    requestHash: DerivedId,
    command: ApplyDueWork)

  datatype KeyError = EmptyKey | TooLong(actual: nat, maximum: nat) | ControlCharacter

  predicate Control(c: char) {
    c as int < 0x20 || 0x7F <= c as int < 0xA0
  }

  /** Bounded keys: 64 characters for a scope, 255 for the others. */
  function ParseKey(value: string, maximum: nat): Result<string, KeyError> {
    if value == "" then Err(EmptyKey)
    else if |value| > maximum then Err(TooLong(|value|, maximum))
    else if exists i :: 0 <= i < |value| && Control(value[i]) then Err(ControlCharacter)
    else Ok(value)
  }

  datatype Planner = Planner(priority: int, maxAttempts: nat)

  function WorkIdentity(kind: DueWorkKind, executionId: Id, dueAt: int, revision: nat): string {
    "due-work/" + (KindText(kind) + "/" + (Hex(executionId) + "/" + (Signed(dueAt) + "/" + Decimal(revision))))
  }

  function LogicalKeyText(kind: DueWorkKind, executionId: Id, revision: nat): string {
    "reconcile/" + (KindText(kind) + "/" + (Hex(executionId) + "/" + Decimal(revision)))
  }

  function Plan(planner: Planner, c: Candidate): Result<Planned, KeyError> {
    var identity := WorkIdentity(c.kind, c.executionId, c.dueAt, c.expectedRevision);
    var eventId := DerivedId("event/" + identity);
    match ParseKey("scheduler.due_work", 64)
    case Err(error) => Err(error)
    case Ok(scope) =>
      match ParseKey(identity, 255)
      case Err(error) => Err(error)
      case Ok(idempotencyKey) =>
        match ParseKey(LogicalKeyText(c.kind, c.executionId, c.expectedRevision), 255)
        case Err(error) => Err(error)
        case Ok(logicalKey) =>
          Ok(Planned(
               DerivedId("command/" + identity), DerivedId("correlation/" + Hex(c.runId)), scope, idempotencyKey,
               DerivedId("apply/" + identity),
               ApplyDueWork(
                 c,
                 ExpectedRun(c.runId, c.runVersion, c.executionGeneration),
                 NewTask(
                   DerivedId("task/" + identity), c.stageExecutionId, logicalKey, true, c.executionGeneration,
                   c.checkpointSequence, planner.priority, c.dueAt, planner.maxAttempts,
                   PrintInput(c.kind, Hex(c.executionId), c.expectedRevision), eventId),
                 eventId)))
  }

  predicate ShapeIsValid(a: ApplyDueWork) {
    && a.expectedRun == ExpectedRun(a.candidate.runId, a.candidate.runVersion, a.candidate.executionGeneration)
    && a.recoveryTask.stageExecutionId == a.candidate.stageExecutionId
    && a.recoveryTask.reconcile
    && a.recoveryTask.generation == a.candidate.executionGeneration
    && a.recoveryTask.basedOnCheckpointSequence == a.candidate.checkpointSequence
    && a.candidate.checkpointSequence > 0
    && a.recoveryTask.maxAttempts > 0
    && a.recoveryTask.createdEventId == a.appliedEventId
  }

  // ---------------------------------------------------------------- planning never fails

  predicate PlainKey(s: string) {
    forall i :: 0 <= i < |s| ==> s[i] == '/' || s[i] == '-' || Digit(s[i]) || 'a' <= s[i] <= 'z'
  }

  lemma NumbersAreShort(dueAt: int, revision: nat)
    requires -I64 <= dueAt < I64 && revision < U64
    ensures |Signed(dueAt)| <= 20 && |Decimal(revision)| <= 20
    ensures PlainKey(Signed(dueAt)) && PlainKey(Decimal(revision))
  {
    var limit19 := 10_000_000_000_000_000_000;
    assert limit19 == Power10(19) by { PowersOfTen(); }
    assert 10 * limit19 == Power10(20) by { PowersOfTen(); }
    DecimalLength(revision, 20, 10 * limit19);
    DecimalLength(if dueAt < 0 then -dueAt else dueAt, 19, limit19);
  }

  lemma PowersOfTen()
    ensures Power10(19) == 10_000_000_000_000_000_000 && Power10(20) == 100_000_000_000_000_000_000
  {
    assert Power10(5) == 100_000;
    assert Power10(10) == 10_000_000_000;
    assert Power10(15) == 1_000_000_000_000_000;
  }

  lemma PlainPrefix(a: string, b: string)
    requires PlainKey(a) && PlainKey(b)
    ensures PlainKey(a + b) && PlainKey(a + "/" + b)
  {
  }

  lemma KeysArePlain(c: Candidate)
    requires -I64 <= c.dueAt < I64 && c.expectedRevision < U64
    ensures var identity, key := WorkIdentity(c.kind, c.executionId, c.dueAt, c.expectedRevision), LogicalKeyText(c.kind, c.executionId, c.expectedRevision);
            && PlainKey(identity) && PlainKey(key) && 0 < |identity| <= 255 && 0 < |key| <= 255
  {
    NumbersAreShort(c.dueAt, c.expectedRevision);
    var rev, hex, kind := Decimal(c.expectedRevision), Hex(c.executionId), KindText(c.kind);
    assert |hex| == 32 && |kind| <= 11;
    PlainPrefix(Signed(c.dueAt), rev);
    PlainPrefix(hex, Signed(c.dueAt) + "/" + rev);
    PlainPrefix(kind, hex + "/" + (Signed(c.dueAt) + "/" + rev));
    PlainPrefix("due-work/", kind + "/" + (hex + "/" + (Signed(c.dueAt) + "/" + rev)));
    PlainPrefix(hex, rev);
    PlainPrefix(kind, hex + "/" + rev);
    PlainPrefix("reconcile/", kind + "/" + (hex + "/" + rev));
  }

  lemma PlainKeysParse(s: string, maximum: nat)
    requires PlainKey(s) && 0 < |s| <= maximum
    ensures ParseKey(s, maximum) == Ok(s)
  {
  }

  /** Every candidate that the database can hold is planned, into a command the store accepts. */
  lemma PlanNeverFails(planner: Planner, c: Candidate)
    requires planner.maxAttempts > 0
    requires -I64 <= c.dueAt < I64 && c.expectedRevision < U64
    ensures Plan(planner, c).Ok?
    ensures ShapeIsValid(Plan(planner, c).value.command) <==> c.checkpointSequence > 0
    ensures Plan(planner, c).value.command.candidate == c
    ensures Plan(planner, c).value.command.recoveryTask.input == PrintInput(c.kind, Hex(c.executionId), c.expectedRevision)
    ensures Plan(planner, c).value.idempotencyKey == WorkIdentity(c.kind, c.executionId, c.dueAt, c.expectedRevision)
    ensures var task := Plan(planner, c).value.command.recoveryTask;
            task.availableAt == c.dueAt && task.priority == planner.priority && task.maxAttempts == planner.maxAttempts
  {
    KeysArePlain(c);
    PlainKeysParse(WorkIdentity(c.kind, c.executionId, c.dueAt, c.expectedRevision), 255);
    PlainKeysParse(LogicalKeyText(c.kind, c.executionId, c.expectedRevision), 255);
    ScopeParses();
  }

  lemma ScopeParses()
    ensures ParseKey("scheduler.due_work", 64) == Ok("scheduler.due_work")
  {
  }

  /** The store takes only the task that belongs to the candidate: of the parts that tie a command to the state that the
      candidate was seen in, a valid one cannot differ from the planned one. */
  lemma ValidCommandsAgree(planner: Planner, a: ApplyDueWork)
    requires planner.maxAttempts > 0 && -I64 <= a.candidate.dueAt < I64 && a.candidate.expectedRevision < U64
    requires ShapeIsValid(a)
    ensures Plan(planner, a.candidate).Ok?
    ensures var planned := Plan(planner, a.candidate).value.command;
            && a.expectedRun == planned.expectedRun && a.recoveryTask.reconcile == planned.recoveryTask.reconcile
            && a.recoveryTask.stageExecutionId == planned.recoveryTask.stageExecutionId
            && a.recoveryTask.generation == planned.recoveryTask.generation
            && a.recoveryTask.basedOnCheckpointSequence == planned.recoveryTask.basedOnCheckpointSequence
    ensures a.recoveryTask.createdEventId == a.appliedEventId && a.recoveryTask.maxAttempts != 0
  {
    PlanNeverFails(planner, a.candidate);
  }

  // ---------------------------------------------------------------- identities

  lemma NumbersHaveNoSlash(i: int)
    ensures Without(Signed(i), '/')
  {
  }

  /** Distinct kinds, executions, due times or revisions give distinct identities. */
  lemma WorkIdentityDetermines(k: DueWorkKind, x: Id, d: int, r: nat, k': DueWorkKind, x': Id, d': int, r': nat)
    requires WorkIdentity(k, x, d, r) == WorkIdentity(k', x', d', r')
    ensures k == k' && x == x' && d == d' && r == r'
  {
    KindsAndIdsHaveNoSlash(k, x);
    KindsAndIdsHaveNoSlash(k', x');
    NumbersHaveNoSlash(d);
    NumbersHaveNoSlash(d');
    PartsDetermine(KindText(k), Hex(x), Signed(d), Decimal(r), KindText(k'), Hex(x'), Signed(d'), Decimal(r'));
    KindTextDetermines(k, k');
    HexInjective(x, x');
    SignedInjective(d, d');
    DecimalInjective(r, r');
  }

  /** The same retry: the kind, the execution, its due time and its revision. */
  predicate SameWork(a: Candidate, b: Candidate) {
    a.kind == b.kind && a.executionId == b.executionId && a.dueAt == b.dueAt && a.expectedRevision == b.expectedRevision
  }

  /** Two plans, made by whatever planners, of a candidate seen twice or of two candidates, share their command, their
      recovery task, their event, their idempotency key or their request hash exactly if they are about the same retry,
      and then they share all of these; they share the logical key whenever kind, execution and revision agree. */
  lemma PlansShareIdsIffSameWork(first: Planner, a: Candidate, second: Planner, b: Candidate)
    requires first.maxAttempts > 0 && -I64 <= a.dueAt < I64 && a.expectedRevision < U64
    requires second.maxAttempts > 0 && -I64 <= b.dueAt < I64 && b.expectedRevision < U64
    ensures Plan(first, a).Ok? && Plan(second, b).Ok?
    ensures var p, q := Plan(first, a).value, Plan(second, b).value;
            && (p.commandId == q.commandId <==> SameWork(a, b))
            && (p.command.recoveryTask.taskId == q.command.recoveryTask.taskId <==> SameWork(a, b))
            && (p.command.appliedEventId == q.command.appliedEventId <==> SameWork(a, b))
            && (p.command.recoveryTask.createdEventId == q.command.recoveryTask.createdEventId <==> SameWork(a, b))
            && (p.idempotencyKey == q.idempotencyKey <==> SameWork(a, b))
            && (p.requestHash == q.requestHash <==> SameWork(a, b))
            && (p.command.recoveryTask.logicalKey == q.command.recoveryTask.logicalKey <==>
                  a.kind == b.kind && a.executionId == b.executionId && a.expectedRevision == b.expectedRevision)
            && (p.correlationId == q.correlationId <==> a.runId == b.runId)
            && p.scope == q.scope
  {
    PlanNeverFails(first, a);
    PlanNeverFails(second, b);
    var x := WorkIdentity(a.kind, a.executionId, a.dueAt, a.expectedRevision);
    var y := WorkIdentity(b.kind, b.executionId, b.dueAt, b.expectedRevision);
    if x == y {
      WorkIdentityDetermines(a.kind, a.executionId, a.dueAt, a.expectedRevision, b.kind, b.executionId, b.dueAt, b.expectedRevision);
    }
    PlanKeys(first, a);
    PlanKeys(second, b);
    SamePrefix("command/", x, y);
    SamePrefix("task/", x, y);
    SamePrefix("event/", x, y);
    SamePrefix("apply/", x, y);
    SamePrefix("correlation/", Hex(a.runId), Hex(b.runId));
    if Hex(a.runId) == Hex(b.runId) {
      HexInjective(a.runId, b.runId);
    }
    LogicalKeysDiffer(a, b);
  }

  lemma PlanKeys(planner: Planner, c: Candidate)
    requires Plan(planner, c).Ok?
    ensures var p, identity := Plan(planner, c).value, WorkIdentity(c.kind, c.executionId, c.dueAt, c.expectedRevision);
            && p.commandId.text == "command/" + identity && p.command.recoveryTask.taskId.text == "task/" + identity
            && p.command.appliedEventId.text == "event/" + identity && p.command.recoveryTask.createdEventId.text == "event/" + identity
            && p.requestHash.text == "apply/" + identity && p.idempotencyKey == identity
            && p.correlationId.text == "correlation/" + Hex(c.runId)
            && p.command.recoveryTask.logicalKey == LogicalKeyText(c.kind, c.executionId, c.expectedRevision)
            && p.scope == "scheduler.due_work"
  {
  }

  lemma SamePrefix(prefix: string, a: string, b: string)
    ensures prefix + a == prefix + b <==> a == b
  {
    assert (prefix + a)[|prefix|..] == a && (prefix + b)[|prefix|..] == b;
  }

  lemma LogicalKeysDiffer(a: Candidate, b: Candidate)
    ensures LogicalKeyText(a.kind, a.executionId, a.expectedRevision) == LogicalKeyText(b.kind, b.executionId, b.expectedRevision) <==>
            a.kind == b.kind && a.executionId == b.executionId && a.expectedRevision == b.expectedRevision
  {
    if LogicalKeyText(a.kind, a.executionId, a.expectedRevision) == LogicalKeyText(b.kind, b.executionId, b.expectedRevision) {
      KindsAndIdsHaveNoSlash(a.kind, a.executionId);
      KindsAndIdsHaveNoSlash(b.kind, b.executionId);
      var s, t := Hex(a.executionId) + "/" + Decimal(a.expectedRevision), Hex(b.executionId) + "/" + Decimal(b.expectedRevision);
      SamePrefix("reconcile/", KindText(a.kind) + "/" + s, KindText(b.kind) + "/" + t);
      SplitsOnce(KindText(a.kind), s, KindText(b.kind), t, '/');
      SplitsOnce(Hex(a.executionId), Decimal(a.expectedRevision), Hex(b.executionId), Decimal(b.expectedRevision), '/');
      KindTextDetermines(a.kind, b.kind);
      HexInjective(a.executionId, b.executionId);
      DecimalInjective(a.expectedRevision, b.expectedRevision);
    }
  }

  lemma KindsAndIdsHaveNoSlash(k: DueWorkKind, x: Id)
    ensures Without(KindText(k), '/') && Without(Hex(x), '/')
  {
  }

  lemma PartsDetermine(a: string, b: string, c: string, d: string, a': string, b': string, c': string, d': string)
    requires Without(a, '/') && Without(b, '/') && Without(c, '/')
    requires Without(a', '/') && Without(b', '/') && Without(c', '/')
    requires "due-work/" + (a + "/" + (b + "/" + (c + "/" + d))) == "due-work/" + (a' + "/" + (b' + "/" + (c' + "/" + d')))
    ensures a == a' && b == b' && c == c' && d == d'
  {
    var u, u' := c + "/" + d, c' + "/" + d';
    var t, t' := b + "/" + u, b' + "/" + u';
    var s, s' := a + "/" + t, a' + "/" + t';
    assert ("due-work/" + s)[9..] == s && ("due-work/" + s')[9..] == s';
    SplitsOnce(a, t, a', t', '/');
    SplitsOnce(b, u, b', u', '/');
    SplitsOnce(c, d, c', d', '/');
  }

  lemma KindTextDetermines(k: DueWorkKind, k': DueWorkKind)
    requires KindText(k) == KindText(k')
    ensures k == k'
  {
    assert KindText(ToolRetry)[0] != KindText(AgentRetry)[0];
  }

  // ---------------------------------------------------------------- the worker

  datatype ClaimedTask = ClaimedTask(
    sameTenant: bool,
    reconcile: bool,
    runId: Id,
    generation: nat,
    taskId: DerivedId,
    attempt: nat,
    input: string,
    runVersion: nat)

  /** The command that starts the retry. */
  datatype Begin =
    | BeginToolRetry(expectedRun: ExpectedRun, executionId: Id, expectedAttempt: nat)
    | BeginAgentResubmission(expectedRun: ExpectedRun, executionId: Id, expectedVersion: nat)

  datatype TaskError =
    | OtherTenant | NotReconcile | MalformedInput | ZeroRevision | InvalidExecutionId | RunVersionOverflow | RevisionExceedsAttempts

  datatype PollOutcome = Idle | DispatchOk | DispatchFailed | StoreFailed | Invalid(error: TaskError)

  /** When a claimed task starts a retry, and which. */
  ghost predicate Begins(task: ClaimedTask, r: Result<Begin, TaskError>) {
    && (r.Ok? <==>
          && task.sameTenant && task.reconcile
          && ReadInput(task.input).Some? && ReadInput(task.input).value.expectedRevision > 0
          && (exists id: Id :: Decodes(ReadInput(task.input).value.executionId, id))
          && task.runVersion + 1 < U64
          && (ReadInput(task.input).value.kind.ToolRetry? ==> ReadInput(task.input).value.expectedRevision < U32))
    && (r.Ok? ==>
          var input := ReadInput(task.input).value;
          && r.value.expectedRun == ExpectedRun(task.runId, task.runVersion, task.generation)
          && Decodes(input.executionId, r.value.executionId)
          && (r.value.BeginToolRetry? <==> input.kind.ToolRetry?)
          && (if r.value.BeginToolRetry? then r.value.expectedAttempt else r.value.expectedVersion) == input.expectedRevision)
  }

  /** What the error says about the task. */
  ghost predicate Faulty(task: ClaimedTask, error: TaskError) {
    match error
    case OtherTenant => !task.sameTenant
    case NotReconcile => !task.reconcile
    case MalformedInput => ReadInput(task.input).None?
    case ZeroRevision => ReadInput(task.input).Some? && ReadInput(task.input).value.expectedRevision == 0
    case InvalidExecutionId =>
      ReadInput(task.input).Some? && !exists id: Id :: Decodes(ReadInput(task.input).value.executionId, id)
    case RunVersionOverflow => task.runVersion + 1 >= U64
    case RevisionExceedsAttempts =>
      ReadInput(task.input).Some? && ReadInput(task.input).value.kind.ToolRetry?
      && ReadInput(task.input).value.expectedRevision >= U32
  }

  /** What a claimed task asks for. */
  method BeginFor(task: ClaimedTask) returns (r: Result<Begin, TaskError>)
    ensures Begins(task, r)
    ensures r.Err? ==> Faulty(task, r.error)
  {
    if !task.sameTenant {
      return Err(OtherTenant);
    }
    if !task.reconcile {
      return Err(NotReconcile);
    }
    var read := ReadInput(task.input);
    if read.None? {
      return Err(MalformedInput);
    }
    var input := read.value;
    if input.expectedRevision == 0 {
      return Err(ZeroRevision);
    }
    var executionId := DecodeHexId(input.executionId);
    if executionId.None? {
      return Err(InvalidExecutionId);
    }
    assert Decodes(input.executionId, executionId.value);
    if task.runVersion + 1 >= U64 {
      return Err(RunVersionOverflow);
    }
    var run := ExpectedRun(task.runId, task.runVersion, task.generation);
    match input.kind {
      case ToolRetry =>
        if input.expectedRevision >= U32 {
          return Err(RevisionExceedsAttempts);
        }
        r := Ok(BeginToolRetry(run, executionId.value, input.expectedRevision));
      case AgentRetry =>
        r := Ok(BeginAgentResubmission(run, executionId.value, input.expectedRevision));
    }
  }

  /** How the commit of a start ends: it goes through, or fails, before or after taking effect. */
  datatype Commit = Committed | NotCommitted | CommittedUnheard

  /** The identity under which a start is committed. */
  datatype StartIdentity = StartIdentity(task: DerivedId, attempt: nat, revision: nat)

  /** The store's part: a start is written once per identity, with its receipt, and a repeated one is answered from the
      receipt. */
  class RecoveryStore {
    var started: map<StartIdentity, Begin>

    constructor ()
      ensures started == map[]
    {
      started := map[];
    }

    method Start(identity: StartIdentity, begin: Begin, commit: Commit) returns (answer: Option<Begin>)
      modifies this
      ensures answer.Some? ==> identity in started && started[identity] == answer.value
      ensures answer.None? <==> commit != Committed && identity !in old(started)
      ensures started == if identity in old(started) || commit.NotCommitted? then old(started) else old(started)[identity := begin]
    {
      if identity in started {
        return Some(started[identity]);
      }
      if !commit.NotCommitted? {
        started := started[identity := begin];
      }
      answer := if commit.Committed? then Some(begin) else None;
    }
  }

  function IdentityOf(task: ClaimedTask): StartIdentity {
    StartIdentity(
      task.taskId, task.attempt,
      match ReadInput(task.input) case Some(input) => input.expectedRevision case None => 0)
  }

  /** One poll: a start is handed to the adapter only when it is in the store, whatever the store's commit does; and a
      start that the store has without the worker hearing of it is not handed over. */
  method PollOnce(store: RecoveryStore, claim: Result<Option<ClaimedTask>, ()>, commit: Commit, dispatchWorks: bool)
    returns (outcome: PollOutcome, dispatched: Option<Begin>)
    modifies store
    ensures dispatched.Some? ==> exists identity :: identity in store.started && store.started[identity] == dispatched.value
    ensures dispatched.Some? <==> outcome.DispatchOk? || outcome.DispatchFailed?
    ensures outcome.Idle? <==> claim == Ok(None)
    ensures dispatched.Some? ==> (outcome.DispatchOk? <==> dispatchWorks)
    ensures outcome.Invalid? ==> claim.Ok? && claim.value.Some? && Begins(claim.value.value, Err(outcome.error))
    ensures store.started != old(store.started) ==>
              && claim.Ok? && claim.value.Some? && !commit.NotCommitted?
              && exists begin :: Begins(claim.value.value, Ok(begin))
                   && store.started == old(store.started)[IdentityOf(claim.value.value) := begin]
    ensures outcome.StoreFailed? && claim.Ok? ==> commit != Committed
  {
    if claim.Err? {
      return StoreFailed, None;
    }
    if claim.value.None? {
      return Idle, None;
    }
    var task := claim.value.value;
    var begin := BeginFor(task);
    if begin.Err? {
      return Invalid(begin.error), None;
    }
    var started := store.Start(IdentityOf(task), begin.value, commit);
    if started.None? {
      return StoreFailed, None;
    }
    dispatched := started;
    outcome := if dispatchWorks then DispatchOk else DispatchFailed;
  }

  // ---------------------------------------------------------------- the round trip

  /** A task as the store hands it out: the planned one, at some later version of its run. */
  ghost predicate ClaimOf(task: ClaimedTask, planned: NewTask, runId: Id) {
    && task.sameTenant && task.reconcile == planned.reconcile && task.input == planned.input
    && task.generation == planned.generation && task.runId == runId
  }

  lemma HexIsPlain(bytes: seq<Byte>)
    ensures AllPlain(Hex(bytes))
  {
  }

  lemma DecodesOnce(text: string, a: Id, b: Id)
    requires Decodes(text, a) && Decodes(text, b)
    ensures a == b
  {
    forall i | 0 <= i < 16 ensures a[i] == b[i] {
      assert ByteFromText(text[2 * i], text[2 * i + 1]) == Some(a[i]);
      assert ByteFromText(text[2 * i], text[2 * i + 1]) == Some(b[i]);
    }
  }

  /** From the planner to the worker: the retry that starts has the candidate's kind, execution and revision. */
  lemma PlannedWorkStarts(planner: Planner, c: Candidate, task: ClaimedTask, r: Result<Begin, TaskError>)
    requires planner.maxAttempts > 0 && 0 < c.expectedRevision < U64
    requires -I64 <= c.dueAt < I64 && (c.kind.ToolRetry? ==> c.expectedRevision < U32)
    requires Plan(planner, c).Ok? ==> ClaimOf(task, Plan(planner, c).value.command.recoveryTask, c.runId)
    requires task.runVersion + 1 < U64 && Begins(task, r)
    ensures Plan(planner, c).Ok?
    ensures var run := ExpectedRun(c.runId, task.runVersion, c.executionGeneration);
            r == Ok(match c.kind
                    case ToolRetry => BeginToolRetry(run, c.executionId, c.expectedRevision)
                    case AgentRetry => BeginAgentResubmission(run, c.executionId, c.expectedRevision))
  {
    PlanNeverFails(planner, c);
    HexIsPlain(c.executionId);
    InputReadsBack(c.kind, Hex(c.executionId), c.expectedRevision);
    PrintedIdDecodes(c.executionId);
    DecodesOnce(Hex(c.executionId), c.executionId, r.value.executionId);
  }

  // ---------------------------------------------------------------- one tick of the scheduler

  datatype Disposition = Applied | Duplicate | NoOp

  datatype TickReport = TickReport(scanned: nat, applied: nat, duplicates: nat, noOps: nat, failures: seq<Candidate>)

  ghost function Failing(planner: Planner, candidates: seq<Candidate>, answers: seq<Result<Disposition, ()>>): seq<Candidate>
    requires |candidates| == |answers|
  {
    if candidates == [] then []
    else
      var n := |candidates| - 1;
      Failing(planner, candidates[..n], answers[..n])
      + if Plan(planner, candidates[n]).Err? || answers[n].Err? then [candidates[n]] else []
  }

  /** How many planned candidates the store answered in this way. */
  ghost function Tally(planner: Planner, candidates: seq<Candidate>, answers: seq<Result<Disposition, ()>>, wanted: Disposition): nat
    requires |candidates| == |answers|
  {
    if candidates == [] then 0
    else
      var n := |candidates| - 1;
      Tally(planner, candidates[..n], answers[..n], wanted)
      + if Plan(planner, candidates[n]).Ok? && answers[n] == Ok(wanted) then 1 else 0
  }

  lemma TallyByOne(planner: Planner, candidates: seq<Candidate>, answers: seq<Result<Disposition, ()>>, wanted: Disposition, i: nat)
    requires i < |candidates| == |answers|
    ensures Tally(planner, candidates[..i + 1], answers[..i + 1], wanted)
         == Tally(planner, candidates[..i], answers[..i], wanted)
            + if Plan(planner, candidates[i]).Ok? && answers[i] == Ok(wanted) then 1 else 0
  {
    assert candidates[..i + 1][..i] == candidates[..i] && answers[..i + 1][..i] == answers[..i];
  }

  /** One failing candidate does not keep the others of its page from being applied. */
  method Tick(planner: Planner, candidates: seq<Candidate>, answers: seq<Result<Disposition, ()>>) returns (report: TickReport)
    requires |candidates| == |answers|
    ensures report.scanned == |candidates|
    ensures report.applied + report.duplicates + report.noOps + |report.failures| == |candidates|
    ensures report.failures == Failing(planner, candidates, answers)
    ensures report.applied == Tally(planner, candidates, answers, Applied)
    ensures report.duplicates == Tally(planner, candidates, answers, Duplicate)
    ensures report.noOps == Tally(planner, candidates, answers, NoOp)
  {
    var applied, duplicates, noOps := 0, 0, 0;
    var failures := [];
    for i := 0 to |candidates|
      invariant applied + duplicates + noOps + |failures| == i
      invariant failures == Failing(planner, candidates[..i], answers[..i])
      invariant applied == Tally(planner, candidates[..i], answers[..i], Applied)
      invariant duplicates == Tally(planner, candidates[..i], answers[..i], Duplicate)
      invariant noOps == Tally(planner, candidates[..i], answers[..i], NoOp)
    {
      FailingByOne(planner, candidates, answers, i);
      TallyByOne(planner, candidates, answers, Applied, i);
      TallyByOne(planner, candidates, answers, Duplicate, i);
      TallyByOne(planner, candidates, answers, NoOp, i);
      var planned := Plan(planner, candidates[i]);
      if planned.Err? || answers[i].Err? {
        failures := failures + [candidates[i]];
      } else {
        match answers[i].value {
          case Applied => applied := applied + 1;
          case Duplicate => duplicates := duplicates + 1;
          case NoOp => noOps := noOps + 1;
        }
      }
    }
    assert candidates[..|candidates|] == candidates && answers[..|answers|] == answers;
    report := TickReport(|candidates|, applied, duplicates, noOps, failures);
  }

  lemma FailingByOne(planner: Planner, candidates: seq<Candidate>, answers: seq<Result<Disposition, ()>>, i: nat)
    requires i < |candidates| == |answers|
    ensures Failing(planner, candidates[..i + 1], answers[..i + 1])
         == Failing(planner, candidates[..i], answers[..i])
            + if Plan(planner, candidates[i]).Err? || answers[i].Err? then [candidates[i]] else []
  {
    assert candidates[..i + 1][..i] == candidates[..i] && answers[..i + 1][..i] == answers[..i];
  }

  /** The candidates whose own answer is an error, in order. */
  ghost function Refused(candidates: seq<Candidate>, answers: seq<Result<Disposition, ()>>): seq<Candidate>
    requires |candidates| == |answers|
  {
    if candidates == [] then []
    else
      var n := |candidates| - 1;
      Refused(candidates[..n], answers[..n]) + if answers[n].Err? then [candidates[n]] else []
  }

  /** So only the store fails a candidate: the failures are exactly those that it answered with an error. */
  lemma {:induction false} OnlyTheStoreFails(planner: Planner, candidates: seq<Candidate>, answers: seq<Result<Disposition, ()>>)
    requires planner.maxAttempts > 0 && |candidates| == |answers|
    requires forall c :: c in candidates ==> -I64 <= c.dueAt < I64 && c.expectedRevision < U64
    ensures Failing(planner, candidates, answers) == Refused(candidates, answers)
  {
    if candidates != [] {
      var n := |candidates| - 1;
      OnlyTheStoreFails(planner, candidates[..n], answers[..n]);
      PlanNeverFails(planner, candidates[n]);
    }
  }
}
