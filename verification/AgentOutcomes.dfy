/** The outcome commands of the stop, status and event workers, and the store's own check of them
    (crates/runtime/src/adapter/mod.rs, crates/store-postgres/src/transaction_executor.rs). */
module AgentOutcomes {
  import opened Prelude
  import opened HttpAgentAdapter
  import opened AgentDispatch
  import EI = EventIngestion
  import EventReceipts

  datatype RemoteRef = RemoteRef(runId: string, sessionId: Option<string>, protocolVersion: string)

  datatype RemoteStatus =
    | RAccepted | RRunning | RWaitingForApproval | RWaitingForInput | RStopping
    | RCompleted | RFailed | RCancelled | RUnknown

  datatype RemoteSnapshot = RemoteSnapshot(remote: RemoteRef, status: RemoteStatus, result: Option<string>)

  datatype StopReply = StopAccepted | AlreadyTerminal(status: RemoteStatus) | StopUncertain | StopUnsupported

  /** The part of an execution that the workers read. */
  datatype Candidate = Candidate(
    version: nat,
    status: Status,
    remoteRunRef: Option<string>,
    remoteSessionRef: Option<string>,
    remoteProtocolVersion: Option<string>,
    statusPollAt: Option<int>,
    eventCursor: Option<string>,
    cursorVersion: nat)

  /** What a worker finds out before it calls the remote. */
  datatype Findings = Findings(
    invocation: Option<bool>,
    adapterRegistered: bool,
    resumableEvents: bool,
    contextError: Option<AdapterError>)

  datatype RecordOutcome = RecordOutcome(
    expectedVersion: nat,
    status: Status,
    result: Option<string>,
    errorCode: Option<string>,
    nextStatusPollAt: Option<int>)

  datatype Projected = Projected(status: Status, result: Option<string>, errorCode: Option<string>)

  function ManualReviewOf(code: string): Projected {
    Projected(EI.ManualReview, None, Some(code))
  }

  function ProjectError(error: AdapterError): Projected {
    Projected(
      if error.retry.Never? || error.retry.ManualReview? then EI.ManualReview else EI.Reconciling,
      None,
      Some(if error.code == "" then "AGENT_STOP_FAILED" else error.code))
  }

  function ProjectStopReply(reply: StopReply): Projected {
    match reply
    case StopAccepted => Projected(EI.Reconciling, None, None)
    case AlreadyTerminal(RCancelled) => Projected(EI.Cancelled, None, None)
    case AlreadyTerminal(RFailed) => Projected(EI.Failed, None, Some("REMOTE_AGENT_FAILED"))
    case AlreadyTerminal(_) => Projected(EI.Reconciling, None, Some("STOP_OUTCOME_REQUIRES_RECONCILIATION"))
    case StopUncertain => Projected(EI.Reconciling, None, Some("STOP_OUTCOME_REQUIRES_RECONCILIATION"))
    case StopUnsupported => Projected(EI.ManualReview, None, Some("STOP_UNSUPPORTED"))
  }

  function ProjectRemoteStatus(expected: RemoteRef, snapshot: RemoteSnapshot): Option<Projected> {
    if snapshot.remote != expected then None
    else Some(
      match snapshot.status
      case RCompleted =>
        if snapshot.result.Some? then Projected(EI.Succeeded, snapshot.result, None) else ManualReviewOf("REMOTE_RESULT_MISSING")
      case RFailed => Projected(EI.Failed, None, Some("REMOTE_AGENT_FAILED"))
      case RCancelled => Projected(EI.Cancelled, None, None)
      case RUnknown => Projected(EI.Reconciling, None, Some("REMOTE_STATUS_UNKNOWN"))
      case _ => Projected(EI.Reconciling, None, None))
  }

  /** The workers take up only executions with a remote identity. */
  predicate HasRemote(c: Candidate) {
    c.remoteRunRef.Some? && c.remoteProtocolVersion.Some?
  }

  function RemoteOf(c: Candidate): Option<RemoteRef> {
    if c.remoteRunRef.Some? && c.remoteProtocolVersion.Some?
    then Some(RemoteRef(c.remoteRunRef.value, c.remoteSessionRef, c.remoteProtocolVersion.value)) else None
  }

  /** The poll time is asked for only when reconciling; without one nothing is recorded. */
  function RecordProjection(c: Candidate, p: Projected, schedule: Option<int>): Option<RecordOutcome> {
    if p.status.Reconciling? then
      if schedule.None? then None else Some(RecordOutcome(c.version, p.status, p.result, p.errorCode, schedule))
    else Some(RecordOutcome(c.version, p.status, p.result, p.errorCode, None))
  }

  /** A manual review needs no poll time. */
  function RecordReview(c: Candidate, code: string): RecordOutcome {
    RecordOutcome(c.version, EI.ManualReview, None, Some(code), None)
  }

  // ---------------------------------------------------------------- the three workers

  function FailedFindings(f: Findings): Option<string> {
    if f.invocation.None? then Some("INVOCATION_ENVELOPE_MISSING")
    else if !f.invocation.value then Some("INVOCATION_ENVELOPE_MISMATCH")
    else if !f.adapterRegistered then Some("ADAPTER_NOT_REGISTERED")
    else None
  }

  function StopWorker(c: Candidate, f: Findings, reply: Result<StopReply, AdapterError>, schedule: Option<int>): Option<RecordOutcome> {
    if !(c.status.Stopping? && HasRemote(c)) then None
    else
      var projected :=
        if FailedFindings(f).Some? then ManualReviewOf(FailedFindings(f).value)
        else if f.contextError.Some? then ProjectError(f.contextError.value)
        else match reply case Ok(r) => ProjectStopReply(r) case Err(error) => ProjectError(error);
      RecordProjection(c, projected, schedule)
  }

  function StatusWorker(c: Candidate, f: Findings, reply: Result<RemoteSnapshot, AdapterError>, schedule: Option<int>): Option<RecordOutcome> {
    if !(c.status.Reconciling? && HasRemote(c) && c.statusPollAt.Some?) then None
    else
      var projected :=
        if FailedFindings(f).Some? then ManualReviewOf(FailedFindings(f).value)
        else if RemoteOf(c).None? then ManualReviewOf("REMOTE_IDENTITY_MISSING")
        else if f.contextError.Some? then ProjectError(f.contextError.value)
        else match reply
          case Err(error) => ProjectError(error)
          case Ok(snapshot) =>
            match ProjectRemoteStatus(RemoteOf(c).value, snapshot)
            case Some(p) => p
            case None => ManualReviewOf("REMOTE_IDENTITY_MISMATCH");
      RecordProjection(c, projected, schedule)
  }

  /** An event error ends in an empty batch at the old cursor or in an outcome that keeps the adapter's code. */
  datatype EventResult = Nothing | Append(batch: EI.RemoteEventBatch) | Outcome(command: RecordOutcome)

  function EventError(c: Candidate, error: AdapterError, schedule: Option<int>): EventResult {
    if error.retry.SameRequestBackoff? || error.retry.ReconnectAndResume? then
      Append(EI.RemoteEventBatch([], c.eventCursor, false))
    else
      var status := if error.retry.QueryOutcome? then EI.Reconciling else EI.ManualReview;
      match RecordProjection(c, Projected(status, None, Some(error.code)), schedule)
      case Some(command) => Outcome(command)
      case None => Nothing
  }

  function EventWorker(c: Candidate, f: Findings, reply: Result<EI.RemoteEventBatch, AdapterError>, schedule: Option<int>): EventResult {
    if !(c.status.Running? && HasRemote(c) && c.statusPollAt.Some?) then Nothing
    else if FailedFindings(f).Some? then Outcome(RecordReview(c, FailedFindings(f).value))
    else if !f.resumableEvents then Outcome(RecordReview(c, "RESUMABLE_EVENTS_UNSUPPORTED"))
    else if RemoteOf(c).None? then Outcome(RecordReview(c, "REMOTE_IDENTITY_MISSING"))
    else if f.contextError.Some? then EventError(c, f.contextError.value, schedule)
    else match reply
      case Err(error) => EventError(c, error, schedule)
      case Ok(batch) => Append(batch)
  }

  // ---------------------------------------------------------------- the store's check

  predicate ShapeIsValid(o: RecordOutcome) {
    o.status in {EI.Succeeded, EI.Failed, EI.Cancelled, EI.OutcomeUnknown, EI.Reconciling, EI.ManualReview}
  }

  predicate StoreAccepts(o: RecordOutcome) {
    && ShapeIsValid(o)
    && o.errorCode != Some("")
    && (!o.status.Reconciling? ==> o.nextStatusPollAt.None?)
    && EI.OutcomeShapeFine(EI.ExecutionOutcome(o.status, o.result, o.errorCode))
  }

  /** What every outcome command of a worker satisfies, whatever the remote answers. */
  ghost predicate Lawful(c: Candidate, o: RecordOutcome) {
    && o.expectedVersion == c.version
    && ShapeIsValid(o)
    && (o.nextStatusPollAt.Some? <==> o.status.Reconciling?)
    && (o.result.Some? <==> o.status.Succeeded?)
    && (StoreAccepts(o) <==> o.errorCode != Some(""))
  }

  /** The store's check, condition by condition. */
  lemma AcceptedIff(o: RecordOutcome)
    ensures StoreAccepts(o) <==>
              && (o.status == EI.Succeeded || o.status == EI.Failed || o.status == EI.Cancelled
                  || o.status == EI.OutcomeUnknown || o.status == EI.Reconciling || o.status == EI.ManualReview)
              && (o.result.Some? <==> o.status == EI.Succeeded)
              && (o.status == EI.Succeeded ==> o.errorCode == None)
              && (o.status == EI.Failed ==> o.errorCode != None)
              && o.errorCode != Some("")
              && (o.nextStatusPollAt.Some? ==> o.status == EI.Reconciling)
  {
  }

  // ---------------------------------------------------------------- which outcome it is

  /** The adapter error that a worker that found everything else in order has to deal with. */
  function Failure<T>(f: Findings, reply: Result<T, AdapterError>): Option<AdapterError> {
    if f.contextError.Some? then f.contextError else if reply.Err? then Some(reply.error) else None
  }

  /** A review that was called for before the remote was asked. */
  ghost predicate ReviewedFor(f: Findings, o: RecordOutcome) {
    && o.status == EI.ManualReview
    && (f.invocation == None ==> o.errorCode == Some("INVOCATION_ENVELOPE_MISSING"))
    && (f.invocation == Some(false) ==> o.errorCode == Some("INVOCATION_ENVELOPE_MISMATCH"))
    && (f.invocation == Some(true) && !f.adapterRegistered ==> o.errorCode == Some("ADAPTER_NOT_REGISTERED"))
  }

  ghost predicate InOrder(f: Findings) {
    f.invocation == Some(true) && f.adapterRegistered
  }

  /** What an adapter error comes to: a review if it forbids or asks for nothing else, and else a later poll. */
  ghost predicate FailsWith(error: AdapterError, o: RecordOutcome) {
    && (o.status == EI.ManualReview <==> error.retry == Never || error.retry == ManualReview)
    && (o.status == EI.Reconciling <==> error.retry == SameRequestBackoff || error.retry == ReconnectAndResume || error.retry == QueryOutcome)
    && o.errorCode == Some(if error.code != "" then error.code else "AGENT_STOP_FAILED")
  }

  /** Exactly which outcome a stop records. */
  lemma StopOutcomeIsDecided(c: Candidate, f: Findings, reply: Result<StopReply, AdapterError>, schedule: Option<int>)
    ensures var r, failure := StopWorker(c, f, reply, schedule), Failure(f, reply);
            && (r.Some? ==> c.status == EI.Stopping && RemoteOf(c).Some? && r.value.expectedVersion == c.version && r.value.result == None)
            && (r.Some? && !InOrder(f) ==> ReviewedFor(f, r.value))
            && (r.Some? && InOrder(f) && failure.Some? ==> FailsWith(failure.value, r.value))
            && (r.Some? && InOrder(f) && failure == None ==>
                  && (r.value.status == EI.Cancelled <==> reply.value == AlreadyTerminal(RCancelled))
                  && (r.value.status == EI.Failed <==> reply.value == AlreadyTerminal(RFailed))
                  && (r.value.status == EI.ManualReview <==> reply.value == StopUnsupported)
                  && (r.value.status == EI.Reconciling <==>
                        reply.value == StopAccepted || reply.value == StopUncertain
                        || (reply.value.AlreadyTerminal? && reply.value.status != RCancelled && reply.value.status != RFailed))
                  && (r.value.errorCode == None <==> reply.value == StopAccepted || reply.value == AlreadyTerminal(RCancelled))
                  && (reply.value == AlreadyTerminal(RFailed) ==> r.value.errorCode == Some("REMOTE_AGENT_FAILED"))
                  && (reply.value == StopUnsupported ==> r.value.errorCode == Some("STOP_UNSUPPORTED"))
                  && (r.value.status == EI.Reconciling && r.value.errorCode != None ==>
                        r.value.errorCode == Some("STOP_OUTCOME_REQUIRES_RECONCILIATION")))
            && (r.Some? && r.value.status == EI.Reconciling ==> r.value.nextStatusPollAt == schedule)
            && (r == None ==> c.status != EI.Stopping || RemoteOf(c) == None || schedule == None)
  {
  }

  /** Exactly which outcome a status poll records; an answer about another remote run is never taken. */
  lemma StatusOutcomeIsDecided(c: Candidate, f: Findings, reply: Result<RemoteSnapshot, AdapterError>, schedule: Option<int>)
    ensures var r, failure := StatusWorker(c, f, reply, schedule), Failure(f, reply);
            && (r.Some? ==>
                  c.status == EI.Reconciling && RemoteOf(c).Some? && c.statusPollAt.Some? && r.value.expectedVersion == c.version)
            && (r.Some? && !InOrder(f) ==> ReviewedFor(f, r.value))
            && (r.Some? && InOrder(f) && failure.Some? ==> FailsWith(failure.value, r.value))
            && (r.Some? && InOrder(f) && failure == None && Some(reply.value.remote) != RemoteOf(c) ==>
                  r.value.status == EI.ManualReview && r.value.errorCode == Some("REMOTE_IDENTITY_MISMATCH"))
            && (r.Some? && InOrder(f) && failure == None && Some(reply.value.remote) == RemoteOf(c) ==>
                  var status, result := reply.value.status, reply.value.result;
                  && (r.value.status == EI.Succeeded <==> status == RCompleted && result.Some?)
                  && (r.value.status == EI.ManualReview <==> status == RCompleted && result == None)
                  && (r.value.status == EI.Failed <==> status == RFailed)
                  && (r.value.status == EI.Cancelled <==> status == RCancelled)
                  && (r.value.status == EI.Reconciling <==> status != RCompleted && status != RFailed && status != RCancelled)
                  && r.value.result == (if status == RCompleted then result else None)
                  && (status == RCompleted && result == None ==> r.value.errorCode == Some("REMOTE_RESULT_MISSING"))
                  && (status == RFailed ==> r.value.errorCode == Some("REMOTE_AGENT_FAILED"))
                  && (status == RUnknown ==> r.value.errorCode == Some("REMOTE_STATUS_UNKNOWN"))
                  && (r.value.errorCode == None <==>
                        status != RFailed && status != RUnknown && (status == RCompleted ==> result.Some?)))
            && (r.Some? && r.value.status == EI.Reconciling ==> r.value.nextStatusPollAt == schedule)
            && (r == None ==> c.status != EI.Reconciling || RemoteOf(c) == None || c.statusPollAt == None || schedule == None)
  {
  }

  lemma StopRepliesAreLawful(c: Candidate, reply: StopReply, schedule: Option<int>)
    ensures var r := RecordProjection(c, ProjectStopReply(reply), schedule);
            r.Some? ==>
              && Lawful(c, r.value) && StoreAccepts(r.value) && !r.value.status.Succeeded?
              && (r.value.status.Cancelled? ==> reply == AlreadyTerminal(RCancelled))
              && (r.value.status.Failed? ==> reply == AlreadyTerminal(RFailed))
  {
    if reply.AlreadyTerminal? {
      match reply.status { case RCancelled => case RFailed => case _ => }
    }
  }

  /** A stop is never recorded as a success, and as an end only on the remote's word. */
  lemma StopOutcomesAreLawful(c: Candidate, f: Findings, reply: Result<StopReply, AdapterError>, schedule: Option<int>)
    ensures var r := StopWorker(c, f, reply, schedule);
            r.Some? ==>
              && Lawful(c, r.value) && StoreAccepts(r.value) && !r.value.status.Succeeded?
              && (r.value.status.Cancelled? ==> reply == Ok(AlreadyTerminal(RCancelled)))
              && (r.value.status.Failed? ==> reply == Ok(AlreadyTerminal(RFailed)))
    ensures StopWorker(c, f, reply, schedule).None? ==>
              schedule.None? || !c.status.Stopping? || RemoteOf(c).None?
  {
    if reply.Ok? {
      StopRepliesAreLawful(c, reply.value, schedule);
    }
  }

  /** Success is recorded only for a completed remote run with a result, under the identity that was recorded. */
  lemma StatusOutcomesAreLawful(c: Candidate, f: Findings, reply: Result<RemoteSnapshot, AdapterError>, schedule: Option<int>)
    ensures var r := StatusWorker(c, f, reply, schedule);
            r.Some? ==>
              && Lawful(c, r.value) && StoreAccepts(r.value)
              && (r.value.status.Succeeded? || r.value.status.Failed? || r.value.status.Cancelled? ==>
                    reply.Ok? && Some(reply.value.remote) == RemoteOf(c))
              && (r.value.status.Succeeded? ==>
                    reply.value.status.RCompleted? && r.value.result == reply.value.result)
              && (r.value.status.Failed? ==> reply.value.status.RFailed?)
              && (r.value.status.Cancelled? ==> reply.value.status.RCancelled?)
    ensures var clear := c.status.Reconciling? && RemoteOf(c).Some? && c.statusPollAt.Some?
                         && FailedFindings(f).None? && f.contextError.None?;
            clear && reply.Ok? && Some(reply.value.remote) == RemoteOf(c) && reply.value.status.RCompleted? && reply.value.result.Some? ==>
              StatusWorker(c, f, reply, schedule).Some? && StatusWorker(c, f, reply, schedule).value.status.Succeeded?
  {
  }

  /** The error code that an event worker passes on untouched. */
  function EventErrorCode(f: Findings, reply: Result<EI.RemoteEventBatch, AdapterError>): Option<string> {
    if FailedFindings(f).Some? || !f.resumableEvents then None
    else if f.contextError.Some? then Some(f.contextError.value.code)
    else if reply.Err? then Some(reply.error.code)
    else None
  }

  /** Event outcomes are lawful too, but here an empty error code reaches the store, which refuses it. */
  lemma EventOutcomesAreLawful(c: Candidate, f: Findings, reply: Result<EI.RemoteEventBatch, AdapterError>, schedule: Option<int>)
    ensures var r := EventWorker(c, f, reply, schedule);
            r.Outcome? ==>
              && Lawful(c, r.command)
              && (r.command.status.Reconciling? || r.command.status.ManualReview?)
              && (StoreAccepts(r.command) <==> EventErrorCode(f, reply) != Some(""))
  {
  }

  /** Exactly what an event worker does: an error that lets the read be repeated appends nothing, one that leaves the
      outcome open asks for the status, any other for a review. */
  lemma EventResultIsDecided(c: Candidate, f: Findings, reply: Result<EI.RemoteEventBatch, AdapterError>, schedule: Option<int>)
    ensures var r, failure := EventWorker(c, f, reply, schedule), Failure(f, reply);
            var mine, clear := c.status == EI.Running && RemoteOf(c).Some? && c.statusPollAt.Some?, InOrder(f) && f.resumableEvents;
            && (!mine ==> r == Nothing)
            && (mine && !InOrder(f) ==> r.Outcome? && ReviewedFor(f, r.command))
            && (mine && InOrder(f) && !f.resumableEvents ==>
                  r.Outcome? && r.command.status == EI.ManualReview && r.command.errorCode == Some("RESUMABLE_EVENTS_UNSUPPORTED"))
            && (mine && clear ==>
                  && (r.Append? <==> failure == None || failure.value.retry == SameRequestBackoff || failure.value.retry == ReconnectAndResume)
                  && (r.Outcome? && r.command.status == EI.Reconciling <==>
                        failure.Some? && failure.value.retry == QueryOutcome && schedule.Some?)
                  && (r.Outcome? && r.command.status == EI.ManualReview <==>
                        failure.Some? && (failure.value.retry == Never || failure.value.retry == ManualReview))
                  && (r.Nothing? <==> failure.Some? && failure.value.retry == QueryOutcome && schedule == None)
                  && (r.Outcome? ==> r.command.errorCode == Some(failure.value.code)))
  {
  }

  /** What a read appends: the remote's events, cursor and terminal mark if it answered with a batch, and else nothing at
      the cursor where the read started. */
  lemma AppendedBatchIsTheRemotes(c: Candidate, f: Findings, reply: Result<EI.RemoteEventBatch, AdapterError>, schedule: Option<int>)
    ensures var r := EventWorker(c, f, reply, schedule);
            var clear := c.status.Running? && RemoteOf(c).Some? && c.statusPollAt.Some?
                         && FailedFindings(f).None? && f.resumableEvents && f.contextError.None?;
            && (clear && reply.Ok? ==>
                  r.Append? && r.batch.events == reply.value.events && r.batch.nextCursor == reply.value.nextCursor
                  && r.batch.terminal == reply.value.terminal)
            && (r.Append? && !(clear && reply.Ok?) ==> r.batch.events == [] && r.batch.nextCursor == c.eventCursor && !r.batch.terminal)
  {
  }

  lemma EmptyEventErrorIsRefused(c: Candidate)
    requires c.status.Running? && RemoteOf(c).Some? && c.statusPollAt.Some?
    ensures var r := EventWorker(c, Findings(Some(true), true, true, None), Err(AdapterError("", Never)), None);
            r.Outcome? && !StoreAccepts(r.command)
  {
  }

  /** After a passing event error the read is repeated at the old cursor, and the store takes the empty batch. */
  lemma RetriedReadIsAccepted(
    c: Candidate, execution: EI.ExecutionId, f: Findings, reply: Result<EI.RemoteEventBatch, AdapterError>, schedule: Option<int>, pollAt: int)
    requires c.eventCursor != Some("") && EventWorker(c, f, reply, schedule).Append? && EventErrorCode(f, reply).Some?
    ensures var batch := EventWorker(c, f, reply, schedule).batch;
            && EI.Consistent(batch.events) && batch.nextCursor == c.eventCursor && !batch.terminal
            && EI.ValidateShape(EventReceipts.Command(execution, c.cursorVersion, batch.nextCursor, pollAt, batch.terminal, batch.events)).None?
  {
    var batch := EventWorker(c, f, reply, schedule).batch;
    EventReceipts.NormalizedCommandIsAccepted(execution, c.cursorVersion, batch.nextCursor, pollAt, batch.terminal, batch.events);
  }
}
