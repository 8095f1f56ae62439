/** One dispatch of an Agent execution to a remote server, and what the store makes of its outcome
    (crates/runtime/src/adapter/mod.rs, crates/store-postgres/src/transaction_executor.rs). */
module AgentDispatch {
  import opened Prelude
  import opened HttpAgentAdapter
  import EI = EventIngestion

  type Status = EI.ExecutionStatus

  /** What a dispatch asks the store to record. Remote runs are numbered in order of creation. */
  datatype Outcome =
    | Accepted(run: nat)
    | Uncertain
    | Rejected(code: string, retry: RetryClass, retryAt: Option<int>)

  datatype Call = ReconcileCall | SubmitCall

  /** What a dispatch finds out before it calls the remote. */
  datatype Preflight = Preflight(
    invocation: Option<bool>,
    requestError: Option<AdapterError>,
    adapterRegistered: bool,
    adapterIdempotent: bool,
    snapshotIdempotent: bool,
    adapterReconciles: bool,
    contextError: Option<AdapterError>)

  /** An adapter error as an outcome; the retry schedule may fail to give a time. */
  function ErrorOutcome(error: AdapterError, schedule: Option<int>): Option<Outcome> {
    if error.retry.ReconnectAndResume? || error.retry.QueryOutcome? then Some(Uncertain)
    else if error.retry.SameRequestBackoff? then
      if schedule.None? then None else Some(Rejected(error.code, error.retry, schedule))
    else Some(Rejected(error.code, error.retry, None))
  }

  /** An error leaves the outcome open exactly if its class asks to query or to resume; any other rejects the submission
      with its code and class, and with the scheduled time exactly if the same request is to be repeated. */
  lemma ErrorOutcomeIsDecided(error: AdapterError, schedule: Option<int>)
    ensures var r := ErrorOutcome(error, schedule);
            && (r == Some(Uncertain) <==> error.retry == ReconnectAndResume || error.retry == QueryOutcome)
            && (r == None <==> error.retry == SameRequestBackoff && schedule == None)
            && (r.Some? && r.value != Uncertain ==>
                  r.value == Rejected(error.code, error.retry, if error.retry == SameRequestBackoff then schedule else None))
  {
  }

  function ConfigurationError(code: string): AdapterError {
    AdapterError(code, ManualReview)
  }

  /** The dispatch may call the remote. */
  predicate Cleared(p: Preflight, status: Status) {
    && p.invocation == Some(true) && p.requestError.None? && p.adapterRegistered
    && p.adapterIdempotent && p.snapshotIdempotent
    && (status.OutcomeUnknown? ==> p.adapterReconciles)
    && p.contextError.None?
  }

  datatype Check = Clear | Abort | Fail(error: AdapterError)

  /** The checks before the first call, in order: a mismatched envelope ends the dispatch without a record. */
  function CheckFirst(p: Preflight, status: Status): (c: Check)
    ensures c.Clear? <==> Cleared(p, status)
    ensures c.Abort? <==> p.invocation == Some(false)
    ensures c.Fail? && p.requestError.None? && p.contextError.None? ==> c.error.retry.ManualReview? && c.error.code != ""
  {
    if p.invocation.None? then Fail(ConfigurationError("INVOCATION_ENVELOPE_MISSING"))
    else if !p.invocation.value then Abort
    else if p.requestError.Some? then Fail(p.requestError.value)
    else if !p.adapterRegistered then Fail(ConfigurationError("ADAPTER_NOT_REGISTERED"))
    else if !p.adapterIdempotent || !p.snapshotIdempotent then Fail(ConfigurationError("AGENT_REPLAY_CAPABILITY_MISSING"))
    else if status.OutcomeUnknown? && !p.adapterReconciles then
      Fail(ConfigurationError("AGENT_RECONCILIATION_CAPABILITY_MISSING"))
    else if p.contextError.Some? then Fail(p.contextError.value)
    else Clear
  }

  /** The calls of a dispatch that submits: an unknown outcome is reconciled first. */
  function CallsToSubmit(status: Status): seq<Call> {
    if status.OutcomeUnknown? then [ReconcileCall, SubmitCall] else [SubmitCall]
  }

  /** The outcome of a submit call. */
  function SubmitOutcome(submit: Result<SubmitReply, AdapterError>, schedule: Option<int>): Option<Outcome> {
    match submit
    case Ok(RunAccepted(run)) => Some(Accepted(run))
    case Ok(SubmissionUncertain) => Some(Uncertain)
    case Err(error) => ErrorOutcome(error, schedule)
  }

  /** What one dispatch calls and records: nothing unless every check passes, a submission only of a prepared execution
      or after the remote denied knowing of one, and then the remote's answer. */
  ghost predicate Dispatches(
    status: Status, p: Preflight, reconcile: Result<Option<nat>, AdapterError>, submit: Result<SubmitReply, AdapterError>,
    schedule: Option<int>, calls: seq<Call>, outcome: Option<Outcome>)
  {
    && (calls == [] <==> !Cleared(p, status))
    && (status.OutcomeUnknown? && calls != [] ==> calls[0] == ReconcileCall && (SubmitCall in calls <==> reconcile == Ok(None)))
    && (SubmitCall in calls ==> calls == CallsToSubmit(status))
    && (calls == [] || calls == [ReconcileCall] || SubmitCall in calls)
    && (!status.OutcomeUnknown? ==> ReconcileCall !in calls)
    && outcome ==
       if calls == [] then (match CheckFirst(p, status) case Fail(error) => ErrorOutcome(error, schedule) case _ => None)
       else if SubmitCall in calls then SubmitOutcome(submit, schedule)
       else match reconcile
         case Ok(Some(run)) => Some(Accepted(run))
         case Ok(None) => None
         case Err(error) => ErrorOutcome(error, schedule)
  }

  /** One dispatch. The answers of the remote and of the retry schedule are used only if they are asked for;
      no outcome means that nothing is recorded. */
  method DispatchAgent(
    status: Status, p: Preflight, reconcile: Result<Option<nat>, AdapterError>,
    submit: Result<SubmitReply, AdapterError>, schedule: Option<int>)
    returns (calls: seq<Call>, outcome: Option<Outcome>)
    ensures Dispatches(status, p, reconcile, submit, schedule, calls, outcome)
  {
    calls := [];
    var check := CheckFirst(p, status);
    if check.Abort? {
      return calls, None;
    }
    if check.Fail? {
      return calls, ErrorOutcome(check.error, schedule);
    }
    var reconciling := status.OutcomeUnknown?;
    var reconciled: Option<nat> := None;
    if reconciling {
      calls := calls + [ReconcileCall];
      if reconcile.Err? {
        return calls, ErrorOutcome(reconcile.error, schedule);
      }
      reconciled := reconcile.value;
    }
    if reconciled.Some? {
      return calls, Some(Accepted(reconciled.value));
    }
    calls := calls + [SubmitCall];
    match submit {
      case Ok(RunAccepted(run)) => outcome := Some(Accepted(run));
      case Ok(SubmissionUncertain) => outcome := Some(Uncertain);
      case Err(error) => outcome := ErrorOutcome(error, schedule);
    }
  }

  // ---------------------------------------------------------------- the store's side

  datatype Execution = Execution(status: Status, version: nat, remoteRef: Option<nat>, errorCode: Option<string>, retryAt: Option<int>)

  datatype Snapshot = Snapshot(status: Status, version: nat)

  /** The state that an outcome projects to; None when the store refuses the command. */
  function Projected(outcome: Outcome): Option<Status> {
    match outcome
    case Accepted(_) => Some(EI.Running)
    case Uncertain => Some(EI.OutcomeUnknown)
    case Rejected(code, retry, retryAt) =>
      if code == "" || (retry.SameRequestBackoff? != retryAt.Some?) then None
      else match retry
        case Never => Some(EI.Failed)
        case ManualReview => Some(EI.ManualReview)
        case _ => Some(EI.Reconciling)
  }

  function LateAfterStop(e: Execution, expected: nat): bool {
    e.status.Stopping? && e.version == expected + 1
  }

  /** Compare-and-set on the version; a result that arrives just after a stop is still taken. */
  function Recorded(e: Execution, expected: nat, outcome: Outcome): Option<Execution> {
    if Projected(outcome).None? then None
    else if e.version != expected && !LateAfterStop(e, expected) then None
    else if !(e.status.Submitting? || e.status.OutcomeUnknown?) && !LateAfterStop(e, expected) then None
    else
      Some(Execution(
             if LateAfterStop(e, expected) && outcome.Accepted? then EI.Stopping else Projected(outcome).value,
             e.version + 1,
             if outcome.Accepted? then Some(outcome.run) else None,
             if outcome.Rejected? then Some(outcome.code) else None,
             if outcome.Rejected? then outcome.retryAt else None))
  }

  function Resubmission(e: Execution): Option<Execution> {
    if e.status.Reconciling? && e.retryAt.None? && e.remoteRef.None?
    then Some(e.(status := EI.OutcomeUnknown, version := e.version + 1, errorCode := None)) else None
  }
}
