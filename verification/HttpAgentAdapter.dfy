/** How the HTTP adapter turns an exchange with an Agent server into an answer or a classified error
    (crates/adapter-http/src/lib.rs). */
module HttpAgentAdapter {
  import opened Prelude

  datatype RetryClass = Never | SameRequestBackoff | ReconnectAndResume | QueryOutcome | ManualReview

  datatype AdapterError = AdapterError(code: string, retry: RetryClass)

  /** A body that decodes names a run, or an empty id, and a protocol version. Runs are numbered in order of creation. */
  datatype Body = Undecodable | RunBody(run: Option<nat>, versionMatches: bool)

  datatype Response = Response(status: nat, size: nat, body: Body)

  /** The request could not be built or authorised, no complete response came back, or one did. */
  datatype Exchange = Unsendable(error: AdapterError) | NoAnswer(timeout: bool) | Answered(response: Response)

  datatype SubmitReply = RunAccepted(run: nat) | SubmissionUncertain

  predicate IsSuccess(status: nat) {
    200 <= status < 300
  }

  predicate IsServerError(status: nat) {
    500 <= status < 600
  }

  function StatusError(status: nat): AdapterError {
    if status == 401 then AdapterError("AUTHENTICATION_FAILED", ManualReview)
    else if status == 403 then AdapterError("AUTHORIZATION_FAILED", ManualReview)
    else if status == 404 then AdapterError("REMOTE_RUN_NOT_FOUND", Never)
    else if status == 429 then AdapterError("RATE_LIMITED", SameRequestBackoff)
    else if IsServerError(status) then AdapterError("ENDPOINT_UNAVAILABLE", SameRequestBackoff)
    else AdapterError("REMOTE_REJECTED", Never)
  }

  function TransportError(timeout: bool): AdapterError {
    AdapterError(if timeout then "REMOTE_TIMEOUT" else "ENDPOINT_UNAVAILABLE", QueryOutcome)
  }

  const InvalidPayload := AdapterError("INVALID_REMOTE_PAYLOAD", Never)

  /** The size is checked before the status, and the status before the body. */
  function SendJson(x: Exchange, maxResponseBytes: nat): Result<Body, AdapterError> {
    match x
    case Unsendable(error) => Err(error)
    case NoAnswer(timeout) => Err(TransportError(timeout))
    case Answered(r) =>
      if r.size > maxResponseBytes then Err(AdapterError("PAYLOAD_TOO_LARGE", Never))
      else if !IsSuccess(r.status) then Err(StatusError(r.status))
      else if r.body.Undecodable? then Err(InvalidPayload)
      else Ok(r.body)
  }

  function IntoRemote(body: Body): Result<nat, AdapterError> {
    if body.Undecodable? || body.run.None? || !body.versionMatches then Err(InvalidPayload) else Ok(body.run.value)
  }

  predicate MayBeUncertain(error: AdapterError) {
    error.code == "REMOTE_TIMEOUT" || error.code == "ENDPOINT_UNAVAILABLE"
  }

  function Submit(x: Exchange, maxResponseBytes: nat): Result<SubmitReply, AdapterError> {
    match SendJson(x, maxResponseBytes)
    case Ok(body) =>
      (match IntoRemote(body)
       case Ok(run) => Ok(RunAccepted(run))
       case Err(error) => Err(error))
    case Err(error) => if MayBeUncertain(error) then Ok(SubmissionUncertain) else Err(error)
  }

  function ReconcileSubmission(x: Exchange, maxResponseBytes: nat): Result<Option<nat>, AdapterError> {
    match SendJson(x, maxResponseBytes)
    case Ok(body) =>
      (match IntoRemote(body)
       case Ok(run) => Ok(Some(run))
       case Err(error) => Err(error))
    case Err(error) => if error.code == "REMOTE_RUN_NOT_FOUND" then Ok(None) else Err(error)
  }

  /** The remote said yes, and the adapter could not make out which run it meant. */
  predicate Misread(r: Response, maxResponseBytes: nat) {
    IsSuccess(r.status) && (r.size > maxResponseBytes || r.body.Undecodable? || r.body.run.None? || !r.body.versionMatches)
  }

  /** A submission answered by the remote is an error exactly if the answer was a misread yes, a no that is not a
      server error, or too large; and every such error forbids asking for the outcome. */
  lemma AnsweredSubmitFails(r: Response, maxResponseBytes: nat)
    ensures var verdict := Submit(Answered(r), maxResponseBytes);
            && (verdict.Err? <==>
                  || Misread(r, maxResponseBytes)
                  || (!IsSuccess(r.status) && (r.size > maxResponseBytes || !IsServerError(r.status))))
            && (verdict.Err? ==> !verdict.error.retry.QueryOutcome? && !verdict.error.retry.ReconnectAndResume?)
            && (verdict.Ok? && verdict.value.RunAccepted? <==> IsSuccess(r.status) && !Misread(r, maxResponseBytes))
  {
  }

  /** Without an answer the outcome is always left open. */
  lemma UnansweredSubmitIsUncertain(timeout: bool, maxResponseBytes: nat)
    ensures Submit(NoAnswer(timeout), maxResponseBytes) == Ok(SubmissionUncertain)
  {
  }

  /** A reconciliation names a run exactly for a readable success and denies one exactly for a 404 of allowed size; every
      other answer is an error, which is retried for 429 and server errors, reviewed for 401 and 403, and final else. */
  lemma AnsweredReconciliation(r: Response, maxResponseBytes: nat)
    ensures var verdict := ReconcileSubmission(Answered(r), maxResponseBytes);
            var fits := r.size <= maxResponseBytes;
            && (verdict.Ok? && verdict.value.Some? <==> IsSuccess(r.status) && !Misread(r, maxResponseBytes))
            && (verdict.Ok? && verdict.value.Some? ==> verdict.value == r.body.run)
            && (verdict == Ok(None) <==> fits && r.status == 404)
            && (verdict.Err? ==>
                  && (verdict.error.retry.SameRequestBackoff? <==> fits && (r.status == 429 || 500 <= r.status < 600))
                  && (verdict.error.retry.ManualReview? <==> fits && (r.status == 401 || r.status == 403))
                  && (verdict.error.retry.SameRequestBackoff? || verdict.error.retry.ManualReview? || verdict.error.retry.Never?)
                  && verdict.error.code != "")
  {
  }

  /** A reconciliation without an answer denies nothing: it is to be asked again. */
  lemma UnansweredReconciliation(timeout: bool, maxResponseBytes: nat)
    ensures var verdict := ReconcileSubmission(NoAnswer(timeout), maxResponseBytes);
            verdict.Err? && verdict.error.retry.QueryOutcome?
  {
  }
}
