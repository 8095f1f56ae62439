/** The stop, status and event workers of one execution over time, each with a snapshot that may be stale
    (crates/runtime/src/adapter/mod.rs, crates/store-postgres/src/transaction_executor.rs). */
module AgentOutcomeHistory {
  import opened Prelude
  import opened HttpAgentAdapter
  import opened AgentDispatch
  import opened AgentOutcomes
  import EI = EventIngestion

  /** The stored execution: what the workers see of it, and how it ended. */
  datatype Row = Row(candidate: Candidate, result: Option<string>, errorCode: Option<string>)

  /** `seen` holds every state that some worker may still act on. */
  datatype State = State(row: Row, seen: set<Candidate>)

  /** Each worker acts on a candidate that it saw at some time. Other transactions (submissions, stop requests, stale
      marks, cancellations) end an execution without a result or move it between states that are not ends. */
  datatype Step =
    | Stop(c: Candidate, f: Findings, stopped: Result<StopReply, AdapterError>, schedule: Option<int>)
    | Poll(c: Candidate, f: Findings, polled: Result<RemoteSnapshot, AdapterError>, schedule: Option<int>)
    | Read(c: Candidate, f: Findings, read: Result<EI.RemoteEventBatch, AdapterError>, schedule: Option<int>, accepted: bool, nextPollAt: int)
    | Elsewhere(status: Status, remote: Option<RemoteRef>, pollAt: Option<int>)

  predicate Final(status: Status) {
    status.Succeeded? || status.Failed? || status.Cancelled?
  }

  /** Compare-and-set on the version, from a state that takes outcomes. */
  function RecordOn(row: Row, o: Option<RecordOutcome>): Row {
    var c := row.candidate;
    if o.Some? && StoreAccepts(o.value) && o.value.expectedVersion == c.version
       && c.status in {EI.Running, EI.Stopping, EI.OutcomeUnknown, EI.Reconciling, EI.ManualReview}
    then Row(c.(status := o.value.status, version := c.version + 1, statusPollAt := o.value.nextStatusPollAt), o.value.result, o.value.errorCode)
    else row
  }

  /** A batch that projects no outcome; the receipts may refuse it. */
  function AppendOn(row: Row, seen: Candidate, batch: EI.RemoteEventBatch, accepted: bool, pollAt: int): Row {
    var c := row.candidate;
    if accepted && batch.nextCursor != Some("") && c.status.Running? && c.cursorVersion == seen.cursorVersion
    then row.(candidate := c.(status := if batch.terminal then EI.Reconciling else c.status, version := c.version + 1,
                              statusPollAt := Some(pollAt), eventCursor := batch.nextCursor, cursorVersion := c.cursorVersion + 1))
    else row
  }

  function MoveOn(row: Row, status: Status, remote: Option<RemoteRef>, pollAt: Option<int>): Row {
    var c := row.candidate;
    if Final(c.status) || status.Succeeded? then row
    else
      var moved := c.(status := status, version := c.version + 1, statusPollAt := pollAt);
      row.(candidate :=
             if c.remoteRunRef.Some? || remote.None? then moved
             else moved.(remoteRunRef := Some(remote.value.runId), remoteSessionRef := remote.value.sessionId,
                         remoteProtocolVersion := Some(remote.value.protocolVersion)))
  }

  function Next(s: State, step: Step): Row {
    match step
    case Stop(c, f, reply, schedule) => if c in s.seen then RecordOn(s.row, StopWorker(c, f, reply, schedule)) else s.row
    case Poll(c, f, reply, schedule) => if c in s.seen then RecordOn(s.row, StatusWorker(c, f, reply, schedule)) else s.row
    case Read(c, f, reply, schedule, accepted, pollAt) =>
      if c !in s.seen then s.row
      else (match EventWorker(c, f, reply, schedule)
            case Nothing => s.row
            case Append(batch) => AppendOn(s.row, c, batch, accepted, pollAt)
            case Outcome(command) => RecordOn(s.row, Some(command)))
    case Elsewhere(status, remote, pollAt) => MoveOn(s.row, status, remote, pollAt)
  }

  function After(s: State, step: Step): State {
    State(Next(s, step), s.seen + {Next(s, step).candidate})
  }

  function Prepared(): State {
    var c := Candidate(0, EI.Submitting, None, None, None, None, None, 0);
    State(Row(c, None, None), {c})
  }

  function History(steps: seq<Step>): State {
    if steps == [] then Prepared() else After(History(steps[..|steps| - 1]), steps[|steps| - 1])
  }

  // ---------------------------------------------------------------- invariants

  /** A result is there exactly after success, and a seen state with the current version is the current state. */
  ghost predicate Lawful(s: State) {
    && (s.row.result.Some? <==> s.row.candidate.status.Succeeded?)
    && (Final(s.row.candidate.status) ==> s.row.candidate.statusPollAt.None? || !s.row.candidate.status.Succeeded?)
    && forall c :: c in s.seen ==>
         c.version <= s.row.candidate.version && (c.version == s.row.candidate.version ==> c == s.row.candidate)
  }

  lemma RecordedRow(row: Row, o: Option<RecordOutcome>)
    ensures var after := RecordOn(row, o);
            after != row ==>
              && o.Some? && StoreAccepts(o.value) && !Final(row.candidate.status)
              && o.value.expectedVersion == row.candidate.version && after.candidate.version == row.candidate.version + 1
              && after.candidate.status == o.value.status && after.result == o.value.result
              && RemoteOf(after.candidate) == RemoteOf(row.candidate)
              && after.candidate.statusPollAt == o.value.nextStatusPollAt
  {
  }

  /** Every step leaves the row alone or moves it one version on, never from a final state. */
  lemma StepMoves(s: State, step: Step)
    ensures var row := Next(s, step);
            row == s.row || (row.candidate.version == s.row.candidate.version + 1 && !Final(s.row.candidate.status))
  {
    match step {
      case Stop(c, f, reply, schedule) => RecordedRow(s.row, StopWorker(c, f, reply, schedule));
      case Poll(c, f, reply, schedule) => RecordedRow(s.row, StatusWorker(c, f, reply, schedule));
      case Read(c, f, reply, schedule, _, _) =>
        match EventWorker(c, f, reply, schedule) {
          case Outcome(command) => RecordedRow(s.row, Some(command));
          case _ =>
        }
      case Elsewhere(_, _, _) =>
    }
  }

  /** A row that became final through success did so on a status reply for the stored remote identity. */
  ghost predicate Succeeds(s: State, step: Step) {
    && step.Poll? && step.polled.Ok? && step.polled.value.status.RCompleted?
    && Some(step.polled.value.remote) == RemoteOf(Next(s, step).candidate)
    && Next(s, step).result == step.polled.value.result
  }

  lemma StepSucceeds(s: State, step: Step)
    requires Lawful(s) && Next(s, step) != s.row
    ensures Next(s, step).result.Some? <==> Next(s, step).candidate.status.Succeeded?
    ensures Next(s, step).candidate.status.Succeeded? ==> Succeeds(s, step)
    ensures Next(s, step).candidate.status.Succeeded? ==> Next(s, step).candidate.statusPollAt.None?
  {
    match step {
      case Stop(c, f, reply, schedule) =>
        StopOutcomesAreLawful(c, f, reply, schedule);
        RecordedRow(s.row, StopWorker(c, f, reply, schedule));
      case Poll(c, f, reply, schedule) =>
        StatusOutcomesAreLawful(c, f, reply, schedule);
        RecordedRow(s.row, StatusWorker(c, f, reply, schedule));
      case Read(c, f, reply, schedule, _, _) =>
        EventOutcomesAreLawful(c, f, reply, schedule);
        match EventWorker(c, f, reply, schedule) {
          case Outcome(command) => RecordedRow(s.row, Some(command));
          case _ =>
        }
      case Elsewhere(_, _, _) =>
    }
  }

  lemma StepIsLawful(s: State, step: Step)
    requires Lawful(s)
    ensures Lawful(After(s, step))
  {
    StepMoves(s, step);
    if Next(s, step) != s.row {
      StepSucceeds(s, step);
    }
  }

  lemma {:induction false} HistoryIsLawful(steps: seq<Step>)
    ensures Lawful(History(steps))
    decreases |steps|
  {
    if steps != [] {
      HistoryIsLawful(steps[..|steps| - 1]);
      StepIsLawful(History(steps[..|steps| - 1]), steps[|steps| - 1]);
    }
  }

  // ---------------------------------------------------------------- what every history guarantees

  /** An end is final: however many stale workers act later, nothing of the row changes any more. */
  lemma {:induction false} EndsAreFinal(steps: seq<Step>, n: nat)
    requires n <= |steps| && Final(History(steps[..n]).row.candidate.status)
    ensures History(steps).row == History(steps[..n]).row
    decreases |steps|
  {
    if n == |steps| {
      assert steps[..n] == steps;
    } else {
      var init := steps[..|steps| - 1];
      assert init[..n] == steps[..n];
      EndsAreFinal(init, n);
      StepMoves(History(init), steps[|steps| - 1]);
    }
  }

  /** A result is stored exactly for a succeeded execution; and then the remote had reported it completed, with this
      result and under the remote identity that is stored. */
  lemma {:induction false} SuccessIsTheRemotes(steps: seq<Step>)
    ensures var row := History(steps).row;
            && (row.result.Some? <==> row.candidate.status.Succeeded?)
            && (row.candidate.status.Succeeded? ==> exists i :: 0 <= i < |steps| && ReportsSuccess(steps[i], row))
    decreases |steps|
  {
    HistoryIsLawful(steps);
    if steps != [] && History(steps).row.candidate.status.Succeeded? {
      var init, step := steps[..|steps| - 1], steps[|steps| - 1];
      var s := History(init);
      HistoryIsLawful(init);
      if Next(s, step) == s.row {
        SuccessIsTheRemotes(init);
        var i :| 0 <= i < |init| && ReportsSuccess(init[i], s.row);
        assert ReportsSuccess(steps[i], s.row);
      } else {
        StepSucceeds(s, step);
        assert ReportsSuccess(steps[|steps| - 1], History(steps).row);
      }
    }
  }

  ghost predicate ReportsSuccess(step: Step, row: Row) {
    && step.Poll? && step.polled.Ok? && step.polled.value.status.RCompleted?
    && Some(step.polled.value.remote) == RemoteOf(row.candidate) && step.polled.value.result == row.result
  }

  // ---------------------------------------------------------------- what a step records

  /** The outcome that a worker's step asks the store to record. */
  function Asked(step: Step): Option<RecordOutcome> {
    match step
    case Stop(c, f, reply, schedule) => StopWorker(c, f, reply, schedule)
    case Poll(c, f, reply, schedule) => StatusWorker(c, f, reply, schedule)
    case Read(c, f, reply, schedule, _, _) =>
      (match EventWorker(c, f, reply, schedule) case Outcome(command) => Some(command) case _ => None)
    case Elsewhere(_, _, _) => None
  }

  /** Over every history: a worker's outcome is recorded, as it asks, exactly if nothing has happened to the execution since
      the worker looked and the outcome has no empty error code; otherwise the row stays as it is. */
  lemma OutcomeIsRecordedIffFresh(steps: seq<Step>, step: Step)
    requires !step.Elsewhere? && step.c in History(steps).seen && Asked(step).Some?
    ensures var before, after, o := History(steps).row, Next(History(steps), step), Asked(step).value;
            if step.c.version == before.candidate.version && o.errorCode != Some("")
            then
              && after.candidate.status == o.status && after.result == o.result && after.errorCode == o.errorCode
              && after.candidate == before.candidate.(status := o.status, version := before.candidate.version + 1, statusPollAt := o.nextStatusPollAt)
            else after == before
  {
    HistoryIsLawful(steps);
    match step {
      case Stop(c, f, reply, schedule) => StopOutcomesAreLawful(c, f, reply, schedule);
      case Poll(c, f, reply, schedule) => StatusOutcomesAreLawful(c, f, reply, schedule);
      case Read(c, f, reply, schedule, _, _) => EventOutcomesAreLawful(c, f, reply, schedule);
    }
  }

  /** A batch is appended exactly if the receipts take it, its cursor is not an empty text, and the execution is still running
      at the cursor version that was read from; a terminal one hands over to the status worker. */
  lemma BatchIsAppendedIffCurrent(steps: seq<Step>, step: Step, batch: EI.RemoteEventBatch)
    requires step.Read? && step.c in History(steps).seen && EventWorker(step.c, step.f, step.read, step.schedule) == Append(batch)
    ensures var before, after := History(steps).row, Next(History(steps), step);
            var c, d := before.candidate, after.candidate;
            if step.accepted && batch.nextCursor != Some("") && c.status == EI.Running && c.cursorVersion == step.c.cursorVersion
            then
              && d.eventCursor == batch.nextCursor && d.cursorVersion == c.cursorVersion + 1 && d.version == c.version + 1
              && d.status == (if batch.terminal then EI.Reconciling else EI.Running) && d.statusPollAt == Some(step.nextPollAt)
              && RemoteOf(d) == RemoteOf(c) && after.result == before.result && after.errorCode == before.errorCode
            else after == before
  {
  }

  /** Success is within reach: a prepared execution that was accepted and asked for its status. */
  lemma SuccessIsReached(remote: RemoteRef, result: string)
    ensures exists steps :: History(steps).row.candidate.status == EI.Succeeded && History(steps).row.result == Some(result)
                            && RemoteOf(History(steps).row.candidate) == Some(remote)
  {
    var accepted := Elsewhere(EI.Reconciling, Some(remote), Some(0));
    var none: seq<Step> := [];
    OneMore(none, accepted);
    assert none + [accepted] == [accepted];
    var s := History([accepted]);
    var poll := Poll(s.row.candidate, Findings(Some(true), true, true, None), Ok(RemoteSnapshot(remote, RCompleted, Some(result))), None);
    OneMore([accepted], poll);
    assert History([accepted] + [poll]).row.candidate.status == EI.Succeeded;
  }

  lemma OneMore(steps: seq<Step>, step: Step)
    ensures History(steps + [step]) == After(History(steps), step)
  {
    assert (steps + [step])[..|steps|] == steps;
  }
}
