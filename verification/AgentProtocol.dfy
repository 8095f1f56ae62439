/** Every interleaving of dispatches of one Agent execution with stops, reconciliations, delayed requests, misread
    answers and crashes (crates/runtime/src/adapter/mod.rs, crates/adapter-http/src/lib.rs,
    crates/store-postgres/src/transaction_executor.rs). */
module AgentProtocol {
  import opened Prelude
  import opened HttpAgentAdapter
  import opened AgentDispatch
  import EI = EventIngestion

  /** An idempotency key. */
  type Key = string

  /** What is known of the remote: whether a key names one run for good, and whether an answer that is not a success
      means that the request made no run and never will. */
  datatype Setting = Setting(idempotentKeys: bool, faithfulStatus: bool, maxResponseBytes: nat)

  /** A submit request with the key in its header; it may be handled long after its sender gave up. */
  datatype Request = Unsent | InFlight(key: Key) | Handled(key: Key, run: nat) | Refused(key: Key)

  /** `Passed` holds the key of the resolved call context. */
  datatype Phase = Started | Passed(key: Key) | FoundNothing(key: Key) | Waiting | Decided(outcome: Outcome) | Over

  /** One dispatch: where it is, what it called, what the remote answered its submission and what it made of it. */
  datatype Dispatch = Dispatch(
    snapshot: Snapshot,
    phase: Phase,
    request: Request,
    calls: seq<Call>,
    answer: Option<Response>,
    verdict: Option<Outcome>)

  /** `envelope` is the key that was stored when the execution was prepared; `created` lists the keys of the remote's
      runs; `issued` holds the snapshots that dispatches were, or may again be, started with. */
  datatype System = System(
    envelope: Key,
    execution: Execution,
    issued: set<Snapshot>,
    dispatches: map<nat, Dispatch>,
    created: seq<Key>)

  datatype Step =
    | StartDispatch(w: nat, snapshot: Snapshot)
    | FailPreflight(w: nat, error: AdapterError, schedule: Option<int>)
    | Resolve(w: nat, key: Key, schedule: Option<int>)
    | Reconcile(w: nat, exchange: Exchange, schedule: Option<int>)
    | Send(w: nat)
    | FailLocally(w: nat, error: AdapterError, schedule: Option<int>)
    | Deliver(w: nat)
    | Answer(w: nat, exchange: Exchange, schedule: Option<int>)
    | Record(w: nat)
    | Crash(w: nat)
    | Elsewhere(key: Key)
    | BeginResubmission
    | ChangeStatus(status: Status, errorCode: Option<string>, retryAt: Option<int>)

  function Prepared(envelope: Key): System {
    System(envelope, Execution(EI.Submitting, 0, None, None, None), {Snapshot(EI.Submitting, 0)}, map[], [])
  }

  // ---------------------------------------------------------------- the remote

  /** The first run with the key. */
  function RunOf(created: seq<Key>, key: Key): (run: Option<nat>)
    ensures run.Some? ==> run.value < |created| && created[run.value] == key
    ensures run.None? ==> forall i :: 0 <= i < |created| ==> created[i] != key
  {
    if created == [] then None
    else if created[0] == key then Some(0)
    else match RunOf(created[1..], key) case None => None case Some(i) => Some(i + 1)
  }

  /** With idempotent keys a key that is known keeps its run; else every request makes a run. */
  function Handle(setting: Setting, created: seq<Key>, key: Key): (seq<Key>, nat) {
    if setting.idempotentKeys && RunOf(created, key).Some? then (created, RunOf(created, key).value)
    else (created + [key], |created|)
  }

  /** A success names a request that was handled, and its run if it can be read; with a faithful status anything else
      refuses a request that was not. */
  predicate Truthful(setting: Setting, request: Request, r: Response) {
    if IsSuccess(r.status)
    then request.Handled? && (r.body.RunBody? && r.body.run.Some? ==> r.body.run.value == request.run)
    else setting.faithfulStatus ==> request.InFlight?
  }

  /** A reconciliation names a run of the key; its errors and denials may be anything. */
  predicate TruthfulAbout(setting: Setting, created: seq<Key>, key: Key, x: Exchange) {
    match ReconcileSubmission(x, setting.maxResponseBytes)
    case Ok(Some(run)) => run < |created| && created[run] == key
    case _ => true
  }

  // ---------------------------------------------------------------- one step

  function Decide(d: Dispatch, outcome: Option<Outcome>): Dispatch {
    d.(phase := if outcome.Some? then Decided(outcome.value) else Over, verdict := outcome)
  }

  predicate MaySend(d: Dispatch) {
    d.phase.FoundNothing? || (d.phase.Passed? && !d.snapshot.status.OutcomeUnknown?)
  }

  /** What a step does to its own dispatch; None when it is not possible. The context factory may resolve any key, but
      a context whose key is not the stored one is rejected. */
  function OwnStep(setting: Setting, s: System, d: Dispatch, step: Step): Option<Dispatch> {
    match step
    case FailPreflight(_, error, schedule) =>
      if d.phase.Started? then Some(Decide(d, ErrorOutcome(error, schedule))) else None
    case Resolve(_, key, schedule) =>
      if !d.phase.Started? then None
      else if key == s.envelope then Some(d.(phase := Passed(key)))
      else Some(Decide(d, ErrorOutcome(ConfigurationError("INVALID_ADAPTER_CONTEXT"), schedule)))
    case Reconcile(_, x, schedule) =>
      if d.phase.Passed? && d.snapshot.status.OutcomeUnknown? && TruthfulAbout(setting, s.created, d.phase.key, x) then
        var asked := d.(calls := d.calls + [ReconcileCall]);
        (match ReconcileSubmission(x, setting.maxResponseBytes)
         case Ok(None) => Some(asked.(phase := FoundNothing(d.phase.key)))
         case Ok(Some(run)) => Some(Decide(asked, Some(Accepted(run))))
         case Err(error) => Some(Decide(asked, ErrorOutcome(error, schedule))))
      else None
    case Send(_) =>
      if MaySend(d) then Some(d.(phase := Waiting, request := InFlight(d.phase.key), calls := d.calls + [SubmitCall])) else None
    case FailLocally(_, error, schedule) =>
      if MaySend(d)
      then Some(Decide(d.(calls := d.calls + [SubmitCall]), SubmitOutcome(Submit(Unsendable(error), setting.maxResponseBytes), schedule)))
      else None
    case Answer(_, x, schedule) =>
      if !d.phase.Waiting? || x.Unsendable? || (x.Answered? && !Truthful(setting, d.request, x.response)) then None
      else
        var answered :=
          if x.Answered? then
            d.(answer := Some(x.response),
               request := if !IsSuccess(x.response.status) && d.request.InFlight? && setting.faithfulStatus
                          then Refused(d.request.key) else d.request)
          else d;
        Some(Decide(answered, SubmitOutcome(Submit(x, setting.maxResponseBytes), schedule)))
    case Crash(_) => Some(d.(phase := Over))
    case _ => None
  }

  function Set(s: System, w: nat, d: Dispatch): System {
    s.(dispatches := s.dispatches[w := d])
  }

  /** The system after a step; a step that is not possible changes nothing. Other store transactions may change the
      status and the retry time but never the remote reference; other clients of the remote use other keys. */
  function After(setting: Setting, s: System, step: Step): System {
    match step
    case StartDispatch(w, snapshot) =>
      if w in s.dispatches || snapshot !in s.issued then s
      else Set(s, w, Dispatch(snapshot, Started, Unsent, [], None, None))
    case Deliver(w) =>
      if w in s.dispatches && s.dispatches[w].request.InFlight? then
        var key := s.dispatches[w].request.key;
        var (created, run) := Handle(setting, s.created, key);
        Set(s, w, s.dispatches[w].(request := Handled(key, run))).(created := created)
      else s
    case Elsewhere(key) => if key == s.envelope then s else s.(created := Handle(setting, s.created, key).0)
    case Record(w) =>
      if w in s.dispatches && s.dispatches[w].phase.Decided? then
        var t := Set(s, w, s.dispatches[w].(phase := Over));
        (match Recorded(s.execution, s.dispatches[w].snapshot.version, s.dispatches[w].phase.outcome)
         case None => t
         case Some(e) => t.(execution := e))
      else s
    case BeginResubmission =>
      (match Resubmission(s.execution)
       case None => s
       case Some(e) => s.(execution := e, issued := s.issued + {Snapshot(e.status, e.version)}))
    case ChangeStatus(status, errorCode, retryAt) =>
      s.(execution := s.execution.(status := status, version := s.execution.version + 1, errorCode := errorCode, retryAt := retryAt))
    case _ =>
      if step.w !in s.dispatches then s
      else match OwnStep(setting, s, s.dispatches[step.w], step)
        case None => s
        case Some(d) => Set(s, step.w, d)
  }

  function History(setting: Setting, envelope: Key, steps: seq<Step>): System {
    if steps == [] then Prepared(envelope)
    else After(setting, History(setting, envelope, steps[..|steps| - 1]), steps[|steps| - 1])
  }

  predicate IsOwnStep(step: Step) {
    step.FailPreflight? || step.Resolve? || step.Reconcile? || step.Send? || step.FailLocally? || step.Answer? || step.Crash?
  }

  // ---------------------------------------------------------------- invariants

  ghost predicate HasRun(created: seq<Key>, key: Key, run: nat) {
    run < |created| && created[run] == key
  }

  /** Where a dispatch is determines what it has called and sent. */
  ghost predicate PhaseFits(envelope: Key, d: Dispatch) {
    && (d.phase.Started? ==> d.calls == [])
    && (d.phase.Passed? ==> d.calls == [] && d.phase.key == envelope)
    && (d.phase.FoundNothing? ==> d.calls == [ReconcileCall] && d.phase.key == envelope && d.snapshot.status.OutcomeUnknown?)
    && (d.phase.Waiting? ==> !d.request.Unsent?)
    && (SubmitCall in d.calls ==> d.calls == CallsToSubmit(d.snapshot.status))
    && (!d.request.Unsent? ==> SubmitCall in d.calls)
    && (d.phase.Decided? ==> d.verdict == Some(d.phase.outcome))
    && (d.phase.Started? || d.phase.Passed? || d.phase.FoundNothing? || d.phase.Waiting? ==> d.verdict.None? && d.answer.None?)
    && (d.answer.Some? ==> !d.request.Unsent?)
  }

  /** Every request carries the stored key, and a run that a dispatch knows of is a run of that key. */
  ghost predicate KeyFits(envelope: Key, created: seq<Key>, d: Dispatch) {
    && (!d.request.Unsent? ==> d.request.key == envelope)
    && (d.request.Handled? ==> HasRun(created, envelope, d.request.run))
    && (d.verdict.Some? && d.verdict.value.Accepted? ==> HasRun(created, envelope, d.verdict.value.run))
  }

  /** A rejection has a retry time exactly if it is to be retried, and never leaves the outcome open. */
  ghost predicate ClassFits(outcome: Outcome)
    requires outcome.Rejected?
  {
    && (outcome.retry.SameRequestBackoff? <==> outcome.retryAt.Some?)
    && (outcome.retry.Never? || outcome.retry.ManualReview? || outcome.retry.SameRequestBackoff?)
  }

  function RetryTime(outcome: Outcome): Option<int> {
    if outcome.Rejected? then outcome.retryAt else None
  }

  /** A rejected submission was either never sent or answered, and the answer says what became of the request. */
  ghost predicate AnswerFits(setting: Setting, d: Dispatch) {
    && (d.verdict.Some? && d.verdict.value.Rejected? ==> ClassFits(d.verdict.value))
    && (d.answer.Some? && d.verdict.Some? ==>
          d.verdict == SubmitOutcome(Submit(Answered(d.answer.value), setting.maxResponseBytes), RetryTime(d.verdict.value)))
    && (d.answer.Some? ==>
          && (IsSuccess(d.answer.value.status) ==> d.request.Handled?)
          && (!IsSuccess(d.answer.value.status) && setting.faithfulStatus ==> d.request.Refused?))
    && (d.verdict.Some? && d.verdict.value.Rejected? && SubmitCall in d.calls ==>
          if d.answer.None? then d.request.Unsent? else Submit(Answered(d.answer.value), setting.maxResponseBytes).Err?)
  }

  ghost predicate DispatchFits(setting: Setting, s: System, d: Dispatch) {
    d.snapshot in s.issued && PhaseFits(s.envelope, d) && KeyFits(s.envelope, s.created, d) && AnswerFits(setting, d)
  }

  /** A snapshot is never ahead of the execution, and until someone moved past it there is no remote reference. */
  ghost predicate SnapshotFits(s: System, snapshot: Snapshot) {
    && (snapshot.status.Submitting? || snapshot.status.OutcomeUnknown?)
    && snapshot.version <= s.execution.version
    && (snapshot.version == s.execution.version ==> s.execution.status == snapshot.status && s.execution.remoteRef.None?)
    && (LateAfterStop(s.execution, snapshot.version) ==> s.execution.remoteRef.None?)
  }

  ghost predicate Invariant(setting: Setting, s: System) {
    && (forall w :: w in s.dispatches ==> DispatchFits(setting, s, s.dispatches[w]))
    && (forall snapshot :: snapshot in s.issued ==> SnapshotFits(s, snapshot))
    && (s.execution.remoteRef.Some? ==> HasRun(s.created, s.envelope, s.execution.remoteRef.value))
    && (setting.idempotentKeys ==> Distinct(s.created))
  }

  /** A recorded reference is never replaced or lost. */
  ghost predicate KeepsReference(s: System, t: System) {
    s.execution.remoteRef.Some? ==> t.execution.remoteRef == s.execution.remoteRef
  }

  lemma SubmitCallsGrow(d: Dispatch)
    requires (d.phase.FoundNothing? && d.calls == [ReconcileCall] && d.snapshot.status.OutcomeUnknown?)
          || (d.phase.Passed? && d.calls == [] && !d.snapshot.status.OutcomeUnknown?)
    ensures d.calls + [SubmitCall] == CallsToSubmit(d.snapshot.status)
  {
  }

  lemma OwnPhaseFits(setting: Setting, s: System, d: Dispatch, step: Step)
    requires PhaseFits(s.envelope, d) && OwnStep(setting, s, d, step).Some?
    ensures PhaseFits(s.envelope, OwnStep(setting, s, d, step).value)
    ensures OwnStep(setting, s, d, step).value.snapshot == d.snapshot
  {
    if (step.Send? || step.FailLocally?) && MaySend(d) {
      SubmitCallsGrow(d);
    }
    if step.Reconcile? {
      assert d.calls == [] ==> d.calls + [ReconcileCall] == [ReconcileCall];
    }
  }

  lemma OwnKeyFits(setting: Setting, s: System, d: Dispatch, step: Step)
    requires PhaseFits(s.envelope, d) && KeyFits(s.envelope, s.created, d) && OwnStep(setting, s, d, step).Some?
    ensures KeyFits(s.envelope, s.created, OwnStep(setting, s, d, step).value)
  {
    if step.Answer? && step.exchange.Answered? {
      AnsweredSubmitFails(step.exchange.response, setting.maxResponseBytes);
    }
  }

  lemma OwnAnswerFits(setting: Setting, s: System, d: Dispatch, step: Step)
    requires PhaseFits(s.envelope, d) && AnswerFits(setting, d) && OwnStep(setting, s, d, step).Some?
    ensures AnswerFits(setting, OwnStep(setting, s, d, step).value)
  {
    match step {
      case Answer(_, x, _) =>
        if x.NoAnswer? {
          UnansweredSubmitIsUncertain(x.timeout, setting.maxResponseBytes);
        }
      case Reconcile(_, _, _) => assert d.phase.Passed? ==> SubmitCall !in d.calls + [ReconcileCall];
      case FailLocally(_, _, _) => assert MaySend(d) ==> d.request.Unsent?;
      case _ =>
    }
  }

  lemma OwnStepKeeps(setting: Setting, s: System, step: Step)
    requires Invariant(setting, s) && IsOwnStep(step)
    ensures Invariant(setting, After(setting, s, step))
    ensures After(setting, s, step).execution == s.execution
  {
    var t := After(setting, s, step);
    if step.w in s.dispatches {
      var d := s.dispatches[step.w];
      assert DispatchFits(setting, s, d);
      if OwnStep(setting, s, d, step).Some? {
        OwnPhaseFits(setting, s, d, step);
        OwnKeyFits(setting, s, d, step);
        OwnAnswerFits(setting, s, d, step);
        DispatchChanged(setting, s, step.w, OwnStep(setting, s, d, step).value);
      }
    }
  }

  lemma DispatchChanged(setting: Setting, s: System, w: nat, d: Dispatch)
    requires Invariant(setting, s) && DispatchFits(setting, s, d)
    ensures Invariant(setting, Set(s, w, d))
  {
    var t := Set(s, w, d);
    forall v | v in t.dispatches ensures DispatchFits(setting, t, t.dispatches[v]) {
      assert v != w ==> DispatchFits(setting, s, s.dispatches[v]);
    }
    forall snapshot | snapshot in t.issued ensures SnapshotFits(t, snapshot) {
      assert SnapshotFits(s, snapshot);
    }
  }

  /** Handling a request keeps all runs, and with idempotent keys no key gets a second one. */
  lemma HandleGrows(setting: Setting, created: seq<Key>, key: Key)
    ensures var (after, run) := Handle(setting, created, key);
            && created <= after && HasRun(after, key, run)
            && (forall i :: |created| <= i < |after| ==> after[i] == key)
            && (setting.idempotentKeys && Distinct(created) ==> Distinct(after))
  {
  }

  lemma CreatedGrows(setting: Setting, s: System, after: seq<Key>)
    requires Invariant(setting, s) && s.created <= after && (setting.idempotentKeys ==> Distinct(after))
    ensures Invariant(setting, s.(created := after))
  {
    var t := s.(created := after);
    forall w | w in t.dispatches ensures DispatchFits(setting, t, t.dispatches[w]) {
      assert DispatchFits(setting, s, s.dispatches[w]);
    }
    forall snapshot | snapshot in t.issued ensures SnapshotFits(t, snapshot) {
      assert SnapshotFits(s, snapshot);
    }
  }

  lemma DeliverKeeps(setting: Setting, s: System, w: nat)
    requires Invariant(setting, s)
    ensures Invariant(setting, After(setting, s, Deliver(w)))
  {
    if w in s.dispatches && s.dispatches[w].request.InFlight? {
      var d := s.dispatches[w];
      assert DispatchFits(setting, s, d);
      var (after, run) := Handle(setting, s.created, d.request.key);
      HandleGrows(setting, s.created, d.request.key);
      CreatedGrows(setting, s, after);
      var handled := d.(request := Handled(d.request.key, run));
      assert KeyFits(s.envelope, after, handled);
      DispatchChanged(setting, s.(created := after), w, handled);
      assert After(setting, s, Deliver(w)) == Set(s.(created := after), w, handled);
    }
  }

  lemma RecordKeeps(setting: Setting, s: System, w: nat)
    requires Invariant(setting, s)
    ensures Invariant(setting, After(setting, s, Record(w)))
    ensures KeepsReference(s, After(setting, s, Record(w)))
  {
    var t := After(setting, s, Record(w));
    if w in s.dispatches && s.dispatches[w].phase.Decided? {
      assert DispatchFits(setting, s, s.dispatches[w]);
      assert SnapshotFits(s, s.dispatches[w].snapshot);
      forall v | v in t.dispatches ensures DispatchFits(setting, t, t.dispatches[v]) {
        assert DispatchFits(setting, s, s.dispatches[v]);
      }
      forall snapshot | snapshot in t.issued ensures SnapshotFits(t, snapshot) {
        assert SnapshotFits(s, snapshot);
      }
    }
  }

  lemma StoreStepKeeps(setting: Setting, s: System, step: Step)
    requires Invariant(setting, s) && (step.BeginResubmission? || step.ChangeStatus?)
    ensures Invariant(setting, After(setting, s, step))
    ensures KeepsReference(s, After(setting, s, step))
  {
    var t := After(setting, s, step);
    forall w | w in t.dispatches ensures DispatchFits(setting, t, t.dispatches[w]) {
      assert DispatchFits(setting, s, s.dispatches[w]);
    }
    forall snapshot | snapshot in t.issued ensures SnapshotFits(t, snapshot) {
      if snapshot in s.issued {
        assert SnapshotFits(s, snapshot);
      }
    }
  }

  lemma StartKeeps(setting: Setting, s: System, step: Step)
    requires Invariant(setting, s) && step.StartDispatch?
    ensures Invariant(setting, After(setting, s, step))
  {
    if step.w !in s.dispatches && step.snapshot in s.issued {
      DispatchChanged(setting, s, step.w, Dispatch(step.snapshot, Started, Unsent, [], None, None));
    }
  }

  lemma StepKeeps(setting: Setting, s: System, step: Step)
    requires Invariant(setting, s)
    ensures Invariant(setting, After(setting, s, step))
    ensures KeepsReference(s, After(setting, s, step))
  {
    match step {
      case StartDispatch(_, _) => StartKeeps(setting, s, step);
      case Deliver(w) => DeliverKeeps(setting, s, w);
      case Record(w) => RecordKeeps(setting, s, w);
      case Elsewhere(key) =>
        HandleGrows(setting, s.created, key);
        CreatedGrows(setting, s, Handle(setting, s.created, key).0);
      case BeginResubmission => StoreStepKeeps(setting, s, step);
      case ChangeStatus(_, _, _) => StoreStepKeeps(setting, s, step);
      case _ => OwnStepKeeps(setting, s, step);
    }
  }

  lemma {:induction false} HistoryKeeps(setting: Setting, envelope: Key, steps: seq<Step>)
    ensures Invariant(setting, History(setting, envelope, steps))
    ensures History(setting, envelope, steps).envelope == envelope
    decreases |steps|
  {
    if steps != [] {
      HistoryKeeps(setting, envelope, steps[..|steps| - 1]);
      StepKeeps(setting, History(setting, envelope, steps[..|steps| - 1]), steps[|steps| - 1]);
    }
  }

  // ---------------------------------------------------------------- what every history guarantees

  /** Every request of the execution, first or repeated, carries the key that was stored when it was prepared. */
  lemma EveryRequestCarriesTheKey(setting: Setting, envelope: Key, steps: seq<Step>, w: nat)
    requires w in History(setting, envelope, steps).dispatches
    requires !History(setting, envelope, steps).dispatches[w].request.Unsent?
    ensures History(setting, envelope, steps).dispatches[w].request.key == envelope
  {
    HistoryKeeps(setting, envelope, steps);
    assert DispatchFits(setting, History(setting, envelope, steps), History(setting, envelope, steps).dispatches[w]);
  }

  /** Against a remote that keeps one run per key: all requests of the execution that were handled, however many were
      sent, were handled by one run; and whatever reference is recorded is that run, from then on. */
  lemma {:induction false} OneRemoteRun(setting: Setting, envelope: Key, steps: seq<Step>, n: nat)
    requires setting.idempotentKeys && n <= |steps|
    ensures var s := History(setting, envelope, steps);
            && (forall v, w :: v in s.dispatches && w in s.dispatches && s.dispatches[v].request.Handled? && s.dispatches[w].request.Handled? ==>
                  s.dispatches[v].request.run == s.dispatches[w].request.run)
            && (forall i, j :: HasRun(s.created, envelope, i) && HasRun(s.created, envelope, j) ==> i == j)
            && (s.execution.remoteRef.Some? ==> HasRun(s.created, envelope, s.execution.remoteRef.value))
    ensures KeepsReference(History(setting, envelope, steps[..n]), History(setting, envelope, steps))
    decreases |steps|
  {
    var s := History(setting, envelope, steps);
    HistoryKeeps(setting, envelope, steps);
    forall w | w in s.dispatches ensures DispatchFits(setting, s, s.dispatches[w]) {
    }
    if n < |steps| {
      var init := steps[..|steps| - 1];
      assert init[..n] == steps[..n];
      OneRemoteRun(setting, envelope, init, n);
      HistoryKeeps(setting, envelope, init);
      StepKeeps(setting, History(setting, envelope, init), steps[|steps| - 1]);
    } else {
      assert steps[..n] == steps;
    }
  }

  // ---------------------------------------------------------------- reconcile before resubmitting

  /** The remote denied to this dispatch that it knows of the key. */
  ghost predicate DeniedTo(setting: Setting, steps: seq<Step>, w: nat) {
    exists n :: 0 <= n < |steps| && steps[n].Reconcile? && steps[n].w == w
                && ReconcileSubmission(steps[n].exchange, setting.maxResponseBytes) == Ok(None)
  }

  lemma DenialStays(setting: Setting, steps: seq<Step>, w: nat)
    requires steps != [] && DeniedTo(setting, steps[..|steps| - 1], w)
    ensures DeniedTo(setting, steps, w)
  {
    var init := steps[..|steps| - 1];
    var n :| 0 <= n < |init| && init[n].Reconcile? && init[n].w == w
             && ReconcileSubmission(init[n].exchange, setting.maxResponseBytes) == Ok(None);
    assert steps[n] == init[n];
  }

  ghost predicate NeedsDenial(d: Dispatch) {
    d.phase.FoundNothing? || (d.snapshot.status.OutcomeUnknown? && SubmitCall in d.calls)
  }

  lemma DenialIsNew(setting: Setting, s: System, step: Step, w: nat)
    requires Invariant(setting, s) && w in After(setting, s, step).dispatches
    requires NeedsDenial(After(setting, s, step).dispatches[w])
    requires w in s.dispatches ==> !NeedsDenial(s.dispatches[w])
    ensures step.Reconcile? && step.w == w && ReconcileSubmission(step.exchange, setting.maxResponseBytes) == Ok(None)
  {
    if w in s.dispatches {
      assert DispatchFits(setting, s, s.dispatches[w]);
    }
  }

  lemma {:induction false} DenialCameFirst(setting: Setting, envelope: Key, steps: seq<Step>, w: nat)
    requires w in History(setting, envelope, steps).dispatches
    requires NeedsDenial(History(setting, envelope, steps).dispatches[w])
    ensures DeniedTo(setting, steps, w)
    decreases |steps|
  {
    var init, step := steps[..|steps| - 1], steps[|steps| - 1];
    var s := History(setting, envelope, init);
    HistoryKeeps(setting, envelope, init);
    if w in s.dispatches && NeedsDenial(s.dispatches[w]) {
      DenialCameFirst(setting, envelope, init, w);
      DenialStays(setting, steps, w);
    } else {
      DenialIsNew(setting, s, step, w);
      assert steps[|steps| - 1] == step;
    }
  }

  /** A dispatch of an execution with unknown outcome that submitted had asked the remote first, in the same dispatch,
      and the remote knew of no run. */
  lemma ReconciledBeforeResubmitting(setting: Setting, envelope: Key, steps: seq<Step>, w: nat)
    requires w in History(setting, envelope, steps).dispatches
    requires var d := History(setting, envelope, steps).dispatches[w]; d.snapshot.status.OutcomeUnknown? && SubmitCall in d.calls
    ensures History(setting, envelope, steps).dispatches[w].calls == [ReconcileCall, SubmitCall]
    ensures DeniedTo(setting, steps, w)
  {
    HistoryKeeps(setting, envelope, steps);
    assert DispatchFits(setting, History(setting, envelope, steps), History(setting, envelope, steps).dispatches[w]);
    DenialCameFirst(setting, envelope, steps, w);
  }

  // ---------------------------------------------------------------- rejected submissions

  /** The dispatch submitted, and its outcome is a rejection. */
  ghost predicate SubmissionRejected(d: Dispatch) {
    SubmitCall in d.calls && d.verdict.Some? && d.verdict.value.Rejected?
  }

  /** Over every history, and assuming of the remote only that an answer without success made no run: a rejected
      submission made a run exactly if the remote had answered it with success. Then the adapter misread the answer. */
  lemma RejectedMadeRunIff(setting: Setting, envelope: Key, steps: seq<Step>, w: nat)
    requires setting.faithfulStatus && w in History(setting, envelope, steps).dispatches
    requires SubmissionRejected(History(setting, envelope, steps).dispatches[w])
    ensures var d := History(setting, envelope, steps).dispatches[w];
            && (d.request.Handled? <==> d.answer.Some? && IsSuccess(d.answer.value.status))
            && (d.request.Handled? ==> Misread(d.answer.value, setting.maxResponseBytes))
  {
    var s := History(setting, envelope, steps);
    HistoryKeeps(setting, envelope, steps);
    var d := s.dispatches[w];
    assert DispatchFits(setting, s, d);
    if d.answer.Some? {
      AnsweredSubmitFails(d.answer.value, setting.maxResponseBytes);
    }
  }

  /** So an answered submission is rejected although it made a run exactly for a misread success. */
  lemma MisreadSuccessIsRejected(setting: Setting, s: System, w: nat, r: Response, schedule: Option<int>)
    requires Invariant(setting, s) && setting.faithfulStatus
    requires w in s.dispatches && s.dispatches[w].phase.Waiting? && Truthful(setting, s.dispatches[w].request, r)
    ensures var d := After(setting, s, Answer(w, Answered(r), schedule)).dispatches[w];
            d.verdict.Some? && d.verdict.value.Rejected? && d.request.Handled? <==> Misread(r, setting.maxResponseBytes)
  {
    assert DispatchFits(setting, s, s.dispatches[w]);
    AnsweredSubmitFails(r, setting.maxResponseBytes);
  }

  /** A remote run of the execution's key exists exactly if a request of the execution was handled. */
  lemma {:induction false} RunsComeFromRequests(setting: Setting, envelope: Key, steps: seq<Step>)
    ensures var s := History(setting, envelope, steps);
            (exists i :: HasRun(s.created, envelope, i)) <==> (exists w :: w in s.dispatches && s.dispatches[w].request.Handled?)
    decreases |steps|
  {
    var s := History(setting, envelope, steps);
    HistoryKeeps(setting, envelope, steps);
    if w :| w in s.dispatches && s.dispatches[w].request.Handled? {
      assert DispatchFits(setting, s, s.dispatches[w]);
      assert HasRun(s.created, envelope, s.dispatches[w].request.run);
    }
    if i :| HasRun(s.created, envelope, i) {
      var w := RunHasRequest(setting, envelope, steps, i);
    }
  }

  lemma {:induction false} RunHasRequest(setting: Setting, envelope: Key, steps: seq<Step>, i: nat) returns (w: nat)
    requires HasRun(History(setting, envelope, steps).created, envelope, i)
    ensures w in History(setting, envelope, steps).dispatches && History(setting, envelope, steps).dispatches[w].request.Handled?
    decreases |steps|
  {
    var init, step := steps[..|steps| - 1], steps[|steps| - 1];
    var s := History(setting, envelope, init);
    HistoryKeeps(setting, envelope, init);
    if HasRun(s.created, envelope, i) {
      w := RunHasRequest(setting, envelope, init, i);
      HandledStays(setting, s, step, w);
    } else {
      RunIsNew(setting, s, step, i);
      w := step.w;
    }
  }

  lemma HandledStays(setting: Setting, s: System, step: Step, w: nat)
    requires Invariant(setting, s) && w in s.dispatches && s.dispatches[w].request.Handled?
    ensures w in After(setting, s, step).dispatches && After(setting, s, step).dispatches[w].request.Handled?
  {
    assert DispatchFits(setting, s, s.dispatches[w]);
  }

  lemma RunIsNew(setting: Setting, s: System, step: Step, i: nat)
    requires Invariant(setting, s) && !HasRun(s.created, s.envelope, i)
    requires HasRun(After(setting, s, step).created, s.envelope, i)
    ensures step.Deliver? && step.w in s.dispatches && s.dispatches[step.w].request.InFlight?
    ensures After(setting, s, step).dispatches[step.w].request.Handled?
  {
    if step.Elsewhere? {
      HandleGrows(setting, s.created, step.key);
    }
  }

  // ---------------------------------------------------------------- one outcome per start

  /** No outcome of a dispatch started at this version can be recorded any more. */
  ghost predicate Settled(e: Execution, version: nat) {
    e.version > version + 1 || (e.version == version + 1 && !e.status.Stopping?)
  }

  lemma RecordingSettles(e: Execution, version: nat, outcome: Outcome)
    ensures Recorded(e, version, outcome).Some? ==> Settled(Recorded(e, version, outcome).value, version)
    ensures Settled(e, version) ==> Recorded(e, version, outcome).None?
  {
  }

  lemma {:induction false} SettledForGood(setting: Setting, envelope: Key, steps: seq<Step>, n: nat, version: nat)
    requires n <= |steps| && Settled(History(setting, envelope, steps[..n]).execution, version)
    ensures Settled(History(setting, envelope, steps).execution, version)
    decreases |steps|
  {
    if n == |steps| {
      assert steps[..n] == steps;
    } else {
      var init, step := steps[..|steps| - 1], steps[|steps| - 1];
      assert init[..n] == steps[..n];
      SettledForGood(setting, envelope, init, n, version);
      VersionsOnlyGrow(setting, History(setting, envelope, init), step);
    }
  }

  lemma VersionsOnlyGrow(setting: Setting, s: System, step: Step)
    ensures var e, f := s.execution, After(setting, s, step).execution; f == e || f.version == e.version + 1
  {
  }

  /** Step `i` recorded the outcome of a dispatch that was started at `version`. */
  ghost predicate Records(setting: Setting, envelope: Key, steps: seq<Step>, i: nat, version: nat)
    requires i < |steps|
  {
    var s := History(setting, envelope, steps[..i]);
    && steps[i].Record? && steps[i].w in s.dispatches && s.dispatches[steps[i].w].phase.Decided?
    && s.dispatches[steps[i].w].snapshot.version == version
    && Recorded(s.execution, version, s.dispatches[steps[i].w].phase.outcome).Some?
  }

  /** However often a start is replayed, and even around a stop: at most one of its outcomes is recorded. */
  lemma OutcomeIsRecordedOnce(setting: Setting, envelope: Key, steps: seq<Step>, i: nat, j: nat, version: nat)
    requires i < j < |steps| && Records(setting, envelope, steps, i, version)
    ensures !Records(setting, envelope, steps, j, version)
  {
    var s, w := History(setting, envelope, steps[..i]), steps[i].w;
    assert steps[..i + 1][..i] == steps[..i];
    RecordingSettles(s.execution, version, s.dispatches[w].phase.outcome);
    assert History(setting, envelope, steps[..i + 1]).execution == Recorded(s.execution, version, s.dispatches[w].phase.outcome).value;
    assert steps[..j][..i + 1] == steps[..i + 1];
    SettledForGood(setting, envelope, steps[..j], i + 1, version);
    var t := History(setting, envelope, steps[..j]);
    forall outcome ensures Recorded(t.execution, version, outcome).None? {
      RecordingSettles(t.execution, version, outcome);
    }
  }

  // ---------------------------------------------------------------- what is recorded

  /** Step `i` tries to record an outcome. */
  ghost predicate Tries(setting: Setting, envelope: Key, steps: seq<Step>, i: nat)
    requires i < |steps|
  {
    var s := History(setting, envelope, steps[..i]);
    steps[i].Record? && steps[i].w in s.dispatches && s.dispatches[steps[i].w].phase.Decided?
  }

  ghost function Recorder(setting: Setting, envelope: Key, steps: seq<Step>, i: nat): Dispatch
    requires i < |steps| && Tries(setting, envelope, steps, i)
  {
    History(setting, envelope, steps[..i]).dispatches[steps[i].w]
  }

  /** What the store makes of an outcome: the reference of an accepted run, nothing known, or an end or a retry. */
  ghost predicate StoredAs(outcome: Outcome, stopped: bool, e: Execution) {
    && (outcome.Accepted? ==> e.remoteRef == Some(outcome.run) && e.status == (if stopped then EI.Stopping else EI.Running))
    && (!outcome.Accepted? ==> e.remoteRef == None)
    && (outcome.Uncertain? ==> e.status == EI.OutcomeUnknown)
    && (outcome.Rejected? ==> e.errorCode == Some(outcome.code) && e.retryAt == outcome.retryAt)
    && (!outcome.Rejected? ==> e.errorCode == None && e.retryAt == None)
    && (outcome.Rejected? && outcome.retry.Never? ==> e.status == EI.Failed)
    && (outcome.Rejected? && outcome.retry.ManualReview? ==> e.status == EI.ManualReview)
    && (outcome.Rejected? && outcome.retry.SameRequestBackoff? ==> e.status == EI.Reconciling && e.retryAt.Some?)
  }

  /** Over every history: a decided outcome is recorded exactly if the execution has not moved since its dispatch was
      started, except to be stopped, and an error has a code. Then the execution is one version on, in the state that
      the outcome calls for; otherwise it is left alone. */
  lemma OutcomeIsStored(setting: Setting, envelope: Key, steps: seq<Step>, i: nat)
    requires i < |steps| && Tries(setting, envelope, steps, i)
    ensures var d := Recorder(setting, envelope, steps, i);
            var outcome, version := d.phase.outcome, d.snapshot.version;
            var before, after := History(setting, envelope, steps[..i]).execution, History(setting, envelope, steps[..i + 1]).execution;
            var stopped := before.status == EI.Stopping && before.version == version + 1;
            && (Records(setting, envelope, steps, i, version) <==>
                  (before.version == version || stopped) && (outcome.Rejected? ==> outcome.code != ""))
            && (Records(setting, envelope, steps, i, version) ==>
                  after.version == before.version + 1 && StoredAs(outcome, stopped, after))
            && (!Records(setting, envelope, steps, i, version) ==> after == before)
  {
    var s := History(setting, envelope, steps[..i]);
    assert steps[..i + 1][..i] == steps[..i];
    HistoryKeeps(setting, envelope, steps[..i]);
    var d := s.dispatches[steps[i].w];
    assert DispatchFits(setting, s, d);
    assert SnapshotFits(s, d.snapshot);
    RecordingStores(setting, s, steps[i].w);
  }

  lemma RecordingStores(setting: Setting, s: System, w: nat)
    requires w in s.dispatches && s.dispatches[w].phase.Decided?
    requires var d := s.dispatches[w];
             && (d.phase.outcome.Rejected? ==> ClassFits(d.phase.outcome))
             && (s.execution.version == d.snapshot.version ==> s.execution.status.Submitting? || s.execution.status.OutcomeUnknown?)
    ensures var d := s.dispatches[w];
            var outcome, version, before := d.phase.outcome, d.snapshot.version, s.execution;
            var after := After(setting, s, Record(w)).execution;
            var stopped := before.status == EI.Stopping && before.version == version + 1;
            && (Recorded(before, version, outcome).Some? <==>
                  (before.version == version || stopped) && (outcome.Rejected? ==> outcome.code != ""))
            && (Recorded(before, version, outcome).Some? ==> after.version == before.version + 1 && StoredAs(outcome, stopped, after))
            && (Recorded(before, version, outcome).None? ==> after == before)
  {
  }

  /** From the wire to the store: an answer to a submission, once its outcome is recorded, has put the execution in
      exactly one state, which the status, the size and the body of the answer determine. */
  lemma AnswerIsStored(setting: Setting, envelope: Key, steps: seq<Step>, i: nat)
    requires i < |steps| && Tries(setting, envelope, steps, i)
    requires Recorder(setting, envelope, steps, i).answer.Some?
    requires Records(setting, envelope, steps, i, Recorder(setting, envelope, steps, i).snapshot.version)
    ensures var r := Recorder(setting, envelope, steps, i).answer.value;
            var after := History(setting, envelope, steps[..i + 1]).execution;
            var fits := r.size <= setting.maxResponseBytes;
            && (after.status.Running? || after.status.Stopping? <==> 200 <= r.status < 300 && !Misread(r, setting.maxResponseBytes))
            && (after.status.Running? || after.status.Stopping? ==> after.remoteRef == r.body.run)
            && (!(after.status.Running? || after.status.Stopping?) ==> after.remoteRef == None)
            && (after.status.OutcomeUnknown? <==> fits && 500 <= r.status < 600)
            && (after.status.ManualReview? <==> fits && (r.status == 401 || r.status == 403))
            && (after.status.Reconciling? <==> fits && r.status == 429)
            && (after.status.Reconciling? <==> after.retryAt.Some?)
            && (after.status.Running? || after.status.Stopping? || after.status.OutcomeUnknown? || after.status.ManualReview?
                || after.status.Reconciling? || after.status.Failed?)
  {
    var s := History(setting, envelope, steps[..i]);
    HistoryKeeps(setting, envelope, steps[..i]);
    assert DispatchFits(setting, s, s.dispatches[steps[i].w]);
    OutcomeIsStored(setting, envelope, steps, i);
    AnswerDecides(s.dispatches[steps[i].w].answer.value, setting.maxResponseBytes, RetryTime(s.dispatches[steps[i].w].phase.outcome));
  }

  lemma AnswerDecides(r: Response, maxResponseBytes: nat, schedule: Option<int>)
    ensures var o := SubmitOutcome(Submit(Answered(r), maxResponseBytes), schedule);
            var fits := r.size <= maxResponseBytes;
            && (o.None? ==> fits && r.status == 429)
            && (o.Some? ==>
                  && (o.value.Accepted? <==> IsSuccess(r.status) && !Misread(r, maxResponseBytes))
                  && (o.value.Accepted? ==> r.body.run == Some(o.value.run))
                  && (o.value.Uncertain? <==> fits && 500 <= r.status < 600)
                  && (o.value.Rejected? ==> o.value.code != "" && ClassFits(o.value))
                  && (o.value.Rejected? && o.value.retry.ManualReview? <==> fits && (r.status == 401 || r.status == 403))
                  && (o.value.Rejected? && o.value.retry.SameRequestBackoff? <==> fits && r.status == 429))
  {
  }

  /** Step `i` recorded an accepted run. */
  ghost predicate RecordsRun(setting: Setting, envelope: Key, steps: seq<Step>, i: nat, run: nat)
    requires i < |steps|
  {
    && Tries(setting, envelope, steps, i)
    && var d := Recorder(setting, envelope, steps, i); Records(setting, envelope, steps, i, d.snapshot.version) && d.phase.outcome == Accepted(run)
  }

  lemma {:induction false} ReferenceStays(setting: Setting, envelope: Key, steps: seq<Step>, n: nat)
    requires n <= |steps|
    ensures KeepsReference(History(setting, envelope, steps[..n]), History(setting, envelope, steps))
    decreases |steps|
  {
    if n == |steps| {
      assert steps[..n] == steps;
    } else {
      var init := steps[..|steps| - 1];
      assert init[..n] == steps[..n];
      ReferenceStays(setting, envelope, init, n);
      HistoryKeeps(setting, envelope, init);
      StepKeeps(setting, History(setting, envelope, init), steps[|steps| - 1]);
    }
  }

  lemma EarlierRecording(setting: Setting, envelope: Key, steps: seq<Step>, n: nat, i: nat, run: nat)
    requires i < n <= |steps|
    ensures RecordsRun(setting, envelope, steps[..n], i, run) <==> RecordsRun(setting, envelope, steps, i, run)
  {
    assert steps[..n][..i] == steps[..i];
  }

  lemma NewReference(setting: Setting, s: System, step: Step)
    requires s.execution.remoteRef != After(setting, s, step).execution.remoteRef && After(setting, s, step).execution.remoteRef.Some?
    ensures step.Record? && step.w in s.dispatches && s.dispatches[step.w].phase.Decided?
    ensures var d := s.dispatches[step.w];
            && Recorded(s.execution, d.snapshot.version, d.phase.outcome).Some?
            && Some(d.phase.outcome) == Some(Accepted(After(setting, s, step).execution.remoteRef.value))
  {
  }

  /** Over every history: the execution has a reference exactly if the acceptance of that run was recorded at some step. */
  lemma {:induction false} ReferenceIffAccepted(setting: Setting, envelope: Key, steps: seq<Step>, run: nat)
    ensures History(setting, envelope, steps).execution.remoteRef == Some(run) <==>
            exists i :: 0 <= i < |steps| && RecordsRun(setting, envelope, steps, i, run)
    decreases |steps|
  {
    if i :| 0 <= i < |steps| && RecordsRun(setting, envelope, steps, i, run) {
      OutcomeIsStored(setting, envelope, steps, i);
      ReferenceStays(setting, envelope, steps, i + 1);
    }
    if steps != [] && History(setting, envelope, steps).execution.remoteRef == Some(run) {
      var n := |steps| - 1;
      var s := History(setting, envelope, steps[..n]);
      if s.execution.remoteRef == Some(run) {
        ReferenceIffAccepted(setting, envelope, steps[..n], run);
        var i :| 0 <= i < n && RecordsRun(setting, envelope, steps[..n], i, run);
        EarlierRecording(setting, envelope, steps, n, i, run);
      } else {
        NewReference(setting, s, steps[n]);
        assert RecordsRun(setting, envelope, steps, n, run);
      }
    }
  }

  // ---------------------------------------------------------------- concrete histories

  lemma OneMore(setting: Setting, envelope: Key, steps: seq<Step>, step: Step)
    ensures History(setting, envelope, steps + [step]) == After(setting, History(setting, envelope, steps), step)
  {
    assert (steps + [step])[..|steps|] == steps;
  }

  lemma StartThenSend(setting: Setting, s: System, w: nat, snapshot: Snapshot)
    requires w !in s.dispatches && snapshot in s.issued && !snapshot.status.OutcomeUnknown?
    ensures After(setting, After(setting, After(setting, s, StartDispatch(w, snapshot)), Resolve(w, s.envelope, None)), Send(w))
         == Set(s, w, Dispatch(snapshot, Waiting, InFlight(s.envelope), [SubmitCall], None, None))
  {
    var calls: seq<Call> := [];
    assert calls + [SubmitCall] == [SubmitCall];
    var started := After(setting, s, StartDispatch(w, snapshot));
    var passed := After(setting, started, Resolve(w, s.envelope, None));
    assert passed == Set(s, w, Dispatch(snapshot, Passed(s.envelope), Unsent, [], None, None));
  }

  const FirstSnapshot := Snapshot(EI.Submitting, 0)

  function FirstSubmission(key: Key): seq<Step> {
    [] + [StartDispatch(0, FirstSnapshot)] + [Resolve(0, key, None)] + [Send(0)]
  }

  function Sent(key: Key): Dispatch {
    Dispatch(FirstSnapshot, Waiting, InFlight(key), [SubmitCall], None, None)
  }

  lemma FirstSubmissionSent(setting: Setting, key: Key)
    ensures History(setting, key, FirstSubmission(key)) == Set(Prepared(key), 0, Sent(key))
  {
    var none: seq<Step> := [];
    OneMore(setting, key, none, StartDispatch(0, FirstSnapshot));
    OneMore(setting, key, none + [StartDispatch(0, FirstSnapshot)], Resolve(0, key, None));
    OneMore(setting, key, none + [StartDispatch(0, FirstSnapshot)] + [Resolve(0, key, None)], Send(0));
    StartThenSend(setting, Prepared(key), 0, FirstSnapshot);
  }

  /** A misread success is recorded as a failure for good. */
  lemma MisreadIsRecorded(setting: Setting, s: System, w: nat, r: Response)
    requires w in s.dispatches && s.dispatches[w].phase.Waiting? && Truthful(setting, s.dispatches[w].request, r)
    requires Submit(Answered(r), setting.maxResponseBytes) == Err(InvalidPayload)
    requires s.dispatches[w].snapshot == FirstSnapshot && s.execution == Execution(EI.Submitting, 0, None, None, None)
    ensures var t := After(setting, After(setting, s, Answer(w, Answered(r), None)), Record(w));
            t.execution == Execution(EI.Failed, 1, None, Some("INVALID_REMOTE_PAYLOAD"), None) && t.created == s.created
  {
    var answered := After(setting, s, Answer(w, Answered(r), None));
    assert answered.dispatches[w].phase == Decided(Rejected("INVALID_REMOTE_PAYLOAD", Never, None));
  }

  /** A submission can be recorded as failed for good although the remote created a run for it and said so: its answer
      is a success whose body does not decode. */
  lemma RejectedMayHaveRun(key: Key)
    ensures exists steps ::
              var s := History(Setting(true, true, 100), key, steps);
              s.execution.status == EI.Failed && s.created == [key] && s.execution.remoteRef.None?
  {
    var setting := Setting(true, true, 100);
    var r := Response(200, 10, Undecodable);
    assert Submit(Answered(r), 100) == Err(InvalidPayload);
    var steps := FirstSubmission(key);
    FirstSubmissionSent(setting, key);
    OneMore(setting, key, steps, Deliver(0));
    var s := History(setting, key, steps + [Deliver(0)]);
    assert s.created == [key] && s.dispatches[0] == Sent(key).(request := Handled(key, 0));
    steps := steps + [Deliver(0)];
    OneMore(setting, key, steps, Answer(0, Answered(r), None));
    OneMore(setting, key, steps + [Answer(0, Answered(r), None)], Record(0));
    MisreadIsRecorded(setting, s, 0, r);
  }

  /** The first dispatch gave up with its request still on the way; a second one asks, hears of no run, and submits. */
  function SecondSubmission(key: Key): seq<Step> {
    FirstSubmission(key) + [Crash(0)] + [ChangeStatus(EI.Reconciling, None, None)] + [BeginResubmission]
    + [StartDispatch(1, Snapshot(EI.OutcomeUnknown, 2))] + [Resolve(1, key, None)]
    + [Reconcile(1, Answered(Response(404, 0, Undecodable)), None)] + [Send(1)]
  }

  lemma SecondSubmissionSent(setting: Setting, key: Key)
    ensures var s := History(setting, key, SecondSubmission(key));
            && s.created == [] && 0 in s.dispatches && s.dispatches[0].request == InFlight(key)
            && 1 in s.dispatches && s.dispatches[1].request == InFlight(key)
  {
    var steps := FirstSubmission(key);
    FirstSubmissionSent(setting, key);
    OneMore(setting, key, steps, Crash(0));
    OneMore(setting, key, steps + [Crash(0)], ChangeStatus(EI.Reconciling, None, None));
    OneMore(setting, key, steps + [Crash(0)] + [ChangeStatus(EI.Reconciling, None, None)], BeginResubmission);
    GivenUp(setting, key);
    SecondDispatchSends(setting, key, steps + [Crash(0)] + [ChangeStatus(EI.Reconciling, None, None)] + [BeginResubmission]);
  }

  lemma GivenUp(setting: Setting, key: Key)
    ensures var s := After(setting, After(setting, After(setting, Set(Prepared(key), 0, Sent(key)), Crash(0)),
                                          ChangeStatus(EI.Reconciling, None, None)), BeginResubmission);
            && s.envelope == key && s.created == [] && s.dispatches.Keys == {0} && s.dispatches[0].request == InFlight(key)
            && Snapshot(EI.OutcomeUnknown, 2) in s.issued
  {
    var s := After(setting, Set(Prepared(key), 0, Sent(key)), Crash(0));
    assert s == Set(Prepared(key), 0, Sent(key).(phase := Over));
  }

  lemma SecondDispatchSends(setting: Setting, key: Key, steps: seq<Step>)
    requires var s := History(setting, key, steps);
             && s.envelope == key && s.created == [] && s.dispatches.Keys == {0} && s.dispatches[0].request == InFlight(key)
             && Snapshot(EI.OutcomeUnknown, 2) in s.issued
    ensures var s := History(setting, key, steps + [StartDispatch(1, Snapshot(EI.OutcomeUnknown, 2))] + [Resolve(1, key, None)]
                                           + [Reconcile(1, Answered(Response(404, 0, Undecodable)), None)] + [Send(1)]);
            && s.created == [] && 0 in s.dispatches && s.dispatches[0].request == InFlight(key)
            && 1 in s.dispatches && s.dispatches[1].request == InFlight(key)
  {
    var nothing := Answered(Response(404, 0, Undecodable));
    assert SendJson(nothing, setting.maxResponseBytes) == Err(AdapterError("REMOTE_RUN_NOT_FOUND", Never));
    assert ReconcileSubmission(nothing, setting.maxResponseBytes) == Ok(None);
    OneMore(setting, key, steps, StartDispatch(1, Snapshot(EI.OutcomeUnknown, 2)));
    var more := steps + [StartDispatch(1, Snapshot(EI.OutcomeUnknown, 2))];
    OneMore(setting, key, more, Resolve(1, key, None));
    more := more + [Resolve(1, key, None)];
    OneMore(setting, key, more, Reconcile(1, nothing, None));
    more := more + [Reconcile(1, nothing, None)];
    assert History(setting, key, more).dispatches[1].phase == FoundNothing(key);
    OneMore(setting, key, more, Send(1));
  }

  /** Asking first is not enough without idempotent keys: the delayed request still creates a second run. */
  lemma ReconcilingAloneIsNotEnough(setting: Setting, key: Key)
    requires !setting.idempotentKeys
    ensures exists steps :: History(setting, key, steps).created == [key, key]
  {
    var steps := SecondSubmission(key);
    SecondSubmissionSent(setting, key);
    OneMore(setting, key, steps, Deliver(0));
    OneMore(setting, key, steps + [Deliver(0)], Deliver(1));
    assert History(setting, key, steps + [Deliver(0)] + [Deliver(1)]).created == [key, key];
  }

  // ---------------------------------------------------------------- the steps are the dispatch

  /** The steps of one undisturbed dispatch, given what it finds, the exchanges with the remote and whether the request
      is delivered while it waits. */
  function StepsOf(
    setting: Setting, w: nat, status: Status, p: Preflight, key: Key, reconcile: Exchange, submit: Exchange, schedule: Option<int>, delivered: bool)
    : seq<Step>
  {
    match CheckFirst(p, status)
    case Abort => [Crash(w)]
    case Fail(error) => [FailPreflight(w, error, schedule)]
    case Clear =>
      if !status.OutcomeUnknown? then [Resolve(w, key, schedule)] + SubmitSteps(w, submit, schedule, delivered)
      else if ReconcileSubmission(reconcile, setting.maxResponseBytes) == Ok(None) then
        [Resolve(w, key, schedule), Reconcile(w, reconcile, schedule)] + SubmitSteps(w, submit, schedule, delivered)
      else [Resolve(w, key, schedule), Reconcile(w, reconcile, schedule)]
  }

  function SubmitSteps(w: nat, submit: Exchange, schedule: Option<int>, delivered: bool): seq<Step> {
    if submit.Unsendable? then [FailLocally(w, submit.error, schedule)]
    else if delivered then [Send(w), Deliver(w), Answer(w, submit, schedule)]
    else [Send(w), Answer(w, submit, schedule)]
  }

  ghost function AfterAll(setting: Setting, s: System, steps: seq<Step>): System
    decreases |steps|
  {
    if steps == [] then s else AfterAll(setting, After(setting, s, steps[0]), steps[1..])
  }

  lemma AfterTwo(setting: Setting, s: System, a: Step, rest: seq<Step>)
    ensures AfterAll(setting, s, [a] + rest) == AfterAll(setting, After(setting, s, a), rest)
  {
    assert ([a] + rest)[1..] == rest;
  }

  /** The remote's answer to the submission is one that it can give to this request. */
  ghost predicate Answerable(setting: Setting, s: System, key: Key, submit: Exchange, delivered: bool) {
    submit.Answered? ==>
      Truthful(setting, if delivered then Handled(key, Handle(setting, s.created, key).1) else InFlight(key), submit.response)
  }

  lemma SubmitStepsSubmit(
    setting: Setting, s: System, w: nat, key: Key, submit: Exchange, schedule: Option<int>, delivered: bool)
    requires w in s.dispatches && MaySend(s.dispatches[w]) && s.dispatches[w].phase.key == key
    requires Answerable(setting, s, key, submit, delivered)
    ensures var d := AfterAll(setting, s, SubmitSteps(w, submit, schedule, delivered)).dispatches;
            && w in d && d[w].calls == s.dispatches[w].calls + [SubmitCall]
            && d[w].verdict == SubmitOutcome(Submit(submit, setting.maxResponseBytes), schedule)
  {
    if submit.Unsendable? {
      var none: seq<Step> := [];
      assert [FailLocally(w, submit.error, schedule)] + none == [FailLocally(w, submit.error, schedule)];
      AfterTwo(setting, s, FailLocally(w, submit.error, schedule), none);
    } else {
      var sent := After(setting, s, Send(w));
      assert sent.dispatches[w].request == InFlight(key) && sent.created == s.created;
      var answer := Answer(w, submit, schedule);
      if delivered {
        assert SubmitSteps(w, submit, schedule, delivered) == [Send(w)] + ([Deliver(w)] + ([answer] + []));
        AfterTwo(setting, s, Send(w), [Deliver(w)] + ([answer] + []));
        AfterTwo(setting, sent, Deliver(w), [answer] + []);
        AfterTwo(setting, After(setting, sent, Deliver(w)), answer, []);
      } else {
        assert SubmitSteps(w, submit, schedule, delivered) == [Send(w)] + ([answer] + []);
        AfterTwo(setting, s, Send(w), [answer] + []);
        AfterTwo(setting, sent, answer, []);
      }
    }
  }

  /** Whatever it finds and whatever the remote answers: a dispatch taken through the steps of the system calls and
      decides what the dispatching method specifies. */
  lemma StepsAreTheDispatch(
    setting: Setting, s: System, w: nat, snapshot: Snapshot, p: Preflight, reconcile: Exchange, submit: Exchange,
    schedule: Option<int>, delivered: bool)
    requires w in s.dispatches && s.dispatches[w] == Dispatch(snapshot, Started, Unsent, [], None, None)
    requires TruthfulAbout(setting, s.created, s.envelope, reconcile) && Answerable(setting, s, s.envelope, submit, delivered)
    ensures var steps := StepsOf(setting, w, snapshot.status, p, s.envelope, reconcile, submit, schedule, delivered);
            var d := AfterAll(setting, s, steps).dispatches;
            && w in d
            && Dispatches(snapshot.status, p, ReconcileSubmission(reconcile, setting.maxResponseBytes),
                          Submit(submit, setting.maxResponseBytes), schedule, d[w].calls, d[w].verdict)
  {
    var key, status := s.envelope, snapshot.status;
    var check := CheckFirst(p, status);
    if check.Clear? {
      var resolved := After(setting, s, Resolve(w, key, schedule));
      assert resolved == Set(s, w, s.dispatches[w].(phase := Passed(key)));
      if status.OutcomeUnknown? {
        AskedSteps(setting, s, w, p, reconcile, submit, schedule, delivered);
      } else {
        var calls: seq<Call> := [];
        assert calls + [SubmitCall] == [SubmitCall];
        AfterTwo(setting, s, Resolve(w, key, schedule), SubmitSteps(w, submit, schedule, delivered));
        SubmitStepsSubmit(setting, resolved, w, key, submit, schedule, delivered);
      }
    } else {
      OnlyStep(setting, s, if check.Abort? then Crash(w) else FailPreflight(w, check.error, schedule));
    }
  }

  lemma OnlyStep(setting: Setting, s: System, step: Step)
    ensures AfterAll(setting, s, [step]) == After(setting, s, step)
  {
    assert [step][1..] == [];
  }

  lemma AskedSteps(
    setting: Setting, s: System, w: nat, p: Preflight, reconcile: Exchange, submit: Exchange, schedule: Option<int>, delivered: bool)
    requires w in s.dispatches && var d := s.dispatches[w];
             && d == Dispatch(d.snapshot, Started, Unsent, [], None, None) && d.snapshot.status.OutcomeUnknown?
             && CheckFirst(p, d.snapshot.status).Clear?
    requires TruthfulAbout(setting, s.created, s.envelope, reconcile) && Answerable(setting, s, s.envelope, submit, delivered)
    ensures var steps := StepsOf(setting, w, s.dispatches[w].snapshot.status, p, s.envelope, reconcile, submit, schedule, delivered);
            var d := AfterAll(setting, s, steps).dispatches;
            && w in d
            && Dispatches(s.dispatches[w].snapshot.status, p, ReconcileSubmission(reconcile, setting.maxResponseBytes),
                          Submit(submit, setting.maxResponseBytes), schedule, d[w].calls, d[w].verdict)
  {
    var key := s.envelope;
    var ask := Reconcile(w, reconcile, schedule);
    var resolved := After(setting, s, Resolve(w, key, schedule));
    assert resolved == Set(s, w, s.dispatches[w].(phase := Passed(key)));
    var asked := After(setting, resolved, ask);
    var calls: seq<Call> := [];
    assert calls + [ReconcileCall] == [ReconcileCall] && [ReconcileCall] + [SubmitCall] == [ReconcileCall, SubmitCall];
    var denied := ReconcileSubmission(reconcile, setting.maxResponseBytes) == Ok(None);
    var rest := if denied then SubmitSteps(w, submit, schedule, delivered) else [];
    assert [Resolve(w, key, schedule), ask] + rest == [Resolve(w, key, schedule)] + ([ask] + rest);
    AfterTwo(setting, s, Resolve(w, key, schedule), [ask] + rest);
    AfterTwo(setting, resolved, ask, rest);
    if denied {
      assert asked.dispatches[w].phase == FoundNothing(key) && asked.created == s.created;
      SubmitStepsSubmit(setting, asked, w, key, submit, schedule, delivered);
    } else {
      assert [Resolve(w, key, schedule), ask] + [] == [Resolve(w, key, schedule), ask];
    }
  }
}
