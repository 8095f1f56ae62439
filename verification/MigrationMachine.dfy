/** The step machine that every migration run follows (crates/durable-store/src/migration_executor.rs). */
module MigrationMachine {
  import opened Prelude
  import opened MigrationAssessment

  datatype Step = AcquireLock | StartJournal | ExecuteSql | VerifySchema | MarkApplied | MarkFailed | ReleaseLock

  /** What the driver is asked to do; the lock steps concern no candidate. */
  datatype Action = Action(step: Step, candidate: Option<Candidate>)

  datatype Phase = Doing(step: Step) | Succeeded | Failed

  datatype Failure = Failure(
    logicalId: Option<string>,
    failedStep: Step,
    errorCode: string,
    markFailedError: Option<string>,
    releaseLockError: Option<string>)

  datatype MachineError = AlreadyFinished

  datatype State = State(pending: seq<Candidate>, index: nat, phase: Phase, failure: Option<Failure>)

  datatype Report = Success | Failing(code: string)

  predicate LockStep(step: Step) {
    step.AcquireLock? || step.ReleaseLock?
  }

  /** The current candidate exists whenever a step needs it; a failure is on record exactly while
      recovering from one. */
  ghost predicate Legal(s: State) {
    && (s.phase.Doing? && !LockStep(s.phase.step) ==> s.index < |s.pending|)
    && (s.phase.Doing? && s.phase.step in {AcquireLock, StartJournal, ExecuteSql, VerifySchema, MarkApplied} ==> s.failure.None?)
    && (s.phase == Doing(AcquireLock) ==> s.index == 0 < |s.pending|)
    && (s.phase == Doing(MarkFailed) ==> s.failure.Some?)
    && (s.phase == Doing(ReleaseLock) && s.failure.None? ==> s.index == |s.pending|)
    && (s.phase == Succeeded ==> s.failure.None?)
    && (s.phase == Phase.Failed ==> s.failure.Some?)
  }

  function Start(pending: seq<Candidate>): State {
    State(pending, 0, if pending == [] then Succeeded else Doing(AcquireLock), None)
  }

  function Next(s: State): Option<Action>
    requires Legal(s)
  {
    if !s.phase.Doing? then None
    else Some(Action(s.phase.step, if LockStep(s.phase.step) then None else Some(s.pending[s.index])))
  }

  function IdOf(action: Action): Option<string> {
    if action.candidate.None? then None else Some(Id(action.candidate.value))
  }

  function AfterSuccess(s: State): State
    requires Legal(s) && s.phase.Doing?
  {
    match s.phase.step
    case AcquireLock => s.(phase := Doing(StartJournal))
    case StartJournal => s.(phase := Doing(ExecuteSql))
    case ExecuteSql => s.(phase := Doing(VerifySchema))
    case VerifySchema => s.(phase := Doing(MarkApplied))
    case MarkApplied =>
      s.(index := s.index + 1, phase := Doing(if s.index + 1 == |s.pending| then ReleaseLock else StartJournal))
    case MarkFailed => s.(phase := Doing(ReleaseLock))
    case ReleaseLock => s.(phase := if s.failure.Some? then Phase.Failed else Succeeded)
  }

  function AfterFailure(s: State, code: string): State
    requires Legal(s) && s.phase.Doing?
  {
    var action := Next(s).value;
    match action.step
    case AcquireLock => s.(failure := Some(Failure(None, AcquireLock, code, None, None)), phase := Phase.Failed)
    case MarkFailed =>
      s.(failure := Some(s.failure.value.(markFailedError := Some(code))), phase := Doing(ReleaseLock))
    case ReleaseLock =>
      s.(failure := Some(match s.failure
                         case Some(failure) => failure.(releaseLockError := Some(code))
                         case None => Failure(None, ReleaseLock, code, None, None)),
         phase := Phase.Failed)
    case _ => s.(failure := Some(Failure(IdOf(action), action.step, code, None, None)), phase := Doing(MarkFailed))
  }

  function AfterReport(s: State, report: Report): (t: State)
    requires Legal(s) && s.phase.Doing?
    ensures Legal(t) && t.pending == s.pending
  {
    if report.Success? then AfterSuccess(s) else AfterFailure(s, report.code)
  }

  // ---------------------------------------------------------------- the machine

  class Machine {
    var pending: seq<Candidate>
    var currentIndex: nat
    var phase: Phase
    var failure: Option<Failure>

    function Now(): State
      reads this
    {
      State(pending, currentIndex, phase, failure)
    }

    ghost predicate Valid()
      reads this
    {
      Legal(Now())
    }

    constructor (plan: MigrationPlan)
      ensures Valid() && Now() == Start(plan.pending)
    {
      pending := plan.pending;
      currentIndex := 0;
      phase := if plan.pending == [] then Succeeded else Doing(AcquireLock);
      failure := None;
    }

    method NextAction() returns (action: Option<Action>)
      requires Valid()
      ensures action == Next(Now())
      ensures action.None? <==> phase in {Succeeded, Phase.Failed}
    {
      match phase {
        case Doing(step) =>
          if LockStep(step) {
            action := Some(Action(step, None));
          } else {
            action := Some(Action(step, Some(pending[currentIndex])));
          }
        case _ => action := None;
      }
    }

    method ReportSuccess() returns (r: Result<(), MachineError>)
      requires Valid()
      modifies this
      ensures Valid()
      ensures r.Err? <==> !old(phase).Doing?
      ensures Now() == if r.Ok? then AfterReport(old(Now()), Success) else old(Now())
    {
      match phase {
        case Succeeded => return Err(AlreadyFinished);
        case Failed => return Err(AlreadyFinished);
        case Doing(step) =>
          match step {
            case AcquireLock => phase := Doing(StartJournal);
            case StartJournal => phase := Doing(ExecuteSql);
            case ExecuteSql => phase := Doing(VerifySchema);
            case VerifySchema => phase := Doing(MarkApplied);
            case MarkApplied =>
              currentIndex := currentIndex + 1;
              phase := Doing(if currentIndex == |pending| then ReleaseLock else StartJournal);
            case MarkFailed => phase := Doing(ReleaseLock);
            case ReleaseLock => phase := if failure.Some? then Phase.Failed else Succeeded;
          }
      }
      r := Ok(());
    }

    method ReportFailure(code: string) returns (r: Result<(), MachineError>)
      requires Valid()
      modifies this
      ensures Valid()
      ensures r.Err? <==> !old(phase).Doing?
      ensures Now() == if r.Ok? then AfterReport(old(Now()), Failing(code)) else old(Now())
    {
      var next := NextAction();
      if next.None? {
        return Err(AlreadyFinished);
      }
      var action := next.value;
      match action.step {
        case AcquireLock =>
          failure := Some(Failure(None, AcquireLock, code, None, None));
          phase := Phase.Failed;
        case MarkFailed =>
          if failure.Some? {
            failure := Some(failure.value.(markFailedError := Some(code)));
          }
          phase := Doing(ReleaseLock);
        case ReleaseLock =>
          if failure.Some? {
            failure := Some(failure.value.(releaseLockError := Some(code)));
          } else {
            failure := Some(Failure(None, ReleaseLock, code, None, None));
          }
          phase := Phase.Failed;
        case _ =>
          failure := Some(Failure(IdOf(action), action.step, code, None, None));
          phase := Doing(MarkFailed);
      }
      r := Ok(());
    }
  }

  // ---------------------------------------------------------------- whole runs

  /** The state after a sequence of reports; a finished machine refuses the rest. */
  ghost function After(s: State, reports: seq<Report>): (t: State)
    requires Legal(s)
    ensures Legal(t) && t.pending == s.pending
    decreases |reports|
  {
    if reports == [] || !s.phase.Doing? then s else After(AfterReport(s, reports[0]), reports[1..])
  }

  /** The actions that those reports answered. */
  ghost function Trace(s: State, reports: seq<Report>): seq<Action>
    requires Legal(s)
    decreases |reports|
  {
    if reports == [] || !s.phase.Doing? then []
    else [Next(s).value] + Trace(AfterReport(s, reports[0]), reports[1..])
  }

  // ---------------------------------------------------------------- the script a run follows

  const Release := Action(ReleaseLock, None)

  function StepsOf(c: Candidate): seq<Action> {
    [Action(StartJournal, Some(c)), Action(ExecuteSql, Some(c)), Action(VerifySchema, Some(c)), Action(MarkApplied, Some(c))]
  }

  /** Four steps for each candidate, then the release. */
  function Steps(candidates: seq<Candidate>): seq<Action> {
    if candidates == [] then [Release] else StepsOf(candidates[0]) + Steps(candidates[1..])
  }

  function Script(pending: seq<Candidate>): seq<Action> {
    if pending == [] then [] else [Action(AcquireLock, None)] + Steps(pending)
  }

  /** What follows a failed action. */
  function Recovery(action: Action): seq<Action> {
    if LockStep(action.step) then [] else [Action(MarkFailed, action.candidate), Release]
  }

  /** The script up to the first failure, then the recovery from it. */
  ghost function Course(script: seq<Action>, reports: seq<Report>): seq<Action> {
    if script == [] then []
    else if reports == [] then script
    else if reports[0].Failing? then [script[0]] + Recovery(script[0])
    else [script[0]] + Course(script[1..], reports[1..])
  }

  function Reported(reports: seq<Report>, i: nat): Option<string> {
    if i < |reports| && reports[i].Failing? then Some(reports[i].code) else None
  }

  /** The first failure, with what went wrong while recovering from it. */
  ghost function FirstFailure(script: seq<Action>, reports: seq<Report>): Option<Failure> {
    if script == [] || reports == [] then None
    else if reports[0].Success? then FirstFailure(script[1..], reports[1..])
    else
      var action := script[0];
      var recovers := !LockStep(action.step);
      Some(Failure(
             IdOf(action), action.step, reports[0].code,
             if recovers then Reported(reports, 1) else None,
             if recovers then Reported(reports, 2) else None))
  }

  /** The script still ahead of a state without failures. */
  ghost function Ahead(s: State): seq<Action>
    requires Legal(s)
  {
    match s.phase
    case Succeeded => []
    case Failed => []
    case Doing(step) =>
      match step
      case AcquireLock => Script(s.pending)
      case StartJournal => Steps(s.pending[s.index..])
      case ExecuteSql => Steps(s.pending[s.index..])[1..]
      case VerifySchema => Steps(s.pending[s.index..])[2..]
      case MarkApplied => Steps(s.pending[s.index..])[3..]
      case MarkFailed => [Next(s).value, Release]
      case ReleaseLock => [Release]
  }

  lemma StepsAhead(candidates: seq<Candidate>)
    requires candidates != []
    ensures var c, s := candidates[0], Steps(candidates);
            && |s| >= 5 && s[4..] == Steps(candidates[1..])
            && s[0] == Action(StartJournal, Some(c)) && s[1] == Action(ExecuteSql, Some(c))
            && s[2] == Action(VerifySchema, Some(c)) && s[3] == Action(MarkApplied, Some(c))
  {
    assert |Steps(candidates[1..])| >= 1;
  }

  lemma SuccessAdvances(s: State)
    requires Legal(s) && s.phase.Doing?
    ensures Ahead(s) != [] && Next(s).value == Ahead(s)[0]
    ensures Ahead(AfterReport(s, Success)) == Ahead(s)[1..]
  {
    if s.index < |s.pending| {
      var rest := s.pending[s.index..];
      StepsAhead(rest);
      assert rest[0] == s.pending[s.index] && rest[1..] == s.pending[s.index + 1..];
      assert s.pending[0..] == s.pending;
    }
  }

  /** The machine follows the script: it takes exactly the actions of the course, one per report. */
  lemma {:induction false} MachineFollowsScript(s: State, reports: seq<Report>)
    requires Legal(s) && s.failure.None?
    ensures var course := Course(Ahead(s), reports);
            && Trace(s, reports) == course[..if |reports| < |course| then |reports| else |course|]
            && (After(s, reports).phase.Doing? <==> |reports| < |course|)
            && After(s, reports).failure == FirstFailure(Ahead(s), reports)
    decreases |reports|
  {
    if s.phase.Doing? {
      SuccessAdvances(s);
      if reports != [] {
        if reports[0].Success? {
          MachineFollowsScript(AfterReport(s, Success), reports[1..]);
        } else if !LockStep(s.phase.step) {
          RecoveryRuns(AfterReport(s, reports[0]), reports[1..]);
        }
      }
    }
  }

  lemma RecoveryRuns(s: State, reports: seq<Report>)
    requires Legal(s) && s.phase == Doing(MarkFailed)
    requires s.failure.value.markFailedError.None? && s.failure.value.releaseLockError.None?
    ensures var recovery := [Next(s).value, Release];
            && Trace(s, reports) == recovery[..if |reports| < 2 then |reports| else 2]
            && (After(s, reports).phase.Doing? <==> |reports| < 2)
            && After(s, reports).failure == Some(s.failure.value.(
                 markFailedError := Reported(reports, 0), releaseLockError := Reported(reports, 1)))
  {
    if reports != [] {
      var t := AfterReport(s, reports[0]);
      assert t.phase == Doing(ReleaseLock) && Next(t) == Some(Release);
      if |reports| > 1 {
        var u := AfterReport(t, reports[1]);
        assert reports[1..][0] == reports[1];
        assert After(u, reports[2..]) == u && Trace(u, reports[2..]) == [];
        assert reports[1..][1..] == reports[2..];
      } else {
        assert reports[1..] == [];
      }
    }
  }

  lemma {:induction false} StepsLength(candidates: seq<Candidate>)
    ensures |Steps(candidates)| == 4 * |candidates| + 1
    ensures Steps(candidates)[|Steps(candidates)| - 1] == Release
    ensures forall i :: 0 <= i < |Steps(candidates)| - 1 ==> !LockStep(Steps(candidates)[i].step) && Steps(candidates)[i].candidate.Some?
  {
    if candidates != [] {
      StepsLength(candidates[1..]);
    }
  }

  /** A course through the steps is at most two actions longer than they are, and releases exactly once, at its end. */
  lemma {:induction false} CourseReleasesOnce(script: seq<Action>, reports: seq<Report>)
    requires script != [] && script[|script| - 1] == Release
    requires forall i :: 0 <= i < |script| - 1 ==> !LockStep(script[i].step)
    ensures var course := Course(script, reports);
            && course != [] && course[|course| - 1] == Release && |course| <= |script| + 1
            && forall i :: 0 <= i < |course| - 1 ==> !LockStep(course[i].step)
    decreases |script|
  {
    if reports != [] && reports[0].Success? && |script| > 1 {
      CourseReleasesOnce(script[1..], reports[1..]);
    }
  }

  /** Every run finishes within 4n + 3 reports. */
  lemma RunsAreBounded(pending: seq<Candidate>, reports: seq<Report>)
    requires pending != []
    ensures |reports| >= 4 * |pending| + 3 ==> !After(Start(pending), reports).phase.Doing?
    ensures |Trace(Start(pending), reports)| <= 4 * |pending| + 3
  {
    MachineFollowsScript(Start(pending), reports);
    StepsLength(pending);
    if reports != [] {
      CourseReleasesOnce(Steps(pending), reports[1..]);
      assert Script(pending)[1..] == Steps(pending);
    }
  }

  function Successes(n: nat): seq<Report> {
    seq(n, _ => Success)
  }

  /** A failure of the last candidate's last step takes all of them, whatever the candidates. */
  lemma BoundIsReached(pending: seq<Candidate>, code: string)
    requires pending != []
    ensures var reports := Successes(4 * |pending|) + [Failing(code), Success, Success];
            && |reports| == 4 * |pending| + 3
            && After(Start(pending), reports[..|reports| - 1]).phase.Doing?
            && !After(Start(pending), reports).phase.Doing?
  {
    var n := 4 * |pending|;
    var reports := Successes(n) + [Failing(code), Success, Success];
    var script := Script(pending);
    StepsLength(pending);
    assert script[n] == Steps(pending)[n - 1] && !LockStep(script[n].step);
    MachineFollowsScript(Start(pending), reports);
    MachineFollowsScript(Start(pending), reports[..n + 2]);
    CourseAfterSuccesses(script, reports, n);
    CourseAfterSuccesses(script, reports[..n + 2], n);
  }

  lemma {:induction false} CourseAfterSuccesses(script: seq<Action>, reports: seq<Report>, n: nat)
    requires n < |script| && n < |reports| && forall i :: 0 <= i < n ==> reports[i].Success?
    requires reports[n].Failing?
    ensures Course(script, reports) == script[..n + 1] + Recovery(script[n])
    ensures FirstFailure(script, reports).Some?
    ensures var f := FirstFailure(script, reports).value;
            f.failedStep == script[n].step && f.logicalId == IdOf(script[n]) && f.errorCode == reports[n].code
    decreases n
  {
    if n > 0 {
      CourseAfterSuccesses(script[1..], reports[1..], n - 1);
      assert script[..n + 1] == [script[0]] + script[1..][..n];
    } else {
      assert script[..1] == [script[0]];
    }
  }

  /** A finished run that acquired the lock released it exactly once, as its last action; a run that did
      not acquire it took no other action. */
  lemma LockIsReleasedOnce(pending: seq<Candidate>, reports: seq<Report>)
    requires pending != [] && reports != [] && !After(Start(pending), reports).phase.Doing?
    ensures var trace := Trace(Start(pending), reports);
            && trace != [] && trace[0] == Action(AcquireLock, None)
            && (reports[0].Failing? ==> |trace| == 1)
            && (reports[0].Success? ==>
                  |trace| > 1 && trace[|trace| - 1] == Release
                  && forall i :: 0 < i < |trace| - 1 ==> !LockStep(trace[i].step))
  {
    MachineFollowsScript(Start(pending), reports);
    StepsLength(pending);
    CourseReleasesOnce(Steps(pending), reports[1..]);
    assert Script(pending)[1..] == Steps(pending);
    var course := Course(Script(pending), reports);
    assert course[..|course|] == course;
  }

  /** A run that has finished succeeded exactly when every report it took was a success, and then it took
      every step of every candidate in order. */
  lemma SuccessTakesEveryStep(pending: seq<Candidate>, reports: seq<Report>)
    requires pending != [] && !After(Start(pending), reports).phase.Doing?
    ensures After(Start(pending), reports).phase == Succeeded <==> AllSuccessful(reports, |Script(pending)|)
    ensures After(Start(pending), reports).phase == Succeeded ==> Trace(Start(pending), reports) == Script(pending)
  {
    var script := Script(pending);
    MachineFollowsScript(Start(pending), reports);
    CourseIsScript(script, reports);
    assert script[..|script|] == script;
  }

  ghost predicate AllSuccessful(reports: seq<Report>, n: nat) {
    |reports| >= n && forall i :: 0 <= i < n ==> reports[i].Success?
  }

  lemma {:induction false} CourseIsScript(script: seq<Action>, reports: seq<Report>)
    requires |reports| >= |Course(script, reports)|
    ensures FirstFailure(script, reports).None? <==> AllSuccessful(reports, |script|)
    ensures FirstFailure(script, reports).None? ==> Course(script, reports) == script
    decreases |script|
  {
    if script != [] && reports != [] {
      if reports[0].Success? {
        CourseIsScript(script[1..], reports[1..]);
        assert forall i :: 0 < i < |reports| ==> reports[i] == reports[1..][i - 1];
      }
    }
  }

  /** A failed run keeps the first failing step, its candidate and its code, whatever the recovery reports. */
  lemma FirstFailureIsKept(pending: seq<Candidate>, reports: seq<Report>, n: nat)
    requires pending != []
    requires n < |reports| && n < |Script(pending)| && forall i :: 0 <= i < n ==> reports[i].Success?
    requires reports[n].Failing?
    ensures var failure := After(Start(pending), reports).failure;
            && failure.Some?
            && failure.value.failedStep == Script(pending)[n].step
            && failure.value.logicalId == IdOf(Script(pending)[n])
            && failure.value.errorCode == reports[n].code
  {
    MachineFollowsScript(Start(pending), reports);
    CourseAfterSuccesses(Script(pending), reports, n);
  }
}
