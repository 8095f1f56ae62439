/** Several scanners with stale snapshots dispatching one schedule, with crashes anywhere
    (crates/server/src/schedule.rs, crates/store-postgres/src/query_executor.rs, crates/server/src/api.rs). */
module ScheduleProtocol {
  import opened Prelude
  import opened Text
  import opened ScheduleDispatch
  import opened Identity

  type ScheduleId = PrintedId

  function ScheduledRunId(schedule: ScheduleId, fireAt: int): DerivedId {
    DerivedId("schedule-run/" + schedule + "/" + Signed(fireAt))
  }

  /** The id of a scheduled run determines its schedule and its occurrence. */
  lemma ScheduledRunIdDetermines(s: ScheduleId, fireAt: int, s': ScheduleId, fireAt': int)
    requires ScheduledRunId(s, fireAt) == ScheduledRunId(s', fireAt')
    ensures s == s' && fireAt == fireAt'
  {
    var t, t' := ScheduledRunId(s, fireAt).text, ScheduledRunId(s', fireAt').text;
    assert t[13..45] == s && t'[13..45] == s';
    assert t[46..] == Signed(fireAt) && t'[46..] == Signed(fireAt');
    SignedInjective(fireAt, fireAt');
  }

  /** The columns that the compare-and-set looks at. */
  datatype Row = Row(nextFireAt: int, version: nat)

  datatype Run = Run(runId: DerivedId, fireAt: int)

  /** A scanner that read `seen` and is working through its plan. */
  datatype Scanner = Idle | Dispatching(seen: Row, plan: DispatchPlan, fired: nat)

  datatype State = State(row: Row, runs: seq<Run>, receipts: set<int>, scanners: map<nat, Scanner>)

  /** A crash, an error or a lost answer is a Stop after the effect; anyone may fire an instant by hand, and
      receipts expire. */
  datatype Step =
    | Scan(scanner: nat, now: int, blocked: bool)
    | Fire(scanner: nat)
    | Advance(scanner: nat)
    | Stop(scanner: nat)
    | FireByHand(fireAt: int)
    | ForgetReceipt(fireAt: int)

  predicate HasRun(st: State, fireAt: int) {
    exists i :: 0 <= i < |st.runs| && st.runs[i].fireAt == fireAt
  }

  function ScannerAt(st: State, w: nat): Scanner {
    if w in st.scanners then st.scanners[w] else Idle
  }

  /** A forbidding schedule with an active run is planned as if it skipped. */
  function Effective(d: Definition, blocked: bool): Definition {
    if d.concurrencyPolicy.Forbid? && blocked then d.(misfirePolicy := Skip) else d
  }

  /** Replays the receipt, or finds the run of that occurrence, or inserts one. */
  function CreateRun(schedule: ScheduleId, st: State, fireAt: int): State {
    if fireAt in st.receipts then st
    else if HasRun(st, fireAt) then st.(receipts := st.receipts + {fireAt})
    else st.(runs := st.runs + [Run(ScheduledRunId(schedule, fireAt), fireAt)], receipts := st.receipts + {fireAt})
  }

  /** The database and the scanners after one step; a step that is not possible changes nothing. */
  function After(d: Definition, schedule: ScheduleId, st: State, step: Step): State {
    match step
    case Scan(w, now, blocked) =>
      if st.row.nextFireAt > now then st
      else (match PlanFor(Effective(d, blocked), st.row.nextFireAt, now)
            case Ok(plan) => st.(scanners := st.scanners[w := Dispatching(st.row, plan, 0)])
            case Err(_) => st.(scanners := st.scanners[w := Idle]))
    case Fire(w) =>
      (match ScannerAt(st, w)
       case Idle => st
       case Dispatching(seen, plan, fired) =>
         if fired >= |plan.fires| then st
         else CreateRun(schedule, st, plan.fires[fired]).(scanners := st.scanners[w := Dispatching(seen, plan, fired + 1)]))
    case Advance(w) =>
      (match ScannerAt(st, w)
       case Idle => st
       case Dispatching(seen, plan, fired) =>
         if fired < |plan.fires| then st
         else st.(row := if st.row == seen then Row(plan.nextFireAt, seen.version + 1) else st.row,
                  scanners := st.scanners[w := Idle]))
    case Stop(w) => st.(scanners := st.scanners[w := Idle])
    case FireByHand(fireAt) => CreateRun(schedule, st, fireAt)
    case ForgetReceipt(fireAt) => st.(receipts := st.receipts - {fireAt})
  }

  function History(d: Definition, schedule: ScheduleId, st: State, steps: seq<Step>): State {
    if steps == [] then st else After(d, schedule, History(d, schedule, st, steps[..|steps| - 1]), steps[|steps| - 1])
  }

  function Created(start: int): State {
    State(Row(start, 0), [], {}, map[])
  }

  // ---------------------------------------------------------------- safety under every policy

  ghost predicate ScannerFits(d: Definition, st: State, s: Scanner) {
    s.Dispatching? ==>
      && s.seen.version <= st.row.version
      && (s.seen.version == st.row.version ==> s.seen == st.row)
      && s.fired <= |s.plan.fires|
      && s.plan.nextFireAt > s.seen.nextFireAt
      && forall i :: 0 <= i < s.fired ==> HasRun(st, s.plan.fires[i])
  }

  ghost predicate RunsFit(schedule: ScheduleId, st: State) {
    && (forall i, j :: 0 <= i < j < |st.runs| ==> st.runs[i].fireAt != st.runs[j].fireAt)
    && (forall i :: 0 <= i < |st.runs| ==> st.runs[i].runId == ScheduledRunId(schedule, st.runs[i].fireAt))
    && forall t :: t in st.receipts ==> HasRun(st, t)
  }

  ghost predicate Safe(d: Definition, schedule: ScheduleId, st: State) {
    && RunsFit(schedule, st)
    && forall w :: w in st.scanners ==> ScannerFits(d, st, st.scanners[w])
  }

  ghost predicate Sound(d: Definition) {
    d.cron.Some? ==> Advancing(d.cron.value)
  }

  lemma CreateRunKeepsRuns(schedule: ScheduleId, st: State, fireAt: int)
    requires RunsFit(schedule, st)
    ensures var u := CreateRun(schedule, st, fireAt);
            && RunsFit(schedule, u) && HasRun(u, fireAt) && u.row == st.row && u.scanners == st.scanners
            && (forall t :: HasRun(st, t) ==> HasRun(u, t))
            && (forall t :: HasRun(u, t) ==> HasRun(st, t) || t == fireAt)
  {
    var u := CreateRun(schedule, st, fireAt);
    if u.runs != st.runs {
      assert u.runs[|st.runs|].fireAt == fireAt;
      forall t | HasRun(st, t) ensures HasRun(u, t) {
        var i :| 0 <= i < |st.runs| && st.runs[i].fireAt == t;
        assert u.runs[i].fireAt == t;
      }
    } else {
      assert HasRun(st, fireAt);
      forall t | HasRun(st, t) ensures HasRun(u, t) {
        var i :| 0 <= i < |st.runs| && st.runs[i].fireAt == t;
        assert u.runs[i].fireAt == t;
      }
    }
  }

  lemma StepIsSafe(d: Definition, schedule: ScheduleId, st: State, step: Step)
    requires Sound(d) && Safe(d, schedule, st)
    ensures Safe(d, schedule, After(d, schedule, st, step))
    ensures After(d, schedule, st, step).row == st.row
         || (After(d, schedule, st, step).row.nextFireAt > st.row.nextFireAt
             && After(d, schedule, st, step).row.version == st.row.version + 1)
  {
    match step {
      case Scan(w, now, blocked) =>
        if st.row.nextFireAt <= now && PlanFor(Effective(d, blocked), st.row.nextFireAt, now).Ok? {
          PlanAdvances(Effective(d, blocked), st.row.nextFireAt, now);
        }
        SameRuns(schedule, st, After(d, schedule, st, step));
      case Fire(w) =>
        var s := ScannerAt(st, w);
        if s.Dispatching? && s.fired < |s.plan.fires| {
          CreateRunKeepsRuns(schedule, st, s.plan.fires[s.fired]);
          SameRuns(schedule, CreateRun(schedule, st, s.plan.fires[s.fired]), After(d, schedule, st, step));
        }
      case Advance(w) => SameRuns(schedule, st, After(d, schedule, st, step));
      case Stop(w) => SameRuns(schedule, st, After(d, schedule, st, step));
      case FireByHand(fireAt) => CreateRunKeepsRuns(schedule, st, fireAt);
      case ForgetReceipt(fireAt) => SameRuns(schedule, st, After(d, schedule, st, step));
    }
  }

  lemma SameRuns(schedule: ScheduleId, st: State, u: State)
    requires RunsFit(schedule, st) && u.runs == st.runs && u.receipts <= st.receipts
    ensures RunsFit(schedule, u)
    ensures forall t :: HasRun(st, t) <==> HasRun(u, t)
  {
  }

  /** Whatever the policy, the interleaving and the crashes: one run per occurrence, each with an id of its own. */
  lemma {:induction false} OneRunPerOccurrence(d: Definition, schedule: ScheduleId, start: int, steps: seq<Step>)
    requires Sound(d)
    ensures var st := History(d, schedule, Created(start), steps);
            && Safe(d, schedule, st)
            && forall i, j :: 0 <= i < j < |st.runs| ==> st.runs[i].fireAt != st.runs[j].fireAt && st.runs[i].runId != st.runs[j].runId
    decreases |steps|
  {
    var st := History(d, schedule, Created(start), steps);
    if steps != [] {
      OneRunPerOccurrence(d, schedule, start, steps[..|steps| - 1]);
      StepIsSafe(d, schedule, History(d, schedule, Created(start), steps[..|steps| - 1]), steps[|steps| - 1]);
    }
    forall i, j | 0 <= i < j < |st.runs| ensures st.runs[i].runId != st.runs[j].runId {
      if st.runs[i].runId == st.runs[j].runId {
        ScheduledRunIdDetermines(schedule, st.runs[i].fireAt, schedule, st.runs[j].fireAt);
      }
    }
  }

  /** The cursor never stands still across an advance and never moves back. */
  lemma {:induction false} CursorOnlyAdvances(d: Definition, schedule: ScheduleId, start: int, steps: seq<Step>, n: nat)
    requires Sound(d) && n <= |steps|
    ensures var earlier, later := History(d, schedule, Created(start), steps[..n]).row, History(d, schedule, Created(start), steps).row;
            && earlier.version <= later.version && earlier.nextFireAt + (later.version - earlier.version) <= later.nextFireAt
    decreases |steps|
  {
    if n == |steps| {
      assert steps[..n] == steps;
    } else {
      var init := steps[..|steps| - 1];
      assert init[..n] == steps[..n];
      CursorOnlyAdvances(d, schedule, start, init, n);
      OneRunPerOccurrence(d, schedule, start, init);
      StepIsSafe(d, schedule, History(d, schedule, Created(start), init), steps[|steps| - 1]);
    }
  }

  // ---------------------------------------------------------------- what scanners fire under every policy

  /** An instant that the schedule can mean: its first fire time, or the next fire time after some instant. */
  ghost predicate Occurrence(d: Definition, start: int, t: int) {
    t == start || (d.cron.Some? && exists u :: d.cron.value.next(u) == Some(t))
  }

  ghost predicate PlansOccurrences(d: Definition, start: int, plan: DispatchPlan) {
    Occurrence(d, start, plan.nextFireAt) && forall i :: 0 <= i < |plan.fires| ==> Occurrence(d, start, plan.fires[i])
  }

  lemma {:induction false} CatchUpFiresOccurrences(d: Definition, start: int, cursor: int, now: int, limit: nat)
    requires d.cron.Some? && Occurrence(d, start, cursor) && CatchUpFrom(d.cron.value, cursor, now, limit).Ok?
    ensures PlansOccurrences(d, start, CatchUpFrom(d.cron.value, cursor, now, limit).value)
    decreases limit
  {
    if cursor <= now && limit > 0 {
      CatchUpFiresOccurrences(d, start, d.cron.value.next(cursor).value, now, limit - 1);
    }
  }

  lemma PlanFiresOccurrences(d: Definition, start: int, blocked: bool, next: int, now: int)
    requires Occurrence(d, start, next) && PlanFor(Effective(d, blocked), next, now).Ok?
    ensures PlansOccurrences(d, start, PlanFor(Effective(d, blocked), next, now).value)
  {
    var e := Effective(d, blocked);
    if next <= now && e.misfirePolicy.CatchUp? && e.cron.value.includes(next) {
      CatchUpFiresOccurrences(d, start, next, now, Limit(e));
    }
  }

  /** The cursor, every plan in progress and every run are occurrences. */
  ghost predicate Meant(d: Definition, start: int, st: State) {
    && Occurrence(d, start, st.row.nextFireAt)
    && (forall w :: w in st.scanners && st.scanners[w].Dispatching? ==> PlansOccurrences(d, start, st.scanners[w].plan))
    && forall i :: 0 <= i < |st.runs| ==> Occurrence(d, start, st.runs[i].fireAt)
  }

  lemma StepIsMeant(d: Definition, schedule: ScheduleId, start: int, st: State, step: Step)
    requires Meant(d, start, st) && !step.FireByHand?
    ensures Meant(d, start, After(d, schedule, st, step))
  {
    match step {
      case Scan(w, now, blocked) =>
        if st.row.nextFireAt <= now && PlanFor(Effective(d, blocked), st.row.nextFireAt, now).Ok? {
          PlanFiresOccurrences(d, start, blocked, st.row.nextFireAt, now);
        }
      case _ =>
    }
  }

  /** Under every policy, scanners fire nothing but occurrences of the schedule. */
  lemma {:induction false} OnlyOccurrencesFire(d: Definition, schedule: ScheduleId, start: int, steps: seq<Step>)
    requires ByScanners(steps)
    ensures Meant(d, start, History(d, schedule, Created(start), steps))
    decreases |steps|
  {
    if steps != [] {
      var init := steps[..|steps| - 1];
      OnlyOccurrencesFire(d, schedule, start, init);
      StepIsMeant(d, schedule, start, History(d, schedule, Created(start), init), steps[|steps| - 1]);
    }
  }

  // ---------------------------------------------------------------- nothing is lost while catching up

  /** Allow and CatchUp, with every occurrence of the chain matching the expression. */
  ghost predicate CatchesUp(d: Definition, start: int) {
    && d.cron.Some? && Advancing(d.cron.value) && d.misfirePolicy.CatchUp? && d.concurrencyPolicy.Allow?
    && forall n: nat :: Chain(d.cron.value, start, n).Some? ==> d.cron.value.includes(Chain(d.cron.value, start, n).value)
  }

  /** The first `n` occurrences have runs, and the cursor is the next one. */
  ghost predicate CaughtUp(cron: Cron, start: int, st: State, n: nat) {
    && Chain(cron, start, n) == Some(st.row.nextFireAt)
    && forall i :: 0 <= i < n ==> Chain(cron, start, i).Some? && HasRun(st, Chain(cron, start, i).value)
  }

  /** A scanner's plan is a stretch of the chain that starts where it read the cursor. */
  ghost predicate OnChain(cron: Cron, start: int, s: Scanner) {
    s.Dispatching? ==> exists m: nat :: Stretch(cron, start, s, m)
  }

  ghost predicate Stretch(cron: Cron, start: int, s: Scanner, m: nat)
    requires s.Dispatching?
  {
    && Chain(cron, start, m) == Some(s.seen.nextFireAt)
    && Chain(cron, start, m + |s.plan.fires|) == Some(s.plan.nextFireAt)
    && forall i :: 0 <= i < |s.plan.fires| ==> Chain(cron, start, m + i) == Some(s.plan.fires[i])
  }

  ghost predicate Complete(cron: Cron, start: int, st: State) {
    && (exists n: nat :: CaughtUp(cron, start, st, n))
    && forall w :: w in st.scanners ==> OnChain(cron, start, st.scanners[w])
  }

  lemma PlanIsStretch(d: Definition, start: int, row: Row, m: nat, now: int)
    requires CatchesUp(d, start) && Chain(d.cron.value, start, m) == Some(row.nextFireAt) && row.nextFireAt <= now
    requires PlanFor(d, row.nextFireAt, now).Ok?
    ensures Stretch(d.cron.value, start, Dispatching(row, PlanFor(d, row.nextFireAt, now).value, 0), m)
  {
    var cron, plan := d.cron.value, PlanFor(d, row.nextFireAt, now).value;
    assert cron.includes(Chain(cron, start, m).value);
    CatchUpFollowsChain(cron, row.nextFireAt, now, Limit(d));
    ChainFrom(cron, start, m, |plan.fires|);
    forall i | 0 <= i < |plan.fires| ensures Chain(cron, start, m + i) == Some(plan.fires[i]) {
      ChainPrefix(cron, row.nextFireAt, i, |plan.fires|);
      ChainFrom(cron, start, m, i);
    }
  }

  lemma ChainIsInjective(cron: Cron, start: int, m: nat, n: nat)
    requires Advancing(cron) && Chain(cron, start, m).Some? && Chain(cron, start, m) == Chain(cron, start, n)
    ensures m == n
  {
    if m < n {
      ChainAscends(cron, start, m, n);
    } else if n < m {
      ChainAscends(cron, start, n, m);
    }
  }

  lemma AdvanceKeepsUp(cron: Cron, start: int, st: State, s: Scanner, n: nat, u: State)
    requires Advancing(cron) && CaughtUp(cron, start, st, n)
    requires s.Dispatching? && OnChain(cron, start, s) && s.seen == st.row
    requires forall i :: 0 <= i < |s.plan.fires| ==> HasRun(st, s.plan.fires[i])
    requires u.runs == st.runs && u.row.nextFireAt == s.plan.nextFireAt
    ensures CaughtUp(cron, start, u, n + |s.plan.fires|)
  {
    var m: nat :| Stretch(cron, start, s, m);
    ChainIsInjective(cron, start, m, n);
    StretchKeepsUp(cron, start, st, s, n, u);
  }

  lemma StretchKeepsUp(cron: Cron, start: int, st: State, s: Scanner, n: nat, u: State)
    requires CaughtUp(cron, start, st, n) && s.Dispatching? && Stretch(cron, start, s, n)
    requires forall i :: 0 <= i < |s.plan.fires| ==> HasRun(st, s.plan.fires[i])
    requires u.runs == st.runs && u.row.nextFireAt == s.plan.nextFireAt
    ensures CaughtUp(cron, start, u, n + |s.plan.fires|)
  {
    forall i | 0 <= i < n + |s.plan.fires| ensures Chain(cron, start, i).Some? && HasRun(u, Chain(cron, start, i).value) {
      if i < n {
        assert HasRun(st, Chain(cron, start, i).value);
      } else {
        assert Chain(cron, start, n + (i - n)) == Some(s.plan.fires[i - n]);
        assert HasRun(st, s.plan.fires[i - n]);
      }
    }
  }

  lemma MoreRunsKeepUp(cron: Cron, start: int, st: State, u: State, n: nat)
    requires CaughtUp(cron, start, st, n) && u.row == st.row && forall t :: HasRun(st, t) ==> HasRun(u, t)
    ensures CaughtUp(cron, start, u, n)
  {
  }

  /** Every step but an effective advance leaves the cursor alone and takes away no run. */
  lemma StepKeepsRuns(d: Definition, schedule: ScheduleId, st: State, step: Step)
    requires Safe(d, schedule, st)
    ensures var u := After(d, schedule, st, step);
            && (forall t :: HasRun(st, t) ==> HasRun(u, t))
            && (u.row != st.row ==> step.Advance?)
  {
    var u := After(d, schedule, st, step);
    match step {
      case Fire(w) =>
        var s := ScannerAt(st, w);
        if s.Dispatching? && s.fired < |s.plan.fires| {
          CreateRunKeepsRuns(schedule, st, s.plan.fires[s.fired]);
          SameRuns(schedule, CreateRun(schedule, st, s.plan.fires[s.fired]), u);
        }
      case FireByHand(fireAt) => CreateRunKeepsRuns(schedule, st, fireAt);
      case _ => SameRuns(schedule, st, u);
    }
  }

  /** Only a finished scanner whose snapshot is still current moves the cursor, and it takes its plan's. */
  lemma CursorMovesByPlan(d: Definition, schedule: ScheduleId, st: State, step: Step)
    requires Safe(d, schedule, st) && After(d, schedule, st, step).row != st.row
    ensures step.Advance?
    ensures var s, u := ScannerAt(st, step.scanner), After(d, schedule, st, step);
            && s.Dispatching? && s.seen == st.row && u.runs == st.runs && u.row.nextFireAt == s.plan.nextFireAt
            && forall i :: 0 <= i < |s.plan.fires| ==> HasRun(st, s.plan.fires[i])
  {
    StepKeepsRuns(d, schedule, st, step);
    var s := ScannerAt(st, step.scanner);
    assert s.Dispatching? ==> ScannerFits(d, st, s);
  }

  lemma StepKeepsUp(d: Definition, schedule: ScheduleId, start: int, st: State, step: Step) returns (n: nat)
    requires CatchesUp(d, start) && Safe(d, schedule, st) && Complete(d.cron.value, start, st)
    ensures CaughtUp(d.cron.value, start, After(d, schedule, st, step), n)
  {
    n :| CaughtUp(d.cron.value, start, st, n);
    var u := After(d, schedule, st, step);
    if u.row == st.row {
      StepKeepsRuns(d, schedule, st, step);
      MoreRunsKeepUp(d.cron.value, start, st, u, n);
    } else {
      CursorMovesByPlan(d, schedule, st, step);
      var s := ScannerAt(st, step.scanner);
      assert OnChain(d.cron.value, start, s);
      AdvanceKeepsUp(d.cron.value, start, st, s, n, u);
      n := n + |s.plan.fires|;
    }
  }

  lemma StepKeepsChains(d: Definition, schedule: ScheduleId, start: int, st: State, step: Step, w: nat)
    requires CatchesUp(d, start) && Complete(d.cron.value, start, st)
    ensures OnChain(d.cron.value, start, ScannerAt(After(d, schedule, st, step), w))
  {
    var cron := d.cron.value;
    var now := ScannerAt(After(d, schedule, st, step), w);
    if step.Scan? && step.scanner == w && now.Dispatching? && now != ScannerAt(st, w) {
      var n: nat :| CaughtUp(cron, start, st, n);
      PlanIsStretch(d, start, st.row, n, step.now);
      assert Stretch(cron, start, now, n);
    } else if step.Fire? && step.scanner == w && now.Dispatching? {
      var s := ScannerAt(st, w);
      var m: nat :| Stretch(cron, start, s, m);
      assert Stretch(cron, start, now, m);
    }
  }

  lemma StepIsComplete(d: Definition, schedule: ScheduleId, start: int, st: State, step: Step)
    requires CatchesUp(d, start) && Safe(d, schedule, st) && Complete(d.cron.value, start, st)
    ensures Complete(d.cron.value, start, After(d, schedule, st, step))
  {
    var n := StepKeepsUp(d, schedule, start, st, step);
    var u := After(d, schedule, st, step);
    forall w | w in u.scanners ensures OnChain(d.cron.value, start, u.scanners[w]) {
      StepKeepsChains(d, schedule, start, st, step, w);
    }
  }

  lemma {:induction false} EveryHistoryIsComplete(d: Definition, schedule: ScheduleId, start: int, steps: seq<Step>)
    requires CatchesUp(d, start)
    ensures Complete(d.cron.value, start, History(d, schedule, Created(start), steps))
    decreases |steps|
  {
    if steps == [] {
      assert CaughtUp(d.cron.value, start, Created(start), 0);
    } else {
      var init := steps[..|steps| - 1];
      EveryHistoryIsComplete(d, schedule, start, init);
      OneRunPerOccurrence(d, schedule, start, init);
      StepIsComplete(d, schedule, start, History(d, schedule, Created(start), init), steps[|steps| - 1]);
    }
  }

  /** Under Allow and CatchUp, every occurrence before the stored cursor has exactly one run, whatever the
      interleaving of scanners and wherever they crash. */
  lemma NothingIsLost(d: Definition, schedule: ScheduleId, start: int, steps: seq<Step>, i: nat)
    requires CatchesUp(d, start) && Chain(d.cron.value, start, i).Some?
    requires Chain(d.cron.value, start, i).value < History(d, schedule, Created(start), steps).row.nextFireAt
    ensures var st := History(d, schedule, Created(start), steps);
            exists r :: 0 <= r < |st.runs| && st.runs[r].fireAt == Chain(d.cron.value, start, i).value
                        && forall q :: 0 <= q < |st.runs| && st.runs[q].fireAt == st.runs[r].fireAt ==> q == r
  {
    var cron, st := d.cron.value, History(d, schedule, Created(start), steps);
    EveryHistoryIsComplete(d, schedule, start, steps);
    OneRunPerOccurrence(d, schedule, start, steps);
    var n: nat :| CaughtUp(cron, start, st, n);
    if n <= i {
      ChainAscends(cron, start, n, i);
    }
    assert HasRun(st, Chain(cron, start, i).value);
  }

  ghost predicate ByScanners(steps: seq<Step>) {
    forall i :: 0 <= i < |steps| ==> !steps[i].FireByHand?
  }

  ghost predicate InChain(cron: Cron, start: int, t: int) {
    exists n: nat :: Chain(cron, start, n) == Some(t)
  }

  lemma NewRunWasPlanned(d: Definition, schedule: ScheduleId, st: State, step: Step, t: int)
    requires RunsFit(schedule, st) && !step.FireByHand?
    requires HasRun(After(d, schedule, st, step), t) && !HasRun(st, t)
    ensures step.Fire?
    ensures var s := ScannerAt(st, step.scanner); s.Dispatching? && s.fired < |s.plan.fires| && s.plan.fires[s.fired] == t
  {
    var u := After(d, schedule, st, step);
    if step.Fire? {
      var s := ScannerAt(st, step.scanner);
      if s.Dispatching? && s.fired < |s.plan.fires| {
        CreateRunKeepsRuns(schedule, st, s.plan.fires[s.fired]);
        SameRuns(schedule, CreateRun(schedule, st, s.plan.fires[s.fired]), u);
      }
    } else {
      SameRuns(schedule, st, u);
    }
  }

  lemma PlannedFireIsInChain(cron: Cron, start: int, s: Scanner, i: nat)
    requires s.Dispatching? && OnChain(cron, start, s) && i < |s.plan.fires|
    ensures InChain(cron, start, s.plan.fires[i])
  {
    var m: nat :| Stretch(cron, start, s, m);
    assert Chain(cron, start, m + i) == Some(s.plan.fires[i]);
  }

  /** While catching up, scanners fire nothing but the chain from the first fire time. */
  lemma {:induction false} OnlyTheChainFires(d: Definition, schedule: ScheduleId, start: int, steps: seq<Step>, t: int)
    requires CatchesUp(d, start) && ByScanners(steps)
    requires HasRun(History(d, schedule, Created(start), steps), t)
    ensures InChain(d.cron.value, start, t)
    decreases |steps|
  {
    if steps != [] {
      var init := steps[..|steps| - 1];
      var st := History(d, schedule, Created(start), init);
      if HasRun(st, t) {
        OnlyTheChainFires(d, schedule, start, init, t);
      } else {
        OneRunPerOccurrence(d, schedule, start, init);
        EveryHistoryIsComplete(d, schedule, start, init);
        var step := steps[|steps| - 1];
        NewRunWasPlanned(d, schedule, st, step, t);
        PlannedFireIsInChain(d.cron.value, start, ScannerAt(st, step.scanner), ScannerAt(st, step.scanner).fired);
      }
    }
  }

  /** A scan of a forbidding schedule that has an active run plans no run at all. */
  lemma BlockedScanFiresNothing(d: Definition, schedule: ScheduleId, st: State, w: nat, now: int)
    requires d.concurrencyPolicy.Forbid? && st.row.nextFireAt <= now
    ensures var s := ScannerAt(After(d, schedule, st, Scan(w, now, true)), w);
            s.Dispatching? ==> s.plan.fires == [] && (Sound(d) ==> s.plan.nextFireAt > now)
  {
  }

  /** Without the hypothesis that occurrences match, an occurrence in a gap is passed over: it gets no run. */
  lemma GapIsLost(schedule: ScheduleId)
    ensures var d := Definition(Some(Cron(t => Some(t + 1), t => t != 1)), CatchUp, Allow, 1);
            var st := History(d, schedule, Created(1), [Scan(0, 2, false), Advance(0)]);
            st.row.nextFireAt == 3 && !HasRun(st, 1) && !HasRun(st, 2)
  {
    var d := Definition(Some(Cron(t => Some(t + 1), t => t != 1)), CatchUp, Allow, 1);
    var steps := [Scan(0, 2, false), Advance(0)];
    assert PlanFor(d, 1, 2) == Ok(DispatchPlan([], 3));
    assert steps[..1] == [Scan(0, 2, false)] && steps[..1][..0] == [];
    var one := History(d, schedule, Created(1), steps[..1]);
    assert one == After(d, schedule, History(d, schedule, Created(1), []), Scan(0, 2, false));
    assert History(d, schedule, Created(1), steps) == After(d, schedule, one, Advance(0));
  }
}
