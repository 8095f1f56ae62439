/** Whole histories of a run's tasks: claims, ends, retries, expired leases, plan revisions, pauses, resumptions and
    cancellation (crates/store-postgres/src/transaction_executor.rs). */
module TaskHistory {
  import opened Prelude
  import opened Graph
  import opened Identity
  import opened PlanMaterialization
  import opened TaskActivation
  import P = ExecutionPlans

  /** The plans accepted so far and the task table. */
  datatype RunState = RunState(plans: seq<Revision>, tasks: Table)

  datatype Step =
    | Claim(task: Id)
    | Finish(task: Id, status: TaskStatus, result: Option<map<string, string>>)
    | Retry(task: Id)
    | DeadLetter(task: Id)
    | Revise(revision: Revision, prerequisites: seq<Id>)
    | Pause
    | Resume(due: set<Id>)
    | Cancel

  /** How the store reads a persisted condition; it refuses to persist one on a status that is not an end. */
  type Reader = r: P.JsonPayload -> Condition | forall j :: ConditionFine(r(j)) witness _ => OnSuccess

  // ---------------------------------------------------------------- rows of new tasks

  function DependencyMap(read: Reader, dependencies: seq<InitialDependency>): (m: map<Id, Condition>)
    ensures forall p :: p in m ==> ConditionFine(m[p])
  {
    if dependencies == [] then map[]
    else
      var n := |dependencies| - 1;
      DependencyMap(read, dependencies[..n])[dependencies[n].prerequisite := read(dependencies[n].condition)]
  }

  function NewRow(read: Reader, record: InitialTask): TaskRow {
    TaskRow(if record.dependencies == [] then Queued else Scheduled, record.joinPolicy, DependencyMap(read, record.dependencies), None)
  }

  function RowsOf(read: Reader, records: seq<InitialTask>): Table {
    if records == [] then map[]
    else
      var n := |records| - 1;
      RowsOf(read, records[..n])[records[n].taskId := NewRow(read, records[n])]
  }

  lemma {:induction false} DependencyKeys(read: Reader, dependencies: seq<InitialDependency>)
    ensures DependencyMap(read, dependencies).Keys == set d | d in dependencies :: d.prerequisite
    ensures DependencyMap(read, dependencies) == map[] <==> dependencies == []
  {
    if dependencies != [] {
      var n := |dependencies| - 1;
      DependencyKeys(read, dependencies[..n]);
      assert dependencies == dependencies[..n] + [dependencies[n]];
      assert dependencies[n].prerequisite in DependencyMap(read, dependencies);
      forall p ensures p in DependencyMap(read, dependencies).Keys <==> p in set d | d in dependencies :: d.prerequisite {
      }
    }
  }

  lemma {:induction false} RowsOfRecords(read: Reader, records: seq<InitialTask>)
    requires forall i, j :: 0 <= i < j < |records| ==> records[i].taskId != records[j].taskId
    ensures RowsOf(read, records).Keys == TaskIds(records)
    ensures forall r :: r in records ==> RowsOf(read, records)[r.taskId] == NewRow(read, r)
  {
    if records != [] {
      var n := |records| - 1;
      RowsOfRecords(read, records[..n]);
      assert records == records[..n] + [records[n]];
    }
  }

  /** Rows as they are inserted: queued if they wait for nothing, with readable conditions. */
  ghost predicate Inserted(t: Table) {
    && (forall x :: x in t ==> t[x].status == if t[x].dependencies == map[] then Queued else Scheduled)
    && forall x, p :: x in t && p in t[x].dependencies ==> ConditionFine(t[x].dependencies[p])
  }

  lemma {:induction false} RowsAreInserted(read: Reader, records: seq<InitialTask>)
    ensures Inserted(RowsOf(read, records))
  {
    if records != [] {
      RowsAreInserted(read, records[..|records| - 1]);
      DependencyKeys(read, records[|records| - 1].dependencies);
    }
  }

  // ---------------------------------------------------------------- one step

  ghost predicate Restatus(t: Table, x: Id, from: set<TaskStatus>, status: TaskStatus, u: Table) {
    x in t && t[x].status in from && u == t[x := t[x].(status := status)]
  }

  /** Leased tasks go back to be retried. */
  function Paused(t: Table): Table {
    map x | x in t :: if t[x].status == Leased then t[x].(status := RetryScheduled) else t[x]
  }

  /** Every scheduled task that has become available is queued, whatever it waits for. */
  function Resumed(t: Table, due: set<Id>): Table {
    map x | x in t :: if t[x].status == Scheduled && x in due then t[x].(status := Queued) else t[x]
  }

  function Cancelling(t: Table): Table {
    map x | x in t :: if Terminal(t[x].status) then t[x] else t[x].(status := Cancelled)
  }

  ghost function Added(read: Reader, run: RunId, runInput: string, plans: seq<Revision>, revision: Revision): seq<InitialTask>
    requires plans != []
  {
    Additions(plans[|plans| - 1].plan, MaterializeTasks(revision.plan.tasks, run, runInput, revision.availableAt))
  }

  /** A step that adds no tasks. */
  ghost predicate TableStepped(t: Table, step: Step, u: Table) {
    match step
    case Claim(x) => Restatus(t, x, {Queued, RetryScheduled}, Leased, u)
    case Finish(x, status, result) =>
      && x in t && t[x].status == Leased && status in {Succeeded, Failed, DeadLettered}
      && Settles(t[x := t[x].(status := status, result := result)], x, u)
    case Retry(x) => Restatus(t, x, {Leased}, RetryScheduled, u)
    case DeadLetter(x) => Restatus(t, x, {Leased}, DeadLettered, u)
    case Pause => u == Paused(t)
    case Resume(due) => u == Resumed(t, due)
    case Cancel => u == Cancelling(t)
    case Revise(_, _) => false
  }

  /** The records of a new revision, with the worklist run for each prerequisite they name. */
  ghost predicate Revised(
    read: Reader, run: RunId, runInput: string, s: RunState, revision: Revision, prerequisites: seq<Id>, s': RunState)
  {
    && s.plans != [] && AcceptedHistory(s.plans + [revision]) && s'.plans == s.plans + [revision]
    && var records := RowsOf(read, Added(read, run, runInput, s.plans, revision));
       && (forall x, p :: x in records && p in records[x].dependencies ==> p in prerequisites)
       && Passes(s.tasks + records, prerequisites, s'.tasks)
  }

  ghost predicate Stepped(read: Reader, run: RunId, runInput: string, s: RunState, step: Step, s': RunState) {
    if step.Revise? then Revised(read, run, runInput, s, step.revision, step.prerequisites, s')
    else s'.plans == s.plans && TableStepped(s.tasks, step, s'.tasks)
  }

  /** The table is fine and holds exactly the records of the accepted plans. */
  ghost predicate Sound(run: RunId, runInput: string, s: RunState) {
    && AcceptedHistory(s.plans) && Fine(s.tasks) && Holds(s.tasks, Ledger(s.plans, run, runInput))
  }

  // ---------------------------------------------------------------- what a step leaves alone

  /** The same tasks, waiting for the same things in the same way. */
  ghost predicate SameShape(t: Table, u: Table) {
    t.Keys == u.Keys && forall x :: x in t ==> u[x].dependencies == t[x].dependencies && u[x].join == t[x].join
  }

  lemma SameShapeIsSound(run: RunId, runInput: string, s: RunState, s': RunState)
    requires Sound(run, runInput, s) && s'.plans == s.plans && SameShape(s.tasks, s'.tasks)
    ensures Sound(run, runInput, s')
  {
  }

  lemma {:induction false} PassesKeepShape(before: Table, prerequisites: seq<Id>, t: Table)
    requires Fine(before) && Passes(before, prerequisites, t)
    ensures Fine(t) && Extends(before, t)
    decreases |prerequisites|
  {
    if prerequisites != [] {
      var n := |prerequisites| - 1;
      assert prerequisites[..n + 1] == prerequisites;
      var u, order, activated := LastPass(before, prerequisites, n, t);
      PassesKeepShape(before, prerequisites[..n], u);
      DerivationIsJustified(u, order);
      ExtendsFurther(before, u, t);
    }
  }

  lemma SettlesExtends(before: Table, ended: Id, t: Table)
    requires Settles(before, ended, t)
    ensures Fine(before) && Fine(t) && Extends(before, t) && SameShape(before, t)
  {
    var order, activated :| Progress(before, order, t, activated) && Resolved(before, ended, t);
    DerivationIsJustified(before, order);
  }

  /** The additions of a revision are new ids, and the longer ledger is closed. */
  lemma AdditionsAreNew(read: Reader, run: RunId, runInput: string, plans: seq<Revision>, revision: Revision)
    requires plans != [] && AcceptedHistory(plans + [revision])
    ensures var ledger, added := Ledger(plans, run, runInput), Added(read, run, runInput, plans, revision);
            && Ledger(plans + [revision], run, runInput) == ledger + added
            && UniqueIds(added) && TaskIds(ledger) !! TaskIds(added) && Closed(IdGraph(ledger + added))
  {
    var longer := plans + [revision];
    var ledger, added := Ledger(plans, run, runInput), Added(read, run, runInput, plans, revision);
    assert longer[..|longer| - 1] == plans;
    assert Ledger(longer, run, runInput) == ledger + added;
    LedgerIsSchedulable(longer, run, runInput);
    PartsAreUnique(ledger, added);
  }

  ghost predicate UniqueIds(records: seq<InitialTask>) {
    forall i, j :: 0 <= i < j < |records| ==> records[i].taskId != records[j].taskId
  }

  lemma PartsAreUnique(a: seq<InitialTask>, b: seq<InitialTask>)
    requires UniqueIds(a + b)
    ensures UniqueIds(b) && TaskIds(a) !! TaskIds(b)
  {
    var all := a + b;
    assert forall i :: 0 <= i < |a| ==> all[i] == a[i];
    assert forall j :: 0 <= j < |b| ==> all[|a| + j] == b[j];
    forall id | id in TaskIds(a) ensures id !in TaskIds(b) {
      var i :| 0 <= i < |a| && a[i].taskId == id;
      forall j | 0 <= j < |b| ensures b[j].taskId != id {
        assert all[i].taskId != all[|a| + j].taskId;
      }
    }
  }

  /** With the rows of new records the table holds the longer ledger. */
  lemma RowsHold(read: Reader, t: Table, ledger: seq<InitialTask>, added: seq<InitialTask>)
    requires Holds(t, ledger) && UniqueIds(added) && TaskIds(ledger) !! TaskIds(added)
    ensures Holds(t + RowsOf(read, added), ledger + added)
    ensures RowsOf(read, added).Keys !! t.Keys
  {
    RowsOfRecords(read, added);
    var u := t + RowsOf(read, added);
    assert TaskIds(ledger + added) == TaskIds(ledger) + TaskIds(added) by {
      assert forall r :: r in ledger + added <==> r in ledger || r in added;
    }
    forall r | r in added ensures r.taskId in u && u[r.taskId].dependencies.Keys == Prerequisites(r) {
      DependencyKeys(read, r.dependencies);
      assert r.taskId in TaskIds(added);
    }
    forall r | r in ledger ensures r.taskId in u && u[r.taskId].dependencies.Keys == Prerequisites(r) {
      assert r.taskId in TaskIds(ledger);
    }
  }

  /** So a revision's rows can be added to a sound run. */
  lemma RevisionFits(read: Reader, run: RunId, runInput: string, s: RunState, revision: Revision)
    requires Sound(run, runInput, s) && AcceptedHistory(s.plans + [revision])
    ensures var records := RowsOf(read, Added(read, run, runInput, s.plans, revision));
            && Addable(s.tasks, records)
            && Sound(run, runInput, RunState(s.plans + [revision], s.tasks + records))
  {
    var added := Added(read, run, runInput, s.plans, revision);
    AdditionsAreNew(read, run, runInput, s.plans, revision);
    RowsAreAddable(read, s.tasks, Ledger(s.plans, run, runInput), added);
  }

  lemma RowsAreAddable(read: Reader, t: Table, ledger: seq<InitialTask>, added: seq<InitialTask>)
    requires Fine(t) && Holds(t, ledger) && UniqueIds(added) && TaskIds(ledger) !! TaskIds(added)
    requires Closed(IdGraph(ledger + added))
    ensures Addable(t, RowsOf(read, added)) && Holds(t + RowsOf(read, added), ledger + added)
  {
    RowsHold(read, t, ledger, added);
    RowsAreInserted(read, added);
    HeldIsFine(t, RowsOf(read, added), ledger + added);
  }

  lemma HeldIsFine(t: Table, records: Table, ledger: seq<InitialTask>)
    requires Fine(t) && Holds(t + records, ledger) && Closed(IdGraph(ledger)) && Inserted(records)
    ensures Fine(t + records)
  {
    HeldGraph(t + records, ledger);
    var u := t + records;
    forall x, p | x in u && p in u[x].dependencies ensures p in u && ConditionFine(u[x].dependencies[p]) {
      assert Edge(WaitsFor(u), x, p);
      if x !in records {
        assert u[x] == t[x];
      }
    }
  }

  lemma TableStepShape(t: Table, step: Step, u: Table)
    requires Fine(t) && TableStepped(t, step, u)
    ensures Fine(u) && SameShape(t, u)
  {
    if step.Finish? {
      SettlesExtends(t[step.task := t[step.task].(status := step.status, result := step.result)], step.task, u);
    }
  }

  lemma PassesAreSound(run: RunId, runInput: string, grown: RunState, prerequisites: seq<Id>, s': RunState)
    requires Sound(run, runInput, grown) && s'.plans == grown.plans && Passes(grown.tasks, prerequisites, s'.tasks)
    ensures Sound(run, runInput, s')
  {
    PassesKeepShape(grown.tasks, prerequisites, s'.tasks);
    SameShapeIsSound(run, runInput, grown, s');
  }

  lemma RevisionIsSound(
    read: Reader, run: RunId, runInput: string, s: RunState, revision: Revision, prerequisites: seq<Id>, s': RunState)
    requires Sound(run, runInput, s) && Revised(read, run, runInput, s, revision, prerequisites, s')
    ensures Sound(run, runInput, s')
  {
    var grown := RunState(s'.plans, s.tasks + RowsOf(read, Added(read, run, runInput, s.plans, revision)));
    RevisionFits(read, run, runInput, s, revision);
    PassesAreSound(run, runInput, grown, prerequisites, s');
  }

  lemma StepIsSound(read: Reader, run: RunId, runInput: string, s: RunState, step: Step, s': RunState)
    requires Sound(run, runInput, s) && Stepped(read, run, runInput, s, step, s')
    ensures Sound(run, runInput, s')
  {
    if step.Revise? {
      RevisionIsSound(read, run, runInput, s, step.revision, step.prerequisites, s');
    } else {
      TableStepShape(s.tasks, step, s'.tasks);
      SameShapeIsSound(run, runInput, s, s');
    }
  }

  // ---------------------------------------------------------------- settled runs stay settled

  /** Some waiting tasks became something else that has not ended, and nothing else changed its fate. */
  lemma UnendedChangesAreHarmless(t: Table, u: Table)
    requires Fine(t) && Fine(u) && SameShape(t, u) && Stable(t)
    requires forall x :: x in t ==> Terminal(u[x].status) == Terminal(t[x].status) && (Waiting(u, x) ==> Waiting(t, x))
    requires forall x :: x in t && Terminal(t[x].status) ==> u[x] == t[x]
    ensures Stable(u)
  {
    forall x ensures !Overdue(u, x) {
      if Waiting(u, x) {
        forall p | p in t[x].dependencies
          ensures Satisfied(u[p], u[x].dependencies[p]) == Satisfied(t[p], t[x].dependencies[p])
        {
          assert ConditionFine(t[x].dependencies[p]);
        }
        assert Decision(u, x) == Decision(t, x);
        assert !Overdue(t, x);
      }
    }
  }

  lemma FinishKeepsStable(t: Table, x: Id, status: TaskStatus, result: Option<map<string, string>>, u: Table)
    requires Fine(t) && Stable(t) && x in t && t[x].status == Leased && Terminal(status)
    requires Settles(t[x := t[x].(status := status, result := result)], x, u)
    ensures Fine(u) && Stable(u)
  {
    var ended := t[x := t[x].(status := status, result := result)];
    SettlesExtends(ended, x, u);
    forall y | Overdue(u, y) ensures false {
      assert Excused(ended, x, y);
      EndingAffectsDependents(t, ended, x, y);
    }
  }

  lemma CancelSettles(t: Table)
    requires Fine(t)
    ensures Fine(Cancelling(t)) && Stable(Cancelling(t))
  {
  }

  lemma TableStepStability(t: Table, step: Step, u: Table)
    requires Fine(t) && Stable(t) && TableStepped(t, step, u)
    ensures Fine(u)
    ensures Stable(u) <==> (step.DeadLetter? ==> DeadLetterIsHarmless(t, step.task))
  {
    TableStepShape(t, step, u);
    match step {
      case Finish(x, status, result) => FinishKeepsStable(t, x, status, result, u);
      case DeadLetter(x) => DeadLetterStability(t, u, x);
      case Cancel => CancelSettles(t);
      case _ => UnendedChangesAreHarmless(t, u);
    }
  }

  lemma RevisionKeepsStable(
    read: Reader, run: RunId, runInput: string, s: RunState, revision: Revision, prerequisites: seq<Id>, s': RunState)
    requires Sound(run, runInput, s) && Stable(s.tasks) && Revised(read, run, runInput, s, revision, prerequisites, s')
    ensures Fine(s'.tasks) && Stable(s'.tasks)
  {
    var records := RowsOf(read, Added(read, run, runInput, s.plans, revision));
    RevisionFits(read, run, runInput, s, revision);
    assert prerequisites[..|prerequisites|] == prerequisites;
    PassesGrow(s.tasks, records, prerequisites, |prerequisites|, s'.tasks);
    AllPrerequisitesResolved(s.tasks, records, prerequisites, s'.tasks);
  }

  /** One step leaves a settled run settled, unless it dead-letters a task whose end somebody needed to hear of. */
  lemma StepStability(read: Reader, run: RunId, runInput: string, s: RunState, step: Step, s': RunState)
    requires Sound(run, runInput, s) && Stable(s.tasks) && Stepped(read, run, runInput, s, step, s')
    ensures Fine(s'.tasks)
    ensures Stable(s'.tasks) <==> (step.DeadLetter? ==> DeadLetterIsHarmless(s.tasks, step.task))
  {
    if step.Revise? {
      RevisionKeepsStable(read, run, runInput, s, step.revision, step.prerequisites, s');
    } else {
      TableStepStability(s.tasks, step, s'.tasks);
    }
  }

  // ---------------------------------------------------------------- whole histories

  /** A run just created from a plan. */
  function Begun(read: Reader, run: RunId, runInput: string, plan: Revision): RunState {
    RunState([plan], RowsOf(read, MaterializeTasks(plan.plan.tasks, run, runInput, plan.availableAt)))
  }

  ghost predicate History(read: Reader, run: RunId, runInput: string, states: seq<RunState>, steps: seq<Step>) {
    && |states| == |steps| + 1
    && |states[0].plans| == 1 && AcceptedHistory(states[0].plans)
    && states[0] == Begun(read, run, runInput, states[0].plans[0])
    && forall i :: 0 <= i < |steps| ==> Stepped(read, run, runInput, states[i], steps[i], states[i + 1])
  }

  lemma NothingEndedIsStable(t: Table)
    requires Fine(t) && forall x :: x in t ==> !Terminal(t[x].status)
    ensures Stable(t)
  {
    forall x ensures !Overdue(t, x) {
      if Waiting(t, x) {
        var p :| p in t[x].dependencies;
        assert p in t && !Terminal(t[p].status);
        forall q | q in t[x].dependencies ensures !Satisfied(t[q], t[x].dependencies[q]) {
          assert ConditionFine(t[x].dependencies[q]);
        }
      }
    }
  }

  /** A fresh run is sound and settled. */
  lemma FreshRunIsSettled(read: Reader, run: RunId, runInput: string, plan: Revision)
    requires AcceptedHistory([plan])
    ensures Sound(run, runInput, Begun(read, run, runInput, plan)) && Stable(Begun(read, run, runInput, plan).tasks)
  {
    var s := Begun(read, run, runInput, plan);
    var ledger := Ledger([plan], run, runInput);
    LedgerIsSchedulable([plan], run, runInput);
    FreshRowsAreSound(read, ledger);
    RowsAreInserted(read, ledger);
    NothingEndedIsStable(s.tasks);
  }

  lemma FreshRowsAreSound(read: Reader, ledger: seq<InitialTask>)
    requires UniqueIds(ledger) && Closed(IdGraph(ledger))
    ensures Fine(RowsOf(read, ledger)) && Holds(RowsOf(read, ledger), ledger)
  {
    var none: seq<InitialTask> := [];
    var empty: Table := map[];
    assert none + ledger == ledger && empty + RowsOf(read, ledger) == RowsOf(read, ledger);
    RowsAreAddable(read, empty, none, ledger);
  }

  lemma {:induction false} HistoryIsSound(read: Reader, run: RunId, runInput: string, states: seq<RunState>, steps: seq<Step>, i: nat)
    requires History(read, run, runInput, states, steps) && i < |states|
    ensures Sound(run, runInput, states[i])
    decreases i
  {
    if i == 0 {
      assert states[0].plans == [states[0].plans[0]];
      FreshRunIsSettled(read, run, runInput, states[0].plans[0]);
    } else {
      HistoryIsSound(read, run, runInput, states, steps, i - 1);
      StepIsSound(read, run, runInput, states[i - 1], steps[i - 1], states[i]);
    }
  }

  ghost predicate Settled(s: RunState) {
    Fine(s.tasks) && Stable(s.tasks)
  }

  /** Step `i`, if it was a dead letter, was harmless when it was written. */
  ghost predicate HarmlessAt(states: seq<RunState>, steps: seq<Step>, i: nat)
    requires i < |steps| < |states|
  {
    steps[i].DeadLetter? ==> Fine(states[i].tasks) && DeadLetterIsHarmless(states[i].tasks, steps[i].task)
  }

  lemma SettledByOne(read: Reader, run: RunId, runInput: string, states: seq<RunState>, steps: seq<Step>, i: nat)
    requires History(read, run, runInput, states, steps) && i < |steps| && Settled(states[i])
    ensures Settled(states[i + 1]) <==> HarmlessAt(states, steps, i)
  {
    HistoryIsSound(read, run, runInput, states, steps, i);
    StepStability(read, run, runInput, states[i], steps[i], states[i + 1]);
  }

  lemma StartsSettled(read: Reader, run: RunId, runInput: string, states: seq<RunState>, steps: seq<Step>)
    requires History(read, run, runInput, states, steps)
    ensures Settled(states[0])
  {
    assert states[0].plans == [states[0].plans[0]];
    FreshRunIsSettled(read, run, runInput, states[0].plans[0]);
  }

  lemma {:induction false} SettledThroughout(states: seq<RunState>, steps: seq<Step>, n: nat)
    requires n <= |steps| < |states| && Settled(states[0])
    requires forall i :: 0 <= i < n && Settled(states[i]) ==> (Settled(states[i + 1]) <==> HarmlessAt(states, steps, i))
    ensures (forall i :: 0 <= i <= n ==> Settled(states[i])) <==> (forall i :: 0 <= i < n ==> HarmlessAt(states, steps, i))
  {
    if n > 0 {
      SettledThroughout(states, steps, n - 1);
      assert Settled(states[n - 1]) ==> (Settled(states[n]) <==> HarmlessAt(states, steps, n - 1));
    }
  }

  /** Over every history the run is settled after each of the first `n` steps exactly if every dead letter among them
      was harmless. */
  lemma SettledIffHarmless(
    read: Reader, run: RunId, runInput: string, states: seq<RunState>, steps: seq<Step>, n: nat)
    requires History(read, run, runInput, states, steps) && n <= |steps|
    ensures (forall i :: 0 <= i <= n ==> Settled(states[i])) <==> (forall i :: 0 <= i < n ==> HarmlessAt(states, steps, i))
  {
    StartsSettled(read, run, runInput, states, steps);
    forall i | 0 <= i < n && Settled(states[i]) ensures Settled(states[i + 1]) <==> HarmlessAt(states, steps, i) {
      SettledByOne(read, run, runInput, states, steps, i);
    }
    SettledThroughout(states, steps, n);
  }

  /** From the plan validator to the end of the run: after any history of claims, ends, retries, revisions, pauses,
      resumptions and harmless dead letters, a run with no work in flight has ended every task. */
  lemma AcceptedRunsNeverStall(read: Reader, run: RunId, runInput: string, states: seq<RunState>, steps: seq<Step>)
    requires History(read, run, runInput, states, steps)
    requires (forall i :: 0 <= i < |steps| ==> HarmlessAt(states, steps, i)) && Quiescent(states[|steps|].tasks)
    ensures forall x :: x in states[|steps|].tasks ==> Terminal(states[|steps|].tasks[x].status)
  {
    var last := states[|steps|];
    SettledIffHarmless(read, run, runInput, states, steps, |steps|);
    HistoryIsSound(read, run, runInput, states, steps, |steps|);
    SettledRunsNeverStall(last.plans, run, runInput, last.tasks);
  }

  // ---------------------------------------------------------------- no task starts too early

  predicate HasStarted(status: TaskStatus) {
    status in {Queued, Leased, RetryScheduled, Succeeded, Failed, DeadLettered}
  }

  /** Whatever was queued had what it waits for. */
  ghost predicate Gated(t: Table)
    requires Fine(t)
  {
    forall x :: x in t && t[x].dependencies != map[] && HasStarted(t[x].status) ==> Ready(t, x)
  }

  /** What a task got, it keeps. */
  lemma ReadyStays(t: Table, u: Table, x: Id)
    requires Fine(t) && Fine(u) && x in t && x in u && u[x].dependencies == t[x].dependencies && u[x].join == t[x].join
    requires forall p :: p in t && Terminal(t[p].status) ==> p in u && u[p] == t[p]
    requires Ready(t, x)
    ensures Ready(u, x)
  {
    forall p | p in t[x].dependencies && Satisfied(t[p], t[x].dependencies[p]) ensures Satisfied(u[p], u[x].dependencies[p]) {
      assert ConditionFine(t[x].dependencies[p]);
    }
  }

  /** A step that starts only ready tasks keeps the gate. */
  lemma GatePasses(t: Table, u: Table)
    requires Fine(t) && Fine(u) && Gated(t)
    requires forall p :: p in t && Terminal(t[p].status) ==> p in u && u[p] == t[p]
    requires forall x :: x in u && u[x].dependencies != map[] && HasStarted(u[x].status) ==>
               Ready(u, x) || (x in t && HasStarted(t[x].status) && u[x].dependencies == t[x].dependencies && u[x].join == t[x].join)
    ensures Gated(u)
  {
    forall x | x in u && u[x].dependencies != map[] && HasStarted(u[x].status) ensures Ready(u, x) {
      if !Ready(u, x) {
        ReadyStays(t, u, x);
      }
    }
  }

  lemma DecisionsKeepGate(before: Table, order: seq<Id>)
    requires Fine(before) && Derivation(before, order) && Gated(before)
    ensures Gated(Final(before, order))
  {
    var t := Final(before, order);
    DerivationIsJustified(before, order);
    forall x | x in t && t[x] != before[x] && HasStarted(t[x].status) ensures Ready(t, x) {
      assert Decision(t, x) == Some(t[x].status);
    }
    GatePasses(before, t);
  }

  lemma SettlesKeepsGate(before: Table, ended: Id, t: Table)
    requires Settles(before, ended, t) && Fine(before) && Gated(before)
    ensures Fine(t) && Gated(t)
  {
    var order, activated :| Progress(before, order, t, activated) && Resolved(before, ended, t);
    DecisionsKeepGate(before, order);
  }

  lemma {:induction false} PassesKeepGate(before: Table, prerequisites: seq<Id>, t: Table)
    requires Fine(before) && Passes(before, prerequisites, t) && Gated(before)
    ensures Fine(t) && Gated(t)
    decreases |prerequisites|
  {
    if prerequisites != [] {
      var n := |prerequisites| - 1;
      var u :| Passes(before, prerequisites[..n], u) && Settles(u, prerequisites[n], t);
      PassesKeepGate(before, prerequisites[..n], u);
      SettlesKeepsGate(u, prerequisites[n], t);
    }
  }

  /** Resuming queues only tasks that are ready. */
  ghost predicate ResumesInOrder(t: Table, due: set<Id>)
    requires Fine(t)
  {
    forall x :: Waiting(t, x) && x in due ==> Ready(t, x)
  }

  lemma ResumeChangesNoReadiness(t: Table, due: set<Id>, x: Id)
    requires Fine(t) && Fine(Resumed(t, due)) && x in t
    ensures Ready(Resumed(t, due), x) <==> Ready(t, x)
  {
    var u := Resumed(t, due);
    forall p | p in t[x].dependencies ensures Satisfied(u[p], t[x].dependencies[p]) == Satisfied(t[p], t[x].dependencies[p]) {
      assert p in t && ConditionFine(t[x].dependencies[p]);
      assert u[p] == t[p] || (t[p].status == Scheduled && u[p] == t[p].(status := Queued));
    }
    assert u[x].dependencies == t[x].dependencies;
  }

  lemma ResumeGate(t: Table, due: set<Id>)
    requires Fine(t) && Gated(t) && Fine(Resumed(t, due))
    ensures Gated(Resumed(t, due)) <==> ResumesInOrder(t, due)
  {
    var u := Resumed(t, due);
    forall x | x in t ensures Ready(u, x) <==> Ready(t, x) {
      ResumeChangesNoReadiness(t, due, x);
    }
    if Gated(u) {
      forall x | Waiting(t, x) && x in due ensures Ready(t, x) {
        assert u[x].status == Queued;
      }
    }
  }

  lemma InsertedRowsKeepGate(t: Table, records: Table)
    requires Addable(t, records) && Inserted(records) && Gated(t)
    ensures Gated(t + records)
  {
    GatePasses(t, t + records);
  }

  lemma RevisionKeepsGate(read: Reader, run: RunId, runInput: string, s: RunState, revision: Revision, prerequisites: seq<Id>, u: Table)
    requires Sound(run, runInput, s) && Gated(s.tasks) && AcceptedHistory(s.plans + [revision])
    requires Passes(s.tasks + RowsOf(read, Added(read, run, runInput, s.plans, revision)), prerequisites, u)
    ensures Fine(u) && Gated(u)
  {
    var added := Added(read, run, runInput, s.plans, revision);
    var records := RowsOf(read, added);
    RevisionFits(read, run, runInput, s, revision);
    RowsAreInserted(read, added);
    InsertedRowsKeepGate(s.tasks, records);
    PassesKeepGate(s.tasks + records, prerequisites, u);
  }

  lemma TableStepGate(t: Table, step: Step, u: Table)
    requires Fine(t) && Gated(t) && TableStepped(t, step, u)
    ensures Fine(u)
    ensures Gated(u) <==> (step.Resume? ==> ResumesInOrder(t, step.due))
  {
    TableStepShape(t, step, u);
    match step {
      case Finish(x, status, result) =>
        var ended := t[x := t[x].(status := status, result := result)];
        SettlesExtends(ended, x, u);
        GatePasses(t, ended);
        SettlesKeepsGate(ended, x, u);
      case Resume(due) => ResumeGate(t, due);
      case _ => GatePasses(t, u);
    }
  }

  lemma StepGate(read: Reader, run: RunId, runInput: string, s: RunState, step: Step, s': RunState)
    requires Sound(run, runInput, s) && Gated(s.tasks) && Stepped(read, run, runInput, s, step, s')
    ensures Fine(s'.tasks)
    ensures Gated(s'.tasks) <==> (step.Resume? ==> ResumesInOrder(s.tasks, step.due))
  {
    if step.Revise? {
      RevisionKeepsGate(read, run, runInput, s, step.revision, step.prerequisites, s'.tasks);
    } else {
      TableStepGate(s.tasks, step, s'.tasks);
    }
  }

  ghost predicate InOrder(s: RunState) {
    Fine(s.tasks) && Gated(s.tasks)
  }

  /** Step `i`, if it resumed the run, queued only ready tasks. */
  ghost predicate InOrderAt(states: seq<RunState>, steps: seq<Step>, i: nat)
    requires i < |steps| < |states|
  {
    steps[i].Resume? ==> Fine(states[i].tasks) && ResumesInOrder(states[i].tasks, steps[i].due)
  }

  lemma InOrderByOne(read: Reader, run: RunId, runInput: string, states: seq<RunState>, steps: seq<Step>, i: nat)
    requires History(read, run, runInput, states, steps) && i < |steps| && InOrder(states[i])
    ensures InOrder(states[i + 1]) <==> InOrderAt(states, steps, i)
  {
    HistoryIsSound(read, run, runInput, states, steps, i);
    StepGate(read, run, runInput, states[i], steps[i], states[i + 1]);
  }

  lemma StartsInOrder(read: Reader, run: RunId, runInput: string, states: seq<RunState>, steps: seq<Step>)
    requires History(read, run, runInput, states, steps)
    ensures InOrder(states[0])
  {
    assert states[0].plans == [states[0].plans[0]];
    FreshRunIsGated(read, run, runInput, states[0].plans[0]);
  }

  lemma FreshRunIsGated(read: Reader, run: RunId, runInput: string, plan: Revision)
    requires AcceptedHistory([plan])
    ensures Fine(Begun(read, run, runInput, plan).tasks) && Gated(Begun(read, run, runInput, plan).tasks)
  {
    FreshRunIsSettled(read, run, runInput, plan);
    RowsAreInserted(read, MaterializeTasks(plan.plan.tasks, run, runInput, plan.availableAt));
  }

  lemma {:induction false} InOrderThroughout(states: seq<RunState>, steps: seq<Step>, n: nat)
    requires n <= |steps| < |states| && InOrder(states[0])
    requires forall i :: 0 <= i < n && InOrder(states[i]) ==> (InOrder(states[i + 1]) <==> InOrderAt(states, steps, i))
    ensures (forall i :: 0 <= i <= n ==> InOrder(states[i])) <==> (forall i :: 0 <= i < n ==> InOrderAt(states, steps, i))
  {
    if n > 0 {
      InOrderThroughout(states, steps, n - 1);
      assert InOrder(states[n - 1]) ==> (InOrder(states[n]) <==> InOrderAt(states, steps, n - 1));
    }
  }

  /** Over every history no task is ever queued, run or ended before what it waits for, exactly if every resumption of
      the run queued only ready tasks. */
  lemma GatedIffResumedInOrder(
    read: Reader, run: RunId, runInput: string, states: seq<RunState>, steps: seq<Step>, n: nat)
    requires History(read, run, runInput, states, steps) && n <= |steps|
    ensures (forall i :: 0 <= i <= n ==> InOrder(states[i])) <==> (forall i :: 0 <= i < n ==> InOrderAt(states, steps, i))
  {
    StartsInOrder(read, run, runInput, states, steps);
    forall i | 0 <= i < n && InOrder(states[i]) ensures InOrder(states[i + 1]) <==> InOrderAt(states, steps, i) {
      InOrderByOne(read, run, runInput, states, steps, i);
    }
    InOrderThroughout(states, steps, n);
  }

  // ---------------------------------------------------------------- how a task moves

  /** The moves of a task's status. */
  ghost predicate Moves(before: TaskStatus, after: TaskStatus) {
    match before
    case Scheduled => after == Queued || after == Skipped || after == Cancelled
    case Queued => after == Leased || after == Cancelled
    case Leased => after == RetryScheduled || after == Succeeded || after == Failed || after == DeadLettered || after == Cancelled
    case RetryScheduled => after == Leased || after == Cancelled
    case _ => false
  }

  /** Every task of `t` is still there, waits for the same, and has made one move or none; an ended one is as it was. */
  ghost predicate MovesOnly(t: Table, u: Table) {
    forall x :: x in t ==>
      && x in u && u[x].dependencies == t[x].dependencies && u[x].join == t[x].join
      && (u[x].status == t[x].status ==> u[x] == t[x])
      && (u[x].status != t[x].status ==> Moves(t[x].status, u[x].status))
  }

  lemma DecisionsMove(before: Table, order: seq<Id>)
    requires Fine(before) && Derivation(before, order)
    ensures Fine(Final(before, order)) && MovesOnly(before, Final(before, order))
    ensures forall x :: x in before && before[x].status != Scheduled ==> Final(before, order)[x] == before[x]
  {
    DerivationIsJustified(before, order);
    forall x | x in before && Final(before, order)[x] != before[x] ensures Moves(before[x].status, Final(before, order)[x].status) {
      assert Decision(Final(before, order), x) == Some(Final(before, order)[x].status);
    }
  }

  lemma {:induction false} PassesMove(before: Table, prerequisites: seq<Id>, t: Table)
    requires Fine(before) && Passes(before, prerequisites, t)
    ensures Fine(t) && MovesOnly(before, t)
    ensures forall x :: x in before && before[x].status != Scheduled ==> t[x] == before[x]
    decreases |prerequisites|
  {
    if prerequisites != [] {
      var n := |prerequisites| - 1;
      assert prerequisites[..n + 1] == prerequisites;
      var u, order, activated := LastPass(before, prerequisites, n, t);
      PassesMove(before, prerequisites[..n], u);
      DecisionsMove(u, order);
      DecisionsMoveOn(before, u, t);
    }
  }

  /** Decisions only move scheduled tasks, so two rounds of them still make one move at most. */
  lemma DecisionsMoveOn(before: Table, u: Table, t: Table)
    requires MovesOnly(before, u) && MovesOnly(u, t)
    requires forall x :: x in before && before[x].status != Scheduled ==> u[x] == before[x]
    requires forall x :: x in u && u[x].status != Scheduled ==> t[x] == u[x]
    ensures MovesOnly(before, t)
    ensures forall x :: x in before && before[x].status != Scheduled ==> t[x] == before[x]
  {
  }

  lemma TableStepMoves(t: Table, step: Step, u: Table)
    requires Fine(t) && TableStepped(t, step, u)
    ensures MovesOnly(t, u)
    ensures step.Claim? ==> u[step.task].status == Leased
    ensures step.Finish? ==> u[step.task] == t[step.task].(status := step.status, result := step.result)
    ensures step.Pause? ==> forall x :: x in u ==> u[x].status != Leased
    ensures step.Cancel? ==> forall x :: x in u ==> Terminal(u[x].status)
  {
    if step.Finish? {
      FinishMoves(t, step.task, step.status, step.result, u);
    } else {
      TableStepShape(t, step, u);
    }
  }

  lemma FinishMoves(t: Table, x: Id, status: TaskStatus, result: Option<map<string, string>>, u: Table)
    requires Fine(t) && x in t && t[x].status == Leased && status in {Succeeded, Failed, DeadLettered}
    requires Settles(t[x := t[x].(status := status, result := result)], x, u)
    ensures MovesOnly(t, u) && u[x] == t[x].(status := status, result := result)
  {
    var ended := t[x := t[x].(status := status, result := result)];
    SettlingMoves(ended, x, u);
    EndThenDecisions(t, x, ended, u);
  }

  lemma SettlingMoves(before: Table, ended: Id, t: Table)
    requires Settles(before, ended, t)
    ensures MovesOnly(before, t) && forall x :: x in before && before[x].status != Scheduled ==> t[x] == before[x]
  {
    var order, activated :| Progress(before, order, t, activated) && Resolved(before, ended, t);
    DecisionsMove(before, order);
  }

  lemma EndThenDecisions(t: Table, x: Id, ended: Table, u: Table)
    requires x in t && x in ended && ended == t[x := ended[x]] && t[x].status == Leased && Moves(Leased, ended[x].status)
    requires ended[x].dependencies == t[x].dependencies && ended[x].join == t[x].join && ended[x].status != Scheduled
    requires MovesOnly(ended, u) && forall y :: y in ended && ended[y].status != Scheduled ==> u[y] == ended[y]
    ensures MovesOnly(t, u) && u[x] == ended[x]
  {
  }

  /** Every step moves the tasks that were there along these lines. */
  lemma StepMoves(read: Reader, run: RunId, runInput: string, s: RunState, step: Step, s': RunState)
    requires Sound(run, runInput, s) && Stepped(read, run, runInput, s, step, s')
    ensures MovesOnly(s.tasks, s'.tasks)
  {
    if step.Revise? {
      var records := RowsOf(read, Added(read, run, runInput, s.plans, step.revision));
      RevisionFits(read, run, runInput, s, step.revision);
      PassesMove(s.tasks + records, step.prerequisites, s'.tasks);
    } else {
      TableStepMoves(s.tasks, step, s'.tasks);
    }
  }

  lemma {:induction false} EndedThroughout(states: seq<RunState>, i: nat, j: nat, x: Id)
    requires i <= j < |states| && x in states[i].tasks && Terminal(states[i].tasks[x].status)
    requires forall k :: i <= k < j ==> MovesOnly(states[k].tasks, states[k + 1].tasks)
    ensures x in states[j].tasks && states[j].tasks[x] == states[i].tasks[x]
    decreases j
  {
    if i < j {
      EndedThroughout(states, i, j - 1, x);
      assert MovesOnly(states[j - 1].tasks, states[j].tasks);
    }
  }

  /** Over every history a task moves only along these lines, and what has ended keeps its status and its result. */
  lemma EndsAreKept(
    read: Reader, run: RunId, runInput: string, states: seq<RunState>, steps: seq<Step>, i: nat, j: nat)
    requires History(read, run, runInput, states, steps) && i <= j < |states|
    ensures forall k :: i <= k < j ==> MovesOnly(states[k].tasks, states[k + 1].tasks)
    ensures forall x :: x in states[i].tasks && Terminal(states[i].tasks[x].status) ==>
              x in states[j].tasks && states[j].tasks[x] == states[i].tasks[x]
  {
    forall k | i <= k < j ensures MovesOnly(states[k].tasks, states[k + 1].tasks) {
      MovesByOne(read, run, runInput, states, steps, k);
    }
    forall x | x in states[i].tasks && Terminal(states[i].tasks[x].status)
      ensures x in states[j].tasks && states[j].tasks[x] == states[i].tasks[x]
    {
      EndedThroughout(states, i, j, x);
    }
  }

  lemma MovesByOne(read: Reader, run: RunId, runInput: string, states: seq<RunState>, steps: seq<Step>, k: nat)
    requires History(read, run, runInput, states, steps) && k < |steps|
    ensures MovesOnly(states[k].tasks, states[k + 1].tasks)
  {
    HistoryIsSound(read, run, runInput, states, steps, k);
    StepMoves(read, run, runInput, states[k], steps[k], states[k + 1]);
  }

  // ---------------------------------------------------------------- no task is skipped too early

  /** Whoever was skipped could not start any more. */
  ghost predicate SkippedRightly(t: Table)
    requires Fine(t)
  {
    forall x :: x in t && t[x].status == Skipped ==> t[x].dependencies != map[] && Decision(t, x) == Some(Skipped)
  }

  /** A step that ends no ended task again and skips only who cannot start keeps this. */
  lemma SkipPasses(t: Table, u: Table)
    requires Fine(t) && Fine(u) && SkippedRightly(t)
    requires forall p :: p in t && Terminal(t[p].status) ==> p in u && u[p] == t[p]
    requires forall x :: x in u && u[x].status == Skipped ==>
               (x in t && t[x] == u[x]) || (u[x].dependencies != map[] && Decision(u, x) == Some(Skipped))
    ensures SkippedRightly(u)
  {
    forall x | x in u && u[x].status == Skipped ensures u[x].dependencies != map[] && Decision(u, x) == Some(Skipped) {
      if x in t && t[x] == u[x] {
        DecisionFollowsConditions(t, x);
        forall p | p in t[x].dependencies ensures u[p] == t[p] {
        }
      }
    }
  }

  lemma SettlesKeepsSkips(before: Table, ended: Id, t: Table)
    requires Settles(before, ended, t) && Fine(before) && SkippedRightly(before)
    ensures Fine(t) && SkippedRightly(t)
  {
    var order, activated :| Progress(before, order, t, activated) && Resolved(before, ended, t);
    DerivationIsJustified(before, order);
    SkipPasses(before, t);
  }

  lemma {:induction false} PassesKeepSkips(before: Table, prerequisites: seq<Id>, t: Table)
    requires Fine(before) && Passes(before, prerequisites, t) && SkippedRightly(before)
    ensures Fine(t) && SkippedRightly(t)
    decreases |prerequisites|
  {
    if prerequisites != [] {
      var n := |prerequisites| - 1;
      var u :| Passes(before, prerequisites[..n], u) && Settles(u, prerequisites[n], t);
      PassesKeepSkips(before, prerequisites[..n], u);
      SettlesKeepsSkips(u, prerequisites[n], t);
    }
  }

  lemma InsertedRowsKeepSkips(t: Table, records: Table)
    requires Addable(t, records) && SkippedRightly(t)
    ensures SkippedRightly(t + records)
  {
    SkipPasses(t, t + records);
  }

  lemma TableStepSkips(t: Table, step: Step, u: Table)
    requires Fine(t) && SkippedRightly(t) && TableStepped(t, step, u)
    ensures Fine(u) && SkippedRightly(u)
  {
    TableStepShape(t, step, u);
    if step.Finish? {
      var ended := t[step.task := t[step.task].(status := step.status, result := step.result)];
      SettlesExtends(ended, step.task, u);
      SkipPasses(t, ended);
      SettlesKeepsSkips(ended, step.task, u);
    } else {
      SkipPasses(t, u);
    }
  }

  lemma StepSkips(read: Reader, run: RunId, runInput: string, s: RunState, step: Step, s': RunState)
    requires Sound(run, runInput, s) && SkippedRightly(s.tasks) && Stepped(read, run, runInput, s, step, s')
    ensures Fine(s'.tasks) && SkippedRightly(s'.tasks)
  {
    if step.Revise? {
      var records := RowsOf(read, Added(read, run, runInput, s.plans, step.revision));
      RevisionFits(read, run, runInput, s, step.revision);
      InsertedRowsKeepSkips(s.tasks, records);
      PassesKeepSkips(s.tasks + records, step.prerequisites, s'.tasks);
    } else {
      TableStepSkips(s.tasks, step, s'.tasks);
    }
  }

  ghost predicate SkipsFit(s: RunState) {
    Fine(s.tasks) && SkippedRightly(s.tasks)
  }

  lemma StartsSkippingNobody(read: Reader, run: RunId, runInput: string, states: seq<RunState>, steps: seq<Step>)
    requires History(read, run, runInput, states, steps)
    ensures SkipsFit(states[0])
  {
    var plan := states[0].plans[0];
    assert states[0].plans == [plan];
    FreshRunIsSettled(read, run, runInput, plan);
    RowsAreInserted(read, MaterializeTasks(plan.plan.tasks, run, runInput, plan.availableAt));
  }

  lemma SkipsByOne(read: Reader, run: RunId, runInput: string, states: seq<RunState>, steps: seq<Step>, i: nat)
    requires History(read, run, runInput, states, steps) && i < |steps| && SkipsFit(states[i])
    ensures SkipsFit(states[i + 1])
  {
    HistoryIsSound(read, run, runInput, states, steps, i);
    StepSkips(read, run, runInput, states[i], steps[i], states[i + 1]);
  }

  lemma {:induction false} SkipsThroughout(states: seq<RunState>, n: nat)
    requires n < |states| && SkipsFit(states[0])
    requires forall i :: 0 <= i < n && SkipsFit(states[i]) ==> SkipsFit(states[i + 1])
    ensures SkipsFit(states[n])
  {
    if n > 0 {
      SkipsThroughout(states, n - 1);
      assert SkipsFit(states[n - 1]) ==> SkipsFit(states[n]);
    }
  }

  lemma HistorySkipsRightly(
    read: Reader, run: RunId, runInput: string, states: seq<RunState>, steps: seq<Step>, n: nat)
    requires History(read, run, runInput, states, steps) && n < |states|
    ensures SkipsFit(states[n])
  {
    StartsSkippingNobody(read, run, runInput, states, steps);
    forall i | 0 <= i < n && SkipsFit(states[i]) ensures SkipsFit(states[i + 1]) {
      SkipsByOne(read, run, runInput, states, steps, i);
    }
    SkipsThroughout(states, n);
  }

  // ---------------------------------------------------------------- in the words of the plan

  /** The row waits for what the record names, in the way that it names. */
  ghost predicate Asks(read: Reader, row: TaskRow, record: InitialTask) {
    && row.join == record.joinPolicy && row.dependencies.Keys == Prerequisites(record)
    && forall j :: 0 <= j < |record.dependencies| ==>
         var d := record.dependencies[j];
         d.prerequisite in row.dependencies && row.dependencies[d.prerequisite] == read(d.condition)
  }

  ghost predicate AllAsk(read: Reader, t: Table, ledger: seq<InitialTask>) {
    forall r :: r in ledger ==> r.taskId in t && Asks(read, t[r.taskId], r)
  }

  lemma {:induction false} DependencyRead(read: Reader, dependencies: seq<InitialDependency>, j: nat)
    requires j < |dependencies|
    requires forall i, k :: 0 <= i < k < |dependencies| ==> dependencies[i].prerequisite != dependencies[k].prerequisite
    ensures var m := DependencyMap(read, dependencies);
            dependencies[j].prerequisite in m && m[dependencies[j].prerequisite] == read(dependencies[j].condition)
  {
    var n := |dependencies| - 1;
    if j < n {
      DependencyRead(read, dependencies[..n], j);
    }
  }

  lemma NewRowAsks(read: Reader, record: InitialTask)
    requires TaskRecordFine(record)
    ensures Asks(read, NewRow(read, record), record)
  {
    DependencyKeys(read, record.dependencies);
    forall j | 0 <= j < |record.dependencies|
      ensures record.dependencies[j].prerequisite in NewRow(read, record).dependencies
      ensures NewRow(read, record).dependencies[record.dependencies[j].prerequisite] == read(record.dependencies[j].condition)
    {
      DependencyRead(read, record.dependencies, j);
    }
  }

  lemma NewRowsAsk(read: Reader, records: seq<InitialTask>)
    requires UniqueIds(records) && forall r :: r in records ==> TaskRecordFine(r)
    ensures AllAsk(read, RowsOf(read, records), records)
  {
    RowsOfRecords(read, records);
    forall r | r in records ensures r.taskId in RowsOf(read, records) && Asks(read, RowsOf(read, records)[r.taskId], r) {
      assert r.taskId in TaskIds(records);
      NewRowAsks(read, r);
    }
  }

  lemma LedgerIsFine(history: seq<Revision>, run: RunId, runInput: string)
    requires AcceptedHistory(history)
    ensures UniqueIds(Ledger(history, run, runInput))
    ensures forall r :: r in Ledger(history, run, runInput) ==> TaskRecordFine(r)
  {
    var last := history[|history| - 1].plan;
    LedgerIsSchedulable(history, run, runInput);
    LedgerMirrorsLastPlan(history, run, runInput);
    forall r | r in Ledger(history, run, runInput) ensures TaskRecordFine(r) {
      RecordsAreFine(last, run, runInput, r);
    }
  }

  lemma AskingStays(read: Reader, t: Table, ledger: seq<InitialTask>, u: Table)
    requires AllAsk(read, t, ledger) && SameShape(t, u)
    ensures AllAsk(read, u, ledger)
  {
  }

  lemma AddedAsk(read: Reader, t: Table, ledger: seq<InitialTask>, added: seq<InitialTask>)
    requires AllAsk(read, t, ledger) && AllAsk(read, RowsOf(read, added), added)
    requires RowsOf(read, added).Keys !! t.Keys
    ensures AllAsk(read, t + RowsOf(read, added), ledger + added)
  {
  }

  lemma RevisionAsks(
    read: Reader, run: RunId, runInput: string, s: RunState, revision: Revision, prerequisites: seq<Id>, s': RunState)
    requires Sound(run, runInput, s) && Revised(read, run, runInput, s, revision, prerequisites, s')
    requires AllAsk(read, s.tasks, Ledger(s.plans, run, runInput))
    ensures AllAsk(read, s'.tasks, Ledger(s'.plans, run, runInput))
  {
    var ledger, added := Ledger(s.plans, run, runInput), Added(read, run, runInput, s.plans, revision);
    AdditionsAreNew(read, run, runInput, s.plans, revision);
    LedgerIsFine(s'.plans, run, runInput);
    forall r | r in added ensures TaskRecordFine(r) {
      assert r in ledger + added;
    }
    RevisionFits(read, run, runInput, s, revision);
    PassesAsk(read, s.tasks, ledger, added, prerequisites, s'.tasks);
  }

  lemma PassesAsk(
    read: Reader, t: Table, ledger: seq<InitialTask>, added: seq<InitialTask>, prerequisites: seq<Id>, u: Table)
    requires AllAsk(read, t, ledger) && UniqueIds(added) && forall r :: r in added ==> TaskRecordFine(r)
    requires Addable(t, RowsOf(read, added)) && Passes(t + RowsOf(read, added), prerequisites, u)
    ensures AllAsk(read, u, ledger + added)
  {
    var grown := t + RowsOf(read, added);
    NewRowsAsk(read, added);
    AddedAsk(read, t, ledger, added);
    PassesKeepShape(grown, prerequisites, u);
    AskingStays(read, grown, ledger + added, u);
  }

  /** Every record of the run's plans has its row. */
  ghost predicate RowsAskAsPlanned(read: Reader, run: RunId, runInput: string, s: RunState) {
    s.plans != [] && AllAsk(read, s.tasks, Ledger(s.plans, run, runInput))
  }

  lemma FreshRowsAsk(read: Reader, run: RunId, runInput: string, plan: Revision)
    requires AcceptedHistory([plan])
    ensures RowsAskAsPlanned(read, run, runInput, Begun(read, run, runInput, plan))
  {
    LedgerIsFine([plan], run, runInput);
    NewRowsAsk(read, Ledger([plan], run, runInput));
  }

  lemma StartsAsking(read: Reader, run: RunId, runInput: string, states: seq<RunState>, steps: seq<Step>)
    requires History(read, run, runInput, states, steps)
    ensures RowsAskAsPlanned(read, run, runInput, states[0])
  {
    assert states[0].plans == [states[0].plans[0]];
    FreshRowsAsk(read, run, runInput, states[0].plans[0]);
  }

  lemma AsksByOne(read: Reader, run: RunId, runInput: string, states: seq<RunState>, steps: seq<Step>, i: nat)
    requires History(read, run, runInput, states, steps) && i < |steps| && RowsAskAsPlanned(read, run, runInput, states[i])
    ensures RowsAskAsPlanned(read, run, runInput, states[i + 1])
  {
    HistoryIsSound(read, run, runInput, states, steps, i);
    StepAsks(read, run, runInput, states[i], steps[i], states[i + 1]);
  }

  lemma {:induction false} HistoryAsks(read: Reader, run: RunId, runInput: string, states: seq<RunState>, steps: seq<Step>, i: nat)
    requires History(read, run, runInput, states, steps) && i < |states|
    ensures RowsAskAsPlanned(read, run, runInput, states[i])
    decreases i
  {
    if i == 0 {
      StartsAsking(read, run, runInput, states, steps);
    } else {
      HistoryAsks(read, run, runInput, states, steps, i - 1);
      AsksByOne(read, run, runInput, states, steps, i - 1);
    }
  }

  lemma StepAsks(read: Reader, run: RunId, runInput: string, s: RunState, step: Step, s': RunState)
    requires Sound(run, runInput, s) && Stepped(read, run, runInput, s, step, s')
    requires RowsAskAsPlanned(read, run, runInput, s)
    ensures RowsAskAsPlanned(read, run, runInput, s')
  {
    if step.Revise? {
      RevisionAsks(read, run, runInput, s, step.revision, step.prerequisites, s');
    } else {
      TableStepShape(s.tasks, step, s'.tasks);
      AskingStays(read, s.tasks, Ledger(s.plans, run, runInput), s'.tasks);
    }
  }

  /** The prerequisite that the plan names has what the plan's condition asks for. */
  ghost predicate DependencyMet(read: Reader, run: RunId, t: Table, d: P.DependencySpec) {
    TaskId(run, d.taskKey) in t && Met(read(d.condition), t[TaskId(run, d.taskKey)])
  }

  ghost predicate TaskFulfilled(read: Reader, run: RunId, t: Table, task: P.TaskSpec) {
    && (task.joinPolicy.All? ==> forall j :: 0 <= j < |task.dependencies| ==> DependencyMet(read, run, t, task.dependencies[j]))
    && (task.joinPolicy.Any? ==> exists j :: 0 <= j < |task.dependencies| && DependencyMet(read, run, t, task.dependencies[j]))
  }

  /** What a row waits for is what its task in the plan waits for. */
  lemma FulfilledAsPlanned(read: Reader, run: RunId, runInput: string, plan: P.ExecutionPlan, t: Table, record: InitialTask)
    requires RecordOf(plan, run, runInput, record) && record.dependencies != []
    requires record.taskId in t && Asks(read, t[record.taskId], record) && Fine(t)
    ensures Fulfilled(t, record.taskId) <==> TaskFulfilled(read, run, t, SpecOf(record))
  {
    var row, task := t[record.taskId], SpecOf(record);
    assert record.dependencies[0].prerequisite in row.dependencies;
    forall j | 0 <= j < |task.dependencies|
      ensures var p := record.dependencies[j].prerequisite;
              p in row.dependencies && (DependencyMet(read, run, t, task.dependencies[j]) <==> Met(row.dependencies[p], t[p]))
    {
      assert record.dependencies[j].prerequisite == TaskId(run, task.dependencies[j].taskKey);
    }
    forall p | p in row.dependencies ensures exists j :: 0 <= j < |record.dependencies| && record.dependencies[j].prerequisite == p {
      assert p in Prerequisites(record);
      var d :| d in record.dependencies && d.prerequisite == p;
    }
  }

  /** The record of task `i` of the plan. */
  lemma TaskHasRecord(read: Reader, run: RunId, runInput: string, plans: seq<Revision>, i: nat) returns (record: InitialTask)
    requires AcceptedHistory(plans) && i < |plans[|plans| - 1].plan.tasks|
    ensures record in Ledger(plans, run, runInput) && RecordOf(plans[|plans| - 1].plan, run, runInput, record)
    ensures SpecOf(record) == plans[|plans| - 1].plan.tasks[i]
  {
    var plan := plans[|plans| - 1].plan;
    LedgerMirrorsLastPlan(plans, run, runInput);
    P.TaskKeyIsFound(plan, i);
    assert Known(plan, plan.tasks[i].logicalKey);
    record :| record in Ledger(plans, run, runInput) && record.logicalKey == plan.tasks[i].logicalKey;
  }

  /** From the plan to the worker: if every resumption queued only ready tasks, then a task of the plan that was ever
      queued, leased or ended by a worker has what the plan asks for, in the statuses and results of its prerequisites. */
  lemma TasksStartAsPlanned(
    read: Reader, run: RunId, runInput: string, states: seq<RunState>, steps: seq<Step>, n: nat, i: nat)
    requires History(read, run, runInput, states, steps) && n <= |steps|
    requires forall k :: 0 <= k < n ==> InOrderAt(states, steps, k)
    requires states[n].plans != [] && i < |states[n].plans[|states[n].plans| - 1].plan.tasks|
    ensures var t, task := states[n].tasks, states[n].plans[|states[n].plans| - 1].plan.tasks[i];
            var x := TaskId(run, task.logicalKey);
            x in t && (task.dependencies != [] && t[x].status !in {Scheduled, Skipped, Cancelled} ==> TaskFulfilled(read, run, t, task))
  {
    var s := states[n];
    GatedIffResumedInOrder(read, run, runInput, states, steps, n);
    HistoryIsSound(read, run, runInput, states, steps, n);
    HistoryAsks(read, run, runInput, states, steps, n);
    var record := TaskHasRecord(read, run, runInput, s.plans, i);
    assert InOrder(s);
    StartedAsPlanned(read, run, runInput, s, record);
  }

  lemma StartedAsPlanned(read: Reader, run: RunId, runInput: string, s: RunState, record: InitialTask)
    requires InOrder(s) && s.plans != [] && RecordOf(s.plans[|s.plans| - 1].plan, run, runInput, record)
    requires record.taskId in s.tasks && Asks(read, s.tasks[record.taskId], record)
    ensures var x := TaskId(run, record.logicalKey);
            x in s.tasks && (record.dependencies != [] && s.tasks[x].status !in {Scheduled, Skipped, Cancelled} ==>
                               TaskFulfilled(read, run, s.tasks, SpecOf(record)))
  {
    if record.dependencies != [] && s.tasks[record.taskId].status !in {Scheduled, Skipped, Cancelled} {
      assert record.dependencies[0].prerequisite in s.tasks[record.taskId].dependencies;
      StartedIsFulfilled(s.tasks, record.taskId);
      FulfilledAsPlanned(read, run, runInput, s.plans[|s.plans| - 1].plan, s.tasks, record);
    }
  }

  lemma StartedIsFulfilled(t: Table, x: Id)
    requires Fine(t) && Gated(t) && x in t && t[x].dependencies != map[] && t[x].status !in {Scheduled, Skipped, Cancelled}
    ensures Fulfilled(t, x)
  {
    var status := t[x].status;
    assert !status.Scheduled? && !status.Skipped? && !status.Cancelled?;
    assert HasStarted(status) && Ready(t, x);
    DecisionFollowsConditions(t, x);
  }

  /** And over every history, a skipped task of the plan has only prerequisites that ended, and not as it asked. */
  lemma TasksAreSkippedAsPlanned(
    read: Reader, run: RunId, runInput: string, states: seq<RunState>, steps: seq<Step>, n: nat, i: nat)
    requires History(read, run, runInput, states, steps) && n <= |steps|
    requires states[n].plans != [] && i < |states[n].plans[|states[n].plans| - 1].plan.tasks|
    ensures var t, task := states[n].tasks, states[n].plans[|states[n].plans| - 1].plan.tasks[i];
            var x := TaskId(run, task.logicalKey);
            x in t && (t[x].status == Skipped ==>
                         task.dependencies != [] && !TaskFulfilled(read, run, t, task) && PrerequisitesEnded(t, x))
  {
    var s := states[n];
    HistoryIsSound(read, run, runInput, states, steps, n);
    HistorySkipsRightly(read, run, runInput, states, steps, n);
    HistoryAsks(read, run, runInput, states, steps, n);
    var record := TaskHasRecord(read, run, runInput, s.plans, i);
    assert SkipsFit(s);
    SkippedAsPlanned(read, run, runInput, s, record);
  }

  lemma SkippedAsPlanned(read: Reader, run: RunId, runInput: string, s: RunState, record: InitialTask)
    requires SkipsFit(s) && s.plans != [] && RecordOf(s.plans[|s.plans| - 1].plan, run, runInput, record)
    requires record.taskId in s.tasks && Asks(read, s.tasks[record.taskId], record)
    ensures var x := TaskId(run, record.logicalKey);
            x in s.tasks && (s.tasks[x].status == Skipped ==>
                               record.dependencies != [] && !TaskFulfilled(read, run, s.tasks, SpecOf(record)) && PrerequisitesEnded(s.tasks, x))
  {
    var x := record.taskId;
    if s.tasks[x].status == Skipped {
      SkippedIsUnfulfilled(s.tasks, x);
      assert record.dependencies == [] ==> Prerequisites(record) == {};
      FulfilledAsPlanned(read, run, runInput, s.plans[|s.plans| - 1].plan, s.tasks, record);
    }
  }

  lemma SkippedIsUnfulfilled(t: Table, x: Id)
    requires Fine(t) && SkippedRightly(t) && x in t && t[x].status == Skipped
    ensures t[x].dependencies != map[] && !Fulfilled(t, x) && PrerequisitesEnded(t, x)
  {
    DecisionFollowsConditions(t, x);
  }

  /** Pausing and resuming a run of two tasks, the second waiting for the first, queues the second before the first
      has ended. */
  lemma ResumeStartsTooEarly(a: Id, b: Id)
    requires a != b
    ensures var t: Table := map[a := TaskRow(Queued, P.All, map[], None), b := TaskRow(Scheduled, P.All, map[a := OnSuccess], None)];
            var u := Resumed(Paused(t), {a, b});
            && Fine(t) && Stable(t) && Gated(t)
            && Fine(u) && u[b].status == Queued && !Terminal(u[a].status) && !Gated(u)
  {
    var t: Table := map[a := TaskRow(Queued, P.All, map[], None), b := TaskRow(Scheduled, P.All, map[a := OnSuccess], None)];
    NothingEndedIsStable(t);
    assert forall x :: x in t && t[x].dependencies != map[] ==> x == b;
    var u := Resumed(Paused(t), {a, b});
    assert a in u[b].dependencies && !Satisfied(u[a], OnSuccess) && !Ready(u, b);
    assert u[b].dependencies != map[];
  }
}
