/** Activating and skipping dependent tasks when a prerequisite ends
    (crates/store-postgres/src/transaction_executor.rs). */
module TaskActivation {
  import opened Prelude
  import opened Graph
  import opened Identity
  import opened PlanMaterialization
  import P = ExecutionPlans

  type Id = DerivedId

  datatype TaskStatus =
    | Scheduled | Queued | Leased | RetryScheduled
    | Succeeded | Failed | DeadLettered | Skipped | Cancelled

  predicate Terminal(status: TaskStatus) {
    status in {Succeeded, Failed, DeadLettered, Skipped, Cancelled}
  }

  /** What a dependency demands of its prerequisite. */
  datatype Condition =
    | OnSuccess
    | OnStatus(status: TaskStatus)
    | OnResult(pointer: string, expected: string)

  /** The store refuses to insert a condition on a status that is not an end state. */
  predicate ConditionFine(condition: Condition) {
    condition.OnStatus? ==> Terminal(condition.status)
  }

  datatype TaskRow = TaskRow(
    status: TaskStatus,
    join: P.JoinPolicy,
    dependencies: map<Id, Condition>,
    result: Option<map<string, string>>)

  type Table = map<Id, TaskRow>

  /** Conditions are well formed and every prerequisite is a task of the run. */
  ghost predicate Fine(t: Table) {
    forall x, p :: x in t && p in t[x].dependencies ==> p in t && ConditionFine(t[x].dependencies[p])
  }

  // ---------------------------------------------------------------- the decision on one task

  predicate Satisfied(row: TaskRow, condition: Condition) {
    match condition
    case OnSuccess => row.status == Succeeded
    case OnStatus(status) => row.status == status
    case OnResult(pointer, expected) =>
      && row.status == Succeeded
      && row.result.Some? && pointer in row.result.value && row.result.value[pointer] == expected
  }

  predicate Ready(t: Table, x: Id)
    requires x in t && t[x].dependencies.Keys <= t.Keys
  {
    var dependencies := t[x].dependencies;
    match t[x].join
    case All => dependencies != map[] && forall p :: p in dependencies ==> Satisfied(t[p], dependencies[p])
    case Any => exists p :: p in dependencies && Satisfied(t[p], dependencies[p])
  }

  predicate Settled(t: Table, x: Id)
    requires x in t && t[x].dependencies.Keys <= t.Keys
  {
    forall p :: p in t[x].dependencies ==> Terminal(t[p].status)
  }

  /** Queue a task that is ready, skip one that can no longer become ready, else leave it. */
  function Decision(t: Table, x: Id): Option<TaskStatus>
    requires x in t && t[x].dependencies.Keys <= t.Keys
  {
    if Ready(t, x) then Some(Queued) else if Settled(t, x) then Some(Skipped) else None
  }

  predicate Waiting(t: Table, x: Id) {
    x in t && t[x].status == Scheduled && t[x].dependencies != map[]
  }

  ghost predicate Overdue(t: Table, x: Id)
    requires Fine(t)
  {
    Waiting(t, x) && Decision(t, x).Some?
  }

  /** No task is left waiting although its fate is known. */
  ghost predicate Stable(t: Table)
    requires Fine(t)
  {
    forall x :: !Overdue(t, x)
  }

  function Decide(t: Table, x: Id): Table
    requires x in t && t[x].dependencies.Keys <= t.Keys && Decision(t, x).Some?
  {
    t[x := t[x].(status := Decision(t, x).value)]
  }

  // ---------------------------------------------------------------- decisions in terms of statuses and results

  /** The row has what the condition asks for. */
  ghost predicate Met(condition: Condition, row: TaskRow) {
    && (condition.OnSuccess? ==> row.status == Succeeded)
    && (condition.OnStatus? ==> row.status == condition.status)
    && (condition.OnResult? ==>
          row.status == Succeeded
          && exists result :: row.result == Some(result) && condition.pointer in result && result[condition.pointer] == condition.expected)
  }

  /** What the task waits for is given: every condition is met, or any one of them. */
  ghost predicate Fulfilled(t: Table, x: Id) {
    && x in t && t[x].dependencies != map[] && t[x].dependencies.Keys <= t.Keys
    && (t[x].join == P.All ==> forall p :: p in t[x].dependencies ==> Met(t[x].dependencies[p], t[p]))
    && (t[x].join == P.Any ==> exists p :: p in t[x].dependencies && Met(t[x].dependencies[p], t[p]))
  }

  /** Every prerequisite has ended in one of the five ways in which a task ends. */
  ghost predicate PrerequisitesEnded(t: Table, x: Id) {
    && x in t && t[x].dependencies.Keys <= t.Keys
    && forall p :: p in t[x].dependencies ==>
         var status := t[p].status;
         status == Succeeded || status == Failed || status == DeadLettered || status == Skipped || status == Cancelled
  }

  /** The decision in these terms. */
  lemma DecisionFollowsConditions(t: Table, x: Id)
    requires x in t && t[x].dependencies.Keys <= t.Keys && t[x].dependencies != map[]
    ensures Decision(t, x) == Some(Queued) <==> Fulfilled(t, x)
    ensures Decision(t, x) == Some(Skipped) <==> !Fulfilled(t, x) && PrerequisitesEnded(t, x)
    ensures Decision(t, x) == None <==> !Fulfilled(t, x) && !PrerequisitesEnded(t, x)
  {
    forall p | p in t[x].dependencies ensures Satisfied(t[p], t[x].dependencies[p]) <==> Met(t[x].dependencies[p], t[p]) {
      SatisfiedIsMet(t[p], t[x].dependencies[p]);
    }
  }

  lemma SatisfiedIsMet(row: TaskRow, condition: Condition)
    ensures Satisfied(row, condition) <==> Met(condition, row)
  {
  }

  // ---------------------------------------------------------------- any order of decisions

  /** Each id was overdue when its turn came. */
  ghost predicate Derivation(t: Table, order: seq<Id>)
    requires Fine(t)
    decreases |order|
  {
    order == [] || (Overdue(t, order[0]) && Derivation(Decide(t, order[0]), order[1..]))
  }

  ghost function Final(t: Table, order: seq<Id>): (u: Table)
    requires Fine(t) && Derivation(t, order)
    ensures Fine(u)
    decreases |order|
  {
    if order == [] then t else Final(Decide(t, order[0]), order[1..])
  }

  /** `u` differs from `t` only in tasks that were waiting, which now have another status. */
  ghost predicate Extends(t: Table, u: Table) {
    && t.Keys == u.Keys
    && forall x :: x in t ==> u[x] == t[x] || (Waiting(t, x) && u[x] == t[x].(status := u[x].status))
  }

  /** Later decisions never overturn an earlier one. */
  lemma DecisionIsMonotone(t: Table, u: Table, x: Id)
    requires Fine(t) && Fine(u) && Extends(t, u) && x in t && Decision(t, x).Some?
    requires t[x].dependencies == u[x].dependencies && t[x].join == u[x].join
    ensures Decision(u, x) == Decision(t, x)
  {
    var dependencies := t[x].dependencies;
    forall p | p in dependencies
      ensures Satisfied(t[p], dependencies[p]) ==> Satisfied(u[p], dependencies[p])
      ensures Terminal(t[p].status) ==> t[p] == u[p]
    {
      if Waiting(t, p) {
        assert !Satisfied(t[p], dependencies[p]);
      }
    }
  }

  /** Every change on the way to `f` is what the final table itself would decide. */
  ghost predicate JustifiedBy(t: Table, f: Table)
    requires Fine(f)
  {
    && Extends(t, f)
    && forall x :: x in t && f[x] != t[x] ==> Decision(f, x) == Some(f[x].status)
  }

  lemma {:induction false} DerivationIsJustified(t: Table, order: seq<Id>)
    requires Fine(t) && Derivation(t, order)
    ensures JustifiedBy(t, Final(t, order))
    decreases |order|
  {
    if order != [] {
      var u := Decide(t, order[0]);
      var f := Final(u, order[1..]);
      DerivationIsJustified(u, order[1..]);
      JustifiedOneEarlier(t, order[0], f);
    }
  }

  lemma JustifiedOneEarlier(t: Table, x: Id, f: Table)
    requires Fine(t) && Fine(f) && Overdue(t, x) && JustifiedBy(Decide(t, x), f)
    ensures JustifiedBy(t, f)
  {
    var u := Decide(t, x);
    forall y | y in t ensures f[y] == t[y] || (Waiting(t, y) && f[y] == t[y].(status := f[y].status)) {
      assert f[y] == u[y] || (Waiting(u, y) && f[y] == u[y].(status := f[y].status));
    }
    DecisionIsMonotone(t, f, x);
  }

  /** Decisions taken in any order stay below every stable outcome. */
  lemma {:induction false} DerivationStaysBelow(t: Table, order: seq<Id>, f: Table)
    requires Fine(t) && Derivation(t, order)
    requires Fine(f) && Stable(f) && JustifiedBy(t, f)
    ensures JustifiedBy(Final(t, order), f)
    decreases |order|
  {
    if order != [] {
      var x := order[0];
      var u := Decide(t, x);
      DecisionIsMonotone(t, f, x);
      assert !Overdue(f, x);
      assert f[x] == u[x];
      DerivationStaysBelow(u, order[1..], f);
    }
  }

  /** Whatever order the decisions are taken in, the run settles in the same state. */
  lemma SettlingIsConfluent(t: Table, first: seq<Id>, second: seq<Id>)
    requires Fine(t) && Derivation(t, first) && Derivation(t, second)
    requires Stable(Final(t, first)) && Stable(Final(t, second))
    ensures Final(t, first) == Final(t, second)
  {
    var a, b := Final(t, first), Final(t, second);
    DerivationIsJustified(t, first);
    DerivationIsJustified(t, second);
    DerivationStaysBelow(t, first, b);
    DerivationStaysBelow(t, second, a);
  }

  /** No task is decided twice. */
  lemma {:induction false} DecidedOnce(t: Table, order: seq<Id>)
    requires Fine(t) && Derivation(t, order)
    ensures Distinct(order) && forall x :: x in order ==> Waiting(t, x) && !Waiting(Final(t, order), x)
    decreases |order|
  {
    if order != [] {
      var u := Decide(t, order[0]);
      DecidedOnce(u, order[1..]);
      DerivationIsJustified(u, order[1..]);
      assert !Waiting(u, order[0]);
      assert order == [order[0]] + order[1..];
      DistinctCons(order[0], order[1..]);
    }
  }

  // ---------------------------------------------------------------- the worklist

  /** The waiting dependents of a task, in the store's order of ids. */
  function WaitingDependents(t: Table, ids: seq<Id>, p: Id): (rows: seq<Id>)
    ensures forall x :: x in rows <==> x in ids && Waiting(t, x) && p in t[x].dependencies
    ensures |rows| <= |ids|
  {
    if ids == [] then []
    else (if Waiting(t, ids[0]) && p in t[ids[0]].dependencies then [ids[0]] else []) + WaitingDependents(t, ids[1..], p)
  }

  lemma {:induction false} WaitingDependentsDistinct(t: Table, ids: seq<Id>, p: Id)
    requires Distinct(ids)
    ensures Distinct(WaitingDependents(t, ids, p))
  {
    if ids != [] {
      WaitingDependentsDistinct(t, ids[1..], p);
      assert ids[0] !in ids[1..];
    }
  }

  ghost function WaitingSet(t: Table): set<Id> {
    set x | x in t && Waiting(t, x)
  }

  /** The members of `order` that ended up queued. */
  ghost function QueuedOnes(t: Table, order: seq<Id>): seq<Id> {
    if order == [] then []
    else
      var last := order[|order| - 1];
      QueuedOnes(t, order[..|order| - 1]) + if last in t && t[last].status == Queued then [last] else []
  }

  lemma {:induction false} QueuedOnesFrame(t: Table, u: Table, order: seq<Id>)
    requires forall x :: x in order ==> x in t && x in u && t[x] == u[x]
    ensures QueuedOnes(t, order) == QueuedOnes(u, order)
  {
    if order != [] {
      QueuedOnesFrame(t, u, order[..|order| - 1]);
    }
  }

  lemma {:induction false} DerivationSnoc(t: Table, order: seq<Id>, x: Id)
    requires Fine(t) && Derivation(t, order) && Overdue(Final(t, order), x)
    ensures Derivation(t, order + [x]) && Final(t, order + [x]) == Decide(Final(t, order), x)
    decreases |order|
  {
    if order == [] {
      assert [x][1..] == [];
    } else {
      var u := Decide(t, order[0]);
      DerivationSnoc(u, order[1..], x);
      assert (order + [x])[1..] == order[1..] + [x];
    }
  }

  /** Deciding `x` makes nothing overdue but waiting dependents of a skipped `x`. */
  lemma DecideAffectsDependents(t: Table, x: Id, y: Id)
    requires Fine(t) && Overdue(t, x) && y in t && y != x
    requires x !in t[y].dependencies || Decision(t, x) == Some(Queued)
    ensures Decision(Decide(t, x), y) == Decision(t, y)
  {
    var u := Decide(t, x);
    var dependencies := t[y].dependencies;
    forall p | p in dependencies
      ensures Satisfied(t[p], dependencies[p]) == Satisfied(u[p], dependencies[p])
      ensures Terminal(t[p].status) == Terminal(u[p].status)
    {
    }
  }

  ghost predicate Excused(before: Table, ended: Id, x: Id)
    requires Fine(before)
  {
    Overdue(before, x) && ended !in before[x].dependencies
  }

  /** `t` was reached from `before` by the decisions in `order`, which queued the `activated` tasks. */
  ghost predicate Progress(before: Table, order: seq<Id>, t: Table, activated: seq<Id>) {
    && Fine(before) && Derivation(before, order)
    && t == Final(before, order)
    && activated == QueuedOnes(t, order)
  }

  lemma ProgressByOne(before: Table, order: seq<Id>, t: Table, activated: seq<Id>, x: Id)
    requires Progress(before, order, t, activated) && Fine(t) && Overdue(t, x)
    ensures Progress(before, order + [x], Decide(t, x), activated + if Decision(t, x) == Some(Queued) then [x] else [])
  {
    DerivationSnoc(before, order, x);
    DecidedOnce(before, order);
    DerivationIsJustified(before, order);
    assert (order + [x])[..|order|] == order;
    QueuedOnesFrame(t, Decide(t, x), order);
  }

  /** Whatever is overdue is about to be looked at, or was overdue before for another reason. */
  ghost predicate Covered(before: Table, ended: Id, t: Table, rows: seq<Id>, terminal: seq<Id>)
    requires Fine(before) && Fine(t)
  {
    forall x :: Overdue(t, x) ==>
      Excused(before, ended, x) || x in rows || exists p :: p in terminal && p in t[x].dependencies
  }

  lemma CoveredByOne(before: Table, ended: Id, t: Table, x: Id, rows: seq<Id>, terminal: seq<Id>)
    requires Fine(before) && Fine(t) && Overdue(t, x) && Covered(before, ended, t, [x] + rows, terminal)
    ensures Covered(before, ended, Decide(t, x), rows, if Decision(t, x) == Some(Skipped) then terminal + [x] else terminal)
  {
    var u := Decide(t, x);
    var terminal' := if Decision(t, x) == Some(Skipped) then terminal + [x] else terminal;
    forall y | Overdue(u, y) && !Excused(before, ended, y) && y !in rows
      ensures exists p :: p in terminal' && p in u[y].dependencies
    {
      if x in t[y].dependencies && Decision(t, x) == Some(Skipped) {
        assert x in terminal';
      } else {
        DecideAffectsDependents(t, x, y);
        assert Overdue(t, y);
        var p :| p in terminal && p in t[y].dependencies;
        assert p in terminal';
      }
    }
  }

  /** The state of the worklist: `rows` still to look at, then the dependents of `terminal`. */
  ghost predicate Working(
    before: Table, ended: Id, order: seq<Id>, t: Table, activated: seq<Id>, rows: seq<Id>, terminal: seq<Id>)
  {
    && Progress(before, order, t, activated)
    && Fine(t) && Covered(before, ended, t, rows, terminal)
    && Distinct(rows) && forall x :: x in rows ==> Waiting(t, x)
  }

  lemma RowDecided(
    before: Table, ended: Id, order: seq<Id>, t: Table, activated: seq<Id>, x: Id, rows: seq<Id>, terminal: seq<Id>)
    requires Working(before, ended, order, t, activated, [x] + rows, terminal)
    requires Overdue(t, x)
    ensures Working(
              before, ended, order + [x], Decide(t, x),
              activated + if Decision(t, x) == Some(Queued) then [x] else [],
              rows,
              if Decision(t, x) == Some(Skipped) then terminal + [x] else terminal)
    ensures |WaitingSet(Decide(t, x))| < |WaitingSet(t)|
  {
    ProgressByOne(before, order, t, activated, x);
    CoveredByOne(before, ended, t, x, rows, terminal);
    RowsStayWaiting(t, x, rows);
  }

  lemma RowsStayWaiting(t: Table, x: Id, rows: seq<Id>)
    requires Fine(t) && Overdue(t, x)
    requires Distinct([x] + rows) && forall y :: y in [x] + rows ==> Waiting(t, y)
    ensures Fine(Decide(t, x))
    ensures Distinct(rows) && forall y :: y in rows ==> Waiting(Decide(t, x), y)
    ensures |WaitingSet(Decide(t, x))| < |WaitingSet(t)|
  {
    assert WaitingSet(Decide(t, x)) == WaitingSet(t) - {x};
    forall y | y in rows ensures Waiting(Decide(t, x), y) {
      var i :| 0 <= i < |rows| && rows[i] == y;
      assert ([x] + rows)[0] != ([x] + rows)[i + 1];
      assert y in [x] + rows;
    }
    forall i, j | 0 <= i < j < |rows| ensures rows[i] != rows[j] {
      assert ([x] + rows)[i + 1] != ([x] + rows)[j + 1];
    }
  }

  /** Fewer tasks wait, or nothing happened. */
  ghost predicate Shrunk(before: Table, terminal: seq<Id>, after: Table, terminal': seq<Id>) {
    |WaitingSet(after)| < |WaitingSet(before)| || (after == before && terminal' == terminal)
  }

  lemma StillShrunk(t: Table, a: seq<Id>, u: Table, b: seq<Id>, v: Table, c: seq<Id>)
    requires Shrunk(t, a, u, b) && Shrunk(u, b, v, c)
    ensures Shrunk(t, a, v, c)
  {
  }

  lemma RowLeft(
    before: Table, ended: Id, order: seq<Id>, t: Table, activated: seq<Id>, x: Id, rows: seq<Id>, terminal: seq<Id>)
    requires Working(before, ended, order, t, activated, [x] + rows, terminal)
    requires !Overdue(t, x)
    ensures Working(before, ended, order, t, activated, rows, terminal)
  {
    forall y | y in rows ensures y in [x] + rows {
    }
    forall i, j | 0 <= i < j < |rows| ensures rows[i] != rows[j] {
      assert ([x] + rows)[i + 1] != ([x] + rows)[j + 1];
    }
  }

  lemma DependentsFetched(
    before: Table, ended: Id, order: seq<Id>, t: Table, activated: seq<Id>, terminal: seq<Id>, ids: seq<Id>)
    requires terminal != [] && Working(before, ended, order, t, activated, [], terminal)
    requires Distinct(ids)
    requires forall x :: x in t ==> x in ids
    ensures var n := |terminal| - 1;
            Working(before, ended, order, t, activated, WaitingDependents(t, ids, terminal[n]), terminal[..n])
  {
    var n := |terminal| - 1;
    WaitingDependentsDistinct(t, ids, terminal[n]);
    assert terminal == terminal[..n] + [terminal[n]];
  }

  lemma WorkStarts(before: Table, ended: Id)
    requires Fine(before)
    ensures Working(before, ended, [], before, [], [], [ended])
  {
    assert ended in [ended];
  }

  /** Everything overdue because of the ended task has been decided. */
  ghost predicate Resolved(before: Table, ended: Id, t: Table) {
    && Fine(before) && Fine(t)
    && forall x :: Overdue(t, x) ==> Excused(before, ended, x)
  }

  /** `t` ended in the worklist started for `ended` from `before`. */
  ghost predicate Settles(before: Table, ended: Id, t: Table) {
    exists order, activated :: Progress(before, order, t, activated) && Resolved(before, ended, t)
  }

  /** The worklist was run for each prerequisite in turn. */
  ghost predicate Passes(before: Table, prerequisites: seq<Id>, t: Table)
    decreases |prerequisites|
  {
    if prerequisites == [] then t == before
    else
      var n := |prerequisites| - 1;
      exists u :: Passes(before, prerequisites[..n], u) && Settles(u, prerequisites[n], t)
  }

  /** Every task that changed was waiting and is now queued, if what it waits for is given, or skipped, if it is not and
      every prerequisite has ended; the queued ones are reported, each once. */
  ghost predicate Judged(before: Table, t: Table, activated: seq<Id>) {
    && Extends(before, t)
    && (forall x :: x in t && t[x] != before[x] ==>
          && (t[x].status == Queued <==> Fulfilled(t, x))
          && (t[x].status == Skipped <==> !Fulfilled(t, x) && PrerequisitesEnded(t, x))
          && (t[x].status == Queued || t[x].status == Skipped))
    && Distinct(activated)
    && forall x :: x in activated <==> x in t && t[x] != before[x] && t[x].status == Queued
  }

  /** The fate of the task can be told. */
  ghost predicate FateKnown(t: Table, x: Id) {
    Fulfilled(t, x) || PrerequisitesEnded(t, x)
  }

  /** Nobody whose fate can be told still waits, except who had been left waiting before for another reason. */
  ghost predicate NobodyOverlooked(before: Table, ended: Id, t: Table) {
    forall x :: Waiting(t, x) && FateKnown(t, x) ==> Waiting(before, x) && FateKnown(before, x) && ended !in before[x].dependencies
  }

  lemma {:induction false} ChangedOnesWereDecided(t: Table, order: seq<Id>, x: Id)
    requires Fine(t) && Derivation(t, order) && x in t && x in Final(t, order) && Final(t, order)[x] != t[x]
    ensures x in order
    decreases |order|
  {
    if order != [] {
      var u := Decide(t, order[0]);
      if x != order[0] {
        assert u[x] == t[x];
        ChangedOnesWereDecided(u, order[1..], x);
        assert order == [order[0]] + order[1..];
      }
    }
  }

  lemma {:induction false} QueuedOnesAre(t: Table, order: seq<Id>)
    ensures forall x :: x in QueuedOnes(t, order) <==> x in order && x in t && t[x].status == Queued
    ensures Distinct(order) ==> Distinct(QueuedOnes(t, order))
  {
    if order != [] {
      var n := |order| - 1;
      QueuedOnesAre(t, order[..n]);
      assert order == order[..n] + [order[n]];
      assert Distinct(order) ==> Distinct(order[..n]) && order[n] !in order[..n];
    }
  }

  lemma ProgressIsJudged(before: Table, order: seq<Id>, t: Table, activated: seq<Id>)
    requires Progress(before, order, t, activated)
    ensures Judged(before, t, activated)
  {
    DerivationIsJustified(before, order);
    DecidedOnce(before, order);
    QueuedOnesAre(t, order);
    forall x | x in t && t[x] != before[x]
      ensures x in order
      ensures (t[x].status == Queued <==> Fulfilled(t, x)) && (t[x].status == Queued || t[x].status == Skipped)
      ensures t[x].status == Skipped <==> !Fulfilled(t, x) && PrerequisitesEnded(t, x)
    {
      ChangedOnesWereDecided(before, order, x);
      assert Waiting(before, x) && t[x].dependencies == before[x].dependencies;
      assert Decision(t, x) == Some(t[x].status);
      DecisionFollowsConditions(t, x);
    }
    forall x | x in order ensures x in t && t[x] != before[x] {
      assert Waiting(before, x) && !Waiting(t, x);
    }
  }

  lemma ResolvedOverlooksNobody(before: Table, ended: Id, t: Table)
    requires Resolved(before, ended, t)
    ensures NobodyOverlooked(before, ended, t)
  {
    forall x | Waiting(t, x) && FateKnown(t, x)
      ensures Waiting(before, x) && FateKnown(before, x) && ended !in before[x].dependencies
    {
      DecisionFollowsConditions(t, x);
      assert Overdue(t, x);
      assert Excused(before, ended, x);
      DecisionFollowsConditions(before, x);
    }
  }

  lemma NothingLeft(before: Table, ended: Id, order: seq<Id>, t: Table, activated: seq<Id>)
    requires Working(before, ended, order, t, activated, [], [])
    ensures Resolved(before, ended, t) && Judged(before, t, activated) && NobodyOverlooked(before, ended, t)
  {
    ProgressIsJudged(before, order, t, activated);
    ResolvedOverlooksNobody(before, ended, t);
  }

  class RunTasks {
    var tasks: Table
    const ids: seq<Id>

    ghost predicate Valid()
      reads this
    {
      Fine(tasks) && Distinct(ids) && forall x :: x in tasks <==> x in ids
    }

    constructor (tasks: Table, ids: seq<Id>)
      requires Fine(tasks) && Distinct(ids) && forall x :: x in tasks <==> x in ids
      ensures Valid() && this.tasks == tasks && this.ids == ids
    {
      this.tasks := tasks;
      this.ids := ids;
    }

    /** Works off the dependents of a task that ended, then the dependents of every task that it
        skips on the way. Everything overdue because of the ended task is decided. */
    method ResolveDependents(ended: Id) returns (activated: seq<Id>, ghost order: seq<Id>)
      requires Valid()
      modifies this
      ensures Valid()
      ensures Judged(old(tasks), tasks, activated) && NobodyOverlooked(old(tasks), ended, tasks)
      ensures Progress(old(tasks), order, tasks, activated) && Resolved(old(tasks), ended, tasks)
    {
      ghost var before := tasks;
      activated := [];
      order := [];
      var terminal := [ended];
      WorkStarts(before, ended);
      while terminal != []
        invariant Valid() && Working(before, ended, order, tasks, activated, [], terminal)
        decreases |WaitingSet(tasks)|, |terminal|
      {
        DependentsFetched(before, ended, order, tasks, activated, terminal, ids);
        var n := |terminal| - 1;
        activated, terminal, order := ResolveRows(
          WaitingDependents(tasks, ids, terminal[n]), activated, terminal[..n], before, ended, order);
      }
      NothingLeft(before, ended, order, tasks, activated);
    }

    /** The inner loop over the dependents of one ended task. */
    method ResolveRows(
      rows: seq<Id>, activated: seq<Id>, terminal: seq<Id>, ghost before: Table, ghost ended: Id, ghost order: seq<Id>)
      returns (activated': seq<Id>, terminal': seq<Id>, ghost order': seq<Id>)
      requires Valid() && Working(before, ended, order, tasks, activated, rows, terminal)
      modifies this
      ensures Valid() && Working(before, ended, order', tasks, activated', [], terminal')
      ensures Shrunk(old(tasks), terminal, tasks, terminal')
    {
      activated', terminal', order' := activated, terminal, order;
      var rest := rows;
      while rest != []
        invariant Valid() && Working(before, ended, order', tasks, activated', rest, terminal')
        invariant Shrunk(old(tasks), terminal, tasks, terminal')
        decreases |rest|
      {
        var x, others := rest[0], rest[1..];
        assert rest == [x] + others;
        ghost var t, was := tasks, terminal';
        activated', terminal', order' := ResolveRow(x, others, activated', terminal', before, ended, order');
        rest := others;
        StillShrunk(old(tasks), terminal, t, was, tasks, terminal');
      }
    }

    /** Evaluates one dependent and writes its new status, if it has one. */
    method ResolveRow(
      x: Id, ghost rows: seq<Id>, activated: seq<Id>, terminal: seq<Id>, ghost before: Table, ghost ended: Id, ghost order: seq<Id>)
      returns (activated': seq<Id>, terminal': seq<Id>, ghost order': seq<Id>)
      requires Valid() && Working(before, ended, order, tasks, activated, [x] + rows, terminal)
      modifies this
      ensures Valid() && Working(before, ended, order', tasks, activated', rows, terminal')
      ensures Shrunk(old(tasks), terminal, tasks, terminal')
    {
      activated', terminal', order' := activated, terminal, order;
      assert x in [x] + rows;
      var ready := Ready(tasks, x);
      var settled := Settled(tasks, x);
      if !ready && !settled {
        RowLeft(before, ended, order, tasks, activated, x, rows, terminal);
        return;
      }
      RowDecided(before, ended, order, tasks, activated, x, rows, terminal);
      order' := order + [x];
      tasks := tasks[x := tasks[x].(status := if ready then Queued else Skipped)];
      if ready {
        activated' := activated + [x];
      } else {
        terminal' := terminal + [x];
        assert activated + [] == activated;
      }
    }

    /** A leased task succeeds or fails for good, and its dependents are resolved in the same transaction. */
    method Finish(x: Id, status: TaskStatus, result: Option<map<string, string>>) returns (activated: seq<Id>)
      requires Valid() && x in tasks && tasks[x].status == Leased
      requires status in {Succeeded, Failed, DeadLettered}
      modifies this
      ensures Valid()
      ensures old(Stable(tasks)) ==> Stable(tasks)
      ensures var ended := old(tasks)[x := old(tasks)[x].(status := status, result := result)];
              Settles(ended, x, tasks) && Judged(ended, tasks, activated) && NobodyOverlooked(ended, x, tasks)
    {
      ghost var t := tasks;
      tasks := tasks[x := tasks[x].(status := status, result := result)];
      ghost var u := tasks;
      ghost var order;
      activated, order := ResolveDependents(x);
      if Stable(t) {
        forall y | Overdue(tasks, y) ensures false {
          EndingAffectsDependents(t, u, x, y);
        }
      }
    }

    /** Adds the records of a revision, then looks at the dependents of each prerequisite they name. The follow-ups are
        the tasks that became queued, whether they were added that way or had waited. */
    method InsertRevision(records: Table, recordIds: seq<Id>, prerequisites: seq<Id>) returns (grown: RunTasks, followUps: set<Id>)
      requires Valid() && Addable(tasks, records)
      requires Distinct(recordIds) && (forall x :: x in records <==> x in recordIds)
      requires forall x, p :: x in records && p in records[x].dependencies ==> p in prerequisites
      ensures grown.Valid() && fresh(grown) && Passes(tasks + records, prerequisites, grown.tasks)
      ensures Stable(tasks) ==> Stable(grown.tasks)
      ensures NewlyQueued(tasks, grown.tasks, followUps)
    {
      IdsAdded(ids, recordIds, tasks, records);
      grown := new RunTasks(tasks + records, ids + recordIds);
      followUps := set x | x in records && records[x].dependencies == map[];
      NonePassed(tasks, records, prerequisites, followUps);
      for i := 0 to |prerequisites|
        invariant grown.Valid() && fresh(grown)
        invariant Passed(tasks, records, prerequisites, i, grown.tasks, followUps)
      {
        ghost var u := grown.tasks;
        var more;
        ghost var order;
        more, order := grown.ResolveDependents(prerequisites[i]);
        OnePassMore(tasks, records, prerequisites, i, u, followUps, order, grown.tasks, more);
        followUps := followUps + set x | x in more;
      }
      AllPassed(tasks, records, prerequisites, grown.tasks, followUps);
    }

    /** The lease of a task expired. Unlike the other ends of a task, running out of attempts here
        does not look at the dependents. */
    method ReclaimExpiredLease(x: Id, attempt: nat, maxAttempts: nat)
      requires Valid() && x in tasks && tasks[x].status == Leased
      requires 0 < attempt <= maxAttempts
      modifies this
      ensures Valid()
      ensures tasks == old(tasks)[x := old(tasks)[x].(status := if attempt < maxAttempts then RetryScheduled else DeadLettered)]
      ensures old(Stable(tasks)) && attempt < maxAttempts ==> Stable(tasks)
      ensures old(Stable(tasks)) && attempt == maxAttempts ==> (Stable(tasks) <==> DeadLetterIsHarmless(old(tasks), x))
    {
      ghost var t := tasks;
      tasks := tasks[x := tasks[x].(status := if attempt < maxAttempts then RetryScheduled else DeadLettered)];
      if Stable(t) {
        if attempt < maxAttempts {
          forall y ensures !Overdue(tasks, y) {
            RetryAffectsNobody(t, tasks, x, y);
          }
        } else {
          DeadLetterStability(t, tasks, x);
        }
      }
    }
  }

  // ---------------------------------------------------------------- adding a revision

  /** The follow-ups are the queued tasks that were not queued before. */
  ghost predicate NewlyQueued(before: Table, t: Table, followUps: set<Id>) {
    forall x :: x in followUps <==> x in t && t[x].status == Queued && !(x in before && before[x].status == Queued)
  }

  /** Records as a revision inserts them: queued when they wait for nothing. */
  ghost predicate Addable(t: Table, records: Table) {
    && records.Keys !! t.Keys && Fine(t) && Fine(t + records)
    && forall x :: x in records ==> records[x].status == if records[x].dependencies == map[] then Queued else Scheduled
  }

  /** The worklist was run for the first `i` prerequisites. */
  ghost predicate Passed(t: Table, records: Table, prerequisites: seq<Id>, i: nat, u: Table, followUps: set<Id>) {
    && Addable(t, records) && i <= |prerequisites| && Passes(t + records, prerequisites[..i], u)
    && Extends(t + records, u) && NewlyQueued(t, u, followUps)
  }

  lemma NonePassed(t: Table, records: Table, prerequisites: seq<Id>, followUps: set<Id>)
    requires Addable(t, records) && followUps == set x | x in records && records[x].dependencies == map[]
    ensures Passed(t, records, prerequisites, 0, t + records, followUps)
  {
  }

  lemma OnePassMore(
    t: Table, records: Table, prerequisites: seq<Id>, i: nat, u: Table, followUps: set<Id>, order: seq<Id>, v: Table, more: seq<Id>)
    requires i < |prerequisites| && Passed(t, records, prerequisites, i, u, followUps)
    requires Progress(u, order, v, more) && Resolved(u, prerequisites[i], v) && Judged(u, v, more)
    ensures Passed(t, records, prerequisites, i + 1, v, followUps + set x | x in more)
  {
    assert Settles(u, prerequisites[i], v);
    PassesOneMore(t + records, prerequisites, i, u, v);
    ExtendsFurther(t + records, u, v);
    MoreQueued(t, records, u, v, followUps, more);
  }

  lemma MoreQueued(t: Table, records: Table, u: Table, v: Table, followUps: set<Id>, more: seq<Id>)
    requires NewlyQueued(t, u, followUps) && Judged(u, v, more) && Extends(t + records, u) && records.Keys !! t.Keys
    ensures NewlyQueued(t, v, followUps + set x | x in more)
  {
  }

  lemma AllPassed(t: Table, records: Table, prerequisites: seq<Id>, u: Table, followUps: set<Id>)
    requires Passed(t, records, prerequisites, |prerequisites|, u, followUps)
    requires forall x, p :: x in records && p in records[x].dependencies ==> p in prerequisites
    ensures Passes(t + records, prerequisites, u) && (Stable(t) ==> Stable(u))
  {
    assert prerequisites[..|prerequisites|] == prerequisites;
    PassesGrow(t, records, prerequisites, |prerequisites|, u);
    AllPrerequisitesResolved(t, records, prerequisites, u);
  }

  /** Only added tasks are overdue, and none because of the first `i` prerequisites. */
  ghost predicate OverdueAdditions(t: Table, records: Table, prerequisites: seq<Id>, i: nat) {
    && Fine(t) && i <= |prerequisites|
    && (forall x :: Overdue(t, x) ==> x in records && t[x].dependencies == records[x].dependencies)
    && forall x, j :: Overdue(t, x) && 0 <= j < i ==> prerequisites[j] !in t[x].dependencies
  }

  lemma IdsAdded(ids: seq<Id>, recordIds: seq<Id>, t: Table, records: Table)
    requires Distinct(ids) && Distinct(recordIds) && records.Keys !! t.Keys
    requires forall x :: x in t <==> x in ids
    requires forall x :: x in records <==> x in recordIds
    ensures Distinct(ids + recordIds) && forall x :: x in t + records <==> x in ids + recordIds
  {
    forall i, j | 0 <= i < |ids| && 0 <= j < |recordIds| ensures ids[i] != recordIds[j] {
      assert ids[i] in ids && recordIds[j] in recordIds;
    }
  }

  /** The first `i` prerequisites have been looked at. */
  ghost predicate Growing(t: Table, records: Table, prerequisites: seq<Id>, i: nat, u: Table) {
    && Addable(t, records) && Fine(u) && Extends(t + records, u)
    && (Stable(t) ==> OverdueAdditions(u, records, prerequisites, i))
  }

  lemma GrowthStarts(t: Table, records: Table, prerequisites: seq<Id>)
    requires Addable(t, records)
    ensures Growing(t, records, prerequisites, 0, t + records)
  {
    var u := t + records;
    forall x | Stable(t) && x in t ensures !Overdue(u, x) {
      assert forall p :: p in t[x].dependencies ==> u[p] == t[p];
      assert Decision(u, x) == Decision(t, x);
      assert !Overdue(t, x);
    }
  }

  lemma GrowthByOne(
    t: Table, records: Table, prerequisites: seq<Id>, i: nat, u: Table, order: seq<Id>, v: Table, more: seq<Id>)
    requires Growing(t, records, prerequisites, i, u) && i < |prerequisites|
    requires Progress(u, order, v, more) && Resolved(u, prerequisites[i], v)
    ensures Growing(t, records, prerequisites, i + 1, v)
  {
    DerivationIsJustified(u, order);
    ExtendsFurther(t + records, u, v);
    if Stable(t) {
      PrerequisiteResolved(u, v, records, prerequisites, i);
    }
  }

  lemma PassesOneMore(before: Table, prerequisites: seq<Id>, i: nat, u: Table, v: Table)
    requires i < |prerequisites| && Passes(before, prerequisites[..i], u) && Settles(u, prerequisites[i], v)
    ensures Passes(before, prerequisites[..i + 1], v)
  {
    assert prerequisites[..i + 1][..i] == prerequisites[..i];
  }

  lemma {:induction false} PassesGrow(t: Table, records: Table, prerequisites: seq<Id>, i: nat, u: Table)
    requires Addable(t, records) && i <= |prerequisites| && Passes(t + records, prerequisites[..i], u)
    ensures Growing(t, records, prerequisites, i, u)
    decreases i
  {
    if i == 0 {
      GrowthStarts(t, records, prerequisites);
    } else {
      var v, order, activated := LastPass(t + records, prerequisites, i - 1, u);
      PassesGrow(t, records, prerequisites, i - 1, v);
      GrowthByOne(t, records, prerequisites, i - 1, v, order, u, activated);
    }
  }

  lemma LastPass(before: Table, prerequisites: seq<Id>, i: nat, u: Table) returns (v: Table, order: seq<Id>, activated: seq<Id>)
    requires i < |prerequisites| && Passes(before, prerequisites[..i + 1], u)
    ensures Passes(before, prerequisites[..i], v) && Progress(v, order, u, activated) && Resolved(v, prerequisites[i], u)
  {
    assert prerequisites[..i + 1][..i] == prerequisites[..i];
    v :| Passes(before, prerequisites[..i], v) && Settles(v, prerequisites[i], u);
    order, activated :| Progress(v, order, u, activated) && Resolved(v, prerequisites[i], u);
  }

  lemma ExtendsFurther(t: Table, u: Table, v: Table)
    requires Extends(t, u) && Extends(u, v)
    ensures Extends(t, v)
  {
  }

  lemma PrerequisiteResolved(t: Table, u: Table, records: Table, prerequisites: seq<Id>, i: nat)
    requires i < |prerequisites| && OverdueAdditions(t, records, prerequisites, i)
    requires Resolved(t, prerequisites[i], u) && Extends(t, u)
    ensures OverdueAdditions(u, records, prerequisites, i + 1)
  {
    forall x | Overdue(u, x) ensures x in records && u[x].dependencies == records[x].dependencies {
      assert Excused(t, prerequisites[i], x);
    }
    forall x, j | Overdue(u, x) && 0 <= j < i + 1 ensures prerequisites[j] !in u[x].dependencies {
      assert Excused(t, prerequisites[i], x);
    }
  }

  lemma AllPrerequisitesResolved(t: Table, records: Table, prerequisites: seq<Id>, u: Table)
    requires Growing(t, records, prerequisites, |prerequisites|, u)
    requires forall x, p :: x in records && p in records[x].dependencies ==> p in prerequisites
    ensures Stable(t) ==> Stable(u)
  {
    forall x | Stable(t) && x in u && x in records && u[x].dependencies == records[x].dependencies && u[x].dependencies != map[]
      ensures !Overdue(u, x)
    {
      var p :| p in u[x].dependencies;
      assert p in prerequisites;
      var j :| 0 <= j < |prerequisites| && prerequisites[j] == p;
    }
  }

  // ---------------------------------------------------------------- ends that resolve nobody

  /** Ending a task makes nothing overdue but its waiting dependents. */
  lemma EndingAffectsDependents(t: Table, u: Table, x: Id, y: Id)
    requires Fine(t) && x in t && x in u && u == t[x := u[x]] && u[x].dependencies == t[x].dependencies
    requires !Waiting(t, x) && !Waiting(u, x)
    ensures Fine(u)
    ensures Overdue(u, y) && !Overdue(t, y) ==> x in u[y].dependencies
  {
    if Overdue(u, y) && x !in u[y].dependencies {
      assert forall p :: p in t[y].dependencies ==> u[p] == t[p];
      assert Decision(u, y) == Decision(t, y);
    }
  }

  lemma RetryAffectsNobody(t: Table, u: Table, x: Id, y: Id)
    requires Fine(t) && Fine(u) && x in t && t[x].status == Leased
    requires u == t[x := t[x].(status := RetryScheduled)]
    ensures Overdue(u, y) <==> Overdue(t, y)
  {
    if y in t {
      forall p | p in t[y].dependencies
        ensures Satisfied(t[p], t[y].dependencies[p]) == Satisfied(u[p], t[y].dependencies[p])
        ensures Terminal(t[p].status) == Terminal(u[p].status)
      {
      }
    }
  }

  /** Each waiting dependent of `x` still has another unfinished prerequisite, and none of them
      accepts any one prerequisite and asked `x` to be dead-lettered. */
  ghost predicate DeadLetterIsHarmless(t: Table, x: Id)
    requires Fine(t)
  {
    forall y :: Waiting(t, y) && x in t[y].dependencies ==>
      && (exists p :: p in t[y].dependencies && p != x && !Terminal(t[p].status))
      && !(t[y].join.Any? && t[y].dependencies[x] == OnStatus(DeadLettered))
  }

  /** Exactly when dead-lettering a task without resolving its dependents leaves nobody behind. */
  lemma DeadLetterStability(t: Table, u: Table, x: Id)
    requires Fine(t) && Stable(t) && x in t && t[x].status == Leased
    requires u == t[x := t[x].(status := DeadLettered)] && Fine(u)
    ensures Stable(u) <==> DeadLetterIsHarmless(t, x)
  {
    forall y | Waiting(t, y)
      ensures Overdue(u, y) <==>
        x in t[y].dependencies
        && !((exists p :: p in t[y].dependencies && p != x && !Terminal(t[p].status))
             && !(t[y].join.Any? && t[y].dependencies[x] == OnStatus(DeadLettered)))
    {
      DeadLetterOnDependent(t, u, x, y);
    }
    assert forall y :: Waiting(u, y) <==> Waiting(t, y);
  }

  lemma DeadLetterOnDependent(t: Table, u: Table, x: Id, y: Id)
    requires Fine(t) && Stable(t) && x in t && t[x].status == Leased && Waiting(t, y)
    requires u == t[x := t[x].(status := DeadLettered)] && Fine(u)
    ensures Overdue(u, y) <==>
        x in t[y].dependencies
        && !((exists p :: p in t[y].dependencies && p != x && !Terminal(t[p].status))
             && !(t[y].join.Any? && t[y].dependencies[x] == OnStatus(DeadLettered)))
  {
    assert !Overdue(t, y);
    var dependencies := t[y].dependencies;
    EndingAffectsDependents(t, u, x, y);
    if x in dependencies {
      assert !Satisfied(t[x], dependencies[x]) && !Terminal(t[x].status);
      assert Satisfied(u[x], dependencies[x]) <==> dependencies[x] == OnStatus(DeadLettered);
      assert Settled(u, y) <==> !exists p :: p in dependencies && p != x && !Terminal(t[p].status);
      forall p | p in dependencies && p != x ensures Satisfied(u[p], dependencies[p]) ==> Terminal(t[p].status) {
      }
      if t[y].join.Any? {
        assert forall p :: p in dependencies && p != x ==> !Satisfied(t[p], dependencies[p]);
        assert Ready(u, y) <==> Satisfied(u[x], dependencies[x]);
      } else {
        assert Ready(u, y) ==> Settled(u, y);
      }
    }
  }

  /** A settled run of two tasks in which the second waits for the first: dead-lettering the first leaves the second
      overdue, and the run stalls with it waiting although nothing is in flight and no task depends on itself. */
  lemma DeadLetterStrands(a: Id, b: Id)
    requires a != b
    ensures var t: Table := map[a := TaskRow(Leased, P.All, map[], None), b := TaskRow(Scheduled, P.All, map[a := OnSuccess], None)];
            var u := t[a := t[a].(status := DeadLettered)];
            && Fine(t) && Stable(t) && !DeadLetterIsHarmless(t, a)
            && Fine(u) && Overdue(u, b) && Quiescent(u) && !Cyclic(WaitsFor(u)) && !Terminal(u[b].status)
  {
    var t: Table := map[a := TaskRow(Leased, P.All, map[], None), b := TaskRow(Scheduled, P.All, map[a := OnSuccess], None)];
    var u := t[a := t[a].(status := DeadLettered)];
    assert a in t[b].dependencies && t[b].dependencies[a] == OnSuccess;
    assert forall x :: Waiting(t, x) ==> x == b;
    assert !Satisfied(t[a], OnSuccess) && !Terminal(t[a].status);
    assert !Ready(t, b) && !Settled(t, b);
    assert a in u[b].dependencies && !Satisfied(u[a], u[b].dependencies[a]);
    assert !Ready(u, b) && Settled(u, b);
    assert Waiting(t, b);
    assert TopologicalOrder(WaitsFor(u), [a, b]) by {
      assert forall x, y :: Edge(WaitsFor(u), x, y) ==> x == b && y == a;
      assert [a, b][..1] == [a];
    }
    AcyclicIffOrdered(WaitsFor(u));
  }

  // ---------------------------------------------------------------- no run gets stuck

  ghost function WaitsFor(t: Table): Digraph<Id> {
    map x | x in t :: t[x].dependencies.Keys
  }

  /** Nothing is queued, leased or awaiting a retry. */
  ghost predicate Quiescent(t: Table) {
    forall x :: x in t ==> Terminal(t[x].status) || Waiting(t, x)
  }

  lemma {:induction false} EarlierTasksEnded(t: Table, order: seq<Id>, n: nat)
    requires Fine(t) && Stable(t) && Quiescent(t) && TopologicalOrder(WaitsFor(t), order)
    requires n <= |order|
    ensures forall i :: 0 <= i < n ==> Terminal(t[order[i]].status)
  {
    if n > 0 {
      EarlierTasksEnded(t, order, n - 1);
      var x := order[n - 1];
      assert !Overdue(t, x);
      forall p | p in t[x].dependencies ensures Terminal(t[p].status) {
        assert Edge(WaitsFor(t), x, p);
        var i :| 0 <= i < n - 1 && order[i] == p;
      }
      assert Settled(t, x);
    }
  }

  /** Without a dependency cycle, a run with no work in flight and nothing overdue has ended every task. */
  lemma NoTaskIsStranded(t: Table)
    requires Fine(t) && Stable(t) && Quiescent(t) && !Cyclic(WaitsFor(t))
    ensures forall x :: x in t ==> Terminal(t[x].status)
  {
    assert Closed(WaitsFor(t));
    AcyclicIffOrdered(WaitsFor(t));
    var order :| TopologicalOrder(WaitsFor(t), order);
    EarlierTasksEnded(t, order, |order|);
    forall x | x in t ensures Terminal(t[x].status) {
      assert x in WaitsFor(t);
      var i :| 0 <= i < |order| && order[i] == x;
    }
  }

  /** The table holds the records of the ledger, in whatever state they have reached. */
  ghost predicate Holds(t: Table, ledger: seq<InitialTask>) {
    && t.Keys == TaskIds(ledger)
    && forall r :: r in ledger ==> r.taskId in t && t[r.taskId].dependencies.Keys == Prerequisites(r)
  }

  lemma HeldGraph(t: Table, ledger: seq<InitialTask>)
    requires Holds(t, ledger)
    ensures WaitsFor(t) == IdGraph(ledger)
  {
    forall x | x in t ensures WaitsFor(t)[x] == IdGraph(ledger)[x] {
      assert ledger[RecordIndex(ledger, x)] in ledger;
    }
  }

  /** A settled run built by any chain of accepted revisions cannot stall on its dependencies. */
  lemma SettledRunsNeverStall(history: seq<Revision>, run: RunId, runInput: string, t: Table)
    requires AcceptedHistory(history) && Holds(t, Ledger(history, run, runInput))
    requires Fine(t) && Stable(t) && Quiescent(t)
    ensures forall x :: x in t ==> Terminal(t[x].status)
  {
    var ledger := Ledger(history, run, runInput);
    LedgerIsSchedulable(history, run, runInput);
    AcyclicIffOrdered(IdGraph(ledger));
    HeldGraph(t, ledger);
    NoTaskIsStranded(t);
  }

  /** The validator's ban on cycles is needed: two tasks that wait for each other stall a quiescent run. */
  lemma CycleStalls(a: Id, b: Id)
    requires a != b
    ensures var t := map[a := TaskRow(Scheduled, P.All, map[b := OnSuccess], None), b := TaskRow(Scheduled, P.All, map[a := OnSuccess], None)];
            Fine(t) && Stable(t) && Quiescent(t) && Cyclic(WaitsFor(t)) && Waiting(t, a)
  {
    var t: Table := map[a := TaskRow(Scheduled, P.All, map[b := OnSuccess], None), b := TaskRow(Scheduled, P.All, map[a := OnSuccess], None)];
    assert b in t[a].dependencies && a in t[b].dependencies;
    assert Walk(WaitsFor(t), [a, b, a], a, a);
    assert Reaches(WaitsFor(t), a, a);
  }
}
