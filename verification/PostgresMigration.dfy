/** The PostgreSQL driver of the migration machine (crates/store-postgres/src/migration_executor.rs). */
module PostgresMigration {
  import opened Prelude
  import opened MigrationManifest
  import opened MigrationAssessment
  import opened MigrationMachine
  import opened MigrationJournal

  /** The error code that the journal and the failure keep. */
  function StableErrorCode(error: DriverError): string {
    match error
    case DatabaseError(sqlState) => if sqlState.None? then "PG_CONNECTION" else "PG_" + sqlState.value
    case SchemaVerification(_, _) => "SCHEMA_VERIFICATION"
    case _ => "MIGRATION_INVALID"
  }

  // ---------------------------------------------------------------- bootstrap

  /** The journal table and its first row appear together or not at all. */
  ghost predicate Bootstrapped(provider: string, candidates: seq<Candidate>, p: Position, after: Database, a: Answer<bool>)
    requires candidates != []
  {
    && (p.k > 0 || Wedged(p.db) ==> after == p.db)
    && (after == p.db || Holds(provider, candidates, Position(after, 1, None)))
    && (Wedged(after) ==> Wedged(p.db))
    && (a.Fine? ==> !Wedged(after) && (a.value <==> p.k == 0) && (p.k == 0 ==> Holds(provider, candidates, Position(after, 1, None))))
    && (a.Refusal? && !Wedged(p.db) ==> a.error.DatabaseError? || (p.k == 0 && a.error.SchemaVerification?))
    && (a.Refusal? && Wedged(p.db) ==> a.error.DatabaseError? || a.error.BootstrapHistoryMissing?)
  }

  /** One transaction: create the table, check it, insert the first row, commit. */
  method BootstrapJournal(s: Session, candidates: seq<Candidate>, ghost p: Position) returns (a: Answer<bool>)
    requires Embedded(s.provider, candidates) && Holds(s.provider, candidates, p) && p.db == s.db
    modifies s
    ensures Bootstrapped(s.provider, candidates, p, s.db, a)
    ensures old(s.disturbed) ==> s.disturbed
    ensures !s.disturbed && s.Sufficient(candidates) && !Wedged(p.db) ==> a.Fine?
    ensures !s.disturbed && p.k > 0 ==> a.Fine?
  {
    FirstRowPresent(s.provider, candidates, p);
    var probe := s.Query();
    if !probe.Fine? {
      return if probe.Crashed? then Crashed else Refusal(probe.error);
    }
    if JournalTable in s.db.tables {
      probe := s.Query();
      if !probe.Fine? {
        return if probe.Crashed? then Crashed else Refusal(probe.error);
      }
      return if BootstrapId in s.db.rows then Fine(false) else Refusal(BootstrapHistoryMissing);
    }
    FindsBootstrap(candidates);
    var found := Find(candidates, BootstrapId);
    if found.None? {
      return Refusal(BootstrapCandidateMissing);
    }
    a := BootstrapTransaction(s, candidates, found.value, p);
  }

  method BootstrapTransaction(s: Session, candidates: seq<Candidate>, bootstrap: Candidate, ghost p: Position) returns (a: Answer<bool>)
    requires Embedded(s.provider, candidates) && Holds(s.provider, candidates, p) && p.db == s.db
    requires bootstrap == candidates[0] && p.k == 0 && JournalTable !in s.db.tables
    modifies s
    ensures Bootstrapped(s.provider, candidates, p, s.db, a)
    ensures old(s.disturbed) ==> s.disturbed
    ensures !s.disturbed && s.Sufficient(candidates) && !Wedged(p.db) ==> a.Fine?
    ensures JournalTable in s.Creates(bootstrap) ==> (s.db != p.db <==> Commits(old(s.script), 4))
  {
    var staged := s.db.tables + (set t | t in s.Creates(bootstrap));
    var step := StageBootstrap(s, bootstrap, staged);
    if step.Fine? {
      OneStatementLess(s.script, 0);
      BootstrapRow(s.provider, candidates, s.db, staged);
      assert s.db.tables + staged == staged;
      step := s.Perform(WithRow(s.db.(tables := staged), s.provider, bootstrap, Applied));
    }
    match step {
      case Fine(_) => a := Fine(true);
      case Refusal(error) => a := Refusal(error);
      case Crashed => a := Crashed;
    }
  }

  /** The statements of the transaction before its commit: begin, create, look up the table, insert the row. */
  method StageBootstrap(s: Session, bootstrap: Candidate, staged: set<string>) returns (step: Answer<()>)
    requires bootstrap.descriptor.createdTables == [JournalTable]
    modifies s
    ensures s.db == old(s.db) && (old(s.disturbed) ==> s.disturbed)
    ensures step.Fine? ==> JournalTable in staged && (Commits(old(s.script), 4) <==> Commits(s.script, 0))
    ensures step.Refusal? ==> step.error.DatabaseError? || step.error.SchemaVerification?
    ensures JournalTable in staged ==> (!s.disturbed ==> step.Fine?) && (!step.Fine? ==> !Commits(old(s.script), 4))
  {
    OneStatementLess(s.script, 4);
    step := s.Query();
    if step.Fine? {
      OneStatementLess(s.script, 3);
      step := s.Query();
    }
    if step.Fine? {
      OneStatementLess(s.script, 2);
      step := s.VerifyTables(bootstrap, staged);
    }
    if step.Fine? {
      OneStatementLess(s.script, 1);
      step := s.Query();
    }
  }

  // ---------------------------------------------------------------- driving the machine

  /** How far the journal is, given the machine's phase. */
  ghost predicate Fits(base: nat, n: nat, s: State, k: nat, dirty: Option<MigrationState>) {
    var at := base + s.index;
    match s.phase
    case Succeeded => k == n && dirty.None?
    case Failed => base <= k
    case Doing(step) =>
      match step
      case AcquireLock => k == at && dirty.None?
      case StartJournal => k == at && dirty.None?
      case ExecuteSql => k == at && dirty == Some(Applying)
      case VerifySchema => k == at && dirty == Some(Applying)
      case MarkApplied => k == at && dirty == Some(Applying)
      case MarkFailed => (k == at && (dirty.None? || dirty == Some(Applying))) || (k == at + 1 && dirty.None?)
      case ReleaseLock => base <= k && (s.failure.None? ==> k == n && dirty.None?)
  }

  ghost predicate Coupled(provider: string, candidates: seq<Candidate>, base: nat, s: State, p: Position) {
    && 0 < base <= p.k && Legal(s) && base <= |candidates| && s.pending == candidates[base..]
    && Holds(provider, candidates, p) && Fits(base, |candidates|, s, p.k, p.dirty)
    && (s.phase == Doing(MarkApplied) && p.k < |candidates| ==>
          forall t :: t in candidates[p.k].descriptor.createdTables ==> t in p.db.tables)
  }

  /** The effect of each kind of action on the database. */
  ghost predicate Effect(provider: string, action: Action, before: Database, after: Database, a: Answer<()>) {
    match action.step
    case AcquireLock => after == before && a == Fine(())
    case ReleaseLock => after == before && a == Fine(())
    case step =>
      action.candidate.Some? &&
      var c := action.candidate.value;
      match step
      case StartJournal =>
        Attempted(before, if JournalTable in before.tables && Id(c) !in before.rows then Some(WithRow(before, provider, c, Applying)) else None, after, a)
      case ExecuteSql => before.tables <= after.tables && after == before.(tables := after.tables)
      case VerifySchema => after == before && (a.Fine? ==> forall t :: t in c.descriptor.createdTables ==> t in before.tables)
      case MarkApplied => Attempted(before, Closed(before, c, Applied), after, a)
      case _ => Attempted(before, Closed(before, c, MigrationState.Failed), after, a)
  }

  ghost function Closed(db: Database, c: Candidate, state: MigrationState): Option<Database> {
    if Id(c) in db.rows && db.rows[Id(c)].state == Applying
    then Some(db.(rows := db.rows[Id(c) := db.rows[Id(c)].(state := state)])) else None
  }

  ghost predicate Moved(
    provider: string, candidates: seq<Candidate>, base: nat, s: State, p: Position, after: Database, a: Answer<()>, q: Position)
    requires Legal(s) && s.phase.Doing?
  {
    && q.db == after && p.k <= q.k && Holds(provider, candidates, q)
    && (a.Fine? ==> Coupled(provider, candidates, base, AfterSuccess(s), q))
    && (a.Refusal? ==> forall code :: Coupled(provider, candidates, base, AfterFailure(s, code), q))
  }

  lemma RowStarted(provider: string, candidates: seq<Candidate>, p: Position, after: Database, a: Answer<()>) returns (q: Position)
    requires Embedded(provider, candidates) && Holds(provider, candidates, p) && 0 < p.k < |candidates| && p.dirty.None?
    requires JournalTable in p.db.tables
    requires Attempted(p.db, if Id(candidates[p.k]) !in p.db.rows then Some(WithRow(p.db, provider, candidates[p.k], Applying)) else None, after, a)
    ensures q.db == after && q.k == p.k && Holds(provider, candidates, q)
    ensures q.dirty.None? || q.dirty == Some(Applying)
    ensures a.Fine? ==> q.dirty == Some(Applying)
  {
    StartDirties(provider, candidates, p.db, p.k);
    q := if after == p.db then p else Position(after, p.k, Some(Applying));
  }

  lemma RowApplied(provider: string, candidates: seq<Candidate>, p: Position, after: Database, a: Answer<()>) returns (q: Position)
    requires Embedded(provider, candidates) && Holds(provider, candidates, p) && p.dirty == Some(Applying)
    requires forall t :: t in candidates[p.k].descriptor.createdTables ==> t in p.db.tables
    requires Attempted(p.db, Closed(p.db, candidates[p.k], Applied), after, a)
    ensures q.db == after && Holds(provider, candidates, q)
    ensures (!a.Fine? && q.k == p.k && q.dirty == p.dirty) || (q.k == p.k + 1 && q.dirty.None?)
  {
    MarkCloses(provider, candidates, p.db, p.k, Applied);
    q := if after == p.db && !a.Fine? then p else Position(after, p.k + 1, None);
  }

  lemma RowFailed(provider: string, candidates: seq<Candidate>, p: Position, c: Candidate, after: Database, a: Answer<()>) returns (q: Position)
    requires Embedded(provider, candidates) && Holds(provider, candidates, p)
    requires p.dirty.None? || (p.dirty == Some(Applying) && c == candidates[p.k])
    requires p.dirty.None? ==> c in candidates
    requires Attempted(p.db, Closed(p.db, c, MigrationState.Failed), after, a)
    ensures q.db == after && q.k == p.k && Holds(provider, candidates, q)
  {
    if p.dirty == Some(Applying) {
      MarkCloses(provider, candidates, p.db, p.k, MigrationState.Failed);
      q := if after == p.db then p else Position(after, p.k, Some(MigrationState.Failed));
    } else {
      q := p;
    }
  }

  lemma MovedBy(
    provider: string, candidates: seq<Candidate>, base: nat, s: State, p: Position, after: Database, a: Answer<()>, q: Position)
    requires Coupled(provider, candidates, base, s, p) && s.phase.Doing?
    requires q.db == after && p.k <= q.k && Holds(provider, candidates, q)
    requires a.Fine? ==> Fits(base, |candidates|, AfterSuccess(s), q.k, q.dirty)
    requires a.Refusal? ==> forall code :: Fits(base, |candidates|, AfterFailure(s, code), q.k, q.dirty)
    requires s.phase == Doing(VerifySchema) && a.Fine? && q.k < |candidates| ==>
               forall t :: t in candidates[q.k].descriptor.createdTables ==> t in q.db.tables
    ensures Moved(provider, candidates, base, s, p, after, a, q)
  {
  }

  /** Where the journal stands after an action, whatever became of it. */
  lemma ActionMoves(
    provider: string, candidates: seq<Candidate>, base: nat, s: State, p: Position, after: Database, a: Answer<()>)
    returns (q: Position)
    requires Embedded(provider, candidates) && Coupled(provider, candidates, base, s, p) && s.phase.Doing?
    requires Effect(provider, Next(s).value, p.db, after, a)
    ensures Moved(provider, candidates, base, s, p, after, a, q)
  {
    match s.phase.step {
      case StartJournal => q := JournalMoves(provider, candidates, base, s, p, after, a);
      case MarkApplied => q := JournalMoves(provider, candidates, base, s, p, after, a);
      case MarkFailed => q := FailureMoves(provider, candidates, base, s, p, after, a);
      case ExecuteSql =>
        TablesMayGrow(provider, candidates, p.db, p.k, p.dirty, after.tables);
        assert p.db.(tables := p.db.tables + after.tables) == after;
        q := Position(after, p.k, p.dirty);
        MovedBy(provider, candidates, base, s, p, after, a, q);
      case _ =>
        q := p;
        MovedBy(provider, candidates, base, s, p, after, a, q);
    }
  }

  lemma JournalMoves(
    provider: string, candidates: seq<Candidate>, base: nat, s: State, p: Position, after: Database, a: Answer<()>)
    returns (q: Position)
    requires Embedded(provider, candidates) && Coupled(provider, candidates, base, s, p)
    requires s.phase == Doing(StartJournal) || s.phase == Doing(MarkApplied)
    requires Effect(provider, Next(s).value, p.db, after, a)
    ensures Moved(provider, candidates, base, s, p, after, a, q)
  {
    FirstRowPresent(provider, candidates, p);
    assert s.pending[s.index] == candidates[base + s.index];
    if s.phase.step.StartJournal? {
      q := RowStarted(provider, candidates, p, after, a);
    } else {
      q := RowApplied(provider, candidates, p, after, a);
    }
    MovedBy(provider, candidates, base, s, p, after, a, q);
  }

  lemma FailureMoves(
    provider: string, candidates: seq<Candidate>, base: nat, s: State, p: Position, after: Database, a: Answer<()>)
    returns (q: Position)
    requires Embedded(provider, candidates) && Coupled(provider, candidates, base, s, p) && s.phase == Doing(MarkFailed)
    requires Effect(provider, Next(s).value, p.db, after, a)
    ensures Moved(provider, candidates, base, s, p, after, a, q)
  {
    assert s.pending[s.index] == candidates[base + s.index];
    q := RowFailed(provider, candidates, p, candidates[base + s.index], after, a);
    MovedBy(provider, candidates, base, s, p, after, a, q);
  }

  /** Executes one migration's SQL in a transaction of its own. */
  method ExecuteSql(s: Session, c: Candidate) returns (a: Answer<()>)
    modifies s
    ensures s.db == old(s.db) || s.db == old(s.db).(tables := old(s.db).tables + (set t | t in s.Creates(c)))
    ensures a.Fine? ==> s.db.tables == old(s.db).tables + (set t | t in s.Creates(c))
    ensures s.db == if Commits(old(s.script), 2) then old(s.db).(tables := old(s.db).tables + (set t | t in s.Creates(c))) else old(s.db)
    ensures (old(s.disturbed) ==> s.disturbed) && (!s.disturbed ==> a.Fine?)
  {
    OneStatementLess(s.script, 2);
    a := s.Query();
    if a.Fine? {
      OneStatementLess(s.script, 1);
      a := s.Query();
    }
    if a.Fine? {
      OneStatementLess(s.script, 0);
      a := s.Perform(s.db.(tables := s.db.tables + (set t | t in s.Creates(c))));
    }
  }

  /** The action succeeds unless its statement is disturbed. */
  ghost predicate Ready(action: Action, db: Database)
    requires LockStep(action.step) <==> action.candidate.None?
  {
    match action.step
    case StartJournal => JournalTable in db.tables && Id(action.candidate.value) !in db.rows
    case VerifySchema => forall t :: t in action.candidate.value.descriptor.createdTables ==> t in db.tables
    case MarkApplied => Id(action.candidate.value) in db.rows && db.rows[Id(action.candidate.value)].state == Applying
    case MarkFailed => false
    case _ => true
  }

  /** The action's statements have something to work on. */
  ghost predicate Possible(action: Action, db: Database)
    requires LockStep(action.step) <==> action.candidate.None?
  {
    match action.step
    case StartJournal => JournalTable in db.tables && Id(action.candidate.value) !in db.rows
    case MarkApplied => Id(action.candidate.value) in db.rows && db.rows[Id(action.candidate.value)].state == Applying
    case MarkFailed => Id(action.candidate.value) in db.rows && db.rows[Id(action.candidate.value)].state == Applying
    case _ => true
  }

  method Execute(s: Session, action: Action) returns (a: Answer<()>)
    requires LockStep(action.step) <==> action.candidate.None?
    modifies s
    ensures Effect(s.provider, action, old(s.db), s.db, a)
    ensures old(s.disturbed) ==> s.disturbed
    ensures !s.disturbed && Ready(action, old(s.db)) ==> a.Fine?
    ensures !s.disturbed && Possible(action, old(s.db)) ==> a.Fine? || (a.Refusal? && action.step.VerifySchema?)
    ensures action.step.ExecuteSql? && a.Fine? ==> forall t :: t in s.Creates(action.candidate.value) ==> t in s.db.tables
  {
    match action.step {
      case AcquireLock => a := Fine(());
      case ReleaseLock => a := Fine(());
      case StartJournal => a := s.StartJournal(action.candidate.value);
      case ExecuteSql => a := ExecuteSql(s, action.candidate.value);
      case VerifySchema => a := s.VerifyTables(action.candidate.value, s.db.tables);
      case MarkApplied => a := s.CloseRow(action.candidate.value, Applied);
      case MarkFailed => a := s.CloseRow(action.candidate.value, MigrationState.Failed);
    }
  }

  ghost function Rank(s: State): nat
    requires Legal(s)
  {
    match s.phase
    case Succeeded => 0
    case Failed => 0
    case Doing(step) =>
      match step
      case AcquireLock => 4 * |s.pending| + 3
      case StartJournal => 4 * (|s.pending| - s.index) + 2
      case ExecuteSql => 4 * (|s.pending| - s.index) + 1
      case VerifySchema => 4 * (|s.pending| - s.index)
      case MarkApplied => 4 * (|s.pending| - s.index) - 1
      case MarkFailed => 2
      case ReleaseLock => 1
  }

  /** Drives the machine to its end. */
  method DriveMachine(s: Session, plan: MigrationPlan, candidates: seq<Candidate>, ghost base: nat)
    returns (a: Answer<()>, ghost q: Position)
    requires Embedded(s.provider, candidates) && 0 < base < |candidates| && plan.pending == candidates[base..]
    requires JournalAt(s.provider, candidates, s.db, base, None)
    modifies s
    ensures q.db == s.db && base <= q.k && Holds(s.provider, candidates, q)
    ensures a.Fine? ==> q.k == |candidates| && q.dirty.None?
    ensures a.Refusal? ==> a.error.Execution?
    ensures old(s.disturbed) ==> s.disturbed
    ensures !s.disturbed && s.Sufficient(candidates) ==> a.Fine?
    ensures !s.disturbed ==> a.Fine? || (a.Refusal? && LacksTable(candidates, a.error, q))
  {
    var machine := new Machine(plan);
    q := Position(s.db, base, None);
    while machine.phase.Doing?
      invariant machine.Valid() && fresh(machine)
      invariant q.db == s.db && Coupled(s.provider, candidates, base, machine.Now(), q)
      invariant old(s.disturbed) ==> s.disturbed
      invariant !s.disturbed && s.Sufficient(candidates) ==> Smooth(machine.Now(), candidates, q)
      invariant !s.disturbed ==> Orderly(machine.Now(), candidates, q)
      decreases Rank(machine.Now())
    {
      a, q := Advance(s, machine, candidates, base, q);
      if a.Crashed? {
        return;
      }
    }
    a := if machine.failure.Some? then Refusal(Execution(machine.failure.value)) else Fine(());
  }

  /** Executes the machine's next action and reports what became of it. */
  method Advance(s: Session, machine: Machine, candidates: seq<Candidate>, ghost base: nat, ghost p: Position)
    returns (a: Answer<()>, ghost q: Position)
    requires machine.Valid() && machine.phase.Doing?
    requires Embedded(s.provider, candidates) && p.db == s.db && Coupled(s.provider, candidates, base, machine.Now(), p)
    modifies s, machine
    ensures machine.Valid() && q.db == s.db && p.k <= q.k && Holds(s.provider, candidates, q)
    ensures !a.Crashed? ==>
              Coupled(s.provider, candidates, base, machine.Now(), q) && Rank(machine.Now()) < Rank(old(machine.Now()))
    ensures old(s.disturbed) ==> s.disturbed
    ensures !s.disturbed && s.Sufficient(candidates) && Smooth(old(machine.Now()), candidates, p) ==>
              !a.Crashed? && Smooth(machine.Now(), candidates, q)
    ensures !s.disturbed && Orderly(old(machine.Now()), candidates, p) ==> !a.Crashed? && Orderly(machine.Now(), candidates, q)
  {
    ghost var now := machine.Now();
    var next := machine.NextAction();
    SmoothIsReady(s.provider, candidates, base, now, p);
    OrderlyIsPossible(s.provider, candidates, base, now, p);
    a := Execute(s, next.value);
    q := ActionMoves(s.provider, candidates, base, now, p, s.db, a);
    StaysOrderly(s.provider, candidates, base, now, p, q, a);
    ReportKeeps(s, candidates, base, now, p, q, a);
    var reported: Result<(), MachineError>;
    match a {
      case Crashed =>
      case Fine(_) => reported := machine.ReportSuccess();
      case Refusal(error) => reported := machine.ReportFailure(StableErrorCode(error));
    }
  }

  /** What either report to the machine keeps. */
  lemma ReportKeeps(session: Session, candidates: seq<Candidate>, base: nat, s: State, p: Position, q: Position, a: Answer<()>)
    requires Coupled(session.provider, candidates, base, s, p) && s.phase.Doing?
    requires Moved(session.provider, candidates, base, s, p, q.db, a, q)
    requires a.Fine? && s.phase == Doing(Step.ExecuteSql) ==>
               forall t :: t in session.Creates(Next(s).value.candidate.value) ==> t in q.db.tables
    ensures forall report :: Rank(AfterReport(s, report)) < Rank(s)
    ensures a.Fine? ==> Coupled(session.provider, candidates, base, AfterReport(s, Success), q)
    ensures a.Refusal? ==> forall code :: Coupled(session.provider, candidates, base, AfterReport(s, Failing(code)), q)
    ensures a.Fine? && session.Sufficient(candidates) && Smooth(s, candidates, p) ==> Smooth(AfterReport(s, Success), candidates, q)
  {
    RankDecreases(s);
    if a.Fine? && session.Sufficient(candidates) && Smooth(s, candidates, p) {
      StaysSmooth(session, candidates, base, s, p, q);
    }
  }

  /** Nothing has failed, and the tables to be verified are there. */
  ghost predicate Smooth(s: State, candidates: seq<Candidate>, p: Position) {
    && s.failure.None?
    && (s.phase == Doing(VerifySchema) && p.k < |candidates| ==>
          forall t :: t in candidates[p.k].descriptor.createdTables ==> t in p.db.tables)
  }

  /** Nothing has failed but, at most, the verification of the candidate whose row is or will be marked failed. */
  ghost predicate Orderly(s: State, candidates: seq<Candidate>, p: Position) {
    s.failure.Some? ==>
      && p.k < |candidates|
      && s.failure.value.failedStep.VerifySchema? && s.failure.value.logicalId == Some(Id(candidates[p.k]))
      && p.dirty == Some(if s.phase == Doing(MarkFailed) then Applying else MigrationState.Failed)
      && (s.phase == Doing(MarkFailed) ==> s.index < |s.pending| && s.pending[s.index] == candidates[p.k])
  }

  lemma OrderlyIsPossible(provider: string, candidates: seq<Candidate>, base: nat, s: State, p: Position)
    requires Embedded(provider, candidates) && Coupled(provider, candidates, base, s, p) && s.phase.Doing?
    ensures Orderly(s, candidates, p) ==> Possible(Next(s).value, p.db)
  {
    FirstRowPresent(provider, candidates, p);
    assert s.index < |s.pending| ==> s.pending[s.index] == candidates[base + s.index];
    if s.phase.step.StartJournal? {
      StartDirties(provider, candidates, p.db, p.k);
    }
  }

  lemma StaysOrderly(
    provider: string, candidates: seq<Candidate>, base: nat, s: State, p: Position, q: Position, a: Answer<()>)
    requires Embedded(provider, candidates) && Coupled(provider, candidates, base, s, p) && s.phase.Doing?
    requires Effect(provider, Next(s).value, p.db, q.db, a) && Moved(provider, candidates, base, s, p, q.db, a, q)
    ensures Orderly(s, candidates, p) && a.Fine? ==> Orderly(AfterSuccess(s), candidates, q)
    ensures Orderly(s, candidates, p) && a.Refusal? && s.phase == Doing(VerifySchema) ==>
              forall code :: Orderly(AfterFailure(s, code), candidates, q)
  {
    assert s.index < |s.pending| ==> s.pending[s.index] == candidates[base + s.index];
    if Orderly(s, candidates, p) && (s.failure.Some? || s.phase == Doing(VerifySchema)) {
      assert p.k < |candidates| && p.dirty.Some?;
      RowTells(provider, candidates, p.k, q);
    }
  }

  lemma SmoothIsReady(provider: string, candidates: seq<Candidate>, base: nat, s: State, p: Position)
    requires Embedded(provider, candidates) && Coupled(provider, candidates, base, s, p) && s.phase.Doing?
    ensures Smooth(s, candidates, p) ==> Ready(Next(s).value, p.db)
  {
    FirstRowPresent(provider, candidates, p);
    assert s.index < |s.pending| ==> s.pending[s.index] == candidates[base + s.index];
    if s.phase.step.StartJournal? {
      StartDirties(provider, candidates, p.db, p.k);
    }
  }

  lemma StaysSmooth(session: Session, candidates: seq<Candidate>, base: nat, s: State, p: Position, q: Position)
    requires Coupled(session.provider, candidates, base, s, p) && s.phase.Doing? && Smooth(s, candidates, p)
    requires Coupled(session.provider, candidates, base, AfterSuccess(s), q) && session.Sufficient(candidates)
    requires s.phase == Doing(Step.ExecuteSql) ==> forall t :: t in session.Creates(Next(s).value.candidate.value) ==> t in q.db.tables
    ensures Smooth(AfterSuccess(s), candidates, q)
  {
    if s.phase == Doing(Step.ExecuteSql) {
      var c := s.pending[s.index];
      assert c == candidates[base + s.index] && c in candidates;
    }
  }

  lemma RankDecreases(s: State)
    requires Legal(s) && s.phase.Doing?
    ensures forall report :: Rank(AfterReport(s, report)) < Rank(s)
  {
  }

  // ---------------------------------------------------------------- one run

  method MigrateLocked(s: Session, candidates: seq<Candidate>, ghost p: Position)
    returns (a: Answer<MigrationReport>, ghost q: Position)
    requires Embedded(s.provider, candidates) && Holds(s.provider, candidates, p) && p.db == s.db
    requires s.lock.held
    modifies s
    ensures q.db == s.db && Ran(s.provider, candidates, p, q, a)
    ensures Wedged(q.db) ==> Wedged(p.db)
    ensures old(s.disturbed) ==> s.disturbed
    ensures !s.disturbed && s.Sufficient(candidates) && p.dirty.None? && !Wedged(p.db) ==> a.Fine?
    ensures !s.disturbed && p.k > 0 && p.dirty.None? ==> a.Fine? || (a.Refusal? && LacksTable(candidates, a.error, q))
  {
    FirstRowPresent(s.provider, candidates, p);
    var bootstrapped := BootstrapJournal(s, candidates, p);
    q := if s.db == p.db then p else Position(s.db, 1, None);
    if !bootstrapped.Fine? {
      return if bootstrapped.Crashed? then Crashed else Refusal(bootstrapped.error), q;
    }
    a, q := ApplyRest(s, candidates, p.k, q, bootstrapped.value);
    FirstRowPresent(s.provider, candidates, q);
  }

  /** Assesses the journal and drives the machine over what is left, if anything is. */
  method ApplyRest(s: Session, candidates: seq<Candidate>, ghost base: nat, ghost p: Position, bootstrapped: bool)
    returns (a: Answer<MigrationReport>, ghost q: Position)
    requires Embedded(s.provider, candidates) && Holds(s.provider, candidates, p) && p.db == s.db
    requires p.k > 0 && base == if bootstrapped then 0 else p.k
    requires bootstrapped ==> p.k == 1 && p.dirty.None?
    modifies s
    ensures q.db == s.db && p.k <= q.k && Holds(s.provider, candidates, q)
    ensures a.Fine? ==>
              && q.k == |candidates| && q.dirty.None?
              && a.value == MigrationReport(
                              PlanAfter(candidates, base).currentModelVersion, PlanAfter(candidates, base).targetModelVersion,
                              Ids(candidates[base..]))
    ensures p.dirty.Some? ==>
              && q == p && !a.Fine?
              && (a.Refusal? ==> a.error.DatabaseError? || a.error == Assessment(DirtyMigration(Id(candidates[p.k]), p.dirty.value)))
    ensures !(p.dirty.None? && a.Refusal? && a.error.Assessment?)
    ensures old(s.disturbed) ==> s.disturbed
    ensures !s.disturbed && s.Sufficient(candidates) && p.dirty.None? ==> a.Fine?
    ensures !s.disturbed && p.dirty.None? ==> a.Fine? || (a.Refusal? && LacksTable(candidates, a.error, q))
  {
    q := p;
    var assessed := PlanRest(s, candidates, p);
    if !assessed.Fine? {
      return if assessed.Crashed? then Crashed else Refusal(assessed.error), q;
    }
    var plan := assessed.value;
    var previous := if bootstrapped then 0 else plan.currentModelVersion;
    var applied := (if bootstrapped then [BootstrapId] else []) + Ids(plan.pending);
    ReportedIds(candidates, base, bootstrapped);
    var driven;
    driven, q := DriveRest(s, plan, candidates, p);
    match driven {
      case Crashed => a := Crashed;
      case Refusal(error) => a := Refusal(error);
      case Fine(_) => a := Fine(MigrationReport(previous, plan.targetModelVersion, applied));
    }
  }

  /** The machine is needed only if something is pending. */
  method DriveRest(s: Session, plan: MigrationPlan, candidates: seq<Candidate>, ghost p: Position)
    returns (a: Answer<()>, ghost q: Position)
    requires Embedded(s.provider, candidates) && Holds(s.provider, candidates, p) && p.db == s.db
    requires p.k > 0 && p.dirty.None? && plan.pending == candidates[p.k..]
    modifies s
    ensures q.db == s.db && p.k <= q.k && Holds(s.provider, candidates, q)
    ensures a.Fine? ==> q.k == |candidates| && q.dirty.None?
    ensures a.Refusal? ==> a.error.Execution?
    ensures old(s.disturbed) ==> s.disturbed
    ensures !s.disturbed && s.Sufficient(candidates) ==> a.Fine?
    ensures !s.disturbed ==> a.Fine? || (a.Refusal? && LacksTable(candidates, a.error, q))
  {
    a, q := Fine(()), p;
    if plan.pending != [] {
      a, q := DriveMachine(s, plan, candidates, p.k);
    }
  }

  /** A whole run under the advisory lock. Releasing the lock can still turn a finished migration into an error. */
  method Migrate(s: Session, candidates: seq<Candidate>, ghost p: Position)
    returns (a: Answer<MigrationReport>, ghost q: Position)
    requires Embedded(s.provider, candidates) && Holds(s.provider, candidates, p) && p.db == s.db
    modifies s, s.lock
    ensures q.db == s.db && Ran(s.provider, candidates, p, q, a)
    ensures Wedged(q.db) ==> Wedged(p.db)
    ensures a.Fine? || (!a.Crashed? && !s.disturbed) ==> !s.lock.held
    ensures s.db != p.db ==> OutcomeAt(old(s.script), 0).Done? && OutcomeAt(old(s.script), 1).Done?
    ensures !s.disturbed && s.Sufficient(candidates) && p.dirty.None? && !Wedged(p.db) ==> a.Fine?
    ensures !s.disturbed && p.k > 0 && p.dirty.None? ==> a.Fine? || (a.Refusal? && LacksTable(candidates, a.error, q))
  {
    q := p;
    var step := s.Query();
    if step.Fine? {
      step := s.AcquireLock();
    }
    if !step.Fine? {
      RunsCutShort(s.provider, candidates, p, p, Crashed, step);
      return Ended(step), q;
    }
    a, q := MigrateLocked(s, candidates, p);
    if a.Crashed? {
      return;
    }
    ghost var report, end := a, step;
    a, end := EndRun(s, a);
    if a != report {
      RunsCutShort(s.provider, candidates, p, q, report, end);
    }
  }
}
