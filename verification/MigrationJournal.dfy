/** The migration journal as the database holds it, statements that can be refused, lost or cut off, and what
    a later assessment makes of the rows that are left (crates/store-postgres/src/migration_executor.rs,
    crates/store-mysql/src/migration_executor.rs). */
module MigrationJournal {
  import opened Prelude
  import opened Text
  import opened MigrationManifest
  import opened MigrationAssessment
  import opened MigrationMachine

  const JournalTable := "schema_migrations"
  const BootstrapId := "0000_migration_meta"

  type Rows = map<string, JournalEntry>

  /** The tables that exist, and the rows of the journal table. */
  datatype Database = Database(tables: set<string>, rows: Rows)

  /** How one statement ends: it takes effect and answers, is refused, takes effect although its answer
      is lost, or the process dies before or after the effect. */
  datatype Outcome =
    | Done
    | Refused(sqlState: Option<string>)
    | Lost(sqlState: Option<string>)
    | CrashBefore
    | CrashAfter

  datatype DriverError =
    | DatabaseError(sqlState: Option<string>)
    | Assessment(assessment: AssessmentError)
    | Execution(failure: Failure)
    | BootstrapHistoryMissing
    | BootstrapCandidateMissing
    | InvalidJournalValue(field: string)
    | SchemaVerification(logicalId: string, table: string)

  /** What the driver sees of a statement or of a whole operation. */
  datatype Answer<+T> = Fine(value: T) | Refusal(error: DriverError) | Crashed

  datatype MigrationReport = MigrationReport(previousModelVersion: nat, targetModelVersion: nat, appliedIds: seq<string>)

  predicate TakesEffect(o: Outcome) {
    o.Done? || o.Lost? || o.CrashAfter?
  }

  function AnswerTo(o: Outcome): Answer<()> {
    match o
    case Done => Fine(())
    case Refused(code) => Refusal(DatabaseError(code))
    case Lost(code) => Refusal(DatabaseError(code))
    case CrashBefore => Crashed
    case CrashAfter => Crashed
  }

  /** The outcome of the statement after `i` others; a script that has run out ends in a crash. */
  function OutcomeAt(script: seq<Outcome>, i: nat): Outcome {
    if i < |script| then script[i] else CrashBefore
  }

  function Dropped(script: seq<Outcome>, i: nat): seq<Outcome> {
    if i <= |script| then script[i..] else []
  }

  /** All statements of a transaction went through, and its commit, the last of them, took effect. */
  ghost predicate Commits(script: seq<Outcome>, last: nat) {
    (forall i :: 0 <= i < last ==> OutcomeAt(script, i).Done?) && TakesEffect(OutcomeAt(script, last))
  }

  lemma OneStatementLess(script: seq<Outcome>, last: nat)
    ensures last > 0 && OutcomeAt(script, 0).Done? ==> (Commits(script, last) <==> Commits(Dropped(script, 1), last - 1))
    ensures last > 0 && !OutcomeAt(script, 0).Done? ==> !Commits(script, last)
    ensures Commits(script, 0) <==> TakesEffect(OutcomeAt(script, 0))
  {
    var rest := Dropped(script, 1);
    assert forall i :: 0 <= i ==> OutcomeAt(rest, i) == OutcomeAt(script, i + 1);
    if last > 0 && OutcomeAt(script, 0).Done? && Commits(rest, last - 1) {
      forall i | 0 <= i < last ensures OutcomeAt(script, i).Done? {
        if i > 0 {
          assert OutcomeAt(rest, i - 1).Done?;
        }
      }
    }
  }

  /** The step started from `before`, aimed at `target` (impossible when None) and left `after`. */
  ghost predicate Attempted(before: Database, target: Option<Database>, after: Database, a: Answer<()>) {
    && (a.Refusal? ==> a.error.DatabaseError? || a.error.InvalidJournalValue?)
    && match target
       case None => after == before && !a.Fine?
       case Some(goal) => (a.Fine? ==> after == goal) && (after == before || after == goal)
  }

  // ---------------------------------------------------------------- the journal's invariant

  ghost predicate Embedded(provider: string, candidates: seq<Candidate>) {
    && Usable(provider, candidates) && candidates != []
    && Id(candidates[0]) == BootstrapId
    && candidates[0].descriptor.createdTables == [JournalTable]
  }

  ghost predicate AppliedBelow(provider: string, candidates: seq<Candidate>, db: Database, k: nat)
    requires k <= |candidates|
  {
    forall i :: 0 <= i < k ==>
      && Id(candidates[i]) in db.rows
      && db.rows[Id(candidates[i])] == Entry(provider, candidates[i], Applied)
      && forall t :: t in candidates[i].descriptor.createdTables ==> t in db.tables
  }

  /** Exactly the first `k` candidates are applied and all their tables exist; `dirty` is the state of the
      only other row, which belongs to candidate `k`. */
  ghost predicate JournalAt(
    provider: string, candidates: seq<Candidate>, db: Database, k: nat, dirty: Option<MigrationState>)
  {
    && k <= |candidates|
    && AppliedBelow(provider, candidates, db, k)
    && (dirty.Some? ==>
          0 < k < |candidates| && dirty != Some(Applied)
          && Id(candidates[k]) in db.rows && db.rows[Id(candidates[k])] == Entry(provider, candidates[k], dirty.value))
    && forall id :: id in db.rows ==>
         (exists i :: 0 <= i < k && Id(candidates[i]) == id) || (dirty.Some? && id == Id(candidates[k]))
  }

  /** The journal table exists without the bootstrap row. */
  predicate Wedged(db: Database) {
    JournalTable in db.tables && db.rows == map[]
  }

  function WithRow(db: Database, provider: string, candidate: Candidate, state: MigrationState): Database {
    db.(rows := db.rows[Id(candidate) := Entry(provider, candidate, state)])
  }

  lemma TablesMayGrow(provider: string, candidates: seq<Candidate>, db: Database, k: nat, dirty: Option<MigrationState>, more: set<string>)
    requires JournalAt(provider, candidates, db, k, dirty)
    ensures JournalAt(provider, candidates, db.(tables := db.tables + more), k, dirty)
  {
  }

  lemma BootstrapRow(provider: string, candidates: seq<Candidate>, db: Database, tables: set<string>)
    requires Embedded(provider, candidates) && JournalAt(provider, candidates, db, 0, None)
    requires JournalTable in tables
    ensures db.rows == map[]
    ensures JournalAt(provider, candidates, WithRow(db.(tables := db.tables + tables), provider, candidates[0], Applied), 1, None)
  {
  }

  lemma FindsBootstrap(candidates: seq<Candidate>)
    requires candidates != [] && Id(candidates[0]) == BootstrapId
    ensures Find(candidates, BootstrapId) == Some(candidates[0])
  {
  }

  lemma FirstRowPresent(provider: string, candidates: seq<Candidate>, p: Position)
    requires Embedded(provider, candidates) && Holds(provider, candidates, p)
    ensures BootstrapId in p.db.rows <==> p.k > 0
    ensures p.k > 0 ==> JournalTable in p.db.tables
    ensures p.k == 0 ==> p.db.rows == map[]
  {
    if p.k > 0 {
      assert Id(candidates[0]) in p.db.rows;
      assert JournalTable in candidates[0].descriptor.createdTables;
    }
  }

  /** Starting the journal of the next candidate. */
  lemma StartDirties(provider: string, candidates: seq<Candidate>, db: Database, k: nat)
    requires Embedded(provider, candidates) && JournalAt(provider, candidates, db, k, None) && 0 < k < |candidates|
    ensures Id(candidates[k]) !in db.rows
    ensures JournalAt(provider, candidates, WithRow(db, provider, candidates[k], Applying), k, Some(Applying))
  {
    IdsOrdered(candidates);
  }

  /** Closing the row of the candidate being applied. */
  lemma MarkCloses(provider: string, candidates: seq<Candidate>, db: Database, k: nat, state: MigrationState)
    requires Embedded(provider, candidates) && JournalAt(provider, candidates, db, k, Some(Applying))
    requires state == Applied ==> forall t :: t in candidates[k].descriptor.createdTables ==> t in db.tables
    requires state != Applying
    ensures var after := db.(rows := db.rows[Id(candidates[k]) := db.rows[Id(candidates[k])].(state := state)]);
            && after == WithRow(db, provider, candidates[k], state)
            && if state == Applied then JournalAt(provider, candidates, after, k + 1, None)
               else JournalAt(provider, candidates, after, k, Some(state))
  {
    IdsOrdered(candidates);
    var after := WithRow(db, provider, candidates[k], state);
    forall id | id in after.rows && id != Id(candidates[k]) ensures exists i :: 0 <= i < k && Id(candidates[i]) == id {
      assert id in db.rows;
    }
  }

  // ---------------------------------------------------------------- reassessing what is left

  /** `history` lists every row once, in any order. */
  ghost predicate Lists(rows: Rows, history: seq<JournalEntry>) {
    && (forall i :: 0 <= i < |history| ==> history[i].logicalId in rows && rows[history[i].logicalId] == history[i])
    && (forall i, j :: 0 <= i < j < |history| ==> history[i].logicalId != history[j].logicalId)
    && forall id :: id in rows ==> HasRow(history, id)
  }

  /** `row` is the journal's row for candidate `j`. */
  ghost predicate RowFor(
    provider: string, candidates: seq<Candidate>, k: nat, dirty: Option<MigrationState>, row: JournalEntry, j: nat)
  {
    && j < |candidates|
    && ((j < k && row == Entry(provider, candidates[j], Applied))
        || (j == k && dirty.Some? && row == Entry(provider, candidates[j], dirty.value)))
  }

  lemma ListedRow(
    provider: string, candidates: seq<Candidate>, db: Database, k: nat, dirty: Option<MigrationState>, row: JournalEntry)
    returns (j: nat)
    requires JournalAt(provider, candidates, db, k, dirty)
    requires row.logicalId in db.rows && db.rows[row.logicalId] == row
    ensures RowFor(provider, candidates, k, dirty, row, j)
  {
    if i :| 0 <= i < k && Id(candidates[i]) == row.logicalId {
      j := i;
    } else {
      j := k;
    }
  }

  lemma ListedCandidates(
    provider: string, candidates: seq<Candidate>, db: Database, k: nat, dirty: Option<MigrationState>, history: seq<JournalEntry>)
    requires Embedded(provider, candidates) && JournalAt(provider, candidates, db, k, dirty) && Lists(db.rows, history)
    ensures forall i :: 0 <= i < |candidates| ==>
              (HasRow(history, Id(candidates[i])) <==> i < k || (i == k && dirty.Some?))
  {
    IdsOrdered(candidates);
  }

  /** A clean journal is assessed as its remaining suffix, a dirty one as exactly its dirty candidate. */
  lemma RestartIsExact(
    provider: string, candidates: seq<Candidate>, db: Database, k: nat, dirty: Option<MigrationState>,
    history: seq<JournalEntry>, r: Result<MigrationPlan, AssessmentError>)
    requires Embedded(provider, candidates) && JournalAt(provider, candidates, db, k, dirty)
    requires Lists(db.rows, history) && Assessed(provider, candidates, history, r)
    ensures r == match dirty
                 case None => Ok(PlanAfter(candidates, k))
                 case Some(state) => Err(DirtyMigration(Id(candidates[k]), state))
  {
    ListedCandidates(provider, candidates, db, k, dirty, history);
    if dirty.None? {
      forall i | 0 <= i < |history| ensures CleanRow(provider, candidates, history[i]) {
        var j := ListedRow(provider, candidates, db, k, dirty, history[i]);
        assert candidates[j] in candidates;
      }
      CleanPrefixCompletes(provider, candidates, history, k);
      PlanIsDetermined(provider, candidates, history, r, k);
    } else {
      DirtyIsReported(provider, candidates, db, k, dirty.value, history, r);
    }
  }

  lemma DirtyIsReported(
    provider: string, candidates: seq<Candidate>, db: Database, k: nat, state: MigrationState,
    history: seq<JournalEntry>, r: Result<MigrationPlan, AssessmentError>)
    requires Embedded(provider, candidates) && JournalAt(provider, candidates, db, k, Some(state))
    requires Lists(db.rows, history) && Assessed(provider, candidates, history, r)
    ensures r == Err(DirtyMigration(Id(candidates[k]), state))
  {
    ListedCandidates(provider, candidates, db, k, Some(state), history);
    IdsOrdered(candidates);
    var d :| 0 <= d < |history| && history[d].logicalId == Id(candidates[k]);
    assert history[d].state != Applied;
    assert !CleanRow(provider, candidates, history[d]);
    forall n: nat ensures !Completed(provider, candidates, history, n) {
      if n <= |candidates| && Completed(provider, candidates, history, n) {
        CompletedIsClean(provider, candidates, history, n);
      }
    }
    if r.Err? && !r.error.EmptyProviderKind? && !r.error.InvalidManifest? && !r.error.HistoryGap? {
      var i :| 0 <= i < |history| && RowFault(provider, candidates, history, i, r.error);
      OnlyFaultIsDirty(provider, candidates, db, k, state, history, i, r.error);
    }
  }

  lemma OnlyFaultIsDirty(
    provider: string, candidates: seq<Candidate>, db: Database, k: nat, state: MigrationState,
    history: seq<JournalEntry>, i: nat, error: AssessmentError)
    requires Embedded(provider, candidates) && JournalAt(provider, candidates, db, k, Some(state))
    requires Lists(db.rows, history) && i < |history| && RowFault(provider, candidates, history, i, error)
    ensures error == DirtyMigration(Id(candidates[k]), state)
  {
    IdsOrdered(candidates);
    var j := ListedRow(provider, candidates, db, k, Some(state), history[i]);
    assert candidates[j] in candidates;
    assert forall c :: c in candidates && Id(c) == Id(candidates[j]) ==> c == candidates[j];
    assert forall l :: 0 <= l < i ==> history[..i][l] == history[l];
  }

  // ---------------------------------------------------------------- many runs

  function Ids(candidates: seq<Candidate>): seq<string> {
    seq(|candidates|, i requires 0 <= i < |candidates| => Id(candidates[i]))
  }

  lemma ReportedIds(candidates: seq<Candidate>, k: nat, bootstrapped: bool)
    requires k <= |candidates| && candidates != [] && Id(candidates[0]) == BootstrapId && (bootstrapped <==> k == 0)
    ensures Ids(candidates[k..]) == (if bootstrapped then [BootstrapId] + Ids(candidates[1..]) else Ids(candidates[k..]))
  {
    if bootstrapped {
      assert candidates[0..] == [candidates[0]] + candidates[1..];
    }
  }

  /** Where a run found the database and where it left it. */
  datatype Position = Position(db: Database, k: nat, dirty: Option<MigrationState>)

  ghost predicate Holds(provider: string, candidates: seq<Candidate>, p: Position) {
    JournalAt(provider, candidates, p.db, p.k, p.dirty)
  }

  /** What every run of either driver guarantees, however its statements end. */
  ghost predicate Ran(provider: string, candidates: seq<Candidate>, p: Position, q: Position, a: Answer<MigrationReport>) {
    && Holds(provider, candidates, p) && Holds(provider, candidates, q) && candidates != []
    && p.k <= q.k
    && (a.Fine? ==>
          && q.k == |candidates| && q.dirty.None?
          && a.value == MigrationReport(
                          PlanAfter(candidates, p.k).currentModelVersion,
                          PlanAfter(candidates, p.k).targetModelVersion,
                          Ids(candidates[p.k..])))
    && (p.dirty.Some? ==>
          && q == p && !a.Fine?
          && (a.Refusal? ==>
                a.error.DatabaseError? || a.error == Assessment(DirtyMigration(Id(candidates[p.k]), p.dirty.value))))
    && (Wedged(p.db) ==>
          q == p && !a.Fine? && (a.Refusal? ==> a.error.DatabaseError? || a.error.BootstrapHistoryMissing?))
    && !(p.dirty.None? && a.Refusal? && a.error.Assessment?)
  }

  /** The run gave up at a candidate that lacks a table, and the candidate's row says that it failed. */
  ghost predicate LacksTable(candidates: seq<Candidate>, error: DriverError, q: Position) {
    && q.k < |candidates| && q.dirty == Some(MigrationState.Failed)
    && if error.Execution?
       then error.failure.failedStep.VerifySchema? && error.failure.logicalId == Some(Id(candidates[q.k]))
       else error.SchemaVerification? && error.logicalId == Id(candidates[q.k])
  }

  /** A row that is not applied tells how far the journal is. */
  lemma RowTells(provider: string, candidates: seq<Candidate>, k: nat, q: Position)
    requires Embedded(provider, candidates) && Holds(provider, candidates, q) && k < |candidates| && k <= q.k
    requires Id(candidates[k]) in q.db.rows && q.db.rows[Id(candidates[k])].state != Applied
    ensures q.k == k && q.dirty == Some(q.db.rows[Id(candidates[k])].state)
  {
    IdsOrdered(candidates);
  }

  /** A run that stops before it begins changes nothing, and one that cannot release its lock has still migrated. */
  lemma RunsCutShort(provider: string, candidates: seq<Candidate>, p: Position, q: Position, a: Answer<MigrationReport>, end: Answer<()>)
    requires Holds(provider, candidates, p) && candidates != [] && !end.Fine? && (end.Refusal? ==> end.error.DatabaseError?)
    ensures Ran(provider, candidates, p, p, Ended(end))
    ensures Ran(provider, candidates, p, q, a) && a.Fine? ==> Ran(provider, candidates, p, q, Ended(end))
  {
  }

  function Ended<T>(end: Answer<()>): Answer<T>
    requires !end.Fine?
  {
    if end.Crashed? then Crashed else Refusal(end.error)
  }

  /** Any number of runs, each starting where the one before stopped: what was applied stays applied, and
      the first dirty row freezes the journal. */
  lemma {:induction false} RunsOnlyAdvance(
    provider: string, candidates: seq<Candidate>, positions: seq<Position>, answers: seq<Answer<MigrationReport>>, i: nat, j: nat)
    requires Embedded(provider, candidates) && |positions| == |answers| + 1
    requires forall n :: 0 <= n < |answers| ==> Ran(provider, candidates, positions[n], positions[n + 1], answers[n])
    requires i <= j < |positions|
    ensures positions[i].k <= positions[j].k
    ensures positions[i].dirty.Some? ==> positions[j] == positions[i]
    ensures Wedged(positions[i].db) ==> positions[j] == positions[i]
    ensures i < j && answers[i].Fine? ==> positions[j].k == |candidates| && positions[j].dirty.None?
    ensures i < j ==> positions[i].k <= |candidates| && AppliedBelow(provider, candidates, positions[j].db, positions[i].k)
    decreases j - i
  {
    if i < j {
      RunsOnlyAdvance(provider, candidates, positions, answers, i, j - 1);
      assert Ran(provider, candidates, positions[j - 1], positions[j], answers[j - 1]);
    }
  }

  // ---------------------------------------------------------------- a session

  /** A connection whose statements end as the script says. `creates` gives, for a migration's SQL text, the
      tables its statements create, in order. */
  /** The lock that keeps other runs out, as the server has it. */
  class MigrationLock {
    var held: bool

    constructor ()
      ensures !held
    {
      held := false;
    }
  }

  class Session {
    var db: Database
    const lock: MigrationLock
    var script: seq<Outcome>
    const provider: string
    const creates: map<string, seq<string>>
    /** Some statement so far did not simply succeed. */
    ghost var disturbed: bool

    constructor (db: Database, script: seq<Outcome>, provider: string, creates: map<string, seq<string>>)
      ensures this.db == db && this.script == script && this.provider == provider && this.creates == creates && !disturbed
      ensures fresh(lock) && !lock.held
    {
      lock := new MigrationLock();
      disturbed := false;
      this.db := db;
      this.script := script;
      this.provider := provider;
      this.creates := creates;
    }

    /** Runs one statement that turns the database into `next`. */
    method Perform(next: Database) returns (a: Answer<()>)
      modifies this
      ensures a == AnswerTo(OutcomeAt(old(script), 0)) && script == Dropped(old(script), 1)
      ensures db == if TakesEffect(OutcomeAt(old(script), 0)) then next else old(db)
      ensures disturbed <==> old(disturbed) || !a.Fine?
    {
      var o := OutcomeAt(script, 0);
      script := Dropped(script, 1);
      a := AnswerTo(o);
      disturbed := disturbed || !o.Done?;
      if TakesEffect(o) {
        db := next;
      }
    }

    /** A statement that changes nothing. */
    method Query() returns (a: Answer<()>)
      modifies this
      ensures a == AnswerTo(OutcomeAt(old(script), 0)) && script == Dropped(old(script), 1)
      ensures db == old(db)
      ensures disturbed <==> old(disturbed) || !a.Fine?
    {
      a := Perform(db);
    }

    /** Takes the lock; the server may have given it although the answer is lost. */
    method AcquireLock() returns (a: Answer<()>)
      modifies this, lock
      ensures a == AnswerTo(OutcomeAt(old(script), 0)) && script == Dropped(old(script), 1) && db == old(db)
      ensures disturbed <==> old(disturbed) || !a.Fine?
      ensures lock.held <==> old(lock.held) || TakesEffect(OutcomeAt(old(script), 0))
    {
      var given := TakesEffect(OutcomeAt(script, 0));
      a := Query();
      lock.held := lock.held || given;
    }

    /** Gives the lock back. */
    method ReleaseLock() returns (a: Answer<()>)
      modifies this, lock
      ensures a == AnswerTo(OutcomeAt(old(script), 0)) && script == Dropped(old(script), 1) && db == old(db)
      ensures disturbed <==> old(disturbed) || !a.Fine?
      ensures lock.held <==> old(lock.held) && !TakesEffect(OutcomeAt(old(script), 0))
    {
      var taken := TakesEffect(OutcomeAt(script, 0));
      a := Query();
      lock.held := lock.held && !taken;
    }

    function Creates(candidate: Candidate): seq<string> {
      if candidate.descriptor.sql in creates then creates[candidate.descriptor.sql] else []
    }

    /** Every candidate's SQL creates the tables that the candidate declares. */
    ghost predicate Sufficient(candidates: seq<Candidate>) {
      forall c, t :: c in candidates && t in c.descriptor.createdTables ==> t in Creates(c)
    }

    /** Inserts the row of a candidate; its id is the primary key. */
    method InsertRow(candidate: Candidate, state: MigrationState) returns (a: Answer<()>)
      modifies this
      ensures Attempted(
                old(db),
                if JournalTable in old(db).tables && Id(candidate) !in old(db).rows
                then Some(WithRow(old(db), provider, candidate, state)) else None,
                db, a)
      ensures JournalTable in old(db).tables && Id(candidate) !in old(db).rows ==>
                && a == AnswerTo(OutcomeAt(old(script), 0))
                && db == if TakesEffect(OutcomeAt(old(script), 0)) then WithRow(old(db), provider, candidate, state) else old(db)
      ensures old(disturbed) ==> disturbed
      ensures JournalTable in old(db).tables && Id(candidate) !in old(db).rows && !disturbed ==> a.Fine?
    {
      if JournalTable in db.tables && Id(candidate) !in db.rows {
        a := Perform(WithRow(db, provider, candidate, state));
      } else {
        a := Query();
        if a.Fine? {
          a := Refusal(DatabaseError(Some(if JournalTable in db.tables then "23505" else "42P01")));
        }
      }
    }

    /** Updates the row of a candidate if it is still being applied. */
    method CloseRow(candidate: Candidate, state: MigrationState) returns (a: Answer<()>)
      modifies this
      ensures Attempted(
                old(db),
                if Id(candidate) in old(db).rows && old(db).rows[Id(candidate)].state == Applying
                then Some(old(db).(rows := old(db).rows[Id(candidate) := old(db).rows[Id(candidate)].(state := state)])) else None,
                db, a)
      ensures Id(candidate) in old(db).rows && old(db).rows[Id(candidate)].state == Applying ==>
                && a == AnswerTo(OutcomeAt(old(script), 0))
                && (TakesEffect(OutcomeAt(old(script), 0)) ==>
                      db == old(db).(rows := old(db).rows[Id(candidate) := old(db).rows[Id(candidate)].(state := state)]))
                && (!TakesEffect(OutcomeAt(old(script), 0)) ==> db == old(db))
      ensures old(disturbed) ==> disturbed
      ensures Id(candidate) in old(db).rows && old(db).rows[Id(candidate)].state == Applying && !disturbed ==> a.Fine?
    {
      var id := Id(candidate);
      if id in db.rows && db.rows[id].state == Applying {
        a := Perform(db.(rows := db.rows[id := db.rows[id].(state := state)]));
      } else {
        a := Query();
        if a.Fine? {
          a := Refusal(InvalidJournalValue(if state == Applied then "applying row count" else "failed row count"));
        }
      }
    }

    method StartJournal(candidate: Candidate) returns (a: Answer<()>)
      modifies this
      ensures Attempted(
                old(db),
                if JournalTable in old(db).tables && Id(candidate) !in old(db).rows
                then Some(WithRow(old(db), provider, candidate, Applying)) else None,
                db, a)
      ensures old(disturbed) ==> disturbed
      ensures JournalTable in old(db).tables && Id(candidate) !in old(db).rows && !disturbed ==> a.Fine?
    {
      a := InsertRow(candidate, Applying);
    }

    /** Looks up each table that the candidate declares, in `visible`. */
    method VerifyTables(candidate: Candidate, visible: set<string>) returns (a: Answer<()>)
      modifies this
      ensures db == old(db)
      ensures a.Fine? ==> forall t :: t in candidate.descriptor.createdTables ==> t in visible
      ensures a.Refusal? ==> a.error.DatabaseError? || (a.error.SchemaVerification? && a.error.table !in visible)
      ensures (forall t :: t in candidate.descriptor.createdTables ==> t in visible) && |candidate.descriptor.createdTables| == 1 ==>
                a == AnswerTo(OutcomeAt(old(script), 0)) && script == Dropped(old(script), 1)
      ensures old(disturbed) ==> disturbed
      ensures (forall t :: t in candidate.descriptor.createdTables ==> t in visible) && !disturbed ==> a.Fine?
      ensures !disturbed ==> a.Fine? || (a.Refusal? && a.error.SchemaVerification? && a.error.logicalId == Id(candidate))
    {
      var tables := candidate.descriptor.createdTables;
      for i := 0 to |tables|
        invariant db == old(db) && (old(disturbed) ==> disturbed)
        invariant forall j :: 0 <= j < i ==> tables[j] in visible
        invariant i == 0 ==> script == old(script)
        invariant i == 1 ==> script == Dropped(old(script), 1) && AnswerTo(OutcomeAt(old(script), 0)).Fine?
      {
        a := Query();
        if !a.Fine? {
          return;
        }
        if tables[i] !in visible {
          return Refusal(SchemaVerification(Id(candidate), tables[i]));
        }
      }
      a := Fine(());
    }

    /** Reads the whole journal, ordered by id. */
    method LoadHistory() returns (a: Answer<seq<JournalEntry>>)
      requires forall id :: id in db.rows ==> db.rows[id].logicalId == id
      modifies this
      ensures db == old(db)
      ensures a.Fine? ==> Lists(db.rows, a.value)
      ensures a.Fine? ==> forall i, j :: 0 <= i < j < |a.value| ==> Before(a.value[i].logicalId, a.value[j].logicalId)
      ensures a.Refusal? ==> a.error.DatabaseError?
      ensures (old(disturbed) ==> disturbed) && (!disturbed ==> a.Fine?)
    {
      var answer := Query();
      match answer {
        case Refusal(error) => return Refusal(error);
        case Crashed => return Crashed;
        case Fine(_) =>
      }
      var history: seq<JournalEntry> := [];
      var unread := db.rows.Keys;
      while unread != {}
        invariant unread <= db.rows.Keys && db == old(db) && (old(disturbed) ==> disturbed)
        invariant forall i :: 0 <= i < |history| ==>
                    history[i].logicalId in db.rows.Keys - unread && db.rows[history[i].logicalId] == history[i]
        invariant forall i, j :: 0 <= i < j < |history| ==> Before(history[i].logicalId, history[j].logicalId)
        invariant forall i, id :: 0 <= i < |history| && id in unread ==> Before(history[i].logicalId, id)
        invariant forall id :: id in db.rows.Keys - unread ==> HasRow(history, id)
        decreases unread
      {
        ghost var before := unread;
        LeastExists(unread);
        var id :| id in unread && forall other :: other in unread ==> other == id || Before(id, other);
        unread := unread - {id};
        ghost var earlier := history;
        history := history + [db.rows[id]];
        forall other | other in db.rows.Keys - unread ensures HasRow(history, other) {
          if other == id {
            assert history[|earlier|].logicalId == id;
          } else {
            assert other in db.rows.Keys - before;
            var i :| 0 <= i < |earlier| && earlier[i].logicalId == other;
            assert history[i].logicalId == other;
          }
        }
      }
      OrderedAreDistinct(history);
      a := Fine(history);
    }
  }

  lemma OrderedAreDistinct(history: seq<JournalEntry>)
    requires forall i, j :: 0 <= i < j < |history| ==> Before(history[i].logicalId, history[j].logicalId)
    ensures forall i, j :: 0 <= i < j < |history| ==> history[i].logicalId != history[j].logicalId
  {
    forall i, j | 0 <= i < j < |history| ensures history[i].logicalId != history[j].logicalId {
      BeforeIrreflexive(history[i].logicalId);
    }
  }

  lemma {:induction false} LeastExists(ids: set<string>)
    requires ids != {}
    ensures exists id :: id in ids && forall other :: other in ids ==> other == id || Before(id, other)
  {
    var one :| one in ids;
    var rest := ids - {one};
    if rest == {} {
      assert ids == {one};
    } else {
      LeastExists(rest);
      var least :| least in rest && forall other :: other in rest ==> other == least || Before(least, other);
      BeforeTotal(one, least);
      if Before(one, least) {
        forall other | other in ids ensures other == one || Before(one, other) {
          if other != one && other != least {
            BeforeTransitive(one, least, other);
          }
        }
      } else {
        assert forall other :: other in ids ==> other == least || Before(least, other);
      }
    }
  }

  lemma RowsCarryTheirIds(provider: string, candidates: seq<Candidate>, db: Database, k: nat, dirty: Option<MigrationState>)
    requires JournalAt(provider, candidates, db, k, dirty)
    ensures forall id :: id in db.rows ==> db.rows[id].logicalId == id
  {
  }

  /** Reads the journal and assesses it: both drivers start a run this way. */
  method PlanRest(s: Session, candidates: seq<Candidate>, ghost p: Position) returns (a: Answer<MigrationPlan>)
    requires Embedded(s.provider, candidates) && Holds(s.provider, candidates, p) && p.db == s.db
    modifies s
    ensures s.db == old(s.db)
    ensures a.Fine? ==> p.dirty.None? && a.value == PlanAfter(candidates, p.k)
    ensures a.Refusal? ==>
              a.error.DatabaseError?
              || (p.dirty.Some? && a.error == Assessment(DirtyMigration(Id(candidates[p.k]), p.dirty.value)))
    ensures (old(s.disturbed) ==> s.disturbed) && (!s.disturbed && p.dirty.None? ==> a.Fine?)
  {
    RowsCarryTheirIds(s.provider, candidates, p.db, p.k, p.dirty);
    var history := s.LoadHistory();
    if !history.Fine? {
      return if history.Crashed? then Crashed else Refusal(history.error);
    }
    a := AssessHistory(s.provider, candidates, history.value, p);
  }

  method AssessHistory(provider: string, candidates: seq<Candidate>, history: seq<JournalEntry>, ghost p: Position)
    returns (a: Answer<MigrationPlan>)
    requires Embedded(provider, candidates) && Holds(provider, candidates, p) && Lists(p.db.rows, history)
    ensures a == match p.dirty
                 case None => Fine(PlanAfter(candidates, p.k))
                 case Some(state) => Refusal(Assessment(DirtyMigration(Id(candidates[p.k]), state)))
  {
    var assessed := AssessMigrations(provider, candidates, history);
    RestartIsExact(provider, candidates, p.db, p.k, p.dirty, history, assessed);
    a := match assessed case Ok(plan) => Fine(plan) case Err(error) => Refusal(Assessment(error));
  }

  /** Gives the lock back after a run; only a run that went well has its answer replaced by a failure to do so. */
  method EndRun(s: Session, a: Answer<MigrationReport>) returns (answer: Answer<MigrationReport>, ghost end: Answer<()>)
    requires !a.Crashed?
    modifies s, s.lock
    ensures s.db == old(s.db) && (s.disturbed <==> old(s.disturbed) || !end.Fine?)
    ensures answer == if a.Fine? && !end.Fine? then Ended(end) else a
    ensures end.Refusal? ==> end.error.DatabaseError?
    ensures end.Fine? ==> !s.lock.held
  {
    var released := s.ReleaseLock();
    end := released;
    answer := if a.Fine? && !released.Fine? then Ended(released) else a;
  }
}
