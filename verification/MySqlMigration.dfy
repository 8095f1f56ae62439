/** The MySQL driver over the same journal: a plain loop, and no transactions around schema changes
    (crates/store-mysql/src/migration_executor.rs). */
module MySqlMigration {
  import opened Prelude
  import opened MigrationManifest
  import opened MigrationAssessment
  import opened MigrationMachine
  import opened MigrationJournal

  /** Runs the statements one by one; each commits on its own. */
  method ExecuteStatements(s: Session, c: Candidate) returns (a: Answer<()>)
    modifies s
    ensures old(s.db).tables <= s.db.tables && s.db == old(s.db).(tables := s.db.tables)
    ensures s.db.tables <= old(s.db).tables + (set t | t in s.Creates(c))
    ensures a.Fine? ==> s.db.tables == old(s.db).tables + (set t | t in s.Creates(c))
    ensures a.Refusal? ==> a.error.DatabaseError?
    ensures |s.Creates(c)| == 1 ==>
              && a == AnswerTo(OutcomeAt(old(s.script), 0)) && s.script == Dropped(old(s.script), 1)
              && (s.Creates(c)[0] in s.db.tables <==>
                    s.Creates(c)[0] in old(s.db).tables || TakesEffect(OutcomeAt(old(s.script), 0)))
    ensures (old(s.disturbed) ==> s.disturbed) && (!s.disturbed ==> a.Fine?)
  {
    var tables := s.Creates(c);
    for i := 0 to |tables|
      invariant old(s.db).tables <= s.db.tables && s.db == old(s.db).(tables := s.db.tables)
      invariant old(s.disturbed) ==> s.disturbed
      invariant s.db.tables == old(s.db).tables + (set j | 0 <= j < i :: tables[j])
      invariant i == 0 ==> s.script == old(s.script)
      invariant i == 1 ==> s.script == Dropped(old(s.script), 1) && OutcomeAt(old(s.script), 0).Done?
    {
      a := s.Perform(s.db.(tables := s.db.tables + {tables[i]}));
      if !a.Fine? {
        return;
      }
    }
    a := Fine(());
  }

  // ---------------------------------------------------------------- bootstrap

  ghost predicate Bootstrapped(provider: string, candidates: seq<Candidate>, p: Position, after: Database, a: Answer<bool>)
    requires candidates != []
  {
    && (p.k > 0 || Wedged(p.db) ==> after == p.db)
    && (Holds(provider, candidates, Position(after, p.k, p.dirty)) || (p.k == 0 && Holds(provider, candidates, Position(after, 1, None))))
    && (a.Fine? ==> !Wedged(p.db) && (a.value <==> p.k == 0) && (p.k == 0 ==> Holds(provider, candidates, Position(after, 1, None))))
    && (a.Refusal? && !Wedged(p.db) ==> a.error.DatabaseError? || (p.k == 0 && a.error.SchemaVerification?))
    && (a.Refusal? && Wedged(p.db) ==> a.error.DatabaseError? || a.error.BootstrapHistoryMissing?)
  }

  /** The table was created but its first row was not inserted. */
  ghost predicate CutOffBetween(script: seq<Outcome>) {
    && OutcomeAt(script, 0).Done?
    && TakesEffect(OutcomeAt(script, 1))
    && !(OutcomeAt(script, 1).Done? && OutcomeAt(script, 2).Done? && TakesEffect(OutcomeAt(script, 3)))
  }

  /** Without a transaction, the bootstrap can leave the journal table without its first row. */
  method BootstrapJournal(s: Session, candidates: seq<Candidate>, ghost p: Position) returns (a: Answer<bool>)
    requires Embedded(s.provider, candidates) && Holds(s.provider, candidates, p) && p.db == s.db
    modifies s
    ensures Bootstrapped(s.provider, candidates, p, s.db, a)
    ensures old(s.disturbed) ==> s.disturbed
    ensures !s.disturbed && s.Sufficient(candidates) && !Wedged(p.db) ==> a.Fine?
    ensures !s.disturbed && p.k > 0 ==> a.Fine?
    ensures p.k == 0 && !Wedged(p.db) && s.Creates(candidates[0]) == [JournalTable] ==>
              (Wedged(s.db) <==> CutOffBetween(old(s.script)))
    ensures Wedged(p.db) && OutcomeAt(old(s.script), 0).Done? && OutcomeAt(old(s.script), 1).Done? ==>
              a == Refusal(BootstrapHistoryMissing)
  {
    FirstRowPresent(s.provider, candidates, p);
    var probe := s.Query();
    if !probe.Fine? {
      return if probe.Crashed? then Crashed else Refusal(probe.error);
    }
    if JournalTable in s.db.tables {
      probe := s.Query();
      if !probe.Fine? {
        return if probe.Crashed? then Crashed else Refusal(probe.error);
      }
      return if BootstrapId in s.db.rows then Fine(false) else Refusal(BootstrapHistoryMissing);
    }
    FindsBootstrap(candidates);
    var found := Find(candidates, BootstrapId);
    if found.None? {
      return Refusal(BootstrapCandidateMissing);
    }
    ghost var rest := s.script;
    a := CreateJournal(s, candidates, found.value, p);
    assert forall i :: 0 <= i < 3 ==> OutcomeAt(rest, i) == OutcomeAt(old(s.script), i + 1);
  }

  method CreateJournal(s: Session, candidates: seq<Candidate>, bootstrap: Candidate, ghost p: Position) returns (a: Answer<bool>)
    requires Embedded(s.provider, candidates) && Holds(s.provider, candidates, p) && p.db == s.db
    requires bootstrap == candidates[0] && p.k == 0 && JournalTable !in s.db.tables
    modifies s
    ensures Bootstrapped(s.provider, candidates, p, s.db, a)
    ensures old(s.disturbed) ==> s.disturbed
    ensures !s.disturbed && s.Sufficient(candidates) && !Wedged(p.db) ==> a.Fine?
    ensures s.Creates(bootstrap) == [JournalTable] ==>
              (Wedged(s.db) <==>
                 && TakesEffect(OutcomeAt(old(s.script), 0))
                 && !(OutcomeAt(old(s.script), 0).Done? && OutcomeAt(old(s.script), 1).Done? && TakesEffect(OutcomeAt(old(s.script), 2))))
  {
    FirstRowPresent(s.provider, candidates, p);
    ghost var script := s.script;
    var step := ExecuteStatements(s, bootstrap);
    GrownTables(s.provider, candidates, p, s.db);
    if step.Fine? {
      step := s.VerifyTables(bootstrap, s.db.tables);
      assert s.Creates(bootstrap) == [JournalTable] ==> s.script == Dropped(Dropped(script, 1), 1);
    }
    if step.Fine? {
      assert JournalTable in bootstrap.descriptor.createdTables;
      BootstrapRow(s.provider, candidates, p.db, s.db.tables);
      assert p.db.(tables := p.db.tables + s.db.tables) == s.db;
      step := s.InsertRow(bootstrap, Applied);
    }
    match step {
      case Fine(_) => a := Fine(true);
      case Refusal(error) => a := Refusal(error);
      case Crashed => a := Crashed;
    }
  }

  lemma GrownTables(provider: string, candidates: seq<Candidate>, p: Position, db: Database)
    requires Holds(provider, candidates, p) && p.db.tables <= db.tables && db == p.db.(tables := db.tables)
    ensures Holds(provider, candidates, p.(db := db))
  {
    TablesMayGrow(provider, candidates, p.db, p.k, p.dirty, db.tables);
    assert p.db.tables + db.tables == db.tables;
  }

  // ---------------------------------------------------------------- one candidate

  /** After working on candidate `k`: it is applied, untouched or left dirty, and a good answer means applied. */
  ghost predicate Worked(provider: string, candidates: seq<Candidate>, k: nat, db: Database, a: Answer<()>, q: Position) {
    && q.db == db && k <= q.k <= k + 1 && Holds(provider, candidates, q)
    && (a.Fine? ==> q.k == k + 1 && q.dirty.None?)
    && (a.Refusal? ==> !a.error.Assessment?)
    && (q.k == k + 1 ==> q.dirty.None?)
  }

  method ApplyCandidate(s: Session, candidates: seq<Candidate>, ghost k: nat, c: Candidate)
    returns (a: Answer<()>, ghost q: Position)
    requires Embedded(s.provider, candidates) && 0 < k < |candidates| && c == candidates[k]
    requires JournalAt(s.provider, candidates, s.db, k, None)
    modifies s
    ensures Worked(s.provider, candidates, k, s.db, a, q)
    ensures old(s.disturbed) ==> s.disturbed
    ensures !s.disturbed && s.Sufficient(candidates) ==> a.Fine?
    ensures !s.disturbed ==> a.Fine? || (a.Refusal? && LacksTable(candidates, a.error, q))
  {
    StartDirties(s.provider, candidates, s.db, k);
    q := Position(s.db, k, None);
    FirstRowPresent(s.provider, candidates, q);
    a := s.StartJournal(c);
    if s.db != q.db {
      q := Position(s.db, k, Some(Applying));
    }
    if a.Fine? {
      a, q := WorkOff(s, candidates, k, c);
    }
  }

  /** Runs the SQL of a candidate whose row says that it is being applied, checks its tables and closes the row. */
  method WorkOff(s: Session, candidates: seq<Candidate>, ghost k: nat, c: Candidate)
    returns (a: Answer<()>, ghost q: Position)
    requires Embedded(s.provider, candidates) && 0 < k < |candidates| && c == candidates[k]
    requires JournalAt(s.provider, candidates, s.db, k, Some(Applying))
    modifies s
    ensures Worked(s.provider, candidates, k, s.db, a, q)
    ensures old(s.disturbed) ==> s.disturbed
    ensures !s.disturbed && s.Sufficient(candidates) ==> a.Fine?
    ensures !s.disturbed ==> a.Fine? || (a.Refusal? && LacksTable(candidates, a.error, q))
  {
    q := Position(s.db, k, Some(Applying));
    a := ExecuteStatements(s, c);
    GrownTables(s.provider, candidates, q, s.db);
    q := Position(s.db, k, Some(Applying));
    if a.Fine? {
      a := s.VerifyTables(c, s.db.tables);
    }
    if a.Crashed? {
      return;
    }
    if a.Refusal? {
      var marked;
      marked, q := GiveUp(s, candidates, k, c);
      if marked.Crashed? {
        a := Crashed;
      }
      return;
    }
    a, q := Close(s, candidates, k, c);
  }

  /** Marks the candidate failed; whether that worked is ignored. */
  method GiveUp(s: Session, candidates: seq<Candidate>, ghost k: nat, c: Candidate) returns (a: Answer<()>, ghost q: Position)
    requires Embedded(s.provider, candidates) && k < |candidates| && c == candidates[k]
    requires JournalAt(s.provider, candidates, s.db, k, Some(Applying))
    modifies s
    ensures q.db == s.db && q.k == k && Holds(s.provider, candidates, q)
    ensures q.dirty == Some(if TakesEffect(OutcomeAt(old(s.script), 0)) then MigrationState.Failed else Applying)
    ensures (old(s.disturbed) ==> s.disturbed) && (!s.disturbed ==> a.Fine? && q.dirty == Some(MigrationState.Failed))
  {
    MarkCloses(s.provider, candidates, s.db, k, MigrationState.Failed);
    ghost var before, o := s.db, OutcomeAt(s.script, 0);
    a := s.CloseRow(c, MigrationState.Failed);
    q := Position(s.db, k, Some(if TakesEffect(o) then MigrationState.Failed else Applying));
  }

  method Close(s: Session, candidates: seq<Candidate>, ghost k: nat, c: Candidate) returns (a: Answer<()>, ghost q: Position)
    requires Embedded(s.provider, candidates) && k < |candidates| && c == candidates[k]
    requires JournalAt(s.provider, candidates, s.db, k, Some(Applying))
    requires forall t :: t in c.descriptor.createdTables ==> t in s.db.tables
    modifies s
    ensures Worked(s.provider, candidates, k, s.db, a, q)
    ensures (old(s.disturbed) ==> s.disturbed) && (!s.disturbed ==> a.Fine?)
  {
    MarkCloses(s.provider, candidates, s.db, k, Applied);
    ghost var before := s.db;
    a := s.CloseRow(c, Applied);
    q := if s.db == before then Position(s.db, k, Some(Applying)) else Position(s.db, k + 1, None);
  }

  // ---------------------------------------------------------------- one run

  method ApplyPending(s: Session, candidates: seq<Candidate>, pending: seq<Candidate>, ghost base: nat)
    returns (a: Answer<seq<string>>, ghost q: Position)
    requires Embedded(s.provider, candidates) && 0 < base <= |candidates| && pending == candidates[base..]
    requires JournalAt(s.provider, candidates, s.db, base, None)
    modifies s
    ensures q.db == s.db && base <= q.k && Holds(s.provider, candidates, q)
    ensures a.Fine? ==> q.k == |candidates| && q.dirty.None? && a.value == Ids(candidates[base..])
    ensures a.Refusal? ==> !a.error.Assessment?
    ensures old(s.disturbed) ==> s.disturbed
    ensures !s.disturbed && s.Sufficient(candidates) ==> a.Fine?
    ensures !s.disturbed ==> a.Fine? || (a.Refusal? && LacksTable(candidates, a.error, q))
  {
    var applied := [];
    q := Position(s.db, base, None);
    for i := 0 to |pending|
      invariant q.db == s.db && q.k == base + i && q.dirty.None? && Holds(s.provider, candidates, q)
      invariant applied == Ids(pending[..i]) && (old(s.disturbed) ==> s.disturbed)
    {
      var answer;
      answer, q := ApplyCandidate(s, candidates, base + i, pending[i]);
      if !answer.Fine? {
        return if answer.Crashed? then Crashed else Refusal(answer.error), q;
      }
      applied := applied + [Id(pending[i])];
      IdsByOne(pending, i);
    }
    assert pending[..|pending|] == pending;
    a := Fine(applied);
  }

  lemma IdsByOne(pending: seq<Candidate>, i: nat)
    requires i < |pending|
    ensures Ids(pending[..i + 1]) == Ids(pending[..i]) + [Id(pending[i])]
  {
  }

  method MigrateLocked(s: Session, candidates: seq<Candidate>, ghost p: Position)
    returns (a: Answer<MigrationReport>, ghost q: Position)
    requires Embedded(s.provider, candidates) && Holds(s.provider, candidates, p) && p.db == s.db
    requires s.lock.held
    modifies s
    ensures q.db == s.db && Ran(s.provider, candidates, p, q, a)
    ensures Wedged(q.db) && !Wedged(p.db) ==> p.k == 0
    ensures p.k == 0 && !Wedged(p.db) && s.Creates(candidates[0]) == [JournalTable] ==>
              (Wedged(q.db) <==> CutOffBetween(old(s.script)))
    ensures Wedged(p.db) && OutcomeAt(old(s.script), 0).Done? && OutcomeAt(old(s.script), 1).Done? ==>
              a == Refusal(BootstrapHistoryMissing)
    ensures old(s.disturbed) ==> s.disturbed
    ensures !s.disturbed && s.Sufficient(candidates) && p.dirty.None? && !Wedged(p.db) ==> a.Fine?
    ensures !s.disturbed && p.k > 0 && p.dirty.None? ==> a.Fine? || (a.Refusal? && LacksTable(candidates, a.error, q))
  {
    FirstRowPresent(s.provider, candidates, p);
    var bootstrapped := BootstrapJournal(s, candidates, p);
    q := AfterBootstrap(s.provider, candidates, p, s.db, bootstrapped);
    FirstRowPresent(s.provider, candidates, q);
    if !bootstrapped.Fine? {
      return if bootstrapped.Crashed? then Crashed else Refusal(bootstrapped.error), q;
    }
    a, q := ApplyRest(s, candidates, p.k, q, bootstrapped.value);
    FirstRowPresent(s.provider, candidates, q);
  }

  /** Assesses the journal and applies what is left. */
  method ApplyRest(s: Session, candidates: seq<Candidate>, ghost base: nat, ghost p: Position, bootstrapped: bool)
    returns (a: Answer<MigrationReport>, ghost q: Position)
    requires Embedded(s.provider, candidates) && Holds(s.provider, candidates, p) && p.db == s.db
    requires p.k > 0 && base == if bootstrapped then 0 else p.k
    requires bootstrapped ==> p.k == 1 && p.dirty.None?
    modifies s
    ensures q.db == s.db && p.k <= q.k && Holds(s.provider, candidates, q)
    ensures a.Fine? ==>
              && q.k == |candidates| && q.dirty.None?
              && a.value == MigrationReport(
                              PlanAfter(candidates, base).currentModelVersion, PlanAfter(candidates, base).targetModelVersion,
                              Ids(candidates[base..]))
    ensures p.dirty.Some? ==>
              && q == p && !a.Fine?
              && (a.Refusal? ==> a.error.DatabaseError? || a.error == Assessment(DirtyMigration(Id(candidates[p.k]), p.dirty.value)))
    ensures !(p.dirty.None? && a.Refusal? && a.error.Assessment?)
    ensures old(s.disturbed) ==> s.disturbed
    ensures !s.disturbed && s.Sufficient(candidates) && p.dirty.None? ==> a.Fine?
    ensures !s.disturbed && p.dirty.None? ==> a.Fine? || (a.Refusal? && LacksTable(candidates, a.error, q))
  {
    q := p;
    var assessed := PlanRest(s, candidates, p);
    if !assessed.Fine? {
      return if assessed.Crashed? then Crashed else Refusal(assessed.error), q;
    }
    var plan := assessed.value;
    var previous := if bootstrapped then 0 else plan.currentModelVersion;
    var applied;
    applied, q := ApplyPending(s, candidates, plan.pending, p.k);
    match applied {
      case Crashed => a := Crashed;
      case Refusal(error) => a := Refusal(error);
      case Fine(ids) =>
        ReportedIds(candidates, base, bootstrapped);
        a := Fine(MigrationReport(previous, plan.targetModelVersion, (if bootstrapped then [BootstrapId] else []) + ids));
    }
  }

  lemma AfterBootstrap(provider: string, candidates: seq<Candidate>, p: Position, db: Database, a: Answer<bool>) returns (q: Position)
    requires Embedded(provider, candidates) && Holds(provider, candidates, p) && Bootstrapped(provider, candidates, p, db, a)
    ensures q.db == db && p.k <= q.k && Holds(provider, candidates, q)
    ensures p.k > 0 || Wedged(p.db) ==> q == p
    ensures p.k == 0 ==> p.dirty.None? && q.dirty.None? && q.k <= 1
    ensures a.Fine? ==> q.k == if a.value then 1 else p.k
  {
    if p.k > 0 || Wedged(p.db) {
      q := p;
    } else if a.Fine? || !Holds(provider, candidates, Position(db, p.k, p.dirty)) {
      q := Position(db, 1, None);
    } else {
      q := Position(db, p.k, p.dirty);
    }
  }

  /** The statements that configure the session, check the database and take the lock all went through. */
  ghost predicate LockTaken(script: seq<Outcome>) {
    OutcomeAt(script, 0).Done? && OutcomeAt(script, 1).Done? && OutcomeAt(script, 2).Done?
  }

  /** A whole run under the named lock. */
  method Migrate(s: Session, candidates: seq<Candidate>, ghost p: Position)
    returns (a: Answer<MigrationReport>, ghost q: Position)
    requires Embedded(s.provider, candidates) && Holds(s.provider, candidates, p) && p.db == s.db
    modifies s, s.lock
    ensures q.db == s.db && Ran(s.provider, candidates, p, q, a)
    ensures Wedged(q.db) && !Wedged(p.db) ==> p.k == 0
    ensures a.Fine? || (!a.Crashed? && !s.disturbed) ==> !s.lock.held
    ensures s.db != p.db ==> LockTaken(old(s.script))
    ensures p.k == 0 && !Wedged(p.db) && s.Creates(candidates[0]) == [JournalTable] ==>
              (Wedged(q.db) <==> LockTaken(old(s.script)) && CutOffBetween(Dropped(old(s.script), 3)))
    ensures var rest := Dropped(old(s.script), 3);
            Wedged(p.db) && LockTaken(old(s.script)) && OutcomeAt(rest, 0).Done? && OutcomeAt(rest, 1).Done? ==>
              a == Refusal(BootstrapHistoryMissing)
    ensures !s.disturbed && s.Sufficient(candidates) && p.dirty.None? && !Wedged(p.db) ==> a.Fine?
    ensures !s.disturbed && p.k > 0 && p.dirty.None? ==> a.Fine? || (a.Refusal? && LacksTable(candidates, a.error, q))
  {
    q := p;
    ghost var script := s.script;
    var step := TakeLock(s);
    if !step.Fine? {
      RunsCutShort(s.provider, candidates, p, p, Crashed, step);
      FirstRowPresent(s.provider, candidates, p);
      return Ended(step), q;
    }
    a, q := MigrateLocked(s, candidates, p);
    if a.Crashed? {
      return;
    }
    ghost var report, end := a, step;
    a, end := EndRun(s, a);
    if a != report {
      RunsCutShort(s.provider, candidates, p, q, report, end);
    }
  }

  /** Configures the session, checks the database and takes the lock. */
  method TakeLock(s: Session) returns (step: Answer<()>)
    modifies s, s.lock
    ensures s.db == old(s.db) && (old(s.disturbed) ==> s.disturbed) && (!s.disturbed ==> step.Fine?)
    ensures step.Fine? <==> LockTaken(old(s.script))
    ensures step.Fine? ==> s.script == Dropped(old(s.script), 3) && s.lock.held
    ensures step.Refusal? ==> step.error.DatabaseError?
  {
    step := s.Query();
    if step.Fine? {
      step := s.Query();
    }
    if step.Fine? {
      step := s.AcquireLock();
    }
  }

  // ---------------------------------------------------------------- a run that wedges the journal

  /** From an empty database, a run that dies right after creating the journal table wedges it: the next run, with
      every statement succeeding, finds the table without its first row, and so does every run after it. */
  method WedgingRuns(candidates: seq<Candidate>, provider: string, creates: map<string, seq<string>>)
    returns (first: Answer<MigrationReport>, left: Database, second: Answer<MigrationReport>, after: Database)
    requires Embedded(provider, candidates)
    requires candidates[0].descriptor.sql in creates && creates[candidates[0].descriptor.sql] == [JournalTable]
    ensures !first.Fine? && Wedged(left)
    ensures second == Refusal(BootstrapHistoryMissing) && after == left
  {
    var empty := Database({}, map[]);
    var script := [Done, Done, Done, Done, CrashAfter];
    assert Dropped(script, 3) == [Done, CrashAfter] && CutOffBetween([Done, CrashAfter]);
    var s := new Session(empty, script, provider, creates);
    ghost var q;
    first, q := Migrate(s, candidates, Position(empty, 0, None));
    left := s.db;
    FirstRowPresent(s.provider, candidates, q);
    second, after := RunOnWedged(candidates, provider, creates, left, q);
  }

  /** An undisturbed run on a wedged database. */
  method RunOnWedged(candidates: seq<Candidate>, provider: string, creates: map<string, seq<string>>, left: Database, ghost q: Position)
    returns (a: Answer<MigrationReport>, after: Database)
    requires Embedded(provider, candidates) && Holds(provider, candidates, q) && q.db == left && Wedged(left)
    ensures a == Refusal(BootstrapHistoryMissing) && after == left
  {
    var script := [Done, Done, Done, Done, Done, Done];
    assert Dropped(script, 3) == [Done, Done, Done];
    var s := new Session(left, script, provider, creates);
    ghost var r;
    a, r := Migrate(s, candidates, q);
    after := s.db;
  }
}
