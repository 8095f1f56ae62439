/** Comparing the migration journal with the manifest (crates/durable-store/src/migration_runner.rs). */
module MigrationAssessment {
  import opened Prelude
  import opened Text
  import opened MigrationManifest

  datatype MigrationState = Applying | Applied | Failed

  datatype Digest = Digest(bytes: seq<bv8>)

  datatype Candidate = Candidate(descriptor: EmbeddedMigration, checksum: Digest)

  datatype JournalEntry = JournalEntry(
    logicalId: string,
    providerKind: string,
    checksum: Digest,
    logicalModelVersion: nat,
    state: MigrationState)

  datatype MigrationPlan = MigrationPlan(
    currentModelVersion: nat,
    targetModelVersion: nat,
    pending: seq<Candidate>)

  datatype AssessmentError =
    | InvalidManifest(manifest: ManifestError)
    | EmptyProviderKind
    | DuplicateHistory(logicalId: string)
    | UnknownMigration(logicalId: string)
    | ProviderMismatch(logicalId: string)
    | DirtyMigration(logicalId: string, state: MigrationState)
    | ChecksumMismatch(logicalId: string)
    | ModelVersionMismatch(logicalId: string)
    | HistoryGap(missing: string, applied: string)

  function Id(candidate: Candidate): string {
    candidate.descriptor.logicalId
  }

  function Descriptors(available: seq<Candidate>): seq<EmbeddedMigration> {
    seq(|available|, i requires 0 <= i < |available| => available[i].descriptor)
  }

  /** The row that a candidate leaves in the journal. */
  function Entry(provider: string, candidate: Candidate, state: MigrationState): JournalEntry {
    JournalEntry(Id(candidate), provider, candidate.checksum, candidate.descriptor.logicalModelVersion, state)
  }

  function AppliedEntries(provider: string, candidates: seq<Candidate>): seq<JournalEntry> {
    seq(|candidates|, i requires 0 <= i < |candidates| => Entry(provider, candidates[i], Applied))
  }

  predicate HasRow(history: seq<JournalEntry>, id: string) {
    exists i :: 0 <= i < |history| && history[i].logicalId == id
  }

  /** The first candidate with this id. */
  function Find(available: seq<Candidate>, id: string): (found: Option<Candidate>)
    ensures found.Some? ==> found.value in available && Id(found.value) == id
    ensures found.None? ==> forall c :: c in available ==> Id(c) != id
  {
    if available == [] then None
    else if Id(available[0]) == id then Some(available[0])
    else Find(available[1..], id)
  }

  /** The journal holds exactly the first `k` candidates, in any order, each once and applied. */
  ghost predicate Completed(provider: string, available: seq<Candidate>, history: seq<JournalEntry>, k: nat) {
    && k <= |available|
    && multiset(history) == multiset(AppliedEntries(provider, available[..k]))
  }

  function PlanAfter(available: seq<Candidate>, k: nat): MigrationPlan
    requires 0 < |available| && k <= |available|
  {
    MigrationPlan(
      if k == 0 then 0 else available[k - 1].descriptor.logicalModelVersion,
      available[|available| - 1].descriptor.logicalModelVersion,
      available[k..])
  }

  // ---------------------------------------------------------------- what an error means

  ghost predicate CleanRow(provider: string, available: seq<Candidate>, row: JournalEntry) {
    exists c :: c in available && row == Entry(provider, c, Applied)
  }

  /** Every row is the applied row of some candidate, and no id occurs twice. */
  ghost predicate RowsClean(provider: string, available: seq<Candidate>, rows: seq<JournalEntry>) {
    && (forall i :: 0 <= i < |rows| ==> CleanRow(provider, available, rows[i]))
    && forall i, j :: 0 <= i < j < |rows| ==> rows[i].logicalId != rows[j].logicalId
  }

  /** What is wrong with row `i`. */
  ghost predicate RowFault(
    provider: string, available: seq<Candidate>, history: seq<JournalEntry>, i: nat, error: AssessmentError)
    requires i < |history|
  {
    var row := history[i];
    match error
    case DuplicateHistory(id) => row.logicalId == id && HasRow(history[..i], id)
    case UnknownMigration(id) => row.logicalId == id && forall c :: c in available ==> Id(c) != id
    case ProviderMismatch(id) => row.logicalId == id && row.providerKind != provider
    case DirtyMigration(id, state) => row.logicalId == id && row.state == state && state != Applied
    case ChecksumMismatch(id) =>
      row.logicalId == id && exists c :: c in available && Id(c) == id && c.checksum != row.checksum
    case ModelVersionMismatch(id) =>
      row.logicalId == id
      && exists c :: c in available && Id(c) == id && c.descriptor.logicalModelVersion != row.logicalModelVersion
    case _ => false
  }

  /** Candidate `i` is the first without a row, and the later candidate `j` has one. */
  ghost predicate Gap(available: seq<Candidate>, history: seq<JournalEntry>, i: nat, j: nat) {
    && i < j < |available|
    && (forall l :: 0 <= l < i ==> HasRow(history, Id(available[l])))
    && !HasRow(history, Id(available[i])) && HasRow(history, Id(available[j]))
  }

  ghost predicate Explained(provider: string, available: seq<Candidate>, history: seq<JournalEntry>, error: AssessmentError) {
    match error
    case EmptyProviderKind => provider == ""
    case InvalidManifest(manifest) => ValidateManifest(Descriptors(available)) == Err(manifest)
    case HistoryGap(missing, applied) =>
      && RowsClean(provider, available, history)
      && exists i: nat, j: nat :: Gap(available, history, i, j) && missing == Id(available[i]) && applied == Id(available[j])
    case _ =>
      exists i :: 0 <= i < |history|
        && RowsClean(provider, available, history[..i]) && RowFault(provider, available, history, i, error)
  }

  ghost predicate Usable(provider: string, available: seq<Candidate>) {
    provider != "" && ValidateManifest(Descriptors(available)).Ok?
  }

  /** The whole contract of the assessment. */
  ghost predicate Assessed(
    provider: string, available: seq<Candidate>, history: seq<JournalEntry>, r: Result<MigrationPlan, AssessmentError>)
  {
    match r
    case Ok(plan) =>
      && Usable(provider, available) && available != []
      && exists k :: Completed(provider, available, history, k) && plan == PlanAfter(available, k)
    case Err(error) => Explained(provider, available, history, error)
  }

  // ---------------------------------------------------------------- the assessment

  method AssessMigrations(provider: string, available: seq<Candidate>, history: seq<JournalEntry>)
    returns (r: Result<MigrationPlan, AssessmentError>)
    ensures Assessed(provider, available, history, r)
    ensures r.Ok? <==> Usable(provider, available) && exists k :: Completed(provider, available, history, k)
  {
    if provider == "" {
      return Err(EmptyProviderKind);
    }
    var manifest := ValidateManifest(Descriptors(available));
    if manifest.Err? {
      return Err(InvalidManifest(manifest.error));
    }
    IdsOrdered(available);
    var fault := CheckRows(provider, available, history);
    if fault.Some? {
      r := Err(fault.value);
      ErrorsExclude(provider, available, history, fault.value);
      return;
    }
    var firstMissing: Option<nat> := None;
    var currentModelVersion := 0;
    for index := 0 to |available|
      invariant Contiguous(available, history, index, firstMissing, currentModelVersion)
    {
      var applied := HasRow(history, Id(available[index]));
      match firstMissing {
        case None =>
          if applied {
            currentModelVersion := available[index].descriptor.logicalModelVersion;
          } else {
            firstMissing := Some(index);
          }
        case Some(missing) =>
          if applied {
            r := Err(HistoryGap(Id(available[missing]), Id(available[index])));
            assert Gap(available, history, missing, index);
            ErrorsExclude(provider, available, history, r.error);
            return;
          }
      }
    }
    var pending := if firstMissing.None? then [] else available[firstMissing.value..];
    r := Ok(MigrationPlan(currentModelVersion, available[|available| - 1].descriptor.logicalModelVersion, pending));
    ghost var k := if firstMissing.None? then |available| else firstMissing.value;
    CleanPrefixCompletes(provider, available, history, k);
    assert r.value == PlanAfter(available, k);
  }

  /** The scan of the history for the first faulty row. */
  method CheckRows(provider: string, available: seq<Candidate>, history: seq<JournalEntry>)
    returns (fault: Option<AssessmentError>)
    ensures match fault
            case None => RowsClean(provider, available, history)
            case Some(error) => !error.HistoryGap? && !error.EmptyProviderKind? && !error.InvalidManifest?
                                && Explained(provider, available, history, error)
  {
    for index := 0 to |history|
      invariant RowsClean(provider, available, history[..index])
    {
      var entry := history[index];
      var id := entry.logicalId;
      var candidate := Find(available, id);
      if HasRow(history[..index], id) {
        fault := Some(DuplicateHistory(id));
      } else if candidate.None? {
        fault := Some(UnknownMigration(id));
      } else if entry.providerKind != provider {
        fault := Some(ProviderMismatch(id));
      } else if entry.state != Applied {
        fault := Some(DirtyMigration(id, entry.state));
      } else if entry.checksum != candidate.value.checksum {
        fault := Some(ChecksumMismatch(id));
      } else if entry.logicalModelVersion != candidate.value.descriptor.logicalModelVersion {
        fault := Some(ModelVersionMismatch(id));
      } else {
        fault := None;
      }
      if fault.Some? {
        assert RowFault(provider, available, history, index, fault.value);
        return;
      }
      assert entry == Entry(provider, candidate.value, Applied);
      RowsCleanByOne(provider, available, history, index);
    }
    assert history[..|history|] == history;
    fault := None;
  }

  lemma RowsCleanByOne(provider: string, available: seq<Candidate>, history: seq<JournalEntry>, index: nat)
    requires index < |history| && RowsClean(provider, available, history[..index])
    requires !HasRow(history[..index], history[index].logicalId)
    requires CleanRow(provider, available, history[index])
    ensures RowsClean(provider, available, history[..index + 1])
  {
    var earlier, now := history[..index], history[..index + 1];
    assert now == earlier + [history[index]];
  }

  /** What the second loop knows after `n` candidates. */
  ghost predicate Contiguous(
    available: seq<Candidate>, history: seq<JournalEntry>, n: nat, firstMissing: Option<nat>, version: nat)
  {
    var k := if firstMissing.None? then n else firstMissing.value;
    && k <= n <= |available| && (firstMissing.Some? ==> k < n)
    && (forall i :: 0 <= i < n ==> (HasRow(history, Id(available[i])) <==> i < k))
    && version == if k == 0 then 0 else available[k - 1].descriptor.logicalModelVersion
  }

  // ---------------------------------------------------------------- why the verdict is exact

  lemma IdsOrdered(available: seq<Candidate>)
    requires ValidateManifest(Descriptors(available)).Ok?
    ensures available != []
    ensures forall i, j :: 0 <= i < j < |available| ==> Id(available[i]) != Id(available[j])
  {
    var descriptors := Descriptors(available);
    ManifestIsDecided(descriptors);
    forall i, j | 0 <= i < j < |available| ensures Id(available[i]) != Id(available[j]) {
      assert Before(descriptors[i].logicalId, descriptors[j].logicalId);
      BeforeIrreflexive(descriptors[i].logicalId);
    }
  }

  lemma EntriesDistinct(provider: string, available: seq<Candidate>, k: nat)
    requires ValidateManifest(Descriptors(available)).Ok? && k <= |available|
    ensures Distinct(AppliedEntries(provider, available[..k]))
    ensures forall row :: row in AppliedEntries(provider, available[..k]) <==>
              exists i :: 0 <= i < k && row == Entry(provider, available[i], Applied)
  {
    IdsOrdered(available);
    var entries := AppliedEntries(provider, available[..k]);
    forall i | 0 <= i < k ensures entries[i] == Entry(provider, available[i], Applied) {
      assert available[..k][i] == available[i];
    }
    forall i | 0 <= i < k ensures Entry(provider, available[i], Applied) in entries {
      assert entries[i] in entries;
    }
  }

  /** Clean rows for exactly the first `k` candidates. */
  lemma CleanPrefixCompletes(provider: string, available: seq<Candidate>, history: seq<JournalEntry>, k: nat)
    requires ValidateManifest(Descriptors(available)).Ok? && k <= |available|
    requires RowsClean(provider, available, history)
    requires forall i :: 0 <= i < |available| ==> (HasRow(history, Id(available[i])) <==> i < k)
    ensures Completed(provider, available, history, k)
  {
    IdsOrdered(available);
    EntriesDistinct(provider, available, k);
    var entries := AppliedEntries(provider, available[..k]);
    forall row ensures row in history <==> row in entries {
      if row in history {
        var r :| 0 <= r < |history| && history[r] == row;
        assert CleanRow(provider, available, row);
        var c :| c in available && row == Entry(provider, c, Applied);
        var i :| 0 <= i < |available| && available[i] == c;
        assert HasRow(history, Id(available[i]));
      }
      if row in entries {
        var i :| 0 <= i < k && row == Entry(provider, available[i], Applied);
        var r :| 0 <= r < |history| && history[r].logicalId == Id(available[i]);
        assert CleanRow(provider, available, history[r]);
        var c :| c in available && history[r] == Entry(provider, c, Applied);
        var j :| 0 <= j < |available| && available[j] == c;
        assert i == j;
      }
    }
    SameElementsPermute(history, entries);
  }

  /** The converse: a completed prefix has clean rows for exactly its candidates. */
  lemma CompletedIsClean(provider: string, available: seq<Candidate>, history: seq<JournalEntry>, k: nat)
    requires ValidateManifest(Descriptors(available)).Ok? && Completed(provider, available, history, k)
    ensures RowsClean(provider, available, history)
    ensures forall i :: 0 <= i < |available| ==> (HasRow(history, Id(available[i])) <==> i < k)
  {
    IdsOrdered(available);
    EntriesDistinct(provider, available, k);
    var entries := AppliedEntries(provider, available[..k]);
    assert forall row :: row in history <==> row in entries by {
      assert forall row :: row in history <==> row in multiset(history);
      assert forall row :: row in entries <==> row in multiset(entries);
    }
    DistinctCounts(entries);
    CountsDistinct(history);
    forall r | 0 <= r < |history|
      ensures exists i :: 0 <= i < k && history[r] == Entry(provider, available[i], Applied)
    {
      assert history[r] in entries;
    }
    forall r | 0 <= r < |history| ensures CleanRow(provider, available, history[r]) {
      var i :| 0 <= i < k && history[r] == Entry(provider, available[i], Applied);
      assert available[i] in available;
    }
    forall i | 0 <= i < |available| ensures HasRow(history, Id(available[i])) <==> i < k {
      if i < k {
        assert Entry(provider, available[i], Applied) in history;
      }
    }
  }

  /** An error is never given for a completed prefix. */
  lemma ErrorsExclude(provider: string, available: seq<Candidate>, history: seq<JournalEntry>, error: AssessmentError)
    requires ValidateManifest(Descriptors(available)).Ok? && provider != ""
    requires Explained(provider, available, history, error)
    ensures !exists k :: Completed(provider, available, history, k)
  {
    forall k: nat | Completed(provider, available, history, k) ensures false {
      CompletedIsClean(provider, available, history, k);
      if !error.HistoryGap? {
        var i :| 0 <= i < |history| && RowFault(provider, available, history, i, error);
        CleanRowsHaveNoFault(provider, available, history, i, error);
      }
    }
  }

  lemma CleanRowsHaveNoFault(
    provider: string, available: seq<Candidate>, history: seq<JournalEntry>, i: nat, error: AssessmentError)
    requires ValidateManifest(Descriptors(available)).Ok? && RowsClean(provider, available, history)
    requires i < |history|
    ensures !RowFault(provider, available, history, i, error)
  {
    IdsOrdered(available);
    assert CleanRow(provider, available, history[i]);
    var c :| c in available && history[i] == Entry(provider, c, Applied);
    assert forall d :: d in available && Id(d) == Id(c) ==> d == c;
    assert forall j :: 0 <= j < i ==> history[..i][j] == history[j];
  }

  /** The contract leaves no freedom: two results that satisfy it agree on acceptance and on the plan. */
  lemma PlanIsDetermined(
    provider: string, available: seq<Candidate>, history: seq<JournalEntry>,
    r: Result<MigrationPlan, AssessmentError>, k: nat)
    requires Usable(provider, available) && Completed(provider, available, history, k)
    requires Assessed(provider, available, history, r)
    ensures available != [] && r == Ok(PlanAfter(available, k))
  {
    if r.Err? {
      ErrorsExclude(provider, available, history, r.error);
    } else {
      var k': nat :| Completed(provider, available, history, k') && r.value == PlanAfter(available, k');
      assert |multiset(history)| == |multiset(AppliedEntries(provider, available[..k]))|;
      assert |multiset(history)| == |multiset(AppliedEntries(provider, available[..k']))|;
    }
  }
}
