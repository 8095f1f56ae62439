/** Turning a plan into Task records, appending revisions to it, and the store's own check of the
    resulting id graph (crates/server/src/execution_plan.rs, crates/store-postgres/src/transaction_executor.rs). */
module PlanMaterialization {
  import opened Prelude
  import opened Graph
  import opened Identity
  import opened ExecutionPlans

  type RunId = PrintedId

  function TaskId(run: RunId, key: LogicalKey): DerivedId {
    DerivedId("task/" + run + "/" + key)
  }

  function StageExecutionId(run: RunId, key: LogicalKey): DerivedId {
    DerivedId("stage/" + run + "/" + key)
  }

  /** The key that a task id was derived from. */
  function KeyOfId(id: DerivedId): LogicalKey {
    if |id.text| >= 38 then id.text[38..] else ""
  }

  /** The key that a stage execution id was derived from. */
  function KeyOfStageId(id: DerivedId): LogicalKey {
    if |id.text| >= 39 then id.text[39..] else ""
  }

  lemma TaskIdDetermines(run: RunId, key: LogicalKey)
    ensures KeyOfId(TaskId(run, key)) == key
    ensures forall run': RunId, key' :: TaskId(run, key) == TaskId(run', key') ==> run == run' && key == key'
  {
    forall r: RunId, k | TaskId(run, key) == TaskId(r, k) ensures run == r && key == k {
      var text := TaskId(run, key).text;
      assert TaskId(r, k).text[5..37] == r && TaskId(r, k).text[38..] == k;
      assert text[5..37] == run && text[38..] == key;
    }
    assert TaskId(run, key).text[38..] == key;
  }

  datatype TaskInput = TaskInput(handlerKey: LogicalKey, taskSpec: JsonPayload, runInput: string)

  datatype InitialDependency = InitialDependency(prerequisite: DerivedId, condition: JsonPayload)

  datatype InitialTask = InitialTask(
    taskId: DerivedId,
    stageExecutionId: Option<DerivedId>,
    logicalKey: LogicalKey,
    kind: TaskKind,
    priority: int,
    availableAt: int,
    maxAttempts: nat,
    input: TaskInput,
    dependencies: seq<InitialDependency>,
    joinPolicy: JoinPolicy,
    contextProjection: seq<string>)

  datatype PlanError =
    | InvalidPayload
    | InvalidShape(shape: ShapeError)
    | UnsupportedRevisionMutation

  // ---------------------------------------------------------------- materialising one plan

  function MaterializeTask(task: TaskSpec, run: RunId, runInput: string, availableAt: int): InitialTask {
    InitialTask(
      TaskId(run, task.logicalKey),
      match task.stageKey case None => None case Some(key) => Some(StageExecutionId(run, key)),
      task.logicalKey,
      task.kind,
      task.priority,
      availableAt,
      task.maxAttempts,
      TaskInput(task.handlerKey, task.input, runInput),
      seq(|task.dependencies|, i requires 0 <= i < |task.dependencies| =>
        InitialDependency(TaskId(run, task.dependencies[i].taskKey), task.dependencies[i].condition)),
      task.joinPolicy,
      task.contextProjection)
  }

  function MaterializeTasks(tasks: seq<TaskSpec>, run: RunId, runInput: string, availableAt: int): seq<InitialTask> {
    seq(|tasks|, i requires 0 <= i < |tasks| => MaterializeTask(tasks[i], run, runInput, availableAt))
  }

  predicate Decodable(plan: ExecutionPlan) {
    plan.extension.Json? && forall i :: 0 <= i < |plan.tasks| ==> plan.tasks[i].input.Json?
  }

  datatype InitialStage = InitialStage(
    stageExecutionId: DerivedId,
    stageKey: LogicalKey,
    definitionStageKey: LogicalKey,
    status: StageStatus,
    attempt: nat,
    assigneeKind: Option<string>,
    assigneeRef: Option<string>,
    inputContract: JsonPayload,
    outputContract: JsonPayload,
    policy: JsonPayload)

  datatype Checkpoint = Checkpoint(schemaVersion: nat, planKey: LogicalKey, extension: string, completedSteps: nat, runInput: string)

  datatype MaterializedPlan = MaterializedPlan(checkpoint: Checkpoint, stages: seq<InitialStage>, tasks: seq<InitialTask>)

  function MaterializeStage(stage: StageSpec, run: RunId): InitialStage {
    InitialStage(
      StageExecutionId(run, stage.logicalKey), stage.logicalKey, stage.logicalKey, stage.initialStatus, 1,
      stage.assigneeKind, stage.assigneeRef, stage.inputContract, stage.outputContract, stage.policy)
  }

  // ---------------------------------------------------------------- reading the plan back from its records

  /** The task that a record was made from, as the record itself says. */
  function SpecOf(record: InitialTask): TaskSpec {
    TaskSpec(
      record.logicalKey,
      if record.stageExecutionId.Some? then Some(KeyOfStageId(record.stageExecutionId.value)) else None,
      record.input.handlerKey,
      record.kind,
      record.priority,
      record.maxAttempts,
      record.input.taskSpec,
      seq(|record.dependencies|, i requires 0 <= i < |record.dependencies| =>
        DependencySpec(KeyOfId(record.dependencies[i].prerequisite), record.dependencies[i].condition)),
      record.joinPolicy,
      record.contextProjection)
  }

  /** The ids in a record are those of the run for the keys they stand for. */
  ghost predicate BelongsTo(record: InitialTask, run: RunId, runInput: string) {
    && record.taskId == TaskId(run, record.logicalKey)
    && record.input.runInput == runInput
    && (record.stageExecutionId.Some? ==>
          record.stageExecutionId.value == StageExecutionId(run, KeyOfStageId(record.stageExecutionId.value)))
    && forall i :: 0 <= i < |record.dependencies| ==>
         record.dependencies[i].prerequisite == TaskId(run, KeyOfId(record.dependencies[i].prerequisite))
  }

  /** The stage that a stage record was made from, as the record itself says. */
  function StageOf(record: InitialStage): StageSpec {
    StageSpec(
      record.stageKey, record.status, record.assigneeKind, record.assigneeRef, record.inputContract, record.outputContract,
      record.policy)
  }

  ghost predicate StageBelongsTo(record: InitialStage, run: RunId) {
    record.stageExecutionId == StageExecutionId(run, record.stageKey) && record.definitionStageKey == record.stageKey && record.attempt == 1
  }

  /** The plan that a checkpoint and its records were made from. */
  function ReadBack(m: MaterializedPlan): ExecutionPlan {
    ExecutionPlan(
      m.checkpoint.schemaVersion,
      m.checkpoint.planKey,
      seq(|m.stages|, i requires 0 <= i < |m.stages| => StageOf(m.stages[i])),
      seq(|m.tasks|, i requires 0 <= i < |m.tasks| => SpecOf(m.tasks[i])),
      Json(m.checkpoint.extension))
  }

  /** A record says everything that the plan says about its task. */
  lemma RecordReadsBack(task: TaskSpec, run: RunId, runInput: string, availableAt: int)
    ensures var record := MaterializeTask(task, run, runInput, availableAt);
            SpecOf(record) == task && BelongsTo(record, run, runInput) && record.availableAt == availableAt
  {
    var record := MaterializeTask(task, run, runInput, availableAt);
    TaskIdDetermines(run, task.logicalKey);
    if task.stageKey.Some? {
      StageIdReadsBack(run, task.stageKey.value);
    }
    forall i | 0 <= i < |task.dependencies| ensures KeyOfId(record.dependencies[i].prerequisite) == task.dependencies[i].taskKey {
      TaskIdDetermines(run, task.dependencies[i].taskKey);
    }
    assert SpecOf(record).dependencies == task.dependencies;
  }

  lemma StageIdReadsBack(run: RunId, key: LogicalKey)
    ensures KeyOfStageId(StageExecutionId(run, key)) == key
  {
    assert StageExecutionId(run, key).text[39..] == key;
  }

  lemma PlanReadsBack(plan: ExecutionPlan, run: RunId, runInput: string, availableAt: int, m: MaterializedPlan)
    requires plan.extension.Json? && m.tasks == MaterializeTasks(plan.tasks, run, runInput, availableAt)
    requires m.checkpoint == Checkpoint(plan.schemaVersion, plan.planKey, plan.extension.text, 0, runInput)
    requires |m.stages| == |plan.stages| && forall i :: 0 <= i < |plan.stages| ==> m.stages[i] == MaterializeStage(plan.stages[i], run)
    ensures ReadBack(m) == plan
    ensures forall i :: 0 <= i < |m.tasks| ==> BelongsTo(m.tasks[i], run, runInput) && m.tasks[i].availableAt == availableAt
  {
    forall i | 0 <= i < |plan.tasks|
      ensures SpecOf(m.tasks[i]) == plan.tasks[i] && BelongsTo(m.tasks[i], run, runInput) && m.tasks[i].availableAt == availableAt
    {
      RecordReadsBack(plan.tasks[i], run, runInput, availableAt);
    }
    assert ReadBack(m).tasks == plan.tasks && ReadBack(m).stages == plan.stages;
  }

  // ---------------------------------------------------------------- the materialising method

  method MaterializeExecutionPlan(plan: ExecutionPlan, run: RunId, runInput: string, availableAt: int)
    returns (r: Result<MaterializedPlan, PlanError>)
    ensures r.Ok? <==> WellShaped(plan) && Decodable(plan)
    ensures r.Ok? ==> ReadBack(r.value) == plan
    ensures r.Ok? ==> forall i :: 0 <= i < |r.value.tasks| ==>
                        BelongsTo(r.value.tasks[i], run, runInput) && r.value.tasks[i].availableAt == availableAt
    ensures r.Ok? ==> forall i :: 0 <= i < |r.value.stages| ==> StageBelongsTo(r.value.stages[i], run)
    ensures r.Ok? ==> r.value.checkpoint.completedSteps == 0 && r.value.checkpoint.runInput == runInput
    ensures r.Ok? ==> r.value.tasks == MaterializeTasks(plan.tasks, run, runInput, availableAt)
    ensures r == Err(InvalidPayload) <==>
              WellShaped(plan) && (plan.extension.NotJson? || exists task :: task in plan.tasks && task.input.NotJson?)
    ensures r.Err? ==> r.error == InvalidPayload || (r.error.InvalidShape? && Exhibits(plan, r.error.shape))
  {
    var shape := ValidateShape(plan);
    if shape.Err? {
      return Err(InvalidShape(shape.error));
    }
    if !Decodable(plan) {
      return Err(InvalidPayload);
    }
    var materialized := MaterializedPlan(
      Checkpoint(plan.schemaVersion, plan.planKey, plan.extension.text, 0, runInput),
      seq(|plan.stages|, i requires 0 <= i < |plan.stages| => MaterializeStage(plan.stages[i], run)),
      MaterializeTasks(plan.tasks, run, runInput, availableAt));
    PlanReadsBack(plan, run, runInput, availableAt, materialized);
    return Ok(materialized);
  }

  /** Each stage of an accepted plan gets a record of its own; every task that names a stage points to that stage's record,
      which is active, and every dependency points to the record of the task that it names. */
  lemma RecordsPointToRecords(m: MaterializedPlan, run: RunId, runInput: string)
    requires WellShaped(ReadBack(m))
    requires forall i :: 0 <= i < |m.tasks| ==> BelongsTo(m.tasks[i], run, runInput)
    requires forall i :: 0 <= i < |m.stages| ==> StageBelongsTo(m.stages[i], run)
    ensures forall i, j :: 0 <= i < j < |m.stages| ==> m.stages[i].stageExecutionId != m.stages[j].stageExecutionId
    ensures forall i, j :: 0 <= i < j < |m.tasks| ==> m.tasks[i].taskId != m.tasks[j].taskId
    ensures forall i :: 0 <= i < |m.tasks| && m.tasks[i].stageExecutionId.Some? ==> PointsToStage(m, i)
    ensures forall i, d :: 0 <= i < |m.tasks| && 0 <= d < |m.tasks[i].dependencies| ==> PointsToTask(m, i, d)
  {
    var plan := ReadBack(m);
    forall i, j | 0 <= i < j < |m.stages| ensures m.stages[i].stageExecutionId != m.stages[j].stageExecutionId {
      assert StageFine(plan, i) && plan.stages[i] == StageOf(m.stages[i]) && plan.stages[j] == StageOf(m.stages[j]);
      StageIdDetermines(run, m.stages[i].stageKey, m.stages[j].stageKey);
    }
    forall i, j | 0 <= i < j < |m.tasks| ensures m.tasks[i].taskId != m.tasks[j].taskId {
      assert TaskFine(plan, i) && plan.tasks[i] == SpecOf(m.tasks[i]) && plan.tasks[j] == SpecOf(m.tasks[j]);
      TaskIdDetermines(run, m.tasks[i].logicalKey);
    }
    forall i | 0 <= i < |m.tasks| && m.tasks[i].stageExecutionId.Some? ensures PointsToStage(m, i) {
      StageIsThere(m, run, runInput, i);
    }
    forall i, d | 0 <= i < |m.tasks| && 0 <= d < |m.tasks[i].dependencies| ensures PointsToTask(m, i, d) {
      PrerequisiteIsThere(m, run, runInput, i, d);
    }
  }

  /** Some active stage record has the id that task record `i` names, and the key that its task names. */
  ghost predicate PointsToStage(m: MaterializedPlan, i: nat)
    requires i < |m.tasks|
  {
    exists k :: 0 <= k < |m.stages| && Some(m.stages[k].stageExecutionId) == m.tasks[i].stageExecutionId
                && Some(m.stages[k].stageKey) == SpecOf(m.tasks[i]).stageKey && m.stages[k].status == Active
  }

  /** Some task record has the id that dependency `d` of task record `i` names, and the key that its task names. */
  ghost predicate PointsToTask(m: MaterializedPlan, i: nat, d: nat)
    requires i < |m.tasks| && d < |m.tasks[i].dependencies|
  {
    exists k :: 0 <= k < |m.tasks| && m.tasks[k].taskId == m.tasks[i].dependencies[d].prerequisite
                && m.tasks[k].logicalKey == SpecOf(m.tasks[i]).dependencies[d].taskKey
  }

  lemma StageIsThere(m: MaterializedPlan, run: RunId, runInput: string, i: nat)
    requires WellShaped(ReadBack(m)) && i < |m.tasks| && m.tasks[i].stageExecutionId.Some?
    requires BelongsTo(m.tasks[i], run, runInput)
    requires forall k :: 0 <= k < |m.stages| ==> StageBelongsTo(m.stages[k], run)
    ensures PointsToStage(m, i)
  {
    var plan := ReadBack(m);
    assert TaskFine(plan, i) && plan.tasks[i] == SpecOf(m.tasks[i]);
    var k := StageIndex(plan.stages, plan.tasks[i].stageKey.value);
    assert plan.stages[k] == StageOf(m.stages[k]) && StageBelongsTo(m.stages[k], run);
  }

  lemma PrerequisiteIsThere(m: MaterializedPlan, run: RunId, runInput: string, i: nat, d: nat)
    requires WellShaped(ReadBack(m)) && i < |m.tasks| && d < |m.tasks[i].dependencies|
    requires forall k :: 0 <= k < |m.tasks| ==> BelongsTo(m.tasks[k], run, runInput)
    ensures PointsToTask(m, i, d)
  {
    var plan := ReadBack(m);
    var task := plan.tasks[i];
    assert TaskFine(plan, i) && task == SpecOf(m.tasks[i]);
    assert DependencyFine(plan, task, d);
    assert BelongsTo(m.tasks[i], run, runInput);
    var p :| p in plan.tasks && p.logicalKey == task.dependencies[d].taskKey;
    var k :| 0 <= k < |plan.tasks| && plan.tasks[k] == p;
    assert BelongsTo(m.tasks[k], run, runInput) && plan.tasks[k] == SpecOf(m.tasks[k]);
  }

  lemma StageIdDetermines(run: RunId, a: LogicalKey, b: LogicalKey)
    ensures StageExecutionId(run, a) == StageExecutionId(run, b) ==> a == b
  {
    assert StageExecutionId(run, a).text[39..] == a && StageExecutionId(run, b).text[39..] == b;
  }

  // ---------------------------------------------------------------- revising a plan

  /** The revision keeps the plan's identity, its stages and every existing task unchanged. */
  ghost predicate AppendOnly(current: ExecutionPlan, revised: ExecutionPlan) {
    && current.schemaVersion == revised.schemaVersion
    && current.planKey == revised.planKey
    && current.stages == revised.stages
    && forall i :: 0 <= i < |current.tasks| ==> Kept(current.tasks[i], revised)
  }

  predicate Kept(existing: TaskSpec, revised: ExecutionPlan) {
    var i := TaskIndex(revised.tasks, existing.logicalKey);
    i < |revised.tasks| && revised.tasks[i] == existing
  }

  predicate Known(current: ExecutionPlan, key: LogicalKey) {
    TaskIndex(current.tasks, key) < |current.tasks|
  }

  /** The records whose key the current plan does not know, in order. */
  function Additions(current: ExecutionPlan, records: seq<InitialTask>): (added: seq<InitialTask>)
    ensures forall x :: x in added <==> x in records && !Known(current, x.logicalKey)
  {
    if records == [] then []
    else
      var last := records[|records| - 1];
      Additions(current, records[..|records| - 1]) + if Known(current, last.logicalKey) then [] else [last]
  }

  method MaterializePlanTaskAdditions(
    current: ExecutionPlan, revised: ExecutionPlan, run: RunId, runInput: string, availableAt: int)
    returns (r: Result<seq<InitialTask>, PlanError>)
    ensures r.Ok? <==>
            WellShaped(current) && WellShaped(revised) && AppendOnly(current, revised) && Decodable(revised)
    ensures r.Ok? ==>
            r.value == Additions(current, MaterializeTasks(revised.tasks, run, runInput, availableAt))
    ensures r == Err(UnsupportedRevisionMutation) <==>
            WellShaped(current) && WellShaped(revised) && !AppendOnly(current, revised)
  {
    var shape := ValidateShape(current);
    if shape.Err? {
      return Err(InvalidShape(shape.error));
    }
    shape := ValidateShape(revised);
    if shape.Err? {
      return Err(InvalidShape(shape.error));
    }
    if current.schemaVersion != revised.schemaVersion
      || current.planKey != revised.planKey
      || current.stages != revised.stages
      || exists i :: 0 <= i < |current.tasks| && !Kept(current.tasks[i], revised)
    {
      return Err(UnsupportedRevisionMutation);
    }
    var plan := MaterializeExecutionPlan(revised, run, runInput, availableAt);
    if plan.Err? {
      return Err(plan.error);
    }
    var kept := RetainNew(current, plan.value.tasks);
    return Ok(kept);
  }

  /** Keeps the records whose key the current plan does not know. */
  method RetainNew(current: ExecutionPlan, materialized: seq<InitialTask>) returns (kept: seq<InitialTask>)
    ensures kept == Additions(current, materialized)
  {
    kept := [];
    for i := 0 to |materialized|
      invariant kept == Additions(current, materialized[..i])
    {
      assert materialized[..i + 1][..i] == materialized[..i];
      if !Known(current, materialized[i].logicalKey) {
        kept := kept + [materialized[i]];
      }
    }
    assert materialized[..|materialized|] == materialized;
  }

  // ---------------------------------------------------------------- a chain of revisions

  datatype Revision = Revision(plan: ExecutionPlan, availableAt: int)

  /** Every plan in the history was accepted, each as a revision of the one before. */
  ghost predicate AcceptedHistory(history: seq<Revision>) {
    && history != []
    && (forall i :: 0 <= i < |history| ==> WellShaped(history[i].plan) && Decodable(history[i].plan))
    && (forall i :: 0 < i < |history| ==> AppendOnly(history[i - 1].plan, history[i].plan))
  }

  /** All records a run has received: the first plan's, then each revision's additions. */
  ghost function Ledger(history: seq<Revision>, run: RunId, runInput: string): seq<InitialTask>
    requires history != []
  {
    var n := |history|;
    var records := MaterializeTasks(history[n - 1].plan.tasks, run, runInput, history[n - 1].availableAt);
    if n == 1 then records
    else Ledger(history[..n - 1], run, runInput) + Additions(history[n - 2].plan, records)
  }

  /** The record is what the plan says about its key today, apart from when it became available. */
  ghost predicate RecordOf(plan: ExecutionPlan, run: RunId, runInput: string, record: InitialTask) {
    var i := TaskIndex(plan.tasks, record.logicalKey);
    i < |plan.tasks| && SpecOf(record) == plan.tasks[i] && BelongsTo(record, run, runInput)
  }

  ghost predicate KeysDistinct(records: seq<InitialTask>) {
    forall i, j :: 0 <= i < j < |records| ==> records[i].logicalKey != records[j].logicalKey
  }

  /** The records are exactly one per task of the plan, each saying what the plan says. */
  ghost predicate Mirrors(records: seq<InitialTask>, plan: ExecutionPlan, run: RunId, runInput: string) {
    && KeysDistinct(records)
    && (forall x :: x in records ==> RecordOf(plan, run, runInput, x))
    && (forall k :: Known(plan, k) ==> exists x :: x in records && x.logicalKey == k)
  }

  lemma MaterializedRecords(plan: ExecutionPlan, run: RunId, runInput: string, availableAt: int)
    requires EarlierChecksPass(plan)
    ensures Mirrors(MaterializeTasks(plan.tasks, run, runInput, availableAt), plan, run, runInput)
  {
    var records := MaterializeTasks(plan.tasks, run, runInput, availableAt);
    forall i, j | 0 <= i < j < |records| ensures records[i].logicalKey != records[j].logicalKey {
      assert TaskFine(plan, i);
    }
    forall x | x in records ensures RecordOf(plan, run, runInput, x) {
      var i :| 0 <= i < |records| && records[i] == x;
      TaskKeyIsFound(plan, i);
      RecordReadsBack(plan.tasks[i], run, runInput, availableAt);
    }
    forall k | Known(plan, k) ensures exists x :: x in records && x.logicalKey == k {
      assert records[TaskIndex(plan.tasks, k)].logicalKey == k;
    }
  }

  lemma {:induction false} AdditionsDistinct(current: ExecutionPlan, records: seq<InitialTask>)
    requires KeysDistinct(records)
    ensures KeysDistinct(Additions(current, records))
  {
    if records != [] {
      var init := records[..|records| - 1];
      AdditionsDistinct(current, init);
      var added := Additions(current, init);
      forall i | 0 <= i < |added| ensures added[i].logicalKey != records[|records| - 1].logicalKey {
        assert added[i] in init;
      }
    }
  }

  lemma RevisionKeepsRecords(
    before: ExecutionPlan, last: ExecutionPlan, run: RunId, runInput: string, held: seq<InitialTask>, records: seq<InitialTask>)
    requires AppendOnly(before, last)
    requires Mirrors(held, before, run, runInput) && Mirrors(records, last, run, runInput)
    ensures Mirrors(held + Additions(before, records), last, run, runInput)
  {
    var added := Additions(before, records);
    var ledger := held + added;
    AdditionsDistinct(before, records);
    forall x | x in held ensures RecordOf(last, run, runInput, x) {
      var i := TaskIndex(before.tasks, x.logicalKey);
      assert RecordOf(before, run, runInput, x);
      assert Kept(before.tasks[i], last);
    }
    forall i, j | 0 <= i < |held| && 0 <= j < |added|
      ensures held[i].logicalKey != added[j].logicalKey
    {
      assert RecordOf(before, run, runInput, held[i]);
      assert added[j] in added;
    }
    forall k | Known(last, k) ensures exists x :: x in ledger && x.logicalKey == k {
      if Known(before, k) {
        var x :| x in held && x.logicalKey == k;
        assert x in ledger;
      } else {
        var x :| x in records && x.logicalKey == k;
        assert x in ledger;
      }
    }
  }

  /** After any chain of accepted revisions every task of the last plan has exactly one record, and
      that record still says what the last plan says: no dependency was gained or lost. */
  lemma {:induction false} LedgerMirrorsLastPlan(history: seq<Revision>, run: RunId, runInput: string)
    requires AcceptedHistory(history)
    ensures Mirrors(Ledger(history, run, runInput), history[|history| - 1].plan, run, runInput)
    decreases |history|
  {
    var n := |history|;
    var last := history[n - 1];
    AcceptedPlanMirrored(last, run, runInput);
    if n > 1 {
      EarlierAccepted(history);
      LedgerMirrorsLastPlan(history[..n - 1], run, runInput);
      RevisionKeepsRecords(
        history[n - 2].plan, last.plan, run, runInput, Ledger(history[..n - 1], run, runInput),
        MaterializeTasks(last.plan.tasks, run, runInput, last.availableAt));
    }
  }

  lemma AcceptedPlanMirrored(revision: Revision, run: RunId, runInput: string)
    requires WellShaped(revision.plan)
    ensures Mirrors(MaterializeTasks(revision.plan.tasks, run, runInput, revision.availableAt), revision.plan, run, runInput)
  {
    MaterializedRecords(revision.plan, run, runInput, revision.availableAt);
  }

  lemma EarlierAccepted(history: seq<Revision>)
    requires AcceptedHistory(history) && |history| > 1
    ensures var n := |history| - 1;
            && AcceptedHistory(history[..n]) && history[..n][n - 1] == history[n - 1]
            && AppendOnly(history[n - 1].plan, history[n].plan)
  {
  }

  // ---------------------------------------------------------------- the graph of task ids

  /** The first record with the id, or the number of records. */
  function RecordIndex(tasks: seq<InitialTask>, id: DerivedId): (i: nat)
    ensures i <= |tasks|
    ensures i < |tasks| ==> tasks[i].taskId == id
    ensures forall j :: 0 <= j < i ==> tasks[j].taskId != id
  {
    if tasks == [] || tasks[0].taskId == id then 0 else 1 + RecordIndex(tasks[1..], id)
  }

  ghost function TaskIds(tasks: seq<InitialTask>): set<DerivedId> {
    set t | t in tasks :: t.taskId
  }

  ghost function Prerequisites(task: InitialTask): set<DerivedId> {
    set d | d in task.dependencies :: d.prerequisite
  }

  ghost function IdGraph(tasks: seq<InitialTask>): Digraph<DerivedId> {
    map id | id in TaskIds(tasks) ::
      var i := RecordIndex(tasks, id);
      if i < |tasks| then Prerequisites(tasks[i]) else {}
  }

  /** Each edge between ids of records of a plan is an edge between their keys. */
  lemma IdEdge(plan: ExecutionPlan, run: RunId, runInput: string, tasks: seq<InitialTask>, u: DerivedId, v: DerivedId)
    requires forall x :: x in tasks ==> RecordOf(plan, run, runInput, x)
    requires Edge(IdGraph(tasks), u, v)
    ensures Edge(DependencyGraph(plan), KeyOfId(u), KeyOfId(v))
    ensures u == TaskId(run, KeyOfId(u)) && v == TaskId(run, KeyOfId(v))
  {
    var record := tasks[RecordIndex(tasks, u)];
    assert record in tasks && RecordOf(plan, run, runInput, record);
    var task := plan.tasks[TaskIndex(plan.tasks, record.logicalKey)];
    var d :| d in record.dependencies && d.prerequisite == v;
    var j :| 0 <= j < |record.dependencies| && record.dependencies[j] == d;
    TaskIdDetermines(run, record.logicalKey);
    TaskIdDetermines(run, task.dependencies[j].taskKey);
    assert task in plan.tasks && task.dependencies[j] in task.dependencies;
    assert task.logicalKey in TaskKeys(plan);
  }

  /** Records of an acyclic plan have an acyclic id graph, whichever of them are taken together. */
  lemma RecordsStayAcyclic(plan: ExecutionPlan, run: RunId, runInput: string, tasks: seq<InitialTask>)
    requires !Cyclic(DependencyGraph(plan))
    requires forall x :: x in tasks ==> RecordOf(plan, run, runInput, x)
    ensures !Cyclic(IdGraph(tasks))
  {
    var g := IdGraph(tasks);
    forall id ensures !Reaches(g, id, id) {
      forall p ensures !Walk(g, p, id, id) {
        if Walk(g, p, id, id) {
          var q := seq(|p|, i requires 0 <= i < |p| => KeyOfId(p[i]));
          forall i | 0 <= i < |q| - 1 ensures Edge(DependencyGraph(plan), q[i], q[i + 1]) {
            IdEdge(plan, run, runInput, tasks, p[i], p[i + 1]);
          }
          assert Walk(DependencyGraph(plan), q, q[0], q[0]);
          assert Reaches(DependencyGraph(plan), q[0], q[0]);
        }
      }
    }
  }

  lemma MirrorsHaveUniqueIds(plan: ExecutionPlan, run: RunId, runInput: string, tasks: seq<InitialTask>)
    requires Mirrors(tasks, plan, run, runInput)
    ensures forall i, j :: 0 <= i < j < |tasks| ==> tasks[i].taskId != tasks[j].taskId
  {
    forall i, j | 0 <= i < j < |tasks| ensures tasks[i].taskId != tasks[j].taskId {
      assert RecordOf(plan, run, runInput, tasks[i]) && RecordOf(plan, run, runInput, tasks[j]);
      TaskIdDetermines(run, tasks[i].logicalKey);
    }
  }

  lemma MirrorsAreClosed(plan: ExecutionPlan, run: RunId, runInput: string, tasks: seq<InitialTask>)
    requires EarlierChecksPass(plan) && Mirrors(tasks, plan, run, runInput)
    ensures Closed(IdGraph(tasks))
  {
    DependencyGraphIsClosed(plan);
    forall u, v | Edge(IdGraph(tasks), u, v) ensures v in IdGraph(tasks) {
      IdEdge(plan, run, runInput, tasks, u, v);
      var key := KeyOfId(v);
      assert key in DependencyGraph(plan);
      assert Known(plan, key);
      var x :| x in tasks && x.logicalKey == key;
      assert RecordOf(plan, run, runInput, x);
    }
  }

  /** After any chain of accepted revisions: ids are unique, every prerequisite is the id of a record
      already present, and the id graph can be scheduled. The same holds for every prefix of the
      history, so a batch of additions depends only on earlier records and on itself. */
  lemma LedgerIsSchedulable(history: seq<Revision>, run: RunId, runInput: string)
    requires AcceptedHistory(history)
    ensures var ledger := Ledger(history, run, runInput);
            && (forall i, j :: 0 <= i < j < |ledger| ==> ledger[i].taskId != ledger[j].taskId)
            && Closed(IdGraph(ledger))
            && exists order :: TopologicalOrder(IdGraph(ledger), order)
  {
    var last := history[|history| - 1].plan;
    var ledger := Ledger(history, run, runInput);
    LedgerMirrorsLastPlan(history, run, runInput);
    MirrorsHaveUniqueIds(last, run, runInput, ledger);
    MirrorsAreClosed(last, run, runInput, ledger);
    RecordsStayAcyclic(last, run, runInput, ledger);
    AcyclicIffOrdered(IdGraph(ledger));
  }

  // ---------------------------------------------------------------- the store's own check

  /** The ids met so far by the store's search, never taken back. */
  class VisitedIds {
    var ids: set<DerivedId>

    constructor ()
      ensures ids == {}
    {
      ids := {};
    }
  }

  /** Depth-first search that remembers every id it has entered. When it fails, what it has entered
      is closed under dependencies, so the target is out of reach. */
  method StoreReaches(tasks: seq<InitialTask>, current: DerivedId, target: DerivedId, visited: VisitedIds)
    returns (reaches: bool)
    requires target !in visited.ids
    modifies visited
    ensures old(visited.ids) <= visited.ids
    ensures reaches ==> current == target || Reaches(IdGraph(tasks), current, target)
    ensures !reaches ==> current in visited.ids && target !in visited.ids
    ensures !reaches ==> forall u, v :: u in visited.ids - old(visited.ids) && Edge(IdGraph(tasks), u, v) ==> v in visited.ids
    decreases TaskIds(tasks) - visited.ids
  {
    ghost var g := IdGraph(tasks);
    if current == target {
      return true;
    }
    if current in visited.ids {
      return false;
    }
    visited.ids := visited.ids + {current};
    var found := RecordIndex(tasks, current);
    if found == |tasks| {
      assert current !in g;
      return false;
    }
    var dependencies := tasks[found].dependencies;
    assert current in TaskIds(tasks);
    assert forall d :: d in g[current] <==> exists i :: 0 <= i < |dependencies| && dependencies[i].prerequisite == d;
    for i := 0 to |dependencies|
      invariant old(visited.ids) + {current} <= visited.ids && target !in visited.ids
      invariant forall j :: 0 <= j < i ==> dependencies[j].prerequisite in visited.ids
      invariant forall u, v :: u in visited.ids - old(visited.ids) - {current} && Edge(g, u, v) ==> v in visited.ids
    {
      var id := dependencies[i].prerequisite;
      assert Edge(g, current, id);
      reaches := StoreReaches(tasks, id, target, visited);
      if reaches {
        ReachesCons(g, current, id, target);
        return;
      }
    }
    return false;
  }

  /** The record depends on itself, directly or through what the records say about its prerequisites. */
  ghost predicate SelfDependent(tasks: seq<InitialTask>, record: InitialTask) {
    exists d :: d in Prerequisites(record) && (d == record.taskId || Reaches(IdGraph(tasks), d, record.taskId))
  }

  lemma SelfDependentCycles(tasks: seq<InitialTask>, i: nat)
    requires forall j, k :: 0 <= j < k < |tasks| ==> tasks[j].taskId != tasks[k].taskId
    requires i < |tasks| && SelfDependent(tasks, tasks[i])
    ensures Cyclic(IdGraph(tasks))
  {
    var g, t := IdGraph(tasks), tasks[i];
    assert RecordIndex(tasks, t.taskId) == i && t in tasks;
    var d :| d in Prerequisites(t) && (d == t.taskId || Reaches(g, d, t.taskId));
    assert Edge(g, t.taskId, d);
    ReachesCons(g, t.taskId, d, t.taskId);
  }

  lemma CycleIsSelfDependent(tasks: seq<InitialTask>, id: DerivedId)
    requires Reaches(IdGraph(tasks), id, id)
    ensures exists t :: t in tasks && SelfDependent(tasks, t)
  {
    var g := IdGraph(tasks);
    var p :| Walk(g, p, id, id);
    assert Edge(g, p[0], p[1]);
    if |p| > 2 {
      assert Walk(g, p[1..], p[1], id);
    }
    assert SelfDependent(tasks, tasks[RecordIndex(tasks, id)]);
  }

  lemma SelfDependentIffCyclic(tasks: seq<InitialTask>)
    requires forall i, j :: 0 <= i < j < |tasks| ==> tasks[i].taskId != tasks[j].taskId
    ensures (exists t :: t in tasks && SelfDependent(tasks, t)) <==> Cyclic(IdGraph(tasks))
  {
    if t :| t in tasks && SelfDependent(tasks, t) {
      var i :| 0 <= i < |tasks| && tasks[i] == t;
      SelfDependentCycles(tasks, i);
    }
    if id :| Reaches(IdGraph(tasks), id, id) {
      CycleIsSelfDependent(tasks, id);
    }
  }

  /** The store's search and the plan's search differ, yet both decide the same thing: a cycle. */
  method StoreFindsCycle(tasks: seq<InitialTask>) returns (cyclic: bool)
    ensures cyclic <==> exists t :: t in tasks && SelfDependent(tasks, t)
    ensures (forall i, j :: 0 <= i < j < |tasks| ==> tasks[i].taskId != tasks[j].taskId) ==>
              (cyclic <==> Cyclic(IdGraph(tasks)))
  {
    ghost var g := IdGraph(tasks);
    cyclic := false;
    for i := 0 to |tasks|
      invariant !cyclic
      invariant forall k :: 0 <= k < i ==> !SelfDependent(tasks, tasks[k])
    {
      var task := tasks[i];
      for j := 0 to |task.dependencies|
        invariant forall k :: 0 <= k < j ==>
          task.dependencies[k].prerequisite != task.taskId && !Reaches(g, task.dependencies[k].prerequisite, task.taskId)
      {
        var id := task.dependencies[j].prerequisite;
        assert id in Prerequisites(task);
        var visited := new VisitedIds();
        var reaches := StoreReaches(tasks, id, task.taskId, visited);
        if reaches {
          assert SelfDependent(tasks, task);
          cyclic := true;
          break;
        }
        forall p ensures !Walk(g, p, id, task.taskId) {
          if Walk(g, p, id, task.taskId) {
            ClosedTrapsWalk(g, visited.ids, p, id, task.taskId);
          }
        }
      }
      if cyclic {
        break;
      }
    }
    if forall i, j :: 0 <= i < j < |tasks| ==> tasks[i].taskId != tasks[j].taskId {
      SelfDependentIffCyclic(tasks);
    }
  }

  ghost predicate TaskRecordFine(task: InitialTask) {
    && task.maxAttempts > 0
    && task.taskId !in Prerequisites(task)
    && forall i, j :: 0 <= i < j < |task.dependencies| ==>
         task.dependencies[i].prerequisite != task.dependencies[j].prerequisite
  }

  /** What the store asks of the task graph when a run is created. */
  ghost predicate InitialGraphFine(tasks: seq<InitialTask>, stageIds: set<DerivedId>) {
    && (forall t :: t in tasks ==> TaskRecordFine(t))
    && (forall t :: t in tasks ==> t.stageExecutionId.Some? ==> t.stageExecutionId.value in stageIds)
    && (forall t :: t in tasks ==> Prerequisites(t) <= TaskIds(tasks))
    && !Cyclic(IdGraph(tasks))
  }

  /** What the store asks of the records a revision adds. */
  ghost predicate RevisedGraphFine(tasks: seq<InitialTask>) {
    && (forall t :: t in tasks ==> TaskRecordFine(t))
    && (forall i, j :: 0 <= i < j < |tasks| ==>
          tasks[i].taskId != tasks[j].taskId && tasks[i].logicalKey != tasks[j].logicalKey)
    && !Cyclic(IdGraph(tasks))
  }

  lemma RecordsAreFine(plan: ExecutionPlan, run: RunId, runInput: string, record: InitialTask)
    requires EarlierChecksPass(plan) && RecordOf(plan, run, runInput, record)
    ensures TaskRecordFine(record)
  {
    var index := TaskIndex(plan.tasks, record.logicalKey);
    var task := plan.tasks[index];
    assert TaskFine(plan, index);
    forall i | 0 <= i < |task.dependencies|
      ensures record.dependencies[i].prerequisite != record.taskId
      ensures forall j :: i < j < |task.dependencies| ==>
        record.dependencies[i].prerequisite != record.dependencies[j].prerequisite
    {
      assert DependencyFine(plan, task, i);
      assert KeyOfId(record.dependencies[i].prerequisite) == task.dependencies[i].taskKey;
      TaskIdDetermines(run, record.logicalKey);
      forall j | i < j < |task.dependencies| ensures record.dependencies[i].prerequisite != record.dependencies[j].prerequisite {
        assert KeyOfId(record.dependencies[j].prerequisite) == task.dependencies[j].taskKey;
      }
    }
  }

  lemma PrerequisiteHasRecord(plan: ExecutionPlan, run: RunId, runInput: string, availableAt: int, index: nat, id: DerivedId)
    requires WellShaped(plan) && index < |plan.tasks|
    requires id in Prerequisites(MaterializeTask(plan.tasks[index], run, runInput, availableAt))
    ensures id in TaskIds(MaterializeTasks(plan.tasks, run, runInput, availableAt))
  {
    var tasks, task := MaterializeTasks(plan.tasks, run, runInput, availableAt), plan.tasks[index];
    var t := MaterializeTask(task, run, runInput, availableAt);
    assert TaskFine(plan, index);
    var d :| d in t.dependencies && d.prerequisite == id;
    var i :| 0 <= i < |t.dependencies| && t.dependencies[i] == d;
    assert DependencyFine(plan, task, i);
    var p :| p in plan.tasks && p.logicalKey == task.dependencies[i].taskKey;
    var k :| 0 <= k < |plan.tasks| && plan.tasks[k] == p;
    assert tasks[k] in tasks && tasks[k].taskId == id;
  }

  /** A plan the validator accepts is never refused by the store for its graph. */
  lemma StoreAcceptsMaterializedPlan(plan: ExecutionPlan, run: RunId, runInput: string, availableAt: int)
    requires WellShaped(plan)
    ensures InitialGraphFine(
              MaterializeTasks(plan.tasks, run, runInput, availableAt),
              set s | s in plan.stages :: StageExecutionId(run, s.logicalKey))
  {
    var tasks := MaterializeTasks(plan.tasks, run, runInput, availableAt);
    MaterializedRecords(plan, run, runInput, availableAt);
    forall t | t in tasks
      ensures TaskRecordFine(t) && Prerequisites(t) <= TaskIds(tasks)
      ensures t.stageExecutionId.Some? ==>
        t.stageExecutionId.value in set s | s in plan.stages :: StageExecutionId(run, s.logicalKey)
    {
      RecordsAreFine(plan, run, runInput, t);
      var index :| 0 <= index < |tasks| && tasks[index] == t;
      var task := plan.tasks[index];
      assert TaskFine(plan, index);
      if task.stageKey.Some? {
        assert plan.stages[StageIndex(plan.stages, task.stageKey.value)] in plan.stages;
      }
      forall id | id in Prerequisites(t) ensures id in TaskIds(tasks) {
        PrerequisiteHasRecord(plan, run, runInput, availableAt, index, id);
      }
    }
    RecordsStayAcyclic(plan, run, runInput, tasks);
  }

  /** Nor are the additions of an accepted revision. */
  lemma StoreAcceptsAdditions(current: ExecutionPlan, revised: ExecutionPlan, run: RunId, runInput: string, availableAt: int)
    requires WellShaped(revised)
    ensures RevisedGraphFine(Additions(current, MaterializeTasks(revised.tasks, run, runInput, availableAt)))
  {
    var records := MaterializeTasks(revised.tasks, run, runInput, availableAt);
    var added := Additions(current, records);
    MaterializedRecords(revised, run, runInput, availableAt);
    AdditionsDistinct(current, records);
    forall t | t in added ensures TaskRecordFine(t) {
      RecordsAreFine(revised, run, runInput, t);
    }
    forall i, j | 0 <= i < j < |added| ensures added[i].taskId != added[j].taskId {
      assert added[i] in records && added[j] in records;
      TaskIdDetermines(run, added[i].logicalKey);
    }
    RecordsStayAcyclic(revised, run, runInput, added);
  }
}
