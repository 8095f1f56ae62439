/** Execution plans, their shape validation and its depth-first cycle search (crates/domain/src/plan.rs). */
module ExecutionPlans {
  import opened Prelude
  import opened Graph

  type LogicalKey = string

  /** Opaque bytes, which a reader may or may not be able to decode as JSON. */
  datatype JsonPayload = Json(text: string) | NotJson(text: string)

  const EXECUTION_PLAN_SCHEMA_VERSION := 1

  datatype StageStatus =
    | Planned | Active | WaitingApproval | ReworkRequired | Succeeded | Failed | Skipped | Cancelled

  datatype TaskKind = Model | Tool | AgentServer | ArtifactCheck | TimerWakeup | Reconcile | StopExternalExecution

  datatype JoinPolicy = All | Any

  datatype StageSpec = StageSpec(
    logicalKey: LogicalKey,
    initialStatus: StageStatus,
    assigneeKind: Option<string>,
    assigneeRef: Option<string>,
    inputContract: JsonPayload,
    outputContract: JsonPayload,
    policy: JsonPayload)

  datatype DependencySpec = DependencySpec(taskKey: LogicalKey, condition: JsonPayload)

  datatype TaskSpec = TaskSpec(
    logicalKey: LogicalKey,
    stageKey: Option<LogicalKey>,
    handlerKey: LogicalKey,
    kind: TaskKind,
    priority: int,
    maxAttempts: nat,
    input: JsonPayload,
    dependencies: seq<DependencySpec>,
    joinPolicy: JoinPolicy,
    contextProjection: seq<string>)

  datatype ExecutionPlan = ExecutionPlan(
    schemaVersion: nat,
    planKey: LogicalKey,
    stages: seq<StageSpec>,
    tasks: seq<TaskSpec>,
    extension: JsonPayload)

  datatype ShapeError =
    | UnsupportedSchemaVersion
    | NoInitialTasks
    | InvalidInitialStageStatus
    | IncompleteStageAssignee
    | DuplicateStageKey
    | ZeroTaskAttempts
    | DuplicateTaskKey
    | UnknownTaskStage
    | TaskStageNotActive
    | UnknownDependency
    | SelfDependency
    | DuplicateDependency
    | DependencyCycle
    | InvalidContextProjection

  // ---------------------------------------------------------------- what a well-shaped plan is

  /** The first task with the key, or the number of tasks when there is none. */
  function TaskIndex(tasks: seq<TaskSpec>, key: LogicalKey): (i: nat)
    ensures i <= |tasks|
    ensures i < |tasks| ==> tasks[i].logicalKey == key
    ensures forall j :: 0 <= j < i ==> tasks[j].logicalKey != key
  {
    if tasks == [] || tasks[0].logicalKey == key then 0 else 1 + TaskIndex(tasks[1..], key)
  }

  function StageIndex(stages: seq<StageSpec>, key: LogicalKey): (i: nat)
    ensures i <= |stages|
    ensures i < |stages| ==> stages[i].logicalKey == key
    ensures forall j :: 0 <= j < i ==> stages[j].logicalKey != key
  {
    if stages == [] || stages[0].logicalKey == key then 0 else 1 + StageIndex(stages[1..], key)
  }

  ghost function TaskKeys(plan: ExecutionPlan): set<LogicalKey> {
    set t | t in plan.tasks :: t.logicalKey
  }

  ghost function DependencyKeys(task: TaskSpec): set<LogicalKey> {
    set d | d in task.dependencies :: d.taskKey
  }

  /** Each task key with the keys it depends on; a repeated key stands for its first task. */
  ghost function DependencyGraph(plan: ExecutionPlan): Digraph<LogicalKey> {
    map k | k in TaskKeys(plan) ::
      var i := TaskIndex(plan.tasks, k);
      if i < |plan.tasks| then DependencyKeys(plan.tasks[i]) else {}
  }

  ghost predicate StageFine(plan: ExecutionPlan, i: nat)
    requires i < |plan.stages|
  {
    var stage := plan.stages[i];
    && stage.initialStatus in {Planned, Active}
    && (stage.assigneeKind.Some? <==> stage.assigneeRef.Some?)
    && forall j :: i < j < |plan.stages| ==> plan.stages[j].logicalKey != stage.logicalKey
  }

  ghost predicate StageActive(plan: ExecutionPlan, key: LogicalKey) {
    var i := StageIndex(plan.stages, key);
    i < |plan.stages| && plan.stages[i].initialStatus == Active
  }

  ghost predicate DependencyFine(plan: ExecutionPlan, task: TaskSpec, i: nat)
    requires i < |task.dependencies|
  {
    var key := task.dependencies[i].taskKey;
    && key != task.logicalKey
    && key in TaskKeys(plan)
    && forall j :: i < j < |task.dependencies| ==> task.dependencies[j].taskKey != key
  }

  ghost predicate PointerFine(task: TaskSpec, i: nat)
    requires i < |task.contextProjection|
  {
    var pointer := task.contextProjection[i];
    && ['/'] <= pointer
    && forall j :: i < j < |task.contextProjection| ==> task.contextProjection[j] != pointer
  }

  ghost predicate TaskFine(plan: ExecutionPlan, i: nat)
    requires i < |plan.tasks|
  {
    var task := plan.tasks[i];
    && task.maxAttempts > 0
    && (forall j :: i < j < |plan.tasks| ==> plan.tasks[j].logicalKey != task.logicalKey)
    && (task.stageKey.Some? ==> StageActive(plan, task.stageKey.value))
    && (forall j :: 0 <= j < |task.dependencies| ==> DependencyFine(plan, task, j))
    && (forall j :: 0 <= j < |task.contextProjection| ==> PointerFine(task, j))
  }

  /** Everything the validator asks of a plan before it looks for cycles. */
  ghost predicate EarlierChecksPass(plan: ExecutionPlan) {
    && plan.schemaVersion == EXECUTION_PLAN_SCHEMA_VERSION
    && plan.tasks != []
    && (forall i :: 0 <= i < |plan.stages| ==> StageFine(plan, i))
    && (forall i :: 0 <= i < |plan.tasks| ==> TaskFine(plan, i))
  }

  ghost predicate WellShaped(plan: ExecutionPlan) {
    EarlierChecksPass(plan) && !Cyclic(DependencyGraph(plan))
  }

  /** What is wrong with the plan when the validator answers `e`. */
  ghost predicate Exhibits(plan: ExecutionPlan, e: ShapeError) {
    match e
    case UnsupportedSchemaVersion => plan.schemaVersion != EXECUTION_PLAN_SCHEMA_VERSION
    case NoInitialTasks => plan.tasks == []
    case InvalidInitialStageStatus => exists s :: s in plan.stages && s.initialStatus !in {Planned, Active}
    case IncompleteStageAssignee => exists s :: s in plan.stages && s.assigneeKind.Some? != s.assigneeRef.Some?
    case DuplicateStageKey =>
      exists i, j :: 0 <= i < j < |plan.stages| && plan.stages[i].logicalKey == plan.stages[j].logicalKey
    case ZeroTaskAttempts => exists t :: t in plan.tasks && t.maxAttempts == 0
    case DuplicateTaskKey =>
      exists i, j :: 0 <= i < j < |plan.tasks| && plan.tasks[i].logicalKey == plan.tasks[j].logicalKey
    case UnknownTaskStage =>
      exists t :: t in plan.tasks && t.stageKey.Some? && StageIndex(plan.stages, t.stageKey.value) == |plan.stages|
    case TaskStageNotActive =>
      exists t :: t in plan.tasks && t.stageKey.Some?
        && StageIndex(plan.stages, t.stageKey.value) < |plan.stages| && !StageActive(plan, t.stageKey.value)
    case UnknownDependency =>
      exists t, d :: t in plan.tasks && d in t.dependencies && d.taskKey !in TaskKeys(plan)
    case SelfDependency => exists t, d :: t in plan.tasks && d in t.dependencies && d.taskKey == t.logicalKey
    case DuplicateDependency =>
      exists t, i, j :: t in plan.tasks && 0 <= i < j < |t.dependencies|
        && t.dependencies[i].taskKey == t.dependencies[j].taskKey
    case DependencyCycle => Cyclic(DependencyGraph(plan))
    case InvalidContextProjection =>
      exists t, i :: t in plan.tasks && 0 <= i < |t.contextProjection| && !PointerFine(t, i)
  }

  // ---------------------------------------------------------------- the cycle search

  /** The vector of keys on the current search path, shared by all levels of the recursion. */
  class PathStack {
    var keys: seq<LogicalKey>

    constructor ()
      ensures keys == []
    {
      keys := [];
    }
  }

  ghost function Members(keys: seq<LogicalKey>): set<LogicalKey> {
    set k | k in keys
  }

  /** Depth-first search that pushes the current key, recurses and pops it again. */
  method DependencyReaches(plan: ExecutionPlan, current: LogicalKey, target: LogicalKey, visited: PathStack)
    returns (reaches: bool)
    modifies visited
    ensures visited.keys == old(visited.keys)
    ensures reaches <==> SimplyReaches(DependencyGraph(plan), current, target, Members(visited.keys))
    decreases TaskKeys(plan) - Members(visited.keys)
  {
    ghost var g := DependencyGraph(plan);
    ghost var before := Members(visited.keys);
    if current in visited.keys {
      forall p ensures !SimplePath(g, p, current, target, before) {
        if Walk(g, p, current, target) {
          assert p[0] in before;
        }
      }
      return false;
    }
    SimplyReachesStep(g, current, target, before);
    visited.keys := visited.keys + [current];
    assert Members(visited.keys) == before + {current};
    reaches := false;
    var found := TaskIndex(plan.tasks, current);
    if found < |plan.tasks| {
      var dependencies := plan.tasks[found].dependencies;
      assert current in TaskKeys(plan);
      assert forall d :: d in g[current] <==> exists i :: 0 <= i < |dependencies| && dependencies[i].taskKey == d;
      var i := 0;
      while i < |dependencies| && !reaches
        invariant i <= |dependencies|
        invariant visited.keys == old(visited.keys) + [current]
        invariant reaches ==> exists d :: Edge(g, current, d) && (d == target || SimplyReaches(g, d, target, before + {current}))
        invariant !reaches ==> forall j :: 0 <= j < i ==>
          dependencies[j].taskKey != target && !SimplyReaches(g, dependencies[j].taskKey, target, before + {current})
      {
        var key := dependencies[i].taskKey;
        assert Edge(g, current, key);
        if key == target {
          reaches := true;
        } else {
          reaches := DependencyReaches(plan, key, target, visited);
        }
        i := i + 1;
      }
    } else {
      assert current !in g;
    }
    visited.keys := visited.keys[..|visited.keys| - 1];
    assert visited.keys == old(visited.keys);
  }

  /** The search from a task back to itself, started with an empty path, decides its cycles. */
  method OnCycle(plan: ExecutionPlan, key: LogicalKey) returns (cyclic: bool)
    ensures cyclic <==> Reaches(DependencyGraph(plan), key, key)
  {
    var visited := new PathStack();
    assert Members(visited.keys) == {};
    cyclic := DependencyReaches(plan, key, key, visited);
    ReachesSimply(DependencyGraph(plan), key, key);
  }

  // ---------------------------------------------------------------- the validator

  method ValidateStages(plan: ExecutionPlan) returns (r: Result<(), ShapeError>)
    ensures r.Ok? <==> forall i :: 0 <= i < |plan.stages| ==> StageFine(plan, i)
    ensures r.Err? ==> Exhibits(plan, r.error) && r.error != DependencyCycle
  {
    for index := 0 to |plan.stages|
      invariant forall i :: 0 <= i < index ==> StageFine(plan, i)
    {
      var stage := plan.stages[index];
      if stage.initialStatus != Planned && stage.initialStatus != Active {
        assert !StageFine(plan, index);
        return Err(InvalidInitialStageStatus);
      }
      if stage.assigneeKind.Some? != stage.assigneeRef.Some? {
        assert !StageFine(plan, index);
        return Err(IncompleteStageAssignee);
      }
      if exists j :: index + 1 <= j < |plan.stages| && plan.stages[j].logicalKey == stage.logicalKey {
        assert !StageFine(plan, index);
        return Err(DuplicateStageKey);
      }
    }
    return Ok(());
  }

  method ValidateDependencies(plan: ExecutionPlan, task: TaskSpec) returns (r: Result<(), ShapeError>)
    requires task in plan.tasks
    ensures r.Ok? <==> forall i :: 0 <= i < |task.dependencies| ==> DependencyFine(plan, task, i)
    ensures r.Err? ==> Exhibits(plan, r.error) && r.error != DependencyCycle
  {
    for index := 0 to |task.dependencies|
      invariant forall i :: 0 <= i < index ==> DependencyFine(plan, task, i)
    {
      var dependency := task.dependencies[index];
      if dependency.taskKey == task.logicalKey {
        assert !DependencyFine(plan, task, index);
        return Err(SelfDependency);
      }
      if !exists j :: 0 <= j < |plan.tasks| && plan.tasks[j].logicalKey == dependency.taskKey {
        assert !DependencyFine(plan, task, index);
        return Err(UnknownDependency);
      }
      if exists j :: index + 1 <= j < |task.dependencies| && task.dependencies[j].taskKey == dependency.taskKey {
        assert !DependencyFine(plan, task, index);
        return Err(DuplicateDependency);
      }
    }
    return Ok(());
  }

  method ValidateProjection(plan: ExecutionPlan, task: TaskSpec) returns (r: Result<(), ShapeError>)
    requires task in plan.tasks
    ensures r.Ok? <==> forall i :: 0 <= i < |task.contextProjection| ==> PointerFine(task, i)
    ensures r.Err? ==> Exhibits(plan, r.error) && r.error != DependencyCycle
  {
    for index := 0 to |task.contextProjection|
      invariant forall i :: 0 <= i < index ==> PointerFine(task, i)
    {
      var pointer := task.contextProjection[index];
      if !(['/'] <= pointer) || pointer in task.contextProjection[index + 1..] {
        assert !PointerFine(task, index);
        return Err(InvalidContextProjection);
      }
    }
    return Ok(());
  }

  method ValidateTask(plan: ExecutionPlan, index: nat) returns (r: Result<(), ShapeError>)
    requires index < |plan.tasks|
    ensures r.Ok? <==> TaskFine(plan, index)
    ensures r.Err? ==> Exhibits(plan, r.error) && r.error != DependencyCycle
  {
    var task := plan.tasks[index];
    if task.maxAttempts == 0 {
      return Err(ZeroTaskAttempts);
    }
    if exists j :: index + 1 <= j < |plan.tasks| && plan.tasks[j].logicalKey == task.logicalKey {
      return Err(DuplicateTaskKey);
    }
    if task.stageKey.Some? {
      var stage := StageIndex(plan.stages, task.stageKey.value);
      if stage == |plan.stages| {
        return Err(UnknownTaskStage);
      }
      if plan.stages[stage].initialStatus != Active {
        return Err(TaskStageNotActive);
      }
    }
    r := ValidateDependencies(plan, task);
    if r.Ok? {
      r := ValidateProjection(plan, task);
    }
  }

  method ValidateShape(plan: ExecutionPlan) returns (r: Result<(), ShapeError>)
    ensures r.Ok? <==> WellShaped(plan)
    ensures r == Err(DependencyCycle) <==> EarlierChecksPass(plan) && Cyclic(DependencyGraph(plan))
    ensures r.Err? ==> Exhibits(plan, r.error)
  {
    if plan.schemaVersion != EXECUTION_PLAN_SCHEMA_VERSION {
      return Err(UnsupportedSchemaVersion);
    }
    if plan.tasks == [] {
      return Err(NoInitialTasks);
    }
    r := ValidateStages(plan);
    if r.Err? {
      return;
    }
    for index := 0 to |plan.tasks|
      invariant forall i :: 0 <= i < index ==> TaskFine(plan, i)
    {
      r := ValidateTask(plan, index);
      if r.Err? {
        return;
      }
    }
    ghost var g := DependencyGraph(plan);
    for index := 0 to |plan.tasks|
      invariant forall i :: 0 <= i < index ==> !Reaches(g, plan.tasks[i].logicalKey, plan.tasks[i].logicalKey)
    {
      var cyclic := OnCycle(plan, plan.tasks[index].logicalKey);
      if cyclic {
        return Err(DependencyCycle);
      }
    }
    CycleHasTask(plan);
    return Ok(());
  }

  // ---------------------------------------------------------------- consequences

  /** A dependency cycle runs through some task of the plan. */
  lemma CycleHasTask(plan: ExecutionPlan)
    ensures var g := DependencyGraph(plan);
            Cyclic(g) ==> exists i :: 0 <= i < |plan.tasks| && Reaches(g, plan.tasks[i].logicalKey, plan.tasks[i].logicalKey)
  {
    var g := DependencyGraph(plan);
    if k :| Reaches(g, k, k) {
      var p :| Walk(g, p, k, k);
      assert Edge(g, p[0], p[1]);
      var i := TaskIndex(plan.tasks, k);
      assert plan.tasks[i].logicalKey == k;
    }
  }

  lemma TaskKeyIsFound(plan: ExecutionPlan, i: nat)
    requires EarlierChecksPass(plan) && i < |plan.tasks|
    ensures TaskIndex(plan.tasks, plan.tasks[i].logicalKey) == i
  {
    var j := TaskIndex(plan.tasks, plan.tasks[i].logicalKey);
    assert j <= i;
    assert TaskFine(plan, j);
  }

  lemma DependencyGraphIsClosed(plan: ExecutionPlan)
    requires EarlierChecksPass(plan)
    ensures Closed(DependencyGraph(plan))
  {
    var g := DependencyGraph(plan);
    forall u, v | Edge(g, u, v) ensures v in g {
      var i := TaskIndex(plan.tasks, u);
      assert TaskFine(plan, i);
      var d :| d in plan.tasks[i].dependencies && d.taskKey == v;
      var j :| 0 <= j < |plan.tasks[i].dependencies| && plan.tasks[i].dependencies[j] == d;
      assert DependencyFine(plan, plan.tasks[i], j);
    }
  }

  /** A plan that passes the earlier checks is accepted exactly when its tasks can be put in an
      order in which every dependency comes first. */
  lemma AcceptedIffSchedulable(plan: ExecutionPlan)
    requires EarlierChecksPass(plan)
    ensures WellShaped(plan) <==> exists order :: TopologicalOrder(DependencyGraph(plan), order)
  {
    DependencyGraphIsClosed(plan);
    AcyclicIffOrdered(DependencyGraph(plan));
  }
}
