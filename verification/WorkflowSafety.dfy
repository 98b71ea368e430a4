/**
 What every run of the workflow engine keeps: the shape of each step log, the
 agreement of memory with the durable checkpoint, and that no step is ever
 dispatched twice or without its marker on disk.
 */
module WorkflowSafety {
  import opened Wrappers
  import opened JsonValue
  import opened WorkflowEngine
  import Obs = ObservationLog
  import Waits = ObservationWaits

  // --- The step log -------------------------------------------------------

  ghost predicate Done(r: StepResult) { r.outcome != Waits.Running }

  /** A finished action step has a result or admits that it may have happened. */
  ghost predicate Accounted(step: Step, r: StepResult) {
    && r.name == step.name
    && (Done(r) && step.operation.Act? ==> r.result.Some? || r.mayHaveCompleted)
  }

  /** A step that the workflow was allowed to go past. */
  ghost predicate Passed(step: Step, r: StepResult) {
    Done(r) && (r.outcome != Waits.Satisfied ==> step.continueOnError && r.outcome != Waits.Canceled)
  }

  /** The log is an in-order prefix of the declared steps; all but the last were passed. */
  ghost predicate LogOk(def: Definition, steps: seq<StepResult>) {
    && DistinctNames(def.steps)
    && |steps| <= |def.steps|
    && (forall i | 0 <= i < |steps| :: Accounted(def.steps[i], steps[i]))
    && (forall i | 0 <= i < |steps| - 1 :: Passed(def.steps[i], steps[i]))
  }

  ghost predicate AllDone(steps: seq<StepResult>) { forall i | 0 <= i < |steps| :: Done(steps[i]) }

  ghost predicate AllSatisfied(def: Definition, steps: seq<StepResult>) {
    |steps| == |def.steps| && forall i | 0 <= i < |steps| :: steps[i].outcome == Waits.Satisfied
  }

  ghost predicate RecordOk(record: Record) {
    && LogOk(record.definition, record.steps)
    && (record.outcome != Waits.Running ==> AllDone(record.steps))
    && (record.outcome == Waits.Satisfied ==> AllSatisfied(record.definition, record.steps))
  }

  // --- A running task -----------------------------------------------------

  /** How many leading steps are behind the task. */
  function Behind(task: Task, steps: seq<StepResult>): nat {
    match task.phase
    case Ending(_) => |steps|
    case Output(i, _) => i
    case _ => task.phase.i
  }

  /** How many leading steps may have been dispatched. */
  function Frontier(task: Task, steps: seq<StepResult>): nat {
    match task.phase
    case Ending(_) => |steps|
    case Output(i, _) => i + 1
    case Dispatched(i) => i + 1
    case _ => task.phase.i
  }

  ghost predicate PassedAll(def: Definition, steps: seq<StepResult>, n: nat)
    requires n <= |steps| && n <= |def.steps|
  {
    forall i | 0 <= i < n :: Passed(def.steps[i], steps[i])
  }

  ghost predicate PhaseOk(def: Definition, steps: seq<StepResult>, task: Task) {
    && |steps| <= |def.steps|
    && match task.phase
       case Head(i) => i == |steps| && PassedAll(def, steps, i)
       case Ending(outcome) =>
         outcome != Waits.Running && AllDone(steps) && (outcome == Waits.Satisfied <==> AllSatisfied(def, steps))
       case Output(i, r) =>
         && |steps| == i + 1 && steps[i].outcome == Waits.Running
         && Done(r) && Accounted(def.steps[i], r)
       case _ =>
         && |steps| == task.phase.i + 1 && steps[task.phase.i].outcome == Waits.Running
         && (task.phase.Queued? || task.phase.Writing? || task.phase.Flushed? || task.phase.Dispatched? ==>
               def.steps[task.phase.i].operation.Act?)
  }

  ghost predicate TaskOk(record: Record, task: Task) {
    var def, steps := record.definition, record.steps;
    && record.outcome == Waits.Running
    && LogOk(def, steps)
    && PhaseOk(def, steps, task)
    && (!task.phase.Ending? ==>
          && (task.hadFailure <==> exists i :: 0 <= i < Behind(task, steps) && steps[i].outcome != Waits.Satisfied)
          && task.previous.Keys <= NamesBefore(def.steps, Behind(task, steps)))
  }

  // --- The checkpoint -----------------------------------------------------

  /** `saved` is what `now` was some time ago. */
  ghost predicate Older(saved: Record, now: Record) {
    && saved.definition == now.definition && saved.owner == now.owner
    && |saved.steps| <= |now.steps|
  }

  ghost predicate SavedOk(saved: map<Uuid, Record>, records: map<Uuid, Record>, used: set<Uuid>) {
    forall id | id in saved ::
      && id in used
      && saved[id].definition.lifetime == Obs.Persistent
      && RecordOk(saved[id])
      && (id in records ==> Older(saved[id], records[id]))
  }

  /** The marker of a step is in a checkpoint: the step is there, and running. */
  ghost predicate MarkerIn(saved: map<Uuid, Record>, id: Uuid, i: nat) {
    id in saved && i < |saved[id].steps| && saved[id].steps[i].outcome == Waits.Running
  }

  ghost predicate IsPersistent(s: State, id: Uuid) {
    id in s.records && s.records[id].definition.lifetime == Obs.Persistent
  }

  /** Between the marker and the result, every checkpoint that can become durable shows the step running. */
  ghost predicate MarkerOk(s: State, id: Uuid) {
    id in s.tasks && IsPersistent(s, id) ==>
      match s.tasks[id].phase
      case Writing(i) =>
        s.flight.Some? && s.flight.value.writer == ForStep(id) && s.flight.value.step == i && MarkerIn(s.flight.value.saved, id, i)
      case Flushed(i) => MarkerIn(s.durable, id, i) && (s.flight.Some? ==> MarkerIn(s.flight.value.saved, id, i))
      case Dispatched(i) => MarkerIn(s.durable, id, i) && (s.flight.Some? ==> MarkerIn(s.flight.value.saved, id, i))
      case _ => true
  }

  // --- Dispatches ---------------------------------------------------------

  /** The dispatched action is in a log. */
  ghost predicate InLog(saved: map<Uuid, Record>, d: Dispatch) {
    && d.id in saved && d.step < |saved[d.id].steps|
    && d.step < |saved[d.id].definition.steps| && saved[d.id].definition.steps[d.step].operation.Act?
  }

  ghost predicate DispatchOk(s: State, d: Dispatch) {
    && d.id in s.used
    && (d.id in s.records ==> InLog(s.records, d))
    && (d.id in s.tasks && d.id in s.records ==> d.step < Frontier(s.tasks[d.id], s.records[d.id].steps))
    && (IsPersistent(s, d.id) || d.id in s.durable ==> InLog(s.durable, d))
    && (s.flight.Some? ==> (IsPersistent(s, d.id) || d.id in s.flight.value.saved ==> InLog(s.flight.value.saved, d)))
  }

  ghost predicate AtMostOnce(dispatches: seq<Dispatch>) {
    forall a, b | 0 <= a < b < |dispatches| :: dispatches[a] != dispatches[b]
  }

  // --- Connections and handles --------------------------------------------

  ghost predicate Tidy(s: State) {
    && s.handles == s.tasks.Keys
    && s.tasks.Keys <= s.records.Keys <= s.used
    && (forall id | id in s.records :: id !in s.tasks ==> s.records[id].outcome != Waits.Running)
    && s.retired <= s.tasks.Keys
    && (forall id | id in s.retired :: id in s.records ==> s.records[id].definition.lifetime == Obs.Connection)
    && s.swept <= s.closed
    && (forall id | id in s.records && s.records[id].definition.lifetime == Obs.Connection ::
          s.records[id].owner in s.swept ==> id in s.retired)
  }

  ghost predicate TasksOk(s: State) {
    forall id | id in s.tasks :: id in s.records && TaskOk(s.records[id], s.tasks[id])
  }

  ghost predicate RecordsOk(s: State) {
    forall id | id in s.records :: RecordOk(s.records[id])
  }

  ghost predicate CheckpointOk(s: State) {
    && SavedOk(s.durable, s.records, s.used)
    && (s.flight.Some? ==> SavedOk(s.flight.value.saved, s.records, s.used))
  }

  ghost predicate MarkersOk(s: State) { forall id | id in s.tasks :: MarkerOk(s, id) }

  ghost predicate DispatchesOk(s: State) {
    AtMostOnce(s.dispatches) && forall d | d in s.dispatches :: DispatchOk(s, d)
  }

  ghost predicate Inv(s: State) {
    Grounded(s) && Tidy(s) && RecordsOk(s) && TasksOk(s) && CheckpointOk(s) && MarkersOk(s) && DispatchesOk(s)
  }

  // --- Steps of one task --------------------------------------------------

  /** Only one task and its record change; the step log may grow but keeps its length or more. */
  ghost predicate Local(s: State, s': State, id: Uuid) {
    && id in s.tasks && id in s.records
    && s' == s.(tasks := s'.tasks, records := s'.records, dispatches := s'.dispatches)
    && s'.tasks.Keys == s.tasks.Keys && s'.records.Keys == s.records.Keys
    && (forall other | other in s.tasks && other != id :: s'.tasks[other] == s.tasks[other])
    && (forall other | other in s.records && other != id :: s'.records[other] == s.records[other])
    && Older(s.records[id], s'.records[id])
    && s'.records[id].outcome == s.records[id].outcome
  }

  lemma LocalKeepsCheckpoint(s: State, s': State, id: Uuid)
    requires CheckpointOk(s) && Local(s, s', id)
    ensures CheckpointOk(s')
  {}

  lemma LocalKeepsTidy(s: State, s': State, id: Uuid)
    requires Tidy(s) && Local(s, s', id)
    ensures Tidy(s')
  {}

  lemma LocalKeepsTasks(s: State, s': State, id: Uuid)
    requires Local(s, s', id)
    requires TasksOk(s) && TaskOk(s'.records[id], s'.tasks[id])
    ensures TasksOk(s')
  {
    forall other | other in s'.tasks
      ensures other in s'.records && TaskOk(s'.records[other], s'.tasks[other])
    {
      if other != id {
        assert TaskOk(s.records[other], s.tasks[other]);
      }
    }
  }

  lemma LocalKeepsRecords(s: State, s': State, id: Uuid)
    requires Local(s, s', id)
    requires RecordsOk(s) && RecordOk(s'.records[id])
    ensures RecordsOk(s')
  {
    forall other | other in s'.records
      ensures RecordOk(s'.records[other])
    {
      if other != id {
        assert RecordOk(s.records[other]);
      }
    }
  }

  /** Every task is on a declared step. */
  lemma TasksAreGrounded(s: State)
    requires TasksOk(s)
    ensures Grounded(s)
  {
    forall id | id in s.tasks
      ensures Busy(s.tasks[id].phase) || s.tasks[id].phase.Output? ==>
                s.tasks[id].phase.i < |s.records[id].definition.steps|
    {
      assert TaskOk(s.records[id], s.tasks[id]);
    }
  }

  lemma LocalKeepsMarkers(s: State, s': State, id: Uuid)
    requires MarkersOk(s) && Local(s, s', id) && MarkerOk(s', id)
    ensures MarkersOk(s')
  {
    forall other | other in s'.tasks
      ensures MarkerOk(s', other)
    {
      if other != id {
        assert MarkerOk(s, other);
      }
    }
  }

  lemma LocalKeepsDispatches(s: State, s': State, id: Uuid)
    requires DispatchesOk(s) && Local(s, s', id) && s'.dispatches == s.dispatches
    requires Frontier(s'.tasks[id], s'.records[id].steps) >= Frontier(s.tasks[id], s.records[id].steps)
    ensures DispatchesOk(s')
  {
    forall d | d in s'.dispatches
      ensures DispatchOk(s', d)
    {
      assert DispatchOk(s, d);
    }
  }

  /** What a step of one task owes; the rest follows because it is local. */
  ghost predicate LocallyOk(s: State, s': State, id: Uuid) {
    && Local(s, s', id)
    && TaskOk(s'.records[id], s'.tasks[id]) && RecordOk(s'.records[id]) && MarkerOk(s', id)
  }

  lemma LocalKeepsInv(s: State, s': State, id: Uuid)
    requires Inv(s) && LocallyOk(s, s', id) && s'.dispatches == s.dispatches
    requires Frontier(s'.tasks[id], s'.records[id].steps) >= Frontier(s.tasks[id], s.records[id].steps)
    ensures Inv(s')
  {
    LocalKeepsCheckpoint(s, s', id);
    LocalKeepsTidy(s, s', id);
    LocalKeepsTasks(s, s', id);
    LocalKeepsRecords(s, s', id);
    TasksAreGrounded(s');
    LocalKeepsMarkers(s, s', id);
    LocalKeepsDispatches(s, s', id);
  }

  /** One task and its record replaced. */
  function Updated(s: State, id: Uuid, task: Task, record: Record): State {
    s.(tasks := s.tasks[id := task], records := s.records[id := record])
  }

  /** A task and its record move on together, away from the phases that rely on the marker. */
  ghost predicate MovesTo(task: Task, record: Record, task': Task, record': Record) {
    && TaskOk(record', task') && RecordOk(record')
    && Older(record, record') && record'.outcome == record.outcome
    && (task'.phase.Head? || task'.phase.Marked? || task'.phase.Ending? || task'.phase.Output?)
    && Frontier(task', record'.steps) >= Frontier(task, record.steps)
  }

  lemma UpdateKeepsInv(s: State, id: Uuid, task: Task, record: Record)
    requires Inv(s) && id in s.tasks && MovesTo(s.tasks[id], s.records[id], task, record)
    ensures Inv(Updated(s, id, task, record))
  {
    assert Local(s, Updated(s, id, task, record), id);
    LocalKeepsInv(s, Updated(s, id, task, record), id);
  }

  // --- The log functions --------------------------------------------------

  /** The entry of a new step is added at the end: no earlier step has its name. */
  lemma NewStepIsAppended(record: Record, r: StepResult)
    requires LogOk(record.definition, record.steps) && |record.steps| < |record.definition.steps|
    requires r.name == record.definition.steps[|record.steps|].name
    ensures WithStep(record, r) == record.(steps := record.steps + [r])
  {
    assert forall i | 0 <= i < |record.steps| :: record.steps[i].name == record.definition.steps[i].name;
  }

  /** The result of the current step replaces its marker. */
  lemma LastStepIsReplaced(record: Record, r: StepResult)
    requires LogOk(record.definition, record.steps) && |record.steps| > 0
    requires r.name == record.definition.steps[|record.steps| - 1].name
    ensures Find(record.steps, r.name) == |record.steps| - 1
    ensures WithStep(record, r) == record.(steps := record.steps[|record.steps| - 1 := r])
  {
    assert forall i | 0 <= i < |record.steps| :: record.steps[i].name == record.definition.steps[i].name;
  }

  /** Moving on within a step: the record stays as it is. */
  lemma SameStep(record: Record, task: Task, phase: Phase)
    requires TaskOk(record, task) && Busy(task.phase)
    requires var i := task.phase.i;
             var step := record.definition.steps[i];
             || (phase.Output? && phase.i == i && Done(phase.r) && Accounted(step, phase.r))
             || (Busy(phase) && phase.i == i && (phase.Marked? || phase.Waiting? || step.operation.Act?))
    ensures TaskOk(record, task.(phase := phase))
  {
    assert forall steps: seq<StepResult> :: Behind(task.(phase := phase), steps) == Behind(task, steps);
  }

  /** A change of phase alone, away from the phases that rely on the marker. */
  lemma PhaseChangeIsLocal(s: State, id: Uuid, phase: Phase)
    requires id in s.tasks && id in s.records
    ensures Local(s, WithPhase(s, id, phase), id) && WithPhase(s, id, phase).records == s.records
    ensures WithPhase(s, id, phase).tasks[id] == s.tasks[id].(phase := phase)
  {}

  lemma UnmarkedPhase(s: State, id: Uuid, phase: Phase)
    requires id in s.tasks
    requires phase.Output? || phase.Waiting? || phase.Queued? || (phase.Flushed? && !IsPersistent(s, id))
    ensures MarkerOk(WithPhase(s, id, phase), id)
  {}

  lemma PhaseChangeKeepsInv(s: State, id: Uuid, phase: Phase)
    requires Inv(s) && id in s.tasks && Busy(s.tasks[id].phase)
    requires TaskOk(s.records[id], s.tasks[id].(phase := phase))
    requires phase.Output? || phase.Waiting? || phase.Queued? || (phase.Flushed? && !IsPersistent(s, id))
    requires phase.Output? || s.tasks[id].phase.Marked?
    requires phase.i == s.tasks[id].phase.i
    ensures Inv(WithPhase(s, id, phase))
  {
    var s' := WithPhase(s, id, phase);
    assert RecordOk(s.records[id]);
    PhaseChangeIsLocal(s, id, phase);
    UnmarkedPhase(s, id, phase);
    LocalKeepsInv(s, s', id);
  }

  /** Where preparing a step leads. */
  lemma PreparedPhase(s: State, id: Uuid) returns (phase: Phase)
    requires id in s.tasks && s.tasks[id].phase.Marked? && id in s.records
    requires s.tasks[id].phase.i < |s.records[id].definition.steps|
    ensures Prepared(s, id) == WithPhase(s, id, phase)
    ensures var step := StepAt(s, id, s.tasks[id].phase.i);
            || phase == Output(s.tasks[id].phase.i, Failure(step))
            || (step.operation.Await? && phase == Waiting(s.tasks[id].phase.i))
            || (step.operation.Act? && IsPersistent(s, id) && phase == Queued(s.tasks[id].phase.i))
            || (step.operation.Act? && !IsPersistent(s, id) && phase == Flushed(s.tasks[id].phase.i))
  {
    phase := Prepared(s, id).tasks[id].phase;
  }

  lemma PrepareKeepsInv(s: State, id: Uuid)
    requires Inv(s) && Possible(s, Prepare(id))
    ensures Inv(Prepared(s, id))
  {
    assert TaskOk(s.records[id], s.tasks[id]);
    var phase := PreparedPhase(s, id);
    SameStep(s.records[id], s.tasks[id], phase);
    PhaseChangeKeepsInv(s, id, phase);
  }

  lemma ReturnKeepsInv(s: State, id: Uuid, outcome: Outcome, value: Option<Json>)
    requires Inv(s) && Possible(s, Return(id, outcome, value))
    ensures Inv(Returned(s, id, outcome, value))
  {
    var record, task := s.records[id], s.tasks[id];
    assert TaskOk(record, task);
    var phase := Returned(s, id, outcome, value).tasks[id].phase;
    SameStep(record, task, phase);
    PhaseChangeKeepsInv(s, id, phase);
  }

  lemma InterruptKeepsInv(s: State, id: Uuid, timedOut: bool)
    requires Inv(s) && Possible(s, Interrupt(id, timedOut))
    ensures Inv(Interrupted(s, id, timedOut))
  {
    var record, task := s.records[id], s.tasks[id];
    assert TaskOk(record, task);
    var phase := Interrupted(s, id, timedOut).tasks[id].phase;
    SameStep(record, task, phase);
    PhaseChangeKeepsInv(s, id, phase);
  }

  // --- The loop head ------------------------------------------------------

  lemma MarkedTask(record: Record, task: Task, r: StepResult)
    requires TaskOk(record, task) && task.phase.Head? && |record.steps| < |record.definition.steps|
    requires r == StepResult(record.definition.steps[|record.steps|].name, Waits.Running, None, false)
    ensures var record' := record.(steps := record.steps + [r]);
            var task' := task.(phase := Marked(task.phase.i));
            TaskOk(record', task') && RecordOk(record') && Older(record, record')
  {
    var record' := record.(steps := record.steps + [r]);
    var task' := task.(phase := Marked(task.phase.i));
    assert Behind(task', record'.steps) == Behind(task, record.steps) == |record.steps|;
    assert forall i | 0 <= i < |record.steps| :: record'.steps[i] == record.steps[i];
    assert LogOk(record.definition, record'.steps);
  }

  lemma EndedTask(record: Record, task: Task, outcome: Outcome)
    requires TaskOk(record, task) && task.phase.Head? && outcome != Waits.Running
    requires outcome == Waits.Satisfied <==> |record.steps| == |record.definition.steps| && !task.hadFailure
    ensures TaskOk(record, task.(phase := Ending(outcome)))
  {
    assert Behind(task, record.steps) == |record.steps|;
  }

  /** Where the loop head leads: to an end, or to the marker of the next step. */
  lemma EnteredShape(s: State, id: Uuid, late: bool) returns (task: Task, record: Record)
    requires id in s.tasks && id in s.records && s.tasks[id].phase.Head?
    requires TaskOk(s.records[id], s.tasks[id]) && RecordOk(s.records[id])
    ensures MovesTo(s.tasks[id], s.records[id], task, record)
    ensures Entered(s, id, late) == Updated(s, id, task, record)
  {
    record, task := s.records[id], s.tasks[id];
    var i := task.phase.i;
    if i >= |record.definition.steps| || Stopped(s, id, task) || late {
      var outcome :=
        if i >= |record.definition.steps| then if task.hadFailure then Waits.Outcome.Failed else Waits.Satisfied
        else if Stopped(s, id, task) then Waits.Canceled else Waits.TimedOut;
      EndedTask(record, task, outcome);
      task := task.(phase := Ending(outcome));
      assert s.records[id := record] == s.records;
    } else {
      var r := StepResult(StepAt(s, id, i).name, Waits.Running, None, false);
      NewStepIsAppended(record, r);
      MarkedTask(record, task, r);
      task, record := task.(phase := Marked(i)), record.(steps := record.steps + [r]);
    }
  }

  lemma EnterKeepsInv(s: State, id: Uuid, late: bool)
    requires Inv(s) && Possible(s, Enter(id, late))
    ensures Inv(Entered(s, id, late))
  {
    assert TaskOk(s.records[id], s.tasks[id]) && RecordOk(s.records[id]);
    var task, record := EnteredShape(s, id, late);
    UpdateKeepsInv(s, id, task, record);
  }

  // --- Recording a result -------------------------------------------------

  lemma LoggedResult(record: Record, i: nat, r: StepResult)
    requires LogOk(record.definition, record.steps) && |record.steps| == i + 1
    requires Done(r) && Accounted(record.definition.steps[i], r)
    ensures var record' := record.(steps := record.steps[i := r]);
            LogOk(record'.definition, record'.steps) && Older(record, record')
    ensures AllDone(record.steps[i := r])
  {
    assert forall j | 0 <= j < i :: Passed(record.definition.steps[j], record.steps[j]);
  }

  /** The task after a result: behind it are the steps it passed, and what it knows is theirs. */
  lemma RecordedTask(record: Record, task: Task, r: StepResult, stored: Option<Json>, phase: Phase)
    requires TaskOk(record, task) && task.phase.Output? && Done(r)
    requires var i := task.phase.i; Accounted(record.definition.steps[i], r)
    requires var i := task.phase.i;
             var step := record.definition.steps[i];
             phase == (if r.outcome == Waits.Canceled then Ending(Waits.Canceled)
                       else if r.outcome != Waits.Satisfied && !step.continueOnError then Ending(r.outcome)
                       else Head(i + 1))
    ensures var i := task.phase.i;
            var step := record.definition.steps[i];
            var previous := if stored.Some? then task.previous[step.name := stored.value] else task.previous;
            var record' := record.(steps := record.steps[i := r]);
            TaskOk(record', Task(task.connection, phase, previous, task.hadFailure || r.outcome != Waits.Satisfied))
            && RecordOk(record')
  {
    var i := task.phase.i;
    LoggedResult(record, i, r);
    NamesGrow(record.definition.steps, i);
    var steps := record.steps[i := r];
    assert forall j | 0 <= j < i :: steps[j] == record.steps[j];
    if phase.Head? {
      assert PassedAll(record.definition, steps, i + 1);
      if task.hadFailure {
        var j :| 0 <= j < i && record.steps[j].outcome != Waits.Satisfied;
        assert steps[j].outcome != Waits.Satisfied;
      }
      if r.outcome != Waits.Satisfied {
        assert steps[i].outcome != Waits.Satisfied;
      }
    }
  }

  /** The result a task ends up with: as computed, or a failure when the store has no room for it. */
  function Kept(step: Step, r: StepResult, fits: bool): StepResult {
    if fits then r else r.(outcome := Waits.Outcome.Failed, result := None, mayHaveCompleted := step.operation.Act?)
  }

  function AfterResult(step: Step, task: Task, r: StepResult): Task
    requires task.phase.Output?
  {
    Task(task.connection,
         if r.outcome == Waits.Canceled then Ending(Waits.Canceled)
         else if r.outcome != Waits.Satisfied && !step.continueOnError then Ending(r.outcome)
         else Head(task.phase.i + 1),
         if r.result.Some? then task.previous[step.name := r.result.value] else task.previous,
         task.hadFailure || r.outcome != Waits.Satisfied)
  }

  lemma RecordedShape(s: State, id: Uuid, fits: bool) returns (task: Task, record: Record)
    requires id in s.tasks && id in s.records && s.tasks[id].phase.Output?
    requires TaskOk(s.records[id], s.tasks[id])
    ensures MovesTo(s.tasks[id], s.records[id], task, record)
    ensures Recorded(s, id, fits) == Updated(s, id, task, record)
  {
    record, task := s.records[id], s.tasks[id];
    var i := task.phase.i;
    var step := record.definition.steps[i];
    var r := Kept(step, task.phase.r, fits);
    LastStepIsReplaced(record, task.phase.r);
    LastStepIsReplaced(record, r);
    RecordedTask(record, task, r, r.result, AfterResult(step, task, r).phase);
    LoggedResult(record, i, r);
    task, record := AfterResult(step, task, r), record.(steps := record.steps[i := r]);
  }

  lemma RecordKeepsInv(s: State, id: Uuid, fits: bool)
    requires Inv(s) && Possible(s, KeepResult(id, fits))
    ensures Inv(Recorded(s, id, fits))
  {
    assert TaskOk(s.records[id], s.tasks[id]);
    var task, record := RecordedShape(s, id, fits);
    UpdateKeepsInv(s, id, task, record);
  }

  // --- Checkpoints --------------------------------------------------------

  /** What a snapshot saves is what there is now. */
  lemma SavedNow(s: State)
    requires RecordsOk(s) && s.records.Keys <= s.used
    ensures SavedOk(Persistent(s.records), s.records, s.used)
  {
    forall id | id in Persistent(s.records)
      ensures RecordOk(s.records[id])
    {}
  }

  /** A task whose phase alone changed, within its step or not at all. */
  lemma OnePhaseKeepsTasks(s: State, s': State, id: Uuid, phase: Phase)
    requires TasksOk(s) && id in s.tasks && Busy(s.tasks[id].phase)
    requires s'.records == s.records && s'.tasks == s.tasks[id := s.tasks[id].(phase := phase)]
    requires TaskOk(s.records[id], s.tasks[id].(phase := phase))
    ensures TasksOk(s') && Grounded(s')
  {
    forall other | other in s'.tasks
      ensures TaskOk(s'.records[other], s'.tasks[other])
    {
      assert TaskOk(s.records[other], s.tasks[other]);
    }
    TasksAreGrounded(s');
  }

  lemma SnapshotKeepsTasks(s: State, writer: Writer)
    requires TasksOk(s) && Possible(s, Snapshot(writer))
    ensures TasksOk(Snapped(s, writer)) && Grounded(Snapped(s, writer))
  {
    if writer.ForStep? {
      var id := writer.id;
      assert TaskOk(s.records[id], s.tasks[id]);
      SameStep(s.records[id], s.tasks[id], Writing(s.tasks[id].phase.i));
      OnePhaseKeepsTasks(s, Snapped(s, writer), id, Writing(s.tasks[id].phase.i));
    } else {
      TasksAreGrounded(s);
    }
  }

  lemma SnapshotKeepsMarkers(s: State, writer: Writer)
    requires TasksOk(s) && MarkersOk(s) && Possible(s, Snapshot(writer))
    ensures MarkersOk(Snapped(s, writer))
  {
    var s' := Snapped(s, writer);
    forall id | id in s'.tasks
      ensures MarkerOk(s', id)
    {
      assert MarkerOk(s, id) && TaskOk(s.records[id], s.tasks[id]);
    }
  }

  lemma SnapshotKeepsDispatches(s: State, writer: Writer)
    requires DispatchesOk(s) && Possible(s, Snapshot(writer))
    ensures DispatchesOk(Snapped(s, writer))
  {
    var s' := Snapped(s, writer);
    forall d | d in s'.dispatches
      ensures DispatchOk(s', d)
    {
      assert DispatchOk(s, d);
    }
  }

  lemma SnapshotKeepsInv(s: State, writer: Writer)
    requires Inv(s) && Possible(s, Snapshot(writer))
    ensures Inv(Snapped(s, writer))
  {
    SavedNow(s);
    SnapshotKeepsTasks(s, writer);
    SnapshotKeepsMarkers(s, writer);
    SnapshotKeepsDispatches(s, writer);
  }

  lemma WriteKeepsTasks(s: State, ok: bool)
    requires TasksOk(s) && s.flight.Some?
    ensures TasksOk(Written(s, ok)) && Grounded(Written(s, ok))
  {
    var flight := s.flight.value;
    if Awaited(s, flight) {
      var id := flight.writer.id;
      assert TaskOk(s.records[id], s.tasks[id]);
      var phase := Written(s, ok).tasks[id].phase;
      SameStep(s.records[id], s.tasks[id], phase);
      OnePhaseKeepsTasks(s, Written(s, ok), id, phase);
    } else {
      TasksAreGrounded(s);
    }
  }

  lemma WriteKeepsMarkers(s: State, ok: bool)
    requires TasksOk(s) && MarkersOk(s) && s.flight.Some?
    ensures MarkersOk(Written(s, ok))
  {
    forall id | id in Written(s, ok).tasks
      ensures MarkerOk(Written(s, ok), id)
    {
      WriteKeepsMarker(s, ok, id);
    }
  }

  lemma WriteKeepsMarker(s: State, ok: bool, id: Uuid)
    requires s.flight.Some? && MarkerOk(s, id) && (id in s.tasks ==> id in s.records && TaskOk(s.records[id], s.tasks[id]))
    ensures MarkerOk(Written(s, ok), id)
  {}

  lemma WriteKeepsDispatches(s: State, ok: bool)
    requires DispatchesOk(s) && s.flight.Some?
    ensures DispatchesOk(Written(s, ok))
  {
    var s' := Written(s, ok);
    forall d | d in s'.dispatches
      ensures DispatchOk(s', d)
    {
      assert DispatchOk(s, d);
    }
  }

  lemma WriteKeepsTidy(s: State, ok: bool)
    requires Tidy(s) && s.flight.Some?
    ensures Tidy(Written(s, ok))
  {}

  lemma WriteKeepsCheckpoint(s: State, ok: bool)
    requires CheckpointOk(s) && s.flight.Some?
    ensures CheckpointOk(Written(s, ok))
  {}

  lemma WriteKeepsInv(s: State, ok: bool)
    requires Inv(s) && s.flight.Some?
    ensures Inv(Written(s, ok))
  {
    WriteKeepsTasks(s, ok);
    WriteKeepsMarkers(s, ok);
    WriteKeepsDispatches(s, ok);
    WriteKeepsTidy(s, ok);
    WriteKeepsCheckpoint(s, ok);
  }

  // --- Dispatch -----------------------------------------------------------

  lemma DispatchIsNew(s: State, id: Uuid)
    requires Inv(s) && Possible(s, Send(id))
    ensures Dispatch(id, s.tasks[id].phase.i) !in s.dispatches
  {
  }

  lemma SentIsLocal(s: State, id: Uuid)
    requires Grounded(s) && Possible(s, Send(id)) && id !in s.canceled
    ensures var s' := Sent(s, id);
            && Local(s, s', id) && s'.records == s.records
            && s'.tasks[id] == s.tasks[id].(phase := Dispatched(s.tasks[id].phase.i))
    ensures MarkerOk(s, id) ==> MarkerOk(Sent(s, id), id)
  {}

  lemma DispatchKeepsInv(s: State, id: Uuid)
    requires Inv(s) && Possible(s, Send(id)) && id !in s.canceled
    ensures Inv(Sent(s, id))
  {
    var s' := Sent(s, id);
    assert TaskOk(s.records[id], s.tasks[id]) && RecordOk(s.records[id]) && MarkerOk(s, id);
    SameStep(s.records[id], s.tasks[id], Dispatched(s.tasks[id].phase.i));
    SentIsLocal(s, id);
    LocalKeepsCheckpoint(s, s', id);
    LocalKeepsTidy(s, s', id);
    LocalKeepsTasks(s, s', id);
    LocalKeepsRecords(s, s', id);
    TasksAreGrounded(s');
    LocalKeepsMarkers(s, s', id);
    SentDispatches(s, id);
  }

  lemma SendKeepsInv(s: State, id: Uuid)
    requires Inv(s) && Possible(s, Send(id))
    ensures Inv(Sent(s, id))
  {
    var record, task := s.records[id], s.tasks[id];
    assert TaskOk(record, task) && RecordOk(record) && MarkerOk(s, id);
    var i := task.phase.i;
    if id in s.canceled {
      SameStep(record, task, Output(i, Failure(StepAt(s, id, i))));
      PhaseChangeKeepsInv(s, id, Output(i, Failure(StepAt(s, id, i))));
    } else {
      DispatchKeepsInv(s, id);
    }
  }

  lemma SentKeepsDispatch(s: State, id: Uuid, d: Dispatch)
    requires Inv(s) && Possible(s, Send(id)) && id !in s.canceled && d in s.dispatches
    ensures DispatchOk(Sent(s, id), d)
  {
    assert DispatchOk(s, d);
  }

  lemma SentIsDispatched(s: State, id: Uuid)
    requires Inv(s) && Possible(s, Send(id)) && id !in s.canceled
    ensures DispatchOk(Sent(s, id), Dispatch(id, s.tasks[id].phase.i))
  {
    assert TaskOk(s.records[id], s.tasks[id]) && MarkerOk(s, id);
    assert id in s.durable ==> SavedOk(s.durable, s.records, s.used);
  }

  lemma SentDispatches(s: State, id: Uuid)
    requires Inv(s) && Possible(s, Send(id)) && id !in s.canceled
    ensures DispatchesOk(Sent(s, id))
  {
    DispatchIsNew(s, id);
    SentIsDispatched(s, id);
    forall d | d in s.dispatches ensures DispatchOk(Sent(s, id), d) {
      SentKeepsDispatch(s, id, d);
    }
  }

  // --- Beginnings and ends ------------------------------------------------

  lemma StartKeepsInv(s: State, id: Uuid, owner: Uuid, connection: Uuid, def: Definition, fits: bool)
    requires Inv(s) && Possible(s, Start(id, owner, connection, def, fits))
    ensures Inv(Started(s, id, owner, connection, def, fits))
  {
    var s' := Started(s, id, owner, connection, def, fits);
    if s' != s {
      StartKeepsTasks(s, s', id);
      StartKeepsRest(s, id, owner, connection, def, fits);
      forall d | d in s'.dispatches
        ensures DispatchOk(s', d)
      {
        assert DispatchOk(s, d);
      }
    }
  }

  ghost predicate Added(s: State, s': State, id: Uuid) {
    && id in s'.tasks && id in s'.records && id !in s.records && id !in s.tasks
    && s'.tasks == s.tasks[id := s'.tasks[id]] && s'.records == s.records[id := s'.records[id]]
    && s'.durable == s.durable && s'.flight == s.flight
  }

  lemma StartKeepsTasks(s: State, s': State, id: Uuid)
    requires TasksOk(s) && RecordsOk(s) && MarkersOk(s) && Added(s, s', id)
    requires s'.tasks[id].phase == Head(0) && s'.tasks[id].previous == map[] && !s'.tasks[id].hadFailure
    requires s'.records[id].steps == [] && s'.records[id].outcome == Waits.Running
    requires DistinctNames(s'.records[id].definition.steps)
    ensures TasksOk(s') && RecordsOk(s') && MarkersOk(s') && Grounded(s')
  {
    forall other | other in s'.tasks
      ensures TaskOk(s'.records[other], s'.tasks[other]) && MarkerOk(s', other)
    {
      if other != id {
        assert TaskOk(s.records[other], s.tasks[other]) && MarkerOk(s, other);
      }
    }
    forall other | other in s'.records
      ensures RecordOk(s'.records[other])
    {
      if other != id {
        assert RecordOk(s.records[other]);
      }
    }
    TasksAreGrounded(s');
  }

  lemma StartKeepsRest(s: State, id: Uuid, owner: Uuid, connection: Uuid, def: Definition, fits: bool)
    requires Tidy(s) && CheckpointOk(s) && Possible(s, Start(id, owner, connection, def, fits))
    ensures var s' := Started(s, id, owner, connection, def, fits);
            Tidy(s') && CheckpointOk(s')
  {}

  /** A finished task leaves a terminal record, or none when its connection is gone. */
  lemma FinishKeepsInv(s: State, id: Uuid, cleanupFailed: bool)
    requires Inv(s) && Possible(s, Finish(id, cleanupFailed))
    ensures Inv(Finished(s, id, cleanupFailed))
  {
    var s' := Finished(s, id, cleanupFailed);
    FinishRemoves(s, id, cleanupFailed);
    FinishKeepsRest(s, s', id);
    FinishKeepsTidy(s, id, cleanupFailed);
  }

  /** One record ended or removed, its task gone; nothing else moved. */
  ghost predicate Removed(s: State, s': State, id: Uuid) {
    && s'.durable == s.durable && s'.flight == s.flight && s'.used == s.used && s'.dispatches == s.dispatches
    && s'.records.Keys <= s.records.Keys && s'.tasks == s.tasks - {id}
    && (forall other | other in s.records && other != id :: other in s'.records && s'.records[other] == s.records[other])
    && (id in s'.records ==> Older(s.records[id], s'.records[id]))
  }

  lemma FinishRemoves(s: State, id: Uuid, cleanupFailed: bool)
    requires TasksOk(s) && RecordsOk(s) && Possible(s, Finish(id, cleanupFailed))
    ensures var s' := Finished(s, id, cleanupFailed);
            Removed(s, s', id) && (id in s'.records ==> RecordOk(s'.records[id]))
  {
    assert TaskOk(s.records[id], s.tasks[id]) && RecordOk(s.records[id]);
  }

  lemma RemovedKeepsTask(s: State, s': State, id: Uuid, other: Uuid)
    requires TasksOk(s) && MarkersOk(s) && Removed(s, s', id) && other in s'.tasks
    ensures other in s'.records && TaskOk(s'.records[other], s'.tasks[other]) && MarkerOk(s', other)
  {
    assert TaskOk(s.records[other], s.tasks[other]) && MarkerOk(s, other);
  }

  lemma FinishKeepsCheckpoint(s: State, s': State, id: Uuid)
    requires CheckpointOk(s) && Removed(s, s', id)
    ensures CheckpointOk(s')
  {}

  lemma FinishKeepsRest(s: State, s': State, id: Uuid)
    requires Inv(s) && Removed(s, s', id) && (id in s'.records ==> RecordOk(s'.records[id]))
    ensures TasksOk(s') && RecordsOk(s') && Grounded(s') && CheckpointOk(s') && MarkersOk(s') && DispatchesOk(s')
  {
    forall other | other in s'.tasks
      ensures other in s'.records && TaskOk(s'.records[other], s'.tasks[other]) && MarkerOk(s', other)
    {
      RemovedKeepsTask(s, s', id, other);
    }
    forall other | other in s'.records
      ensures RecordOk(s'.records[other])
    {
      if other != id {
        assert RecordOk(s.records[other]);
      }
    }
    TasksAreGrounded(s');
    FinishKeepsCheckpoint(s, s', id);
    RemovedKeepsDispatches(s, s', id);
  }

  lemma RemovedKeepsDispatches(s: State, s': State, id: Uuid)
    requires DispatchesOk(s) && Removed(s, s', id)
    ensures DispatchesOk(s')
  {
    forall d | d in s'.dispatches
      ensures DispatchOk(s', d)
    {
      assert DispatchOk(s, d);
    }
  }

  lemma FinishKeepsTidy(s: State, id: Uuid, cleanupFailed: bool)
    requires Tidy(s) && TasksOk(s) && Possible(s, Finish(id, cleanupFailed))
    ensures Tidy(Finished(s, id, cleanupFailed))
  {
    assert TaskOk(s.records[id], s.tasks[id]);
  }

  lemma TerminalHasNoTask(s: State, id: Uuid)
    requires TasksOk(s) && id in s.records && s.records[id].outcome != Waits.Running
    ensures id !in s.tasks
  {}

  lemma ForgetKeepsInv(s: State, id: Uuid)
    requires Inv(s) && Possible(s, Forget(id))
    ensures Inv(Next(s, Forget(id)))
  {
    var s' := Next(s, Forget(id));
    assert RecordOk(s.records[id]);
    TerminalHasNoTask(s, id);
    assert s.tasks - {id} == s.tasks;
    FinishKeepsRest(s, s', id);
  }

  /** Signals, requests and connection bookkeeping: no log, task or checkpoint changes. */
  ghost predicate Marginal(s: State, s': State) {
    && s' == s.(records := s'.records, canceled := s'.canceled, retired := s'.retired, closed := s'.closed, swept := s'.swept)
    && s'.records.Keys <= s.records.Keys && s.tasks.Keys <= s'.records.Keys
    && (forall id | id in s'.records ::
          s'.records[id] == s.records[id].(cancellationRequested := s'.records[id].cancellationRequested))
  }

  lemma MarginalKeepsInv(s: State, s': State)
    requires Inv(s) && Marginal(s, s') && Tidy(s')
    ensures Inv(s')
  {
    forall id | id in s'.tasks
      ensures id in s'.records && TaskOk(s'.records[id], s'.tasks[id]) && MarkerOk(s', id)
    {
      assert TaskOk(s.records[id], s.tasks[id]) && MarkerOk(s, id);
    }
    forall id | id in s'.records
      ensures RecordOk(s'.records[id])
    {
      assert RecordOk(s.records[id]);
    }
    TasksAreGrounded(s');
    MarginalKeepsDispatches(s, s');
  }

  lemma MarginalKeepsDispatches(s: State, s': State)
    requires DispatchesOk(s) && Marginal(s, s')
    ensures DispatchesOk(s')
  {
    forall d | d in s'.dispatches
      ensures DispatchOk(s', d)
    {
      assert DispatchOk(s, d);
    }
  }

  lemma SweepIsMarginal(s: State, owner: Uuid)
    requires Tidy(s) && owner in s.closed
    ensures Marginal(s, Swept(s, owner)) && Tidy(Swept(s, owner))
  {}

  lemma CancelIsMarginal(s: State, id: Uuid)
    requires Tidy(s)
    ensures Marginal(s, CancelRequested(s, id)) && Tidy(CancelRequested(s, id))
  {}

  // --- Crashes ------------------------------------------------------------

  lemma RecoveredIsOk(record: Record)
    requires RecordOk(record)
    ensures RecordOk(Recovered(record)) && Recovered(record).outcome != Waits.Running
    ensures Older(record, Recovered(record)) && AllDone(Recovered(record).steps)
  {}

  lemma CrashKeepsInv(s: State)
    requires Inv(s)
    ensures Inv(Rebooted(s))
  {
    var s' := Rebooted(s);
    forall id | id in s'.records
      ensures RecordOk(s'.records[id]) && s'.records[id].outcome != Waits.Running
      ensures Older(s.durable[id], s'.records[id])
    {
      RecoveredIsOk(s.durable[id]);
    }
    forall d | d in s'.dispatches
      ensures DispatchOk(s', d)
    {
      assert DispatchOk(s, d);
    }
  }

  // --- Runs ---------------------------------------------------------------

  /** The steps of a task itself. */
  predicate TaskStep(a: Action) {
    a.Enter? || a.Prepare? || a.Send? || a.Return? || a.Interrupt? || a.KeepResult? || a.Finish?
  }

  lemma TaskStepKeepsInv(s: State, a: Action)
    requires Inv(s) && Possible(s, a) && TaskStep(a)
    ensures Inv(Next(s, a))
  {
    if a.Enter? {
      EnterKeepsInv(s, a.id, a.late);
    } else if a.Prepare? {
      PrepareKeepsInv(s, a.id);
    } else if a.Send? {
      SendKeepsInv(s, a.id);
    } else if a.Return? {
      ReturnKeepsInv(s, a.id, a.outcome, a.value);
    } else if a.Interrupt? {
      InterruptKeepsInv(s, a.id, a.timedOut);
    } else if a.KeepResult? {
      RecordKeepsInv(s, a.id, a.fits);
    } else {
      FinishKeepsInv(s, a.id, a.cleanupFailed);
    }
  }

  lemma StoreStepKeepsInv(s: State, a: Action)
    requires Inv(s) && Possible(s, a) && !TaskStep(a)
    ensures Inv(Next(s, a))
  {
    if a.Start? {
      StartKeepsInv(s, a.id, a.owner, a.connection, a.definition, a.fits);
    } else if a.Snapshot? {
      SnapshotKeepsInv(s, a.writer);
    } else if a.WriteDone? {
      WriteKeepsInv(s, a.ok);
    } else if a.Cancel? {
      CancelIsMarginal(s, a.id);
      MarginalKeepsInv(s, CancelRequested(s, a.id));
    } else if a.Forget? {
      ForgetKeepsInv(s, a.id);
    } else if a.CloseToken? {
      MarginalKeepsInv(s, Next(s, a));
    } else if a.Sweep? {
      SweepIsMarginal(s, a.owner);
      MarginalKeepsInv(s, Swept(s, a.owner));
    } else {
      CrashKeepsInv(s);
    }
  }

  lemma StepKeepsInv(s: State, a: Action)
    requires Inv(s) && Possible(s, a)
    ensures Inv(Next(s, a))
  {
    if TaskStep(a) {
      TaskStepKeepsInv(s, a);
    } else {
      StoreStepKeepsInv(s, a);
    }
  }
}
