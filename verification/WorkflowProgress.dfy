/**
 What the engine does when nothing stands in its way, and what it decides when
 something does: every workflow whose bindings resolve can run to its end, and
 then it is satisfied; in every run the outcome says exactly whether it was.
 */
module WorkflowProgress {
  import opened Wrappers
  import opened JsonValue
  import opened WorkflowBindings
  import opened WorkflowEngine
  import opened WorkflowSafety
  import opened WorkflowTheorems
  import Obs = ObservationLog
  import Waits = ObservationWaits

  // --- The outcome is the truth ---------------------------------------------

  /** Every declared step is in the log, satisfied. */
  ghost predicate AllDoneWell(record: Record) {
    && |record.steps| == |record.definition.steps|
    && forall i | 0 <= i < |record.steps| :: record.steps[i].outcome == Waits.Satisfied
  }

  /** In every run a task ends as satisfied if and only if every declared step was. */
  lemma EndIsTheTruth(actions: seq<Action>, id: Uuid)
    requires FromStart(actions) && id in After(actions).tasks && After(actions).tasks[id].phase.Ending?
    ensures var s := After(actions);
            id in s.records && (s.tasks[id].phase.outcome == Waits.Satisfied <==> AllDoneWell(s.records[id]))
  {
    var s := After(actions);
    assert TaskOk(s.records[id], s.tasks[id]);
  }

  /** What the top of the loop decides in every run: the end, a stop, the deadline, or the next declared step. */
  lemma EnterDecides(actions: seq<Action>, id: Uuid, late: bool)
    requires FromStart(actions) && Possible(After(actions), Enter(id, late))
    ensures var s, s' := After(actions), Next(After(actions), Enter(id, late));
            && id in s.records && id in s'.tasks && id in s'.records
            && var record, phase := s.records[id], s'.tasks[id].phase;
               if |record.steps| == |record.definition.steps| then
                 phase == Ending(if AllDoneWell(record) then Waits.Satisfied else Waits.Outcome.Failed) && s'.records == s.records
               else if id in s.canceled || s.tasks[id].connection in s.closed then
                 phase == Ending(Waits.Canceled) && s'.records == s.records
               else if late then phase == Ending(Waits.TimedOut) && s'.records == s.records
               else
                 && phase == Marked(|record.steps|)
                 && s'.records[id] == record.(steps := record.steps
                      + [StepResult(record.definition.steps[|record.steps|].name, Waits.Running, None, false)])
  {
    var s := After(actions);
    assert TaskOk(s.records[id], s.tasks[id]) && RecordOk(s.records[id]);
    EnterFrom(s, id, late);
  }

  lemma EnterFrom(s: State, id: Uuid, late: bool)
    requires id in s.tasks && id in s.records && s.tasks[id].phase.Head?
    requires TaskOk(s.records[id], s.tasks[id])
    ensures var s', record := Entered(s, id, late), s.records[id];
            && id in s'.tasks && id in s'.records
            && s'.tasks[id].phase
               == (if |record.steps| == |record.definition.steps| then
                     Ending(if AllDoneWell(record) then Waits.Satisfied else Waits.Outcome.Failed)
                   else if id in s.canceled || s.tasks[id].connection in s.closed then Ending(Waits.Canceled)
                   else if late then Ending(Waits.TimedOut)
                   else Marked(|record.steps|))
            && (s'.tasks[id].phase.Ending? ==> s'.records == s.records)
            && (s'.tasks[id].phase.Marked? ==>
                  s'.records[id] == record.(steps := record.steps
                    + [StepResult(record.definition.steps[|record.steps|].name, Waits.Running, None, false)]))
  {
    var record, task := s.records[id], s.tasks[id];
    HeadKnowsFailures(record, task);
    if |record.steps| < |record.definition.steps| {
      NewStepIsAppended(record, StepResult(record.definition.steps[|record.steps|].name, Waits.Running, None, false));
    }
  }

  lemma HeadKnowsFailures(record: Record, task: Task)
    requires TaskOk(record, task) && task.phase.Head?
    ensures task.phase.i == |record.steps| <= |record.definition.steps|
    ensures |record.steps| == |record.definition.steps| ==> (task.hadFailure <==> !AllDoneWell(record))
  {
    assert Behind(task, record.steps) == |record.steps|;
  }

  /**
   The end of a task in every run: gone with its connection; failed when the
   clean-up failed or, for a persistent one, persistence has; otherwise satisfied
   exactly when every declared step was.
   */
  lemma FinishIsTheTruth(actions: seq<Action>, id: Uuid, cleanupFailed: bool)
    requires FromStart(actions) && Possible(After(actions), Finish(id, cleanupFailed))
    ensures var s, s' := After(actions), Next(After(actions), Finish(id, cleanupFailed));
            && id in s.records && id !in s'.tasks && id !in s'.handles
            && (id in s'.records <==> id !in s.retired)
            && (id in s'.records ==>
                  var was, now := s.records[id], s'.records[id];
                  && now == was.(outcome := now.outcome) && now.outcome != Waits.Running
                  && (cleanupFailed || (was.definition.lifetime == Obs.Persistent && s.broken) ==> now.outcome == Waits.Outcome.Failed)
                  && (!cleanupFailed && !(was.definition.lifetime == Obs.Persistent && s.broken) ==>
                        && now.outcome == s.tasks[id].phase.outcome
                        && (now.outcome == Waits.Satisfied <==> AllDoneWell(was))))
  {
    var s := After(actions);
    EndIsTheTruth(actions, id);
    assert TaskOk(s.records[id], s.tasks[id]);
  }

  // --- What a step shows ------------------------------------------------------

  /** How the loop goes on after a step: past it, or to an end with its outcome. */
  function AfterStep(step: Step, outcome: Outcome, i: nat): Phase {
    if outcome == Waits.Satisfied || (step.continueOnError && outcome != Waits.Canceled) then Head(i + 1) else Ending(outcome)
  }

  /** Keeping a result in every run: it takes the marker's place, or a failure does when there is no room, and decides. */
  lemma KeepDecides(actions: seq<Action>, id: Uuid, fits: bool)
    requires FromStart(actions) && Possible(After(actions), KeepResult(id, fits))
    ensures var s, s' := After(actions), Next(After(actions), KeepResult(id, fits));
            && id in s.records && id in s'.tasks && id in s'.records
            && var i, r, record := s.tasks[id].phase.i, s.tasks[id].phase.r, s.records[id];
               && i < |record.definition.steps| && |record.steps| == i + 1
               && var step := record.definition.steps[i];
                  var kept := if fits then r else StepResult(r.name, Waits.Outcome.Failed, None, step.operation.Act?);
                  && s'.records[id] == record.(steps := record.steps[i := kept])
                  && s'.tasks[id].phase == AfterStep(step, kept.outcome, i)
  {
    var s := After(actions);
    assert TaskOk(s.records[id], s.tasks[id]) && RecordOk(s.records[id]);
    LastStepIsReplaced(s.records[id], s.tasks[id].phase.r);
    if !fits {
      LastStepIsReplaced(s.records[id], StepResult(s.tasks[id].phase.r.name, Waits.Outcome.Failed, None,
                                                   s.records[id].definition.steps[s.tasks[id].phase.i].operation.Act?));
    }
  }

  /** A task on a declared step. */
  predicate OnAStep(s: State, id: Uuid) {
    && id in s.tasks && id in s.records && Busy(s.tasks[id].phase)
    && s.tasks[id].phase.i < |s.records[id].definition.steps|
  }

  /** What an operation that comes back, or is interrupted, puts forward as its result. */
  lemma ResultIsPutForward(s: State, a: Action)
    requires Inv(s) && Possible(s, a) && (a.Return? || a.Interrupt?)
    ensures OnAStep(s, a.id) && a.id in Next(s, a).tasks && Next(s, a).records == s.records
    ensures var i, step := s.tasks[a.id].phase.i, s.records[a.id].definition.steps[s.tasks[a.id].phase.i];
            Next(s, a).tasks[a.id].phase
            == Output(i,
                 if a.Interrupt? then
                   StepResult(step.name, if a.timedOut then Waits.TimedOut else Waits.Canceled, None, step.operation.Act?)
                 else if a.value.Some? then StepResult(step.name, a.outcome, a.value, false)
                 else StepResult(step.name, Waits.Outcome.Failed, None, step.operation.Act?))
  {}

  /**
   A checkpoint write that fails: the step that waits for it fails, and its action
   may have happened; with nobody waiting, persistence is over and every running
   persistent workflow is canceled.
   */
  lemma FailedWriteTells(s: State)
    requires Inv(s) && s.flight.Some?
    ensures var s', flight := Next(s, WriteDone(false)), s.flight.value;
            && s'.durable == s.durable && s'.flight.None? && s'.records == s.records
            && (flight.writer.ForStep? && Awaits(s, flight.writer.id, flight.step) ==>
                  var id := flight.writer.id;
                  var step := s.records[id].definition.steps[flight.step];
                  && id in s'.tasks
                  && s'.tasks[id].phase
                     == Output(flight.step, StepResult(step.name, Waits.Outcome.Failed, None, step.operation.Act?)))
            && (flight.writer.Worker? ==> s'.broken && AllCanceled(s.records, s'.canceled))
  {
    FailedWriteEnds(s);
    if s.flight.value.writer.ForStep? && Awaits(s, s.flight.value.writer.id, s.flight.value.step) {
      FailedWriteOfStep(s);
    } else if s.flight.value.writer.Worker? {
      FailedWriteOfWorker(s);
    }
  }

  predicate Awaits(s: State, id: Uuid, i: nat) { OnAStep(s, id) && s.tasks[id].phase == Writing(i) }

  ghost predicate AllCanceled(records: map<Uuid, Record>, canceled: set<Uuid>) {
    forall id | id in records && records[id].definition.lifetime == Obs.Persistent && records[id].outcome == Waits.Running ::
      id in canceled
  }

  lemma FailedWriteEnds(s: State)
    requires s.flight.Some?
    ensures var s' := Written(s, false); s'.durable == s.durable && s'.flight.None? && s'.records == s.records
  {}

  lemma FailedWriteOfStep(s: State)
    requires Grounded(s) && s.flight.Some? && s.flight.value.writer.ForStep? && Awaits(s, s.flight.value.writer.id, s.flight.value.step)
    ensures var s', id, i := Next(s, WriteDone(false)), s.flight.value.writer.id, s.flight.value.step;
            var step := s.records[id].definition.steps[i];
            && id in s'.tasks
            && s'.tasks[id].phase == Output(i, StepResult(step.name, Waits.Outcome.Failed, None, step.operation.Act?))
  {}

  lemma FailedWriteOfWorker(s: State)
    requires Inv(s) && s.flight.Some? && s.flight.value.writer.Worker?
    ensures Next(s, WriteDone(false)).broken && AllCanceled(s.records, Next(s, WriteDone(false)).canceled)
  {
    forall id | id in s.records && s.records[id].outcome == Waits.Running ensures id in s.handles {
      RunningHasHandle(s, id);
    }
  }

  /** A saved workflow comes back as it was, or, if it was running, failed with each step it was in. */
  lemma CrashDecides(s: State, id: Uuid)
    requires Inv(s)
    ensures var s' := Next(s, Crash);
            && (id in s'.records <==> id in s.durable)
            && (id in s.durable ==>
                  var was, now := s.durable[id], s'.records[id];
                  && now.definition == was.definition && now.owner == was.owner && |now.steps| == |was.steps|
                  && now.outcome == (if was.outcome == Waits.Running then Waits.Outcome.Failed else was.outcome)
                  && forall i | 0 <= i < |was.steps| ::
                       now.steps[i] == if was.outcome == Waits.Running && was.steps[i].outcome == Waits.Running then
                                         StepResult(was.steps[i].name, Waits.Outcome.Failed, was.steps[i].result, true)
                                       else was.steps[i])
  {}

  // --- Starting -------------------------------------------------------------------

  /** What a workflow needs to be started: an open connection, room for one more, and persistence if it asks for it. */
  predicate MayStart(s: State, connection: Uuid, def: Definition, fits: bool) {
    && connection !in s.closed && |s.records| < 64 && |s.handles| < 16 && fits
    && (def.lifetime == Obs.Persistent ==> !s.broken)
  }

  lemma StartDecides(s: State, id: Uuid, owner: Uuid, connection: Uuid, def: Definition, fits: bool)
    requires Inv(s) && Possible(s, Start(id, owner, connection, def, fits))
    ensures var s' := Next(s, Start(id, owner, connection, def, fits));
            && (MayStart(s, connection, def, fits) ==>
                  && id in s'.records && s'.records[id] == Record(owner, def, Waits.Running, [], false)
                  && id in s'.handles && id in s'.tasks && s'.tasks[id] == Task(connection, Head(0), map[], false))
            && (!MayStart(s, connection, def, fits) ==> s' == s)
  {}

  // --- A run to the end -------------------------------------------------------------

  /** What the steps so far have left for later ones. */
  function Known(def: Definition, values: seq<Json>, i: nat): map<string, Json>
    requires i <= |def.steps| && i <= |values|
  {
    if i == 0 then map[] else Known(def, values, i - 1)[def.steps[i - 1].name := values[i - 1]]
  }

  function DoneWell(step: Step, value: Json): StepResult { StepResult(step.name, Waits.Satisfied, Some(value), false) }

  function Done(def: Definition, values: seq<Json>, i: nat): seq<StepResult>
    requires i <= |def.steps| && i <= |values|
  {
    seq(i, j requires 0 <= j < i => DoneWell(def.steps[j], values[j]))
  }

  /** With these results, every step finds its bindings, and every action its arguments. */
  ghost predicate Runnable(def: Definition, values: seq<Json>) {
    && |values| == |def.steps| && DistinctNames(def.steps)
    && forall i | 0 <= i < |def.steps| :: Resolves(def.steps[i], Known(def, values, i))
  }

  predicate Resolves(step: Step, previous: map<string, Json>) {
    var r := Resolve(step.operation.Template(), previous, 0);
    r.Ok? && (step.operation.Act? ==> r.value.Object?)
  }

  /** Nothing stands in the way of this task: not stopped, and no checkpoint under way. */
  ghost predicate Stands(s: State, id: Uuid, task: Task, record: Record) {
    && Inv(s)
    && id in s.tasks && s.tasks[id] == task && id in s.records && s.records[id] == record
    && Unhindered(s, id, task.connection)
  }

  predicate Unhindered(s: State, id: Uuid, connection: Uuid) {
    s.flight.None? && !s.broken && id !in s.canceled && id !in s.retired && connection !in s.closed
  }

  /** A run with one more action. */
  lemma {:induction false} RunMore(s: State, actions: seq<Action>, a: Action)
    requires Inv(s) && RunPossible(s, actions) && Possible(Run(s, actions), a)
    ensures RunPossible(s, actions + [a]) && Run(s, actions + [a]) == Next(Run(s, actions), a)
    decreases |actions|
  {
    if actions == [] {
      StepKeepsInv(s, a);
      assert [a][1..] == [];
      assert actions + [a] == [a];
    } else {
      StepKeepsInv(s, actions[0]);
      RunMore(Next(s, actions[0]), actions[1..], a);
      assert (actions + [a])[1..] == actions[1..] + [a];
    }
  }

  /** A run of the host so far, and where it has led. */
  datatype Trace = Trace(actions: seq<Action>, s: State)

  ghost predicate Leads(from: State, trace: Trace) {
    Inv(from) && RunPossible(from, trace.actions) && Run(from, trace.actions) == trace.s
  }

  lemma Act(from: State, trace: Trace, a: Action) returns (after: Trace)
    requires Leads(from, trace) && Possible(trace.s, a)
    ensures after == Trace(trace.actions + [a], Next(trace.s, a)) && Leads(from, after)
  {
    RunMore(from, trace.actions, a);
    after := Trace(trace.actions + [a], Next(trace.s, a));
  }

  lemma EnterStands(s: State, id: Uuid, task: Task, record: Record)
    requires Stands(s, id, task, record) && task.phase == Head(|record.steps|) && |record.steps| < |record.definition.steps|
    ensures var i, s' := |record.steps|, Next(s, Enter(id, false));
            var marked := record.(steps := record.steps + [StepResult(record.definition.steps[i].name, Waits.Running, None, false)]);
            Possible(s, Enter(id, false)) && Stands(s', id, task.(phase := Marked(i)), marked) && s'.dispatches == s.dispatches
  {
    StepKeepsInv(s, Enter(id, false));
    assert RecordOk(record);
    NewStepIsAppended(record, StepResult(record.definition.steps[|record.steps|].name, Waits.Running, None, false));
  }

  /** The phase that a resolved step goes to. */
  function Resolved(record: Record, i: nat): Phase
    requires i < |record.definition.steps|
  {
    if record.definition.steps[i].operation.Await? then Waiting(i)
    else if record.definition.lifetime == Obs.Persistent then Queued(i)
    else Flushed(i)
  }

  lemma PrepareStands(s: State, id: Uuid, task: Task, record: Record, i: nat)
    requires Stands(s, id, task, record) && task.phase == Marked(i) && i < |record.definition.steps|
    requires Resolves(record.definition.steps[i], task.previous)
    ensures Possible(s, Prepare(id))
    ensures Stands(Next(s, Prepare(id)), id, task.(phase := Resolved(record, i)), record)
    ensures Next(s, Prepare(id)).dispatches == s.dispatches
  {
    StepKeepsInv(s, Prepare(id));
  }

  lemma FlushStands(from: State, trace: Trace, id: Uuid, task: Task, record: Record, i: nat) returns (after: Trace)
    requires Leads(from, trace) && Stands(trace.s, id, task, record) && task.phase == Queued(i)
    ensures Leads(from, after) && Stands(after.s, id, task.(phase := Flushed(i)), record)
    ensures after.s.dispatches == trace.s.dispatches
  {
    SnapshotStarts(trace.s, id, task, record, i);
    var written := Act(from, trace, Snapshot(ForStep(id)));
    WriteLands(written.s, id, task.(phase := Writing(i)), record, i);
    after := Act(from, written, WriteDone(true));
  }

  /** While the checkpoint of a step is being written. */
  ghost predicate Flushing(s: State, id: Uuid, task: Task, record: Record, i: nat) {
    && Inv(s)
    && id in s.tasks && s.tasks[id] == task && id in s.records && s.records[id] == record && task.phase == Writing(i)
    && s.flight.Some? && s.flight.value.writer == ForStep(id) && s.flight.value.step == i
    && !s.broken && id !in s.canceled && id !in s.retired && task.connection !in s.closed
  }

  lemma SnapshotStarts(s: State, id: Uuid, task: Task, record: Record, i: nat)
    requires Stands(s, id, task, record) && task.phase == Queued(i)
    ensures Possible(s, Snapshot(ForStep(id)))
    ensures Flushing(Next(s, Snapshot(ForStep(id))), id, task.(phase := Writing(i)), record, i)
    ensures Next(s, Snapshot(ForStep(id))).dispatches == s.dispatches
  {
    StepKeepsInv(s, Snapshot(ForStep(id)));
  }

  lemma WriteLands(s: State, id: Uuid, task: Task, record: Record, i: nat)
    requires Flushing(s, id, task, record, i)
    ensures Possible(s, WriteDone(true))
    ensures Stands(Next(s, WriteDone(true)), id, task.(phase := Flushed(i)), record)
    ensures Next(s, WriteDone(true)).dispatches == s.dispatches
  {
    StepKeepsInv(s, WriteDone(true));
    assert TaskOk(record, task);
  }

  lemma SendStands(s: State, id: Uuid, task: Task, record: Record, i: nat)
    requires Stands(s, id, task, record) && task.phase == Flushed(i)
    ensures Possible(s, Send(id))
    ensures Stands(Next(s, Send(id)), id, task.(phase := Dispatched(i)), record)
    ensures Next(s, Send(id)).dispatches == s.dispatches + [Dispatch(id, i)]
  {
    StepKeepsInv(s, Send(id));
  }

  lemma ReturnStands(s: State, id: Uuid, task: Task, record: Record, i: nat, value: Json)
    requires Stands(s, id, task, record) && (task.phase == Dispatched(i) || task.phase == Waiting(i)) && i < |record.definition.steps|
    ensures var a, r := Return(id, Waits.Satisfied, Some(value)), DoneWell(record.definition.steps[i], value);
            && Possible(s, a) && Stands(Next(s, a), id, task.(phase := Output(i, r)), record)
            && Next(s, a).dispatches == s.dispatches
  {
    StepKeepsInv(s, Return(id, Waits.Satisfied, Some(value)));
  }

  lemma KeepStands(s: State, id: Uuid, task: Task, record: Record, i: nat, value: Json)
    requires Stands(s, id, task, record) && i < |record.definition.steps| && |record.steps| == i + 1
    requires task.phase == Output(i, DoneWell(record.definition.steps[i], value))
    ensures var r, s' := DoneWell(record.definition.steps[i], value), Next(s, KeepResult(id, true));
            && Possible(s, KeepResult(id, true))
            && Stands(s', id, Task(task.connection, Head(i + 1), task.previous[r.name := value], task.hadFailure),
                      record.(steps := record.steps[i := r]))
            && s'.dispatches == s.dispatches
  {
    StepKeepsInv(s, KeepResult(id, true));
    assert RecordOk(record);
    LastStepIsReplaced(record, DoneWell(record.definition.steps[i], value));
  }

  /** A run that has brought a task and its record there, with nothing in the way. */
  ghost predicate Reaches(from: State, trace: Trace, id: Uuid, task: Task, record: Record) {
    Leads(from, trace) && Stands(trace.s, id, task, record)
  }

  lemma EnterRuns(from: State, trace: Trace, id: Uuid, task: Task, record: Record, i: nat) returns (after: Trace)
    requires Reaches(from, trace, id, task, record)
    requires task.phase == Head(i) && i == |record.steps| && i < |record.definition.steps|
    ensures var running := StepResult(record.definition.steps[i].name, Waits.Running, None, false);
            Reaches(from, after, id, task.(phase := Marked(i)), record.(steps := record.steps + [running]))
    ensures after.s.dispatches == trace.s.dispatches
  {
    EnterStands(trace.s, id, task, record);
    after := Act(from, trace, Enter(id, false));
  }

  lemma PrepareRuns(from: State, trace: Trace, id: Uuid, task: Task, record: Record, i: nat) returns (after: Trace)
    requires Reaches(from, trace, id, task, record) && task.phase == Marked(i) && i < |record.definition.steps|
    requires Resolves(record.definition.steps[i], task.previous)
    ensures Reaches(from, after, id, task.(phase := Resolved(record, i)), record)
    ensures after.s.dispatches == trace.s.dispatches
  {
    PrepareStands(trace.s, id, task, record, i);
    after := Act(from, trace, Prepare(id));
  }

  /** The phase of an operation under way. */
  function Called(step: Step, i: nat): Phase { if step.operation.Act? then Dispatched(i) else Waiting(i) }

  /** From a resolved step to its operation under way. */
  lemma CallRuns(from: State, trace: Trace, id: Uuid, task: Task, record: Record, i: nat) returns (after: Trace)
    requires Reaches(from, trace, id, task, record)
    requires i < |record.definition.steps| && task.phase == Resolved(record, i)
    ensures Reaches(from, after, id, task.(phase := Called(record.definition.steps[i], i)), record)
    ensures after.s.dispatches
         == trace.s.dispatches + if record.definition.steps[i].operation.Act? then [Dispatch(id, i)] else []
  {
    after := trace;
    if record.definition.steps[i].operation.Act? {
      if record.definition.lifetime == Obs.Persistent {
        after := FlushStands(from, trace, id, task, record, i);
      }
      SendStands(after.s, id, task.(phase := Flushed(i)), record, i);
      after := Act(from, after, Send(id));
    }
  }

  lemma ReturnRuns(from: State, trace: Trace, id: Uuid, task: Task, record: Record, i: nat, value: Json) returns (after: Trace)
    requires Reaches(from, trace, id, task, record) && i < |record.definition.steps| && |record.steps| == i + 1
    requires task.phase == Called(record.definition.steps[i], i)
    ensures var r := DoneWell(record.definition.steps[i], value);
            Reaches(from, after, id, Task(task.connection, Head(i + 1), task.previous[r.name := value], task.hadFailure),
                    record.(steps := record.steps[i := r]))
    ensures after.s.dispatches == trace.s.dispatches
  {
    var r := DoneWell(record.definition.steps[i], value);
    ReturnStands(trace.s, id, task, record, i, value);
    var returned := Act(from, trace, Return(id, Waits.Satisfied, Some(value)));
    KeepStands(returned.s, id, task.(phase := Output(i, r)), record, i, value);
    after := Act(from, returned, KeepResult(id, true));
  }

  /** A record whose log has one more step done well. */
  function OneMore(record: Record, step: Step, value: Json): Record { record.(steps := record.steps + [DoneWell(step, value)]) }

  /** One step, from the top of the loop to the next top. */
  lemma StepRuns(from: State, trace: Trace, id: Uuid, task: Task, record: Record, i: nat, value: Json) returns (after: Trace)
    requires Reaches(from, trace, id, task, record)
    requires task.phase == Head(i) && i == |record.steps| && i < |record.definition.steps|
    requires Resolves(record.definition.steps[i], task.previous)
    ensures var step := record.definition.steps[i];
            && Reaches(from, after, id, Task(task.connection, Head(i + 1), task.previous[step.name := value], task.hadFailure),
                       OneMore(record, step, value))
            && after.s.dispatches == trace.s.dispatches + if step.operation.Act? then [Dispatch(id, i)] else []
  {
    var begun := OpenRuns(from, trace, id, task, record, i);
    after := CloseRuns(from, begun, id, task, record, i, value);
  }

  /** A record in the middle of its next step. */
  function MarkedRecord(record: Record, step: Step): Record {
    record.(steps := record.steps + [StepResult(step.name, Waits.Running, None, false)])
  }

  lemma OpenRuns(from: State, trace: Trace, id: Uuid, task: Task, record: Record, i: nat) returns (after: Trace)
    requires Reaches(from, trace, id, task, record)
    requires task.phase == Head(i) && i == |record.steps| && i < |record.definition.steps|
    requires Resolves(record.definition.steps[i], task.previous)
    ensures Reaches(from, after, id, task.(phase := Resolved(record, i)), MarkedRecord(record, record.definition.steps[i]))
    ensures after.s.dispatches == trace.s.dispatches
  {
    var entered := EnterRuns(from, trace, id, task, record, i);
    after := PrepareRuns(from, entered, id, task.(phase := Marked(i)), MarkedRecord(record, record.definition.steps[i]), i);
  }

  lemma CloseRuns(from: State, trace: Trace, id: Uuid, task: Task, record: Record, i: nat, value: Json) returns (after: Trace)
    requires i == |record.steps| && i < |record.definition.steps|
    requires Reaches(from, trace, id, task.(phase := Resolved(record, i)), MarkedRecord(record, record.definition.steps[i]))
    ensures var step := record.definition.steps[i];
            && Reaches(from, after, id, Task(task.connection, Head(i + 1), task.previous[step.name := value], task.hadFailure),
                       OneMore(record, step, value))
            && after.s.dispatches == trace.s.dispatches + if step.operation.Act? then [Dispatch(id, i)] else []
  {
    var step := record.definition.steps[i];
    var marked := MarkedRecord(record, step);
    var called := CallRuns(from, trace, id, task.(phase := Resolved(record, i)), marked, i);
    after := ReturnRuns(from, called, id, task.(phase := Called(step, i)), marked, i, value);
    MarkerGivesWay(record, step, value);
  }

  lemma MarkerGivesWay(record: Record, step: Step, value: Json)
    ensures var marked := MarkedRecord(record, step);
            marked.(steps := marked.steps[|record.steps| := DoneWell(step, value)]) == OneMore(record, step, value)
  {
    assert MarkedRecord(record, step).steps[|record.steps| := DoneWell(step, value)] == record.steps + [DoneWell(step, value)];
  }

  /** The record of a running workflow whose first steps are done well. */
  function Underway(owner: Uuid, def: Definition, values: seq<Json>, i: nat): Record
    requires i <= |def.steps| && i <= |values|
  {
    Record(owner, def, Waits.Running, Done(def, values, i), false)
  }

  function Heading(connection: Uuid, def: Definition, values: seq<Json>, i: nat): Task
    requires i <= |def.steps| && i <= |values|
  {
    Task(connection, Head(i), Known(def, values, i), false)
  }

  lemma OneFurther(owner: Uuid, connection: Uuid, def: Definition, values: seq<Json>, i: nat)
    requires i < |def.steps| && i < |values|
    ensures Underway(owner, def, values, i + 1) == OneMore(Underway(owner, def, values, i), def.steps[i], values[i])
    ensures var task := Heading(connection, def, values, i);
            Heading(connection, def, values, i + 1)
            == Task(connection, Head(i + 1), task.previous[def.steps[i].name := values[i]], task.hadFailure)
  {
    assert Done(def, values, i + 1) == Done(def, values, i) + [DoneWell(def.steps[i], values[i])];
  }

  /** The actions of the first steps were dispatched. */
  ghost predicate AllSent(dispatches: seq<Dispatch>, id: Uuid, def: Definition, n: nat)
    requires n <= |def.steps|
  {
    forall j | 0 <= j < n && def.steps[j].operation.Act? :: Dispatch(id, j) in dispatches
  }

  lemma OneMoreSent(dispatches: seq<Dispatch>, more: seq<Dispatch>, id: Uuid, def: Definition, i: nat)
    requires i < |def.steps| && AllSent(dispatches, id, def, i)
    requires more == if def.steps[i].operation.Act? then [Dispatch(id, i)] else []
    ensures AllSent(dispatches + more, id, def, i + 1)
  {}

  /** All steps from the start of a task. */
  lemma {:induction false} StepsRun(from: State, trace: Trace, id: Uuid, owner: Uuid, connection: Uuid, def: Definition, values: seq<Json>, i: nat)
    returns (after: Trace)
    requires Runnable(def, values) && i <= |def.steps|
    requires Reaches(from, trace, id, Heading(connection, def, values, 0), Underway(owner, def, values, 0))
    ensures Reaches(from, after, id, Heading(connection, def, values, i), Underway(owner, def, values, i))
    ensures AllSent(after.s.dispatches, id, def, i)
    decreases i
  {
    if i == 0 {
      after := trace;
    } else {
      var before := StepsRun(from, trace, id, owner, connection, def, values, i - 1);
      after := NextRuns(from, before, id, owner, connection, def, values, i - 1);
    }
  }

  lemma NextRuns(from: State, trace: Trace, id: Uuid, owner: Uuid, connection: Uuid, def: Definition, values: seq<Json>, i: nat)
    returns (after: Trace)
    requires Runnable(def, values) && i < |def.steps| && AllSent(trace.s.dispatches, id, def, i)
    requires Reaches(from, trace, id, Heading(connection, def, values, i), Underway(owner, def, values, i))
    ensures Reaches(from, after, id, Heading(connection, def, values, i + 1), Underway(owner, def, values, i + 1))
    ensures AllSent(after.s.dispatches, id, def, i + 1)
  {
    after := StepRuns(from, trace, id, Heading(connection, def, values, i), Underway(owner, def, values, i), i, values[i]);
    OneFurther(owner, connection, def, values, i);
    OneMoreSent(trace.s.dispatches, if def.steps[i].operation.Act? then [Dispatch(id, i)] else [], id, def, i);
  }

  lemma LastEnterStands(s: State, id: Uuid, task: Task, record: Record)
    requires Stands(s, id, task, record) && task.phase == Head(|record.definition.steps|) && !task.hadFailure
    ensures Possible(s, Enter(id, false))
    ensures Stands(Next(s, Enter(id, false)), id, task.(phase := Ending(Waits.Satisfied)), record)
    ensures Next(s, Enter(id, false)).dispatches == s.dispatches
  {
    StepKeepsInv(s, Enter(id, false));
  }

  lemma FinishStands(s: State, id: Uuid, task: Task, record: Record)
    requires Stands(s, id, task, record) && task.phase == Ending(Waits.Satisfied) && record.outcome == Waits.Running
    ensures var s' := Next(s, Finish(id, false));
            && Possible(s, Finish(id, false))
            && id in s'.records && s'.records[id] == record.(outcome := Waits.Satisfied)
            && id !in s'.tasks && s'.dispatches == s.dispatches
  {}

  /** A run at whose end the workflow is satisfied, with these results in declared order and each action dispatched. */
  ghost predicate Finishes(from: State, run: Trace, id: Uuid, owner: Uuid, def: Definition, values: seq<Json>)
    requires |values| == |def.steps|
  {
    && Leads(from, run)
    && id in run.s.records && run.s.records[id] == Record(owner, def, Waits.Satisfied, Done(def, values, |def.steps|), false)
    && id !in run.s.tasks && AllSent(run.s.dispatches, id, def, |def.steps|)
  }

  /**
   The progress theorem: from every good host with room, a workflow whose
   bindings resolve can run to its end, whatever its steps return, and then it
   is satisfied.
   */
  lemma WorkflowCanFinish(s: State, id: Uuid, owner: Uuid, connection: Uuid, def: Definition, values: seq<Json>)
    requires Inv(s) && s.flight.None? && !s.broken && id !in s.canceled
    requires Possible(s, Start(id, owner, connection, def, true)) && MayStart(s, connection, def, true)
    requires Runnable(def, values)
    ensures exists run :: Finishes(s, run, id, owner, def, values)
  {
    var run := FinishRuns(s, id, owner, connection, def, values);
    assert Finishes(s, run, id, owner, def, values);
  }

  lemma FinishRuns(s: State, id: Uuid, owner: Uuid, connection: Uuid, def: Definition, values: seq<Json>) returns (run: Trace)
    requires Inv(s) && s.flight.None? && !s.broken && id !in s.canceled
    requires Possible(s, Start(id, owner, connection, def, true)) && MayStart(s, connection, def, true)
    requires Runnable(def, values)
    ensures Finishes(s, run, id, owner, def, values)
  {
    var started := Act(s, Trace([], s), Start(id, owner, connection, def, true));
    StartStands(s, id, owner, connection, def);
    var worked := StepsRun(s, started, id, owner, connection, def, values, |def.steps|);
    var task, record := Heading(connection, def, values, |def.steps|), Underway(owner, def, values, |def.steps|);
    LastEnterStands(worked.s, id, task, record);
    var ended := Act(s, worked, Enter(id, false));
    FinishStands(ended.s, id, task.(phase := Ending(Waits.Satisfied)), record);
    run := Act(s, ended, Finish(id, false));
  }

  lemma StartStands(s: State, id: Uuid, owner: Uuid, connection: Uuid, def: Definition)
    requires Inv(s) && s.flight.None? && !s.broken && id !in s.canceled
    requires Possible(s, Start(id, owner, connection, def, true)) && MayStart(s, connection, def, true)
    ensures Stands(Next(s, Start(id, owner, connection, def, true)), id, Task(connection, Head(0), map[], false),
                   Record(owner, def, Waits.Running, [], false))
  {
    StepKeepsInv(s, Start(id, owner, connection, def, true));
  }
}
