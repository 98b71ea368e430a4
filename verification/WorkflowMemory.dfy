/**
 What a step of a workflow sees of the ones before it, in every run: exactly the
 results in its log. And what the remaining operations on a workflow - preparing
 and sending a step, checkpointing, canceling, forgetting, closing - decide.
 */
module WorkflowMemory {
  import opened Wrappers
  import opened JsonValue
  import opened WorkflowBindings
  import opened WorkflowEngine
  import opened WorkflowSafety
  import opened WorkflowTheorems
  import Obs = ObservationLog
  import Waits = ObservationWaits

  // --- The results of earlier steps -------------------------------------------

  /** The results in a log, by the names of their steps. */
  function LogResults(steps: seq<StepResult>): map<string, Json> {
    if steps == [] then map[]
    else
      var last, before := steps[|steps| - 1], LogResults(steps[..|steps| - 1]);
      if last.result.Some? then before[last.name := last.result.value] else before
  }

  lemma {:induction false} NamesInLog(steps: seq<StepResult>, name: string)
    requires name in LogResults(steps)
    ensures exists i | 0 <= i < |steps| :: steps[i].name == name
    decreases |steps|
  {
    var n := |steps| - 1;
    if steps[n].name != name {
      NamesInLog(steps[..n], name);
      var i :| 0 <= i < n && steps[..n][i].name == name;
      assert steps[i].name == name;
    } else {
      assert steps[n].name == name;
    }
  }

  /** With every name once, each entry is found exactly if it has a result, and then with it. */
  lemma {:induction false} ResultsAreFound(steps: seq<StepResult>, i: nat)
    requires i < |steps| && forall j, k | 0 <= j < k < |steps| :: steps[j].name != steps[k].name
    ensures steps[i].name in LogResults(steps) <==> steps[i].result.Some?
    ensures steps[i].result.Some? ==> LogResults(steps)[steps[i].name] == steps[i].result.value
    decreases |steps|
  {
    var n := |steps| - 1;
    if i < n {
      ResultsAreFound(steps[..n], i);
    } else if steps[n].name in LogResults(steps[..n]) {
      NamesInLog(steps[..n], steps[n].name);
    }
  }

  /** A task remembers exactly the results of the steps behind it. */
  ghost predicate Remembers(record: Record, task: Task) {
    !task.phase.Ending? ==>
      Behind(task, record.steps) <= |record.steps| && task.previous == LogResults(record.steps[..Behind(task, record.steps)])
  }

  ghost predicate Memory(s: State) {
    forall id | id in s.tasks && id in s.records :: Remembers(s.records[id], s.tasks[id])
  }

  lemma PhaseKeepsMemory(record: Record, task: Task, phase: Phase)
    requires Remembers(record, task) && Busy(task.phase)
    requires phase.Ending? || ((Busy(phase) || phase.Output?) && phase.i == task.phase.i)
    ensures Remembers(record, task.(phase := phase))
  {}

  lemma MarkerKeepsMemory(record: Record, task: Task, r: StepResult)
    requires Remembers(record, task) && task.phase == Head(|record.steps|)
    ensures Remembers(record.(steps := record.steps + [r]), task.(phase := Marked(|record.steps|)))
  {
    assert (record.steps + [r])[..|record.steps|] == record.steps == record.steps[..|record.steps|];
  }

  /** Keeping a result: it is remembered if there is one. */
  lemma ResultIsRemembered(record: Record, task: Task, r: StepResult)
    requires TaskOk(record, task) && Remembers(record, task) && task.phase.Output?
    requires r.name == record.definition.steps[task.phase.i].name
    ensures Remembers(record.(steps := record.steps[task.phase.i := r]),
                      AfterResult(record.definition.steps[task.phase.i], task, r))
  {
    var i := task.phase.i;
    var steps := record.steps[i := r];
    assert steps[..i + 1][..i] == record.steps[..i] && steps[..i + 1][i] == r;
  }

  // --- Every step keeps it ------------------------------------------------------

  lemma UpdateKeepsMemory(s: State, id: Uuid, task: Task, record: Record)
    requires Memory(s) && Remembers(record, task)
    ensures Memory(Updated(s, id, task, record))
  {}

  lemma EnteredRemembers(s: State, id: Uuid, late: bool) returns (task: Task, record: Record)
    requires id in s.tasks && id in s.records && s.tasks[id].phase.Head?
    requires TaskOk(s.records[id], s.tasks[id]) && Remembers(s.records[id], s.tasks[id])
    ensures Entered(s, id, late) == Updated(s, id, task, record) && Remembers(record, task)
  {
    record, task := s.records[id], s.tasks[id];
    var i := task.phase.i;
    if i >= |record.definition.steps| || Stopped(s, id, task) || late {
      task := Entered(s, id, late).tasks[id];
      assert s.records[id := record] == s.records;
    } else {
      var r := StepResult(StepAt(s, id, i).name, Waits.Running, None, false);
      NewStepIsAppended(record, r);
      MarkerKeepsMemory(record, task, r);
      task, record := task.(phase := Marked(i)), record.(steps := record.steps + [r]);
    }
  }

  lemma EnterKeepsMemory(s: State, id: Uuid, late: bool)
    requires Inv(s) && Memory(s) && Possible(s, Enter(id, late))
    ensures Memory(Entered(s, id, late))
  {
    assert TaskOk(s.records[id], s.tasks[id]) && Remembers(s.records[id], s.tasks[id]);
    var task, record := EnteredRemembers(s, id, late);
    UpdateKeepsMemory(s, id, task, record);
  }

  lemma RecordedRemembers(s: State, id: Uuid, fits: bool) returns (task: Task, record: Record)
    requires id in s.tasks && id in s.records && s.tasks[id].phase.Output?
    requires TaskOk(s.records[id], s.tasks[id]) && Remembers(s.records[id], s.tasks[id])
    ensures Recorded(s, id, fits) == Updated(s, id, task, record) && Remembers(record, task)
  {
    record, task := s.records[id], s.tasks[id];
    var i := task.phase.i;
    var step := record.definition.steps[i];
    var r := Kept(step, task.phase.r, fits);
    LastStepIsReplaced(record, task.phase.r);
    LastStepIsReplaced(record, r);
    ResultIsRemembered(record, task, r);
    task, record := AfterResult(step, task, r), record.(steps := record.steps[i := r]);
  }

  lemma KeepKeepsMemory(s: State, id: Uuid, fits: bool)
    requires Inv(s) && Memory(s) && Possible(s, KeepResult(id, fits))
    ensures Memory(Recorded(s, id, fits))
  {
    assert TaskOk(s.records[id], s.tasks[id]) && Remembers(s.records[id], s.tasks[id]);
    var task, record := RecordedRemembers(s, id, fits);
    UpdateKeepsMemory(s, id, task, record);
  }

  /** Only the phase of one task changes, within its step or to its end. */
  ghost predicate PhaseMoves(s: State, s': State, id: Uuid, phase: Phase) {
    && id in s.tasks && Busy(s.tasks[id].phase)
    && (phase.Ending? || ((Busy(phase) || phase.Output?) && phase.i == s.tasks[id].phase.i))
    && s'.tasks == s.tasks[id := s.tasks[id].(phase := phase)] && s'.records == s.records
  }

  lemma PhaseMoveKeepsMemory(s: State, s': State, id: Uuid, phase: Phase)
    requires Tidy(s) && Memory(s) && PhaseMoves(s, s', id, phase)
    ensures Memory(s')
  {
    PhaseKeepsMemory(s.records[id], s.tasks[id], phase);
  }

  lemma PreparedMoves(s: State, id: Uuid)
    requires Grounded(s) && Possible(s, Prepare(id))
    ensures PhaseMoves(s, Prepared(s, id), id, Prepared(s, id).tasks[id].phase)
  {
    var phase := PreparedPhase(s, id);
    assert PhaseMoves(s, WithPhase(s, id, phase), id, phase);
  }

  lemma SentMoves(s: State, id: Uuid)
    requires Grounded(s) && Possible(s, Send(id))
    ensures PhaseMoves(s, Sent(s, id), id, Sent(s, id).tasks[id].phase)
  {}

  lemma CameBackMoves(s: State, id: Uuid, outcome: Outcome, value: Option<Json>)
    requires Grounded(s) && Possible(s, Return(id, outcome, value))
    ensures PhaseMoves(s, Returned(s, id, outcome, value), id, Returned(s, id, outcome, value).tasks[id].phase)
  {}

  lemma InterruptedMoves(s: State, id: Uuid, timedOut: bool)
    requires Grounded(s) && Possible(s, Interrupt(id, timedOut))
    ensures PhaseMoves(s, Interrupted(s, id, timedOut), id, Interrupted(s, id, timedOut).tasks[id].phase)
  {}

  lemma WorkKeepsMemory(s: State, a: Action)
    requires Inv(s) && Memory(s) && Possible(s, a) && (a.Prepare? || a.Send? || a.Return? || a.Interrupt?)
    ensures Memory(Next(s, a))
  {
    if a.Prepare? {
      PreparedMoves(s, a.id);
    } else if a.Send? {
      SentMoves(s, a.id);
    } else if a.Return? {
      CameBackMoves(s, a.id, a.outcome, a.value);
    } else {
      InterruptedMoves(s, a.id, a.timedOut);
    }
    PhaseMoveKeepsMemory(s, Next(s, a), a.id, Next(s, a).tasks[a.id].phase);
  }

  lemma CheckpointKeepsMemory(s: State, a: Action)
    requires Inv(s) && Memory(s) && Possible(s, a) && (a.Snapshot? || a.WriteDone?)
    ensures Memory(Next(s, a))
  {
    if a.Snapshot? && a.writer.ForStep? {
      PhaseMoveKeepsMemory(s, Next(s, a), a.writer.id, Next(s, a).tasks[a.writer.id].phase);
    } else if a.WriteDone? && Awaited(s, s.flight.value) {
      var id := s.flight.value.writer.id;
      PhaseMoveKeepsMemory(s, Next(s, a), id, Next(s, a).tasks[id].phase);
    }
  }

  /** Tasks that are still there have their logs as they were; a new one has an empty log. */
  ghost predicate TasksStay(s: State, s': State) {
    forall id | id in s'.tasks && id in s'.records ::
      || (s'.tasks[id].phase == Head(0) && s'.tasks[id].previous == map[])
      || (id in s.tasks && id in s.records && s'.tasks[id] == s.tasks[id] && s'.records[id].steps == s.records[id].steps)
  }

  lemma StayingKeepsMemory(s: State, s': State)
    requires Memory(s) && TasksStay(s, s')
    ensures Memory(s')
  {}

  lemma ComingAndGoingStay(s: State, a: Action)
    requires Grounded(s) && Possible(s, a) && (a.Start? || a.Finish?)
    ensures TasksStay(s, Next(s, a))
  {}

  lemma StoreStays(s: State, a: Action)
    requires Grounded(s) && Possible(s, a) && (a.Cancel? || a.Forget? || a.CloseToken? || a.Sweep? || a.Crash?)
    ensures TasksStay(s, Next(s, a))
  {}

  lemma StepKeepsMemory(s: State, a: Action)
    requires Inv(s) && Memory(s) && Possible(s, a)
    ensures Memory(Next(s, a))
  {
    if a.Enter? {
      EnterKeepsMemory(s, a.id, a.late);
    } else if a.KeepResult? {
      KeepKeepsMemory(s, a.id, a.fits);
    } else if a.Prepare? || a.Send? || a.Return? || a.Interrupt? {
      WorkKeepsMemory(s, a);
    } else if a.Snapshot? || a.WriteDone? {
      CheckpointKeepsMemory(s, a);
    } else {
      if a.Start? || a.Finish? {
        ComingAndGoingStay(s, a);
      } else {
        StoreStays(s, a);
      }
      StayingKeepsMemory(s, Next(s, a));
    }
  }

  lemma {:induction false} RunKeepsMemory(s: State, actions: seq<Action>)
    requires Inv(s) && Memory(s) && RunPossible(s, actions)
    ensures Memory(Run(s, actions))
    decreases |actions|
  {
    if actions != [] {
      StepKeepsInv(s, actions[0]);
      StepKeepsMemory(s, actions[0]);
      RunKeepsMemory(Next(s, actions[0]), actions[1..]);
    }
  }

  lemma RunRemembers(actions: seq<Action>)
    requires FromStart(actions)
    ensures Memory(After(actions))
  {
    InitialIsOk();
    RunKeepsMemory(INITIAL, actions);
  }

  /** In every run a step that is being prepared sees exactly the results of the steps before it in the log. */
  lemma StepSeesTheLog(actions: seq<Action>, id: Uuid)
    requires FromStart(actions) && Possible(After(actions), Prepare(id))
    ensures var s := After(actions);
            && id in s.records && s.tasks[id].phase.i + 1 == |s.records[id].steps| <= |s.records[id].definition.steps|
            && s.tasks[id].previous == LogResults(s.records[id].steps[..s.tasks[id].phase.i])
  {
    RunRemembers(actions);
    var s := After(actions);
    assert TaskOk(s.records[id], s.tasks[id]) && Remembers(s.records[id], s.tasks[id]);
  }

  // --- Preparing and sending ------------------------------------------------------

  /** What becomes of a step once its bindings meet the results before it. */
  ghost predicate PreparedAs(phase: Phase, record: Record, i: nat, results: map<string, Json>)
    requires i < |record.definition.steps|
  {
    var step := record.definition.steps[i];
    var r := Resolve(step.operation.Template(), results, 0);
    if r.Err? || (step.operation.Act? && !r.value.Object?) then
      phase == Output(i, StepResult(step.name, Waits.Outcome.Failed, None, step.operation.Act?))
    else if step.operation.Act? && record.definition.lifetime == Obs.Persistent then phase == Queued(i)
    else if step.operation.Act? then phase == Flushed(i)
    else phase == Waiting(i)
  }

  /**
   Preparing a step in every run: it fails exactly if what it binds is not in the
   log, or is no object where an action needs one; an action of a persistent
   workflow then waits for a checkpoint, and any other is ready to be sent.
   */
  lemma PrepareDecides(actions: seq<Action>, id: Uuid)
    requires FromStart(actions) && Possible(After(actions), Prepare(id))
    ensures var s, s' := After(actions), Next(After(actions), Prepare(id));
            && id in s.records && id in s'.tasks && s'.records == s.records && s'.dispatches == s.dispatches
            && var i, record := s.tasks[id].phase.i, s.records[id];
               && i < |record.definition.steps| && i <= |record.steps|
               && PreparedAs(s'.tasks[id].phase, record, i, LogResults(record.steps[..i]))
  {
    StepSeesTheLog(actions, id);
    PreparedIsAs(After(actions), id);
  }

  lemma PreparedIsAs(s: State, id: Uuid)
    requires id in s.tasks && s.tasks[id].phase.Marked? && id in s.records
    requires s.tasks[id].phase.i < |s.records[id].definition.steps|
    ensures var s' := Prepared(s, id);
            && id in s'.tasks && s'.records == s.records && s'.dispatches == s.dispatches
            && PreparedAs(s'.tasks[id].phase, s.records[id], s.tasks[id].phase.i, s.tasks[id].previous)
  {}

  /** The last look before an action goes out: a canceled one does not, and is said to have perhaps happened. */
  lemma SendDecides(s: State, id: Uuid)
    requires Inv(s) && Possible(s, Send(id))
    ensures var s', i := Next(s, Send(id)), s.tasks[id].phase.i;
            && id in s.records && id in s'.tasks && i < |s.records[id].definition.steps|
            && (if id in s.canceled then
                  && s'.dispatches == s.dispatches
                  && s'.tasks[id].phase == Output(i, StepResult(s.records[id].definition.steps[i].name, Waits.Outcome.Failed, None, true))
                else s'.dispatches == s.dispatches + [Dispatch(id, i)] && s'.tasks[id].phase == Dispatched(i))
  {
    assert TaskOk(s.records[id], s.tasks[id]);
  }

  // --- The store --------------------------------------------------------------

  /** A checkpoint holds every persistent workflow as it is at that moment, and no other. */
  lemma CheckpointDecides(s: State, writer: Writer)
    requires Inv(s) && Possible(s, Snapshot(writer))
    ensures var s' := Next(s, Snapshot(writer));
            && s'.flight.Some? && s'.durable == s.durable && s'.records == s.records
            && (forall id :: id in s'.flight.value.saved <==>
                  id in s.records && s.records[id].definition.lifetime == Obs.Persistent)
            && (forall id | id in s'.flight.value.saved :: s'.flight.value.saved[id] == s.records[id])
  {}

  /** A checkpoint that lands is the durable one, and the step that waits for it may go out. */
  lemma LandingDecides(s: State)
    requires Inv(s) && s.flight.Some?
    ensures var s', flight := Next(s, WriteDone(true)), s.flight.value;
            && s'.durable == flight.saved && s'.flight.None? && s'.records == s.records && s'.broken == s.broken
            && (flight.writer.ForStep? && flight.writer.id in s.tasks && s.tasks[flight.writer.id].phase == Writing(flight.step) ==>
                  flight.writer.id in s'.tasks && s'.tasks[flight.writer.id].phase == Flushed(flight.step))
  {}

  /** Asking a workflow to stop: a running one is told so and says so; a finished one stays as it is. */
  lemma CancelDecides(s: State, id: Uuid)
    requires Inv(s) && id in s.records
    ensures var s' := Next(s, Cancel(id));
            && id in s'.records
            && (s.records[id].outcome == Waits.Running ==>
                  id in s'.canceled && s'.records[id] == s.records[id].(cancellationRequested := true))
            && (s.records[id].outcome != Waits.Running ==> s'.records == s.records && s'.canceled == s.canceled)
            && (forall other | other != id :: other in s'.canceled <==> other in s.canceled)
            && s'.records - {id} == s.records - {id} && s'.tasks == s.tasks
  {}

  /** Forgetting takes away that one finished workflow. */
  lemma ForgetDecides(s: State, id: Uuid)
    requires Inv(s)
    ensures Possible(s, Forget(id)) <==> id in s.records && s.records[id].outcome != Waits.Running
    ensures Possible(s, Forget(id)) ==>
              Next(s, Forget(id)).records == s.records - {id} && Next(s, Forget(id)).tasks == s.tasks
  {}

  /**
   The close of a connection: its finished workflows are gone, its running ones
   canceled and to be gone when they end; persistent ones and those of others stay.
   */
  lemma SweepDecides(s: State, owner: Uuid, id: Uuid)
    requires Inv(s) && Possible(s, Sweep(owner)) && id in s.records
    ensures var s', record := Next(s, Sweep(owner)), s.records[id];
            if record.owner == owner && record.definition.lifetime == Obs.Connection then
              if record.outcome == Waits.Running then
                id in s'.records && s'.records[id] == record && id in s'.canceled && id in s'.retired
              else id !in s'.records
            else
              && id in s'.records && s'.records[id] == record
              && (id in s'.canceled <==> id in s.canceled) && (id in s'.retired <==> id in s.retired)
  {
    if s.records[id].outcome == Waits.Running {
      RunningHasHandle(s, id);
    }
  }
}
