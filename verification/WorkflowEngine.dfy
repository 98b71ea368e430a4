/**
 The workflow engine of src/workflow.rs as a transition system over its store,
 its running tasks, one durable checkpoint cell and crashes.

 The checkpoint is replaced atomically and under a serial lock, so at most one
 write is in flight and its snapshot was taken after the previous write ended.
 A step of the system is one critical section or one await point of the program.
 */
module WorkflowEngine {
  import opened Wrappers
  import opened JsonValue
  import opened WorkflowBindings
  import Obs = ObservationLog
  import Waits = ObservationWaits

  type Uuid = Obs.Uuid
  type Outcome = Waits.Outcome

  const MAX_STEPS: nat := 32
  const MAX_WORKFLOWS: nat := 64
  const MAX_ACTIVE: nat := 16
  const MAX_NAME_BYTES: nat := 128
  const MAX_STEP_NAME_BYTES: nat := 64
  const MAX_DURATION_MS: nat := 86_400_000

  datatype Operation = Act(tool: string, arguments: map<string, Json>) | Await(filter: map<string, Json>) {
    function Template(): Json { Object(if Act? then arguments else filter) }
  }

  datatype Step = Step(name: string, timeoutMs: nat, continueOnError: bool, operation: Operation)

  datatype Definition = Definition(name: string, lifetime: Obs.Lifetime, timeoutMs: nat, steps: seq<Step>)

  // --- Validation of a definition -----------------------------------------

  /** Strings are measured in bytes of their UTF-8 encoding. */
  function Utf8Length(text: string): nat {
    if text == "" then 0 else CharBytes(text[0]) + Utf8Length(text[1..])
  }

  function CharBytes(c: char): nat {
    if c as int < 0x80 then 1 else if c as int < 0x800 then 2 else if c as int < 0x1_0000 then 3 else 4
  }

  function NamesBefore(steps: seq<Step>, i: nat): set<string>
    requires i <= |steps|
  {
    set j | 0 <= j < i :: steps[j].name
  }

  predicate StepAccepted(step: Step, tools: set<string>, earlier: set<string>) {
    && 1 <= Utf8Length(step.name) <= MAX_STEP_NAME_BYTES
    && 1 <= step.timeoutMs <= MAX_DURATION_MS
    && (step.operation.Act? ==> !("workflow_" <= step.operation.tool) && step.operation.tool in tools)
    && Faults(step.operation.Template(), earlier, 0) == {}
    && step.name !in earlier
  }

  ghost predicate Accepted(def: Definition, tools: set<string>, size: nat) {
    && 1 <= Utf8Length(def.name) <= MAX_NAME_BYTES
    && 1 <= def.timeoutMs <= MAX_DURATION_MS
    && 1 <= |def.steps| <= MAX_STEPS
    && size <= 256 * 1024
    && forall i | 0 <= i < |def.steps| :: StepAccepted(def.steps[i], tools, NamesBefore(def.steps, i))
  }

  ghost predicate DistinctNames(steps: seq<Step>) {
    forall i, j | 0 <= i < j < |steps| :: steps[i].name != steps[j].name
  }

  lemma NamesGrow(steps: seq<Step>, k: nat)
    requires k < |steps|
    ensures NamesBefore(steps, k + 1) == NamesBefore(steps, k) + {steps[k].name}
    ensures steps[k].name !in NamesBefore(steps, k) ==> forall i | 0 <= i < k :: steps[i].name != steps[k].name
  {
    if steps[k].name !in NamesBefore(steps, k) {
      forall i | 0 <= i < k ensures steps[i].name != steps[k].name {
        assert steps[i].name in NamesBefore(steps, k);
      }
    }
  }

  method ValidateStep(step: Step, tools: set<string>, names: set<string>) returns (ok: bool)
    ensures ok <==> StepAccepted(step, tools, names)
  {
    if !(1 <= Utf8Length(step.name) <= MAX_STEP_NAME_BYTES) || !(1 <= step.timeoutMs <= MAX_DURATION_MS) { return false; }
    if step.operation.Act? {
      if "workflow_" <= step.operation.tool { return false; }
      if step.operation.tool !in tools { return false; }
    }
    if Faults(step.operation.Template(), names, 0) != {} { return false; }
    return step.name !in names;
  }

  /** The validator: it accepts exactly the acceptable definitions. */
  method Validate(def: Definition, tools: set<string>, size: nat) returns (ok: bool)
    ensures ok <==> Accepted(def, tools, size)
    ensures ok ==> DistinctNames(def.steps)
  {
    if !(1 <= Utf8Length(def.name) <= MAX_NAME_BYTES) || !(1 <= def.timeoutMs <= MAX_DURATION_MS) { return false; }
    if !(1 <= |def.steps| <= MAX_STEPS) || size > 256 * 1024 { return false; }
    var names: set<string> := {};
    for k := 0 to |def.steps|
      invariant names == NamesBefore(def.steps, k)
      invariant forall i | 0 <= i < k :: StepAccepted(def.steps[i], tools, NamesBefore(def.steps, i))
      invariant forall i, j | 0 <= i < j < k :: def.steps[i].name != def.steps[j].name
    {
      var step := def.steps[k];
      var stepOk := ValidateStep(step, tools, names);
      if !stepOk { return false; }
      NamesGrow(def.steps, k);
      names := names + {step.name};
    }
    return true;
  }

  /**
   Validation is enough for every later resolution: with results of earlier
   steps only, step `i` resolves unless one of those results, or the part of it
   a binding points at, is missing.
   */
  lemma AcceptedStepResolves(
    def: Definition, tools: set<string>, size: nat, i: nat, previous: map<string, Json>)
    requires Accepted(def, tools, size) && i < |def.steps| && previous.Keys <= NamesBefore(def.steps, i)
    ensures var template := def.steps[i].operation.Template();
            && Agrees(Resolve(template, previous, 0), Bindings(template), previous)
            && forall b | b in Bindings(template) :: exists j :: 0 <= j < i && def.steps[j].name == b.name
  {
    var template := def.steps[i].operation.Template();
    var names := NamesBefore(def.steps, i);
    assert StepAccepted(def.steps[i], tools, names);
    ValidatedResolves(template, names, previous, 0);
    forall b | b in Bindings(template)
      ensures exists j :: 0 <= j < i && def.steps[j].name == b.name
    {
      assert b.name in names;
    }
  }

  // --- Records ------------------------------------------------------------

  datatype StepResult = StepResult(name: string, outcome: Outcome, result: Option<Json>, mayHaveCompleted: bool)

  datatype Record = Record(
    owner: Uuid, definition: Definition, outcome: Outcome, steps: seq<StepResult>, cancellationRequested: bool)

  /** Position of the entry with a name, or the length. */
  function Find(steps: seq<StepResult>, name: string): (i: nat)
    ensures i <= |steps|
    ensures i < |steps| ==> steps[i].name == name
    ensures forall j | 0 <= j < i :: steps[j].name != name
  {
    if steps == [] || steps[0].name == name then 0 else 1 + Find(steps[1..], name)
  }

  /** Replace the entry with the same name, or add one. */
  function WithStep(record: Record, r: StepResult): Record {
    var i := Find(record.steps, r.name);
    record.(steps := if i < |record.steps| then record.steps[i := r] else record.steps + [r])
  }

  function InterruptedStep(r: StepResult): StepResult {
    if r.outcome == Waits.Running then r.(outcome := Waits.Outcome.Failed, mayHaveCompleted := true) else r
  }

  /** What a restart makes of a saved record: nothing is replayed, nothing running is left. */
  function Recovered(record: Record): Record {
    if record.outcome == Waits.Running then
      record.(outcome := Waits.Outcome.Failed,
              steps := seq(|record.steps|, i requires 0 <= i < |record.steps| => InterruptedStep(record.steps[i])))
    else record
  }

  // --- The system ---------------------------------------------------------

  /** Where a running task stands. */
  datatype Phase =
    | Head(i: nat)
    | Marked(i: nat)
    | Queued(i: nat)
    | Writing(i: nat)
    | Flushed(i: nat)
    | Dispatched(i: nat)
    | Waiting(i: nat)
    | Output(i: nat, r: StepResult)
    | Ending(outcome: Outcome)

  datatype Task = Task(connection: Uuid, phase: Phase, previous: map<string, Json>, hadFailure: bool)

  /** Who asked for a checkpoint: the worker, a step that waits for it, or a step that was interrupted meanwhile. */
  datatype Writer = Worker | ForStep(id: Uuid) | Orphan

  /** A checkpoint write in flight and what it will leave. */
  datatype Flight = Flight(writer: Writer, step: nat, saved: map<Uuid, Record>)

  datatype Dispatch = Dispatch(id: Uuid, step: nat)

  datatype State = State(
    records: map<Uuid, Record>, handles: set<Uuid>, canceled: set<Uuid>, retired: set<Uuid>, tasks: map<Uuid, Task>,
    durable: map<Uuid, Record>, flight: Option<Flight>, broken: bool, closed: set<Uuid>, swept: set<Uuid>,
    used: set<Uuid>, dispatches: seq<Dispatch>)

  datatype Action =
    | Start(id: Uuid, owner: Uuid, connection: Uuid, definition: Definition, fits: bool)
    | Enter(id: Uuid, late: bool)
    | Prepare(id: Uuid)
    | Snapshot(writer: Writer)
    | WriteDone(ok: bool)
    | Send(id: Uuid)
    | Return(id: Uuid, outcome: Outcome, value: Option<Json>)
    | Interrupt(id: Uuid, timedOut: bool)
    | KeepResult(id: Uuid, fits: bool)
    | Finish(id: Uuid, cleanupFailed: bool)
    | Cancel(id: Uuid)
    | Forget(id: Uuid)
    | CloseToken(connection: Uuid)
    | Sweep(owner: Uuid)
    | Crash

  predicate Stopped(s: State, id: Uuid, task: Task) { id in s.canceled || task.connection in s.closed }

  function StepAt(s: State, id: Uuid, i: nat): Step
    requires id in s.records && i < |s.records[id].definition.steps|
  {
    s.records[id].definition.steps[i]
  }

  predicate Busy(phase: Phase) {
    phase.Marked? || phase.Queued? || phase.Writing? || phase.Flushed? || phase.Dispatched? || phase.Waiting?
  }

  /** What the environment and the program counter allow. */
  ghost predicate Possible(s: State, a: Action) {
    match a
    case Start(id, owner, connection, def, _) =>
      id !in s.used && DistinctNames(def.steps) && (def.lifetime == Obs.Connection ==> connection == owner)
    case Enter(id, _) => id in s.tasks && s.tasks[id].phase.Head?
    case Prepare(id) => id in s.tasks && s.tasks[id].phase.Marked?
    case Snapshot(writer) => s.flight.None? && (writer.ForStep? ==> writer.id in s.tasks && s.tasks[writer.id].phase.Queued?)
    case WriteDone(_) => s.flight.Some?
    case Send(id) => id in s.tasks && s.tasks[id].phase.Flushed?
    case Return(id, outcome, value) =>
      id in s.tasks && (s.tasks[id].phase.Dispatched? || s.tasks[id].phase.Waiting?) && outcome != Waits.Running
    case Interrupt(id, timedOut) =>
      id in s.tasks && Busy(s.tasks[id].phase) && (timedOut || Stopped(s, id, s.tasks[id]))
    case KeepResult(id, _) => id in s.tasks && s.tasks[id].phase.Output?
    case Finish(id, _) => id in s.tasks && s.tasks[id].phase.Ending?
    case Cancel(_) => true
    case Forget(id) => id in s.records && s.records[id].outcome != Waits.Running
    case CloseToken(_) => true
    case Sweep(owner) => owner in s.closed
    case Crash => true
  }

  function Persistent(records: map<Uuid, Record>): map<Uuid, Record> {
    map id | id in records && records[id].definition.lifetime == Obs.Persistent :: records[id]
  }

  function RecoveredAll(saved: map<Uuid, Record>): map<Uuid, Record> {
    map id | id in saved :: Recovered(saved[id])
  }

  function WithPhase(s: State, id: Uuid, phase: Phase): State
    requires id in s.tasks
  {
    s.(tasks := s.tasks[id := s.tasks[id].(phase := phase)])
  }

  function PutStep(s: State, id: Uuid, r: StepResult): State {
    if id in s.records then s.(records := s.records[id := WithStep(s.records[id], r)]) else s
  }

  /** An error inside a step: no result, and an action may have happened. */
  function Failure(step: Step): StepResult {
    StepResult(step.name, Waits.Outcome.Failed, None, step.operation.Act?)
  }

  function Started(s: State, id: Uuid, owner: Uuid, connection: Uuid, def: Definition, fits: bool): State {
    if connection in s.closed || |s.records| >= MAX_WORKFLOWS || |s.handles| >= MAX_ACTIVE || !fits
       || (def.lifetime == Obs.Persistent && s.broken) then s
    else
      s.(records := s.records[id := Record(owner, def, Waits.Running, [], false)],
         handles := s.handles + {id},
         tasks := s.tasks[id := Task(connection, Head(0), map[], false)],
         used := s.used + {id})
  }

  /** The top of the step loop. */
  function Entered(s: State, id: Uuid, late: bool): State
    requires id in s.tasks && s.tasks[id].phase.Head? && id in s.records
  {
    var task, i := s.tasks[id], s.tasks[id].phase.i;
    if i >= |s.records[id].definition.steps| then
      WithPhase(s, id, Ending(if task.hadFailure then Waits.Outcome.Failed else Waits.Satisfied))
    else if Stopped(s, id, task) then WithPhase(s, id, Ending(Waits.Canceled))
    else if late then WithPhase(s, id, Ending(Waits.TimedOut))
    else
      PutStep(WithPhase(s, id, Marked(i)), id, StepResult(StepAt(s, id, i).name, Waits.Running, None, false))
  }

  /** Bindings are resolved; a persistent action then needs its marker on disk. */
  function Prepared(s: State, id: Uuid): State
    requires id in s.tasks && s.tasks[id].phase.Marked? && id in s.records
    requires s.tasks[id].phase.i < |s.records[id].definition.steps|
  {
    var i := s.tasks[id].phase.i;
    var step := StepAt(s, id, i);
    var resolved := Resolve(step.operation.Template(), s.tasks[id].previous, 0);
    if resolved.Err? || (step.operation.Act? && !resolved.value.Object?) then
      WithPhase(s, id, Output(i, Failure(step)))
    else if step.operation.Await? then WithPhase(s, id, Waiting(i))
    else if s.records[id].definition.lifetime == Obs.Persistent then WithPhase(s, id, Queued(i))
    else WithPhase(s, id, Flushed(i))
  }

  function Snapped(s: State, writer: Writer): State
    requires Possible(s, Snapshot(writer))
  {
    var saved := Persistent(s.records);
    if writer.ForStep? then
      var i := s.tasks[writer.id].phase.i;
      WithPhase(s.(flight := Some(Flight(writer, i, saved))), writer.id, Writing(i))
    else s.(flight := Some(Flight(writer, 0, saved)))
  }

  /** Whether a finished write is the one a step waits for; an interrupted step has moved on. */
  predicate Awaited(s: State, flight: Flight) {
    && flight.writer.ForStep? && flight.writer.id in s.tasks && flight.writer.id in s.records
    && s.tasks[flight.writer.id].phase == Writing(flight.step)
    && flight.step < |s.records[flight.writer.id].definition.steps|
  }

  function Written(s: State, ok: bool): State
    requires s.flight.Some?
  {
    var flight := s.flight.value;
    var landed := s.(flight := None, durable := if ok then flight.saved else s.durable);
    if Awaited(s, flight) then
      WithPhase(landed, flight.writer.id,
                if ok then Flushed(flight.step) else Output(flight.step, Failure(StepAt(s, flight.writer.id, flight.step))))
    else if !ok && flight.writer.Worker? then
      landed.(broken := true,
              canceled := s.canceled
                + set id | id in s.records && id in s.handles
                           && s.records[id].definition.lifetime == Obs.Persistent && s.records[id].outcome == Waits.Running)
    else landed
  }

  function Sent(s: State, id: Uuid): State
    requires id in s.tasks && s.tasks[id].phase.Flushed? && id in s.records
    requires s.tasks[id].phase.i < |s.records[id].definition.steps|
  {
    var i := s.tasks[id].phase.i;
    if id in s.canceled then WithPhase(s, id, Output(i, Failure(StepAt(s, id, i))))
    else WithPhase(s, id, Dispatched(i)).(dispatches := s.dispatches + [Dispatch(id, i)])
  }

  /** The operation came back: with a value, or (no value) with an error or one too large to keep. */
  function Returned(s: State, id: Uuid, outcome: Outcome, value: Option<Json>): State
    requires id in s.tasks && (s.tasks[id].phase.Dispatched? || s.tasks[id].phase.Waiting?) && id in s.records
    requires s.tasks[id].phase.i < |s.records[id].definition.steps|
  {
    var i := s.tasks[id].phase.i;
    var step := StepAt(s, id, i);
    WithPhase(s, id, Output(i, if value.Some? then StepResult(step.name, outcome, value, false) else Failure(step)))
  }

  function Interrupted(s: State, id: Uuid, timedOut: bool): State
    requires id in s.tasks && Busy(s.tasks[id].phase) && id in s.records
    requires s.tasks[id].phase.i < |s.records[id].definition.steps|
  {
    var i := s.tasks[id].phase.i;
    var step := StepAt(s, id, i);
    WithPhase(s, id, Output(i, StepResult(
      step.name, if timedOut then Waits.TimedOut else Waits.Canceled, None, step.operation.Act?)))
  }

  /** Store the step's result, or failing that its failure, and decide how the loop goes on. */
  function Recorded(s: State, id: Uuid, fits: bool): State
    requires id in s.tasks && s.tasks[id].phase.Output? && id in s.records
    requires s.tasks[id].phase.i < |s.records[id].definition.steps|
  {
    var task, i := s.tasks[id], s.tasks[id].phase.i;
    var step := StepAt(s, id, i);
    var stored := fits && Find(s.records[id].steps, task.phase.r.name) < |s.records[id].steps|;
    var r := if stored then task.phase.r else task.phase.r.(
               outcome := Waits.Outcome.Failed, result := None, mayHaveCompleted := step.operation.Act?);
    var previous := if r.result.Some? then task.previous[step.name := r.result.value] else task.previous;
    var failed := r.outcome != Waits.Satisfied;
    var phase :=
      if r.outcome == Waits.Canceled then Ending(Waits.Canceled)
      else if failed && !step.continueOnError then Ending(r.outcome)
      else Head(i + 1);
    PutStep(s.(tasks := s.tasks[id := Task(task.connection, phase, previous, task.hadFailure || failed)]), id, r)
  }

  /** What the end of a task does to the store; its record may be gone by then. */
  function Closed(s: State, id: Uuid, outcome: Outcome): State {
    var records := if id in s.records then s.records[id := WithOutcome(s, s.records[id], outcome)] else s.records;
    s.(records := if id in s.retired then records - {id} else records,
       handles := s.handles - {id}, retired := s.retired - {id})
  }

  /** Only a running record ends, and a persistent one has failed once persistence has. */
  function WithOutcome(s: State, record: Record, outcome: Outcome): Record {
    if record.outcome != Waits.Running then record
    else record.(outcome := if record.definition.lifetime == Obs.Persistent && s.broken then Waits.Outcome.Failed else outcome)
  }

  function Finished(s: State, id: Uuid, cleanupFailed: bool): State
    requires id in s.tasks && s.tasks[id].phase.Ending?
  {
    Closed(s, id, if cleanupFailed then Waits.Outcome.Failed else s.tasks[id].phase.outcome).(tasks := s.tasks - {id})
  }

  function Forgotten(s: State, id: Uuid): State { s.(records := s.records - {id}) }

  function CancelRequested(s: State, id: Uuid): State {
    if id !in s.records then s
    else
      s.(canceled := s.canceled + ({id} * s.handles),
         records := if s.records[id].outcome == Waits.Running
                    then s.records[id := s.records[id].(cancellationRequested := true)] else s.records)
  }

  predicate OwnedBy(record: Record, owner: Uuid) {
    record.owner == owner && record.definition.lifetime == Obs.Connection
  }

  function Swept(s: State, owner: Uuid): State {
    var owned := set id | id in s.records && OwnedBy(s.records[id], owner);
    s.(canceled := s.canceled + (owned * s.handles), retired := s.retired + (owned * s.handles),
       records := s.records - (owned - s.handles), swept := s.swept + {owner})
  }

  /** Losing the process and starting again from the checkpoint: no task is started. */
  function Rebooted(s: State): State {
    s.(records := RecoveredAll(s.durable), handles := {}, canceled := {}, retired := {}, tasks := map[],
       flight := None, broken := false)
  }

  function Next(s: State, a: Action): State
    requires Possible(s, a) && Grounded(s)
  {
    match a
    case Start(id, owner, connection, def, fits) => Started(s, id, owner, connection, def, fits)
    case Enter(id, late) => Entered(s, id, late)
    case Prepare(id) => Prepared(s, id)
    case Snapshot(writer) => Snapped(s, writer)
    case WriteDone(ok) => Written(s, ok)
    case Send(id) => Sent(s, id)
    case Return(id, outcome, value) => Returned(s, id, outcome, value)
    case Interrupt(id, timedOut) => Interrupted(s, id, timedOut)
    case KeepResult(id, fits) => Recorded(s, id, fits)
    case Finish(id, cleanupFailed) => Finished(s, id, cleanupFailed)
    case Cancel(id) => CancelRequested(s, id)
    case Forget(id) => Forgotten(s, id)
    case CloseToken(connection) => s.(closed := s.closed + {connection})
    case Sweep(owner) => Swept(s, owner)
    case Crash => Rebooted(s)
  }

  /** A task has its record, and works on a declared step. */
  ghost predicate Grounded(s: State) {
    forall id | id in s.tasks ::
      && id in s.records
      && (Busy(s.tasks[id].phase) || s.tasks[id].phase.Output? ==>
            s.tasks[id].phase.i < |s.records[id].definition.steps|)
  }
}
