/**
 The startup protocol of src/execution.rs over the registry lock: starts race
 with the closing of their connection, with host shutdown, with the supervisor
 and with checkpoints. One action is what happens under one lock. Checks that
 only make a start fail sooner are left to the environment (`Abort`, `Fail`).
 */
module ExecutionStartup {
  import opened Wrappers
  import opened ExecutionRegistry
  import Obs = ObservationLog

  const MAX_CONNECTIONS: nat := 64

  /** The job of one start: its process tree. A crash of the host kills it too. */
  datatype Child = Absent | Suspended | Alive | Dead

  datatype Phase = Begun | Created | Admitted | Saving | Checkpointed | Resumed | Failing | Ended

  datatype Start = Start(connection: Uuid, token: nat, lifetime: Obs.Lifetime, phase: Phase, child: Child)

  /** What the registry knows; `live` says that there is a process handle. */
  datatype Record = Record(
    lifetime: Obs.Lifetime, owner: Option<Uuid>, status: Status, live: bool,
    rootExited: bool, active: nat, cancelRequested: bool)
  {
    /** The record itself shows that the process tree is gone. */
    predicate TreeGone() { rootExited && active == 0 }

    predicate Settled() { status.Finished() && TreeGone() }

    predicate Evictable() { status.Finished() && (!live || TreeGone()) }
  }

  datatype Flight = Flight(writer: Option<Uuid>, saved: map<Uuid, Record>)

  /** The clean-up of a close: the entries still to terminate, and whether one could not be. */
  datatype Sweep = Sweep(todo: set<Uuid>, failed: bool) {
    predicate Clean() { todo == {} && !failed }
  }

  /** What one execution identifier stands for: the start, once begun, and the entry, while it is registered. */
  datatype Local = Local(start: Option<Start>, entry: Option<Record>)

  /** Every connection has its cancellation token; a token is never used for two connections. */
  datatype State = State(
    connections: map<Uuid, nat>, canceled: set<nat>, nextToken: nat, requests: set<Uuid>,
    closed: bool, hostShutdown: bool,
    starts: map<Uuid, Start>, entries: map<Uuid, Record>,
    durable: map<Uuid, Record>, flight: Option<Flight>,
    sweeps: map<nat, Sweep>, halt: Option<Sweep>)

  const INITIAL: State := State(map[], {}, 0, {}, false, false, map[], map[], map[], None, map[], None)

  /** What happens to one execution. */
  datatype Step =
    | Begin(connection: Uuid, token: nat, lifetime: Obs.Lifetime)
    | Create
    | Abort(killed: bool)
    | Admit
    | Resume
    | Fail
    | Cleanup(ok: bool)
    | Terminate(ok: bool)
    | Exit
    | Observe(exited: bool, active: nat, verdict: Option<Status>)
    | ObserveError(killed: bool)
    | Evict

  datatype Action =
    | Do(id: Uuid, step: Step)
    | Register(connection: Uuid)
    | CancelToken(connection: Uuid)
    | CancelRequest(id: Uuid)
    | Snapshot(writer: Option<Uuid>)
    | WriteDone(ok: bool)
    | RemoveConnection(connection: Uuid)
    | SweepOne(token: nat, id: Uuid, ok: bool)
    | HostClose
    | HaltOne(id: Uuid, ok: bool)
    | RequestShutdown
    | Restart

  predicate ConnectionIsOpen(s: State, connection: Uuid) {
    !s.closed && connection in s.connections && s.connections[connection] !in s.canceled
  }

  predicate Unresumed(phase: Phase) {
    phase.Begun? || phase.Created?
  }

  /** The start has its entry and works on it. */
  predicate Registered(phase: Phase) {
    !Unresumed(phase) && !phase.Ended?
  }

  /** The check of a start at the moment it gets its entry. */
  predicate MayAdmit(s: State, id: Uuid, start: Start) {
    id !in s.requests && start.token !in s.canceled && ConnectionIsOpen(s, start.connection)
  }

  /** The last check of a start, at the moment its child is resumed. */
  predicate MayResume(s: State, id: Uuid, start: Start, record: Record) {
    && !s.closed && !s.hostShutdown
    && (start.lifetime == Obs.Persistent || ConnectionIsOpen(s, start.connection))
    && record.status == Starting && !record.cancelRequested
    && (if start.lifetime == Obs.Connection then id !in s.requests && start.token !in s.canceled
        else start.token !in s.canceled ==> id !in s.requests)
  }

  function At(s: State, id: Uuid): Local {
    Local(if id in s.starts then Some(s.starts[id]) else None, if id in s.entries then Some(s.entries[id]) else None)
  }

  /** An entry that its supervisor still watches. */
  predicate Watched(l: Local) {
    l.start.Some? && l.entry.Some? && l.entry.value.live && !l.entry.value.status.Finished()
  }

  /** What the execution itself allows. */
  ghost predicate CanDo(l: Local, step: Step) {
    match step
    case Begin(_, _, _) => l.start.None? && l.entry.None?
    case Create => l.start.Some? && l.start.value.phase.Begun?
    case Abort(_) => l.start.Some? && Unresumed(l.start.value.phase)
    case Admit => l.start.Some? && l.start.value.phase.Created?
    case Resume =>
      && l.start.Some? && l.entry.Some?
      && l.start.value.phase == if l.start.value.lifetime == Obs.Persistent then Checkpointed else Admitted
    case Fail => l.start.Some? && (l.start.value.phase.Admitted? || l.start.value.phase.Checkpointed?)
    case Cleanup(_) => l.start.Some? && l.start.value.phase.Failing?
    case Terminate(_) => true
    case Exit => l.start.Some? && !l.start.value.child.Absent?
    case Observe(exited, active, verdict) =>
      && Watched(l)
      && (exited && active == 0 ==> l.start.value.child.Dead?)
      && (verdict.Some? ==> exited && active == 0 && verdict.value.Finished())
    case ObserveError(_) => Watched(l)
    case Evict => l.entry.Some? && l.entry.value.Evictable()
  }

  ghost predicate Possible(s: State, a: Action) {
    match a
    case Do(id, step) =>
      && CanDo(At(s, id), step)
      && (step.Begin? ==>
            id !in s.durable && step.connection in s.connections && step.token == s.connections[step.connection])
      && (step.Admit? ==> MayAdmit(s, id, s.starts[id]))
      && (step.Resume? ==> MayResume(s, id, s.starts[id], s.entries[id]))
    case Register(c) => !s.closed && |s.connections| < MAX_CONNECTIONS && c !in s.connections
    case CancelToken(c) => c in s.connections
    case CancelRequest(_) => true
    case Snapshot(writer) =>
      s.flight.None? &&
      (writer.Some? ==>
         && writer.value in s.starts && s.starts[writer.value].phase.Admitted?
         && s.starts[writer.value].lifetime == Obs.Persistent)
    case WriteDone(_) => s.flight.Some?
    case RemoveConnection(c) => c in s.connections
    case SweepOne(token, id, _) => token in s.sweeps && id in s.sweeps[token].todo
    case HostClose => true
    case HaltOne(id, _) => s.halt.Some? && id in s.halt.value.todo
    case RequestShutdown => true
    case Restart => true
  }

  // --- The steps ----------------------------------------------------------

  function Phased(l: Local, phase: Phase): Local {
    if l.start.Some? then l.(start := Some(l.start.value.(phase := phase))) else l
  }

  function Changed(l: Local, child: Child): Local {
    if l.start.Some? then l.(start := Some(l.start.value.(child := child))) else l
  }

  function NewRecord(start: Start): Record {
    Record(start.lifetime, if start.lifetime == Obs.Connection then Some(start.connection) else None,
           Starting, true, false, 1, false)
  }

  /** Asking the job object of an entry to terminate; a settled entry is left as it is. */
  function Terminated(l: Local, ok: bool): Local {
    if l.entry.Some? && l.entry.value.live && !l.entry.value.Settled() && ok then
      Changed(l.(entry := Some(l.entry.value.(cancelRequested := true))), Dead)
    else l
  }

  /** Whether that reports success; an entry evicted meanwhile is settled. */
  predicate Terminates(l: Local, ok: bool) {
    l.entry.Some? ==> l.entry.value.live && (l.entry.value.Settled() || ok)
  }

  function Observed(r: Record, exited: bool, active: nat, verdict: Option<Status>): Record {
    r.(rootExited := exited, active := active,
       status := if verdict.Some? then verdict.value else if exited then RootExited else r.status)
  }

  function Stepped(l: Local, step: Step): Local
    requires CanDo(l, step)
  {
    match step
    case Begin(connection, token, lifetime) => l.(start := Some(Start(connection, token, lifetime, Begun, Absent)))
    case Create => Changed(Phased(l, Created), Suspended)
    case Abort(killed) =>
      var ended := Phased(l, Ended);
      if killed || l.start.value.child.Absent? then Changed(ended, Dead) else ended
    case Admit => Phased(l, Admitted).(entry := Some(NewRecord(l.start.value)))
    case Resume =>
      var running := Phased(l, Resumed).(entry := Some(l.entry.value.(status := Running)));
      if l.start.value.child.Suspended? then Changed(running, Alive) else running
    case Fail => Phased(l, Failing)
    case Cleanup(ok) => Phased(Terminated(l, ok), Ended)
    case Terminate(ok) => Terminated(l, ok)
    case Exit => Changed(l, Dead)
    case Observe(exited, active, verdict) => l.(entry := Some(Observed(l.entry.value, exited, active, verdict)))
    case ObserveError(killed) =>
      var failed := l.(entry := Some(l.entry.value.(status := Status.Failed)));
      if killed then Changed(failed, Dead) else failed
    case Evict => l.(entry := None)
  }

  function Placed<T>(m: map<Uuid, T>, id: Uuid, value: Option<T>): map<Uuid, T> {
    if value.Some? then m[id := value.value] else m - {id}
  }

  function Put(s: State, id: Uuid, l: Local): State {
    s.(starts := Placed(s.starts, id, l.start), entries := Placed(s.entries, id, l.entry))
  }

  function PersistentRecords(entries: map<Uuid, Record>): map<Uuid, Record> {
    map id | id in entries && entries[id].lifetime == Obs.Persistent :: entries[id]
  }

  function OwnedBy(entries: map<Uuid, Record>, connection: Uuid): set<Uuid> {
    set id | id in entries && entries[id].owner == Some(connection)
  }

  function LiveEntries(entries: map<Uuid, Record>): set<Uuid> {
    set id | id in entries && entries[id].live
  }

  function SweptBy(sweep: Sweep, id: Uuid, success: bool): Sweep {
    Sweep(sweep.todo - {id}, sweep.failed || !success)
  }

  function PhasedIn(starts: map<Uuid, Start>, id: Uuid, phase: Phase): map<Uuid, Start> {
    if id in starts then starts[id := starts[id].(phase := phase)] else starts
  }

  /** The start that waits for a finished write goes on; others have no part in it. */
  function StartsAfterWrite(starts: map<Uuid, Start>, writer: Option<Uuid>, ok: bool): map<Uuid, Start> {
    if writer.Some? && writer.value in starts && starts[writer.value].phase.Saving? then
      PhasedIn(starts, writer.value, if ok then Checkpointed else Failing)
    else starts
  }

  function Interrupted(r: Record): Record {
    r.(live := false, status := if r.status.Finished() then r.status else InterruptedHostRestart)
  }

  function InterruptedAll(saved: map<Uuid, Record>): map<Uuid, Record> {
    map id | id in saved :: Interrupted(saved[id])
  }

  function EndedAll(starts: map<Uuid, Start>): map<Uuid, Start> {
    map id | id in starts :: starts[id].(phase := Ended, child := Dead)
  }

  function AllTokens(connections: map<Uuid, nat>): set<nat> {
    set c | c in connections :: connections[c]
  }

  /** The connections and their tokens after an action. */
  function Network(s: State, a: Action): State
    requires Possible(s, a)
  {
    match a
    case Register(c) => s.(connections := s.connections[c := s.nextToken], nextToken := s.nextToken + 1)
    case CancelToken(c) => s.(canceled := s.canceled + {s.connections[c]})
    case RemoveConnection(c) => s.(connections := s.connections - {c}, canceled := s.canceled + {s.connections[c]})
    case HostClose => s.(connections := map[], canceled := s.canceled + AllTokens(s.connections))
    case Restart => s.(connections := map[])
    case _ => s
  }

  /** The starts after an action. */
  function Started(s: State, a: Action): map<Uuid, Start>
    requires Possible(s, a)
  {
    match a
    case Do(id, step) => Placed(s.starts, id, Stepped(At(s, id), step).start)
    case Snapshot(writer) => if writer.Some? then PhasedIn(s.starts, writer.value, Saving) else s.starts
    case WriteDone(ok) => StartsAfterWrite(s.starts, s.flight.value.writer, ok)
    case SweepOne(_, id, ok) => Placed(s.starts, id, Terminated(At(s, id), ok).start)
    case HaltOne(id, ok) => Placed(s.starts, id, Terminated(At(s, id), ok).start)
    case Restart => EndedAll(s.starts)
    case _ => s.starts
  }

  /** The entries of the registry after an action. */
  function Entered(s: State, a: Action): map<Uuid, Record>
    requires Possible(s, a)
  {
    match a
    case Do(id, step) => Placed(s.entries, id, Stepped(At(s, id), step).entry)
    case SweepOne(_, id, ok) => Placed(s.entries, id, Terminated(At(s, id), ok).entry)
    case HaltOne(id, ok) => Placed(s.entries, id, Terminated(At(s, id), ok).entry)
    case Restart => InterruptedAll(s.durable)
    case _ => s.entries
  }

  /** The checkpoint on disk and the one being written, after an action. */
  function OnDisk(s: State, a: Action): (map<Uuid, Record>, Option<Flight>)
    requires Possible(s, a)
  {
    match a
    case Snapshot(writer) => (s.durable, Some(Flight(writer, PersistentRecords(s.entries))))
    case WriteDone(ok) => (if ok then s.flight.value.saved else s.durable, None)
    case Restart => (s.durable, None)
    case _ => (s.durable, s.flight)
  }

  /** The clean-up lists after an action. */
  function Sweeping(s: State, a: Action): (map<nat, Sweep>, Option<Sweep>)
    requires Possible(s, a)
  {
    match a
    case RemoveConnection(c) => (s.sweeps[s.connections[c] := Sweep(OwnedBy(s.entries, c), false)], s.halt)
    case SweepOne(token, id, ok) =>
      (s.sweeps[token := SweptBy(s.sweeps[token], id, Terminates(At(s, id), ok))], s.halt)
    case HostClose => (s.sweeps, Some(Sweep(LiveEntries(s.entries), false)))
    case HaltOne(id, ok) => (s.sweeps, Some(SweptBy(s.halt.value, id, Terminates(At(s, id), ok))))
    case Restart => (map[], None)
    case _ => (s.sweeps, s.halt)
  }

  function Next(s: State, a: Action): State
    requires Possible(s, a)
  {
    var network := Network(s, a);
    var (durable, flight) := OnDisk(s, a);
    var (sweeps, halt) := Sweeping(s, a);
    State(network.connections, network.canceled, network.nextToken,
          if a.CancelRequest? then s.requests + {a.id} else if a.Restart? then {} else s.requests,
          !a.Restart? && (s.closed || a.HostClose?), !a.Restart? && (s.hostShutdown || a.RequestShutdown?),
          Started(s, a), Entered(s, a), durable, flight, sweeps, halt)
  }

  // --- The invariant ------------------------------------------------------

  ghost predicate EntryOk(start: Start, r: Record) {
    && r.lifetime == start.lifetime && r.owner == NewRecord(start).owner
    && !start.child.Absent?
    && (r.cancelRequested || r.TreeGone() ==> start.child.Dead?)
  }

  /** A start agrees with the registry; only a start with a live entry can have a living child. */
  ghost predicate LocalOk(l: Local) {
    && (l.entry.Some? && l.entry.value.live ==> l.start.Some? && EntryOk(l.start.value, l.entry.value))
    && (l.start.Some? ==>
          var start := l.start.value;
          && (start.phase.Begun? <==> start.child.Absent?)
          && (Unresumed(start.phase) ==> l.entry.None?)
          && (Registered(start.phase) && l.entry.Some? ==> l.entry.value.live)
          && (start.child.Alive? ==> l.entry.Some? && l.entry.value.live)
          && (start.child.Suspended? ==> !start.phase.Resumed?))
  }

  ghost predicate Locals(s: State) {
    forall id | id in s.starts || id in s.entries :: LocalOk(At(s, id))
  }

  /** Tokens are not shared, and a start carries the token its connection had. */
  ghost predicate ConnectionTokens(s: State) {
    && (forall c | c in s.connections :: s.connections[c] < s.nextToken && s.connections[c] !in s.sweeps)
    && (forall c, d | c in s.connections && d in s.connections && s.connections[c] == s.connections[d] :: c == d)
    && (forall t | t in s.sweeps :: t in s.canceled && t < s.nextToken)
  }

  ghost predicate TokenOk(s: State, start: Start) {
    start.token < s.nextToken && forall c | c in s.connections && start.token == s.connections[c] :: start.connection == c
  }

  ghost predicate Tokens(s: State) {
    ConnectionTokens(s) && forall id | id in s.starts :: TokenOk(s, s.starts[id])
  }

  /** A persistent start past its checkpoint is in it, and in the one being written. */
  ghost predicate SaveOk(durable: map<Uuid, Record>, flight: Option<Flight>, id: Uuid, l: Local) {
    l.start.Some? ==>
      && (l.start.value.lifetime == Obs.Persistent && (l.start.value.phase.Checkpointed? || l.start.value.child.Alive?) && l.entry.Some? ==>
            id in durable && (flight.Some? ==> id in flight.value.saved))
      && (l.start.value.phase.Saving? ==>
            && flight.Some? && flight.value.writer == Some(id)
            && (l.entry.Some? ==> id in flight.value.saved))
  }

  ghost predicate Saves(s: State) {
    forall id | id in s.starts :: SaveOk(s.durable, s.flight, id, At(s, id))
  }

  /** What a connection's close has still to do, or reported that it could not. */
  ghost predicate SweepOk(sweeps: map<nat, Sweep>, id: Uuid, start: Start) {
    start.lifetime == Obs.Connection && start.token in sweeps && start.child.Alive? ==>
      id in sweeps[start.token].todo || sweeps[start.token].failed
  }

  ghost predicate Sweeps(s: State) {
    forall id | id in s.starts :: SweepOk(s.sweeps, id, s.starts[id])
  }

  /** The same for the shutdown of the host. */
  ghost predicate HaltOk(halt: Option<Sweep>, id: Uuid, start: Start) {
    halt.Some? && start.child.Alive? ==> id in halt.value.todo || halt.value.failed
  }

  ghost predicate Halts(s: State) {
    (s.halt.Some? ==> s.closed) && forall id | id in s.starts :: HaltOk(s.halt, id, s.starts[id])
  }

  ghost predicate Inv(s: State) {
    Locals(s) && Tokens(s) && Saves(s) && Sweeps(s) && Halts(s)
  }

  lemma InitialIsOk()
    ensures Inv(INITIAL)
  {}

  // --- What one step does to one execution ---------------------------------

  lemma StepKeepsLocal(l: Local, step: Step)
    requires LocalOk(l) && CanDo(l, step)
    ensures LocalOk(Stepped(l, step))
  {}

  /** What a start was begun as never changes, and it is never forgotten. */
  lemma StepKeepsIdentity(l: Local, step: Step)
    requires CanDo(l, step) && l.start.Some?
    ensures var after := Stepped(l, step).start;
            after.Some? && after.value.token == l.start.value.token
            && after.value.connection == l.start.value.connection && after.value.lifetime == l.start.value.lifetime
  {}

  /** A child is alive only because it was, or because its start resumed it. */
  lemma StepGivesLife(l: Local, step: Step)
    requires CanDo(l, step) && Stepped(l, step).start.Some? && Stepped(l, step).start.value.child.Alive?
    ensures l.start.Some? && (l.start.value.child.Alive? || step.Resume?)
  {}

  /** No step enters the phases of the checkpoint, and only admission brings an entry. */
  lemma StepKeepsSavePhases(l: Local, step: Step)
    requires CanDo(l, step) && Stepped(l, step).start.Some?
    ensures var after := Stepped(l, step);
            && (after.start.value.phase.Saving? ==> l.start.Some? && l.start.value.phase.Saving?)
            && (after.start.value.phase.Checkpointed? ==> l.start.Some? && l.start.value.phase.Checkpointed?)
            && (after.entry.Some? && !step.Admit? ==> l.entry.Some?)
  {}

  lemma StepKeepsSave(durable: map<Uuid, Record>, flight: Option<Flight>, id: Uuid, l: Local, step: Step)
    requires LocalOk(l) && SaveOk(durable, flight, id, l) && CanDo(l, step)
    ensures SaveOk(durable, flight, id, Stepped(l, step))
  {
    var after := Stepped(l, step);
    if after.start.Some? {
      StepKeepsSavePhases(l, step);
      if l.start.Some? {
        StepKeepsIdentity(l, step);
      }
      if after.start.value.child.Alive? {
        StepGivesLife(l, step);
      }
    }
  }

  lemma TerminationKeepsLocal(l: Local, ok: bool)
    requires LocalOk(l)
    ensures LocalOk(Terminated(l, ok))
  {
    StepKeepsLocal(l, Terminate(ok));
  }

  /** After an entry was asked to terminate, successfully, its child is gone. */
  lemma TerminatedIsGone(l: Local, ok: bool)
    requires LocalOk(l) && Terminates(l, ok)
    ensures Terminated(l, ok).start.Some? ==> !Terminated(l, ok).start.value.child.Alive?
  {}

  // --- Each step keeps the invariant ----------------------------------------

  /** The execution that an action steps, if it is one. */
  function Focus(s: State, a: Action): Option<Uuid> {
    match a
    case Do(id, _) => Some(id)
    case Snapshot(writer) => writer
    case WriteDone(_) =>
      if s.flight.Some? && s.flight.value.writer.Some? && s.flight.value.writer.value in s.starts
         && s.starts[s.flight.value.writer.value].phase.Saving? then s.flight.value.writer else None
    case SweepOne(_, id, _) => Some(id)
    case HaltOne(id, _) => Some(id)
    case _ => None
  }

  /** How the focused execution changes. */
  function Refocused(s: State, a: Action): Local
    requires Possible(s, a) && Focus(s, a).Some?
  {
    var l := At(s, Focus(s, a).value);
    match a
    case Do(_, step) => Stepped(l, step)
    case Snapshot(_) => Phased(l, Saving)
    case WriteDone(ok) => Phased(l, if ok then Checkpointed else Failing)
    case SweepOne(_, _, ok) => Terminated(l, ok)
    case HaltOne(_, ok) => Terminated(l, ok)
    case _ => l
  }

  lemma OtherStartsStay(s: State, a: Action, id: Uuid)
    requires Possible(s, a) && !a.Restart? && Focus(s, a) != Some(id)
    ensures id in Started(s, a) <==> id in s.starts
    ensures id in s.starts ==> Started(s, a)[id] == s.starts[id]
  {}

  lemma OtherEntriesStay(s: State, a: Action, id: Uuid)
    requires Possible(s, a) && !a.Restart? && Focus(s, a) != Some(id)
    ensures id in Entered(s, a) <==> id in s.entries
    ensures id in s.entries ==> Entered(s, a)[id] == s.entries[id]
  {}

  lemma OthersStay(s: State, a: Action, id: Uuid)
    requires Possible(s, a) && !a.Restart? && Focus(s, a) != Some(id)
    ensures At(Next(s, a), id) == At(s, id)
  {
    OtherStartsStay(s, a, id);
    OtherEntriesStay(s, a, id);
  }

  lemma FocusStart(s: State, a: Action)
    requires Possible(s, a) && Focus(s, a).Some?
    ensures At(s.(starts := Started(s, a)), Focus(s, a).value).start == Refocused(s, a).start
  {}

  lemma FocusEntry(s: State, a: Action)
    requires Possible(s, a) && Focus(s, a).Some?
    ensures At(s.(entries := Entered(s, a)), Focus(s, a).value).entry == Refocused(s, a).entry
  {}

  lemma FocusMoves(s: State, a: Action)
    requires Possible(s, a) && Focus(s, a).Some?
    ensures At(Next(s, a), Focus(s, a).value) == Refocused(s, a)
  {
    FocusStart(s, a);
    FocusEntry(s, a);
  }

  lemma AtTells(s: State, id: Uuid)
    ensures At(s, id).start.Some? <==> id in s.starts
    ensures id in s.starts ==> At(s, id).start.value == s.starts[id]
    ensures At(s, id).entry.Some? <==> id in s.entries
    ensures id in s.entries ==> At(s, id).entry.value == s.entries[id]
  {}

  lemma FocusIsOk(s: State, a: Action)
    requires Possible(s, a) && Focus(s, a).Some? && LocalOk(At(s, Focus(s, a).value))
    ensures LocalOk(Refocused(s, a))
  {
    var l := At(s, Focus(s, a).value);
    if a.Do? {
      StepKeepsLocal(l, a.step);
    } else if a.SweepOne? || a.HaltOne? {
      TerminationKeepsLocal(l, a.ok);
    }
  }

  lemma RestartIsOk(s: State, id: Uuid)
    ensures LocalOk(At(Next(s, Restart), id))
  {}

  lemma LocalsKept(s: State, a: Action)
    requires Locals(s) && Possible(s, a)
    ensures Locals(Next(s, a))
  {
    forall id | id in Next(s, a).starts || id in Next(s, a).entries ensures LocalOk(At(Next(s, a), id)) {
      LocalKept(s, a, id);
    }
  }

  lemma LocalKept(s: State, a: Action, id: Uuid)
    requires Possible(s, a) && LocalOk(At(s, id))
    ensures LocalOk(At(Next(s, a), id))
  {
    if a.Restart? {
      RestartIsOk(s, id);
    } else if Focus(s, a) == Some(id) {
      FocusIsOk(s, a);
      FocusMoves(s, a);
    } else {
      OthersStay(s, a, id);
    }
  }

  /** What a start was begun as never changes, and it is never forgotten. */
  lemma StartIdentity(s: State, a: Action, id: Uuid)
    requires Possible(s, a) && id in s.starts
    ensures id in Next(s, a).starts
    ensures var before, after := s.starts[id], Next(s, a).starts[id];
            before.token == after.token && before.connection == after.connection && before.lifetime == after.lifetime
  {
    if Focus(s, a) == Some(id) {
      FocusMoves(s, a);
      if a.Do? {
        StepKeepsIdentity(At(s, id), a.step);
      }
      AtTells(Next(s, a), id);
    } else if !a.Restart? {
      OthersStay(s, a, id);
      AtTells(Next(s, a), id);
    }
  }

  lemma OnlyBeginAddsStarts(s: State, a: Action, id: Uuid)
    requires Possible(s, a) && id in Next(s, a).starts && id !in s.starts
    ensures a.Do? && a.step.Begin? && a.id == id
    ensures Next(s, a).starts[id] == Start(a.step.connection, a.step.token, a.step.lifetime, Begun, Absent)
  {
    AtTells(Next(s, a), id);
    if Focus(s, a) == Some(id) {
      FocusMoves(s, a);
    } else if !a.Restart? {
      OthersStay(s, a, id);
    }
  }

  /** A child is alive only because it was, or because its start resumed it. */
  lemma LifeComesFromResume(s: State, a: Action, id: Uuid)
    requires Possible(s, a) && id in Next(s, a).starts && Next(s, a).starts[id].child.Alive?
    ensures id in s.starts && (s.starts[id].child.Alive? || a == Do(id, Resume))
    ensures !a.Restart?
  {
    AtTells(Next(s, a), id);
    if Focus(s, a) == Some(id) {
      FocusMoves(s, a);
      if a.Do? {
        StepGivesLife(At(s, id), a.step);
      }
    } else if !a.Restart? {
      OthersStay(s, a, id);
    }
  }

  // Tokens

  lemma DistinctTokensKept(s: State, a: Action)
    requires ConnectionTokens(s) && Possible(s, a)
    ensures var t := Network(s, a);
            && (forall c | c in t.connections :: t.connections[c] < t.nextToken)
            && (forall c, d | c in t.connections && d in t.connections && t.connections[c] == t.connections[d] :: c == d)
  {}

  lemma SweptTokensKept(s: State, a: Action)
    requires ConnectionTokens(s) && Possible(s, a)
    ensures var t, sweeps := Network(s, a), Sweeping(s, a).0;
            && (forall c | c in t.connections :: t.connections[c] !in sweeps)
            && (forall token | token in sweeps :: token in t.canceled && token < t.nextToken)
  {}

  lemma ConnectionTokensKept(s: State, a: Action)
    requires ConnectionTokens(s) && Possible(s, a)
    ensures ConnectionTokens(Next(s, a))
  {
    DistinctTokensKept(s, a);
    SweptTokensKept(s, a);
  }

  /** A canceled token stays canceled, and connections only come with new tokens. */
  lemma TokensOnlyGrow(s: State, a: Action)
    requires Possible(s, a)
    ensures s.canceled <= Next(s, a).canceled && s.nextToken <= Next(s, a).nextToken
    ensures forall c | c in Next(s, a).connections ::
              (c in s.connections && Next(s, a).connections[c] == s.connections[c]) || Next(s, a).connections[c] >= s.nextToken
  {}

  lemma TokensKept(s: State, a: Action)
    requires Tokens(s) && Possible(s, a)
    ensures Tokens(Next(s, a))
  {
    ConnectionTokensKept(s, a);
    TokensOnlyGrow(s, a);
    forall id | id in Next(s, a).starts ensures TokenOk(Next(s, a), Next(s, a).starts[id]) {
      if id in s.starts {
        assert TokenOk(s, s.starts[id]);
        StartIdentity(s, a, id);
      } else {
        OnlyBeginAddsStarts(s, a, id);
      }
    }
  }

  // Checkpoints

  lemma CheckpointsStay(s: State, a: Action)
    requires Possible(s, a) && !a.Snapshot? && !a.WriteDone? && !a.Restart?
    ensures Next(s, a).flight == s.flight && Next(s, a).durable == s.durable
  {}

  lemma SnapshotKeepsSave(s: State, a: Action, id: Uuid)
    requires Possible(s, a) && a.Snapshot? && id in s.starts
    requires LocalOk(At(s, id)) && SaveOk(s.durable, s.flight, id, At(s, id))
    ensures SaveOk(Next(s, a).durable, Next(s, a).flight, id, At(Next(s, a), id))
  {
    if Focus(s, a) == Some(id) {
      FocusMoves(s, a);
    } else {
      OthersStay(s, a, id);
    }
  }

  lemma WriteKeepsSave(s: State, a: Action, id: Uuid)
    requires Possible(s, a) && a.WriteDone? && id in s.starts
    requires LocalOk(At(s, id)) && SaveOk(s.durable, s.flight, id, At(s, id))
    ensures SaveOk(Next(s, a).durable, Next(s, a).flight, id, At(Next(s, a), id))
  {
    if Focus(s, a) == Some(id) {
      FocusMoves(s, a);
    } else {
      OthersStay(s, a, id);
    }
  }

  lemma RestartKeepsSave(s: State, id: Uuid)
    ensures SaveOk(Next(s, Restart).durable, Next(s, Restart).flight, id, At(Next(s, Restart), id))
  {}

  lemma OtherActionsKeepSave(s: State, a: Action, id: Uuid)
    requires Possible(s, a) && !a.Snapshot? && !a.WriteDone? && !a.Restart?
    requires LocalOk(At(s, id)) && SaveOk(s.durable, s.flight, id, At(s, id))
    ensures SaveOk(Next(s, a).durable, Next(s, a).flight, id, At(Next(s, a), id))
  {
    CheckpointsStay(s, a);
    if Focus(s, a) == Some(id) {
      FocusMoves(s, a);
      var step := if a.Do? then a.step else Terminate(a.ok);
      StepKeepsSave(s.durable, s.flight, id, At(s, id), step);
    } else {
      OthersStay(s, a, id);
    }
  }

  lemma SavesKept(s: State, a: Action)
    requires Locals(s) && Saves(s) && Possible(s, a)
    ensures Saves(Next(s, a))
  {
    forall id | id in Next(s, a).starts ensures SaveOk(Next(s, a).durable, Next(s, a).flight, id, At(Next(s, a), id)) {
      if a.Restart? {
        RestartKeepsSave(s, id);
      } else if id !in s.starts {
        OnlyBeginAddsStarts(s, a, id);
        AtTells(Next(s, a), id);
      } else if a.Snapshot? {
        SnapshotKeepsSave(s, a, id);
      } else if a.WriteDone? {
        WriteKeepsSave(s, a, id);
      } else {
        OtherActionsKeepSave(s, a, id);
      }
    }
  }

  // Clean-up

  lemma SweepsStay(s: State, a: Action)
    requires Possible(s, a) && !a.RemoveConnection? && !a.SweepOne? && !a.Restart?
    ensures Next(s, a).sweeps == s.sweeps
  {}

  /** The sweep of a removed connection covers everything of it that is alive. */
  lemma RemovalSweepsTheLiving(s: State, c: Uuid, id: Uuid)
    requires c in s.connections && id in s.starts && LocalOk(At(s, id)) && TokenOk(s, s.starts[id])
    requires SweepOk(s.sweeps, id, s.starts[id])
    ensures SweepOk(Next(s, RemoveConnection(c)).sweeps, id, s.starts[id])
  {}

  lemma SweepOneKeeps(s: State, a: Action, id: Uuid)
    requires Possible(s, a) && a.SweepOne? && id in s.starts && LocalOk(At(s, id)) && SweepOk(s.sweeps, id, s.starts[id])
    ensures id in Next(s, a).starts && SweepOk(Next(s, a).sweeps, id, Next(s, a).starts[id])
  {
    StartIdentity(s, a, id);
    AtTells(Next(s, a), id);
    if a.id == id {
      FocusMoves(s, a);
      if Terminates(At(s, id), a.ok) {
        TerminatedIsGone(At(s, id), a.ok);
      }
    } else {
      OthersStay(s, a, id);
    }
  }

  lemma ResumedIsNotSwept(s: State, a: Action, id: Uuid)
    requires ConnectionTokens(s) && a == Do(id, Resume) && Possible(s, a) && s.starts[id].lifetime == Obs.Connection
    ensures s.starts[id].token !in s.sweeps
  {}

  lemma SweepsKept(s: State, a: Action)
    requires Locals(s) && Tokens(s) && Sweeps(s) && Possible(s, a)
    ensures Sweeps(Next(s, a))
  {
    forall id | id in Next(s, a).starts && Next(s, a).starts[id].child.Alive?
      ensures SweepOk(Next(s, a).sweeps, id, Next(s, a).starts[id])
    {
      LifeComesFromResume(s, a, id);
      StartIdentity(s, a, id);
      if a.RemoveConnection? {
        RemovalSweepsTheLiving(s, a.connection, id);
        OthersStay(s, a, id);
      } else if a.SweepOne? {
        SweepOneKeeps(s, a, id);
      } else {
        SweepsStay(s, a);
        if a == Do(id, Resume) && s.starts[id].lifetime == Obs.Connection {
          ResumedIsNotSwept(s, a, id);
        }
      }
    }
  }

  lemma HaltStays(s: State, a: Action)
    requires Possible(s, a) && !a.HostClose? && !a.HaltOne? && !a.Restart?
    ensures Next(s, a).halt == s.halt && Next(s, a).closed == s.closed
  {}

  lemma HaltOneKeeps(s: State, a: Action, id: Uuid)
    requires Possible(s, a) && a.HaltOne? && id in s.starts && LocalOk(At(s, id)) && HaltOk(s.halt, id, s.starts[id])
    ensures id in Next(s, a).starts && HaltOk(Next(s, a).halt, id, Next(s, a).starts[id])
  {
    AtTells(Next(s, a), id);
    if a.id == id {
      FocusMoves(s, a);
      if Terminates(At(s, id), a.ok) {
        TerminatedIsGone(At(s, id), a.ok);
      }
    } else {
      OthersStay(s, a, id);
    }
  }

  lemma HaltsKept(s: State, a: Action)
    requires Locals(s) && Halts(s) && Possible(s, a)
    ensures Halts(Next(s, a))
  {
    if !a.HostClose? && !a.HaltOne? && !a.Restart? {
      HaltStays(s, a);
    }
    forall id | id in Next(s, a).starts && Next(s, a).starts[id].child.Alive?
      ensures HaltOk(Next(s, a).halt, id, Next(s, a).starts[id])
    {
      LifeComesFromResume(s, a, id);
      if a.HaltOne? {
        HaltOneKeeps(s, a, id);
      } else if a.HostClose? {
        assert LocalOk(At(s, id));
      }
    }
  }

  lemma StepKeepsInv(s: State, a: Action)
    requires Inv(s) && Possible(s, a)
    ensures Inv(Next(s, a))
  {
    LocalsKept(s, a);
    TokensKept(s, a);
    SavesKept(s, a);
    SweepsKept(s, a);
    HaltsKept(s, a);
  }
}
