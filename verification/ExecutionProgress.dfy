/**
 What the startup protocol achieves: a start that nothing stands in the way of
 gets its child running, a finished execution can leave the registry, and every
 close and every shutdown can be brought to a clean end. Beside it, what each
 decision of the protocol depends on and what it leaves behind.
 */
module ExecutionProgress {
  import opened Wrappers
  import opened ExecutionRegistry
  import opened ExecutionStartup
  import opened ExecutionTheorems
  import Obs = ObservationLog

  // --- Runs, action by action -------------------------------------------------

  datatype Trace = Trace(actions: seq<Action>, s: State)

  ghost predicate Leads(from: State, trace: Trace) {
    Inv(from) && RunPossible(from, trace.actions) && trace.s == Run(from, trace.actions) && Inv(trace.s)
  }

  lemma RunFrom(s: State, first: Action, next: State, rest: seq<Action>)
    requires Inv(s) && Possible(s, first) && next == Next(s, first) && Inv(next) && RunPossible(next, rest)
    ensures RunPossible(s, [first] + rest) && Run(s, [first] + rest) == Run(next, rest)
  {
    assert ([first] + rest)[1..] == rest;
  }

  lemma OneRuns(s: State, a: Action)
    requires Inv(s) && Possible(s, a)
    ensures RunPossible(s, [] + [a]) && Run(s, [] + [a]) == Next(s, a)
  {
    StepKeepsInv(s, a);
    RunFrom(s, a, Next(s, a), []);
    assert [] + [a] == [a] + [];
  }

  /** A run goes on from where its first action leads. */
  lemma RunTail(s: State, actions: seq<Action>)
    requires Inv(s) && RunPossible(s, actions) && actions != []
    ensures Possible(s, actions[0]) && Inv(Next(s, actions[0])) && RunPossible(Next(s, actions[0]), actions[1..])
    ensures Run(s, actions) == Run(Next(s, actions[0]), actions[1..])
  {
    StepKeepsInv(s, actions[0]);
  }

  lemma {:induction false} RunMore(s: State, actions: seq<Action>, a: Action)
    requires Inv(s) && RunPossible(s, actions) && Possible(Run(s, actions), a)
    ensures RunPossible(s, actions + [a]) && Run(s, actions + [a]) == Next(Run(s, actions), a)
    decreases |actions|
  {
    if actions == [] {
      OneRuns(s, a);
    } else {
      RunTail(s, actions);
      var next, rest := Next(s, actions[0]), actions[1..];
      RunMore(next, rest, a);
      RunFrom(s, actions[0], next, rest + [a]);
      assert actions + [a] == [actions[0]] + (rest + [a]);
    }
  }

  lemma Act(from: State, trace: Trace, a: Action) returns (after: Trace)
    requires Leads(from, trace) && Possible(trace.s, a)
    ensures after == Trace(trace.actions + [a], Next(trace.s, a)) && Leads(from, after)
  {
    RunMore(from, trace.actions, a);
    after := Trace(trace.actions + [a], Next(trace.s, a));
  }

  // --- A start that succeeds ---------------------------------------------------

  /** The host takes requests of this connection, and this request was not canceled. */
  predicate Welcomes(s: State, connection: Uuid, token: nat, id: Uuid) {
    && !s.closed && !s.hostShutdown && id !in s.requests
    && connection in s.connections && s.connections[connection] == token && token !in s.canceled
  }

  function Starting(connection: Uuid, token: nat, lifetime: Obs.Lifetime, phase: Phase, child: Child): Option<Start> {
    Some(Start(connection, token, lifetime, phase, child))
  }

  /** The record of a start: owned by its connection exactly when it lives no longer than that. */
  function Owned(connection: Uuid, lifetime: Obs.Lifetime, status: Status): Option<Record> {
    Some(Record(lifetime, if lifetime == Obs.Connection then Some(connection) else None, status, true, false, 1, false))
  }

  /** How far one execution is, on a host that still welcomes it. */
  ghost predicate Stands(s: State, id: Uuid, l: Local) {
    l.start.Some? && Welcomes(s, l.start.value.connection, l.start.value.token, id) && At(s, id) == l
  }

  ghost predicate Reaches(from: State, trace: Trace, id: Uuid, l: Local) {
    Leads(from, trace) && Stands(trace.s, id, l)
  }

  /** A step of one execution changes nothing else of the host. */
  lemma DoLeavesHost(s: State, id: Uuid, step: Step)
    requires Possible(s, Do(id, step))
    ensures var s' := Next(s, Do(id, step));
            && s'.connections == s.connections && s'.canceled == s.canceled && s'.closed == s.closed
            && s'.hostShutdown == s.hostShutdown && s'.requests == s.requests && s'.flight == s.flight && s'.durable == s.durable
  {}

  lemma DoRuns(from: State, trace: Trace, id: Uuid, l: Local, step: Step, next: Local) returns (after: Trace)
    requires Reaches(from, trace, id, l) && Possible(trace.s, Do(id, step))
    requires next == Stepped(l, step) && next.start.Some?
    requires next.start.value.connection == l.start.value.connection && next.start.value.token == l.start.value.token
    ensures Reaches(from, after, id, next) && after.s.flight == trace.s.flight && after.s.durable == trace.s.durable
  {
    DoLeavesHost(trace.s, id, step);
    FocusMoves(trace.s, Do(id, step));
    after := Act(from, trace, Do(id, step));
  }

  lemma BeginRuns(s: State, id: Uuid, connection: Uuid, lifetime: Obs.Lifetime) returns (after: Trace)
    requires Inv(s) && connection in s.connections && Welcomes(s, connection, s.connections[connection], id)
    requires id !in s.starts && id !in s.entries && id !in s.durable
    ensures Reaches(s, after, id, Local(Starting(connection, s.connections[connection], lifetime, Begun, Absent), None))
    ensures after.s.flight == s.flight
  {
    var a := Do(id, Begin(connection, s.connections[connection], lifetime));
    DoLeavesHost(s, id, a.step);
    FocusMoves(s, a);
    after := Act(s, Trace([], s), a);
  }

  lemma CreateRuns(from: State, trace: Trace, id: Uuid, c: Uuid, t: nat, lifetime: Obs.Lifetime) returns (after: Trace)
    requires Reaches(from, trace, id, Local(Starting(c, t, lifetime, Begun, Absent), None))
    ensures Reaches(from, after, id, Local(Starting(c, t, lifetime, Created, Suspended), None))
    ensures after.s.flight == trace.s.flight
  {
    after := DoRuns(from, trace, id, At(trace.s, id), Create, Local(Starting(c, t, lifetime, Created, Suspended), None));
  }

  lemma AdmitRuns(from: State, trace: Trace, id: Uuid, c: Uuid, t: nat, lifetime: Obs.Lifetime) returns (after: Trace)
    requires Reaches(from, trace, id, Local(Starting(c, t, lifetime, Created, Suspended), None))
    ensures Reaches(from, after, id, Local(Starting(c, t, lifetime, Admitted, Suspended), Owned(c, lifetime, Status.Starting)))
    ensures after.s.flight == trace.s.flight
  {
    AtTells(trace.s, id);
    after := DoRuns(from, trace, id, At(trace.s, id), Admit,
                    Local(Starting(c, t, lifetime, Admitted, Suspended), Owned(c, lifetime, Status.Starting)));
  }

  lemma SnapshotStands(s: State, id: Uuid, l: Local)
    requires Stands(s, id, l) && Possible(s, Snapshot(Some(id)))
    ensures var s' := Next(s, Snapshot(Some(id)));
            && Stands(s', id, l.(start := Some(l.start.value.(phase := Saving))))
            && s'.flight.Some? && s'.flight.value.writer == Some(id)
            && (l.entry.Some? && l.entry.value.lifetime == Obs.Persistent ==> id in s'.flight.value.saved)
  {
    FocusMoves(s, Snapshot(Some(id)));
    AtTells(s, id);
  }

  lemma WriteStands(s: State, id: Uuid, l: Local)
    requires Stands(s, id, l) && l.start.value.phase.Saving?
    requires s.flight.Some? && s.flight.value.writer == Some(id) && id in s.flight.value.saved
    ensures Possible(s, WriteDone(true))
    ensures var s' := Next(s, WriteDone(true));
            Stands(s', id, l.(start := Some(l.start.value.(phase := Checkpointed)))) && id in s'.durable
  {
    AtTells(s, id);
    FocusMoves(s, WriteDone(true));
  }

  lemma SaveRuns(from: State, trace: Trace, id: Uuid, c: Uuid, t: nat) returns (after: Trace)
    requires Reaches(from, trace, id, Local(Starting(c, t, Obs.Persistent, Admitted, Suspended),
                                            Owned(c, Obs.Persistent, Status.Starting)))
    requires trace.s.flight.None?
    ensures Reaches(from, after, id, Local(Starting(c, t, Obs.Persistent, Checkpointed, Suspended),
                                           Owned(c, Obs.Persistent, Status.Starting)))
    ensures id in after.s.durable
  {
    AtTells(trace.s, id);
    SnapshotStands(trace.s, id, At(trace.s, id));
    var taken := Act(from, trace, Snapshot(Some(id)));
    WriteStands(taken.s, id, At(taken.s, id));
    after := Act(from, taken, WriteDone(true));
  }

  lemma ResumeRuns(from: State, trace: Trace, id: Uuid, c: Uuid, t: nat, lifetime: Obs.Lifetime) returns (after: Trace)
    requires Reaches(from, trace, id, Local(
               Starting(c, t, lifetime, if lifetime == Obs.Persistent then Checkpointed else Admitted, Suspended),
               Owned(c, lifetime, Status.Starting)))
    ensures Reaches(from, after, id, Local(Starting(c, t, lifetime, Resumed, Alive), Owned(c, lifetime, Running)))
    ensures after.s.durable == trace.s.durable
  {
    AtTells(trace.s, id);
    after := DoRuns(from, trace, id, At(trace.s, id), Resume,
                    Local(Starting(c, t, lifetime, Resumed, Alive), Owned(c, lifetime, Running)));
  }

  /** The child runs, its record says so and is charged to the right owner, and a persistent one is on disk. */
  ghost predicate Succeeds(from: State, run: Trace, id: Uuid, connection: Uuid, lifetime: Obs.Lifetime) {
    && Leads(from, run) && id in run.s.starts && run.s.starts[id].child == Alive && id in run.s.entries
    && Some(run.s.entries[id]) == Owned(connection, lifetime, Running)
    && (lifetime == Obs.Persistent ==> id in run.s.durable)
  }

  lemma StartRuns(s: State, id: Uuid, connection: Uuid, lifetime: Obs.Lifetime) returns (run: Trace)
    requires Inv(s) && connection in s.connections && Welcomes(s, connection, s.connections[connection], id)
    requires id !in s.starts && id !in s.entries && id !in s.durable && s.flight.None?
    ensures Succeeds(s, run, id, connection, lifetime)
  {
    var t := s.connections[connection];
    run := BeginRuns(s, id, connection, lifetime);
    run := CreateRuns(s, run, id, connection, t, lifetime);
    run := AdmitRuns(s, run, id, connection, t, lifetime);
    if lifetime == Obs.Persistent {
      run := SaveRuns(s, run, id, connection, t);
    }
    run := ResumeRuns(s, run, id, connection, t, lifetime);
    AtTells(run.s, id);
  }

  /**
   The progress theorem of startup: wherever the host is open, not shutting down
   and idle at its checkpoint, a new request of an open connection, of either
   lifetime, can come to a running child.
   */
  lemma StartCanSucceed(s: State, id: Uuid, connection: Uuid, lifetime: Obs.Lifetime)
    requires Inv(s) && connection in s.connections && Welcomes(s, connection, s.connections[connection], id)
    requires id !in s.starts && id !in s.entries && id !in s.durable && s.flight.None?
    ensures exists run :: Succeeds(s, run, id, connection, lifetime)
  {
    var run := StartRuns(s, id, connection, lifetime);
    assert Succeeds(s, run, id, connection, lifetime);
  }

  // --- What decides, and what it leaves ----------------------------------------

  /** A connection can be added exactly while the host is open and fewer than 64 are; it gets a token of its own. */
  lemma RegisterDecides(s: State, c: Uuid)
    requires Inv(s)
    ensures Possible(s, Register(c)) <==> !s.closed && |s.connections| < 64 && c !in s.connections
    ensures Possible(s, Register(c)) ==>
              var t := Next(s, Register(c));
              c in t.connections && t.connections[c] !in s.connections.Values && t.connections - {c} == s.connections
  {
    if Possible(s, Register(c)) {
      var t := Next(s, Register(c));
      assert t.connections - {c} == s.connections;
    }
  }

  /** A created child gets its entry exactly if neither its request nor its connection was given up. */
  lemma AdmitDecides(s: State, id: Uuid)
    requires id in s.starts && s.starts[id].phase == Created
    ensures var start := s.starts[id];
            && (Possible(s, Do(id, Admit)) <==>
                  && !s.closed && id !in s.requests && start.token !in s.canceled
                  && start.connection in s.connections && s.connections[start.connection] !in s.canceled)
            && (Possible(s, Do(id, Admit)) ==>
                  At(Next(s, Do(id, Admit)), id)
                  == Local(Some(start.(phase := Admitted)), Owned(start.connection, start.lifetime, Status.Starting)))
  {
    if Possible(s, Do(id, Admit)) {
      FocusMoves(s, Do(id, Admit));
    }
  }

  /** Admitted, and for a persistent execution saved: the start has only its child to resume. */
  predicate ReadyToResume(s: State, id: Uuid) {
    && id in s.starts && id in s.entries
    && ((s.starts[id].lifetime == Obs.Connection && s.starts[id].phase == Admitted)
        || (s.starts[id].lifetime == Obs.Persistent && s.starts[id].phase == Checkpointed))
  }

  /**
   The last check, both ways: the child of a ready start is resumed exactly if the
   host still takes work, nobody asked to cancel, and its connection is still open
   - which a persistent execution needs only for its cancel request to count.
   */
  lemma ResumeDecides(s: State, id: Uuid)
    requires ReadyToResume(s, id)
    ensures var start, record := s.starts[id], s.entries[id];
            && (Possible(s, Do(id, Resume)) <==>
                  && !s.closed && !s.hostShutdown && record.status == Status.Starting && !record.cancelRequested
                  && (start.token in s.canceled ==> start.lifetime == Obs.Persistent)
                  && (id in s.requests ==> start.lifetime == Obs.Persistent && start.token in s.canceled)
                  && (start.lifetime == Obs.Connection ==>
                        start.connection in s.connections && s.connections[start.connection] !in s.canceled))
            && (Possible(s, Do(id, Resume)) ==>
                  At(Next(s, Do(id, Resume)), id)
                  == Local(Some(start.(phase := Resumed, child := if start.child == Suspended then Alive else start.child)),
                           Some(record.(status := Running))))
  {
    if Possible(s, Do(id, Resume)) {
      FocusMoves(s, Do(id, Resume));
    }
  }

  /** What asking the job of an entry to end leaves: the tree gone and the request noted, or everything as it was. */
  ghost predicate Ended(before: Local, after: Local, ok: bool) {
    if && before.entry.Some? && before.entry.value.live && ok
       && !(before.entry.value.status.Finished() && before.entry.value.rootExited && before.entry.value.active == 0)
    then
      && after.entry == Some(before.entry.value.(cancelRequested := true))
      && (before.start.Some? ==> after.start.Some? && after.start.value == before.start.value.(child := Dead, phase := after.start.value.phase))
    else
      && after.entry == before.entry
      && (before.start.Some? ==> after.start.Some? && after.start.value == before.start.value.(phase := after.start.value.phase))
  }

  lemma TerminatedEnds(l: Local, ok: bool)
    ensures Ended(l, Terminated(l, ok), ok) && Ended(l, Phased(Terminated(l, ok), Phase.Ended), ok)
  {}

  /** The end of one job that an action asks for, if it does. */
  function Asked(a: Action): Option<bool> {
    match a
    case Do(_, Terminate(ok)) => Some(ok)
    case Do(_, Cleanup(ok)) => Some(ok)
    case SweepOne(_, _, ok) => Some(ok)
    case HaltOne(_, ok) => Some(ok)
    case _ => None
  }

  lemma AskedIsTerminated(s: State, a: Action)
    requires Possible(s, a) && Asked(a).Some?
    ensures Focus(s, a) == Some(a.id)
    ensures var after := Terminated(At(s, a.id), Asked(a).value);
            Refocused(s, a) == after || Refocused(s, a) == Phased(after, Phase.Ended)
  {}

  /** Every way of ending a job - a request, a failed start, a closed connection, a host going down - does just that. */
  lemma EndingEnds(s: State, a: Action)
    requires Possible(s, a) && Asked(a).Some?
    ensures Ended(At(s, a.id), At(Next(s, a), a.id), Asked(a).value)
  {
    AskedIsTerminated(s, a);
    TerminatedEnds(At(s, a.id), Asked(a).value);
    FocusMoves(s, a);
  }

  /** A start that failed after its admission is over once it has cleaned up. */
  lemma CleanupIsLast(s: State, id: Uuid, ok: bool)
    requires Possible(s, Do(id, Cleanup(ok)))
    ensures At(Next(s, Do(id, Cleanup(ok))), id).start.Some?
    ensures At(Next(s, Do(id, Cleanup(ok))), id).start.value.phase == Phase.Ended
  {
    FocusMoves(s, Do(id, Cleanup(ok)));
  }

  /** A start that gave up before it had an entry: its child, if it was created at all, dies with it. */
  lemma AbortEnds(s: State, id: Uuid, killed: bool)
    requires Inv(s) && Possible(s, Do(id, Abort(killed)))
    ensures var before, after := At(s, id), At(Next(s, Do(id, Abort(killed))), id);
            && after.entry.None? && after.start.Some? && after.start.value.phase == Phase.Ended
            && (killed || before.start.value.phase == Begun ==> after.start.value.child == Dead)
  {
    FocusMoves(s, Do(id, Abort(killed)));
    assert LocalOk(At(s, id));
  }

  /** Cleaning up after one entry: it leaves the list, and only an entry that could not be ended counts as an error. */
  ghost predicate Worked(before: Sweep, after: Sweep, id: Uuid, entry: Option<Record>, ok: bool) {
    && after.todo == before.todo - {id}
    && (after.failed <==>
          before.failed || (entry.Some? && !(entry.value.live
            && (ok || (entry.value.status.Finished() && entry.value.rootExited && entry.value.active == 0)))))
  }

  lemma SweepDecides(s: State, token: nat, id: Uuid, ok: bool)
    requires Possible(s, SweepOne(token, id, ok))
    ensures var s' := Next(s, SweepOne(token, id, ok));
            token in s'.sweeps && Worked(s.sweeps[token], s'.sweeps[token], id, At(s, id).entry, ok)
            && s'.sweeps - {token} == s.sweeps - {token}
  {}

  lemma HaltDecides(s: State, id: Uuid, ok: bool)
    requires Possible(s, HaltOne(id, ok))
    ensures var s' := Next(s, HaltOne(id, ok)); s'.halt.Some? && Worked(s.halt.value, s'.halt.value, id, At(s, id).entry, ok)
  {}

  /** The close of a connection: its token is canceled, no other connection is touched, and exactly its own entries are listed. */
  lemma CloseDecides(s: State, c: Uuid)
    requires Inv(s) && c in s.connections
    ensures var s', token := Next(s, RemoveConnection(c)), s.connections[c];
            && s'.connections == s.connections - {c} && s'.canceled == s.canceled + {token}
            && s'.starts == s.starts && s'.entries == s.entries
            && token in s'.sweeps && !s'.sweeps[token].failed
            && (forall id :: id in s'.sweeps[token].todo <==> id in s.entries && s.entries[id].owner == Some(c))
            && (forall other | other in s.connections && other != c :: s.connections[other] in s'.canceled <==> s.connections[other] in s.canceled)
  {}

  /** Shutting down: every token is canceled, and exactly the entries with a process are listed, whatever their lifetime. */
  lemma ShutdownDecides(s: State)
    ensures var s' := Next(s, HostClose);
            && s'.closed && s'.connections == map[] && s'.starts == s.starts && s'.entries == s.entries
            && (forall c | c in s.connections :: s.connections[c] in s'.canceled)
            && s'.halt.Some? && !s'.halt.value.failed
            && (forall id :: id in s'.halt.value.todo <==> id in s.entries && s.entries[id].live)
  {}

  /** A checkpoint holds every persistent record as it is at that moment, and no other; landing makes it the durable one. */
  lemma CheckpointDecides(s: State, writer: Option<Uuid>)
    requires Possible(s, Snapshot(writer))
    ensures var s' := Next(s, Snapshot(writer));
            && s'.flight.Some? && s'.durable == s.durable && s'.entries == s.entries
            && (forall id :: id in s'.flight.value.saved <==> id in s.entries && s.entries[id].lifetime == Obs.Persistent)
            && (forall id | id in s'.flight.value.saved :: s'.flight.value.saved[id] == s.entries[id])
  {}

  lemma WriteDecides(s: State, ok: bool)
    requires Possible(s, WriteDone(ok))
    ensures var s' := Next(s, WriteDone(ok));
            && s'.flight.None? && s'.entries == s.entries
            && s'.durable == (if ok then s.flight.value.saved else s.durable)
            && (forall id | s.flight.value.writer == Some(id) && id in s.starts && s.starts[id].phase == Saving ::
                  id in s'.starts && s'.starts[id] == s.starts[id].(phase := if ok then Checkpointed else Failing))
  {}

  /** What a restarted host knows: the records of its checkpoint, without a process, and those not finished as interrupted. */
  lemma RestartDecides(s: State)
    ensures var s' := Next(s, Restart);
            && s'.entries.Keys == s.durable.Keys && s'.durable == s.durable
            && !s'.closed && !s'.hostShutdown && s'.connections == map[] && s'.requests == {}
            && (forall id | id in s.durable ::
                  s'.entries[id] == s.durable[id].(live := false,
                    status := if s.durable[id].status.Finished() then s.durable[id].status else InterruptedHostRestart))
            && (forall id | id in s.starts :: id in s'.starts && s'.starts[id].child == Dead && s'.starts[id].phase == Phase.Ended)
  {}

  /** A look of the supervisor: it records what it saw, and ends the record exactly with a verdict. */
  lemma WatchDecides(s: State, id: Uuid, exited: bool, active: nat, verdict: Option<Status>)
    requires Possible(s, Do(id, Observe(exited, active, verdict)))
    ensures var s' := Next(s, Do(id, Observe(exited, active, verdict)));
            && id in s.entries && id in s'.entries
            && s'.entries[id] == s.entries[id].(rootExited := exited, active := active,
                 status := if verdict.Some? then verdict.value else if exited then RootExited else s.entries[id].status)
            && (s'.entries[id].status.Finished() <==> verdict.Some?)
            && (verdict.Some? ==> Possible(s', Do(id, Evict)))
  {
    FocusMoves(s, Do(id, Observe(exited, active, verdict)));
    AtTells(s, id);
    AtTells(Next(s, Do(id, Observe(exited, active, verdict))), id);
  }

  /** Only a finished record may leave the registry, and one with a process only after its tree is gone. */
  lemma EvictDecides(s: State, id: Uuid)
    ensures Possible(s, Do(id, Evict)) <==>
              && id in s.entries && s.entries[id].status in {Exited, Status.Canceled, TimedOut, Status.Failed, InterruptedHostRestart}
              && (s.entries[id].live ==> s.entries[id].rootExited && s.entries[id].active == 0)
    ensures Possible(s, Do(id, Evict)) ==>
              Next(s, Do(id, Evict)).entries == s.entries - {id} && Next(s, Do(id, Evict)).starts == s.starts
  {
    if Possible(s, Do(id, Evict)) {
      assert Next(s, Do(id, Evict)).starts == s.starts;
    }
  }

  // --- Giving up ------------------------------------------------------------------

  lemma RequestsAreKept(s: State, a: Action, id: Uuid)
    requires Possible(s, a) && !a.Restart? && id in s.requests
    ensures id in Next(s, a).requests
  {}

  /** The request of a start of the connection was canceled. */
  predicate Dropped(s: State, id: Uuid) {
    id in s.starts && s.starts[id].lifetime == Obs.Connection && id in s.requests
  }

  lemma DroppedStays(s: State, a: Action, id: Uuid)
    requires Inv(s) && Possible(s, a) && !a.Restart? && Dropped(s, id)
    ensures Dropped(Next(s, a), id) && (!IsAlive(s, id) ==> !IsAlive(Next(s, a), id))
  {
    StartIdentity(s, a, id);
    RequestsAreKept(s, a, id);
    if !IsAlive(s, id) && IsAlive(Next(s, a), id) {
      ResumeIsAllowed(s, a, id);
    }
  }

  lemma {:induction false} DroppedStaysQuiet(s: State, actions: seq<Action>, id: Uuid)
    requires Inv(s) && RunPossible(s, actions) && Restart !in actions && Dropped(s, id) && !IsAlive(s, id)
    ensures !IsAlive(Run(s, actions), id)
    decreases |actions|
  {
    if actions != [] {
      assert actions[0] in actions;
      RunTail(s, actions);
      DroppedStays(s, actions[0], id);
      DroppedStaysQuiet(Next(s, actions[0]), actions[1..], id);
    }
  }

  /** Canceling the request of a start works at every moment before its child runs: then it never does on this host. */
  lemma CancelPreventsTheStart(s: State, actions: seq<Action>, id: Uuid)
    requires Inv(s) && id in s.starts && s.starts[id].lifetime == Obs.Connection && !IsAlive(s, id)
    requires Inv(Next(s, CancelRequest(id))) && RunPossible(Next(s, CancelRequest(id)), actions) && Restart !in actions
    ensures !IsAlive(Run(Next(s, CancelRequest(id)), actions), id)
  {
    DroppedStaysQuiet(Next(s, CancelRequest(id)), actions, id);
  }

  /** Canceling a connection, or asking the host to shut down, is noted at once; what follows from it is proved of every run. */
  lemma GivingUpIsNoted(s: State, c: Uuid)
    ensures c in s.connections ==> s.connections[c] in Next(s, CancelToken(c)).canceled
    ensures Next(s, RequestShutdown).hostShutdown
  {}

  /** A start that failed once it had its entry is to be cleaned up, and nothing else of it can happen. */
  lemma FailureIsNoted(s: State, id: Uuid)
    requires Inv(s) && Possible(s, Do(id, Fail))
    ensures var s' := Next(s, Do(id, Fail));
            Possible(s', Do(id, Cleanup(true))) && !Possible(s', Do(id, Resume))
            && At(s', id).entry == At(s, id).entry
  {
    FocusMoves(s, Do(id, Fail));
    AtTells(s, id);
  }

  // --- A life that ends ---------------------------------------------------------

  /** The end of a watched process tree, as its record shows it. */
  ghost predicate Recorded(from: State, run: Trace, id: Uuid, verdict: Status)
    requires id in from.entries
  {
    && Leads(from, run) && id in run.s.starts && run.s.starts[id].child == Dead && id in run.s.entries
    && run.s.entries[id] == from.entries[id].(rootExited := true, active := 0, status := verdict)
  }

  /** From every state, the end of a watched process tree can be seen and recorded as what it was. */
  lemma EndCanBeRecorded(s: State, id: Uuid, verdict: Status)
    requires Inv(s) && Watched(At(s, id)) && verdict.Finished()
    ensures exists run :: id in s.entries && Recorded(s, run, id, verdict)
  {
    var run := EndRuns(s, id, verdict);
    assert Recorded(s, run, id, verdict);
  }

  lemma EndRuns(s: State, id: Uuid, verdict: Status) returns (run: Trace)
    requires Inv(s) && Watched(At(s, id)) && verdict.Finished()
    ensures id in s.entries && Recorded(s, run, id, verdict)
  {
    AtTells(s, id);
    assert LocalOk(At(s, id));
    FocusMoves(s, Do(id, Exit));
    var dead := Act(s, Trace([], s), Do(id, Exit));
    AtTells(dead.s, id);
    var look := Do(id, Observe(true, 0, Some(verdict)));
    FocusMoves(dead.s, look);
    run := Act(s, dead, look);
    AtTells(run.s, id);
  }

  // --- A close that comes to a clean end ------------------------------------------

  /** A record without a process belongs to nobody, in memory and on disk. */
  ghost predicate Unclaimed(s: State) {
    && (forall id | id in s.entries && !s.entries[id].live :: s.entries[id].owner.None?)
    && NoOwners(s.durable) && (s.flight.Some? ==> NoOwners(s.flight.value.saved))
  }

  ghost predicate NoOwners(saved: map<Uuid, Record>) {
    forall id | id in saved :: saved[id].owner.None?
  }

  /** A process is only lost with the host; whom a record belongs to never changes. */
  lemma StepKeepsClaim(l: Local, step: Step)
    requires CanDo(l, step) && Stepped(l, step).entry.Some? && !Stepped(l, step).entry.value.live
    ensures l.entry.Some? && !l.entry.value.live && Stepped(l, step).entry.value.owner == l.entry.value.owner
  {}

  lemma ClaimKept(s: State, a: Action, id: Uuid)
    requires Unclaimed(s) && Possible(s, a) && !a.Restart? && id in Next(s, a).entries && !Next(s, a).entries[id].live
    ensures Next(s, a).entries[id].owner.None?
  {
    AtTells(s, id);
    AtTells(Next(s, a), id);
    if Focus(s, a) == Some(id) {
      FocusMoves(s, a);
      if a.Do? {
        StepKeepsClaim(At(s, id), a.step);
      }
    } else {
      OthersStay(s, a, id);
    }
  }

  lemma SavedHasNoOwners(s: State)
    requires Locals(s) && Unclaimed(s)
    ensures NoOwners(PersistentRecords(s.entries))
  {
    forall id | id in PersistentRecords(s.entries) ensures s.entries[id].owner.None? {
      assert LocalOk(At(s, id));
    }
  }

  lemma UnclaimedKept(s: State, a: Action)
    requires Inv(s) && Unclaimed(s) && Possible(s, a)
    ensures Unclaimed(Next(s, a))
  {
    SavedHasNoOwners(s);
    forall id | id in Next(s, a).entries && !Next(s, a).entries[id].live ensures Next(s, a).entries[id].owner.None? {
      if !a.Restart? {
        ClaimKept(s, a, id);
      }
    }
  }

  lemma {:induction false} RunKeepsUnclaimed(s: State, actions: seq<Action>)
    requires Inv(s) && Unclaimed(s) && RunPossible(s, actions)
    ensures Unclaimed(Run(s, actions))
    decreases |actions|
  {
    if actions != [] {
      RunTail(s, actions);
      UnclaimedKept(s, actions[0]);
      RunKeepsUnclaimed(Next(s, actions[0]), actions[1..]);
    }
  }

  /** Every entry on the list still has its process, or is gone. */
  ghost predicate Endable(s: State, todo: set<Uuid>) {
    forall id | id in todo && id in s.entries :: s.entries[id].live
  }

  /** The close under a token is being worked through, so far without an error. */
  ghost predicate Sweepable(s: State, token: nat, todo: set<Uuid>) {
    token in s.sweeps && s.sweeps[token] == Sweep(todo, false) && Endable(s, todo)
  }

  lemma SweepOneStands(s: State, token: nat, todo: set<Uuid>, id: Uuid)
    requires Sweepable(s, token, todo) && id in todo
    ensures Possible(s, SweepOne(token, id, true)) && Sweepable(Next(s, SweepOne(token, id, true)), token, todo - {id})
  {
    var a := SweepOne(token, id, true);
    var s' := Next(s, a);
    AtTells(s, id);
    forall other | other in todo - {id} && other in s'.entries ensures s'.entries[other].live {
      OthersStay(s, a, other);
      AtTells(s, other);
      AtTells(s', other);
    }
  }

  lemma {:induction false} SweepRuns(from: State, trace: Trace, token: nat, todo: set<Uuid>) returns (after: Trace)
    requires Leads(from, trace) && Sweepable(trace.s, token, todo)
    ensures Leads(from, after) && token in after.s.sweeps && after.s.sweeps[token].Clean()
    decreases |todo|
  {
    if todo == {} {
      after := trace;
    } else {
      var id :| id in todo;
      SweepOneStands(trace.s, token, todo, id);
      after := Act(from, trace, SweepOne(token, id, true));
      after := SweepRuns(from, after, token, todo - {id});
    }
  }

  lemma CloseStands(s: State, c: Uuid)
    requires Inv(s) && Unclaimed(s) && c in s.connections
    ensures Sweepable(Next(s, RemoveConnection(c)), s.connections[c], OwnedBy(s.entries, c))
  {}

  /** The connection is closed, everything of it was ended, and no process of it runs. */
  ghost predicate ClosedCleanly(from: State, run: Trace, token: nat) {
    && Leads(from, run) && token in run.s.sweeps && run.s.sweeps[token].Clean()
    && forall id | id in run.s.starts && BelongsTo(run.s, id, token) :: !IsAlive(run.s, id)
  }

  /** In every run, every connection can be closed cleanly: its close finds nothing that cannot be ended. */
  lemma EveryCloseCanBeClean(actions: seq<Action>, c: Uuid)
    requires Inv(INITIAL) && RunPossible(INITIAL, actions) && c in Run(INITIAL, actions).connections
    ensures var s := Run(INITIAL, actions); exists run :: ClosedCleanly(s, run, s.connections[c])
  {
    var s := Run(INITIAL, actions);
    RunKeepsUnclaimed(INITIAL, actions);
    var run := CloseRuns(s, c);
    assert ClosedCleanly(s, run, s.connections[c]);
  }

  lemma CloseRuns(s: State, c: Uuid) returns (run: Trace)
    requires Inv(s) && Unclaimed(s) && c in s.connections
    ensures ClosedCleanly(s, run, s.connections[c])
  {
    var token := s.connections[c];
    CloseStands(s, c);
    run := Act(s, Trace([], s), RemoveConnection(c));
    run := SweepRuns(s, run, token, OwnedBy(s.entries, c));
    forall id | id in run.s.starts && BelongsTo(run.s, id, token) ensures !IsAlive(run.s, id) {
      CleanCloseIsFinal(run.s, [], token, id);
    }
  }

  // --- A shutdown that comes to a clean end ---------------------------------------

  ghost predicate Haltable(s: State, todo: set<Uuid>) {
    s.halt == Some(Sweep(todo, false)) && Endable(s, todo)
  }

  lemma HaltOneStands(s: State, todo: set<Uuid>, id: Uuid)
    requires Haltable(s, todo) && id in todo
    ensures Possible(s, HaltOne(id, true)) && Haltable(Next(s, HaltOne(id, true)), todo - {id})
  {
    var a := HaltOne(id, true);
    var s' := Next(s, a);
    AtTells(s, id);
    forall other | other in todo - {id} && other in s'.entries ensures s'.entries[other].live {
      OthersStay(s, a, other);
      AtTells(s, other);
      AtTells(s', other);
    }
  }

  lemma {:induction false} HaltRuns(from: State, trace: Trace, todo: set<Uuid>) returns (after: Trace)
    requires Leads(from, trace) && Haltable(trace.s, todo)
    ensures Leads(from, after) && after.s.halt.Some? && after.s.halt.value.Clean()
    decreases |todo|
  {
    if todo == {} {
      after := trace;
    } else {
      var id :| id in todo;
      HaltOneStands(trace.s, todo, id);
      after := Act(from, trace, HaltOne(id, true));
      after := HaltRuns(from, after, todo - {id});
    }
  }

  ghost predicate DownCleanly(from: State, run: Trace) {
    && Leads(from, run) && run.s.halt.Some? && run.s.halt.value.Clean()
    && forall id | id in run.s.starts :: !IsAlive(run.s, id)
  }

  /** From every state the host can be shut down cleanly, with no process tree left of any lifetime. */
  lemma EveryShutdownCanBeClean(s: State)
    requires Inv(s)
    ensures exists run :: DownCleanly(s, run)
  {
    var run := Act(s, Trace([], s), HostClose);
    run := HaltRuns(s, run, LiveEntries(s.entries));
    forall id | id in run.s.starts ensures !IsAlive(run.s, id) {
      CleanShutdownIsFinal(run.s, [], id);
    }
    assert DownCleanly(s, run);
  }
}
