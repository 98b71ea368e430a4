/** What the invariant of the startup protocol means over whole runs. */
module ExecutionTheorems {
  import opened Wrappers
  import opened ExecutionRegistry
  import opened ExecutionStartup
  import Obs = ObservationLog

  ghost predicate RunPossible(s: State, actions: seq<Action>)
    requires Inv(s)
    decreases |actions|
  {
    actions != [] ==>
      Possible(s, actions[0]) && (StepKeepsInv(s, actions[0]); RunPossible(Next(s, actions[0]), actions[1..]))
  }

  ghost function Run(s: State, actions: seq<Action>): (s': State)
    requires Inv(s) && RunPossible(s, actions)
    ensures Inv(s')
    decreases |actions|
  {
    if actions == [] then s
    else
      StepKeepsInv(s, actions[0]);
      Run(Next(s, actions[0]), actions[1..])
  }

  predicate IsAlive(s: State, id: Uuid) {
    id in s.starts && s.starts[id].child.Alive?
  }

  /** A start that belongs to the connection whose token this is. */
  predicate BelongsTo(s: State, id: Uuid, token: nat) {
    id in s.starts && s.starts[id].lifetime == Obs.Connection && s.starts[id].token == token
  }

  // --- One resume ---------------------------------------------------------

  /**
   A child begins to run only while the host accepts work; for a connection, only
   while that connection is open and its request wanted; and a persistent one only
   when the durable checkpoint already holds its record.
   */
  lemma ResumeIsAllowed(s: State, a: Action, id: Uuid)
    requires Inv(s) && Possible(s, a) && !IsAlive(s, id) && IsAlive(Next(s, a), id)
    ensures !s.closed && !s.hostShutdown && id in s.entries && !s.entries[id].cancelRequested
    ensures s.starts[id].lifetime == Obs.Connection ==>
              ConnectionIsOpen(s, s.starts[id].connection) && s.starts[id].token !in s.canceled && id !in s.requests
    ensures s.starts[id].lifetime == Obs.Persistent ==> id in s.durable
  {
    LifeComesFromResume(s, a, id);
    assert LocalOk(At(s, id)) && SaveOk(s.durable, s.flight, id, At(s, id));
  }

  lemma StepKeepsDeath(l: Local, step: Step)
    requires LocalOk(l) && CanDo(l, step) && l.start.Some? && l.start.value.child.Dead?
    ensures Stepped(l, step).start.Some? && Stepped(l, step).start.value.child.Dead?
  {}

  lemma DeathIsKept(s: State, a: Action, id: Uuid)
    requires Inv(s) && Possible(s, a) && id in s.starts && s.starts[id].child.Dead?
    ensures id in Next(s, a).starts && Next(s, a).starts[id].child.Dead?
  {
    assert LocalOk(At(s, id));
    AtTells(Next(s, a), id);
    if Focus(s, a) == Some(id) {
      FocusMoves(s, a);
      if a.Do? {
        StepKeepsDeath(At(s, id), a.step);
      }
    } else if !a.Restart? {
      OthersStay(s, a, id);
    }
  }

  /** A process tree that is gone never runs again, whatever happens later. */
  lemma {:induction false} DeadStaysDead(s: State, actions: seq<Action>, id: Uuid)
    requires Inv(s) && RunPossible(s, actions) && id in s.starts && s.starts[id].child.Dead?
    ensures id in Run(s, actions).starts && Run(s, actions).starts[id].child.Dead?
    decreases |actions|
  {
    if actions != [] {
      StepKeepsInv(s, actions[0]);
      DeathIsKept(s, actions[0], id);
      DeadStaysDead(Next(s, actions[0]), actions[1..], id);
    }
  }

  // --- Closing a connection -----------------------------------------------

  lemma QuietStep(s: State, a: Action, token: nat, id: Uuid)
    requires Inv(s) && Possible(s, a) && token in s.canceled && BelongsTo(Next(s, a), id, token)
    requires !IsAlive(s, id)
    ensures !IsAlive(Next(s, a), id)
  {
    if IsAlive(Next(s, a), id) {
      LifeComesFromResume(s, a, id);
      StartIdentity(s, a, id);
    }
  }

  lemma {:induction false} IdentityOverRun(s: State, actions: seq<Action>, token: nat, id: Uuid)
    requires Inv(s) && RunPossible(s, actions) && id in s.starts && BelongsTo(Run(s, actions), id, token)
    ensures BelongsTo(s, id, token)
    decreases |actions|
  {
    if actions != [] {
      StepKeepsInv(s, actions[0]);
      StartIdentity(s, actions[0], id);
      IdentityOverRun(Next(s, actions[0]), actions[1..], token, id);
    }
  }

  /** From the cancellation of a connection's token on, nothing that belongs to it starts to run. */
  lemma {:induction false} CanceledStaysQuiet(s: State, actions: seq<Action>, token: nat, id: Uuid)
    requires Inv(s) && RunPossible(s, actions) && token in s.canceled
    requires BelongsTo(Run(s, actions), id, token) && !IsAlive(s, id)
    ensures !IsAlive(Run(s, actions), id)
    decreases |actions|
  {
    if actions != [] {
      var a := actions[0];
      StepKeepsInv(s, a);
      TokensOnlyGrow(s, a);
      if id in Next(s, a).starts {
        IdentityOverRun(Next(s, a), actions[1..], token, id);
        QuietStep(s, a, token, id);
      }
      CanceledStaysQuiet(Next(s, a), actions[1..], token, id);
    }
  }

  /**
   Once the close of a connection has worked through its entries without an error,
   nothing that belongs to it is running, and nothing ever will be.
   */
  lemma CleanCloseIsFinal(s: State, actions: seq<Action>, token: nat, id: Uuid)
    requires Inv(s) && RunPossible(s, actions) && token in s.sweeps && s.sweeps[token].Clean()
    requires BelongsTo(Run(s, actions), id, token)
    ensures !IsAlive(Run(s, actions), id)
  {
    if id in s.starts {
      IdentityOverRun(s, actions, token, id);
      assert SweepOk(s.sweeps, id, s.starts[id]);
    }
    CanceledStaysQuiet(s, actions, token, id);
  }

  /** The close of a connection leaves persistent executions alone. */
  lemma CloseSparesPersistent(s: State, c: Uuid, id: Uuid)
    requires Inv(s) && c in s.connections && id in s.starts && s.starts[id].lifetime == Obs.Persistent
    requires id in s.entries && s.entries[id].live
    ensures var s' := Next(s, RemoveConnection(c));
            id !in s'.sweeps[s.connections[c]].todo && At(s', id) == At(s, id)
  {
    assert LocalOk(At(s, id));
  }

  // --- Shutting the host down -----------------------------------------------

  predicate Refusing(s: State) {
    s.closed || s.hostShutdown
  }

  lemma RefusalStays(s: State, a: Action)
    requires Possible(s, a) && !a.Restart?
    ensures s.closed ==> Next(s, a).closed
    ensures s.hostShutdown ==> Next(s, a).hostShutdown
  {}

  /** From the request to shut down, or the close, no child starts to run for as long as this host lives. */
  lemma {:induction false} RefusingStaysQuiet(s: State, actions: seq<Action>, id: Uuid)
    requires Inv(s) && RunPossible(s, actions) && Restart !in actions && Refusing(s) && !IsAlive(s, id)
    ensures !IsAlive(Run(s, actions), id)
    decreases |actions|
  {
    if actions != [] {
      var a := actions[0];
      assert a in actions;
      StepKeepsInv(s, a);
      RefusalStays(s, a);
      if IsAlive(Next(s, a), id) {
        ResumeIsAllowed(s, a, id);
      }
      RefusingStaysQuiet(Next(s, a), actions[1..], id);
    }
  }

  /** A shutdown that worked through its entries without an error leaves no process tree, of any lifetime. */
  lemma CleanShutdownIsFinal(s: State, actions: seq<Action>, id: Uuid)
    requires Inv(s) && RunPossible(s, actions) && Restart !in actions && s.halt.Some? && s.halt.value.Clean()
    ensures !IsAlive(Run(s, actions), id)
  {
    if id in s.starts {
      assert HaltOk(s.halt, id, s.starts[id]);
    }
    RefusingStaysQuiet(s, actions, id);
  }

  // --- Crashes ------------------------------------------------------------

  /** Every persistent child that is running is in the durable checkpoint, at every moment. */
  lemma LiveIsDurable(s: State, id: Uuid)
    requires Inv(s) && IsAlive(s, id) && s.starts[id].lifetime == Obs.Persistent
    ensures id in s.durable && (s.flight.Some? ==> id in s.flight.value.saved)
  {
    assert LocalOk(At(s, id)) && SaveOk(s.durable, s.flight, id, At(s, id));
  }

  lemma RestartKeepsRecords(s: State, id: Uuid)
    requires id in s.durable
    ensures var r := Next(s, Restart); id in r.entries && r.entries[id].status.Finished() && !r.entries[id].live
  {}

  lemma RestartEndsAll(s: State, id: Uuid)
    requires id in s.starts
    ensures id in Next(s, Restart).starts && Next(s, Restart).starts[id].child.Dead?
  {}

  /** Every start that was ever begun, suspended or running, is over once the host dies, and no later host resumes it. */
  lemma CrashEndsEverything(s: State, actions: seq<Action>, id: Uuid)
    requires Inv(s) && RunPossible(s, [Restart] + actions) && id in s.starts
    ensures var r := Run(s, [Restart] + actions); id in r.starts && r.starts[id].child.Dead? && !IsAlive(r, id)
  {
    StepKeepsInv(s, Restart);
    assert ([Restart] + actions)[1..] == actions;
    RestartEndsAll(s, id);
    DeadStaysDead(Next(s, Restart), actions, id);
  }

  /**
   If the host dies and comes back, every persistent execution that was running
   has a record, finished and without a process.
   */
  lemma CrashLosesNoRecord(s: State, id: Uuid)
    requires Inv(s) && IsAlive(s, id) && s.starts[id].lifetime == Obs.Persistent
    ensures var r := Next(s, Restart); id in r.entries && r.entries[id].status.Finished() && !r.entries[id].live
  {
    LiveIsDurable(s, id);
    RestartKeepsRecords(s, id);
  }
}
