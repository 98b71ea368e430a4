/** What the invariant of the workflow engine means for whoever relies on it. */
module WorkflowTheorems {
  import opened Wrappers
  import opened WorkflowEngine
  import opened WorkflowSafety
  import Obs = ObservationLog
  import Waits = ObservationWaits

  const INITIAL: State := State(map[], {}, {}, {}, map[], map[], None, false, {}, {}, {}, [])

  ghost predicate RunPossible(s: State, actions: seq<Action>)
    requires Inv(s)
    decreases |actions|
  {
    actions != [] ==>
      Possible(s, actions[0]) && (StepKeepsInv(s, actions[0]); RunPossible(Next(s, actions[0]), actions[1..]))
  }

  ghost function Run(s: State, actions: seq<Action>): (s': State)
    requires Inv(s) && RunPossible(s, actions)
    ensures Inv(s')
    decreases |actions|
  {
    if actions == [] then s
    else
      StepKeepsInv(s, actions[0]);
      Run(Next(s, actions[0]), actions[1..])
  }

  lemma InitialIsOk()
    ensures Inv(INITIAL)
  {}

  /** A run of a host that starts with nothing. */
  ghost predicate FromStart(actions: seq<Action>) {
    InitialIsOk();
    RunPossible(INITIAL, actions)
  }

  ghost function After(actions: seq<Action>): (s: State)
    requires FromStart(actions)
    ensures Inv(s)
  {
    InitialIsOk();
    Run(INITIAL, actions)
  }

  // --- Write ahead --------------------------------------------------------

  lemma OnlySendDispatches(s: State, a: Action)
    requires Grounded(s) && Possible(s, a)
    ensures !a.Send? ==> Next(s, a).dispatches == s.dispatches
    ensures !a.WriteDone? ==> Next(s, a).durable == s.durable
  {}

  /** When a persistent action is dispatched, the durable checkpoint already shows its step running. */
  lemma MarkerPrecedesDispatch(s: State, a: Action, d: Dispatch)
    requires Inv(s) && Possible(s, a) && d !in s.dispatches && d in Next(s, a).dispatches && IsPersistent(s, d.id)
    ensures MarkerIn(s.durable, d.id, d.step)
    ensures Next(s, a).durable == s.durable
  {
    OnlySendDispatches(s, a);
    assert MarkerOk(s, a.id);
  }

  /** Apart from forgetting, finishing, sweeping and crashing, every record stays under its definition. */
  lemma RecordStays(s: State, a: Action, id: Uuid)
    requires Grounded(s) && s.records.Keys <= s.used && Possible(s, a) && id in s.records
    requires a != Forget(id) && !a.Finish? && !a.Sweep? && !a.Crash?
    ensures id in Next(s, a).records && Next(s, a).records[id].definition == s.records[id].definition
  {
    if TaskStep(a) {
      TaskKeepsRecord(s, a, id);
    } else {
      StoreKeepsRecord(s, a, id);
    }
  }

  lemma TaskKeepsRecord(s: State, a: Action, id: Uuid)
    requires Grounded(s) && Possible(s, a) && TaskStep(a) && !a.Finish? && id in s.records
    ensures id in Next(s, a).records && Next(s, a).records[id].definition == s.records[id].definition
  {
    if !a.Enter? && !a.KeepResult? {
      PhaseStepKeepsRecords(s, a);
    }
  }

  lemma PhaseStepKeepsRecords(s: State, a: Action)
    requires Grounded(s) && Possible(s, a) && (a.Prepare? || a.Send? || a.Return? || a.Interrupt?)
    ensures Next(s, a).records == s.records
  {}

  lemma StoreKeepsRecord(s: State, a: Action, id: Uuid)
    requires Grounded(s) && s.records.Keys <= s.used && Possible(s, a) && !TaskStep(a) && id in s.records
    requires a != Forget(id) && !a.Sweep? && !a.Crash?
    ensures id in Next(s, a).records && Next(s, a).records[id].definition == s.records[id].definition
  {}

  lemma DispatchesGrow(s: State, a: Action, d: Dispatch)
    requires Grounded(s) && Possible(s, a) && d in s.dispatches
    ensures d in Next(s, a).dispatches
  {
    OnlySendDispatches(s, a);
  }

  /** A persistent record stays until it is forgotten, across crashes once anything of it was dispatched. */
  lemma PersistentStays(s: State, a: Action, d: Dispatch)
    requires Inv(s) && Possible(s, a) && a != Forget(d.id) && d in s.dispatches && IsPersistent(s, d.id)
    ensures IsPersistent(Next(s, a), d.id) && d in Next(s, a).dispatches
  {
    DispatchesGrow(s, a, d);
    if a.Crash? {
      CrashKeepsPersistent(s, d);
    } else if a.Finish? || a.Sweep? {
      RemovalSparesPersistent(s, a, d.id);
    } else {
      RecordStays(s, a, d.id);
    }
  }

  lemma CrashKeepsPersistent(s: State, d: Dispatch)
    requires CheckpointOk(s) && DispatchOk(s, d) && IsPersistent(s, d.id)
    ensures IsPersistent(Rebooted(s), d.id)
  {
    assert s.durable[d.id].definition.lifetime == Obs.Persistent;
  }

  lemma RemovalSparesPersistent(s: State, a: Action, id: Uuid)
    requires Grounded(s) && Tidy(s) && Possible(s, a) && (a.Finish? || a.Sweep?) && IsPersistent(s, id)
    ensures IsPersistent(Next(s, a), id)
  {}

  /** From its dispatch on, every checkpoint that lands holds the step of a persistent action. */
  lemma {:induction false} CheckpointsKeepTheStep(s: State, actions: seq<Action>, d: Dispatch)
    requires Inv(s) && RunPossible(s, actions) && Forget(d.id) !in actions
    requires d in s.dispatches && IsPersistent(s, d.id)
    ensures var s' := Run(s, actions);
            IsPersistent(s', d.id) && InLog(s'.durable, d) && InLog(s'.records, d)
    decreases |actions|
  {
    assert DispatchOk(s, d);
    if actions != [] {
      StepKeepsInv(s, actions[0]);
      assert actions[0] in actions;
      PersistentStays(s, actions[0], d);
      CheckpointsKeepTheStep(Next(s, actions[0]), actions[1..], d);
    }
  }

  // --- At most once -------------------------------------------------------

  /** No step of a workflow is dispatched twice, over any sequence of crashes and restarts. */
  lemma NeverDispatchedTwice(actions: seq<Action>, a: nat, b: nat)
    requires FromStart(actions) && a < b < |After(actions).dispatches|
    ensures After(actions).dispatches[a] != After(actions).dispatches[b]
  {
    assert AtMostOnce(After(actions).dispatches);
  }

  // --- Honest recovery ----------------------------------------------------

  /**
   After a restart every dispatched persistent action is in the recovered log,
   finished: with its result, or saying that it may have completed.
   */
  lemma RecoveryAdmitsTheAction(s: State, d: Dispatch)
    requires Inv(s) && d in s.dispatches && IsPersistent(s, d.id)
    ensures var s' := Next(s, Crash);
            && InLog(s'.records, d) && s'.tasks == map[]
            && var r := s'.records[d.id].steps[d.step];
               Done(r) && (r.result.Some? || r.mayHaveCompleted)
    ensures MarkerIn(s.durable, d.id, d.step) ==>
              var r := Next(s, Crash).records[d.id].steps[d.step];
              r.outcome == Waits.Outcome.Failed && r.mayHaveCompleted
  {
    assert DispatchOk(s, d);
    var saved := s.durable[d.id];
    assert RecordOk(saved) && Accounted(saved.definition.steps[d.step], saved.steps[d.step]);
    RecoveredIsOk(saved);
  }

  // --- Outcomes -----------------------------------------------------------

  /** A workflow is running exactly while it has a cancellation handle. */
  lemma RunningHasHandle(s: State, id: Uuid)
    requires Inv(s) && id in s.records
    ensures s.records[id].outcome == Waits.Running <==> id in s.handles
  {
    if id in s.tasks {
      assert TaskOk(s.records[id], s.tasks[id]);
    }
  }

  /** While the host lives, a terminal record never changes; it can only be forgotten. */
  lemma TerminalIsAbsorbing(s: State, a: Action, id: Uuid)
    requires Inv(s) && Possible(s, a) && !a.Crash? && id in s.records && s.records[id].outcome != Waits.Running
    ensures id in Next(s, a).records ==> Next(s, a).records[id] == s.records[id]
  {
    TerminalHasNoTask(s, id);
    IdleRecordIsLeftAlone(s, a, id);
  }

  lemma IdleRecordIsLeftAlone(s: State, a: Action, id: Uuid)
    requires Grounded(s) && s.records.Keys <= s.used && Possible(s, a) && !a.Crash?
    requires id in s.records && id !in s.tasks && s.records[id].outcome != Waits.Running
    ensures id in Next(s, a).records ==> Next(s, a).records[id] == s.records[id]
  {
    if TaskStep(a) {
      OtherTasksLeaveAlone(s, a, id);
    } else {
      StoreLeavesAlone(s, a, id);
    }
  }

  lemma OtherTasksLeaveAlone(s: State, a: Action, id: Uuid)
    requires Grounded(s) && Possible(s, a) && TaskStep(a) && id in s.records && id !in s.tasks
    ensures id in Next(s, a).records ==> Next(s, a).records[id] == s.records[id]
  {}

  lemma StoreLeavesAlone(s: State, a: Action, id: Uuid)
    requires Grounded(s) && s.records.Keys <= s.used && Possible(s, a) && !TaskStep(a) && !a.Crash?
    requires id in s.records && s.records[id].outcome != Waits.Running
    ensures id in Next(s, a).records ==> Next(s, a).records[id] == s.records[id]
  {}

  /** Satisfied means that every declared step ran and was satisfied, in order. */
  lemma SatisfiedMeansAll(s: State, id: Uuid, i: nat)
    requires Inv(s) && id in s.records && s.records[id].outcome == Waits.Satisfied && i < |s.records[id].definition.steps|
    ensures var record := s.records[id];
            i < |record.steps| && record.steps[i].name == record.definition.steps[i].name
            && record.steps[i].outcome == Waits.Satisfied
  {
    assert RecordOk(s.records[id]);
    assert Accounted(s.records[id].definition.steps[i], s.records[id].steps[i]);
  }

  /**
   In every reachable state the step log is an in-order prefix of the declared
   steps; only its last entry can be running, and only while the workflow is; every
   earlier step that was not satisfied allowed going on; and every action that is
   over has its result or admits that it may have completed.
   */
  lemma StepLogIsPrefix(actions: seq<Action>, id: Uuid, i: nat)
    requires FromStart(actions)
    requires id in After(actions).records && i < |After(actions).records[id].steps|
    ensures var record := After(actions).records[id];
            && i < |record.definition.steps|
            && var step, r := record.definition.steps[i], record.steps[i];
               && r.name == step.name
               && (r.outcome == Waits.Running ==> i == |record.steps| - 1 && record.outcome == Waits.Running)
               && (i < |record.steps| - 1 && r.outcome != Waits.Satisfied ==> step.continueOnError)
               && (r.outcome != Waits.Running && step.operation.Act? ==> r.result.Some? || r.mayHaveCompleted)
  {
    var record := After(actions).records[id];
    assert RecordOk(record);
    assert Accounted(record.definition.steps[i], record.steps[i]);
    if i < |record.steps| - 1 {
      assert Passed(record.definition.steps[i], record.steps[i]);
    }
    assert record.outcome != Waits.Running ==> Done(record.steps[i]);
  }

  /** Once a connection is swept and its tasks have finished, it owns no workflow. */
  lemma SweptOwnsNothing(s: State, owner: Uuid, id: Uuid)
    requires Inv(s) && owner in s.swept && id in s.records && OwnedBy(s.records[id], owner)
    ensures id in s.tasks && id in s.retired
  {}
}
