/**
 The room that starts reserve in the registry of src/execution.rs, over the
 whole startup protocol. A start reserves a record and output bytes before it
 creates its child; admission turns the reservation into the entry's own budget,
 and a start that fails earlier drops it some time after it gave up.
 */
module ExecutionCapacity {
  import opened Wrappers
  import opened ExecutionRegistry
  import opened ExecutionStartup
  import Obs = ObservationLog

  /**
   `pending` and `budget` are the registry's two counters, integers so that
   "never negative" is a theorem. The maps say what each reservation and each
   entry holds, in memory, in the checkpoint and in the one being written.
   */
  datatype Host = Host(
    core: State, pending: int, budget: int, reserved: map<Uuid, nat>, budgets: map<Uuid, nat>,
    durableBudgets: map<Uuid, nat>, flightBudgets: map<Uuid, nat>)

  const EMPTY: Host := Host(INITIAL, 0, 0, map[], map[], map[], map[])

  /** `Reserve` begins a start; `Release` is the drop of a reservation that was never committed. */
  datatype Event =
    | Reserve(id: Uuid, connection: Uuid, token: nat, lifetime: Obs.Lifetime, request: nat)
    | Release(id: Uuid)
    | Core(action: Action)

  function CoreAction(e: Event): Option<Action> {
    match e
    case Reserve(id, connection, token, lifetime, _) => Some(Do(id, Begin(connection, token, lifetime)))
    case Release(_) => None
    case Core(a) => Some(a)
  }

  predicate HasRoom(h: Host, request: nat) {
    |h.core.entries| + h.pending < MAX_RECORDS && h.budget + request <= MAX_TOTAL_OUTPUT_BYTES
  }

  ghost predicate Possible(h: Host, e: Event) {
    && (CoreAction(e).Some? ==> ExecutionStartup.Possible(h.core, CoreAction(e).value))
    && match e
       case Reserve(id, connection, _, _, request) => ConnectionIsOpen(h.core, connection) && HasRoom(h, request)
       case Release(id) => id in h.reserved && id in h.core.starts && h.core.starts[id].phase.Ended?
       // A start begins with its reservation.
       case Core(a) => !(a.Do? && a.step.Begin?)
  }

  predicate Admits(e: Event, id: Uuid) { e == Core(Do(id, Admit)) }

  /** The reservations after an event. */
  function ReservedAfter(h: Host, e: Event): map<Uuid, nat> {
    match e
    case Reserve(id, _, _, _, request) => h.reserved[id := request]
    case Release(id) => h.reserved - {id}
    case Core(a) => if a.Restart? then map[] else if a.Do? && a.step.Admit? then h.reserved - {a.id} else h.reserved
  }

  function BudgetAt(m: map<Uuid, nat>, id: Uuid): nat { if id in m then m[id] else 0 }

  /** The budgets of the entries after an event. */
  function BudgetsAfter(h: Host, e: Event): map<Uuid, nat> {
    if !e.Core? then h.budgets
    else if e.action.Restart? then h.durableBudgets
    else if e.action.Do? && e.action.step.Admit? then h.budgets[e.action.id := BudgetAt(h.reserved, e.action.id)]
    else if e.action.Do? && e.action.step.Evict? then h.budgets - {e.action.id}
    else h.budgets
  }

  function PendingAfter(h: Host, e: Event): int {
    match e
    case Reserve(_, _, _, _, _) => h.pending + 1
    case Release(_) => h.pending - 1
    case Core(a) => if a.Restart? then 0 else if a.Do? && a.step.Admit? then h.pending - 1 else h.pending
  }

  /** A new process adds up what its checkpoint holds; everything else adds and subtracts. */
  ghost function BudgetAfter(h: Host, e: Event): int {
    match e
    case Reserve(_, _, _, _, request) => h.budget + request
    case Release(id) => h.budget - BudgetAt(h.reserved, id)
    case Core(a) =>
      if a.Restart? then Reserved(h.durableBudgets)
      else if a.Do? && a.step.Evict? then h.budget - BudgetAt(h.budgets, a.id)
      else h.budget
  }

  function Within(m: map<Uuid, nat>, ids: set<Uuid>): map<Uuid, nat> { map id | id in m && id in ids :: m[id] }

  function DiskAfter(h: Host, e: Event): (map<Uuid, nat>, map<Uuid, nat>) {
    if e.Core? && e.action.Snapshot? then (h.durableBudgets, Within(h.budgets, PersistentRecords(h.core.entries).Keys))
    else if e.Core? && e.action.WriteDone? then (if e.action.ok then h.flightBudgets else h.durableBudgets, h.flightBudgets)
    else (h.durableBudgets, h.flightBudgets)
  }

  ghost function Next(h: Host, e: Event): Host
    requires Possible(h, e)
  {
    var core := if CoreAction(e).Some? then ExecutionStartup.Next(h.core, CoreAction(e).value) else h.core;
    Host(core, PendingAfter(h, e), BudgetAfter(h, e), ReservedAfter(h, e), BudgetsAfter(h, e),
         DiskAfter(h, e).0, DiskAfter(h, e).1)
  }

  // --- The invariant ------------------------------------------------------

  /** A set of entries that a registry can hold: few enough, within the output budget, each with its own share. */
  ghost predicate Holds(budgets: map<Uuid, nat>, ids: set<Uuid>) {
    budgets.Keys == ids && |ids| <= MAX_RECORDS && Reserved(budgets) <= MAX_TOTAL_OUTPUT_BYTES
  }

  /** Reservations belong to starts without an entry: all that still work towards one, and some that gave up. */
  ghost predicate Outstanding(s: State, reserved: map<Uuid, nat>) {
    && (forall id | id in reserved :: id in s.starts && (Unresumed(s.starts[id].phase) || s.starts[id].phase.Ended?))
    && (forall id | id in s.starts && Unresumed(s.starts[id].phase) :: id in reserved)
  }

  /** Conservation: both counters are exactly what entries and reservations add up to, within the capacity. */
  ghost predicate Balanced(h: Host) {
    && h.pending == |h.reserved|
    && h.budget == Reserved(h.budgets) + Reserved(h.reserved)
    && h.budgets.Keys == h.core.entries.Keys
    && |h.core.entries| + |h.reserved| <= MAX_RECORDS
    && h.budget <= MAX_TOTAL_OUTPUT_BYTES
  }

  /** The checkpoint, and the one being written, are such that a registry can restore them. */
  ghost predicate DiskHolds(h: Host) {
    && Holds(h.durableBudgets, h.core.durable.Keys)
    && (h.core.flight.Some? ==> Holds(h.flightBudgets, h.core.flight.value.saved.Keys))
  }

  ghost predicate Sound(h: Host) {
    Inv(h.core) && Outstanding(h.core, h.reserved) && Balanced(h) && DiskHolds(h)
  }

  // --- Sums ---------------------------------------------------------------

  lemma {:induction false} LessIsLess(m: map<Uuid, nat>, ids: set<Uuid>)
    ensures |Within(m, ids)| <= |m| && Reserved(Within(m, ids)) <= Reserved(m)
    decreases |m|
  {
    if k :| k in m && k !in ids {
      assert (m - {k}).Keys == m.Keys - {k};
      assert Within(m - {k}, ids) == Within(m, ids);
      LessIsLess(m - {k}, ids);
      ReservedRemove(m, k);
    } else {
      assert Within(m, ids) == m;
    }
  }

  lemma Removal(m: map<Uuid, nat>, id: Uuid)
    requires id in m
    ensures |m - {id}| == |m| - 1 && Reserved(m) == m[id] + Reserved(m - {id})
  {
    assert (m - {id}).Keys == m.Keys - {id};
    ReservedRemove(m, id);
  }

  lemma Addition(m: map<Uuid, nat>, id: Uuid, n: nat)
    requires id !in m
    ensures |m[id := n]| == |m| + 1 && Reserved(m[id := n]) == n + Reserved(m)
  {
    assert m[id := n].Keys == m.Keys + {id};
    ReservedAdd(m, id, n);
  }

  // --- Each event keeps it --------------------------------------------------

  lemma PhaseOfStep(l: Local, step: Step)
    requires CanDo(l, step) && l.start.Some?
    ensures Stepped(l, step).start.Some?
    ensures var before, after := l.start.value.phase, Stepped(l, step).start.value.phase;
            && (Unresumed(after) ==> Unresumed(before))
            && (Unresumed(before) && !step.Admit? ==> Unresumed(after) || after.Ended?)
            && (before.Ended? ==> after.Ended?)
            && (step.Admit? ==> Unresumed(before) && after.Admitted?)
  {}

  /** How far a start is, after an action of the protocol. */
  lemma PhaseMoves(s: State, a: Action, id: Uuid)
    requires ExecutionStartup.Possible(s, a) && id in s.starts
    ensures id in ExecutionStartup.Next(s, a).starts
    ensures var before, after := s.starts[id].phase, ExecutionStartup.Next(s, a).starts[id].phase;
            && (Unresumed(after) ==> Unresumed(before))
            && (Unresumed(before) && a != Do(id, Admit) && !a.Restart? ==> Unresumed(after) || after.Ended?)
            && (before.Ended? ==> after.Ended?)
            && (a == Do(id, Admit) ==> Unresumed(before) && after.Admitted?)
            && (a.Restart? ==> after.Ended?)
  {
    var s' := ExecutionStartup.Next(s, a);
    AtTells(s', id);
    if Focus(s, a) == Some(id) {
      FocusMoves(s, a);
      if a.Do? {
        PhaseOfStep(At(s, id), a.step);
      }
    } else if !a.Restart? {
      OthersStay(s, a, id);
    }
  }

  lemma OutstandingKept(h: Host, e: Event)
    requires Inv(h.core) && Outstanding(h.core, h.reserved) && Possible(h, e)
    ensures Outstanding(Next(h, e).core, Next(h, e).reserved)
  {
    var h' := Next(h, e);
    if CoreAction(e).Some? {
      var a := CoreAction(e).value;
      forall id | id in h'.core.starts
        ensures id in h'.reserved ==> Unresumed(h'.core.starts[id].phase) || h'.core.starts[id].phase.Ended?
        ensures Unresumed(h'.core.starts[id].phase) ==> id in h'.reserved
      {
        if id in h.core.starts {
          PhaseMoves(h.core, a, id);
        } else {
          OnlyBeginAddsStarts(h.core, a, id);
        }
      }
      forall id | id in h'.reserved ensures id in h'.core.starts {
        ReservedHasStart(h, e, id);
      }
    }
  }

  lemma ReservedHasStart(h: Host, e: Event, id: Uuid)
    requires Outstanding(h.core, h.reserved) && Possible(h, e) && CoreAction(e).Some? && id in Next(h, e).reserved
    ensures id in Next(h, e).core.starts
  {
    var a := CoreAction(e).value;
    if id in h.core.starts {
      StartIdentity(h.core, a, id);
    } else {
      FocusMoves(h.core, a);
      AtTells(Next(h, e).core, id);
    }
  }

  lemma EntryOfStep(l: Local, step: Step)
    requires CanDo(l, step)
    ensures Stepped(l, step).entry.Some? <==> step.Admit? || (l.entry.Some? && !step.Evict?)
  {}

  lemma PlacedKeys<T>(m: map<Uuid, T>, id: Uuid, value: Option<T>)
    ensures Placed(m, id, value).Keys == if value.Some? then m.Keys + {id} else m.Keys - {id}
  {}

  /** An action that steps one execution leaves the others registered as they were. */
  lemma StepMoves(s: State, id: Uuid, step: Step)
    requires ExecutionStartup.Possible(s, Do(id, step))
    ensures Entered(s, Do(id, step)).Keys
         == if step.Admit? then s.entries.Keys + {id} else if step.Evict? then s.entries.Keys - {id} else s.entries.Keys
  {
    EntryOfStep(At(s, id), step);
    PlacedKeys(s.entries, id, Stepped(At(s, id), step).entry);
    AtTells(s, id);
  }

  lemma SweepMoves(s: State, a: Action)
    requires ExecutionStartup.Possible(s, a) && (a.SweepOne? || a.HaltOne?)
    ensures Entered(s, a).Keys == s.entries.Keys
  {
    PlacedKeys(s.entries, a.id, Terminated(At(s, a.id), a.ok).entry);
    AtTells(s, a.id);
  }

  lemma OtherEntriesSame(s: State, a: Action)
    requires ExecutionStartup.Possible(s, a) && !a.Do? && !a.SweepOne? && !a.HaltOne?
    ensures Entered(s, a).Keys == if a.Restart? then s.durable.Keys else s.entries.Keys
  {}

  /** The registered identifiers change only by admission, eviction and restart. */
  lemma EntriesMove(s: State, a: Action)
    requires ExecutionStartup.Possible(s, a)
    ensures var keys, after := s.entries.Keys, ExecutionStartup.Next(s, a).entries.Keys;
            after == if a.Restart? then s.durable.Keys
                     else if a.Do? && a.step.Admit? then keys + {a.id}
                     else if a.Do? && a.step.Evict? then keys - {a.id}
                     else keys
  {
    if a.Do? {
      StepMoves(s, a.id, a.step);
    } else if a.SweepOne? || a.HaltOne? {
      SweepMoves(s, a);
    } else {
      OtherEntriesSame(s, a);
    }
  }

  lemma AdmittedIsNew(h: Host, id: Uuid)
    requires Inv(h.core) && Outstanding(h.core, h.reserved) && Possible(h, Core(Do(id, Admit)))
    ensures id in h.reserved && id !in h.core.entries
  {
    AtTells(h.core, id);
    assert LocalOk(At(h.core, id));
  }

  lemma SameSize<V, W>(m: map<Uuid, V>, n: map<Uuid, W>)
    requires m.Keys == n.Keys
    ensures |m| == |n|
  {
    assert |m| == |m.Keys| && |n| == |n.Keys|;
  }

  lemma ReservationIsBalanced(h: Host, e: Event)
    requires Sound(h) && Possible(h, e) && e.Reserve?
    ensures Balanced(Next(h, e))
  {
    EntriesMove(h.core, CoreAction(e).value);
    Addition(h.reserved, e.id, e.request);
    assert |Next(h, e).core.entries| == |Next(h, e).core.entries.Keys|;
  }

  lemma ReleaseIsBalanced(h: Host, e: Event)
    requires Sound(h) && Possible(h, e) && e.Release?
    ensures Balanced(Next(h, e))
  {
    Removal(h.reserved, e.id);
  }

  /** How admission moves the books; its reservation is there and its identifier is new. */
  lemma AdmissionMoves(h: Host, e: Event, id: Uuid)
    requires Possible(h, e) && Admits(e, id) && id in h.reserved
    ensures var h' := Next(h, e);
            && h'.reserved == h.reserved - {id} && h'.budgets == h.budgets[id := h.reserved[id]]
            && h'.pending == h.pending - 1 && h'.budget == h.budget
            && h'.core.entries.Keys == h.core.entries.Keys + {id}
  {
    EntriesMove(h.core, Do(id, Admit));
  }

  lemma AdmissionIsBalanced(h: Host, id: Uuid)
    requires Inv(h.core) && Outstanding(h.core, h.reserved) && Balanced(h) && Possible(h, Core(Do(id, Admit)))
    ensures Balanced(Next(h, Core(Do(id, Admit))))
  {
    AdmittedIsNew(h, id);
    AdmissionMoves(h, Core(Do(id, Admit)), id);
    MoveIsBalanced(h, Next(h, Core(Do(id, Admit))), id);
  }

  /** Moving a reservation to the entries leaves the sums as they are. */
  lemma MoveIsBalanced(h: Host, h': Host, id: Uuid)
    requires Balanced(h) && id in h.reserved && id !in h.budgets
    requires h'.reserved == h.reserved - {id} && h'.budgets == h.budgets[id := h.reserved[id]]
    requires h'.pending == h.pending - 1 && h'.budget == h.budget && h'.core.entries.Keys == h.core.entries.Keys + {id}
    ensures Balanced(h')
  {
    Removal(h.reserved, id);
    Addition(h.budgets, id, h.reserved[id]);
    SameSize(h.core.entries, h.budgets);
    SameSize(h'.core.entries, h'.budgets);
  }

  lemma EvictionIsBalanced(h: Host, id: Uuid)
    requires Sound(h) && Possible(h, Core(Do(id, Evict)))
    ensures Balanced(Next(h, Core(Do(id, Evict))))
  {
    EntriesMove(h.core, Do(id, Evict));
    Removal(h.budgets, id);
  }

  lemma RestartIsBalanced(h: Host)
    requires Sound(h) && Possible(h, Core(Restart))
    ensures Balanced(Next(h, Core(Restart)))
  {
    EntriesMove(h.core, Restart);
  }

  lemma BalanceKept(h: Host, e: Event)
    requires Sound(h) && Possible(h, e)
    ensures Balanced(Next(h, e))
  {
    if e.Reserve? {
      ReservationIsBalanced(h, e);
    } else if e.Release? {
      ReleaseIsBalanced(h, e);
    } else if e.action.Restart? {
      RestartIsBalanced(h);
    } else if e.action.Do? && e.action.step.Admit? {
      AdmissionIsBalanced(h, e.action.id);
    } else if e.action.Do? && e.action.step.Evict? {
      EvictionIsBalanced(h, e.action.id);
    } else {
      EntriesMove(h.core, e.action);
    }
  }

  lemma SnapshotHolds(h: Host)
    requires Balanced(h)
    ensures Holds(Within(h.budgets, PersistentRecords(h.core.entries).Keys), PersistentRecords(h.core.entries).Keys)
  {
    var kept := Within(h.budgets, PersistentRecords(h.core.entries).Keys);
    assert kept.Keys == PersistentRecords(h.core.entries).Keys;
    LessIsLess(h.budgets, PersistentRecords(h.core.entries).Keys);
  }

  lemma DiskKept(h: Host, e: Event)
    requires Balanced(h) && DiskHolds(h) && Possible(h, e)
    ensures DiskHolds(Next(h, e))
  {
    if e.Core? && e.action.Snapshot? {
      SnapshotHolds(h);
    } else if CoreAction(e).Some? && !CoreAction(e).value.WriteDone? && !CoreAction(e).value.Restart? {
      CheckpointsStay(h.core, CoreAction(e).value);
    }
  }

  lemma EventKeepsSound(h: Host, e: Event)
    requires Sound(h) && Possible(h, e)
    ensures Sound(Next(h, e))
  {
    if CoreAction(e).Some? {
      StepKeepsInv(h.core, CoreAction(e).value);
    }
    OutstandingKept(h, e);
    BalanceKept(h, e);
    DiskKept(h, e);
  }

  // --- Whole runs ---------------------------------------------------------

  ghost predicate RunPossible(h: Host, events: seq<Event>)
    decreases |events|, 0
  {
    events != [] ==>
      && RunPossible(h, events[..|events| - 1])
      && Possible(Run(h, events[..|events| - 1]), events[|events| - 1])
  }

  ghost function Run(h: Host, events: seq<Event>): Host
    requires RunPossible(h, events)
    decreases |events|, 1
  {
    if events == [] then h else Next(Run(h, events[..|events| - 1]), events[|events| - 1])
  }

  lemma {:induction false} RunKeepsSound(h: Host, events: seq<Event>)
    requires Sound(h) && RunPossible(h, events)
    ensures Sound(Run(h, events))
    decreases |events|
  {
    if events != [] {
      RunKeepsSound(h, events[..|events| - 1]);
      EventKeepsSound(Run(h, events[..|events| - 1]), events[|events| - 1]);
    }
  }

  lemma EmptyIsSound()
    ensures Sound(EMPTY)
  {
    InitialIsOk();
  }

  lemma RunIsSound(events: seq<Event>)
    requires RunPossible(EMPTY, events)
    ensures Sound(Run(EMPTY, events))
  {
    EmptyIsSound();
    RunKeepsSound(EMPTY, events);
  }

  ghost predicate WithinCapacity(h: Host) {
    && 0 <= h.pending == |h.reserved| && |h.core.entries| + h.pending <= MAX_RECORDS
    && 0 <= h.budget == Reserved(h.budgets) + Reserved(h.reserved) <= MAX_TOTAL_OUTPUT_BYTES
    && h.budgets.Keys == h.core.entries.Keys
    && Holds(h.durableBudgets, h.core.durable.Keys)
  }

  lemma SoundIsWithin(h: Host)
    requires Sound(h)
    ensures WithinCapacity(h)
  {}

  /**
   Conservation over every interleaving of starts, failures, evictions,
   checkpoints and restarts: the counters are what entries and reservations add
   up to, never negative and never over the capacity; and the checkpoint is one
   that the next process can restore.
   */
  lemma CapacityIsConserved(events: seq<Event>)
    requires RunPossible(EMPTY, events)
    ensures WithinCapacity(Run(EMPTY, events))
  {
    RunIsSound(events);
    SoundIsWithin(Run(EMPTY, events));
  }

  /** How often the reservation of a start was committed or dropped. */
  function Settlements(events: seq<Event>, id: Uuid): nat
    decreases |events|
  {
    if events == [] then 0
    else
      var last := events[|events| - 1];
      Settlements(events[..|events| - 1], id) + if Admits(last, id) || last == Release(id) then 1 else 0
  }

  lemma SettlingTakesAReservation(h: Host, e: Event, id: Uuid)
    requires Sound(h) && Possible(h, e) && (Admits(e, id) || e == Release(id))
    ensures id in h.reserved && id in h.core.starts && id !in Next(h, e).reserved
  {}

  lemma OnlyReserveAdds(h: Host, e: Event, id: Uuid)
    requires Sound(h) && Possible(h, e) && id in Next(h, e).reserved && id !in h.reserved
    ensures e.Reserve? && e.id == id && id !in h.core.starts
  {}

  lemma OnlySettlingRemoves(h: Host, e: Event, id: Uuid)
    requires Sound(h) && Possible(h, e) && id in h.reserved && id !in Next(h, e).reserved
    ensures Admits(e, id) || e == Release(id) || e == Core(Restart)
  {}

  lemma StartsCome(h: Host, e: Event, id: Uuid)
    requires Possible(h, e)
    ensures id in h.core.starts ==> id in Next(h, e).core.starts
    ensures id !in h.core.starts && id in Next(h, e).core.starts ==> e.Reserve? && e.id == id && id in Next(h, e).reserved
  {
    if CoreAction(e).Some? {
      if id in h.core.starts {
        StartIdentity(h.core, CoreAction(e).value, id);
      } else if id in Next(h, e).core.starts {
        OnlyBeginAddsStarts(h.core, CoreAction(e).value, id);
      }
    }
  }

  /** Whether a reservation is outstanding says how often it was settled. */
  ghost predicate Tallied(h: Host, id: Uuid, settled: nat, restarted: bool) {
    && settled <= 1
    && (id in h.reserved || id !in h.core.starts ==> settled == 0)
    && (id in h.core.starts && id !in h.reserved && !restarted ==> settled == 1)
  }

  lemma EventKeepsTally(h: Host, e: Event, id: Uuid, settled: nat, restarted: bool)
    requires Sound(h) && Possible(h, e) && Tallied(h, id, settled, restarted)
    ensures var more := if Admits(e, id) || e == Release(id) then 1 else 0;
            Tallied(Next(h, e), id, settled + more, restarted || e == Core(Restart))
  {
    StartsCome(h, e, id);
    if Admits(e, id) || e == Release(id) {
      SettlingTakesAReservation(h, e, id);
    } else if id in h.reserved && id !in Next(h, e).reserved {
      OnlySettlingRemoves(h, e, id);
    } else if id !in h.reserved && id in Next(h, e).reserved {
      OnlyReserveAdds(h, e, id);
    }
  }

  lemma LastIsIn(events: seq<Event>, e: Event)
    requires events != []
    ensures e in events <==> e in events[..|events| - 1] || e == events[|events| - 1]
  {}

  lemma EmptyIsTallied(id: Uuid)
    ensures Tallied(EMPTY, id, 0, false)
  {}

  /**
   Over every run, a reservation is settled at most once, and exactly once when
   it is no longer outstanding and its process did not end: committed by the
   admission of its start or dropped after it gave up, never both.
   */
  lemma {:induction false} SettledOnce(events: seq<Event>, id: Uuid)
    requires RunPossible(EMPTY, events)
    ensures Tallied(Run(EMPTY, events), id, Settlements(events, id), Core(Restart) in events)
    decreases |events|
  {
    if events == [] {
      EmptyIsTallied(id);
    } else {
      var before, last := events[..|events| - 1], events[|events| - 1];
      RunIsSound(before);
      SettledOnce(before, id);
      EventKeepsTally(Run(EMPTY, before), last, id, Settlements(before, id), Core(Restart) in before);
      LastIsIn(events, Core(Restart));
    }
  }

  // --- What a start is charged ------------------------------------------------

  /**
   A request of an open connection gets its reservation exactly if records and
   reservations together are fewer than 64 and its bytes fit into 64 MiB beside
   those already spoken for.
   */
  lemma ReserveDecides(h: Host, id: Uuid, connection: Uuid, lifetime: Obs.Lifetime, request: nat)
    requires !h.core.closed && connection in h.core.connections && h.core.connections[connection] !in h.core.canceled
    requires id !in h.core.starts && id !in h.core.entries && id !in h.core.durable
    ensures Possible(h, Reserve(id, connection, h.core.connections[connection], lifetime, request)) <==>
              |h.core.entries| + h.pending < 64 && h.budget + request <= 67_108_864
  {}

  /** Whatever is still held for a start, and wherever, is what it asked for. */
  ghost predicate Charged(h: Host, id: Uuid, request: nat) {
    && (id in h.reserved ==> h.reserved[id] == request) && (id in h.budgets ==> h.budgets[id] == request)
    && (id in h.durableBudgets ==> h.durableBudgets[id] == request)
    && (id in h.flightBudgets ==> h.flightBudgets[id] == request)
  }

  /** Nothing is held for an execution that was never begun. */
  ghost predicate NothingFor(h: Host, id: Uuid) {
    id !in h.reserved && id !in h.budgets && id !in h.durableBudgets && id !in h.flightBudgets
  }

  /** What the books hold for one start after an event that gives it nothing. */
  lemma BooksKeepNothing(h: Host, e: Event, id: Uuid)
    requires NothingFor(h, id) && !Admits(e, id) && !(e.Reserve? && e.id == id)
    ensures id !in ReservedAfter(h, e) && id !in BudgetsAfter(h, e) && id !in DiskAfter(h, e).0 && id !in DiskAfter(h, e).1
  {}

  lemma BooksKeepCharge(h: Host, e: Event, id: Uuid, request: nat)
    requires Charged(h, id, request) && !(e.Reserve? && e.id == id) && (Admits(e, id) ==> id in h.reserved)
    ensures id in ReservedAfter(h, e) ==> ReservedAfter(h, e)[id] == request
    ensures id in BudgetsAfter(h, e) ==> BudgetsAfter(h, e)[id] == request
    ensures id in DiskAfter(h, e).0 ==> DiskAfter(h, e).0[id] == request
    ensures id in DiskAfter(h, e).1 ==> DiskAfter(h, e).1[id] == request
  {}

  lemma NextBooks(h: Host, e: Event)
    requires Possible(h, e)
    ensures Next(h, e).reserved == ReservedAfter(h, e) && Next(h, e).budgets == BudgetsAfter(h, e)
    ensures Next(h, e).durableBudgets == DiskAfter(h, e).0 && Next(h, e).flightBudgets == DiskAfter(h, e).1
  {}

  /** An event that gives an execution something has its start, before or after. */
  lemma GivingNeedsAStart(h: Host, e: Event, id: Uuid)
    requires Possible(h, e) && (Admits(e, id) || (e.Reserve? && e.id == id))
    ensures id in Next(h, e).core.starts
  {
    FocusMoves(h.core, CoreAction(e).value);
    AtTells(Next(h, e).core, id);
  }

  lemma EventKeepsNothing(h: Host, e: Event, id: Uuid)
    requires Possible(h, e) && NothingFor(h, id) && id !in Next(h, e).core.starts
    ensures NothingFor(Next(h, e), id)
  {
    if Admits(e, id) || (e.Reserve? && e.id == id) {
      GivingNeedsAStart(h, e, id);
    } else {
      BooksKeepNothing(h, e, id);
      NextBooks(h, e);
    }
  }

  lemma {:induction false} OnlyStartsAreCharged(events: seq<Event>, id: Uuid)
    requires RunPossible(EMPTY, events) && id !in Run(EMPTY, events).core.starts
    ensures NothingFor(Run(EMPTY, events), id)
    decreases |events|
  {
    if events != [] {
      var before := events[..|events| - 1];
      RunIsSound(before);
      StartsCome(Run(EMPTY, before), events[|events| - 1], id);
      OnlyStartsAreCharged(before, id);
      EventKeepsNothing(Run(EMPTY, before), events[|events| - 1], id);
    }
  }

  lemma EventKeepsCharge(h: Host, e: Event, id: Uuid, request: nat)
    requires Sound(h) && Possible(h, e) && Charged(h, id, request) && !(e.Reserve? && e.id == id)
    ensures Charged(Next(h, e), id, request)
  {
    if Admits(e, id) {
      AdmittedIsNew(h, id);
    }
    BooksKeepCharge(h, e, id, request);
    NextBooks(h, e);
  }

  lemma ReserveCharges(h: Host, e: Event)
    requires Possible(h, e) && e.Reserve? && NothingFor(h, e.id)
    ensures Charged(Next(h, e), e.id, e.request) && e.id in Next(h, e).reserved && e.id in Next(h, e).core.starts
  {
    FocusMoves(h.core, CoreAction(e).value);
    AtTells(Next(h, e).core, e.id);
  }

  /** In every run, a start is charged what it asked for, from its reservation to its entry, on disk, and after a restart. */
  lemma {:induction false} ChargedAsAsked(events: seq<Event>, e: Event)
    requires RunPossible(EMPTY, events) && e.Reserve? && e in events
    ensures Charged(Run(EMPTY, events), e.id, e.request) && e.id in Run(EMPTY, events).core.starts
    decreases |events|
  {
    var before, last := events[..|events| - 1], events[|events| - 1];
    var h := Run(EMPTY, before);
    RunIsSound(before);
    LastIsIn(events, e);
    if e in before {
      ChargedAsAsked(before, e);
      StartsCome(h, last, e.id);
      assert !(last.Reserve? && last.id == e.id) by {
        AtTells(h.core, e.id);
      }
      EventKeepsCharge(h, last, e.id, e.request);
    } else {
      AtTells(h.core, e.id);
      OnlyStartsAreCharged(before, e.id);
      ReserveCharges(h, last);
    }
  }
}
