/**
 The two semaphores of src/runtime.rs. A call that needs the desktop waits for it
 first and then for capacity; both permits then belong to the blocking closure and
 come back when that ends, however the caller ended.
 */
module NativeRuntime {
  import opened FiniteSets

  /**
   `WaitDesktop` and `WaitCapacity` are awaits of the caller; `Queued` and later
   belong to the closure. `Entered` has started but not yet passed its first
   checkpoint; `Working` runs the caller's work.
   */
  datatype Phase = WaitDesktop | WaitCapacity | Queued | Entered | Working | Gone

  datatype Call = Call(interactive: bool, phase: Phase, canceled: bool, aborted: bool) {
    predicate HoldsDesktop() { interactive && !phase.WaitDesktop? && !phase.Gone? }

    predicate HoldsCapacity() { phase.Queued? || phase.Entered? || phase.Working? }

    predicate Executes() { phase.Entered? || phase.Working? }

    predicate Waits() { phase.WaitDesktop? || phase.WaitCapacity? }
  }

  datatype State = State(desktop: nat, capacity: nat, calls: map<nat, Call>)

  datatype Action =
    | Begin(id: nat, interactive: bool)
    | GetDesktop(id: nat)
    | GetCapacity(id: nat)
    | GiveUp(id: nat)
    | Start(id: nat)
    | Work(id: nat)
    | Exit(id: nat)
    | Cancel(id: nat)
    | Abort(id: nat)
    | Discard(id: nat)

  /**
   What can happen. A caller that is dropped or out of time cancels its operation and
   then aborts the task; an aborted task that is still queued is discarded.
   */
  predicate Possible(s: State, a: Action) {
    match a
    case Begin(id, _) => id !in s.calls
    case GetDesktop(id) => id in s.calls && s.calls[id].phase.WaitDesktop? && s.desktop > 0
    case GetCapacity(id) => id in s.calls && s.calls[id].phase.WaitCapacity? && s.capacity > 0
    case GiveUp(id) => id in s.calls && s.calls[id].Waits()
    case Start(id) => id in s.calls && s.calls[id].phase.Queued? && !s.calls[id].aborted
    case Work(id) => id in s.calls && s.calls[id].phase.Entered? && !s.calls[id].canceled
    case Exit(id) => id in s.calls && s.calls[id].Executes()
    case Cancel(id) => id in s.calls && s.calls[id].HoldsCapacity()
    case Abort(id) => id in s.calls && s.calls[id].HoldsCapacity() && s.calls[id].canceled
    case Discard(id) => id in s.calls && s.calls[id].phase.Queued? && s.calls[id].aborted
  }

  function Moved(s: State, id: nat, phase: Phase): State
    requires id in s.calls
  {
    s.(calls := s.calls[id := s.calls[id].(phase := phase)])
  }

  /** The call ends and gives back what it holds. */
  function Released(s: State, id: nat): State
    requires id in s.calls
  {
    var call := s.calls[id];
    Moved(s, id, Gone).(desktop := s.desktop + if call.HoldsDesktop() then 1 else 0,
                        capacity := s.capacity + if call.HoldsCapacity() then 1 else 0)
  }

  function Next(s: State, a: Action): State
    requires Possible(s, a)
  {
    match a
    case Begin(id, interactive) =>
      s.(calls := s.calls[id := Call(interactive, if interactive then WaitDesktop else WaitCapacity, false, false)])
    case GetDesktop(id) => Moved(s, id, WaitCapacity).(desktop := s.desktop - 1)
    case GetCapacity(id) => Moved(s, id, Queued).(capacity := s.capacity - 1)
    case GiveUp(id) => Released(s, id)
    case Start(id) => Moved(s, id, Entered)
    case Work(id) => Moved(s, id, Working)
    case Exit(id) => Released(s, id)
    case Cancel(id) => s.(calls := s.calls[id := s.calls[id].(canceled := true)])
    case Abort(id) => s.(calls := s.calls[id := s.calls[id].(aborted := true)])
    case Discard(id) => Released(s, id)
  }

  // --- Conservation -----------------------------------------------------------

  ghost function DesktopHolders(calls: map<nat, Call>): set<nat> {
    set id | id in calls && calls[id].HoldsDesktop()
  }

  ghost function CapacityHolders(calls: map<nat, Call>): set<nat> {
    set id | id in calls && calls[id].HoldsCapacity()
  }

  /** Every permit is free or held by one call, and only a call that needs the desktop waits for it. */
  ghost predicate Inv(s: State, limit: nat) {
    && s.desktop + |DesktopHolders(s.calls)| == 1
    && s.capacity + |CapacityHolders(s.calls)| == limit
    && (forall id | id in s.calls && s.calls[id].phase.WaitDesktop? :: s.calls[id].interactive)
  }

  lemma DesktopChanges(calls: map<nat, Call>, id: nat, call: Call)
    ensures |DesktopHolders(calls[id := call])| + (if id in calls && calls[id].HoldsDesktop() then 1 else 0)
         == |DesktopHolders(calls)| + (if call.HoldsDesktop() then 1 else 0)
  {
    var now, was := DesktopHolders(calls[id := call]), DesktopHolders(calls);
    WithoutOne(now, id);
    WithoutOne(was, id);
    assert now - {id} == was - {id};
  }

  lemma CapacityChanges(calls: map<nat, Call>, id: nat, call: Call)
    ensures |CapacityHolders(calls[id := call])| + (if id in calls && calls[id].HoldsCapacity() then 1 else 0)
         == |CapacityHolders(calls)| + (if call.HoldsCapacity() then 1 else 0)
  {
    var now, was := CapacityHolders(calls[id := call]), CapacityHolders(calls);
    WithoutOne(now, id);
    WithoutOne(was, id);
    assert now - {id} == was - {id};
  }

  lemma WithoutOne(ids: set<nat>, id: nat)
    ensures |ids| == |ids - {id}| + if id in ids then 1 else 0
  {
    if id in ids {
      assert ids == (ids - {id}) + {id};
    } else {
      assert ids - {id} == ids;
    }
  }

  lemma StepKeepsInv(s: State, a: Action, limit: nat)
    requires Inv(s, limit) && Possible(s, a)
    ensures Inv(Next(s, a), limit)
  {
    var call := Next(s, a).calls[a.id];
    DesktopChanges(s.calls, a.id, call);
    CapacityChanges(s.calls, a.id, call);
    assert Next(s, a).calls == s.calls[a.id := call];
  }

  ghost predicate RunPossible(s: State, actions: seq<Action>)
    decreases |actions|, 0
  {
    actions != [] ==>
      && RunPossible(s, actions[..|actions| - 1])
      && Possible(Run(s, actions[..|actions| - 1]), actions[|actions| - 1])
  }

  ghost function Run(s: State, actions: seq<Action>): State
    requires RunPossible(s, actions)
    decreases |actions|, 1
  {
    if actions == [] then s else Next(Run(s, actions[..|actions| - 1]), actions[|actions| - 1])
  }

  lemma {:induction false} RunKeepsInv(s: State, actions: seq<Action>, limit: nat)
    requires Inv(s, limit) && RunPossible(s, actions)
    ensures Inv(Run(s, actions), limit)
    decreases |actions|
  {
    if actions != [] {
      RunKeepsInv(s, actions[..|actions| - 1], limit);
      StepKeepsInv(Run(s, actions[..|actions| - 1]), actions[|actions| - 1], limit);
    }
  }

  lemma {:induction false} PrefixIsPossible(s: State, actions: seq<Action>, k: nat)
    requires RunPossible(s, actions) && k < |actions|
    ensures RunPossible(s, actions[..k]) && Possible(Run(s, actions[..k]), actions[k])
    decreases |actions|
  {
    if k < |actions| - 1 {
      PrefixIsPossible(s, actions[..|actions| - 1], k);
      assert actions[..|actions| - 1][..k] == actions[..k];
    }
  }

  lemma FreshIsConserved(limit: nat)
    ensures Inv(Fresh(limit), limit)
  {
    assert DesktopHolders(map[]) == {} && CapacityHolders(map[]) == {};
  }

  // --- What was asked for -------------------------------------------------------

  function Fresh(limit: nat): State { State(1, limit, map[]) }

  /** Where a call stands, by what it did so far. */
  function PhaseOf(actions: seq<Action>, id: nat): Phase {
    if Exit(id) in actions || GiveUp(id) in actions || Discard(id) in actions then Gone
    else if Work(id) in actions then Working
    else if Start(id) in actions then Entered
    else if GetCapacity(id) in actions then Queued
    else if GetDesktop(id) in actions || Begin(id, false) in actions then WaitCapacity
    else WaitDesktop
  }

  /** A call is there once it was begun, needs what was asked for, and stands where its actions have led. */
  ghost predicate Told(calls: map<nat, Call>, actions: seq<Action>, id: nat) {
    && (id in calls <==> Begin(id, true) in actions || Begin(id, false) in actions)
    && (id !in calls ==> forall a | a in actions :: a.id != id)
    && (id in calls ==>
          && calls[id] == Call(Begin(id, true) in actions, PhaseOf(actions, id), Cancel(id) in actions, Abort(id) in actions)
          && !(Begin(id, true) in actions && Begin(id, false) in actions)
          && InTurn(actions, id))
  }

  /** A closure that has started gave up no more, and one that works or has ended had started. */
  ghost predicate InTurn(actions: seq<Action>, id: nat) {
    && (Start(id) in actions ==> GiveUp(id) !in actions && Discard(id) !in actions)
    && (Work(id) in actions || Exit(id) in actions ==> Start(id) in actions)
  }

  /** The actions of one call, before and after one more action. */
  lemma MoreActions(actions: seq<Action>, last: Action)
    ensures forall a :: a in actions + [last] <==> a in actions || a == last
  {}

  lemma StepIsTold(s: State, actions: seq<Action>, last: Action, id: nat)
    requires Possible(s, last) && Told(s.calls, actions, id)
    ensures Told(Next(s, last).calls, actions + [last], id)
  {
    MoreActions(actions, last);
    if last.id == id {
      OwnStepIsTold(s, actions, last);
    } else {
      OtherStepIsTold(s, actions, last, id);
    }
  }

  lemma OwnStepIsTold(s: State, actions: seq<Action>, last: Action)
    requires Possible(s, last) && Told(s.calls, actions, last.id)
    ensures Told(Next(s, last).calls, actions + [last], last.id)
  {
    MoreActions(actions, last);
  }

  lemma OtherStepIsTold(s: State, actions: seq<Action>, last: Action, id: nat)
    requires Possible(s, last) && last.id != id && Told(s.calls, actions, id)
    ensures Told(Next(s, last).calls, actions + [last], id)
  {
    MoreActions(actions, last);
    assert PhaseOf(actions + [last], id) == PhaseOf(actions, id);
  }

  lemma {:induction false} RunIsTold(limit: nat, actions: seq<Action>, id: nat)
    requires RunPossible(Fresh(limit), actions)
    ensures Told(Run(Fresh(limit), actions).calls, actions, id)
    decreases |actions|
  {
    if actions != [] {
      var before, last := actions[..|actions| - 1], actions[|actions| - 1];
      RunIsTold(limit, before, id);
      StepIsTold(Run(Fresh(limit), before), before, last, id);
      assert actions == before + [last];
    }
  }

  /** The closures that have started and not ended. */
  function Underway(actions: seq<Action>): set<nat> {
    set a | a in actions && a.Start? && Exit(a.id) !in actions :: a.id
  }

  /**
   In every run at most `limit` closures are underway at a time, and of the calls
   that asked for the desktop at most one.
   */
  lemma ExecutionIsBounded(actions: seq<Action>, limit: nat, a: nat, b: nat)
    requires RunPossible(Fresh(limit), actions)
    ensures |Underway(actions)| <= limit
    ensures a in Underway(actions) && b in Underway(actions) && Begin(a, true) in actions && Begin(b, true) in actions ==> a == b
  {
    var s := Run(Fresh(limit), actions);
    FreshIsConserved(limit);
    RunKeepsInv(Fresh(limit), actions, limit);
    forall id | id in Underway(actions) ensures id in CapacityHolders(s.calls) {
      RunIsTold(limit, actions, id);
    }
    SubsetIsSmaller(Underway(actions), CapacityHolders(s.calls));
    if a in Underway(actions) && b in Underway(actions) && Begin(a, true) in actions && Begin(b, true) in actions {
      RunIsTold(limit, actions, a);
      RunIsTold(limit, actions, b);
      AtMostOne(DesktopHolders(s.calls), a, b);
    }
  }

  /** Work never begins after its cancellation, nor a task after it was aborted. */
  lemma CanceledNeverBegins(actions: seq<Action>, limit: nat, j: nat, k: nat, id: nat)
    requires RunPossible(Fresh(limit), actions) && j < k < |actions|
    ensures actions[j] == Cancel(id) ==> actions[k] != Work(id)
    ensures actions[j] == Abort(id) ==> actions[k] != Start(id)
  {
    PrefixIsPossible(Fresh(limit), actions, k);
    RunIsTold(limit, actions[..k], id);
    assert actions[j] in actions[..k];
  }

  /** A call that finds both permits free runs to its end, and leaves them free. */
  lemma FreeCallRuns(s: State, id: nat, interactive: bool)
    requires id !in s.calls && s.desktop > 0 && s.capacity > 0
    ensures var actions := [Begin(id, interactive)] + (if interactive then [GetDesktop(id)] else [])
                           + [GetCapacity(id), Start(id), Work(id), Exit(id)];
            && RunPossible(s, actions)
            && var s' := Run(s, actions); s'.desktop == s.desktop && s'.capacity == s.capacity
  {
    var begun := One(s, [], Begin(id, interactive));
    var ready, trace := begun, [Begin(id, interactive)];
    if interactive {
      ready := One(s, trace, GetDesktop(id));
      trace := trace + [GetDesktop(id)];
    }
    var queued := One(s, trace, GetCapacity(id));
    var entered := One(s, trace + [GetCapacity(id)], Start(id));
    var working := One(s, trace + [GetCapacity(id)] + [Start(id)], Work(id));
    var done := One(s, trace + [GetCapacity(id)] + [Start(id)] + [Work(id)], Exit(id));
    assert trace + [GetCapacity(id)] + [Start(id)] + [Work(id)] + [Exit(id)]
        == [Begin(id, interactive)] + (if interactive then [GetDesktop(id)] else [])
           + [GetCapacity(id), Start(id), Work(id), Exit(id)];
  }

  lemma One(s: State, actions: seq<Action>, last: Action) returns (s': State)
    requires RunPossible(s, actions) && Possible(Run(s, actions), last)
    ensures RunPossible(s, actions + [last]) && s' == Next(Run(s, actions), last) == Run(s, actions + [last])
  {
    assert (actions + [last])[..|actions|] == actions;
    s' := Next(Run(s, actions), last);
  }

  lemma AtMostOne(ids: set<nat>, a: nat, b: nat)
    requires |ids| <= 1 && a in ids && b in ids
    ensures a == b
  {
    if a != b {
      assert |{a, b}| == 2;
      SubsetIsSmaller({a, b}, ids);
    }
  }

  /** Capacity comes back only when a closure exits or is discarded before it started, and then it does. */
  lemma CapacityComesBack(s: State, a: Action)
    requires Possible(s, a)
    ensures Next(s, a).capacity > s.capacity <==> a.Exit? || a.Discard?
    ensures Next(s, a).desktop > s.desktop ==> a.Exit? || a.Discard? || (a.GiveUp? && s.calls[a.id].phase.WaitCapacity?)
  {}

  /** With nobody left, every permit is back. */
  lemma AllComesBack(s: State, limit: nat)
    requires Inv(s, limit) && forall id | id in s.calls :: s.calls[id].phase.Gone?
    ensures s.desktop == 1 && s.capacity == limit
  {
    assert DesktopHolders(s.calls) == {} && CapacityHolders(s.calls) == {};
  }

  /** `a` waits for a permit that `b` holds. */
  predicate WaitsFor(s: State, a: nat, b: nat) {
    && a in s.calls && b in s.calls
    && ((s.calls[a].phase.WaitDesktop? && s.calls[b].HoldsDesktop())
        || (s.calls[a].phase.WaitCapacity? && s.calls[b].HoldsCapacity()))
  }

  function Rank(call: Call): nat {
    if call.phase.WaitDesktop? then 2 else if call.phase.WaitCapacity? then 1 else 0
  }

  ghost predicate WaitChain(s: State, chain: seq<nat>) {
    && |chain| > 0
    && (forall k | 0 <= k < |chain| :: chain[k] in s.calls)
    && (forall k | 0 <= k < |chain| - 1 :: WaitsFor(s, chain[k], chain[k + 1]))
  }

  /** Waiting never goes in a circle, nor through more than three calls. */
  lemma {:induction false} NoCircularWait(s: State, chain: seq<nat>)
    requires WaitChain(s, chain) && |chain| > 1
    ensures chain[0] != chain[|chain| - 1] && |chain| <= 3
    ensures Rank(s.calls[chain[|chain| - 1]]) + |chain| - 1 <= Rank(s.calls[chain[0]])
  {
    assert WaitsFor(s, chain[0], chain[1]);
    if |chain| > 2 {
      NoCircularWait(s, chain[1..]);
    }
  }

  /** Whenever a call waits, some waiter can get its permit or some closure can go on. */
  lemma SomebodyMoves(s: State, limit: nat, id: nat) returns (a: Action)
    requires Inv(s, limit) && limit > 0 && id in s.calls && s.calls[id].Waits()
    ensures Possible(s, a) && (a.GetDesktop? || a.GetCapacity? || a.Start? || a.Exit? || a.Discard?)
  {
    if s.calls[id].phase.WaitCapacity? {
      a := CapacityMoves(s, limit, id);
    } else if s.desktop > 0 {
      a := GetDesktop(id);
    } else {
      assert DesktopHolders(s.calls) != {};
      var holder :| holder in DesktopHolders(s.calls);
      if s.calls[holder].phase.WaitCapacity? {
        a := CapacityMoves(s, limit, holder);
      } else {
        a := ClosureMoves(s, holder);
      }
    }
  }

  lemma CapacityMoves(s: State, limit: nat, id: nat) returns (a: Action)
    requires Inv(s, limit) && limit > 0 && id in s.calls && s.calls[id].phase.WaitCapacity?
    ensures Possible(s, a) && (a.GetCapacity? || a.Start? || a.Exit? || a.Discard?)
  {
    if s.capacity > 0 {
      a := GetCapacity(id);
    } else {
      assert CapacityHolders(s.calls) != {};
      var holder :| holder in CapacityHolders(s.calls);
      a := ClosureMoves(s, holder);
    }
  }

  lemma ClosureMoves(s: State, id: nat) returns (a: Action)
    requires id in s.calls && s.calls[id].HoldsCapacity()
    ensures Possible(s, a) && (a.Start? || a.Exit? || a.Discard?)
  {
    a := if s.calls[id].Executes() then Exit(id) else if s.calls[id].aborted then Discard(id) else Start(id);
  }

  /** Work that was canceled before it began never begins, and a task aborted while queued never starts. */
  lemma {:induction false} CanceledNeverWorks(s: State, actions: seq<Action>, id: nat)
    requires RunPossible(s, actions) && id in s.calls && s.calls[id].canceled && !s.calls[id].phase.Working?
    requires !s.calls[id].Waits()
    ensures var s' := Run(s, actions);
            && id in s'.calls && s'.calls[id].canceled && !s'.calls[id].phase.Working? && !s'.calls[id].Waits()
            && (s.calls[id].aborted ==> s'.calls[id].aborted)
            && (s.calls[id].aborted && s.calls[id].phase.Queued? ==> s'.calls[id].phase.Queued? || s'.calls[id].phase.Gone?)
    decreases |actions|
  {
    if actions != [] {
      var before := actions[..|actions| - 1];
      CanceledNeverWorks(s, before, id);
      CanceledStep(Run(s, before), actions[|actions| - 1], id);
    }
  }

  lemma CanceledStep(s: State, a: Action, id: nat)
    requires Possible(s, a) && id in s.calls && s.calls[id].canceled && !s.calls[id].phase.Working? && !s.calls[id].Waits()
    ensures var call := Next(s, a).calls[id];
            && call.canceled && !call.phase.Working? && !call.Waits()
            && (s.calls[id].aborted ==> call.aborted)
            && (s.calls[id].aborted && (s.calls[id].phase.Queued? || s.calls[id].phase.Gone?) ==> call.phase.Queued? || call.phase.Gone?)
  {}
}
