/**
 The slot of src/desktop/ocr.rs that allows one native recognition at a time. It
 is shared by the caller and by the completion callback, and goes back to idle
 when the last of them lets go, if it is then known that nothing is running.
 */
module OcrSlot {
  datatype Slot = Idle | Active | Quarantined

  /** The native operation of one call; the slot's code sees only whether it was started. */
  datatype Operation = NotStarted | Running | Done

  /** One call of the recognizer: its flags, and who still holds it. */
  datatype Flight = Flight(
    started: bool, completed: bool, caller: bool, callback: bool, operation: Operation)
  {
    predicate Held() { caller || callback }
  }

  datatype State = State(slot: Slot, flights: map<nat, Flight>)

  const INITIAL: State := State(Idle, map[])

  datatype Action =
    | Acquire(id: nat)
    | Launch(id: nat)
    | Register(id: nat)
    | RegisterFails(id: nat)
    | NativeEnds(id: nat)
    | CallbackRuns(id: nat)
    | CallbackReleased(id: nat)
    | ConnectionLost(id: nat)
    | CallerLeaves(id: nat)

  /**
   What can happen. The caller starts the operation and hands a second hold to
   the callback; the callback runs only when the operation has ended, but may be
   dropped without running; the caller may leave at any time.
   */
  predicate Possible(s: State, a: Action) {
    match a
    case Acquire(id) => id !in s.flights
    case Launch(id) => id in s.flights && s.flights[id].caller && !s.flights[id].started
    case Register(id) =>
      id in s.flights && s.flights[id].caller && s.flights[id].started && !s.flights[id].callback && !s.flights[id].completed
    case RegisterFails(id) => id in s.flights && s.flights[id].caller && s.flights[id].started && !s.flights[id].callback
    case NativeEnds(id) => id in s.flights && s.flights[id].operation.Running?
    case CallbackRuns(id) => id in s.flights && s.flights[id].callback && s.flights[id].operation.Done?
    case CallbackReleased(id) => id in s.flights && s.flights[id].callback
    case ConnectionLost(id) => id in s.flights && s.flights[id].caller && s.flights[id].started
    case CallerLeaves(id) => id in s.flights && s.flights[id].caller
  }

  /** The last hold is gone: idle only if nothing was started or its completion ran. */
  function Dropped(slot: Slot, f: Flight): Slot {
    if slot != Active then slot
    else if !f.started || f.completed then Idle
    else Quarantined
  }

  function Updated(s: State, id: nat, f: Flight): State {
    State(if f.Held() then s.slot else Dropped(s.slot, f), s.flights[id := f])
  }

  function Next(s: State, a: Action): State
    requires Possible(s, a)
  {
    match a
    case Acquire(id) =>
      if s.slot == Idle then State(Active, s.flights[id := Flight(false, false, true, false, NotStarted)]) else s
    case Launch(id) => Updated(s, id, s.flights[id].(started := true, operation := Running))
    case Register(id) => Updated(s, id, s.flights[id].(callback := true))
    case RegisterFails(id) => s.(slot := Quarantined)
    case NativeEnds(id) => s.(flights := s.flights[id := s.flights[id].(operation := Done)])
    case CallbackRuns(id) => Updated(s, id, s.flights[id].(completed := true))
    case CallbackReleased(id) => Updated(s, id, s.flights[id].(callback := false))
    case ConnectionLost(id) => s.(slot := Quarantined)
    case CallerLeaves(id) => Updated(s, id, s.flights[id].(caller := false))
  }

  ghost predicate FlightOk(f: Flight) {
    && (!f.started <==> f.operation.NotStarted?)
    && (f.completed ==> f.operation.Done?)
  }

  ghost predicate Inv(s: State) {
    && (forall id | id in s.flights :: FlightOk(s.flights[id]))
    && (forall id | id in s.flights && s.flights[id].Held() :: s.slot != Idle)
    && (forall id | id in s.flights && s.flights[id].operation.Running? :: s.slot != Idle)
    && (forall a, b | a in s.flights && b in s.flights && s.flights[a].Held() && s.flights[b].Held() :: a == b)
    && (forall a, b | a in s.flights && b in s.flights && s.flights[a].operation.Running? && s.flights[b].operation.Running? ::
          a == b)
    && (forall a, b | a in s.flights && b in s.flights && s.flights[a].operation.Running? && s.flights[b].Held() :: a == b)
  }

  lemma StepKeepsInv(s: State, a: Action)
    requires Inv(s) && Possible(s, a)
    ensures Inv(Next(s, a))
  {
    OthersStay(s, a);
    assert forall id | id in Next(s, a).flights :: FlightOk(Next(s, a).flights[id]);
  }

  lemma OthersStay(s: State, a: Action)
    requires Possible(s, a)
    ensures forall id | id in s.flights && id != a.id :: id in Next(s, a).flights && Next(s, a).flights[id] == s.flights[id]
    ensures forall id | id in Next(s, a).flights && id != a.id :: id in s.flights
  {}

  ghost predicate RunPossible(s: State, actions: seq<Action>)
    decreases |actions|
  {
    actions != [] ==> Possible(s, actions[0]) && RunPossible(Next(s, actions[0]), actions[1..])
  }

  ghost function Run(s: State, actions: seq<Action>): State
    requires RunPossible(s, actions)
    decreases |actions|
  {
    if actions == [] then s else Run(Next(s, actions[0]), actions[1..])
  }

  lemma {:induction false} RunKeepsInv(s: State, actions: seq<Action>)
    requires Inv(s) && RunPossible(s, actions)
    ensures Inv(Run(s, actions))
    decreases |actions|
  {
    if actions != [] {
      StepKeepsInv(s, actions[0]);
      RunKeepsInv(Next(s, actions[0]), actions[1..]);
    }
  }

  /** In every reachable state at most one native operation is running, and none while the slot is idle. */
  lemma OneOperation(actions: seq<Action>, a: nat, b: nat)
    requires RunPossible(INITIAL, actions)
    ensures var s := Run(INITIAL, actions);
            && (a in s.flights && b in s.flights && s.flights[a].operation.Running? && s.flights[b].operation.Running? ==>
                  a == b)
            && (s.slot == Idle && a in s.flights ==> !s.flights[a].operation.Running? && !s.flights[a].Held())
  {
    RunKeepsInv(INITIAL, actions);
  }

  /** The slot becomes idle only by the last release of a call that started nothing or whose completion ran. */
  lemma IdleIsEarned(s: State, a: Action)
    requires Inv(s) && Possible(s, a) && s.slot != Idle && Next(s, a).slot == Idle
    ensures s.slot == Active && (a.CallbackReleased? || a.CallerLeaves?)
    ensures var f := Next(s, a).flights[a.id];
            !f.Held() && (f.operation.NotStarted? || f.completed) && !f.operation.Running?
  {}

  /** And it does not stay occupied: that release always frees an active slot. */
  lemma IdleIsReached(s: State, a: Action)
    requires Inv(s) && Possible(s, a) && s.slot == Active && (a.CallbackReleased? || a.CallerLeaves?)
    requires !Next(s, a).flights[a.id].Held()
    ensures Next(s, a).slot ==
              if s.flights[a.id].operation.NotStarted? || s.flights[a.id].completed then Idle else Quarantined
  {
    assert FlightOk(s.flights[a.id]);
  }

  /** Once quarantined, the slot is never used again. */
  lemma {:induction false} QuarantineIsFinal(s: State, actions: seq<Action>)
    requires RunPossible(s, actions) && s.slot == Quarantined
    ensures Run(s, actions).slot == Quarantined && Run(s, actions).flights.Keys == s.flights.Keys
    decreases |actions|
  {
    if actions != [] {
      QuarantineIsFinal(Next(s, actions[0]), actions[1..]);
    }
  }

  /** A failure to register the callback, or a lost connection, quarantines the slot for good. */
  lemma {:induction false} TroubleIsFinal(s: State, actions: seq<Action>, id: nat)
    requires RunPossible(s, actions) && (RegisterFails(id) in actions || ConnectionLost(id) in actions)
    ensures Run(s, actions).slot == Quarantined
    decreases |actions|
  {
    if actions[0] == RegisterFails(id) || actions[0] == ConnectionLost(id) {
      QuarantineIsFinal(Next(s, actions[0]), actions[1..]);
    } else {
      TroubleIsFinal(Next(s, actions[0]), actions[1..], id);
    }
  }

  /** The two holds let go, in either order. */
  function LetGo(id: nat, callerFirst: bool): seq<Action> {
    if callerFirst then [CallerLeaves(id), CallbackReleased(id)] else [CallbackReleased(id), CallerLeaves(id)]
  }

  /** One recognition that goes well. */
  function GoodCall(id: nat, callerFirst: bool): seq<Action> {
    [Acquire(id)] + ([Launch(id)] + ([Register(id)] + ([NativeEnds(id)] + ([CallbackRuns(id)] + LetGo(id, callerFirst)))))
  }

  /** An idle slot can be used, and a call that goes well leaves it idle for the next. */
  lemma SlotServes(s: State, id: nat, callerFirst: bool)
    requires s.slot == Idle && id !in s.flights
    ensures RunPossible(s, GoodCall(id, callerFirst))
    ensures var s' := Run(s, GoodCall(id, callerFirst));
            s'.slot == Idle && s'.flights == s.flights[id := Flight(true, true, false, false, Done)]
  {
    var launched := Next(Next(s, Acquire(id)), Launch(id));
    CallbackServes(launched, id, callerFirst);
    var rest := [Register(id)] + ([NativeEnds(id)] + ([CallbackRuns(id)] + LetGo(id, callerFirst)));
    FirstOf(Next(s, Acquire(id)), Launch(id), rest);
    FirstOf(s, Acquire(id), [Launch(id)] + rest);
    assert s.flights[id := Flight(true, true, false, false, Done)] == launched.flights[id := Flight(true, true, false, false, Done)];
  }

  lemma CallbackServes(s: State, id: nat, callerFirst: bool)
    requires s.slot == Active && id in s.flights && s.flights[id] == Flight(true, false, true, false, Running)
    ensures var rest := [Register(id)] + ([NativeEnds(id)] + ([CallbackRuns(id)] + LetGo(id, callerFirst)));
            && RunPossible(s, rest)
            && Run(s, rest) == State(Idle, s.flights[id := Flight(true, true, false, false, Done)])
  {
    var registered := Next(s, Register(id));
    var ended := Next(registered, NativeEnds(id));
    var called := Next(ended, CallbackRuns(id));
    LastHolds(called, id, callerFirst);
    FirstOf(ended, CallbackRuns(id), LetGo(id, callerFirst));
    FirstOf(registered, NativeEnds(id), [CallbackRuns(id)] + LetGo(id, callerFirst));
    FirstOf(s, Register(id), [NativeEnds(id)] + ([CallbackRuns(id)] + LetGo(id, callerFirst)));
    assert called.flights[id := Flight(true, true, false, false, Done)] == s.flights[id := Flight(true, true, false, false, Done)];
  }

  lemma FirstOf(s: State, a: Action, rest: seq<Action>)
    requires Possible(s, a) && RunPossible(Next(s, a), rest)
    ensures RunPossible(s, [a] + rest) && Run(s, [a] + rest) == Run(Next(s, a), rest)
  {
    assert ([a] + rest)[1..] == rest;
  }

  lemma LastHolds(s: State, id: nat, callerFirst: bool)
    requires id in s.flights && s.flights[id] == Flight(true, true, true, true, Done) && s.slot == Active
    ensures RunPossible(s, LetGo(id, callerFirst))
    ensures Run(s, LetGo(id, callerFirst)) == State(Idle, s.flights[id := Flight(true, true, false, false, Done)])
  {
    var first, second: Action := CallerLeaves(id), CallbackReleased(id);
    if !callerFirst {
      first, second := second, first;
    }
    var s1 := Next(s, first);
    var s2 := Next(s1, second);
    FirstOf(s1, second, []);
    FirstOf(s, first, [second]);
    assert [second] + [] == [second] && [first] + [second] == [first, second];
    assert s2.flights == s.flights[id := Flight(true, true, false, false, Done)];
  }

  /** A slot in use or quarantined is given to nobody. */
  lemma BusyIsRefused(s: State, id: nat)
    requires Possible(s, Acquire(id))
    ensures s.slot == Idle <==> id in Next(s, Acquire(id)).flights
    ensures s.slot != Idle ==> Next(s, Acquire(id)) == s
  {}
}
