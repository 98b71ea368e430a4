/**
 Carrying the log across a host restart: a snapshot keeps what is persistent,
 and restoring it rebuilds a valid log in which every reader is told that the
 recording was interrupted.
 */
module ObservationRestart {
  import opened Wrappers
  import opened FiniteSets
  import opened JsonValue
  import opened ObservationLog
  import opened ObservationAccounting
  import opened ObservationHistory
  import opened ObservationRead
  import opened ObservationWaits

  const U64_MAX: nat := 0xFFFF_FFFF_FFFF_FFFF

  datatype SavedWatch = SavedWatch(id: Uuid, watch: Watch)

  datatype SavedWait = SavedWait(id: Uuid, wait: Wait)

  datatype Snapshot = Snapshot(
    version: nat, epoch: Uuid, nextId: nat, droppedEvents: nat, droppedBytes: nat,
    watches: seq<SavedWatch>, waits: seq<SavedWait>, events: seq<Event>)

  datatype RestoreError =
    | UnsupportedVersion | OverLimits | InvalidCursor | NoRoomForMarkers
    | ConnectionWatch | InvalidWatch | DuplicateWatch
    | ConnectionWait | InvalidWaitFilter | DuplicateWait
    | EventOrder | EventWithoutWatch | OverBytes

  // --- Taking a snapshot --------------------------------------------------

  predicate IsLeast(keys: set<Uuid>, x: Uuid) {
    x in keys && forall k | k in keys :: x <= k
  }

  lemma {:induction false} HasLeast(keys: set<Uuid>)
    requires keys != {}
    ensures exists x :: IsLeast(keys, x)
  {
    var x :| x in keys;
    if keys == {x} {
      assert IsLeast(keys, x);
    } else {
      HasLeast(keys - {x});
      var y :| IsLeast(keys - {x}, y);
      assert forall k | k in keys :: k == x || k in keys - {x};
      assert IsLeast(keys, if x < y then x else y);
    }
  }

  ghost predicate Sorted(order: seq<Uuid>) {
    forall i, j | 0 <= i < j < |order| :: order[i] < order[j]
  }

  ghost predicate Lists(order: seq<Uuid>, keys: set<Uuid>) {
    |order| == |keys| && forall k :: k in order <==> k in keys
  }

  lemma ConsLists(x: Uuid, rest: seq<Uuid>, keys: set<Uuid>)
    requires IsLeast(keys, x) && Sorted(rest) && Lists(rest, keys - {x})
    ensures Sorted([x] + rest) && Lists([x] + rest, keys)
  {
    assert forall i | 0 <= i < |rest| :: rest[i] in rest;
  }

  /** The keys of an ordered map, in order. */
  function InOrder(keys: set<Uuid>): (order: seq<Uuid>)
    ensures Sorted(order) && Lists(order, keys)
  {
    if keys == {} then []
    else
      HasLeast(keys);
      var x :| IsLeast(keys, x);
      ConsLists(x, InOrder(keys - {x}), keys);
      [x] + InOrder(keys - {x})
  }

  function Kept(log: Log): set<Uuid> { set w | w in log.watches && log.watches[w].lifetime == Persistent }

  function KeptWaits(ws: Waits): set<Uuid> { set id | id in ws.records && ws.records[id].spec.lifetime == Persistent }

  /** The entries of a set of watches, in order. */
  function EntriesOf(es: seq<Entry>, keys: set<Uuid>): seq<Entry> {
    if es == [] then []
    else (if es[0].event.watch in keys then [es[0]] else []) + EntriesOf(es[1..], keys)
  }

  function EventsOf(es: seq<Entry>): (events: seq<Event>)
    ensures |events| == |es|
    ensures forall i | 0 <= i < |es| :: events[i] == es[i].event
  {
    if es == [] then [] else [es[0].event] + EventsOf(es[1..])
  }

  function SavedWatches(watches: map<Uuid, Watch>, order: seq<Uuid>): seq<SavedWatch>
    requires forall w | w in order :: w in watches
  {
    seq(|order|, i requires 0 <= i < |order| => SavedWatch(order[i], watches[order[i]]))
  }

  function SavedWaits(waits: map<Uuid, Wait>, order: seq<Uuid>): seq<SavedWait>
    requires forall id | id in order :: id in waits
  {
    seq(|order|, i requires 0 <= i < |order| => SavedWait(order[i], waits[order[i]]))
  }

  function Taken(log: Log, ws: Waits): Snapshot {
    Snapshot(1, log.epoch, log.nextId, log.droppedEvents, log.droppedBytes,
             SavedWatches(log.watches, InOrder(Kept(log))), SavedWaits(ws.records, InOrder(KeptWaits(ws))),
             EventsOf(EntriesOf(log.events, Kept(log))))
  }

  // --- Restoring one ------------------------------------------------------

  const INTERRUPTED: string := "host restarted: recording interrupted; watcher was not replayed"

  function Interrupted(watch: Watch): Watch {
    var counted := watch.(retainedEvents := 0, retainedBytes := 0);
    if watch.status.Active() then
      counted.(status := WatchStatus.Failed,
               error := Some(INTERRUPTED))
    else counted
  }

  function InterruptedWait(wait: Wait): Wait {
    if wait.outcome == Running then wait.(outcome := Outcome.Failed, error := Some(HostRestarted)) else wait
  }

  function ResumedWaits(ws: Waits): map<Uuid, Wait> {
    map id | id in KeptWaits(ws) :: InterruptedWait(ws.records[id])
  }

  function LoadedWatches(watches: map<Uuid, Watch>, saved: seq<SavedWatch>): Result<map<Uuid, Watch>, RestoreError>
    decreases |saved|
  {
    if saved == [] then Ok(watches)
    else if saved[0].watch.lifetime != Persistent then Err(ConnectionWatch)
    else if !saved[0].watch.limits.Accepted() then Err(InvalidWatch)
    else if saved[0].id in watches then Err(DuplicateWatch)
    else LoadedWatches(watches[saved[0].id := Interrupted(saved[0].watch)], saved[1..])
  }

  function LoadedWaits(codec: Codec, waits: map<Uuid, Wait>, saved: seq<SavedWait>): Result<map<Uuid, Wait>, RestoreError>
    decreases |saved|
  {
    if saved == [] then Ok(waits)
    else if saved[0].wait.spec.lifetime != Persistent then Err(ConnectionWait)
    else if !saved[0].wait.spec.filter.Accepted(codec) then Err(InvalidWaitFilter)
    else if saved[0].id in waits then Err(DuplicateWait)
    else LoadedWaits(codec, waits[saved[0].id := InterruptedWait(saved[0].wait)], saved[1..])
  }

  /** One retained event put back without eviction. */
  function Reloaded(log: Log, entry: Entry): Log {
    var w := entry.event.watch;
    log.(events := log.events + [entry],
         bytes := log.bytes + entry.bytes,
         watches := if w !in log.watches then log.watches
                    else log.watches[w := log.watches[w].(retainedEvents := log.watches[w].retainedEvents + 1,
                                                          retainedBytes := log.watches[w].retainedBytes + entry.bytes)])
  }

  function LoadedEvents(codec: Codec, log: Log, events: seq<Event>, previous: nat): Result<Log, RestoreError>
    decreases |events|
  {
    if events == [] then Ok(log)
    else
      var e := events[0];
      var bytes := codec.event(e);
      if !(previous < e.id < log.nextId) then Err(EventOrder)
      else if e.watch !in log.watches then Err(EventWithoutWatch)
      else if bytes > MAX_EVENT_BYTES || log.bytes + bytes > MAX_BYTES then Err(OverBytes)
      else LoadedEvents(codec, Reloaded(log, Entry(e, bytes)), events[1..], e.id)
  }

  function MarkerPayload(previousEpoch: Uuid): Json {
    Object(map["reason" := Str("host_restarted"), "previous_epoch" := Num(previousEpoch),
                   "lost_count" := Null, "replayed" := Bool(false)])
  }

  /** What a restart gap says: that the host restarted, from which epoch, that the loss is unknown and nothing was replayed. */
  lemma MarkerSays(previousEpoch: Uuid)
    ensures MarkerPayload(previousEpoch).Object?
    ensures var says := MarkerPayload(previousEpoch).fields;
            && says.Keys == {"reason", "previous_epoch", "lost_count", "replayed"}
            && says["reason"] == Str("host_restarted") && says["previous_epoch"] == Num(previousEpoch)
            && says["lost_count"] == Null && says["replayed"] == Bool(false)
  {
    assert |"reason"| == 6 && |"previous_epoch"| == 14 && |"lost_count"| == 10 && |"replayed"| == 8;
  }

  /** A restart gap appended for each watch. */
  function Markers(codec: Codec, log: Log, order: seq<Uuid>, now: nat, previousEpoch: Uuid): Log
    decreases |order|
  {
    if order == [] then log
    else Markers(codec, Appended(codec, log, order[0], now, GAP, NO_TARGET, MarkerPayload(previousEpoch)), order[1..], now, previousEpoch)
  }

  datatype Restored = Restored(log: Log, waits: map<Uuid, Wait>)

  /** What is checked before anything is loaded. */
  function Refused(snap: Snapshot): Option<RestoreError> {
    if snap.version != 1 then Some(UnsupportedVersion)
    else if |snap.watches| > MAX_RECORDS || |snap.waits| > MAX_RECORDS || |snap.events| > MAX_EVENTS then Some(OverLimits)
    else if snap.nextId == 0 then Some(InvalidCursor)
    else if snap.nextId >= U64_MAX - |snap.watches| then Some(NoRoomForMarkers)
    else None
  }

  function Hollow(snap: Snapshot, epoch: Uuid, watches: map<Uuid, Watch>): Log {
    Log(epoch, snap.nextId, 0, snap.droppedEvents, snap.droppedBytes, [], watches, {})
  }

  function Restore(codec: Codec, snap: Snapshot, epoch: Uuid, now: nat): Result<Restored, RestoreError> {
    if Refused(snap).Some? then Err(Refused(snap).value)
    else
      match LoadedWatches(map[], snap.watches)
      case Err(e) => Err(e)
      case Ok(watches) =>
        match LoadedWaits(codec, map[], snap.waits)
        case Err(e) => Err(e)
        case Ok(waits) =>
          match LoadedEvents(codec, Hollow(snap, epoch, watches), snap.events, 0)
          case Err(e) => Err(e)
          case Ok(log) => Ok(Restored(Markers(codec, log, InOrder(log.watches.Keys), now, snap.epoch), waits))
  }

  // --- Lengths are those of the encoder -----------------------------------

  ghost predicate Encoded(codec: Codec, es: seq<Entry>) {
    forall entry | entry in es :: entry.bytes == codec.event(entry.event)
  }

  lemma AppendKeepsEncoded(codec: Codec, log: Log, w: Uuid, now: nat, kind: string, target: Target, payload: Json)
    requires codec.GapsFit() && Valid(log) && Encoded(codec, log.events)
    ensures Encoded(codec, Appended(codec, log, w, now, kind, target, payload).events)
  {
    if w in log.watches {
      var entry := NewEntry(codec, log, w, now, kind, target, payload);
      OwnEvictionReduces(Issued(log), w, entry.bytes);
      FrontEvictionReduces(OwnEvicted(Issued(log), w, entry.bytes), entry.bytes);
    }
  }

  lemma StepKeepsEncoded(codec: Codec, log: Log, past: Past, op: Op)
    requires codec.GapsFit() && Good(log, past) && Enabled(past, op) && Encoded(codec, log.events)
    ensures Encoded(codec, Applied(codec, log, op).events)
  {
    PreparationKeepsGood(log, past, op);
    PreparationKeepsEvents(log, op);
    match Emission(log, op)
    case None => SilentStep(codec, log, past, op);
    case Some(s) => AppendKeepsEncoded(codec, Prepared(log, op), s.watch, s.now, s.kind, s.target, s.payload);
  }

  lemma PreparationKeepsEvents(log: Log, op: Op)
    ensures forall entry | entry in Prepared(log, op).events :: entry in log.events
  {
    if op.Finish? {
      EmptyingReduces(Halted(log, op.watch), op.watch);
    } else if op.CloseForget? || op.Remove? {
      EmptyingReduces(log, op.watch);
    }
  }

  // --- What loading yields ------------------------------------------------

  function WatchIds(saved: seq<SavedWatch>): set<Uuid> { set x | x in saved :: x.id }

  function WaitIds(saved: seq<SavedWait>): set<Uuid> { set x | x in saved :: x.id }

  ghost predicate NewWatches(watches: map<Uuid, Watch>, saved: seq<SavedWatch>) {
    && (forall i | 0 <= i < |saved| ::
          saved[i].watch.lifetime == Persistent && saved[i].watch.limits.Accepted() && saved[i].id !in watches)
    && (forall i, j | 0 <= i < j < |saved| :: saved[i].id != saved[j].id)
  }

  lemma NewWatchesTail(watches: map<Uuid, Watch>, saved: seq<SavedWatch>, watch: Watch)
    requires NewWatches(watches, saved) && saved != []
    ensures NewWatches(watches[saved[0].id := watch], saved[1..])
    ensures WatchIds(saved) == {saved[0].id} + WatchIds(saved[1..])
  {
    assert saved == [saved[0]] + saved[1..];
    assert forall i | 0 <= i < |saved| - 1 :: saved[1..][i] == saved[i + 1];
  }

  ghost predicate WatchesLoaded(before: map<Uuid, Watch>, saved: seq<SavedWatch>, after: map<Uuid, Watch>) {
    && after.Keys == before.Keys + WatchIds(saved)
    && (forall w | w in before :: w in after && after[w] == before[w])
    && (forall i | 0 <= i < |saved| :: saved[i].id in after && after[saved[i].id] == Interrupted(saved[i].watch))
  }

  lemma WatchesLoadedCons(before: map<Uuid, Watch>, saved: seq<SavedWatch>, after: map<Uuid, Watch>)
    requires saved != [] && saved[0].id !in before && WatchIds(saved) == {saved[0].id} + WatchIds(saved[1..])
    requires WatchesLoaded(before[saved[0].id := Interrupted(saved[0].watch)], saved[1..], after)
    ensures WatchesLoaded(before, saved, after)
  {
    assert forall i | 0 < i < |saved| :: saved[i] == saved[1..][i - 1];
  }

  lemma {:induction false} WatchesLoad(watches: map<Uuid, Watch>, saved: seq<SavedWatch>)
    requires NewWatches(watches, saved)
    ensures LoadedWatches(watches, saved).Ok? && WatchesLoaded(watches, saved, LoadedWatches(watches, saved).value)
    decreases |saved|
  {
    if saved != [] {
      NewWatchesTail(watches, saved, Interrupted(saved[0].watch));
      WatchesLoad(watches[saved[0].id := Interrupted(saved[0].watch)], saved[1..]);
      WatchesLoadedCons(watches, saved, LoadedWatches(watches, saved).value);
    }
  }

  ghost predicate NewWaits(codec: Codec, waits: map<Uuid, Wait>, saved: seq<SavedWait>) {
    && (forall i | 0 <= i < |saved| ::
          saved[i].wait.spec.lifetime == Persistent && saved[i].wait.spec.filter.Accepted(codec) && saved[i].id !in waits)
    && (forall i, j | 0 <= i < j < |saved| :: saved[i].id != saved[j].id)
  }

  lemma NewWaitsTail(codec: Codec, waits: map<Uuid, Wait>, saved: seq<SavedWait>, wait: Wait)
    requires NewWaits(codec, waits, saved) && saved != []
    ensures NewWaits(codec, waits[saved[0].id := wait], saved[1..])
    ensures WaitIds(saved) == {saved[0].id} + WaitIds(saved[1..])
  {
    assert saved == [saved[0]] + saved[1..];
    assert forall i | 0 <= i < |saved| - 1 :: saved[1..][i] == saved[i + 1];
  }

  ghost predicate WaitsLoaded(before: map<Uuid, Wait>, saved: seq<SavedWait>, after: map<Uuid, Wait>) {
    && after.Keys == before.Keys + WaitIds(saved)
    && (forall id | id in before :: id in after && after[id] == before[id])
    && (forall i | 0 <= i < |saved| :: saved[i].id in after && after[saved[i].id] == InterruptedWait(saved[i].wait))
  }

  lemma WaitsLoadedCons(before: map<Uuid, Wait>, saved: seq<SavedWait>, after: map<Uuid, Wait>)
    requires saved != [] && saved[0].id !in before && WaitIds(saved) == {saved[0].id} + WaitIds(saved[1..])
    requires WaitsLoaded(before[saved[0].id := InterruptedWait(saved[0].wait)], saved[1..], after)
    ensures WaitsLoaded(before, saved, after)
  {
    assert forall i | 0 < i < |saved| :: saved[i] == saved[1..][i - 1];
  }

  lemma {:induction false} WaitsLoad(codec: Codec, waits: map<Uuid, Wait>, saved: seq<SavedWait>)
    requires NewWaits(codec, waits, saved)
    ensures LoadedWaits(codec, waits, saved).Ok? && WaitsLoaded(waits, saved, LoadedWaits(codec, waits, saved).value)
    decreases |saved|
  {
    if saved != [] {
      NewWaitsTail(codec, waits, saved, InterruptedWait(saved[0].wait));
      WaitsLoad(codec, waits[saved[0].id := InterruptedWait(saved[0].wait)], saved[1..]);
      WaitsLoadedCons(waits, saved, LoadedWaits(codec, waits, saved).value);
    }
  }

  function Regained(watch: Watch, own: seq<Entry>): Watch {
    watch.(retainedEvents := watch.retainedEvents + |own|, retainedBytes := watch.retainedBytes + SumBytes(own))
  }

  /** A log after putting back a sequence of entries. */
  function Refilled(log: Log, es: seq<Entry>): Log
    decreases |es|
  {
    if es == [] then log else Refilled(Reloaded(log, es[0]), es[1..])
  }

  lemma RegainedStep(watch: Watch, es: seq<Entry>, w: Uuid)
    requires es != []
    ensures es[0].event.watch == w ==>
              Regained(watch, Own(es, w))
              == Regained(watch.(retainedEvents := watch.retainedEvents + 1, retainedBytes := watch.retainedBytes + es[0].bytes),
                          Own(es[1..], w))
    ensures es[0].event.watch != w ==> Regained(watch, Own(es, w)) == Regained(watch, Own(es[1..], w))
  {
    SumAppend([es[0]], Own(es[1..], w));
    assert [] + Own(es[1..], w) == Own(es[1..], w);
  }

  lemma ReloadedShape(log: Log, entry: Entry)
    requires entry.event.watch in log.watches
    ensures var r := Reloaded(log, entry);
            && r.events == log.events + [entry] && r.bytes == log.bytes + entry.bytes
            && r.nextId == log.nextId && r.watches.Keys == log.watches.Keys
  {}

  lemma {:induction false} RefilledShape(log: Log, es: seq<Entry>)
    requires forall i | 0 <= i < |es| :: es[i].event.watch in log.watches
    ensures var r := Refilled(log, es);
            && r.events == log.events + es && r.bytes == log.bytes + SumBytes(es)
            && r.nextId == log.nextId && r.watches.Keys == log.watches.Keys
    decreases |es|
  {
    if es == [] {
      assert log.events + es == log.events;
    } else {
      ReloadedShape(log, es[0]);
      RefilledShape(Reloaded(log, es[0]), es[1..]);
      assert log.events + es == (log.events + [es[0]]) + es[1..];
    }
  }

  lemma {:induction false} RefilledWatch(log: Log, es: seq<Entry>, w: Uuid)
    requires w in log.watches && forall i | 0 <= i < |es| :: es[i].event.watch in log.watches
    ensures w in Refilled(log, es).watches && Refilled(log, es).watches[w] == Regained(log.watches[w], Own(es, w))
    decreases |es|
  {
    if es != [] {
      ReloadedShape(log, es[0]);
      RegainedStep(log.watches[w], es, w);
      RefilledWatch(Reloaded(log, es[0]), es[1..], w);
    }
  }

  /** Entries that a log can take back, all of them after an identifier. */
  ghost predicate Loadable(codec: Codec, log: Log, es: seq<Entry>, previous: nat) {
    && Ordered(es, log.nextId) && (es != [] ==> previous < es[0].event.id)
    && Encoded(codec, es) && log.bytes + SumBytes(es) <= MAX_BYTES
    && forall i | 0 <= i < |es| :: es[i].event.watch in log.watches && es[i].bytes <= MAX_EVENT_BYTES
  }

  lemma LoadableTail(codec: Codec, log: Log, es: seq<Entry>, previous: nat)
    requires es != [] && Loadable(codec, log, es, previous)
    ensures Loadable(codec, Reloaded(log, es[0]), es[1..], es[0].event.id)
  {
    ReloadedShape(log, es[0]);
    assert forall entry | entry in es[1..] :: entry in es;
  }

  lemma LoadHead(codec: Codec, log: Log, es: seq<Entry>, previous: nat)
    requires es != [] && Loadable(codec, log, es, previous)
    ensures LoadedEvents(codec, log, EventsOf(es), previous)
         == LoadedEvents(codec, Reloaded(log, es[0]), EventsOf(es[1..]), es[0].event.id)
  {
    assert EventsOf(es)[1..] == EventsOf(es[1..]);
    assert es[0] in es;
    assert Entry(es[0].event, codec.event(es[0].event)) == es[0];
    assert SumBytes(es) == es[0].bytes + SumBytes(es[1..]);
  }

  lemma {:induction false} EventsLoad(codec: Codec, log: Log, es: seq<Entry>, previous: nat)
    requires Loadable(codec, log, es, previous)
    ensures LoadedEvents(codec, log, EventsOf(es), previous) == Ok(Refilled(log, es))
    decreases |es|
  {
    if es != [] {
      LoadHead(codec, log, es, previous);
      LoadableTail(codec, log, es, previous);
      EventsLoad(codec, Reloaded(log, es[0]), es[1..], es[0].event.id);
    }
  }

  lemma {:induction false} EntriesOfMeaning(es: seq<Entry>, keys: set<Uuid>, w: Uuid)
    ensures forall entry :: entry in EntriesOf(es, keys) <==> entry in es && entry.event.watch in keys
    ensures w in keys ==> Own(EntriesOf(es, keys), w) == Own(es, w)
    ensures SumBytes(EntriesOf(es, keys)) <= SumBytes(es) && |EntriesOf(es, keys)| <= |es|
  {
    if es != [] {
      EntriesOfMeaning(es[1..], keys, w);
      var head := if es[0].event.watch in keys then [es[0]] else [];
      SumAppend(head, EntriesOf(es[1..], keys));
      OwnAppend(head, EntriesOf(es[1..], keys), w);
    }
  }

  lemma TailIsLater(es: seq<Entry>, nextId: nat, entry: Entry)
    requires Ordered(es, nextId) && es != [] && entry in es[1..]
    ensures es[0].event.id < entry.event.id
  {
    var j :| 0 <= j < |es[1..]| && es[1..][j] == entry;
    assert es[j + 1] == entry;
  }

  lemma TailIsOrdered(es: seq<Entry>, nextId: nat)
    requires Ordered(es, nextId) && es != []
    ensures Ordered(es[1..], nextId) && 1 <= es[0].event.id < nextId
  {}

  lemma {:induction false} EntriesOfOrdered(es: seq<Entry>, keys: set<Uuid>, nextId: nat)
    requires Ordered(es, nextId)
    ensures Ordered(EntriesOf(es, keys), nextId)
  {
    if es != [] {
      TailIsOrdered(es, nextId);
      EntriesOfOrdered(es[1..], keys, nextId);
      EntriesOfMeaning(es[1..], keys, 0);
      var tail := EntriesOf(es[1..], keys);
      forall entry | entry in tail ensures es[0].event.id < entry.event.id {
        TailIsLater(es, nextId, entry);
      }
      ConsOrdered(es[0], tail, nextId);
      assert [] + tail == tail;
    }
  }

  lemma ConsOrdered(head: Entry, tail: seq<Entry>, nextId: nat)
    requires Ordered(tail, nextId) && 1 <= head.event.id < nextId
    requires forall entry | entry in tail :: head.event.id < entry.event.id
    ensures Ordered([head] + tail, nextId)
  {}

  // --- The log before the markers -----------------------------------------

  function Unfilled(log: Log, epoch: Uuid): Log {
    Log(epoch, log.nextId, 0, log.droppedEvents, log.droppedBytes, [], InterruptedWatches(log), {})
  }

  function InterruptedWatches(log: Log): map<Uuid, Watch> {
    map w | w in Kept(log) :: Interrupted(log.watches[w])
  }

  function Revived(log: Log, epoch: Uuid): Log {
    Refilled(Unfilled(log, epoch), EntriesOf(log.events, Kept(log)))
  }

  function RevivedPast(log: Log): Past {
    Past(set entry | entry in EntriesOf(log.events, Kept(log)) :: entry.event, Kept(log))
  }

  /** The parts of the log before the markers. */
  lemma RevivedShape(log: Log, epoch: Uuid)
    ensures var after, es := Revived(log, epoch), EntriesOf(log.events, Kept(log));
            && after.events == es && after.bytes == SumBytes(es) && after.nextId == log.nextId
            && after.watches.Keys == Kept(log)
  {
    var es := EntriesOf(log.events, Kept(log));
    EntriesOfMeaning(log.events, Kept(log), 0);
    forall i | 0 <= i < |es| ensures es[i].event.watch in Unfilled(log, epoch).watches {
      assert es[i] in es;
    }
    RefilledShape(Unfilled(log, epoch), es);
  }

  lemma InterruptedRegains(watch: Watch, own: seq<Entry>)
    requires Counted(watch, own)
    ensures var r := Regained(Interrupted(watch), own);
            && r == watch.(status := r.status, error := r.error) && !r.status.Active()
            && (if watch.status.Active() then r.status == WatchStatus.Failed && r.error == Some(INTERRUPTED) else r == watch)
  {}

  lemma RevivedWatch(log: Log, epoch: Uuid, w: Uuid)
    requires Valid(log) && w in Kept(log)
    ensures w in Revived(log, epoch).watches
    ensures var watch := Revived(log, epoch).watches[w];
            && watch == log.watches[w].(status := watch.status, error := watch.error)
            && !watch.status.Active()
            && (if log.watches[w].status.Active() then watch.status == WatchStatus.Failed && watch.error == Some(INTERRUPTED)
                else watch == log.watches[w])
            && Own(Revived(log, epoch).events, w) == Own(log.events, w)
  {
    var es := EntriesOf(log.events, Kept(log));
    RevivedShape(log, epoch);
    EntriesOfMeaning(log.events, Kept(log), w);
    forall i | 0 <= i < |es| ensures es[i].event.watch in Unfilled(log, epoch).watches {
      assert es[i] in es;
    }
    RefilledWatch(Unfilled(log, epoch), es, w);
    InterruptedRegains(log.watches[w], Own(log.events, w));
  }

  lemma RevivedIsAccounted(log: Log, epoch: Uuid)
    requires Valid(log)
    ensures Accounted(Revived(log, epoch))
  {
    RevivedShape(log, epoch);
    forall w | w in Revived(log, epoch).watches
      ensures Counted(Revived(log, epoch).watches[w], Own(Revived(log, epoch).events, w))
    {
      RevivedWatch(log, epoch, w);
      assert Counted(log.watches[w], Own(log.events, w));
    }
  }

  lemma RevivedIsAttributed(log: Log, epoch: Uuid)
    requires Valid(log)
    ensures Attributed(Revived(log, epoch))
  {
    var after, es := Revived(log, epoch), EntriesOf(log.events, Kept(log));
    RevivedShape(log, epoch);
    EntriesOfMeaning(log.events, Kept(log), 0);
    forall i | 0 <= i < |after.events|
      ensures after.events[i].event.watch in after.watches
      ensures after.events[i].event.source == after.watches[after.events[i].event.watch].source
      ensures after.events[i].bytes <= MAX_EVENT_BYTES
    {
      assert es[i] in es;
      assert es[i] in log.events;
      RevivedWatch(log, epoch, es[i].event.watch);
    }
  }

  lemma RevivedIsCapped(log: Log, epoch: Uuid)
    requires Valid(log)
    ensures Capped(Revived(log, epoch)) && Marked(Revived(log, epoch)) && Limited(Revived(log, epoch))
  {
    RevivedShape(log, epoch);
    EntriesOfMeaning(log.events, Kept(log), 0);
    SubsetIsSmaller(Kept(log), log.watches.Keys);
    assert |Revived(log, epoch).watches| == |Kept(log)|;
    forall w | w in Revived(log, epoch).watches
      ensures var watch := Revived(log, epoch).watches[w];
              watch == log.watches[w].(status := watch.status, error := watch.error) && !watch.status.Active()
    {
      RevivedWatch(log, epoch, w);
    }
  }

  lemma RevivedIsValid(log: Log, epoch: Uuid)
    requires Valid(log)
    ensures Valid(Revived(log, epoch))
  {
    RevivedShape(log, epoch);
    RevivedIsAccounted(log, epoch);
    EntriesOfOrdered(log.events, Kept(log), log.nextId);
    RevivedIsAttributed(log, epoch);
    RevivedIsCapped(log, epoch);
  }

  /** What survives of the old history is all retained, under watches that remember their marks. */
  lemma RevivedEvent(log: Log, past: Past, epoch: Uuid, e: Event)
    requires Good(log, past) && e in RevivedPast(log).events
    ensures var after := Revived(log, epoch);
            && e in past.events && e.watch in after.watches && Retained(after.events, e)
            && e.source == after.watches[e.watch].source
            && e.watch in log.watches && after.watches[e.watch].lastGapId == log.watches[e.watch].lastGapId
  {
    var es := EntriesOf(log.events, Kept(log));
    RevivedShape(log, epoch);
    EntriesOfMeaning(log.events, Kept(log), 0);
    var entry :| entry in es && entry.event == e;
    assert entry in log.events;
    RevivedWatch(log, epoch, e.watch);
  }

  lemma RevivedIsGood(log: Log, past: Past, epoch: Uuid)
    requires Good(log, past)
    ensures Good(Revived(log, epoch), RevivedPast(log))
  {
    RevivedIsValid(log, epoch);
    RevivedIsTrue(log, past, epoch);
  }

  lemma RevivedIsTrue(log: Log, past: Past, epoch: Uuid)
    requires Good(log, past)
    ensures Truthful(Revived(log, epoch), RevivedPast(log))
  {
    var after, past' := Revived(log, epoch), RevivedPast(log);
    RevivedShape(log, epoch);
    forall e | e in past'.events
      ensures e in past.events && e.watch in after.watches && Retained(after.events, e)
      ensures e.source == after.watches[e.watch].source
      ensures e.kind == GAP ==> e.id <= after.watches[e.watch].lastGapId
    {
      RevivedEvent(log, past, epoch, e);
    }
    assert Covered(after, past'.events) && GapsMarked(after, past'.events) && Sourced(after, past'.events);
  }

  // --- The markers --------------------------------------------------------

  /** The history once the markers are in it. */
  function MarkersPast(codec: Codec, log: Log, past: Past, order: seq<Uuid>, now: nat, previousEpoch: Uuid): Past
    requires forall w | w in order :: w in log.watches
    decreases |order|
  {
    if order == [] then past
    else
      var s := Signal(order[0], now, GAP, NO_TARGET, MarkerPayload(previousEpoch));
      var e := NewEntry(codec, log, s.watch, s.now, s.kind, s.target, s.payload).event;
      MarkerIsAGap(codec, log, s);
      MarkersPast(codec, Signaled(codec, log, s), past.(events := past.events + {e}), order[1..], now, previousEpoch)
  }

  /** Watches that have ended are as they ended. */
  ghost predicate SameEnds(log: Log, after: Log) {
    forall w | w in log.watches && w in after.watches && !log.watches[w].status.Active() ::
      after.watches[w].status == log.watches[w].status && after.watches[w].error == log.watches[w].error
  }

  lemma SignalKeepsEnds(codec: Codec, log: Log, s: Signal)
    requires s.watch in log.watches
    ensures SameEnds(log, Signaled(codec, log, s))
  {
    var entry := NewEntry(codec, log, s.watch, s.now, s.kind, s.target, s.payload);
    OwnEvictionReduces(Issued(log), s.watch, entry.bytes);
    FrontEvictionReduces(OwnEvicted(Issued(log), s.watch, entry.bytes), entry.bytes);
    SignalIsAPush(codec, log, s, entry);
  }

  lemma {:induction false} MarkersMeaning(
    codec: Codec, log: Log, past: Past, order: seq<Uuid>, now: nat, previousEpoch: Uuid)
    requires codec.GapsFit() && Good(log, past) && Encoded(codec, log.events) && forall w | w in order :: w in log.watches
    ensures var after, past' := Markers(codec, log, order, now, previousEpoch), MarkersPast(codec, log, past, order, now, previousEpoch);
            && Good(after, past') && Follows(log, past, after, past') && Encoded(codec, after.events)
            && after.watches.Keys == log.watches.Keys
            && after.nextId == log.nextId + |order|
            && (forall w | w in order :: after.watches[w].lastGapId >= log.nextId)
            && SameEnds(log, after)
    decreases |order|
  {
    if order != [] {
      var s := Signal(order[0], now, GAP, NO_TARGET, MarkerPayload(previousEpoch));
      var e := NewEntry(codec, log, s.watch, s.now, s.kind, s.target, s.payload).event;
      var next := Signaled(codec, log, s);
      var past1 := past.(events := past.events + {e});
      AppendKeepsGood(codec, log, past, s);
      AppendKeepsEncoded(codec, log, s.watch, s.now, s.kind, s.target, s.payload);
      MarkerIsAGap(codec, log, s);
      SignalKeepsEnds(codec, log, s);
      MarkersMeaning(codec, next, past1, order[1..], now, previousEpoch);
      var after, past' := Markers(codec, log, order, now, previousEpoch), MarkersPast(codec, log, past, order, now, previousEpoch);
      FollowsTwice(log, past, next, past1, after, past');
      forall w | w in order
        ensures after.watches[w].lastGapId >= log.nextId
      {
        assert w == order[0] || w in order[1..];
      }
    }
  }

  lemma PushMarksGap(front: Log, entry: Entry)
    requires entry.event.watch in front.watches && entry.event.kind == GAP
    ensures var after := Pushed(front, entry);
            && after.watches.Keys == front.watches.Keys && after.nextId == front.nextId
            && after.watches[entry.event.watch].lastGapId == entry.event.id
  {}

  lemma MarkerEntry(codec: Codec, log: Log, s: Signal) returns (entry: Entry)
    requires s.watch in log.watches && s.kind == GAP
    ensures entry == NewEntry(codec, log, s.watch, s.now, s.kind, s.target, s.payload)
    ensures entry.event.watch == s.watch && entry.event.kind == GAP && entry.event.id == log.nextId
  {
    entry := NewEntry(codec, log, s.watch, s.now, s.kind, s.target, s.payload);
  }

  /** Both evictions of an append leave the watches and the identifiers as they are. */
  lemma EvictedShape(log: Log, w: Uuid, bytes: nat) returns (front: Log)
    ensures front == FrontEvicted(OwnEvicted(Issued(log), w, bytes), bytes)
    ensures front.watches.Keys == log.watches.Keys && front.nextId == log.nextId + 1
  {
    var own := OwnEvicted(Issued(log), w, bytes);
    OwnEvictionReduces(Issued(log), w, bytes);
    FrontEvictionReduces(own, bytes);
    front := FrontEvicted(own, bytes);
  }

  lemma SignalIsAPush(codec: Codec, log: Log, s: Signal, entry: Entry)
    requires s.watch in log.watches && entry == NewEntry(codec, log, s.watch, s.now, s.kind, s.target, s.payload)
    ensures Signaled(codec, log, s) == Pushed(FrontEvicted(OwnEvicted(Issued(log), s.watch, entry.bytes), entry.bytes), entry)
  {}

  lemma MarkerIsAGap(codec: Codec, log: Log, s: Signal)
    requires s.watch in log.watches && s.kind == GAP
    ensures var next := Signaled(codec, log, s);
            next.watches.Keys == log.watches.Keys && next.nextId == log.nextId + 1
            && next.watches[s.watch].lastGapId == log.nextId
  {
    var entry := MarkerEntry(codec, log, s);
    var front := EvictedShape(log, s.watch, entry.bytes);
    SignalIsAPush(codec, log, s, entry);
    PushMarksGap(front, entry);
  }

  // --- The restart theorem ------------------------------------------------

  lemma SnapshotLoads(codec: Codec, log: Log, ws: Waits, epoch: Uuid)
    requires Valid(log) && Encoded(codec, log.events) && Bounded(codec, ws.records)
    ensures var snap := Taken(log, ws);
            && |snap.watches| <= MAX_RECORDS && |snap.waits| <= MAX_RECORDS && |snap.events| <= MAX_EVENTS
            && LoadedWatches(map[], snap.watches) == Ok(Unfilled(log, epoch).watches)
            && LoadedWaits(codec, map[], snap.waits) == Ok(ResumedWaits(ws))
            && LoadedEvents(codec, Unfilled(log, epoch), snap.events, 0) == Ok(Revived(log, epoch))
  {
    var snap := Taken(log, ws);
    SubsetIsSmaller(Kept(log), log.watches.Keys);
    SubsetIsSmaller(KeptWaits(ws), ws.records.Keys);
    EntriesOfMeaning(log.events, Kept(log), 0);
    EntriesOfOrdered(log.events, Kept(log), log.nextId);
    WatchesSaved(log, ws, epoch);
    WaitsSaved(codec, ws);
    var es := EntriesOf(log.events, Kept(log));
    forall i | 0 <= i < |es|
      ensures es[i].event.watch in Unfilled(log, epoch).watches && es[i].bytes <= MAX_EVENT_BYTES
    {
      assert es[i] in es;
      assert es[i] in log.events;
    }
    EventsLoad(codec, Unfilled(log, epoch), es, 0);
  }

  lemma SameMap<V>(m: map<Uuid, V>, n: map<Uuid, V>)
    requires m.Keys == n.Keys && forall k | k in m :: m[k] == n[k]
    ensures m == n
  {}

  lemma SavedWatchIds(log: Log, order: seq<Uuid>)
    requires forall w | w in order :: w in log.watches
    ensures WatchIds(SavedWatches(log.watches, order)) == set w | w in order
  {
    var saved := SavedWatches(log.watches, order);
    forall w | w in order
      ensures w in WatchIds(saved)
    {
      var i :| 0 <= i < |order| && order[i] == w;
      assert saved[i] in saved;
    }
  }

  lemma SavedWaitIds(ws: Waits, order: seq<Uuid>)
    requires forall id | id in order :: id in ws.records
    ensures WaitIds(SavedWaits(ws.records, order)) == set id | id in order
  {
    var saved := SavedWaits(ws.records, order);
    forall id | id in order
      ensures id in WaitIds(saved)
    {
      var i :| 0 <= i < |order| && order[i] == id;
      assert saved[i] in saved;
    }
  }

  lemma AllInterrupted(loaded: map<Uuid, Watch>, log: Log, order: seq<Uuid>)
    requires Lists(order, Kept(log)) && loaded.Keys == Kept(log)
    requires forall i | 0 <= i < |order| :: order[i] in Kept(log) && loaded[order[i]] == Interrupted(log.watches[order[i]])
    ensures loaded == InterruptedWatches(log)
  {
    forall w | w in loaded ensures loaded[w] == InterruptedWatches(log)[w] {
      assert w in order;
      var i :| 0 <= i < |order| && order[i] == w;
      assert loaded[order[i]] == Interrupted(log.watches[order[i]]);
    }
    SameMap(loaded, InterruptedWatches(log));
  }

  lemma SavedWatchesShape(log: Log, order: seq<Uuid>)
    requires Capped(log) && Lists(order, Kept(log))
    ensures forall w | w in order :: w in log.watches
    ensures var saved := SavedWatches(log.watches, order);
            forall i | 0 <= i < |saved| ::
              saved[i].watch.lifetime == Persistent && saved[i].watch.limits.Accepted() && saved[i].id == order[i]
  {
    forall i | 0 <= i < |order| ensures order[i] in Kept(log) {
      assert order[i] in order;
    }
  }

  lemma OrderIsKeys(order: seq<Uuid>, keys: set<Uuid>)
    requires Lists(order, keys)
    ensures (set w | w in order) == keys
    ensures forall i | 0 <= i < |order| :: order[i] in keys
  {}

  lemma WatchesSaved(log: Log, ws: Waits, epoch: Uuid)
    requires Capped(log)
    ensures LoadedWatches(map[], Taken(log, ws).watches) == Ok(Unfilled(log, epoch).watches)
  {
    var order := InOrder(Kept(log));
    SavedWatchesShape(log, order);
    OrderIsKeys(order, Kept(log));
    var saved := SavedWatches(log.watches, order);
    WatchesLoad(map[], saved);
    SavedWatchIds(log, order);
    var loaded := LoadedWatches(map[], saved).value;
    forall i | 0 <= i < |order| ensures order[i] in Kept(log) && loaded[order[i]] == Interrupted(log.watches[order[i]]) {
      assert loaded[saved[i].id] == Interrupted(saved[i].watch);
    }
    AllInterrupted(loaded, log, order);
  }

  lemma SavedWaitsShape(codec: Codec, ws: Waits, order: seq<Uuid>)
    requires Bounded(codec, ws.records) && forall id | id in order :: id in ws.records && id in KeptWaits(ws)
    ensures var saved := SavedWaits(ws.records, order);
            forall i | 0 <= i < |saved| ::
              saved[i].wait.spec.lifetime == Persistent && saved[i].wait.spec.filter.Accepted(codec) && saved[i].id == order[i]
  {
    var saved := SavedWaits(ws.records, order);
    forall i | 0 <= i < |saved|
      ensures saved[i].wait.spec.lifetime == Persistent && saved[i].wait.spec.filter.Accepted(codec)
    {
      assert order[i] in KeptWaits(ws);
    }
  }

  lemma AllResumed(loaded: map<Uuid, Wait>, ws: Waits, order: seq<Uuid>)
    requires Lists(order, KeptWaits(ws)) && loaded.Keys == KeptWaits(ws)
    requires forall i | 0 <= i < |order| :: order[i] in KeptWaits(ws) && loaded[order[i]] == InterruptedWait(ws.records[order[i]])
    ensures loaded == ResumedWaits(ws)
  {
    forall id | id in loaded ensures loaded[id] == ResumedWaits(ws)[id] {
      assert id in order;
      var i :| 0 <= i < |order| && order[i] == id;
      assert loaded[order[i]] == InterruptedWait(ws.records[order[i]]);
    }
    SameMap(loaded, ResumedWaits(ws));
  }

  lemma OrderedWaitsLoad(codec: Codec, ws: Waits, order: seq<Uuid>)
    requires Bounded(codec, ws.records) && Sorted(order) && forall id | id in order :: id in ws.records && id in KeptWaits(ws)
    ensures var r := LoadedWaits(codec, map[], SavedWaits(ws.records, order));
            && r.Ok? && r.value.Keys == (set id | id in order)
            && forall i | 0 <= i < |order| :: r.value[order[i]] == InterruptedWait(ws.records[order[i]])
  {
    var saved := SavedWaits(ws.records, order);
    SavedWaitsShape(codec, ws, order);
    WaitsLoad(codec, map[], saved);
    SavedWaitIds(ws, order);
    forall i | 0 <= i < |order|
      ensures LoadedWaits(codec, map[], saved).value[order[i]] == InterruptedWait(ws.records[order[i]])
    {
      assert saved[i] == SavedWait(order[i], ws.records[order[i]]);
    }
  }

  lemma WaitsSaved(codec: Codec, ws: Waits)
    requires Bounded(codec, ws.records)
    ensures LoadedWaits(codec, map[], SavedWaits(ws.records, InOrder(KeptWaits(ws)))) == Ok(ResumedWaits(ws))
  {
    var order := InOrder(KeptWaits(ws));
    OrderIsKeys(order, KeptWaits(ws));
    OrderedWaitsLoad(codec, ws, order);
    AllResumed(LoadedWaits(codec, map[], SavedWaits(ws.records, order)).value, ws, order);
  }

  /** Nothing records any more, and every watch carries a gap newer than the whole old range. */
  ghost predicate Interruption(log: Log, after: Log) {
    forall w | w in after.watches ::
      !after.watches[w].status.Active() && after.watches[w].lastGapId >= log.nextId
  }

  /** Exactly the persistent watches, each under the owner, source and limits it had. */
  ghost predicate WatchesCarried(log: Log, after: Log) {
    && after.watches.Keys == Kept(log)
    && forall w | w in after.watches ::
         && after.watches[w].owner == log.watches[w].owner && after.watches[w].lifetime == Persistent
         && after.watches[w].source == log.watches[w].source && after.watches[w].limits == log.watches[w].limits
         && after.watches[w].lastDroppedId >= log.watches[w].lastDroppedId
         && after.watches[w].recordedEvents >= log.watches[w].recordedEvents
         && (if log.watches[w].status.Active() then
               after.watches[w].status == WatchStatus.Failed && after.watches[w].error == Some(INTERRUPTED)
             else after.watches[w].status == log.watches[w].status && after.watches[w].error == log.watches[w].error)
  }

  /** Every retained event of a persistent watch is still there or covered. */
  ghost predicate EventsCarried(log: Log, after: Log) {
    forall entry | entry in log.events && entry.event.watch in Kept(log) ::
      && entry.event.watch in after.watches
      && (Retained(after.events, entry.event) || entry.event.id <= after.watches[entry.event.watch].lastDroppedId)
  }

  /** Exactly the persistent waits: the finished ones as they were, the running ones failed. */
  ghost predicate WaitsCarried(ws: Waits, waits: map<Uuid, Wait>) {
    && waits.Keys == KeptWaits(ws)
    && forall id | id in waits ::
         if ws.records[id].outcome == Running then
           && waits[id].outcome == Outcome.Failed && waits[id].error == Some(HostRestarted)
           && waits[id].spec == ws.records[id].spec && waits[id].cursor == ws.records[id].cursor
         else waits[id] == ws.records[id]
  }

  lemma ResumedAreCarried(ws: Waits)
    ensures WaitsCarried(ws, ResumedWaits(ws))
  {}

  /** The log a restart begins with, and what of the history it still speaks about. */
  function RestartedLog(codec: Codec, log: Log, epoch: Uuid, now: nat): Log {
    Markers(codec, Revived(log, epoch), InOrder(Revived(log, epoch).watches.Keys), now, log.epoch)
  }

  function RestartedPast(codec: Codec, log: Log, epoch: Uuid, now: nat): Past {
    MarkersPast(codec, Revived(log, epoch), RevivedPast(log), InOrder(Revived(log, epoch).watches.Keys), now, log.epoch)
  }

  lemma RevivedIsEncoded(codec: Codec, log: Log, epoch: Uuid)
    requires Encoded(codec, log.events)
    ensures Encoded(codec, Revived(log, epoch).events)
  {
    RevivedShape(log, epoch);
    EntriesOfMeaning(log.events, Kept(log), 0);
  }

  lemma RevivedCarries(codec: Codec, log: Log, past: Past, epoch: Uuid, now: nat)
    requires codec.GapsFit() && Good(log, past) && Encoded(codec, log.events)
    ensures var after := RestartedLog(codec, log, epoch, now);
            && Good(after, RestartedPast(codec, log, epoch, now)) && Encoded(codec, after.events)
            && after.epoch == epoch && after.nextId == log.nextId + |Kept(log)|
            && WatchesCarried(log, after)
            && Interruption(log, after)
            && EventsCarried(log, after)
  {
    RevivedIsGood(log, past, epoch);
    RevivedIsEncoded(codec, log, epoch);
    var revived := Revived(log, epoch);
    RevivedShape(log, epoch);
    RevivedEpoch(log, epoch);
    var order := InOrder(revived.watches.Keys);
    MarkersMeaning(codec, revived, RevivedPast(log), order, now, log.epoch);
    var after := RestartedLog(codec, log, epoch, now);
    forall w | w in after.watches
      ensures !after.watches[w].status.Active() && after.watches[w].lastGapId >= log.nextId
      ensures after.watches[w].owner == log.watches[w].owner && after.watches[w].lifetime == Persistent
      ensures after.watches[w].source == log.watches[w].source && after.watches[w].limits == log.watches[w].limits
      ensures after.watches[w].lastDroppedId >= log.watches[w].lastDroppedId
      ensures after.watches[w].recordedEvents >= log.watches[w].recordedEvents
      ensures if log.watches[w].status.Active() then
                after.watches[w].status == WatchStatus.Failed && after.watches[w].error == Some(INTERRUPTED)
              else after.watches[w].status == log.watches[w].status && after.watches[w].error == log.watches[w].error
    {
      RevivedWatch(log, epoch, w);
      assert w in order;
    }
    StillCarried(log, past, after, RestartedPast(codec, log, epoch, now), epoch, revived);
  }

  lemma RevivedEpoch(log: Log, epoch: Uuid)
    ensures Revived(log, epoch).epoch == epoch
  {
    RefilledEpoch(Unfilled(log, epoch), EntriesOf(log.events, Kept(log)));
  }

  lemma {:induction false} RefilledEpoch(log: Log, es: seq<Entry>)
    ensures Refilled(log, es).epoch == log.epoch
    decreases |es|
  {
    if es != [] {
      RefilledEpoch(Reloaded(log, es[0]), es[1..]);
    }
  }

  lemma StillCarried(log: Log, past: Past, after: Log, past': Past, epoch: Uuid, revived: Log)
    requires Good(log, past) && revived == Revived(log, epoch) && after.watches.Keys == Kept(log)
    requires Follows(revived, RevivedPast(log), after, past') && Truthful(after, past')
    ensures EventsCarried(log, after)
  {
    EntriesOfMeaning(log.events, Kept(log), 0);
    forall entry | entry in log.events && entry.event.watch in Kept(log)
      ensures Retained(after.events, entry.event) || entry.event.id <= after.watches[entry.event.watch].lastDroppedId
    {
      assert entry in EntriesOf(log.events, Kept(log));
      assert entry.event in RevivedPast(log).events;
      StillCovered(after, past', entry.event);
    }
  }

  /**
   The restart theorem: the snapshot of a good log restores exactly when the
   cursor has room for one marker a watch. The new log is as good as the old
   one, so it can be restored again; nothing in it is active and no wait is
   running; exactly the persistent watches and waits are there; each of their
   retained events is still there unless its watch admits having dropped it;
   and every watch carries a gap newer than the whole old range.
   */
  lemma RestartTheorem(codec: Codec, log: Log, past: Past, ws: Waits, epoch: Uuid, now: nat)
    requires codec.GapsFit() && Good(log, past) && Bounded(codec, ws.records) && Encoded(codec, log.events)
    ensures var r := Restore(codec, Taken(log, ws), epoch, now);
            && (r.Ok? <==> log.nextId < U64_MAX - |Kept(log)|)
            && (r.Err? ==> r.error == NoRoomForMarkers)
            && (r.Ok? ==>
                  && r.value.log == RestartedLog(codec, log, epoch, now)
                  && Good(r.value.log, RestartedPast(codec, log, epoch, now)) && Encoded(codec, r.value.log.events)
                  && Bounded(codec, r.value.waits)
                  && r.value.log.epoch == epoch && r.value.log.nextId == log.nextId + |Kept(log)|
                  && WatchesCarried(log, r.value.log)
                  && Interruption(log, r.value.log)
                  && EventsCarried(log, r.value.log)
                  && WaitsCarried(ws, r.value.waits))
  {
    SnapshotLoads(codec, log, ws, epoch);
    if log.nextId < U64_MAX - |Kept(log)| {
      ResumedAreCarried(ws);
      ResumedAreBounded(codec, ws);
      RevivedCarries(codec, log, past, epoch, now);
      RestoreIsRestarted(codec, log, ws, epoch, now);
    }
  }

  lemma TakenIsHollow(log: Log, ws: Waits, epoch: Uuid)
    requires Valid(log)
    ensures var snap := Taken(log, ws);
            && snap.version == 1 && snap.nextId == log.nextId > 0 && snap.epoch == log.epoch && |snap.watches| == |Kept(log)|
            && Hollow(snap, epoch, Unfilled(log, epoch).watches) == Unfilled(log, epoch)
  {}

  lemma RestoreIsRestarted(codec: Codec, log: Log, ws: Waits, epoch: Uuid, now: nat)
    requires Valid(log) && Bounded(codec, ws.records) && Encoded(codec, log.events)
    requires log.nextId < U64_MAX - |Kept(log)|
    ensures Restore(codec, Taken(log, ws), epoch, now) == Ok(Restored(RestartedLog(codec, log, epoch, now), ResumedWaits(ws)))
  {
    SnapshotLoads(codec, log, ws, epoch);
    TakenIsHollow(log, ws, epoch);
    RestoreComputes(codec, Taken(log, ws), epoch, now, Unfilled(log, epoch).watches, ResumedWaits(ws), Revived(log, epoch));
  }

  lemma ResumedAreBounded(codec: Codec, ws: Waits)
    requires Bounded(codec, ws.records)
    ensures Bounded(codec, ResumedWaits(ws))
  {
    SubsetIsSmaller(KeptWaits(ws), ws.records.Keys);
    assert ResumedWaits(ws).Keys == KeptWaits(ws);
  }

  lemma RestoreComputes(
    codec: Codec, snap: Snapshot, epoch: Uuid, now: nat, watches: map<Uuid, Watch>, waits: map<Uuid, Wait>, log: Log)
    requires snap.version == 1 && snap.nextId > 0 && snap.nextId < U64_MAX - |snap.watches|
    requires |snap.watches| <= MAX_RECORDS && |snap.waits| <= MAX_RECORDS && |snap.events| <= MAX_EVENTS
    requires LoadedWatches(map[], snap.watches) == Ok(watches) && LoadedWaits(codec, map[], snap.waits) == Ok(waits)
    requires LoadedEvents(codec, Hollow(snap, epoch, watches), snap.events, 0) == Ok(log)
    ensures Restore(codec, snap, epoch, now)
         == Ok(Restored(Markers(codec, log, InOrder(log.watches.Keys), now, snap.epoch), waits))
  {}

  lemma StillCovered(log: Log, past: Past, e: Event)
    requires Truthful(log, past) && e in past.events && e.watch in log.watches
    ensures Retained(log.events, e) || e.id <= log.watches[e.watch].lastDroppedId
  {}

  /** A cursor from before the restart reads a page that says so, as long as it selects one of the watches carried over. */
  lemma OldCursorsSeeTheGap(codec: Codec, log: Log, q: Query, cursor: Cursor, limit: nat, snapshotNextId: nat)
    requires exists w | w in Selected(log, q) :: log.watches[w].lastGapId >= snapshotNextId
    requires cursor.id < snapshotNextId
    requires ReadPage(codec, log, q, Some(cursor), limit).Ok?
    ensures ReadPage(codec, log, q, Some(cursor), limit).value.recordingGap
  {
    var w :| w in Selected(log, q) && log.watches[w].lastGapId >= snapshotNextId;
    assert log.watches[w].lastGapId > AfterId(log, Some(cursor));
  }

  // --- The totals -----------------------------------------------------------------

  lemma AppendCountsOn(codec: Codec, log: Log, w: Uuid, now: nat, kind: string, target: Target, payload: Json)
    ensures var after := Appended(codec, log, w, now, kind, target, payload);
            after.droppedEvents >= log.droppedEvents && after.droppedBytes >= log.droppedBytes
  {
    if w in log.watches {
      var entry := NewEntry(codec, log, w, now, kind, target, payload);
      AppendIsAPush(codec, log, w, now, kind, target, payload, entry);
      OwnEvictionReduces(Issued(log), w, entry.bytes);
      FrontEvictionReduces(OwnEvicted(Issued(log), w, entry.bytes), entry.bytes);
    }
  }

  lemma {:induction false} MarkersCountOn(codec: Codec, log: Log, order: seq<Uuid>, now: nat, previousEpoch: Uuid)
    ensures var after := Markers(codec, log, order, now, previousEpoch);
            after.droppedEvents >= log.droppedEvents && after.droppedBytes >= log.droppedBytes
    decreases |order|
  {
    if order != [] {
      AppendCountsOn(codec, log, order[0], now, GAP, NO_TARGET, MarkerPayload(previousEpoch));
      MarkersCountOn(codec, Appended(codec, log, order[0], now, GAP, NO_TARGET, MarkerPayload(previousEpoch)), order[1..],
                     now, previousEpoch);
    }
  }

  lemma {:induction false} LoadingCountsOn(codec: Codec, log: Log, events: seq<Event>, previous: nat)
    requires LoadedEvents(codec, log, events, previous).Ok?
    ensures var after := LoadedEvents(codec, log, events, previous).value;
            after.droppedEvents == log.droppedEvents && after.droppedBytes == log.droppedBytes
    decreases |events|
  {
    if events != [] {
      LoadingCountsOn(codec, Reloaded(log, Entry(events[0], codec.event(events[0]))), events[1..], events[0].id);
    }
  }

  /** The totals of what was ever dropped go on from where the last host left them. */
  lemma TotalsGoOn(codec: Codec, log: Log, ws: Waits, epoch: Uuid, now: nat)
    requires Restore(codec, Taken(log, ws), epoch, now).Ok?
    ensures var after := Restore(codec, Taken(log, ws), epoch, now).value.log;
            after.droppedEvents >= log.droppedEvents && after.droppedBytes >= log.droppedBytes
  {
    var snap := Taken(log, ws);
    var watches := LoadedWatches(map[], snap.watches).value;
    var loaded := LoadedEvents(codec, Hollow(snap, epoch, watches), snap.events, 0).value;
    LoadingCountsOn(codec, Hollow(snap, epoch, watches), snap.events, 0);
    MarkersCountOn(codec, loaded, InOrder(loaded.watches.Keys), now, snap.epoch);
  }
}
