/**
 Which checkpoints restore, whoever wrote them: the conditions on a snapshot,
 each on its own, and that together they are exactly what restoring accepts.
 */
module ObservationSnapshots {
  import opened Wrappers
  import opened ObservationLog
  import opened ObservationWaits
  import opened ObservationRestart

  // --- The conditions -----------------------------------------------------------

  predicate WatchesSound(saved: seq<SavedWatch>) {
    && (forall i | 0 <= i < |saved| ::
          var limits := saved[i].watch.limits;
          && saved[i].watch.lifetime == Persistent
          && 1 <= limits.maxEvents <= 8192 && 1024 <= limits.maxBytes <= 16 * 1024 * 1024
          && 1 <= limits.maxRecordedEvents <= 1_000_000 && 1024 <= limits.maxRecordedBytes <= 1024 * 1024 * 1024)
    && (forall i, j | 0 <= i < j < |saved| :: saved[i].id != saved[j].id)
  }

  predicate WaitsSound(codec: Codec, saved: seq<SavedWait>) {
    && (forall i | 0 <= i < |saved| ::
          var filter := saved[i].wait.spec.filter;
          && saved[i].wait.spec.lifetime == Persistent
          && (filter.process.Some? ==> filter.process.value.created.Some?)
          && (filter.since.Some? && filter.until.Some? ==> filter.since.value <= filter.until.value)
          && codec.filter(filter) <= 16 * 1024)
    && (forall i, j | 0 <= i < j < |saved| :: saved[i].id != saved[j].id)
  }

  function EncodedBytes(codec: Codec, events: seq<Event>): nat {
    if events == [] then 0 else codec.event(events[0]) + EncodedBytes(codec, events[1..])
  }

  /** In order behind an identifier and before the next, each of a saved watch and not too large, and not too much in all. */
  predicate EventsSound(codec: Codec, events: seq<Event>, owners: set<Uuid>, previous: nat, nextId: nat, room: int) {
    && (forall i | 0 <= i < |events| ::
          previous < events[i].id < nextId && events[i].watch in owners && codec.event(events[i]) <= 64 * 1024)
    && (forall i, j | 0 <= i < j < |events| :: events[i].id < events[j].id)
    && EncodedBytes(codec, events) <= room
  }

  predicate NumbersSound(snap: Snapshot) {
    && snap.version == 1
    && |snap.watches| <= 128 && |snap.waits| <= 128 && |snap.events| <= 8192
    && 0 < snap.nextId < 0xFFFF_FFFF_FFFF_FFFF - |snap.watches|
  }

  predicate SnapshotSound(codec: Codec, snap: Snapshot) {
    && NumbersSound(snap)
    && WatchesSound(snap.watches)
    && WaitsSound(codec, snap.waits)
    && EventsSound(codec, snap.events, WatchIds(snap.watches), 0, snap.nextId, 16 * 1024 * 1024)
  }

  // --- They are what restoring checks ---------------------------------------------

  lemma {:induction false} WatchesMustBeNew(watches: map<Uuid, Watch>, saved: seq<SavedWatch>)
    requires LoadedWatches(watches, saved).Ok?
    ensures NewWatches(watches, saved)
    decreases |saved|
  {
    if saved != [] {
      var more := watches[saved[0].id := Interrupted(saved[0].watch)];
      WatchesMustBeNew(more, saved[1..]);
      assert forall i | 0 < i < |saved| :: saved[i] == saved[1..][i - 1];
    }
  }

  lemma {:induction false} WaitsMustBeNew(codec: Codec, waits: map<Uuid, Wait>, saved: seq<SavedWait>)
    requires LoadedWaits(codec, waits, saved).Ok?
    ensures NewWaits(codec, waits, saved)
    decreases |saved|
  {
    if saved != [] {
      var more := waits[saved[0].id := InterruptedWait(saved[0].wait)];
      WaitsMustBeNew(codec, more, saved[1..]);
      assert forall i | 0 < i < |saved| :: saved[i] == saved[1..][i - 1];
    }
  }

  lemma WatchesLoadExactly(saved: seq<SavedWatch>)
    ensures LoadedWatches(map[], saved).Ok? <==> WatchesSound(saved)
    ensures WatchesSound(saved) ==> LoadedWatches(map[], saved).value.Keys == WatchIds(saved)
  {
    assert NewWatches(map[], saved) <==> WatchesSound(saved);
    if LoadedWatches(map[], saved).Ok? {
      WatchesMustBeNew(map[], saved);
    }
    if WatchesSound(saved) {
      WatchesLoad(map[], saved);
    }
  }

  lemma WaitsLoadExactly(codec: Codec, saved: seq<SavedWait>)
    ensures LoadedWaits(codec, map[], saved).Ok? <==> WaitsSound(codec, saved)
  {
    assert NewWaits(codec, map[], saved) <==> WaitsSound(codec, saved);
    if LoadedWaits(codec, map[], saved).Ok? {
      WaitsMustBeNew(codec, map[], saved);
    }
    if WaitsSound(codec, saved) {
      WaitsLoad(codec, map[], saved);
    }
  }

  lemma EventsSoundHead(codec: Codec, events: seq<Event>, owners: set<Uuid>, previous: nat, nextId: nat, room: int)
    requires events != []
    ensures EventsSound(codec, events, owners, previous, nextId, room) <==>
              && previous < events[0].id < nextId && events[0].watch in owners && codec.event(events[0]) <= 64 * 1024
              && codec.event(events[0]) <= room
              && EventsSound(codec, events[1..], owners, events[0].id, nextId, room - codec.event(events[0]))
  {
    var tail := events[1..];
    assert forall i | 0 < i < |events| :: events[i] == tail[i - 1];
    if EventsSound(codec, tail, owners, events[0].id, nextId, room - codec.event(events[0])) {
      forall i, j | 0 <= i < j < |events| ensures events[i].id < events[j].id {
        assert events[j] == tail[j - 1];
        if i > 0 {
          assert events[i] == tail[i - 1];
        }
      }
    }
  }

  lemma {:induction false} EventsLoadExactly(codec: Codec, log: Log, events: seq<Event>, previous: nat)
    ensures LoadedEvents(codec, log, events, previous).Ok? <==>
              events == [] || EventsSound(codec, events, log.watches.Keys, previous, log.nextId, MAX_BYTES - log.bytes)
    decreases |events|
  {
    if events != [] {
      EventsSoundHead(codec, events, log.watches.Keys, previous, log.nextId, MAX_BYTES - log.bytes);
      var e := events[0];
      if e.watch in log.watches {
        var entry := Entry(e, codec.event(e));
        ReloadedShape(log, entry);
        EventsLoadExactly(codec, Reloaded(log, entry), events[1..], e.id);
      }
    }
  }

  lemma RestoreIsLoading(codec: Codec, snap: Snapshot, epoch: Uuid, now: nat)
    ensures Restore(codec, snap, epoch, now).Ok? <==>
              && ObservationRestart.Refused(snap).None?
              && LoadedWatches(map[], snap.watches).Ok? && LoadedWaits(codec, map[], snap.waits).Ok?
              && LoadedEvents(codec, Hollow(snap, epoch, LoadedWatches(map[], snap.watches).value), snap.events, 0).Ok?
  {}

  lemma HollowLoadsExactly(codec: Codec, snap: Snapshot, epoch: Uuid, watches: map<Uuid, Watch>)
    requires watches.Keys == WatchIds(snap.watches)
    ensures LoadedEvents(codec, Hollow(snap, epoch, watches), snap.events, 0).Ok? <==>
              EventsSound(codec, snap.events, WatchIds(snap.watches), 0, snap.nextId, 16 * 1024 * 1024)
  {
    EventsLoadExactly(codec, Hollow(snap, epoch, watches), snap.events, 0);
  }

  lemma NumbersExactly(snap: Snapshot)
    ensures ObservationRestart.Refused(snap).None? <==> NumbersSound(snap)
  {}

  /** A checkpoint restores exactly when it is sound. */
  lemma RestoresExactly(codec: Codec, snap: Snapshot, epoch: Uuid, now: nat)
    ensures Restore(codec, snap, epoch, now).Ok? <==> SnapshotSound(codec, snap)
  {
    RestoreIsLoading(codec, snap, epoch, now);
    NumbersExactly(snap);
    WatchesLoadExactly(snap.watches);
    WaitsLoadExactly(codec, snap.waits);
    if WatchesSound(snap.watches) {
      HollowLoadsExactly(codec, snap, epoch, LoadedWatches(map[], snap.watches).value);
    }
  }

  // --- What a refusal says --------------------------------------------------------

  lemma {:induction false} WatchRefusals(watches: map<Uuid, Watch>, saved: seq<SavedWatch>)
    requires LoadedWatches(watches, saved).Err?
    ensures LoadedWatches(watches, saved).error in {ConnectionWatch, InvalidWatch, DuplicateWatch}
    decreases |saved|
  {
    if saved != [] && LoadedWatches(watches[saved[0].id := Interrupted(saved[0].watch)], saved[1..]).Err? {
      WatchRefusals(watches[saved[0].id := Interrupted(saved[0].watch)], saved[1..]);
    }
  }

  lemma {:induction false} WaitRefusals(codec: Codec, waits: map<Uuid, Wait>, saved: seq<SavedWait>)
    requires LoadedWaits(codec, waits, saved).Err?
    ensures LoadedWaits(codec, waits, saved).error in {ConnectionWait, InvalidWaitFilter, DuplicateWait}
    decreases |saved|
  {
    if saved != [] && LoadedWaits(codec, waits[saved[0].id := InterruptedWait(saved[0].wait)], saved[1..]).Err? {
      WaitRefusals(codec, waits[saved[0].id := InterruptedWait(saved[0].wait)], saved[1..]);
    }
  }

  lemma {:induction false} EventRefusals(codec: Codec, log: Log, events: seq<Event>, previous: nat)
    requires LoadedEvents(codec, log, events, previous).Err?
    ensures LoadedEvents(codec, log, events, previous).error in {EventOrder, EventWithoutWatch, OverBytes}
    decreases |events|
  {
    if events != [] {
      var more := Reloaded(log, Entry(events[0], codec.event(events[0])));
      if LoadedEvents(codec, more, events[1..], events[0].id).Err? {
        EventRefusals(codec, more, events[1..], events[0].id);
      }
    }
  }

  /** A refused checkpoint is told what is wrong with it, in this order: its version, its size, its cursor, its watches, its waits, its events. */
  lemma RefusalSays(codec: Codec, snap: Snapshot, epoch: Uuid, now: nat)
    requires Restore(codec, snap, epoch, now).Err?
    ensures var error := Restore(codec, snap, epoch, now).error;
            if snap.version != 1 then error == UnsupportedVersion
            else if |snap.watches| > 128 || |snap.waits| > 128 || |snap.events| > 8192 then error == OverLimits
            else if snap.nextId == 0 then error == InvalidCursor
            else if snap.nextId >= 0xFFFF_FFFF_FFFF_FFFF - |snap.watches| then error == NoRoomForMarkers
            else if !WatchesSound(snap.watches) then error in {ConnectionWatch, InvalidWatch, DuplicateWatch}
            else if !WaitsSound(codec, snap.waits) then error in {ConnectionWait, InvalidWaitFilter, DuplicateWait}
            else error in {EventOrder, EventWithoutWatch, OverBytes}
  {
    WatchesLoadExactly(snap.watches);
    WaitsLoadExactly(codec, snap.waits);
    if ObservationRestart.Refused(snap).None? {
      if !WatchesSound(snap.watches) {
        WatchRefusals(map[], snap.watches);
      } else if !WaitsSound(codec, snap.waits) {
        WaitRefusals(codec, map[], snap.waits);
      } else {
        EventRefusals(codec, Hollow(snap, epoch, LoadedWatches(map[], snap.watches).value), snap.events, 0);
      }
    }
  }
}
