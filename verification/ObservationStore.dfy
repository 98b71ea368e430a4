/**
 The store itself: the fields behind the mutex of src/observation.rs and the
 methods that change them in place, each proved equal to the function that the
 theorems are about.
 */
module ObservationStore {
  import opened Wrappers
  import opened JsonValue
  import opened ObservationLog
  import opened ObservationAccounting
  import opened ObservationHistory
  import opened ObservationRead
  import opened ObservationWaits
  import opened ObservationRestart

  class Store {
    const codec: Codec
    var epoch: Uuid
    var nextId: nat
    var bytes: int
    var droppedEvents: nat
    var droppedBytes: nat
    var events: seq<Entry>
    var watches: map<Uuid, Watch>
    var retired: set<Uuid>
    var waits: map<Uuid, Wait>
    var waitCancels: set<Uuid>
    /** What belongs to tasks and connections rather than to the store. */
    ghost var outside: Waits

    ghost function View(): Log
      reads this
    {
      Log(epoch, nextId, bytes, droppedEvents, droppedBytes, events, watches, retired)
    }

    ghost function WaitsView(): Waits
      reads this
    {
      outside.(records := waits, handles := waitCancels)
    }

    constructor (codec: Codec, epoch: Uuid)
      ensures this.codec == codec && View() == Fresh(epoch) && WaitsView() == NO_WAITS
    {
      this.codec := codec;
      this.epoch, nextId := epoch, 1;
      bytes, droppedEvents, droppedBytes := 0, 0, 0;
      events, watches, retired := [], map[], {};
      waits, waitCancels := map[], {};
      outside := NO_WAITS;
    }

    /** Take over the records of a snapshot, before its events. */
    method Begin(snap: Snapshot, watches: map<Uuid, Watch>, waits: map<Uuid, Wait>)
      requires View() == Fresh(epoch) && WaitsView() == NO_WAITS
      modifies this
      ensures View() == Hollow(snap, old(epoch), watches)
      ensures this.waits == waits && waitCancels == {}
    {
      nextId, droppedEvents, droppedBytes := snap.nextId, snap.droppedEvents, snap.droppedBytes;
      this.watches, this.waits := watches, waits;
    }

    // --- Retention --------------------------------------------------------

    method Discard(index: nat)
      modifies this
      ensures View() == Discarded(old(View()), index)
      ensures WaitsView() == old(WaitsView())
    {
      if index < |events| {
        var entry := events[index];
        events := events[..index] + events[index + 1..];
        bytes := bytes - entry.bytes;
        droppedEvents := droppedEvents + 1;
        droppedBytes := droppedBytes + entry.bytes;
        var w := entry.event.watch;
        if w in watches {
          watches := watches[w := WithDropped(watches[w], entry)];
        }
      }
    }

    /** Oldest event of a watch, or the number of events. */
    method Position(w: Uuid) returns (i: nat)
      ensures i == FirstOwn(events, w)
    {
      i := 0;
      while i < |events| && events[i].event.watch != w
        invariant i <= |events|
        invariant FirstOwn(events, w) == i + FirstOwn(events[i..], w)
      {
        assert events[i..][1..] == events[i + 1..];
        i := i + 1;
      }
    }

    method ForgetWatch(w: Uuid)
      modifies this
      ensures View() == Forgotten(old(View()), w)
      ensures WaitsView() == old(WaitsView())
    {
      ghost var start := View();
      var i := Position(w);
      while i < |events|
        invariant i == FirstOwn(events, w)
        invariant Emptied(View(), w) == Emptied(start, w)
        invariant WaitsView() == old(WaitsView())
        decreases |events|
      {
        Discard(i);
        i := Position(w);
      }
      watches := watches - {w};
      retired := retired - {w};
    }

    /** The first loop of append: evict the watch's own oldest events. */
    method MakeOwnRoom(w: Uuid, size: nat)
      requires w in watches
      modifies this
      ensures View() == OwnEvicted(old(View()), w, size)
      ensures WaitsView() == old(WaitsView())
    {
      while !HasRoom(watches[w], size)
        invariant w in watches
        invariant OwnEvicted(View(), w, size) == OwnEvicted(old(View()), w, size)
        invariant WaitsView() == old(WaitsView())
        decreases |events|
      {
        var i := Position(w);
        if i == |events| {
          break;
        }
        Discard(i);
      }
    }

    /** The second loop of append: evict the oldest events of all. It stops because the accounts are in order. */
    method MakeFrontRoom(size: nat)
      requires Storable(View()) && size <= MAX_EVENT_BYTES
      modifies this
      ensures View() == FrontEvicted(old(View()), size)
      ensures WaitsView() == old(WaitsView())
    {
      while |events| >= MAX_EVENTS || bytes + size > MAX_BYTES
        invariant Storable(View())
        invariant FrontEvicted(View(), size) == FrontEvicted(old(View()), size)
        invariant WaitsView() == old(WaitsView())
        decreases |events|
      {
        DiscardKeepsStorable(View(), 0);
        Discard(0);
      }
    }

    /** The event as stored, and its size. */
    method Admit(e: Event, maxBytes: nat) returns (entry: Entry)
      ensures entry == Admitted(codec, e, maxBytes)
    {
      entry := Entry(e, codec.event(e));
      if entry.bytes > MAX_EVENT_BYTES || entry.bytes > maxBytes {
        var gap := LimitGap(e, entry.bytes);
        entry := Entry(gap, codec.event(gap));
      }
    }

    method Push(entry: Entry)
      modifies this
      ensures View() == Pushed(old(View()), entry)
      ensures WaitsView() == old(WaitsView())
    {
      var w := entry.event.watch;
      bytes := bytes + entry.bytes;
      events := events + [entry];
      if w in watches {
        watches := watches[w := WithRecorded(watches[w], entry)];
      }
    }

    method Append(w: Uuid, now: nat, kind: string, target: Target, payload: Json)
      requires codec.GapsFit() && Storable(View())
      modifies this
      ensures View() == Appended(codec, old(View()), w, now, kind, target, payload)
      ensures WaitsView() == old(WaitsView())
    {
      if w !in watches {
        return;
      }
      ghost var before := View();
      var e := Event(epoch, nextId, w, now, watches[w].source, kind, target, payload);
      nextId := nextId + 1;
      var entry := Admit(e, watches[w].limits.maxBytes);
      AppendPlan(codec, before, w, now, kind, target, payload, entry);
      assert View() == Issued(before);
      MakeOwnRoom(w, entry.bytes);
      MakeFrontRoom(entry.bytes);
      Push(entry);
    }

    // --- The provider's side ----------------------------------------------

    method Emit(w: Uuid, canceled: bool, now: nat, kind: string, target: Target, payload: Json)
      requires codec.GapsFit() && Storable(View())
      modifies this
      ensures View() == Applied(codec, old(View()), Op.Emit(w, canceled, now, kind, target, payload))
      ensures WaitsView() == old(WaitsView())
    {
      if canceled {
        return;
      }
      if w in watches && (watches[w].status == Starting || watches[w].status == Recording) {
        Append(w, now, kind, target, payload);
      }
    }

    method CountLost(w: Uuid, lostEvents: Option<nat>, lostBuffers: Option<nat>)
      modifies this`watches
      ensures View() == WithLosses(old(View()), w, lostEvents, lostBuffers)
    {
      if w in watches {
        var watch := watches[w];
        if lostEvents.Some? {
          watch := watch.(lostEvents := watch.lostEvents + lostEvents.value);
        }
        if lostBuffers.Some? {
          watch := watch.(lostBuffers := watch.lostBuffers + lostBuffers.value);
        }
        watches := watches[w := watch];
      }
    }

    method Lost(w: Uuid, now: nat, lostEvents: Option<nat>, lostBuffers: Option<nat>, reason: string)
      requires codec.GapsFit() && Storable(View())
      modifies this
      ensures View() == Applied(codec, old(View()), Op.Lost(w, now, lostEvents, lostBuffers, reason))
      ensures WaitsView() == old(WaitsView())
    {
      ghost var before := View();
      LossPlan(codec, before, w, now, lostEvents, lostBuffers, reason);
      CountLost(w, lostEvents, lostBuffers);
      Append(w, now, GAP, NO_TARGET, LostPayload(lostEvents, lostBuffers, reason));
    }

    method Fail(w: Uuid, now: nat, error: string)
      requires codec.GapsFit() && Storable(View())
      modifies this
      ensures View() == Applied(codec, old(View()), Op.Fail(w, now, error))
      ensures WaitsView() == old(WaitsView())
    {
      if w in watches {
        watches := watches[w := watches[w].(status := WatchStatus.Failed, error := Some(error))];
      }
      Append(w, now, "watch.failed", NO_TARGET, Object(map["error" := Str(error)]));
    }

    method Finish(w: Uuid)
      modifies this
      ensures View() == Applied(codec, old(View()), Op.Finish(w))
      ensures WaitsView() == old(WaitsView())
    {
      if w in watches && watches[w].status != WatchStatus.Failed {
        watches := watches[w := watches[w].(status := Stopped)];
      }
      if w in retired {
        ForgetWatch(w);
      }
    }

    method Ready(w: Uuid)
      modifies this`watches
      ensures View() == Applied(codec, old(View()), Op.Ready(w))
    {
      if w in watches && watches[w].status == WatchStatus.Starting {
        watches := watches[w := watches[w].(status := Recording)];
      }
    }

    method RequestStop(w: Uuid)
      modifies this`watches
      ensures View() == Applied(codec, old(View()), Op.RequestStop(w))
    {
      if w in watches && watches[w].status.Active() {
        watches := watches[w := watches[w].(status := Stopping)];
      }
    }

    // --- Readers ----------------------------------------------------------

    /** The page loop. */
    method ReadLoop(q: Query, from: nat, limit: nat) returns (found: seq<Event>, next: nat, exhausted: bool)
      ensures var scan := PageScan(View(), q, from, limit);
              found == scan.events && next == scan.next && exhausted == scan.exhausted
    {
      found, next, exhausted := [], from, true;
      var pageBytes: nat := 0;
      var i := 0;
      while i < |events|
        invariant i <= |events| && exhausted
        invariant Scanned(View(), q, from, limit, i, Scan(found, pageBytes, next, exhausted)) == PageScan(View(), q, from, limit)
      {
        var e := events[i].event;
        if e.id > from {
          var seen := e.watch in watches && Visible(watches[e.watch], q.owner);
          if seen && q.filter.Matches(e) {
            if |found| == limit || pageBytes + events[i].bytes > PAGE_BYTES {
              exhausted := false;
              break;
            }
            pageBytes := pageBytes + events[i].bytes;
            found := found + [e];
          }
          next := e.id;
        }
        i := i + 1;
      }
    }

    /** The watches a page speaks for and whether any of them has a gap past the cursor. */
    method Survey(q: Query, from: nat) returns (selected: set<Uuid>, retentionGap: bool, recordingGap: bool)
      ensures selected == Selected(View(), q)
      ensures retentionGap <==> exists w | w in selected :: watches[w].lastDroppedId > from
      ensures recordingGap <==> exists w | w in selected :: watches[w].lastGapId > from
    {
      selected := set w | w in watches
                          && Visible(watches[w], q.owner)
                          && (q.filter.watch.Some? ==> q.filter.watch.value == w)
                          && (q.filter.source.Some? ==> q.filter.source.value == watches[w].source);
      retentionGap := exists w | w in selected :: watches[w].lastDroppedId > from;
      recordingGap := exists w | w in selected :: watches[w].lastGapId > from;
    }

    method Refuse(q: Query, after: Option<Cursor>, limit: nat) returns (r: Option<ReadError>)
      ensures r == ObservationRead.Refused(codec, View(), q, after, limit)
    {
      if !q.filter.Accepted(codec) {
        return Some(InvalidFilter);
      }
      if !(1 <= limit <= MAX_PAGE) {
        return Some(InvalidLimit);
      }
      if q.filter.watch.Some? && !(q.filter.watch.value in watches && Visible(watches[q.filter.watch.value], q.owner)) {
        return Some(WatchNotFound);
      }
      var restarted := after.Some? && after.value.epoch != epoch;
      if after.Some? && !(after.value.id < nextId || restarted) {
        return Some(CursorAhead);
      }
      return None;
    }

    method Read(q: Query, after: Option<Cursor>, limit: nat) returns (r: Result<Page, ReadError>)
      ensures r == ReadPage(codec, View(), q, after, limit)
    {
      var refused := Refuse(q, after, limit);
      if refused.Some? {
        return Err(refused.value);
      }
      var restarted := after.Some? && after.value.epoch != epoch;
      var from := if after.None? || after.value.id >= nextId then 0 else after.value.id;
      var found, next, exhausted := ReadLoop(q, from, limit);
      if exhausted && nextId >= 1 {
        next := nextId - 1;
      }
      var selected, retentionGap, recordingGap := Survey(q, from);
      r := Ok(Page(
                epoch, Cursor(epoch, next), if events == [] then None else Some(events[0].event.id),
                retentionGap, recordingGap, restarted, found, selected));
    }

    // --- Waits ------------------------------------------------------------

    method FinishWait(id: Uuid, ending: Ending)
      modifies this
      ensures WaitsView() == Ended(old(WaitsView()), id, ending)
      ensures View() == old(View())
    {
      if id in waits && waits[id].outcome == Running {
        var record := waits[id];
        record := record.(outcome := ending.outcome, event := ending.event, error := ending.error);
        if ending.cursor.Some? {
          record := record.(cursor := ending.cursor.value);
        }
        waits := waits[id := record];
        waitCancels := waitCancels - {id};
      }
    }

    /** Cancel the token of one wait; its task or the caller ends the record. */
    method SignalWait(id: Uuid)
      modifies this`outside
      ensures WaitsView() == old(WaitsView()).(signaled := old(WaitsView()).signaled + ({id} * old(WaitsView()).handles))
    {
      if id in waitCancels {
        outside := outside.(signaled := outside.signaled + {id});
      }
    }

    /** A host that shuts down cancels every token and leaves the records to the tasks. */
    method SignalWaits()
      modifies this`outside
      ensures WaitsView() == old(WaitsView()).(signaled := old(WaitsView()).signaled + old(WaitsView()).handles)
    {
      var todo := waitCancels;
      while todo != {}
        invariant todo <= waitCancels
        invariant outside == old(outside).(signaled := old(outside.signaled) + (waitCancels - todo))
        decreases todo
      {
        var id :| id in todo;
        outside := outside.(signaled := outside.signaled + {id});
        todo := todo - {id};
      }
      assert waitCancels - {} == waitCancels;
    }

    method SweepWaits(owner: Uuid)
      modifies this
      ensures WaitsView() == Swept(old(WaitsView()), owner)
      ensures View() == old(View())
    {
      var ids := set id | id in waits && OwnedBy(waits[id], owner);
      var todo := ids;
      while todo != {}
        invariant todo <= ids
        invariant waits == old(waits) - (ids - todo)
        invariant waitCancels == old(waitCancels) - (ids - todo)
        invariant outside == old(outside).(signaled := outside.signaled)
        invariant outside.signaled == old(outside.signaled) + ((ids - todo) * old(waitCancels))
        invariant View() == old(View())
        decreases todo
      {
        var id :| id in todo;
        if id in waitCancels {
          outside := outside.(signaled := outside.signaled + {id});
          waitCancels := waitCancels - {id};
        }
        waits := waits - {id};
        todo := todo - {id};
        assert ids - (todo + {id}) + {id} == ids - todo;
      }
      assert ids - {} == ids;
      outside := outside.(swept := outside.swept + {owner});
    }

    /** A failed checkpoint: every persistent active watch fails, then every persistent running wait. */
    method LosePersistence(error: string)
      modifies this
      ensures View() == Applied(codec, old(View()), CheckpointFailed(error))
      ensures WaitsView() == StoreLost(old(WaitsView()), error)
    {
      FailWatches(error);
      FailWaits(error);
    }

    method FailWatches(error: string)
      modifies this`watches
      ensures View() == Prepared(old(View()), CheckpointFailed(error))
    {
      var active := set w | w in watches && watches[w].lifetime == Persistent && watches[w].status.Active();
      var todo := active;
      while todo != {}
        invariant todo <= active && watches.Keys == old(watches).Keys
        invariant forall w | w in watches ::
                    watches[w] == if w in todo then old(watches)[w] else PersistenceFailed(old(watches)[w], error)
        decreases todo
      {
        var w :| w in todo;
        watches := watches[w := watches[w].(status := WatchStatus.Failed, error := Some("persistence failed: " + error))];
        todo := todo - {w};
      }
      assert watches == Prepared(old(View()), CheckpointFailed(error)).watches;
    }

    method FailWaits(error: string)
      modifies this`waits, this`waitCancels, this`outside
      ensures WaitsView() == StoreLost(old(WaitsView()), error)
    {
      var running := set id | id in waits && waits[id].spec.lifetime == Persistent && waits[id].outcome == Running;
      var todo := running;
      while todo != {}
        invariant todo <= running && waits.Keys == old(waits).Keys
        invariant forall id | id in waits ::
                    waits[id] == if id in todo then old(waits)[id] else FailedWithStore(old(waits)[id], error)
        invariant waitCancels == old(waitCancels) - (running - todo)
        invariant outside == old(outside).(signaled := outside.signaled)
        invariant outside.signaled == old(outside.signaled) + ((running - todo) * old(waitCancels))
        decreases todo
      {
        var id :| id in todo;
        waits := waits[id := waits[id].(outcome := Outcome.Failed, error := Some(PersistenceLost(error)))];
        if id in waitCancels {
          outside := outside.(signaled := outside.signaled + {id});
          waitCancels := waitCancels - {id};
        }
        todo := todo - {id};
        assert running - (todo + {id}) + {id} == running - todo;
      }
      assert running - {} == running;
      assert waits == StoreLost(old(WaitsView()), error).records;
    }

    // --- Checkpoints ------------------------------------------------------

    /** The retained events of a set of watches, in order. */
    method KeptEvents(keys: set<Uuid>) returns (kept: seq<ObservationLog.Event>)
      ensures kept == KeptOf(events, keys)
    {
      kept := [];
      for i := 0 to |events|
        invariant KeptOf(events, keys) == kept + KeptOf(events[i..], keys)
      {
        KeptTurn(events[i..], keys, kept);
        assert events[i..][1..] == events[i + 1..];
        if events[i].event.watch in keys {
          kept := kept + [events[i].event];
        }
      }
    }

    method TakeSnapshot() returns (snap: Snapshot)
      ensures snap == Taken(View(), WaitsView())
    {
      var watchIds := InOrder(set w | w in watches && watches[w].lifetime == Persistent);
      var waitIds := InOrder(set id | id in waits && waits[id].spec.lifetime == Persistent);
      var kept := KeptEvents(set w | w in watches && watches[w].lifetime == Persistent);
      snap := Snapshot(
        1, epoch, nextId, droppedEvents, droppedBytes, SavedWatches(watches, watchIds), SavedWaits(waits, waitIds), kept);
    }
  }

  function KeptOf(es: seq<Entry>, keys: set<Uuid>): seq<ObservationLog.Event> { EventsOf(EntriesOf(es, keys)) }

  lemma KeptTurn(es: seq<Entry>, keys: set<Uuid>, kept: seq<ObservationLog.Event>)
    requires es != []
    ensures kept + KeptOf(es, keys)
         == (if es[0].event.watch in keys then kept + [es[0].event] else kept) + KeptOf(es[1..], keys)
  {
    var rest := EntriesOf(es[1..], keys);
    if es[0].event.watch in keys {
      assert ([es[0]] + rest)[1..] == rest;
    } else {
      assert [] + rest == rest;
    }
  }

  /** All that the loops of append need to stop: the byte total is right and the limits were validated. */
  ghost predicate Storable(log: Log) {
    && log.bytes == SumBytes(log.events)
    && forall w | w in log.watches :: log.watches[w].limits.Accepted()
  }

  lemma DiscardKeepsStorable(log: Log, i: nat)
    requires Storable(log)
    ensures Storable(Discarded(log, i))
  {
    if i < |log.events| {
      RemovedSums(log.events, i, log.events[i].event.watch);
    }
  }

  lemma {:induction false} OwnEvictionKeepsStorable(log: Log, w: Uuid, size: nat)
    requires Storable(log)
    ensures Storable(OwnEvicted(log, w, size))
    decreases |log.events|
  {
    if w in log.watches && !HasRoom(log.watches[w], size) && FirstOwn(log.events, w) < |log.events| {
      DiscardKeepsStorable(log, FirstOwn(log.events, w));
      OwnEvictionKeepsStorable(Discarded(log, FirstOwn(log.events, w)), w, size);
    }
  }

  lemma {:induction false} FrontEvictionKeepsStorable(log: Log, size: nat)
    requires Storable(log)
    ensures Storable(FrontEvicted(log, size))
    decreases |log.events|
  {
    if log.events != [] && Crowded(log, size) {
      DiscardKeepsStorable(log, 0);
      FrontEvictionKeepsStorable(Discarded(log, 0), size);
    }
  }

  lemma AppendKeepsStorable(codec: Codec, log: Log, w: Uuid, now: nat, kind: string, target: Target, payload: Json)
    requires Storable(log)
    ensures Storable(Appended(codec, log, w, now, kind, target, payload))
    ensures Appended(codec, log, w, now, kind, target, payload).watches.Keys == log.watches.Keys
  {
    if w in log.watches {
      var entry := NewEntry(codec, log, w, now, kind, target, payload);
      OwnEvictionKeepsStorable(Issued(log), w, entry.bytes);
      OwnEvictionReduces(Issued(log), w, entry.bytes);
      var own := OwnEvicted(Issued(log), w, entry.bytes);
      FrontEvictionKeepsStorable(own, entry.bytes);
      FrontEvictionReduces(own, entry.bytes);
      SumAppend(FrontEvicted(own, entry.bytes).events, [entry]);
    }
  }

  /** What append relies on once it knows the entry. */
  lemma AppendPlan(
    codec: Codec, log: Log, w: Uuid, now: nat, kind: string, target: Target, payload: Json, entry: Entry)
    requires codec.GapsFit() && Storable(log) && w in log.watches
    requires entry == NewEntry(codec, log, w, now, kind, target, payload)
    ensures entry.bytes <= MAX_EVENT_BYTES && entry.event.watch == w
    ensures Storable(OwnEvicted(Issued(log), w, entry.bytes))
    ensures Appended(codec, log, w, now, kind, target, payload)
         == Pushed(FrontEvicted(OwnEvicted(Issued(log), w, entry.bytes), entry.bytes), entry)
  {
    AdmittedFits(codec, NewEvent(log, w, now, kind, target, payload), log.watches[w].limits.maxBytes);
    OwnEvictionKeepsStorable(Issued(log), w, entry.bytes);
  }

  /** Counting a loss leaves append's needs as they are, and the gap follows it. */
  lemma LossPlan(codec: Codec, log: Log, w: Uuid, now: nat, events: Option<nat>, buffers: Option<nat>, reason: string)
    requires Storable(log)
    ensures var counted := WithLosses(log, w, events, buffers);
            && Storable(counted)
            && Applied(codec, log, Op.Lost(w, now, events, buffers, reason))
               == Appended(codec, counted, w, now, GAP, NO_TARGET, LostPayload(events, buffers, reason))
  {}

  method LoadWatches(saved: seq<SavedWatch>) returns (r: Result<map<Uuid, Watch>, RestoreError>)
    ensures r == LoadedWatches(map[], saved)
    ensures r.Ok? ==> forall w | w in r.value :: r.value[w].limits.Accepted()
  {
    var watches: map<Uuid, Watch> := map[];
    for i := 0 to |saved|
      invariant LoadedWatches(watches, saved[i..]) == LoadedWatches(map[], saved)
      invariant forall w | w in watches :: watches[w].limits.Accepted()
    {
      var record := saved[i];
      assert saved[i..][1..] == saved[i + 1..];
      if record.watch.lifetime != Persistent { return Err(ConnectionWatch); }
      if !record.watch.limits.Accepted() { return Err(InvalidWatch); }
      if record.id in watches { return Err(DuplicateWatch); }
      watches := watches[record.id := Interrupted(record.watch)];
    }
    return Ok(watches);
  }

  method LoadWaits(codec: Codec, saved: seq<SavedWait>) returns (r: Result<map<Uuid, Wait>, RestoreError>)
    ensures r == LoadedWaits(codec, map[], saved)
  {
    var waits: map<Uuid, Wait> := map[];
    for i := 0 to |saved|
      invariant LoadedWaits(codec, waits, saved[i..]) == LoadedWaits(codec, map[], saved)
    {
      var record := saved[i];
      assert saved[i..][1..] == saved[i + 1..];
      if record.wait.spec.lifetime != Persistent { return Err(ConnectionWait); }
      if !record.wait.spec.filter.Accepted(codec) { return Err(InvalidWaitFilter); }
      if record.id in waits { return Err(DuplicateWait); }
      waits := waits[record.id := InterruptedWait(record.wait)];
    }
    return Ok(waits);
  }

  /** Put the retained events back into a store that has its watches; an error abandons the store. */
  method LoadEvents(store: Store, events: seq<Event>) returns (error: Option<RestoreError>)
    requires Storable(store.View())
    modifies store
    ensures match LoadedEvents(store.codec, old(store.View()), events, 0)
            case Ok(log) => error.None? && store.View() == log && Storable(log)
            case Err(e) => error == Some(e)
    ensures store.WaitsView() == old(store.WaitsView())
  {
    var previous: nat := 0;
    for i := 0 to |events|
      invariant LoadedEvents(store.codec, store.View(), events[i..], previous)
             == LoadedEvents(store.codec, old(store.View()), events, 0)
      invariant Storable(store.View()) && store.WaitsView() == old(store.WaitsView())
    {
      var e := events[i];
      var entry := Entry(e, store.codec.event(e));
      assert events[i..][1..] == events[i + 1..];
      if !(previous < e.id < store.nextId) { return Some(EventOrder); }
      if e.watch !in store.watches { return Some(EventWithoutWatch); }
      if entry.bytes > MAX_EVENT_BYTES || store.bytes + entry.bytes > MAX_BYTES { return Some(OverBytes); }
      SumAppend(store.events, [entry]);
      store.bytes := store.bytes + entry.bytes;
      var watch := store.watches[e.watch];
      store.watches := store.watches[e.watch :=
        watch.(retainedEvents := watch.retainedEvents + 1, retainedBytes := watch.retainedBytes + entry.bytes)];
      store.events := store.events + [entry];
      previous := e.id;
    }
    return None;
  }

  /** Append the restart gap of every watch. */
  method AppendMarkers(store: Store, order: seq<Uuid>, now: nat, previousEpoch: Uuid)
    requires store.codec.GapsFit() && Storable(store.View())
    modifies store
    ensures store.View() == Markers(store.codec, old(store.View()), order, now, previousEpoch)
    ensures store.WaitsView() == old(store.WaitsView())
  {
    for i := 0 to |order|
      invariant Markers(store.codec, store.View(), order[i..], now, previousEpoch)
             == Markers(store.codec, old(store.View()), order, now, previousEpoch)
      invariant Storable(store.View()) && store.WaitsView() == old(store.WaitsView())
    {
      assert order[i..][1..] == order[i + 1..];
      AppendKeepsStorable(store.codec, store.View(), order[i], now, GAP, NO_TARGET, MarkerPayload(previousEpoch));
      store.Append(order[i], now, GAP, NO_TARGET, MarkerPayload(previousEpoch));
    }
  }

  /** Restoring any snapshot, well formed or not: it succeeds exactly when `Restore` does, with the same store. */
  method RestoreStore(codec: Codec, snap: Snapshot, epoch: Uuid, now: nat) returns (store: Store, error: Option<RestoreError>)
    requires codec.GapsFit()
    ensures fresh(store)
    ensures match Restore(codec, snap, epoch, now)
            case Ok(restored) =>
              error.None? && store.View() == restored.log && store.waits == restored.waits && store.waitCancels == {}
            case Err(e) => error == Some(e)
  {
    store := new Store(codec, epoch);
    error := ObservationRestart.Refused(snap);
    if error.Some? { return; }
    var watches := LoadWatches(snap.watches);
    if watches.Err? { return store, Some(watches.error); }
    var waits := LoadWaits(codec, snap.waits);
    if waits.Err? { return store, Some(waits.error); }
    store.Begin(snap, watches.value, waits.value);
    error := LoadEvents(store, snap.events);
    if error.Some? { return; }
    AppendMarkers(store, InOrder(store.watches.Keys), now, snap.epoch);
  }
}
