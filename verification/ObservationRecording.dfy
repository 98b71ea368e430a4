/**
 What recording is for: an event that a live watch emits is what its reader gets
 next, a watch stops for good at its recording limit or when it is told to, and
 the watches of a closed connection are forgotten.
 */
module ObservationRecording {
  import opened Wrappers
  import opened JsonValue
  import opened ObservationLog
  import opened ObservationAccounting
  import opened ObservationHistory
  import opened ObservationRead

  // --- An emitted event is delivered ----------------------------------------

  /** The event as its provider described it. */
  function Described(log: Log, w: Uuid, now: nat, kind: string, target: Target, payload: Json): Event
    requires w in log.watches
  {
    Event(log.epoch, log.nextId, w, now, log.watches[w].source, kind, target, payload)
  }

  predicate FitsIn(codec: Codec, watch: Watch, e: Event) {
    codec.event(e) <= MAX_EVENT_BYTES && codec.event(e) <= watch.limits.maxBytes
  }

  lemma EmissionIsStored(codec: Codec, log: Log, past: Past, op: Op)
    requires codec.GapsFit() && Good(log, past) && op.Emit? && !op.canceled
    requires op.watch in log.watches && log.watches[op.watch].status.Live()
    ensures var e := Described(log, op.watch, op.now, op.kind, op.target, op.payload);
            var after := Applied(codec, log, op);
            && |after.events| > 0
            && after.nextId == log.nextId + 1 && after.epoch == log.epoch
            && (FitsIn(codec, log.watches[op.watch], e) ==> after.events[|after.events| - 1] == Entry(e, codec.event(e)))
            && Remembered(codec, log, past, op).events == past.events + {after.events[|after.events| - 1].event}
  {
    var entry := NewEntry(codec, log, op.watch, op.now, op.kind, op.target, op.payload);
    AppendIsAPush(codec, log, op.watch, op.now, op.kind, op.target, op.payload, entry);
    AdmittedFits(codec, NewEvent(log, op.watch, op.now, op.kind, op.target, op.payload), log.watches[op.watch].limits.maxBytes);
    EvictionsKeepTheRest(Issued(log), op.watch, entry.bytes);
  }

  lemma EvictionsKeepTheRest(log: Log, w: Uuid, bytes: nat)
    ensures var front := FrontEvicted(OwnEvicted(log, w, bytes), bytes);
            front.nextId == log.nextId && front.epoch == log.epoch
  {
    OwnEvictionReduces(log, w, bytes);
    FrontEvictionReduces(OwnEvicted(log, w, bytes), bytes);
  }

  /** The newest entry is the one hit behind the cursor before it. */
  lemma NewestIsTheHit(log: Log, q: Query, from: nat)
    requires Ordered(log.events, log.nextId) && log.events != [] && log.nextId == from + 2
    requires log.events[|log.events| - 1].event.id == from + 1 && Hit(log, q, log.events[|log.events| - 1].event)
    ensures Hits(log, q, from, 0) == [log.events[|log.events| - 1]]
  {
    HitsBelong(log, q, from, 0);
    var hits, last := Hits(log, q, from, 0), log.events[|log.events| - 1];
    assert last in hits;
    if |hits| > 1 {
      TwoIdentifiers(hits);
    }
    forall k | 0 <= k < |hits| ensures hits[k].event.id == from + 1 {
      assert hits[k] in hits;
    }
  }

  lemma TwoIdentifiers(hits: seq<Entry>)
    requires |hits| > 1 && Increasing(hits)
    ensures hits[0].event.id != hits[1].event.id
  {}

  /**
   The delivery theorem: what a live watch emits is exactly the next page of
   anyone who reads on from before it, may see the watch and asks for it: the
   event as described, once, without a gap report.
   */
  lemma EmittedIsDelivered(codec: Codec, log: Log, past: Past, op: Op, q: Query, limit: nat)
    requires codec.GapsFit() && Good(log, past) && op.Emit? && !op.canceled && op.kind != GAP
    requires op.watch in log.watches && log.watches[op.watch].status.Live() && Visible(log.watches[op.watch], q.owner)
    requires q.filter.Accepted(codec) && 1 <= limit <= MAX_PAGE
    requires q.filter.watch.Some? ==> q.filter.watch.value == op.watch
    requires var e := Described(log, op.watch, op.now, op.kind, op.target, op.payload);
             FitsIn(codec, log.watches[op.watch], e) && q.filter.Matches(e)
    ensures var e := Described(log, op.watch, op.now, op.kind, op.target, op.payload);
            var r := ReadPage(codec, Applied(codec, log, op), q, Some(Cursor(log.epoch, log.nextId - 1)), limit);
            && r.Ok? && r.value.events == [e] && r.value.next == Cursor(log.epoch, log.nextId)
            && !r.value.retentionGap && !r.value.recordingGap && !r.value.restarted
  {
    ValidAfterEmit(codec, log, past, op);
    HitAfterEmit(codec, log, past, op, q);
    MarksAfterEmit(codec, log, past, op);
    var e := Described(log, op.watch, op.now, op.kind, op.target, op.payload);
    NextPage(codec, log, Applied(codec, log, op), e, q, limit);
  }

  /** The log has grown by one event, the newest, that the query wants; nothing as new was dropped or is a gap. */
  lemma NextPage(codec: Codec, log: Log, after: Log, e: Event, q: Query, limit: nat)
    requires Valid(after) && after.events != [] && after.events[|after.events| - 1].event == e && Hit(after, q, e)
    requires after.nextId == log.nextId + 1 && after.epoch == log.epoch && e.id == log.nextId >= 1
    requires forall v | v in after.watches :: after.watches[v].lastDroppedId < log.nextId && after.watches[v].lastGapId < log.nextId
    requires q.filter.Accepted(codec) && 1 <= limit <= MAX_PAGE && (q.filter.watch.Some? ==> q.filter.watch.value == e.watch)
    ensures var r := ReadPage(codec, after, q, Some(Cursor(log.epoch, log.nextId - 1)), limit);
            && r.Ok? && r.value.events == [e] && r.value.next == Cursor(log.epoch, log.nextId)
            && !r.value.retentionGap && !r.value.recordingGap && !r.value.restarted
  {
    PageOfOne(codec, after, q, log.nextId - 1, limit, e.watch);
  }

  lemma HitAfterEmit(codec: Codec, log: Log, past: Past, op: Op, q: Query)
    requires codec.GapsFit() && Good(log, past) && op.Emit? && !op.canceled
    requires op.watch in log.watches && log.watches[op.watch].status.Live() && Visible(log.watches[op.watch], q.owner)
    requires var e := Described(log, op.watch, op.now, op.kind, op.target, op.payload);
             FitsIn(codec, log.watches[op.watch], e) && q.filter.Matches(e)
    ensures var e := Described(log, op.watch, op.now, op.kind, op.target, op.payload);
            var after := Applied(codec, log, op);
            && |after.events| > 0 && after.events[|after.events| - 1].event == e && Hit(after, q, e)
            && after.nextId == log.nextId + 1 && after.epoch == log.epoch
  {
    EmissionIsStored(codec, log, past, op);
    WatchAfterEmit(codec, log, past, op);
  }

  lemma ValidAfterEmit(codec: Codec, log: Log, past: Past, op: Op)
    requires codec.GapsFit() && Good(log, past) && op.Emit?
    ensures Valid(Applied(codec, log, op))
  {
    StepKeepsGood(codec, log, past, op);
  }

  /** Reading on just before the newest entry, when nothing newer was dropped or is a gap. */
  lemma PageOfOne(codec: Codec, log: Log, q: Query, from: nat, limit: nat, w: Uuid)
    requires Valid(log) && log.events != [] && log.nextId == from + 2
    requires var e := log.events[|log.events| - 1].event; e.id == from + 1 && e.watch == w && Hit(log, q, e)
    requires q.filter.Accepted(codec) && 1 <= limit <= MAX_PAGE && (q.filter.watch.Some? ==> q.filter.watch.value == w)
    requires forall v | v in log.watches :: log.watches[v].lastDroppedId <= from && log.watches[v].lastGapId <= from
    ensures var r := ReadPage(codec, log, q, Some(Cursor(log.epoch, from)), limit);
            && r.Ok? && r.value.events == [log.events[|log.events| - 1].event] && r.value.next == Cursor(log.epoch, from + 1)
            && !r.value.retentionGap && !r.value.recordingGap && !r.value.restarted
  {
    NewestIsTheHit(log, q, from);
    NoMarks(codec, log, q, Cursor(log.epoch, from), limit);
    PageMeaning(codec, log, q, Some(Cursor(log.epoch, from)), limit);
    var page := ReadPage(codec, log, q, Some(Cursor(log.epoch, from)), limit).value;
    OneHit(page, log, log.events[|log.events| - 1], from, limit);
  }

  lemma OneHit(page: Page, log: Log, entry: Entry, from: nat, limit: nat)
    requires PageOf(page, log, [entry], from, limit, |page.events|)
    ensures page.events == [entry.event] && page.next == Cursor(log.epoch, log.nextId - 1)
  {}

  lemma NoMarks(codec: Codec, log: Log, q: Query, cursor: Cursor, limit: nat)
    requires q.filter.Accepted(codec) && 1 <= limit <= MAX_PAGE && cursor.epoch == log.epoch && cursor.id < log.nextId
    requires q.filter.watch.Some? ==> Sees(log, q.owner, q.filter.watch.value)
    requires forall v | v in log.watches :: log.watches[v].lastDroppedId <= cursor.id && log.watches[v].lastGapId <= cursor.id
    ensures var r := ReadPage(codec, log, q, Some(cursor), limit);
            && r.Ok? && !r.value.retentionGap && !r.value.recordingGap && !r.value.restarted
  {}

  lemma WatchAfterEmit(codec: Codec, log: Log, past: Past, op: Op)
    requires codec.GapsFit() && Good(log, past) && op.Emit? && op.watch in log.watches
    ensures var after := Applied(codec, log, op);
            && op.watch in after.watches
            && forall owner :: Visible(after.watches[op.watch], owner) == Visible(log.watches[op.watch], owner)
  {
    StepKeepsGood(codec, log, past, op);
    EmitKeepsWatches(codec, log, op);
  }

  lemma EmitKeepsWatches(codec: Codec, log: Log, op: Op)
    requires op.Emit?
    ensures Applied(codec, log, op).watches.Keys == log.watches.Keys
  {
    if !op.canceled && op.watch in log.watches && log.watches[op.watch].status.Live() {
      var entry := NewEntry(codec, log, op.watch, op.now, op.kind, op.target, op.payload);
      AppendIsAPush(codec, log, op.watch, op.now, op.kind, op.target, op.payload, entry);
      OwnEvictionReduces(Issued(log), op.watch, entry.bytes);
      FrontEvictionReduces(OwnEvicted(Issued(log), op.watch, entry.bytes), entry.bytes);
    }
  }

  /** An eviction only drops what is older than the event that needs the room. */
  lemma PushKeepsMarks(log: Log, entry: Entry, id: nat)
    requires AllBefore(log, id) && entry.event.kind != GAP
    ensures forall w | w in Pushed(log, entry).watches ::
              Pushed(log, entry).watches[w].lastDroppedId < id && Pushed(log, entry).watches[w].lastGapId < id
  {}

  lemma MarksAfterEmit(codec: Codec, log: Log, past: Past, op: Op)
    requires codec.GapsFit() && Good(log, past) && op.Emit? && op.kind != GAP
    requires op.watch in log.watches && FitsIn(codec, log.watches[op.watch], Described(log, op.watch, op.now, op.kind, op.target, op.payload))
    ensures forall w | w in Applied(codec, log, op).watches ::
              Applied(codec, log, op).watches[w].lastDroppedId < log.nextId && Applied(codec, log, op).watches[w].lastGapId < log.nextId
  {
    if !op.canceled && log.watches[op.watch].status.Live() {
      var entry := NewEntry(codec, log, op.watch, op.now, op.kind, op.target, op.payload);
      AppendIsAPush(codec, log, op.watch, op.now, op.kind, op.target, op.payload, entry);
      AdmittedFits(codec, NewEvent(log, op.watch, op.now, op.kind, op.target, op.payload), log.watches[op.watch].limits.maxBytes);
      var own := OwnEvicted(Issued(log), op.watch, entry.bytes);
      OwnEvictionDropsOld(Issued(log), op.watch, entry.bytes, log.nextId);
      FrontEvictionDropsOld(own, entry.bytes, log.nextId);
      PushKeepsMarks(FrontEvicted(own, entry.bytes), entry, log.nextId);
    }
  }

  /** Everything in the log, and everything marked as dropped or as a gap, is older than an identifier. */
  ghost predicate AllBefore(log: Log, id: nat) {
    && (forall entry | entry in log.events :: entry.event.id < id)
    && (forall w | w in log.watches :: log.watches[w].lastDroppedId < id && log.watches[w].lastGapId < id)
  }

  lemma DiscardDropsOld(log: Log, i: nat, id: nat)
    requires AllBefore(log, id)
    ensures AllBefore(Discarded(log, i), id)
  {}

  lemma {:induction false} OwnEvictionDropsOld(log: Log, w: Uuid, bytes: nat, id: nat)
    requires AllBefore(log, id)
    ensures AllBefore(OwnEvicted(log, w, bytes), id)
    decreases |log.events|
  {
    if w in log.watches && !HasRoom(log.watches[w], bytes) && FirstOwn(log.events, w) < |log.events| {
      DiscardDropsOld(log, FirstOwn(log.events, w), id);
      OwnEvictionDropsOld(Discarded(log, FirstOwn(log.events, w)), w, bytes, id);
    }
  }

  lemma {:induction false} FrontEvictionDropsOld(log: Log, bytes: nat, id: nat)
    requires AllBefore(log, id)
    ensures AllBefore(FrontEvicted(log, bytes), id)
    decreases |log.events|
  {
    if log.events != [] && Crowded(log, bytes) {
      DiscardDropsOld(log, 0, id);
      FrontEvictionDropsOld(Discarded(log, 0), bytes, id);
    }
  }

  // --- A watch stops for good -----------------------------------------------

  /** The recording limit, in events or in bytes. */
  predicate Spent(watch: Watch) {
    watch.recordedEvents >= watch.limits.maxRecordedEvents || watch.recordedBytes >= watch.limits.maxRecordedBytes
  }

  /** In every reachable log, a watch at its limit is not live. */
  lemma SpentIsNotLive(log: Log, w: Uuid)
    requires Valid(log) && w in log.watches && Spent(log.watches[w])
    ensures !log.watches[w].status.Live()
  {
    assert Unspent(log.watches[w]);
  }

  /** What ends a watch: being told to stop, a failure, the end of its provider, and for a persistent one the loss of its checkpoint. */
  predicate Stops(log: Log, op: Op, w: Uuid) {
    || op == RequestStop(w)
    || (op.Fail? && op.watch == w)
    || op == Finish(w)
    || (op.CheckpointFailed? && w in log.watches && log.watches[w].lifetime == Persistent)
  }

  lemma StopStops(codec: Codec, log: Log, past: Past, op: Op, w: Uuid)
    requires codec.GapsFit() && Good(log, past) && Stops(log, op, w) && w in past.used
    ensures w in Applied(codec, log, op).watches ==> !Applied(codec, log, op).watches[w].status.Live()
  {
    PreparedStops(log, op, w);
    match Emission(log, op)
    case None => SilentStep(codec, log, past, op);
    case Some(s) =>
      EmissionIsForAWatch(log, op);
      assert past.used + {} == past.used;
      PreparationKeepsGood(log, past, op);
      SignalKeepsQuiet(codec, Prepared(log, op), past, s, w);
  }

  lemma SignalKeepsQuiet(codec: Codec, log: Log, past: Past, s: Signal, w: Uuid)
    requires codec.GapsFit() && Good(log, past) && s.watch in log.watches && w in past.used
    requires w in log.watches ==> !log.watches[w].status.Live()
    ensures w in Signaled(codec, log, s).watches ==> !Signaled(codec, log, s).watches[w].status.Live()
  {
    AppendKeepsGood(codec, log, past, s);
  }

  lemma PreparedStops(log: Log, op: Op, w: Uuid)
    requires Stops(log, op, w)
    ensures w in Prepared(log, op).watches ==> !Prepared(log, op).watches[w].status.Live()
  {
    if op.Finish? {
      HaltStops(log, w);
      ForgottenIsGone(Halted(log, w), w);
    }
  }

  lemma HaltStops(log: Log, w: Uuid)
    ensures w in Halted(log, w).watches ==> !Halted(log, w).watches[w].status.Live()
  {}

  lemma ForgottenIsGone(log: Log, w: Uuid)
    ensures w !in Forgotten(log, w).watches
  {
    assert w !in Emptied(log, w).watches - {w};
  }

  /** Over every run, a watch that is not live never records what its provider emits. */
  lemma StoppedStaysQuiet(codec: Codec, log: Log, past: Past, ops: seq<Op>, emit: Op)
    requires codec.GapsFit() && Good(log, past) && RunEnabled(codec, log, past, ops)
    requires emit.Emit? && emit.watch in log.watches && !log.watches[emit.watch].status.Live()
    ensures var (log', _) := Run(codec, log, past, ops);
            Applied(codec, log', emit) == log' && RecordedBy(codec, log', emit) == {}
  {
    RunKeepsGood(codec, log, past, ops);
  }

  /** In particular nothing is recorded once a recording limit was reached. */
  lemma NothingPastTheLimit(codec: Codec, log: Log, past: Past, ops: seq<Op>, emit: Op)
    requires codec.GapsFit() && Good(log, past) && RunEnabled(codec, log, past, ops)
    requires emit.Emit? && emit.watch in log.watches && Spent(log.watches[emit.watch])
    ensures var (log', _) := Run(codec, log, past, ops);
            && Applied(codec, log', emit) == log' && RecordedBy(codec, log', emit) == {}
            && (emit.watch in log'.watches ==> Spent(log'.watches[emit.watch]) && !log'.watches[emit.watch].status.Live())
  {
    SpentIsNotLive(log, emit.watch);
    StoppedStaysQuiet(codec, log, past, ops, emit);
    RunKeepsGood(codec, log, past, ops);
  }

  /** A live watch that emits goes on, in the same state, exactly until its limit; then it is stopping. */
  lemma EmitDecides(codec: Codec, log: Log, past: Past, op: Op)
    requires codec.GapsFit() && Good(log, past) && op.Emit? && !op.canceled
    requires op.watch in log.watches && log.watches[op.watch].status.Live()
    ensures var after := Applied(codec, log, op);
            && op.watch in after.watches
            && var was, now := log.watches[op.watch], after.watches[op.watch];
               now.status == (if Spent(now) then Stopping else was.status)
               && now.recordedEvents == was.recordedEvents + 1
  {
    var entry := NewEntry(codec, log, op.watch, op.now, op.kind, op.target, op.payload);
    AppendIsAPush(codec, log, op.watch, op.now, op.kind, op.target, op.payload, entry);
    AdmittedFits(codec, NewEvent(log, op.watch, op.now, op.kind, op.target, op.payload), log.watches[op.watch].limits.maxBytes);
    OwnEvictionReduces(Issued(log), op.watch, entry.bytes);
    FrontEvictionReduces(OwnEvicted(Issued(log), op.watch, entry.bytes), entry.bytes);
  }

  // --- What is told of losses and failures -------------------------------------

  /** A loss that a provider reports is on its watch's account, and a gap newer than everything before tells of it. */
  lemma LossIsTold(codec: Codec, log: Log, past: Past, op: Op)
    requires codec.GapsFit() && Good(log, past) && op.Lost? && op.watch in log.watches
    ensures var after := Applied(codec, log, op);
            && op.watch in after.watches
            && var was, now := log.watches[op.watch], after.watches[op.watch];
               && now.lostEvents == was.lostEvents + (if op.events.Some? then op.events.value else 0)
               && now.lostBuffers == was.lostBuffers + (if op.buffers.Some? then op.buffers.value else 0)
               && now.lastGapId == log.nextId && after.nextId == log.nextId + 1
  {
    GapIsMarked(codec, Prepared(log, op), Emission(log, op).value);
  }

  lemma GapIsMarked(codec: Codec, log: Log, s: Signal)
    requires s.watch in log.watches && s.kind == GAP
    ensures var after := Signaled(codec, log, s);
            && s.watch in after.watches && after.nextId == log.nextId + 1
            && after.watches[s.watch].lastGapId == log.nextId
            && after.watches[s.watch].lostEvents == log.watches[s.watch].lostEvents
            && after.watches[s.watch].lostBuffers == log.watches[s.watch].lostBuffers
  {
    var entry := NewEntry(codec, log, s.watch, s.now, s.kind, s.target, s.payload);
    AppendIsAPush(codec, log, s.watch, s.now, s.kind, s.target, s.payload, entry);
    OwnEvictionReduces(Issued(log), s.watch, entry.bytes);
    FrontEvictionReduces(OwnEvicted(Issued(log), s.watch, entry.bytes), entry.bytes);
  }

  /** A failure is in the watch's record, and an event tells of it. */
  lemma FailureIsTold(codec: Codec, log: Log, past: Past, op: Op)
    requires codec.GapsFit() && Good(log, past) && op.Fail? && op.watch in log.watches
    ensures var after := Applied(codec, log, op);
            && op.watch in after.watches && after.events != []
            && after.watches[op.watch].status == WatchStatus.Failed && after.watches[op.watch].error == Some(op.error)
            && var e := after.events[|after.events| - 1].event;
               e.watch == op.watch && e.id == log.nextId && (e.kind == "watch.failed" || e.kind == GAP)
  {
    FailureIsStored(codec, Prepared(log, op), Emission(log, op).value);
  }

  lemma FailureIsStored(codec: Codec, log: Log, s: Signal)
    requires s.watch in log.watches && s.kind == "watch.failed" && log.watches[s.watch].status == WatchStatus.Failed
    ensures var after := Signaled(codec, log, s);
            && s.watch in after.watches && after.events != []
            && after.watches[s.watch].status == WatchStatus.Failed && after.watches[s.watch].error == log.watches[s.watch].error
            && var e := after.events[|after.events| - 1].event;
               e.watch == s.watch && e.id == log.nextId && (e.kind == "watch.failed" || e.kind == GAP)
  {
    var entry := NewEntry(codec, log, s.watch, s.now, s.kind, s.target, s.payload);
    AppendIsAPush(codec, log, s.watch, s.now, s.kind, s.target, s.payload, entry);
    OwnEvictionReduces(Issued(log), s.watch, entry.bytes);
    FrontEvictionReduces(OwnEvicted(Issued(log), s.watch, entry.bytes), entry.bytes);
  }

  /** A failed checkpoint ends exactly the active persistent watches, and says why. */
  lemma CheckpointLossEnds(codec: Codec, log: Log, past: Past, error: string, w: Uuid)
    requires w in log.watches
    ensures var after := Applied(codec, log, CheckpointFailed(error)).watches;
            && after.Keys == log.watches.Keys
            && (if log.watches[w].lifetime == Persistent && log.watches[w].status.Active() then
                  after[w].status == WatchStatus.Failed && after[w].error == Some("persistence failed: " + error)
                else after[w] == log.watches[w])
  {
    SilentStep(codec, log, past, CheckpointFailed(error));
  }

  /** A watch is removed on request only when it has ended and its provider has come to rest. */
  lemma RemovalDecides(codec: Codec, log: Log, past: Past, w: Uuid, quiesced: bool)
    requires w in log.watches
    ensures var after := Applied(codec, log, Remove(w, quiesced));
            && (w !in after.watches <==> !log.watches[w].status.Active() && quiesced)
            && (w in after.watches ==> after == log)
  {
    SilentStep(codec, log, past, Remove(w, quiesced));
    ForgottenIsGone(log, w);
    RemovalPrepares(log, w, quiesced);
  }

  lemma RemovalPrepares(log: Log, w: Uuid, quiesced: bool)
    requires w in log.watches
    ensures Prepared(log, Remove(w, quiesced)) == if !log.watches[w].status.Active() && quiesced then Forgotten(log, w) else log
  {}

  // --- What is written down -----------------------------------------------------

  /** What stands in for an event that is too large: the same event, but a gap that says so and how large it was. */
  function TooLarge(e: Event, size: nat): Event {
    Event(e.epoch, e.id, e.watch, e.observedAt, e.source, "gap", Target(None, None), Object(map[
      "reason" := Str("event_exceeds_byte_limit"), "lost_count" := Num(1), "original_bytes" := Num(size)]))
  }

  function Stored(codec: Codec, watch: Watch, e: Event): Event {
    if FitsIn(codec, watch, e) then e else TooLarge(e, codec.event(e))
  }

  lemma SignalIsStored(codec: Codec, log: Log, s: Signal)
    requires s.watch in log.watches
    ensures var after := Signaled(codec, log, s);
            && after.events != []
            && after.events[|after.events| - 1].event
               == Stored(codec, log.watches[s.watch], Described(log, s.watch, s.now, s.kind, s.target, s.payload))
  {
    var entry := NewEntry(codec, log, s.watch, s.now, s.kind, s.target, s.payload);
    AppendIsAPush(codec, log, s.watch, s.now, s.kind, s.target, s.payload, entry);
  }

  function Known(n: Option<nat>): Json {
    match n
    case Some(count) => Num(count)
    case None => Null
  }

  /** The event by which a provider's loss or failure is told. */
  function Telling(log: Log, op: Op): Event
    requires (op.Lost? || op.Fail?) && op.watch in log.watches
  {
    var (kind, payload) :=
      if op.Fail? then ("watch.failed", Object(map["error" := Str(op.error)]))
      else ("gap", Object(map["reason" := Str(op.reason), "lost_events" := Known(op.events), "lost_buffers" := Known(op.buffers),
                              "counts_known" := Bool(op.events.Some? && op.buffers.Some?)]));
    Described(log, op.watch, op.now, kind, Target(None, None), payload)
  }

  /** Whatever comes in is written down last: as described if it fits, otherwise as a gap in its place. */
  lemma RecordSays(codec: Codec, log: Log, op: Op)
    requires op.Emit? || op.Lost? || op.Fail?
    requires op.watch in log.watches && (op.Emit? ==> !op.canceled && log.watches[op.watch].status.Live())
    ensures var e := if op.Emit? then Described(log, op.watch, op.now, op.kind, op.target, op.payload) else Telling(log, op);
            var after := Applied(codec, log, op);
            && after.events != []
            && after.events[|after.events| - 1].event == Stored(codec, log.watches[op.watch], e)
  {
    SignalIsStored(codec, Prepared(log, op), Emission(log, op).value);
  }

  // --- A watch's life -------------------------------------------------------

  /** With room for it, an acceptable watch is created, becomes ready and is then live. */
  lemma CreatedIsReady(codec: Codec, log: Log, past: Past, op: Op)
    requires op.Create?
    requires op.activeRoom && |log.watches| < MAX_RECORDS
    requires 1 <= op.limits.maxEvents <= 8192 && 1024 <= op.limits.maxBytes <= 16 * 1024 * 1024
    requires 1 <= op.limits.maxRecordedEvents <= 1_000_000 && 1024 <= op.limits.maxRecordedBytes <= 1024 * 1024 * 1024
    ensures var created := Applied(codec, log, op);
            var ready := Applied(codec, created, Ready(op.watch));
            && created.watches.Keys == log.watches.Keys + {op.watch} && created.watches[op.watch].status == Starting
            && ready.watches.Keys == created.watches.Keys
            && var watch := ready.watches[op.watch];
               && watch.status == Recording && watch.recordedEvents == 0
               && watch.owner == op.owner && watch.lifetime == op.lifetime && watch.source == op.source && watch.limits == op.limits
  {
    CreatedShape(codec, log, past, op);
    MadeReady(codec, Applied(codec, log, op), past, op.watch);
  }

  lemma CreatedShape(codec: Codec, log: Log, past: Past, op: Op)
    requires op.Create? && op.activeRoom && |log.watches| < MAX_RECORDS
    requires 1 <= op.limits.maxEvents <= 8192 && 1024 <= op.limits.maxBytes <= 16 * 1024 * 1024
    requires 1 <= op.limits.maxRecordedEvents <= 1_000_000 && 1024 <= op.limits.maxRecordedBytes <= 1024 * 1024 * 1024
    ensures Applied(codec, log, op).watches
         == log.watches[op.watch := Watch(op.owner, op.lifetime, op.source, op.limits, Starting, None, 0, 0, 0, 0, 0, 0, 0, 0, 0, 0)]
  {
    SilentStep(codec, log, past, op);
  }

  lemma MadeReady(codec: Codec, log: Log, past: Past, w: Uuid)
    requires w in log.watches && log.watches[w].status == Starting
    ensures Applied(codec, log, Ready(w)).watches == log.watches[w := log.watches[w].(status := Recording)]
  {
    SilentStep(codec, log, past, Ready(w));
  }

  /** The end of a provider: its watch has stopped, or stays failed; a retired one is gone. */
  lemma FinishDecides(codec: Codec, log: Log, past: Past, w: Uuid)
    requires w in log.watches
    ensures var after := Applied(codec, log, Finish(w));
            if w in log.retired then w !in after.watches
            else
              && after.events == log.events && after.watches - {w} == log.watches - {w} && w in after.watches
              && after.watches[w] == log.watches[w].(
                   status := if log.watches[w].status == WatchStatus.Failed then WatchStatus.Failed else Stopped)
  {
    SilentStep(codec, log, past, Finish(w));
    ForgottenIsGone(Halted(log, w), w);
  }

  /** A stop request: an active watch is stopping, and nothing else changes. */
  lemma StopDecides(codec: Codec, log: Log, past: Past, w: Uuid)
    requires w in log.watches
    ensures var after := Applied(codec, log, RequestStop(w));
            && after.events == log.events && after.watches - {w} == log.watches - {w} && w in after.watches
            && after.watches[w] == log.watches[w].(
                 status := if log.watches[w].status in {Starting, Recording, Stopping} then Stopping else log.watches[w].status)
  {
    SilentStep(codec, log, past, RequestStop(w));
  }

  /** After its close a connection forgets a watch exactly if the provider has come to rest. */
  lemma CloseForgetDecides(codec: Codec, log: Log, past: Past, w: Uuid, quiesced: bool)
    requires w in log.watches
    ensures var after := Applied(codec, log, CloseForget(w, quiesced));
            if quiesced then w !in after.watches else after == log
  {
    SilentStep(codec, log, past, CloseForget(w, quiesced));
    ForgottenIsGone(log, w);
  }

  /** A watch under retirement, or gone. */
  ghost predicate OnItsWay(log: Log, past: Past, w: Uuid) {
    w in past.used && (w in log.watches ==> w in log.retired)
  }

  lemma StepKeepsRetired(codec: Codec, log: Log, past: Past, op: Op, w: Uuid)
    requires codec.GapsFit() && Good(log, past) && Enabled(past, op) && OnItsWay(log, past, w)
    ensures OnItsWay(Applied(codec, log, op), Remembered(codec, log, past, op), w)
  {
    if w in log.watches {
      RetiredStays(codec, log, past, op, w);
    } else {
      GoneStaysGone(codec, log, past, op, w);
    }
  }

  lemma GoneStaysGone(codec: Codec, log: Log, past: Past, op: Op, w: Uuid)
    requires codec.GapsFit() && Good(log, past) && Enabled(past, op) && w in past.used && w !in log.watches
    ensures w !in Applied(codec, log, op).watches
  {
    StepKeepsGood(codec, log, past, op);
  }

  lemma RetiredStays(codec: Codec, log: Log, past: Past, op: Op, w: Uuid)
    requires w in log.retired
    ensures w in Applied(codec, log, op).watches ==> w in Applied(codec, log, op).retired
  {
    PreparedRetired(log, op, w);
    match Emission(log, op)
    case None => SilentStep(codec, log, past, op);
    case Some(s) => SignalKeepsRetired(codec, Prepared(log, op), s);
  }

  lemma PreparedRetired(log: Log, op: Op, w: Uuid)
    requires w in log.retired
    ensures w in Prepared(log, op).watches ==> w in Prepared(log, op).retired
  {
    if op.Finish? {
      EmptyingReduces(Halted(log, op.watch), op.watch);
    } else if op.CloseForget? || op.Remove? {
      EmptyingReduces(log, op.watch);
    }
  }

  lemma SignalKeepsRetired(codec: Codec, log: Log, s: Signal)
    ensures Signaled(codec, log, s).retired == log.retired && Signaled(codec, log, s).watches.Keys == log.watches.Keys
  {
    if s.watch in log.watches {
      var entry := NewEntry(codec, log, s.watch, s.now, s.kind, s.target, s.payload);
      AppendIsAPush(codec, log, s.watch, s.now, s.kind, s.target, s.payload, entry);
      OwnEvictionReduces(Issued(log), s.watch, entry.bytes);
      FrontEvictionReduces(OwnEvicted(Issued(log), s.watch, entry.bytes), entry.bytes);
      EvictionKeepsRetired(Issued(log), s.watch, entry.bytes);
    }
  }

  lemma {:induction false} EvictionKeepsRetired(log: Log, w: Uuid, bytes: nat)
    ensures FrontEvicted(OwnEvicted(log, w, bytes), bytes).retired == log.retired
  {
    OwnKeepsRetired(log, w, bytes);
    FrontKeepsRetired(OwnEvicted(log, w, bytes), bytes);
  }

  lemma {:induction false} OwnKeepsRetired(log: Log, w: Uuid, bytes: nat)
    ensures OwnEvicted(log, w, bytes).retired == log.retired
    decreases |log.events|
  {
    if w in log.watches && !HasRoom(log.watches[w], bytes) && FirstOwn(log.events, w) < |log.events| {
      OwnKeepsRetired(Discarded(log, FirstOwn(log.events, w)), w, bytes);
    }
  }

  lemma {:induction false} FrontKeepsRetired(log: Log, bytes: nat)
    ensures FrontEvicted(log, bytes).retired == log.retired
    decreases |log.events|
  {
    if log.events != [] && Crowded(log, bytes) {
      FrontKeepsRetired(Discarded(log, 0), bytes);
    }
  }

  lemma {:induction false} RunKeepsRetired(codec: Codec, log: Log, past: Past, ops: seq<Op>, w: Uuid)
    requires codec.GapsFit() && Good(log, past) && RunEnabled(codec, log, past, ops) && OnItsWay(log, past, w)
    ensures var (log', past') := Run(codec, log, past, ops); OnItsWay(log', past', w)
    decreases |ops|
  {
    if ops != [] {
      StepKeepsGood(codec, log, past, ops[0]);
      StepKeepsRetired(codec, log, past, ops[0], w);
      RunKeepsRetired(codec, Applied(codec, log, ops[0]), Remembered(codec, log, past, ops[0]), ops[1..], w);
    }
  }

  /**
   Closing a connection retires its watches; whatever happens meanwhile, each of
   them is forgotten when its provider ends, or at once if that had come to rest.
   */
  lemma ClosedIsForgotten(codec: Codec, log: Log, past: Past, owner: Uuid, ops: seq<Op>, w: Uuid)
    requires codec.GapsFit() && Good(log, past)
    requires w in log.watches && log.watches[w].owner == owner && log.watches[w].lifetime == Connection
    requires RunEnabled(codec, Applied(codec, log, Retire(owner)), Remembered(codec, log, past, Retire(owner)), ops)
    ensures var (log', _) := Run(codec, Applied(codec, log, Retire(owner)), Remembered(codec, log, past, Retire(owner)), ops);
            && w !in Applied(codec, log', Finish(w)).watches
            && w !in Applied(codec, log', CloseForget(w, true)).watches
  {
    RetireMarks(codec, log, past, owner, w);
    StepKeepsGood(codec, log, past, Retire(owner));
    var closed, past1 := Applied(codec, log, Retire(owner)), Remembered(codec, log, past, Retire(owner));
    RunKeepsRetired(codec, closed, past1, ops, w);
    var (log', past') := Run(codec, closed, past1, ops);
    EndForgets(codec, log', past', w);
  }

  lemma RetireMarks(codec: Codec, log: Log, past: Past, owner: Uuid, w: Uuid)
    requires log.watches.Keys <= past.used
    requires w in log.watches && log.watches[w].owner == owner && log.watches[w].lifetime == Connection
    ensures OnItsWay(Applied(codec, log, Retire(owner)), Remembered(codec, log, past, Retire(owner)), w)
  {
    SilentStep(codec, log, past, Retire(owner));
  }

  lemma EndForgets(codec: Codec, log: Log, past: Past, w: Uuid)
    requires OnItsWay(log, past, w)
    ensures w !in Applied(codec, log, Finish(w)).watches && w !in Applied(codec, log, CloseForget(w, true)).watches
  {
    SilentStep(codec, log, past, Finish(w));
    SilentStep(codec, log, past, CloseForget(w, true));
    ForgottenIsGone(Halted(log, w), w);
    ForgottenIsGone(log, w);
  }

  /** Nobody else's watch, and no persistent one, is retired with it. */
  lemma OthersAreSpared(codec: Codec, log: Log, owner: Uuid, w: Uuid)
    requires w in log.watches && !(log.watches[w].owner == owner && log.watches[w].lifetime == Connection)
    ensures w in Applied(codec, log, Retire(owner)).retired <==> w in log.retired
  {}

  // --- The limits in numbers ----------------------------------------------------

  /** A valid log holds at most 8192 events, 16 MiB and 128 watches, and each watch stays within its own limits. */
  lemma LogStaysSmall(log: Log)
    requires Valid(log)
    ensures |log.events| <= 8192 && 0 <= log.bytes <= 16_777_216 && |log.watches| <= 128
    ensures forall w | w in log.watches ::
              && log.watches[w].retainedEvents <= log.watches[w].limits.maxEvents <= 8192
              && log.watches[w].retainedBytes <= log.watches[w].limits.maxBytes <= 16_777_216
  {}
}
