/**
 The bounded event log of src/observation.rs as a value: one global sequence of
 events shared by many watches, with a per-watch cap on events and bytes and a
 global cap on both.

 Times, identifiers and encoded sizes are inputs: `now` stands for the wall
 clock, a UUID is a number, and `Codec` gives the serialized length of an event
 or a filter. Class `ObservationStore.Store` refines the functions declared here.
 */
module ObservationLog {
  import opened Wrappers
  import opened JsonValue

  const MAX_RECORDS: nat := 128
  const MAX_EVENTS: nat := 8192
  const MAX_BYTES: nat := 16 * 1024 * 1024
  const MAX_EVENT_BYTES: nat := 64 * 1024
  const GAP: string := "gap"

  type Uuid = nat

  datatype Lifetime = Connection | Persistent

  datatype SourceKind = Filesystem | Registry | Service | Process | Etw | UiAutomation

  datatype WatchStatus = Starting | Recording | Stopping | Stopped | Failed {
    predicate Active() { Starting? || Recording? || Stopping? }

    /** Takes events from its provider. */
    predicate Live() { Starting? || Recording? }
  }

  datatype ProcessIdentity = ProcessIdentity(pid: nat, created: Option<nat>, session: Option<nat>)

  datatype Target = Target(process: Option<ProcessIdentity>, path: Option<string>)

  const NO_TARGET: Target := Target(None, None)

  datatype Event = Event(
    epoch: Uuid, id: nat, watch: Uuid, observedAt: nat, source: SourceKind, kind: string, target: Target, payload: Json)

  datatype Entry = Entry(event: Event, bytes: nat)

  /** Retention limits of a watch after defaults are applied. */
  datatype Limits = Limits(maxEvents: nat, maxBytes: nat, maxRecordedEvents: nat, maxRecordedBytes: nat) {
    predicate Accepted() {
      && 1 <= maxEvents <= MAX_EVENTS
      && 1024 <= maxBytes <= MAX_BYTES
      && 1 <= maxRecordedEvents <= 1_000_000
      && 1024 <= maxRecordedBytes <= 1024 * 1024 * 1024
    }
  }

  /** Counters are integers, so that "never negative" is a theorem and not a typing rule. */
  datatype Watch = Watch(
    owner: Uuid, lifetime: Lifetime, source: SourceKind, limits: Limits, status: WatchStatus, error: Option<string>,
    recordedEvents: int, recordedBytes: int, retainedEvents: int, retainedBytes: int,
    droppedEvents: int, droppedBytes: int, lastDroppedId: nat, lastGapId: nat, lostEvents: nat, lostBuffers: nat)

  datatype Log = Log(
    epoch: Uuid, nextId: nat, bytes: int, droppedEvents: nat, droppedBytes: nat,
    events: seq<Entry>, watches: map<Uuid, Watch>, retired: set<Uuid>)

  /** What serialization contributes: lengths. */
  datatype Codec = Codec(event: Event -> nat, filter: EventFilter -> nat) {
    /** The one assumption about lengths: a replacement gap event encodes to at most 1024 bytes. */
    ghost predicate GapsFit() {
      forall e: Event, n: nat :: event(LimitGap(e, n)) <= 1024
    }
  }

  datatype EventFilter = EventFilter(
    watch: Option<Uuid>, source: Option<SourceKind>, kind: Option<string>, process: Option<ProcessIdentity>,
    path: Option<string>, since: Option<nat>, until: Option<nat>, payloadEquals: map<string, Json>)
  {
    predicate Matches(e: Event) {
      && (watch.Some? ==> watch.value == e.watch)
      && (source.Some? ==> source.value == e.source)
      && (kind.Some? ==> kind.value == e.kind)
      && (process.Some? ==>
            && e.target.process.Some?
            && process.value.pid == e.target.process.value.pid
            && process.value.created == e.target.process.value.created
            && (process.value.session.Some? ==> e.target.process.value.session == process.value.session))
      && (path.Some? ==> e.target.path == path)
      && (since.Some? ==> since.value <= e.observedAt)
      && (until.Some? ==> e.observedAt <= until.value)
      && (forall key | key in payloadEquals :: Field(e.payload, key) == Some(payloadEquals[key]))
    }

    predicate Accepted(codec: Codec) {
      && (process.Some? ==> process.value.created.Some?)
      && (since.Some? && until.Some? ==> since.value <= until.value)
      && codec.filter(this) <= 16 * 1024
    }
  }

  predicate Visible(watch: Watch, connection: Uuid) {
    watch.lifetime == Persistent || watch.owner == connection
  }

  // --- Appending, discarding, forgetting ---------------------------------

  /** What replaces an event that is too large to keep. */
  function LimitGap(e: Event, originalBytes: nat): Event {
    e.(kind := GAP,
       target := NO_TARGET,
       payload := Object(map["reason" := Str("event_exceeds_byte_limit"),
                             "lost_count" := Num(1), "original_bytes" := Num(originalBytes)]))
  }

  /** The event as it will be stored: itself, or a gap when it exceeds a byte limit. */
  function Admitted(codec: Codec, e: Event, maxBytes: nat): Entry {
    var bytes := codec.event(e);
    if bytes > MAX_EVENT_BYTES || bytes > maxBytes then
      var gap := LimitGap(e, bytes);
      Entry(gap, codec.event(gap))
    else
      Entry(e, bytes)
  }

  /** Position of the oldest event of a watch, or the length when it has none. */
  function FirstOwn(events: seq<Entry>, w: Uuid): (i: nat)
    ensures i <= |events|
    ensures i < |events| ==> events[i].event.watch == w
    ensures forall j | 0 <= j < i :: events[j].event.watch != w
  {
    if events == [] then 0
    else if events[0].event.watch == w then 0
    else 1 + FirstOwn(events[1..], w)
  }

  function Max(a: nat, b: nat): nat { if a < b then b else a }

  function WithDropped(watch: Watch, entry: Entry): Watch {
    watch.(retainedEvents := watch.retainedEvents - 1,
           retainedBytes := watch.retainedBytes - entry.bytes,
           droppedEvents := watch.droppedEvents + 1,
           droppedBytes := watch.droppedBytes + entry.bytes,
           lastDroppedId := Max(watch.lastDroppedId, entry.event.id))
  }

  /** Removing the event at a position; a position past the end changes nothing. */
  function Discarded(log: Log, i: nat): Log {
    if i >= |log.events| then log
    else
      var entry := log.events[i];
      var w := entry.event.watch;
      log.(events := log.events[..i] + log.events[i + 1..],
           bytes := log.bytes - entry.bytes,
           droppedEvents := log.droppedEvents + 1,
           droppedBytes := log.droppedBytes + entry.bytes,
           watches := if w in log.watches then log.watches[w := WithDropped(log.watches[w], entry)] else log.watches)
  }

  predicate HasRoom(watch: Watch, bytes: nat) {
    watch.retainedEvents < watch.limits.maxEvents && watch.retainedBytes + bytes <= watch.limits.maxBytes
  }

  /** Evict the watch's own oldest events until the new one fits its caps. */
  function OwnEvicted(log: Log, w: Uuid, bytes: nat): Log
    decreases |log.events|
  {
    if w !in log.watches || HasRoom(log.watches[w], bytes) then log
    else
      var i := FirstOwn(log.events, w);
      if i == |log.events| then log else OwnEvicted(Discarded(log, i), w, bytes)
  }

  predicate Crowded(log: Log, bytes: nat) {
    |log.events| >= MAX_EVENTS || log.bytes + bytes > MAX_BYTES
  }

  /** Evict the oldest events of any watch until the new one fits the global caps. */
  function FrontEvicted(log: Log, bytes: nat): Log
    decreases |log.events|
  {
    if log.events == [] || !Crowded(log, bytes) then log
    else FrontEvicted(Discarded(log, 0), bytes)
  }

  /** Counters of the watch that receives the entry, and the recording limit that may stop it. */
  function WithRecorded(watch: Watch, entry: Entry): Watch {
    var counted := watch.(
      recordedEvents := watch.recordedEvents + 1,
      recordedBytes := watch.recordedBytes + entry.bytes,
      retainedEvents := watch.retainedEvents + 1,
      retainedBytes := watch.retainedBytes + entry.bytes,
      lastGapId := if entry.event.kind == GAP then entry.event.id else watch.lastGapId);
    if counted.status.Active()
       && (counted.recordedEvents >= counted.limits.maxRecordedEvents
           || counted.recordedBytes >= counted.limits.maxRecordedBytes) then
      counted.(status := Stopping)
    else counted
  }

  function Pushed(log: Log, entry: Entry): Log {
    var w := entry.event.watch;
    log.(events := log.events + [entry],
         bytes := log.bytes + entry.bytes,
         watches := if w in log.watches then log.watches[w := WithRecorded(log.watches[w], entry)] else log.watches)
  }

  function NewEvent(log: Log, w: Uuid, now: nat, kind: string, target: Target, payload: Json): Event
    requires w in log.watches
  {
    Event(log.epoch, log.nextId, w, now, log.watches[w].source, kind, target, payload)
  }

  function NewEntry(codec: Codec, log: Log, w: Uuid, now: nat, kind: string, target: Target, payload: Json): Entry
    requires w in log.watches
  {
    Admitted(codec, NewEvent(log, w, now, kind, target, payload), log.watches[w].limits.maxBytes)
  }

  function Appended(codec: Codec, log: Log, w: Uuid, now: nat, kind: string, target: Target, payload: Json): Log {
    if w !in log.watches then log
    else
      var entry := NewEntry(codec, log, w, now, kind, target, payload);
      var own := OwnEvicted(log.(nextId := log.nextId + 1), w, entry.bytes);
      Pushed(FrontEvicted(own, entry.bytes), entry)
  }

  /** Discard every event of a watch, oldest first. */
  function Emptied(log: Log, w: Uuid): Log
    decreases |log.events|
  {
    var i := FirstOwn(log.events, w);
    if i == |log.events| then log else Emptied(Discarded(log, i), w)
  }

  function Forgotten(log: Log, w: Uuid): Log {
    var empty := Emptied(log, w);
    empty.(watches := empty.watches - {w}, retired := empty.retired - {w})
  }
}
