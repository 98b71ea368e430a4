/**
 The accounting invariant of the log and what one append evicts.

 `Own` is the subsequence of one watch; every counter is a length or a byte sum
 of it. The invariant is what makes both eviction loops of `append` stop.
 */
module ObservationAccounting {
  import opened Wrappers
  import opened JsonValue
  import opened ObservationLog

  function SumBytes(es: seq<Entry>): nat {
    if es == [] then 0 else es[0].bytes + SumBytes(es[1..])
  }

  /** The events of one watch, in order. */
  function Own(es: seq<Entry>, w: Uuid): seq<Entry> {
    if es == [] then []
    else (if es[0].event.watch == w then [es[0]] else []) + Own(es[1..], w)
  }

  /** The events of all other watches, in order. */
  function Others(es: seq<Entry>, w: Uuid): seq<Entry> {
    if es == [] then []
    else (if es[0].event.watch != w then [es[0]] else []) + Others(es[1..], w)
  }

  // --- The invariant ------------------------------------------------------

  ghost predicate Counted(watch: Watch, own: seq<Entry>) {
    && watch.retainedEvents == |own|
    && watch.retainedBytes == SumBytes(own)
    && watch.recordedEvents == watch.retainedEvents + watch.droppedEvents
    && watch.recordedBytes == watch.retainedBytes + watch.droppedBytes
    && watch.droppedEvents >= 0
    && watch.droppedBytes >= 0
  }

  ghost predicate Accounted(log: Log) {
    && log.bytes == SumBytes(log.events)
    && (forall w | w in log.watches :: Counted(log.watches[w], Own(log.events, w)))
  }

  ghost predicate Capped(log: Log) {
    && |log.events| <= MAX_EVENTS
    && log.bytes <= MAX_BYTES
    && |log.watches| <= MAX_RECORDS
    && (forall w | w in log.watches ::
          && log.watches[w].limits.Accepted()
          && log.watches[w].retainedEvents <= log.watches[w].limits.maxEvents
          && log.watches[w].retainedBytes <= log.watches[w].limits.maxBytes)
  }

  ghost predicate Ordered(es: seq<Entry>, nextId: nat) {
    && (forall i | 0 <= i < |es| :: 1 <= es[i].event.id < nextId)
    && (forall i, j | 0 <= i < j < |es| :: es[i].event.id < es[j].event.id)
  }

  ghost predicate Attributed(log: Log) {
    forall i | 0 <= i < |log.events| ::
      && log.events[i].event.watch in log.watches
      && log.events[i].event.source == log.watches[log.events[i].event.watch].source
      && log.events[i].bytes <= MAX_EVENT_BYTES
  }

  ghost predicate Marked(log: Log) {
    forall w | w in log.watches ::
      && log.watches[w].lastDroppedId < log.nextId
      && log.watches[w].lastGapId < log.nextId
  }

  /** Everything the store keeps true except the caps, which hold between operations. */
  ghost predicate Consistent(log: Log) {
    && log.nextId >= 1
    && Accounted(log)
    && Ordered(log.events, log.nextId)
    && Attributed(log)
    && Marked(log)
  }

  /** A watch that still records has not used up what it may record in all. */
  ghost predicate Unspent(watch: Watch) {
    watch.status.Live() ==>
      watch.recordedEvents < watch.limits.maxRecordedEvents && watch.recordedBytes < watch.limits.maxRecordedBytes
  }

  ghost predicate Limited(log: Log) {
    forall w | w in log.watches :: Unspent(log.watches[w])
  }

  ghost predicate Valid(log: Log) {
    Consistent(log) && Capped(log) && Limited(log)
  }

  // --- Sequences ----------------------------------------------------------

  lemma {:induction false} SumAppend(a: seq<Entry>, b: seq<Entry>)
    ensures SumBytes(a + b) == SumBytes(a) + SumBytes(b)
  {
    if a == [] {
      assert a + b == b;
    } else {
      assert (a + b)[1..] == a[1..] + b;
      SumAppend(a[1..], b);
    }
  }

  lemma {:induction false} OwnAppend(a: seq<Entry>, b: seq<Entry>, w: Uuid)
    ensures Own(a + b, w) == Own(a, w) + Own(b, w)
    ensures Others(a + b, w) == Others(a, w) + Others(b, w)
  {
    if a == [] {
      assert a + b == b;
    } else {
      assert (a + b)[1..] == a[1..] + b;
      OwnAppend(a[1..], b, w);
    }
  }

  lemma {:induction false} OwnBelongs(es: seq<Entry>, w: Uuid)
    ensures forall i | 0 <= i < |Own(es, w)| :: Own(es, w)[i] in es && Own(es, w)[i].event.watch == w
    ensures forall e | e in es && e.event.watch == w :: e in Own(es, w)
    ensures SumBytes(Own(es, w)) <= SumBytes(es)
    ensures |Own(es, w)| <= |es|
  {
    if es != [] {
      OwnBelongs(es[1..], w);
      SumAppend([es[0]], Own(es[1..], w));
      assert [] + Own(es[1..], w) == Own(es[1..], w);
    }
  }

  lemma {:induction false} OwnNone(es: seq<Entry>, w: Uuid)
    requires forall i | 0 <= i < |es| :: es[i].event.watch != w
    ensures Own(es, w) == []
    ensures Others(es, w) == es
  {
    if es != [] {
      OwnNone(es[1..], w);
    }
  }

  /** What removing one position does to the sums and to every watch's subsequence. */
  lemma RemovedSums(es: seq<Entry>, i: nat, w: Uuid)
    requires i < |es|
    ensures SumBytes(es) == es[i].bytes + SumBytes(es[..i] + es[i + 1..])
    ensures es[i].event.watch != w ==> Own(es[..i] + es[i + 1..], w) == Own(es, w)
    ensures es[i].event.watch == w ==>
              && |Own(es, w)| == 1 + |Own(es[..i] + es[i + 1..], w)|
              && SumBytes(Own(es, w)) == es[i].bytes + SumBytes(Own(es[..i] + es[i + 1..], w))
  {
    var a, e, c := es[..i], es[i], es[i + 1..];
    assert es == a + ([e] + c);
    SumAppend(a, [e] + c);
    SumAppend([e], c);
    SumAppend(a, c);
    OwnAppend(a, [e] + c, w);
    OwnAppend([e], c, w);
    OwnAppend(a, c, w);
    assert Own([e], w) == if e.event.watch == w then [e] else [];
    if e.event.watch == w {
      SumAppend(Own(a, w), [e] + Own(c, w));
      SumAppend([e], Own(c, w));
      SumAppend(Own(a, w), Own(c, w));
      assert Own(es, w) == Own(a, w) + ([e] + Own(c, w));
      assert Own(a + c, w) == Own(a, w) + Own(c, w);
    } else {
      assert Own([e] + c, w) == Own(c, w);
    }
  }

  // --- Discarding ---------------------------------------------------------

  lemma DiscardKeepsConsistent(log: Log, i: nat)
    requires Consistent(log)
    ensures Consistent(Discarded(log, i))
  {
    if i < |log.events| {
      var after := Discarded(log, i);
      var gone := log.events[i];
      RemovedSums(log.events, i, gone.event.watch);
      forall w | w in after.watches
        ensures Counted(after.watches[w], Own(after.events, w))
      {
        RemovedSums(log.events, i, w);
        assert Counted(log.watches[w], Own(log.events, w));
      }
      forall j | 0 <= j < |after.events|
        ensures after.events[j] == log.events[if j < i then j else j + 1]
      {}
      assert Attributed(after);
    }
  }

  /** A discard only lowers what is retained. */
  lemma DiscardKeepsCapped(log: Log, i: nat)
    requires Consistent(log) && Capped(log)
    ensures Capped(Discarded(log, i))
  {
    if i < |log.events| {
      RemovedSums(log.events, i, log.events[i].event.watch);
    }
  }

  // --- Eviction: the least prefix that makes room --------------------------

  /** Length of the shortest prefix whose removal satisfies `fits`, or everything. */
  function LeastDrop(es: seq<Entry>, fits: seq<Entry> -> bool): (k: nat)
    ensures k <= |es|
  {
    if es == [] || fits(es) then 0 else 1 + LeastDrop(es[1..], fits)
  }

  /** No shorter prefix would have done. */
  lemma {:induction false} LeastDropIsLeast(es: seq<Entry>, fits: seq<Entry> -> bool, j: nat)
    ensures fits(es[LeastDrop(es, fits)..]) || LeastDrop(es, fits) == |es|
    ensures j < LeastDrop(es, fits) ==> !fits(es[j..])
  {
    assert es[0..] == es;
    if es != [] && !fits(es) {
      LeastDropIsLeast(es[1..], fits, if j == 0 then 0 else j - 1);
      var k := LeastDrop(es[1..], fits);
      assert es[k + 1..] == es[1..][k..];
      if j > 0 && j < k + 1 {
        assert es[j..] == es[1..][j - 1..];
      }
    }
  }

  /** Room under a watch's caps, seen from its own events. */
  function OwnRoom(limits: Limits, bytes: nat): seq<Entry> -> bool {
    (own: seq<Entry>) => |own| < limits.maxEvents && SumBytes(own) + bytes <= limits.maxBytes
  }

  /** Room under the store's caps, seen from the whole log. */
  function StoreRoom(bytes: nat): seq<Entry> -> bool {
    (es: seq<Entry>) => |es| < MAX_EVENTS && SumBytes(es) + bytes <= MAX_BYTES
  }

  lemma FirstOwnRemoved(es: seq<Entry>, w: Uuid)
    requires FirstOwn(es, w) < |es|
    ensures var i := FirstOwn(es, w); var rest := es[..i] + es[i + 1..];
            Own(es, w) == [es[i]] + Own(rest, w) && Others(rest, w) == Others(es, w)
  {
    var i := FirstOwn(es, w);
    var a, e, c := es[..i], es[i], es[i + 1..];
    assert es == a + ([e] + c);
    OwnNone(a, w);
    OwnAppend(a, [e] + c, w);
    OwnAppend([e], c, w);
    OwnAppend(a, c, w);
    assert Own([e], w) == [e] && Others([e], w) == [];
  }

  /** What eviction may change: never the identities, limits or cursors, and never upwards. */
  ghost predicate Reduced(before: Log, after: Log) {
    && after.watches.Keys == before.watches.Keys
    && after.nextId == before.nextId && after.epoch == before.epoch
    && |after.events| <= |before.events| && after.bytes <= before.bytes
    && |after.events| + after.droppedEvents == |before.events| + before.droppedEvents
    && after.bytes + after.droppedBytes == before.bytes + before.droppedBytes
    && (forall e | e in after.events :: e in before.events)
    && (forall v | v in before.watches ::
          && after.watches[v] == before.watches[v].(
               retainedEvents := after.watches[v].retainedEvents, retainedBytes := after.watches[v].retainedBytes,
               droppedEvents := after.watches[v].droppedEvents, droppedBytes := after.watches[v].droppedBytes,
               lastDroppedId := after.watches[v].lastDroppedId)
          && after.watches[v].retainedEvents <= before.watches[v].retainedEvents
          && after.watches[v].retainedBytes <= before.watches[v].retainedBytes
          && after.watches[v].lastDroppedId >= before.watches[v].lastDroppedId)
  }

  lemma DiscardReduces(log: Log, i: nat)
    ensures Reduced(log, Discarded(log, i))
  {}

  lemma {:induction false} OwnEvictionReduces(log: Log, w: Uuid, bytes: nat)
    ensures Reduced(log, OwnEvicted(log, w, bytes))
    ensures forall v | v in log.watches && v != w :: OwnEvicted(log, w, bytes).watches[v] == log.watches[v]
    decreases |log.events|
  {
    if w in log.watches && !HasRoom(log.watches[w], bytes) && FirstOwn(log.events, w) < |log.events| {
      DiscardReduces(log, FirstOwn(log.events, w));
      OwnEvictionReduces(Discarded(log, FirstOwn(log.events, w)), w, bytes);
    }
  }

  lemma {:induction false} FrontEvictionReduces(log: Log, bytes: nat)
    ensures Reduced(log, FrontEvicted(log, bytes))
    decreases |log.events|
  {
    if log.events != [] && Crowded(log, bytes) {
      DiscardReduces(log, 0);
      FrontEvictionReduces(Discarded(log, 0), bytes);
    }
  }

  lemma NextOwn(log: Log, w: Uuid)
    requires Consistent(log) && w in log.watches && FirstOwn(log.events, w) < |log.events|
    ensures var next := Discarded(log, FirstOwn(log.events, w));
            && Consistent(next) && w in next.watches && next.watches[w].limits == log.watches[w].limits
            && Own(log.events, w) != [] && Own(next.events, w) == Own(log.events, w)[1..]
            && Others(next.events, w) == Others(log.events, w)
  {
    var i := FirstOwn(log.events, w);
    DiscardKeepsConsistent(log, i);
    DiscardReduces(log, i);
    FirstOwnRemoved(log.events, w);
  }

  lemma DropOne(own: seq<Entry>, fits: seq<Entry> -> bool)
    requires own != [] && !fits(own)
    ensures own[LeastDrop(own, fits)..] == own[1..][LeastDrop(own[1..], fits)..]
  {}

  /** The watch's own loop evicts the shortest prefix of its own events and nothing else. */
  lemma {:induction false} OwnEvictionIsLeast(log: Log, w: Uuid, bytes: nat)
    requires Consistent(log) && w in log.watches
    requires log.watches[w].limits.Accepted() && bytes <= log.watches[w].limits.maxBytes
    ensures var after := OwnEvicted(log, w, bytes);
            var own := Own(log.events, w);
            && Consistent(after)
            && w in after.watches && HasRoom(after.watches[w], bytes)
            && Own(after.events, w) == own[LeastDrop(own, OwnRoom(log.watches[w].limits, bytes))..]
            && Others(after.events, w) == Others(log.events, w)
    decreases |log.events|
  {
    var own := Own(log.events, w);
    if HasRoom(log.watches[w], bytes) {
      assert own == own[0..];
    } else {
      var i := FirstOwn(log.events, w);
      if i == |log.events| {
        OwnNone(log.events, w);
        assert false;
      } else {
        NextOwn(log, w);
        OwnEvictionIsLeast(Discarded(log, i), w, bytes);
        DropOne(own, OwnRoom(log.watches[w].limits, bytes));
      }
    }
  }

  /** With the accounts in order, a crowded log is never empty, so the front loop makes progress. */
  lemma CrowdedHasEvents(log: Log, bytes: nat)
    requires Consistent(log) && bytes <= MAX_EVENT_BYTES
    ensures Crowded(log, bytes) ==> log.events != []
  {}

  lemma {:induction false} FrontEvictionIsLeast(log: Log, bytes: nat)
    requires Consistent(log) && bytes <= MAX_EVENT_BYTES
    ensures var after := FrontEvicted(log, bytes);
            && Consistent(after)
            && !Crowded(after, bytes)
            && after.events == log.events[LeastDrop(log.events, StoreRoom(bytes))..]
    decreases |log.events|
  {
    CrowdedHasEvents(log, bytes);
    if Crowded(log, bytes) {
      DiscardKeepsConsistent(log, 0);
      FrontTurn(log, bytes);
      FrontEvictionIsLeast(Discarded(log, 0), bytes);
    } else {
      assert log.events[0..] == log.events;
    }
  }

  /** One turn of the global loop drops the first event, and so does the least prefix. */
  lemma FrontTurn(log: Log, bytes: nat)
    requires log.bytes == SumBytes(log.events) && log.events != [] && Crowded(log, bytes)
    ensures var es, k := log.events, LeastDrop(log.events[1..], StoreRoom(bytes));
            && FrontEvicted(log, bytes) == FrontEvicted(Discarded(log, 0), bytes)
            && Discarded(log, 0).events == es[1..]
            && LeastDrop(es, StoreRoom(bytes)) == 1 + k
            && es[1 + k..] == es[1..][k..]
  {
    assert !StoreRoom(bytes)(log.events);
  }

  // --- Append -------------------------------------------------------------

  /** Whatever is admitted fits both the per-event limit and the watch's byte cap. */
  lemma AdmittedFits(codec: Codec, e: Event, maxBytes: nat)
    requires codec.GapsFit() && 1024 <= maxBytes
    ensures var entry := Admitted(codec, e, maxBytes);
            && entry.bytes <= MAX_EVENT_BYTES && entry.bytes <= maxBytes
            && entry.bytes == codec.event(entry.event)
            && entry.event.id == e.id && entry.event.watch == e.watch && entry.event.source == e.source
            && entry.event.observedAt == e.observedAt
            && (codec.event(e) <= MAX_EVENT_BYTES && codec.event(e) <= maxBytes <==> entry == Entry(e, codec.event(e)))
            && (entry != Entry(e, codec.event(e)) ==>
                  && entry.event.kind == GAP && entry.event.target == NO_TARGET
                  && Field(entry.event.payload, "original_bytes") == Some(Num(codec.event(e))))
  {}

  /** The counters of one watch and its events, after an entry was pushed. */
  lemma PushCounts(watch: Watch, es: seq<Entry>, entry: Entry, w: Uuid)
    requires Counted(watch, Own(es, w))
    ensures entry.event.watch == w ==> Counted(WithRecorded(watch, entry), Own(es + [entry], w))
    ensures entry.event.watch != w ==> Counted(watch, Own(es + [entry], w))
  {
    OwnAppend(es, [entry], w);
    assert Own([entry], w) == if entry.event.watch == w then [entry] else [];
    SumAppend(Own(es, w), [entry]);
    assert Own(es, w) + [] == Own(es, w);
  }

  lemma PushKeepsAccounted(log: Log, entry: Entry)
    requires Accounted(log)
    ensures Accounted(Pushed(log, entry))
  {
    var after := Pushed(log, entry);
    SumAppend(log.events, [entry]);
    forall w | w in after.watches ensures Counted(after.watches[w], Own(after.events, w)) {
      PushCounts(log.watches[w], log.events, entry, w);
    }
  }

  lemma PushKeepsOrdered(es: seq<Entry>, entry: Entry, nextId: nat)
    requires Ordered(es, nextId) && 1 <= entry.event.id < nextId
    requires forall i | 0 <= i < |es| :: es[i].event.id < entry.event.id
    ensures Ordered(es + [entry], nextId)
  {}

  lemma PushKeepsAttributed(log: Log, entry: Entry)
    requires Attributed(log) && entry.event.watch in log.watches && entry.bytes <= MAX_EVENT_BYTES
    requires entry.event.source == log.watches[entry.event.watch].source
    ensures Attributed(Pushed(log, entry))
  {}

  lemma PushKeepsMarked(log: Log, entry: Entry)
    requires Marked(log) && entry.event.id < log.nextId
    ensures Marked(Pushed(log, entry))
  {}

  lemma PushKeepsConsistent(log: Log, entry: Entry)
    requires Consistent(log)
    requires entry.event.watch in log.watches && entry.event.source == log.watches[entry.event.watch].source
    requires entry.event.id + 1 == log.nextId && entry.event.id >= 1 && entry.bytes <= MAX_EVENT_BYTES
    requires forall i | 0 <= i < |log.events| :: log.events[i].event.id < entry.event.id
    ensures Consistent(Pushed(log, entry))
  {
    PushKeepsAccounted(log, entry);
    PushKeepsOrdered(log.events, entry, log.nextId);
    PushKeepsAttributed(log, entry);
    PushKeepsMarked(log, entry);
  }

  lemma PushKeepsCapped(log: Log, entry: Entry)
    requires Capped(log) && entry.event.watch in log.watches
    requires HasRoom(log.watches[entry.event.watch], entry.bytes) && !Crowded(log, entry.bytes)
    ensures Capped(Pushed(log, entry))
  {
    assert Pushed(log, entry).watches.Keys == log.watches.Keys;
  }

  lemma ReducedKeepsCapped(before: Log, after: Log)
    requires Capped(before) && Reduced(before, after)
    ensures Capped(after)
  {
    assert |after.watches| == |after.watches.Keys| == |before.watches|;
  }

  lemma ReducedKeepsLimited(before: Log, after: Log)
    requires Limited(before) && Reduced(before, after)
    ensures Limited(after)
  {
    forall w | w in after.watches ensures Unspent(after.watches[w]) {
      assert Unspent(before.watches[w]);
    }
  }

  /** Whatever is pushed, the watch that reaches its recording limit stops recording. */
  lemma PushKeepsLimited(log: Log, entry: Entry)
    requires Limited(log)
    ensures Limited(Pushed(log, entry))
  {
    forall w | w in Pushed(log, entry).watches ensures Unspent(Pushed(log, entry).watches[w]) {
      if w != entry.event.watch {
        assert Unspent(log.watches[w]);
      }
    }
  }

  /** The log with the identifier of the next event taken. */
  function Issued(log: Log): Log { log.(nextId := log.nextId + 1) }

  /** The two eviction phases of one append. */
  lemma AppendPhases(codec: Codec, log: Log, w: Uuid, entry: Entry)
    requires Valid(log) && w in log.watches
    requires entry.event.watch == w && entry.event.source == log.watches[w].source && entry.event.id == log.nextId
    requires entry.bytes <= MAX_EVENT_BYTES && entry.bytes <= log.watches[w].limits.maxBytes
    ensures var own := OwnEvicted(Issued(log), w, entry.bytes);
            var front := FrontEvicted(own, entry.bytes);
            && Consistent(own) && Consistent(front) && Reduced(Issued(log), own) && Reduced(own, front)
            && HasRoom(front.watches[w], entry.bytes) && !Crowded(front, entry.bytes)
            && Valid(Pushed(front, entry))
  {
    assert Consistent(Issued(log)) && Capped(Issued(log)) && Limited(Issued(log));
    var own := OwnEvicted(Issued(log), w, entry.bytes);
    OwnEvictionIsLeast(Issued(log), w, entry.bytes);
    OwnEvictionReduces(Issued(log), w, entry.bytes);
    var front := FrontEvicted(own, entry.bytes);
    FrontEvictionIsLeast(own, entry.bytes);
    FrontEvictionReduces(own, entry.bytes);
    FrontIsOlder(log, own, front);
    PushKeepsConsistent(front, entry);
    ReducedKeepsCapped(Issued(log), own);
    ReducedKeepsCapped(own, front);
    PushKeepsCapped(front, entry);
    ReducedKeepsLimited(Issued(log), own);
    ReducedKeepsLimited(own, front);
    PushKeepsLimited(front, entry);
  }

  lemma FrontIsOlder(log: Log, own: Log, front: Log)
    requires Ordered(log.events, log.nextId) && Reduced(Issued(log), own) && Reduced(own, front)
    ensures forall i | 0 <= i < |front.events| :: front.events[i].event.id < log.nextId
  {
    forall i | 0 <= i < |front.events|
      ensures front.events[i].event.id < log.nextId
    {
      assert front.events[i] in own.events;
      assert front.events[i] in log.events;
    }
  }

  /** Append keeps the invariant, caps included, for every event of any size. */
  lemma AppendKeepsValid(codec: Codec, log: Log, w: Uuid, now: nat, kind: string, target: Target, payload: Json)
    requires codec.GapsFit() && Valid(log)
    ensures Valid(Appended(codec, log, w, now, kind, target, payload))
  {
    if w in log.watches {
      var entry := NewEntry(codec, log, w, now, kind, target, payload);
      AdmittedFits(codec, NewEvent(log, w, now, kind, target, payload), log.watches[w].limits.maxBytes);
      AppendPhases(codec, log, w, entry);
    }
  }

  /**
   The append theorem: the new entry is stored last, after the shortest prefix of
   the watch's own events and then the shortest prefix of the whole log that make
   room for it; nothing is lost without being counted.
   */
  lemma AppendEvictsTheLeast(codec: Codec, log: Log, w: Uuid, now: nat, kind: string, target: Target, payload: Json)
    returns (middle: seq<Entry>)
    requires codec.GapsFit() && Valid(log) && w in log.watches
    ensures var entry := NewEntry(codec, log, w, now, kind, target, payload);
            var after := Appended(codec, log, w, now, kind, target, payload);
            var own := Own(log.events, w);
            && Own(middle, w) == own[LeastDrop(own, OwnRoom(log.watches[w].limits, entry.bytes))..]
            && Others(middle, w) == Others(log.events, w)
            && after.events == middle[LeastDrop(middle, StoreRoom(entry.bytes))..] + [entry]
            && after.nextId == log.nextId + 1
            && |after.events| + after.droppedEvents == |log.events| + log.droppedEvents + 1
  {
    var entry := NewEntry(codec, log, w, now, kind, target, payload);
    AdmittedFits(codec, NewEvent(log, w, now, kind, target, payload), log.watches[w].limits.maxBytes);
    middle := EvictionsAreLeast(log, w, entry);
    AppendIsAPush(codec, log, w, now, kind, target, payload, entry);
  }

  lemma AppendIsAPush(codec: Codec, log: Log, w: Uuid, now: nat, kind: string, target: Target, payload: Json, entry: Entry)
    requires w in log.watches && entry == NewEntry(codec, log, w, now, kind, target, payload)
    ensures Appended(codec, log, w, now, kind, target, payload)
         == Pushed(FrontEvicted(OwnEvicted(Issued(log), w, entry.bytes), entry.bytes), entry)
  {}

  lemma EvictionsAreLeast(log: Log, w: Uuid, entry: Entry) returns (middle: seq<Entry>)
    requires Valid(log) && w in log.watches && entry.bytes <= MAX_EVENT_BYTES
    requires entry.bytes <= log.watches[w].limits.maxBytes
    ensures var after := Pushed(FrontEvicted(OwnEvicted(Issued(log), w, entry.bytes), entry.bytes), entry);
            var own := Own(log.events, w);
            && Own(middle, w) == own[LeastDrop(own, OwnRoom(log.watches[w].limits, entry.bytes))..]
            && Others(middle, w) == Others(log.events, w)
            && after.events == middle[LeastDrop(middle, StoreRoom(entry.bytes))..] + [entry]
            && after.nextId == log.nextId + 1
            && |after.events| + after.droppedEvents == |log.events| + log.droppedEvents + 1
  {
    assert Consistent(Issued(log));
    OwnEvictionIsLeast(Issued(log), w, entry.bytes);
    OwnEvictionReduces(Issued(log), w, entry.bytes);
    var own := OwnEvicted(Issued(log), w, entry.bytes);
    middle := own.events;
    FrontEvictionIsLeast(own, entry.bytes);
    FrontEvictionReduces(own, entry.bytes);
  }

  // --- Forget -------------------------------------------------------------

  lemma {:induction false} EmptiedKeepsValid(log: Log, w: Uuid)
    requires Valid(log)
    ensures Valid(Emptied(log, w))
    decreases |log.events|
  {
    var i := FirstOwn(log.events, w);
    if i < |log.events| {
      DiscardKeepsConsistent(log, i);
      DiscardKeepsCapped(log, i);
      DiscardReduces(log, i);
      ReducedKeepsLimited(log, Discarded(log, i));
      EmptiedKeepsValid(Discarded(log, i), w);
    }
  }

  lemma {:induction false} EmptiedExactly(log: Log, w: Uuid)
    ensures var after := Emptied(log, w);
            && after.events == Others(log.events, w)
            && after.watches.Keys == log.watches.Keys
            && after.nextId == log.nextId && after.epoch == log.epoch
            && (forall v | v in log.watches && v != w :: after.watches[v] == log.watches[v])
    decreases |log.events|
  {
    var i := FirstOwn(log.events, w);
    if i == |log.events| {
      OwnNone(log.events, w);
    } else {
      FirstOwnRemoved(log.events, w);
      EmptiedExactly(Discarded(log, i), w);
    }
  }

  lemma {:induction false} OthersBelongs(es: seq<Entry>, w: Uuid)
    ensures forall e :: e in Others(es, w) <==> e in es && e.event.watch != w
  {
    if es != [] {
      OthersBelongs(es[1..], w);
    }
  }

  lemma WithoutWatch(log: Log, w: Uuid)
    requires Valid(log) && forall i | 0 <= i < |log.events| :: log.events[i].event.watch != w
    ensures Valid(log.(watches := log.watches - {w}, retired := log.retired - {w}))
  {
    var after := log.(watches := log.watches - {w}, retired := log.retired - {w});
    assert forall v | v in after.watches :: v in log.watches && after.watches[v] == log.watches[v];
    assert Accounted(after);
    forall v | v in after.watches ensures Unspent(after.watches[v]) {
      assert Unspent(log.watches[v]);
    }
  }

  /** Forgetting removes the watch with exactly its events and touches nothing else. */
  lemma ForgetRemovesExactly(log: Log, w: Uuid)
    requires Valid(log)
    ensures var after := Forgotten(log, w);
            && Valid(after)
            && after.events == Others(log.events, w)
            && after.watches.Keys == log.watches.Keys - {w}
            && (forall v | v in after.watches :: after.watches[v] == log.watches[v])
            && after.nextId == log.nextId && after.epoch == log.epoch
  {
    EmptiedKeepsValid(log, w);
    EmptiedExactly(log, w);
    OthersBelongs(log.events, w);
    WithoutWatch(Emptied(log, w), w);
  }
}
