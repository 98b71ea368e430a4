/**
 Every operation that changes the log, as one step, and what each step owes to
 the history of everything ever recorded.

 The store forgets; the history does not. The invariant relates them: an event
 of a watch that still exists is either retained or covered by the watch's
 `lastDroppedId`, and every gap event is covered by `lastGapId`.
 */
module ObservationHistory {
  import opened Wrappers
  import opened JsonValue
  import opened ObservationLog
  import opened ObservationAccounting

  /** A call on the log, made atomic by the store lock. `canceled` and `quiesced` are the state of the provider's control. */
  datatype Op =
    | Create(watch: Uuid, owner: Uuid, lifetime: Lifetime, source: SourceKind, limits: Limits, activeRoom: bool)
    | Ready(watch: Uuid)
    | Emit(watch: Uuid, canceled: bool, now: nat, kind: string, target: Target, payload: Json)
    | Lost(watch: Uuid, now: nat, events: Option<nat>, buffers: Option<nat>, reason: string)
    | Fail(watch: Uuid, now: nat, error: string)
    | Finish(watch: Uuid)
    | RequestStop(watch: Uuid)
    | CheckpointFailed(error: string)
    | Retire(owner: Uuid)
    | CloseForget(watch: Uuid, quiesced: bool)
    | Remove(watch: Uuid, quiesced: bool)

  /** One event on its way into the log. */
  datatype Signal = Signal(watch: Uuid, now: nat, kind: string, target: Target, payload: Json)

  function NewWatch(owner: Uuid, lifetime: Lifetime, source: SourceKind, limits: Limits): Watch {
    Watch(owner, lifetime, source, limits, Starting, None, 0, 0, 0, 0, 0, 0, 0, 0, 0, 0)
  }

  function WithStatus(log: Log, w: Uuid, status: WatchStatus): Log {
    if w in log.watches then log.(watches := log.watches[w := log.watches[w].(status := status)]) else log
  }

  /** The provider has returned: stopped, unless it already failed. */
  function Halted(log: Log, w: Uuid): Log {
    if w in log.watches && log.watches[w].status != Failed then WithStatus(log, w, Stopped) else log
  }

  /** A persistence failure ends every active persistent watch. */
  function PersistenceFailed(watch: Watch, error: string): Watch {
    if watch.lifetime == Persistent && watch.status.Active() then
      watch.(status := Failed, error := Some("persistence failed: " + error))
    else watch
  }

  /** The provider's own losses add up, as far as it counts them. */
  function WithLost(watch: Watch, events: Option<nat>, buffers: Option<nat>): Watch {
    watch.(lostEvents := watch.lostEvents + if events.Some? then events.value else 0,
           lostBuffers := watch.lostBuffers + if buffers.Some? then buffers.value else 0)
  }

  function WithLosses(log: Log, w: Uuid, events: Option<nat>, buffers: Option<nat>): Log {
    if w in log.watches then log.(watches := log.watches[w := WithLost(log.watches[w], events, buffers)]) else log
  }

  function Count(n: Option<nat>): Json { if n.Some? then Num(n.value) else Null }

  function LostPayload(events: Option<nat>, buffers: Option<nat>, reason: string): Json {
    Object(map["reason" := Str(reason), "lost_events" := Count(events), "lost_buffers" := Count(buffers),
                   "counts_known" := Bool(events.Some? && buffers.Some?)])
  }

  /** The part of an operation that precedes its event, or all of it when it has none. */
  function Prepared(log: Log, op: Op): Log {
    match op
    case Create(w, owner, lifetime, source, limits, activeRoom) =>
      if limits.Accepted() && activeRoom && |log.watches| < MAX_RECORDS then
        log.(watches := log.watches[w := NewWatch(owner, lifetime, source, limits)])
      else log
    case Ready(w) =>
      if w in log.watches && log.watches[w].status == Starting then WithStatus(log, w, Recording) else log
    case Emit(_, _, _, _, _, _) => log
    case Lost(w, _, events, buffers, _) => WithLosses(log, w, events, buffers)
    case Fail(w, _, error) =>
      if w in log.watches then
        log.(watches := log.watches[w := log.watches[w].(status := Failed, error := Some(error))])
      else log
    case Finish(w) =>
      if w in log.retired then Forgotten(Halted(log, w), w) else Halted(log, w)
    case RequestStop(w) =>
      if w in log.watches && log.watches[w].status.Active() then WithStatus(log, w, Stopping) else log
    case CheckpointFailed(error) =>
      log.(watches := map w | w in log.watches :: PersistenceFailed(log.watches[w], error))
    case Retire(owner) =>
      log.(retired := log.retired
             + set w | w in log.watches && log.watches[w].owner == owner && log.watches[w].lifetime == Connection)
    case CloseForget(w, quiesced) => if quiesced then Forgotten(log, w) else log
    case Remove(w, quiesced) =>
      if w in log.watches && !log.watches[w].status.Active() && quiesced then Forgotten(log, w) else log
  }

  function Emission(log: Log, op: Op): Option<Signal> {
    match op
    case Emit(w, canceled, now, kind, target, payload) =>
      if !canceled && w in log.watches && log.watches[w].status.Live() then
        Some(Signal(w, now, kind, target, payload))
      else None
    case Lost(w, now, events, buffers, reason) =>
      if w in log.watches then Some(Signal(w, now, GAP, NO_TARGET, LostPayload(events, buffers, reason))) else None
    case Fail(w, now, error) =>
      if w in log.watches then
        Some(Signal(w, now, "watch.failed", NO_TARGET, Object(map["error" := Str(error)])))
      else None
    case _ => None
  }

  function Signaled(codec: Codec, log: Log, s: Signal): Log {
    Appended(codec, log, s.watch, s.now, s.kind, s.target, s.payload)
  }

  function Applied(codec: Codec, log: Log, op: Op): Log {
    var prepared := Prepared(log, op);
    match Emission(log, op)
    case None => prepared
    case Some(s) => Signaled(codec, prepared, s)
  }

  // --- The history --------------------------------------------------------

  /** Everything recorded in this epoch, and every watch identifier ever handed out. */
  datatype Past = Past(events: set<Event>, used: set<Uuid>)

  /** The event an operation records, as it is stored. */
  function RecordedBy(codec: Codec, log: Log, op: Op): set<Event> {
    match Emission(log, op)
    case None => {}
    case Some(s) =>
      if s.watch in Prepared(log, op).watches then
        {NewEntry(codec, Prepared(log, op), s.watch, s.now, s.kind, s.target, s.payload).event}
      else {}
  }

  function Remembered(codec: Codec, log: Log, past: Past, op: Op): Past {
    Past(past.events + RecordedBy(codec, log, op), past.used + if op.Create? then {op.watch} else {})
  }

  /** Identifiers are never handed out twice. */
  predicate Enabled(past: Past, op: Op) { op.Create? ==> op.watch !in past.used }

  ghost predicate Retained(es: seq<Entry>, e: Event) {
    exists entry | entry in es :: entry.event == e
  }

  ghost predicate Covered(log: Log, events: set<Event>) {
    forall e | e in events && e.watch in log.watches ::
      Retained(log.events, e) || e.id <= log.watches[e.watch].lastDroppedId
  }

  ghost predicate GapsMarked(log: Log, events: set<Event>) {
    forall e | e in events && e.watch in log.watches && e.kind == GAP :: e.id <= log.watches[e.watch].lastGapId
  }

  ghost predicate Truthful(log: Log, past: Past) {
    && (forall e | e in past.events :: 1 <= e.id < log.nextId && e.watch in past.used)
    && (forall e, f | e in past.events && f in past.events && e.id == f.id :: e == f)
    && (forall entry | entry in log.events :: entry.event in past.events)
    && log.watches.Keys <= past.used
    && Covered(log, past.events)
    && GapsMarked(log, past.events)
    && Sourced(log, past.events)
  }

  ghost predicate Sourced(log: Log, events: set<Event>) {
    forall e | e in events && e.watch in log.watches :: e.source == log.watches[e.watch].source
  }

  /** The whole invariant of a running store. */
  ghost predicate Good(log: Log, past: Past) {
    Valid(log) && Truthful(log, past)
  }

  /** How one state may follow another: what readers rely on between two looks at the log. */
  ghost predicate Follows(log: Log, past: Past, log': Log, past': Past) {
    && log'.epoch == log.epoch && log.nextId <= log'.nextId
    && past.events <= past'.events && past.used <= past'.used
    && (forall e | e in past'.events && e !in past.events :: log.nextId <= e.id)
    && (forall w | w in log'.watches && w !in log.watches :: w !in past.used)
    && (forall w | w in log'.watches && w in log.watches ::
          && log'.watches[w].owner == log.watches[w].owner
          && log'.watches[w].lifetime == log.watches[w].lifetime
          && log'.watches[w].source == log.watches[w].source
          && log'.watches[w].limits == log.watches[w].limits
          && log'.watches[w].lastDroppedId >= log.watches[w].lastDroppedId
          && log'.watches[w].lastGapId >= log.watches[w].lastGapId
          && log'.watches[w].recordedEvents >= log.watches[w].recordedEvents
          && log'.watches[w].recordedBytes >= log.watches[w].recordedBytes
          && (log'.watches[w].status.Active() ==> log.watches[w].status.Active())
          && (log'.watches[w].status.Live() ==> log.watches[w].status.Live()))
  }

  // --- Discards and eviction keep the history covered ----------------------

  lemma DiscardKeepsCovered(log: Log, i: nat, events: set<Event>)
    requires Covered(log, events)
    ensures Covered(Discarded(log, i), events)
  {
    if i < |log.events| {
      var after := Discarded(log, i);
      forall e | e in events && e.watch in after.watches
        ensures Retained(after.events, e) || e.id <= after.watches[e.watch].lastDroppedId
      {
        if Retained(log.events, e) {
          var entry :| entry in log.events && entry.event == e;
          var j :| 0 <= j < |log.events| && log.events[j] == entry;
          if j != i {
            assert after.events[if j < i then j else j - 1] == entry;
          }
        }
      }
    }
  }

  lemma {:induction false} OwnEvictionKeepsCovered(log: Log, w: Uuid, bytes: nat, events: set<Event>)
    requires Covered(log, events)
    ensures Covered(OwnEvicted(log, w, bytes), events)
    decreases |log.events|
  {
    if w in log.watches && !HasRoom(log.watches[w], bytes) && FirstOwn(log.events, w) < |log.events| {
      DiscardKeepsCovered(log, FirstOwn(log.events, w), events);
      OwnEvictionKeepsCovered(Discarded(log, FirstOwn(log.events, w)), w, bytes, events);
    }
  }

  lemma {:induction false} FrontEvictionKeepsCovered(log: Log, bytes: nat, events: set<Event>)
    requires Covered(log, events)
    ensures Covered(FrontEvicted(log, bytes), events)
    decreases |log.events|
  {
    if log.events != [] && Crowded(log, bytes) {
      DiscardKeepsCovered(log, 0, events);
      FrontEvictionKeepsCovered(Discarded(log, 0), bytes, events);
    }
  }

  lemma {:induction false} EmptyingReduces(log: Log, w: Uuid)
    ensures Reduced(log, Emptied(log, w))
    ensures Emptied(log, w).retired == log.retired
    decreases |log.events|
  {
    if FirstOwn(log.events, w) < |log.events| {
      DiscardReduces(log, FirstOwn(log.events, w));
      EmptyingReduces(Discarded(log, FirstOwn(log.events, w)), w);
    }
  }

  // --- The steps ----------------------------------------------------------

  lemma ReducedTwice(a: Log, b: Log, c: Log)
    requires Reduced(a, b) && Reduced(b, c)
    ensures Reduced(a, c)
  {}

  /** Pushing the next event onto a log that eviction has reduced. */
  lemma PushKeepsTruth(log: Log, past: Past, front: Log, entry: Entry)
    requires Truthful(log, past) && Marked(log) && Reduced(Issued(log), front) && Covered(front, past.events)
    requires entry.event.id == log.nextId >= 1 && entry.event.watch in log.watches
    requires entry.event.source == log.watches[entry.event.watch].source
    ensures var past' := past.(events := past.events + {entry.event});
            Truthful(Pushed(front, entry), past')
  {
    PushKeepsCovered(front, entry, past.events);
    var after := Pushed(front, entry);
    forall kept | kept in after.events
      ensures kept.event in past.events + {entry.event}
    {
      if kept != entry {
        assert kept in front.events;
        assert kept in log.events;
      }
    }
  }

  lemma PushFollows(log: Log, past: Past, front: Log, entry: Entry)
    requires Truthful(log, past) && Marked(log) && Reduced(Issued(log), front)
    requires entry.event.id == log.nextId && entry.event.watch in log.watches
    ensures var past' := past.(events := past.events + {entry.event});
            Follows(log, past, Pushed(front, entry), past')
  {}

  lemma AppendKeepsGood(codec: Codec, log: Log, past: Past, s: Signal)
    requires codec.GapsFit() && Good(log, past) && s.watch in log.watches
    ensures var e := NewEntry(codec, log, s.watch, s.now, s.kind, s.target, s.payload).event;
            var past' := past.(events := past.events + {e});
            && Good(Signaled(codec, log, s), past')
            && Follows(log, past, Signaled(codec, log, s), past')
  {
    var entry := NewEntry(codec, log, s.watch, s.now, s.kind, s.target, s.payload);
    AdmittedFits(codec, NewEvent(log, s.watch, s.now, s.kind, s.target, s.payload), log.watches[s.watch].limits.maxBytes);
    AppendKeepsValid(codec, log, s.watch, s.now, s.kind, s.target, s.payload);
    AppendIsAPush(codec, log, s.watch, s.now, s.kind, s.target, s.payload, entry);
    var front := EvictedFront(log, past, s.watch, entry.bytes);
    PushKeepsTruth(log, past, front, entry);
    PushFollows(log, past, front, entry);
  }

  /** Both evictions of an append only reduce the log and keep the history covered. */
  lemma EvictedFront(log: Log, past: Past, w: Uuid, bytes: nat) returns (front: Log)
    requires Covered(log, past.events)
    ensures front == FrontEvicted(OwnEvicted(Issued(log), w, bytes), bytes)
    ensures Reduced(Issued(log), front) && Covered(front, past.events)
  {
    var own := OwnEvicted(Issued(log), w, bytes);
    front := FrontEvicted(own, bytes);
    assert Covered(Issued(log), past.events);
    OwnEvictionKeepsCovered(Issued(log), w, bytes, past.events);
    FrontEvictionKeepsCovered(own, bytes, past.events);
    OwnEvictionReduces(Issued(log), w, bytes);
    FrontEvictionReduces(own, bytes);
    ReducedTwice(Issued(log), own, front);
  }

  lemma PushKeepsCovered(log: Log, entry: Entry, events: set<Event>)
    requires Covered(log, events)
    ensures Covered(Pushed(log, entry), events + {entry.event})
  {
    var after := Pushed(log, entry);
    forall e | e in events + {entry.event} && e.watch in after.watches
      ensures Retained(after.events, e) || e.id <= after.watches[e.watch].lastDroppedId
    {
      if e == entry.event {
        assert after.events[|log.events|] == entry;
      } else if Retained(log.events, e) {
        var kept :| kept in log.events && kept.event == e;
        assert kept in after.events;
      }
    }
  }

  /** Only statuses, errors, provider losses and retirement marks differ, and no watch becomes active. */
  ghost predicate StatusOnly(log: Log, log': Log) {
    && log' == log.(watches := log'.watches, retired := log'.retired)
    && log'.watches.Keys == log.watches.Keys
    && forall w | w in log.watches ::
         && log'.watches[w] == log.watches[w].(
              status := log'.watches[w].status, error := log'.watches[w].error,
              lostEvents := log'.watches[w].lostEvents, lostBuffers := log'.watches[w].lostBuffers)
         && (log'.watches[w].status.Active() ==> log.watches[w].status.Active())
         && (log'.watches[w].status.Live() ==> log.watches[w].status.Live())
  }

  lemma StatusKeepsLimited(log: Log, log': Log)
    requires Limited(log) && StatusOnly(log, log')
    ensures Limited(log')
  {
    forall w | w in log'.watches ensures Unspent(log'.watches[w]) {
      assert Unspent(log.watches[w]);
    }
  }

  lemma StatusKeepsGood(log: Log, past: Past, log': Log)
    requires Good(log, past) && StatusOnly(log, log')
    ensures Good(log', past) && Follows(log, past, log', past)
  {
    forall w | w in log'.watches
      ensures Counted(log'.watches[w], Own(log'.events, w))
    {
      assert Counted(log.watches[w], Own(log.events, w));
    }
    assert Attributed(log');
    StatusKeepsLimited(log, log');
    assert Covered(log', past.events) && GapsMarked(log', past.events) && Sourced(log', past.events);
  }

  lemma StatusSteps(log: Log, op: Op)
    requires op.Ready? || op.RequestStop? || op.CheckpointFailed? || op.Retire? || op.Fail? || op.Lost?
    ensures StatusOnly(log, Prepared(log, op))
  {}

  lemma StoppedStatus(log: Log, w: Uuid)
    ensures StatusOnly(log, Halted(log, w))
  {}

  lemma ForgetKeepsGood(log: Log, past: Past, w: Uuid)
    requires Good(log, past)
    ensures Good(Forgotten(log, w), past) && Follows(log, past, Forgotten(log, w), past)
  {
    ForgetRemovesExactly(log, w);
    OthersBelongs(log.events, w);
    EmptyingReduces(log, w);
    var after := Forgotten(log, w);
    forall e | e in past.events && e.watch in after.watches
      ensures Retained(after.events, e) || e.id <= after.watches[e.watch].lastDroppedId
    {
      if Retained(log.events, e) {
        var entry :| entry in log.events && entry.event == e;
        assert entry in after.events;
      }
    }
  }

  lemma CreateKeepsAccounted(log: Log, w: Uuid, watch: Watch)
    requires Accounted(log) && Attributed(log) && w !in log.watches
    requires watch == NewWatch(watch.owner, watch.lifetime, watch.source, watch.limits)
    ensures Accounted(log.(watches := log.watches[w := watch]))
  {
    var log' := log.(watches := log.watches[w := watch]);
    OwnNone(log.events, w);
    forall v | v in log'.watches
      ensures Counted(log'.watches[v], Own(log'.events, v))
    {
      if v != w {
        assert Counted(log.watches[v], Own(log.events, v));
      }
    }
  }

  lemma CreateKeepsCapped(log: Log, w: Uuid, watch: Watch)
    requires Capped(log) && |log.watches| < MAX_RECORDS && watch.limits.Accepted() && w !in log.watches
    requires watch == NewWatch(watch.owner, watch.lifetime, watch.source, watch.limits)
    ensures Capped(log.(watches := log.watches[w := watch]))
  {
    var log' := log.(watches := log.watches[w := watch]);
    assert |log'.watches| == |log.watches| + 1;
    forall v | v in log'.watches
      ensures log'.watches[v].limits.Accepted()
      ensures log'.watches[v].retainedEvents <= log'.watches[v].limits.maxEvents
      ensures log'.watches[v].retainedBytes <= log'.watches[v].limits.maxBytes
    {
      assert v == w || v in log.watches;
    }
  }

  lemma CreateKeepsLimited(log: Log, w: Uuid, watch: Watch)
    requires Limited(log) && watch.limits.Accepted()
    requires watch == NewWatch(watch.owner, watch.lifetime, watch.source, watch.limits)
    ensures Limited(log.(watches := log.watches[w := watch]))
  {
    var log' := log.(watches := log.watches[w := watch]);
    forall v | v in log'.watches ensures Unspent(log'.watches[v]) {
      if v != w {
        assert Unspent(log.watches[v]);
      }
    }
  }

  /** A watch nobody has heard of takes no part in the history. */
  lemma CreateKeepsTruth(log: Log, past: Past, w: Uuid, watch: Watch)
    requires Truthful(log, past) && w !in past.used
    ensures var log' := log.(watches := log.watches[w := watch]);
            var past' := past.(used := past.used + {w});
            Truthful(log', past') && Follows(log, past, log', past')
  {
    var log' := log.(watches := log.watches[w := watch]);
    forall e | e in past.events
      ensures e.watch != w
    {}
    assert Covered(log', past.events);
  }

  lemma CreateKeepsConsistent(log: Log, w: Uuid, watch: Watch)
    requires Consistent(log) && w !in log.watches
    requires watch == NewWatch(watch.owner, watch.lifetime, watch.source, watch.limits)
    ensures Consistent(log.(watches := log.watches[w := watch]))
  {
    CreateKeepsAccounted(log, w, watch);
  }

  lemma CreateKeepsGood(log: Log, past: Past, w: Uuid, watch: Watch)
    requires Good(log, past) && w !in past.used && |log.watches| < MAX_RECORDS && watch.limits.Accepted()
    requires watch == NewWatch(watch.owner, watch.lifetime, watch.source, watch.limits)
    ensures var log' := log.(watches := log.watches[w := watch]);
            var past' := past.(used := past.used + {w});
            Good(log', past') && Follows(log, past, log', past')
  {
    CreateKeepsConsistent(log, w, watch);
    CreateKeepsCapped(log, w, watch);
    CreateKeepsLimited(log, w, watch);
    CreateKeepsTruth(log, past, w, watch);
  }

  lemma FollowsTwice(a: Log, pa: Past, b: Log, pb: Past, c: Log, pc: Past)
    requires Follows(a, pa, b, pb) && Follows(b, pb, c, pc) && a.watches.Keys <= pa.used
    ensures Follows(a, pa, c, pc)
  {}

  lemma NothingKeepsGood(log: Log, past: Past)
    requires Good(log, past)
    ensures Follows(log, past, log, past)
  {}

  lemma FinishKeepsGood(log: Log, past: Past, w: Uuid)
    requires Good(log, past)
    ensures var after := if w in log.retired then Forgotten(Halted(log, w), w) else Halted(log, w);
            Good(after, past) && Follows(log, past, after, past)
  {
    StoppedStatus(log, w);
    StatusKeepsGood(log, past, Halted(log, w));
    ForgetKeepsGood(Halted(log, w), past, w);
    FollowsTwice(log, past, Halted(log, w), past, Forgotten(Halted(log, w), w), past);
  }

  /** How an operation other than creating a watch prepares the log. */
  lemma PreparedShape(log: Log, op: Op)
    requires !op.Create?
    ensures op.Finish? ==>
              Prepared(log, op) == if op.watch in log.retired then Forgotten(Halted(log, op.watch), op.watch) else Halted(log, op.watch)
    ensures op.CloseForget? || op.Remove? ==> Prepared(log, op) == log || Prepared(log, op) == Forgotten(log, op.watch)
    ensures op.Emit? ==> Prepared(log, op) == log
  {}

  lemma OthersKeepGood(log: Log, past: Past, op: Op)
    requires Good(log, past) && !op.Create?
    ensures Good(Prepared(log, op), past) && Follows(log, past, Prepared(log, op), past)
  {
    PreparedShape(log, op);
    NothingKeepsGood(log, past);
    if op.Finish? {
      FinishKeepsGood(log, past, op.watch);
    } else if op.CloseForget? || op.Remove? {
      ForgetKeepsGood(log, past, op.watch);
    } else if !op.Emit? {
      StatusSteps(log, op);
      StatusKeepsGood(log, past, Prepared(log, op));
    }
  }

  lemma CreationKeepsGood(log: Log, past: Past, op: Op)
    requires Good(log, past) && op.Create? && Enabled(past, op)
    ensures var past' := past.(used := past.used + {op.watch});
            Good(Prepared(log, op), past') && Follows(log, past, Prepared(log, op), past')
  {
    if op.limits.Accepted() && op.activeRoom && |log.watches| < MAX_RECORDS {
      CreateKeepsGood(log, past, op.watch, NewWatch(op.owner, op.lifetime, op.source, op.limits));
    } else {
      RefusalKeepsGood(log, past, op.watch);
    }
  }

  /** An identifier that was handed out for nothing. */
  lemma RefusalKeepsGood(log: Log, past: Past, w: Uuid)
    requires Good(log, past)
    ensures var past' := past.(used := past.used + {w});
            Good(log, past') && Follows(log, past, log, past')
  {}

  lemma PreparationKeepsGood(log: Log, past: Past, op: Op)
    requires Good(log, past) && Enabled(past, op)
    ensures var past' := past.(used := past.used + if op.Create? then {op.watch} else {});
            Good(Prepared(log, op), past') && Follows(log, past, Prepared(log, op), past')
  {
    if op.Create? {
      CreationKeepsGood(log, past, op);
    } else {
      assert past.used + {} == past.used;
      OthersKeepGood(log, past, op);
    }
  }

  /** Every operation keeps the whole invariant, and readers only ever see the log move forward. */
  lemma StepKeepsGood(codec: Codec, log: Log, past: Past, op: Op)
    requires codec.GapsFit() && Good(log, past) && Enabled(past, op)
    ensures Good(Applied(codec, log, op), Remembered(codec, log, past, op))
    ensures Follows(log, past, Applied(codec, log, op), Remembered(codec, log, past, op))
  {
    PreparationKeepsGood(log, past, op);
    var past' := past.(used := past.used + if op.Create? then {op.watch} else {});
    match Emission(log, op)
    case None => SilentStep(codec, log, past, op);
    case Some(s) => SignalStepKeepsGood(codec, log, past, op, past', s);
  }

  lemma SilentStep(codec: Codec, log: Log, past: Past, op: Op)
    requires Emission(log, op).None?
    ensures Applied(codec, log, op) == Prepared(log, op)
    ensures Remembered(codec, log, past, op) == past.(used := past.used + if op.Create? then {op.watch} else {})
  {
    assert past.events + {} == past.events;
  }

  lemma SignalStepKeepsGood(codec: Codec, log: Log, past: Past, op: Op, past': Past, s: Signal)
    requires codec.GapsFit() && log.watches.Keys <= past.used && Emission(log, op) == Some(s)
    requires Good(Prepared(log, op), past') && Follows(log, past, Prepared(log, op), past')
    requires past' == past.(used := past.used + if op.Create? then {op.watch} else {})
    ensures Good(Applied(codec, log, op), Remembered(codec, log, past, op))
    ensures Follows(log, past, Applied(codec, log, op), Remembered(codec, log, past, op))
  {
    var prepared := Prepared(log, op);
    EmissionIsForAWatch(log, op);
    AppendKeepsGood(codec, prepared, past', s);
    var e := NewEntry(codec, prepared, s.watch, s.now, s.kind, s.target, s.payload).event;
    SignalIsRemembered(codec, log, past, op, s);
    FollowsTwice(log, past, prepared, past', Signaled(codec, prepared, s), past'.(events := past'.events + {e}));
  }

  lemma SignalIsRemembered(codec: Codec, log: Log, past: Past, op: Op, s: Signal)
    requires Emission(log, op) == Some(s) && s.watch in Prepared(log, op).watches
    ensures Applied(codec, log, op) == Signaled(codec, Prepared(log, op), s)
    ensures Remembered(codec, log, past, op)
         == Past(past.events + {NewEntry(codec, Prepared(log, op), s.watch, s.now, s.kind, s.target, s.payload).event},
                 past.used + if op.Create? then {op.watch} else {})
  {}

  lemma EmissionIsForAWatch(log: Log, op: Op)
    ensures Emission(log, op).Some? ==> Emission(log, op).value.watch in Prepared(log, op).watches
  {}

  // --- Runs ---------------------------------------------------------------

  function Run(codec: Codec, log: Log, past: Past, ops: seq<Op>): (Log, Past)
    decreases |ops|
  {
    if ops == [] then (log, past)
    else Run(codec, Applied(codec, log, ops[0]), Remembered(codec, log, past, ops[0]), ops[1..])
  }

  ghost predicate RunEnabled(codec: Codec, log: Log, past: Past, ops: seq<Op>)
    decreases |ops|
  {
    ops != [] ==>
      && Enabled(past, ops[0])
      && RunEnabled(codec, Applied(codec, log, ops[0]), Remembered(codec, log, past, ops[0]), ops[1..])
  }

  /** The store invariant holds after every run, and the run only moves forward. */
  lemma {:induction false} RunKeepsGood(codec: Codec, log: Log, past: Past, ops: seq<Op>)
    requires codec.GapsFit() && Good(log, past) && RunEnabled(codec, log, past, ops)
    ensures var (log', past') := Run(codec, log, past, ops);
            Good(log', past') && Follows(log, past, log', past')
    decreases |ops|
  {
    if ops != [] {
      StepKeepsGood(codec, log, past, ops[0]);
      RunKeepsGood(codec, Applied(codec, log, ops[0]), Remembered(codec, log, past, ops[0]), ops[1..]);
    }
  }

  /** The store of a host with nothing to restore. */
  function Fresh(epoch: Uuid): Log { Log(epoch, 1, 0, 0, 0, [], map[], {}) }

  lemma FreshIsGood(epoch: Uuid)
    ensures Good(Fresh(epoch), Past({}, {}))
  {}
}
