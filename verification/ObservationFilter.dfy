/**
 What a filter means, told by the pages a reader gets: exactly the retained,
 visible events of the range that agree with every field of the filter. Looser
 filters deliver more, and a window in time splits at any moment.
 */
module ObservationFilter {
  import opened Wrappers
  import opened JsonValue
  import opened ObservationLog
  import opened ObservationAccounting
  import opened ObservationHistory
  import opened ObservationRead

  // --- Fields, one by one -----------------------------------------------------

  /** Observed at or after the one bound and at or before the other, where they are given. */
  predicate InWindow(since: Option<nat>, until: Option<nat>, at: nat) {
    (since.None? || at >= since.value) && (until.None? || at <= until.value)
  }

  /** The same process: the same number given out at the same time, in the session asked for if one is. */
  predicate SameProcess(asked: ProcessIdentity, found: Option<ProcessIdentity>) {
    && found.Some? && found.value.pid == asked.pid && found.value.created == asked.created
    && (asked.session.None? || found.value.session == asked.session)
  }

  /** An object that has each of the asked properties with just the asked value. */
  predicate HasAll(payload: Json, asked: map<string, Json>) {
    forall key | key in asked :: payload.Object? && key in payload.fields && payload.fields[key] == asked[key]
  }

  predicate Agrees(f: EventFilter, e: Event) {
    && (f.watch.None? || e.watch == f.watch.value)
    && (f.source.None? || e.source == f.source.value)
    && (f.kind.None? || e.kind == f.kind.value)
    && (f.process.None? || SameProcess(f.process.value, e.target.process))
    && (f.path.None? || e.target.path == f.path)
    && InWindow(f.since, f.until, e.observedAt)
    && HasAll(e.payload, f.payloadEquals)
  }

  /** A persistent watch is everybody's, any other only its owner's. */
  predicate MaySee(log: Log, owner: Uuid, w: Uuid) {
    w in log.watches && (log.watches[w].lifetime == Persistent || log.watches[w].owner == owner)
  }

  lemma WantedMeansAgrees(log: Log, q: Query, e: Event)
    ensures Hit(log, q, e) <==> MaySee(log, q.owner, e.watch) && Agrees(q.filter, e)
  {
    if Agrees(q.filter, e) {
      assert forall key | key in q.filter.payloadEquals :: Field(e.payload, key) == Some(q.filter.payloadEquals[key]);
    }
    if q.filter.Matches(e) {
      forall key | key in q.filter.payloadEquals
        ensures e.payload.Object? && key in e.payload.fields && e.payload.fields[key] == q.filter.payloadEquals[key]
      {
        assert Field(e.payload, key) == Some(q.filter.payloadEquals[key]);
      }
    }
  }

  // --- When a read is answered ------------------------------------------------

  /** Where a page begins: a cursor that is ahead of the recording counts as the beginning. */
  function Beginning(log: Log, after: Option<Cursor>): nat {
    match after
    case None => 0
    case Some(cursor) => if cursor.id < log.nextId then cursor.id else 0
  }

  /**
   A read is answered exactly when its filter is sound (a process with its
   creation time, bounds in order, at most 16 KiB), at most 1000 events are asked
   for, a watch it names can be seen, and its cursor is not ahead in this epoch.
   */
  lemma AnsweredExactly(codec: Codec, log: Log, q: Query, after: Option<Cursor>, limit: nat)
    ensures ReadPage(codec, log, q, after, limit).Ok? <==>
            && (q.filter.process.Some? ==> q.filter.process.value.created.Some?)
            && (q.filter.since.Some? && q.filter.until.Some? ==> q.filter.since.value <= q.filter.until.value)
            && codec.filter(q.filter) <= 16384
            && 1 <= limit <= 1000
            && (q.filter.watch.Some? ==> MaySee(log, q.owner, q.filter.watch.value))
            && (after.Some? ==> after.value.id < log.nextId || after.value.epoch != log.epoch)
  {}

  // --- What a page holds --------------------------------------------------------

  lemma HeldIsBeforeTheCursor(page: Page, log: Log, hits: seq<Entry>, from: nat, limit: nat, k: nat)
    requires PageOf(page, log, hits, from, limit, |page.events|) && k < |page.events|
    requires forall i, j | 0 <= i < j < |hits| :: hits[i].event.id < hits[j].event.id
    requires forall i | 0 <= i < |hits| :: hits[i].event.id < log.nextId
    ensures hits[k].event.id <= page.next.id
  {}

  lemma HeldIsAHit(page: Page, log: Log, q: Query, from: nat, limit: nat, e: Event)
    requires PageOf(page, log, Hits(log, q, from, 0), from, limit, |page.events|) && e in page.events
    requires Ordered(log.events, log.nextId)
    ensures Retained(log.events, e) && from < e.id <= page.next.id && Hit(log, q, e)
  {
    var hits, n := Hits(log, q, from, 0), |page.events|;
    HitsBelong(log, q, from, 0);
    var k :| 0 <= k < n && page.events[k] == e;
    assert hits[k] in hits;
    forall i | 0 <= i < |hits| ensures hits[i].event.id < log.nextId {
      assert hits[i] in hits;
    }
    HeldIsBeforeTheCursor(page, log, hits, from, limit, k);
  }

  lemma HitIsHeld(page: Page, log: Log, q: Query, from: nat, limit: nat, e: Event)
    requires PageOf(page, log, Hits(log, q, from, 0), from, limit, |page.events|)
    requires Ordered(log.events, log.nextId)
    requires Retained(log.events, e) && from < e.id <= page.next.id && Hit(log, q, e)
    ensures e in page.events
  {
    HitsBelong(log, q, from, 0);
    RetainedIsDelivered(page, log, q, Hits(log, q, from, 0), from, limit, e);
  }

  /**
   The page theorem: a page holds exactly the retained events from its beginning
   to its cursor that the reader may see and that agree with the filter.
   */
  lemma PageIsExact(codec: Codec, log: Log, q: Query, after: Option<Cursor>, limit: nat, e: Event)
    requires Valid(log) && ReadPage(codec, log, q, after, limit).Ok?
    ensures var page := ReadPage(codec, log, q, after, limit).value;
            e in page.events <==>
              && Retained(log.events, e) && Beginning(log, after) < e.id <= page.next.id
              && MaySee(log, q.owner, e.watch) && Agrees(q.filter, e)
  {
    var from, page := AfterId(log, after), ReadPage(codec, log, q, after, limit).value;
    PageMeaning(codec, log, q, after, limit);
    WantedMeansAgrees(log, q, e);
    if e in page.events {
      HeldIsAHit(page, log, q, from, limit, e);
    }
    if Retained(log.events, e) && from < e.id <= page.next.id && Hit(log, q, e) {
      HitIsHeld(page, log, q, from, limit, e);
    }
  }

  /** The watches that a page speaks for: those the reader may see, of the watch and the source it names. */
  predicate SpeaksFor(log: Log, q: Query, w: Uuid) {
    && MaySee(log, q.owner, w)
    && (q.filter.watch.None? || q.filter.watch.value == w)
    && (q.filter.source.None? || q.filter.source.value == log.watches[w].source)
  }

  /** A page reports a loss, or a gap in the recording, exactly when one of its watches has one past its beginning. */
  lemma FlagsAreExact(codec: Codec, log: Log, q: Query, after: Option<Cursor>, limit: nat)
    requires ReadPage(codec, log, q, after, limit).Ok?
    ensures var page, from := ReadPage(codec, log, q, after, limit).value, Beginning(log, after);
            && (forall w :: w in page.watches <==> SpeaksFor(log, q, w))
            && (page.retentionGap <==> exists w :: SpeaksFor(log, q, w) && log.watches[w].lastDroppedId > from)
            && (page.recordingGap <==> exists w :: SpeaksFor(log, q, w) && log.watches[w].lastGapId > from)
            && (page.restarted <==> after.Some? && after.value.epoch != log.epoch)
            && page.epoch == log.epoch == page.next.epoch
  {
    forall w ensures w in Selected(log, q) <==> SpeaksFor(log, q, w) {}
  }

  /**
   A page is as full as it may be: it begins with the first wanted events, at most
   4 MiB of them, and holds one back only if it has as many as were asked for or
   the next would not fit.
   */
  lemma PageIsFull(codec: Codec, log: Log, q: Query, after: Option<Cursor>, limit: nat)
    requires Valid(log) && ReadPage(codec, log, q, after, limit).Ok?
    ensures var page, wanted := ReadPage(codec, log, q, after, limit).value, Hits(log, q, Beginning(log, after), 0);
            var n := |page.events|;
            && n <= |wanted| && n <= limit <= 1000 && SumBytes(wanted[..n]) <= 4_194_304
            && (forall k | 0 <= k < n :: page.events[k] == wanted[k].event)
            && (n < |wanted| ==> n == limit || SumBytes(wanted[..n + 1]) > 4_194_304)
  {
    PageMeaning(codec, log, q, after, limit);
  }

  // --- Looser filters -----------------------------------------------------------

  predicate Dropped<T(==)>(asked: Option<T>, less: Option<T>) { less.None? || less == asked }

  /** The second filter asks for no more than the first: fields dropped, bounds moved outwards. */
  predicate Looser(f: EventFilter, g: EventFilter) {
    && Dropped(f.watch, g.watch) && Dropped(f.source, g.source) && Dropped(f.kind, g.kind)
    && Dropped(f.process, g.process) && Dropped(f.path, g.path)
    && (g.since.None? || (f.since.Some? && g.since.value <= f.since.value))
    && (g.until.None? || (f.until.Some? && f.until.value <= g.until.value))
    && (forall key | key in g.payloadEquals :: key in f.payloadEquals && f.payloadEquals[key] == g.payloadEquals[key])
  }

  /** A looser filter loses nothing that its page has come to. */
  lemma LooserLosesNothing(codec: Codec, log: Log, owner: Uuid, f: EventFilter, g: EventFilter, after: Option<Cursor>, limit: nat, e: Event)
    requires Valid(log) && Looser(f, g)
    requires var r, s := ReadPage(codec, log, Query(owner, f), after, limit), ReadPage(codec, log, Query(owner, g), after, limit);
             r.Ok? && s.Ok? && e in r.value.events && e.id <= s.value.next.id
    ensures e in ReadPage(codec, log, Query(owner, g), after, limit).value.events
  {
    PageIsExact(codec, log, Query(owner, f), after, limit, e);
    PageIsExact(codec, log, Query(owner, g), after, limit, e);
  }

  // --- Splitting a window ---------------------------------------------------------

  /**
   At any moment a window splits in two: what the pages have come to is on the
   whole page exactly when it is on one of the halves, and never on both.
   */
  lemma WindowsSplit(codec: Codec, log: Log, owner: Uuid, f: EventFilter, t: nat, after: Option<Cursor>, limit: nat, e: Event)
    requires Valid(log) && f.since.None? && f.until.None?
    requires var whole := ReadPage(codec, log, Query(owner, f), after, limit);
             var early := ReadPage(codec, log, Query(owner, f.(until := Some(t))), after, limit);
             var late := ReadPage(codec, log, Query(owner, f.(since := Some(t + 1))), after, limit);
             && whole.Ok? && early.Ok? && late.Ok?
             && e.id <= whole.value.next.id && e.id <= early.value.next.id && e.id <= late.value.next.id
    ensures var whole := ReadPage(codec, log, Query(owner, f), after, limit).value;
            var early := ReadPage(codec, log, Query(owner, f.(until := Some(t))), after, limit).value;
            var late := ReadPage(codec, log, Query(owner, f.(since := Some(t + 1))), after, limit).value;
            && (e in whole.events <==> e in early.events || e in late.events)
            && !(e in early.events && e in late.events)
            && (e in early.events ==> e.observedAt <= t) && (e in late.events ==> e.observedAt > t)
  {
    PageIsExact(codec, log, Query(owner, f), after, limit, e);
    PageIsExact(codec, log, Query(owner, f.(until := Some(t))), after, limit, e);
    PageIsExact(codec, log, Query(owner, f.(since := Some(t + 1))), after, limit, e);
  }
}
