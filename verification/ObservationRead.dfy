/**
 Reading the log by cursor. A page is a prefix of the matching retained events
 after the cursor; a reader that follows `next` misses nothing it was not told
 about.
 */
module ObservationRead {
  import opened Wrappers
  import opened ObservationLog
  import opened ObservationAccounting
  import opened ObservationHistory

  const PAGE_BYTES: nat := 4 * 1024 * 1024
  const MAX_PAGE: nat := 1000

  datatype Cursor = Cursor(epoch: Uuid, id: nat)

  datatype ReadError = InvalidFilter | InvalidLimit | WatchNotFound | CursorAhead

  /** Who reads what. */
  datatype Query = Query(owner: Uuid, filter: EventFilter)

  datatype Page = Page(
    epoch: Uuid, next: Cursor, oldest: Option<nat>, retentionGap: bool, recordingGap: bool, restarted: bool,
    events: seq<Event>, watches: set<Uuid>)

  /** The accumulators of the page loop. */
  datatype Scan = Scan(events: seq<Event>, bytes: nat, next: nat, exhausted: bool)

  predicate Sees(log: Log, owner: Uuid, w: Uuid) {
    w in log.watches && Visible(log.watches[w], owner)
  }

  predicate Hit(log: Log, q: Query, e: Event) {
    Sees(log, q.owner, e.watch) && q.filter.Matches(e)
  }

  /** The watches whose gaps a page reports. */
  function Selected(log: Log, q: Query): set<Uuid> {
    set w | w in log.watches
            && Visible(log.watches[w], q.owner)
            && (q.filter.watch.Some? ==> q.filter.watch.value == w)
            && (q.filter.source.Some? ==> q.filter.source.value == log.watches[w].source)
  }

  function Scanned(log: Log, q: Query, after: nat, limit: nat, i: nat, acc: Scan): Scan
    requires i <= |log.events|
    decreases |log.events| - i
  {
    if i == |log.events| then acc
    else
      var entry := log.events[i];
      if entry.event.id <= after then Scanned(log, q, after, limit, i + 1, acc)
      else if !Hit(log, q, entry.event) then
        Scanned(log, q, after, limit, i + 1, acc.(next := entry.event.id))
      else if |acc.events| == limit || acc.bytes + entry.bytes > PAGE_BYTES then acc.(exhausted := false)
      else
        Scanned(log, q, after, limit, i + 1,
                Scan(acc.events + [entry.event], acc.bytes + entry.bytes, entry.event.id, acc.exhausted))
  }

  function PageScan(log: Log, q: Query, after: nat, limit: nat): Scan {
    Scanned(log, q, after, limit, 0, Scan([], 0, after, true))
  }

  /** The next cursor: the end of the recording once everything retained was examined. */
  function NextId(log: Log, scan: Scan): nat {
    if scan.exhausted && log.nextId >= 1 then log.nextId - 1 else scan.next
  }

  function AfterId(log: Log, after: Option<Cursor>): nat {
    if after.None? || after.value.id >= log.nextId then 0 else after.value.id
  }

  /** Why a read is refused, if it is. */
  function Refused(codec: Codec, log: Log, q: Query, after: Option<Cursor>, limit: nat): Option<ReadError> {
    if !q.filter.Accepted(codec) then Some(InvalidFilter)
    else if !(1 <= limit <= MAX_PAGE) then Some(InvalidLimit)
    else if q.filter.watch.Some? && !Sees(log, q.owner, q.filter.watch.value) then Some(WatchNotFound)
    else if after.Some? && after.value.id >= log.nextId && after.value.epoch == log.epoch then Some(CursorAhead)
    else None
  }

  function PageAt(log: Log, q: Query, after: Option<Cursor>, limit: nat): Page {
    var from := AfterId(log, after);
    var scan := PageScan(log, q, from, limit);
    var selected := Selected(log, q);
    Page(
      log.epoch, Cursor(log.epoch, NextId(log, scan)),
      if log.events == [] then None else Some(log.events[0].event.id),
      exists w | w in selected :: log.watches[w].lastDroppedId > from,
      exists w | w in selected :: log.watches[w].lastGapId > from,
      after.Some? && after.value.epoch != log.epoch, scan.events, selected)
  }

  function ReadPage(codec: Codec, log: Log, q: Query, after: Option<Cursor>, limit: nat): Result<Page, ReadError> {
    match Refused(codec, log, q, after, limit)
    case Some(error) => Err(error)
    case None => Ok(PageAt(log, q, after, limit))
  }

  // --- What a page is -----------------------------------------------------

  /** The retained entries a query wants, in order. */
  function Hits(log: Log, q: Query, after: nat, i: nat): seq<Entry>
    requires i <= |log.events|
    decreases |log.events| - i
  {
    if i == |log.events| then []
    else if log.events[i].event.id > after && Hit(log, q, log.events[i].event) then
      [log.events[i]] + Hits(log, q, after, i + 1)
    else Hits(log, q, after, i + 1)
  }

  lemma {:induction false} HitsBelong(log: Log, q: Query, after: nat, i: nat)
    requires i <= |log.events| && Ordered(log.events, log.nextId)
    ensures var hits := Hits(log, q, after, i);
            && (forall e :: e in hits <==>
                  exists j | i <= j < |log.events| ::
                    log.events[j] == e && e.event.id > after && Hit(log, q, e.event))
            && (forall j, k | 0 <= j < k < |hits| :: hits[j].event.id < hits[k].event.id)
    decreases |log.events| - i
  {
    if i < |log.events| {
      HitsBelong(log, q, after, i + 1);
    }
  }

  /** The page holds a prefix of the hits, as long as the limits allow. */
  ghost predicate PrefixOf(scan: Scan, acc: Scan, hits: seq<Entry>, limit: nat, n: nat) {
    && |scan.events| == |acc.events| + n && n <= |hits|
    && acc.events <= scan.events
    && (forall k | 0 <= k < n :: scan.events[|acc.events| + k] == hits[k].event)
    && |scan.events| <= limit
    && scan.bytes == acc.bytes + SumBytes(hits[..n]) <= PAGE_BYTES
    && (scan.exhausted <==> n == |hits|)
    && (!scan.exhausted ==> |scan.events| == limit || scan.bytes + hits[n].bytes > PAGE_BYTES)
  }

  /** What the loop does with one entry. */
  datatype Choice = Skip | Pass | Stop | Take

  function TurnAt(log: Log, q: Query, after: nat, limit: nat, i: nat, acc: Scan): Choice
    requires i < |log.events|
  {
    var entry := log.events[i];
    if entry.event.id <= after then Skip
    else if !Hit(log, q, entry.event) then Pass
    else if |acc.events| == limit || acc.bytes + entry.bytes > PAGE_BYTES then Stop
    else Take
  }

  function Grown(acc: Scan, entry: Entry): Scan {
    Scan(acc.events + [entry.event], acc.bytes + entry.bytes, entry.event.id, acc.exhausted)
  }

  lemma ScanStep(log: Log, q: Query, after: nat, limit: nat, i: nat, acc: Scan)
    requires i < |log.events|
    ensures var entry, turn := log.events[i], TurnAt(log, q, after, limit, i, acc);
            && (turn.Skip? ==> Scanned(log, q, after, limit, i, acc) == Scanned(log, q, after, limit, i + 1, acc))
            && (turn.Pass? ==> Scanned(log, q, after, limit, i, acc)
                               == Scanned(log, q, after, limit, i + 1, acc.(next := entry.event.id)))
            && (turn.Stop? ==> Scanned(log, q, after, limit, i, acc) == acc.(exhausted := false))
            && (turn.Take? ==> Scanned(log, q, after, limit, i, acc)
                               == Scanned(log, q, after, limit, i + 1, Grown(acc, entry)))
            && (turn.Skip? || turn.Pass? ==> Hits(log, q, after, i) == Hits(log, q, after, i + 1))
            && (turn.Stop? || turn.Take? ==> Hits(log, q, after, i) == [entry] + Hits(log, q, after, i + 1))
  {}

  lemma {:induction false} ScanIsPrefix(log: Log, q: Query, after: nat, limit: nat, i: nat, acc: Scan)
    requires i <= |log.events| && acc.exhausted && |acc.events| <= limit && acc.bytes <= PAGE_BYTES
    ensures PrefixFrom(Scanned(log, q, after, limit, i, acc), acc, Hits(log, q, after, i), limit)
    decreases |log.events| - i
  {
    if i == |log.events| {
      NothingIsPrefix(acc, limit);
    } else {
      var entry, turn, rest := log.events[i], TurnAt(log, q, after, limit, i, acc), Hits(log, q, after, i + 1);
      ScanStep(log, q, after, limit, i, acc);
      if turn.Skip? {
        ScanIsPrefix(log, q, after, limit, i + 1, acc);
      } else if turn.Pass? {
        ScanIsPrefix(log, q, after, limit, i + 1, acc.(next := entry.event.id));
        PrefixIgnoresNext(Scanned(log, q, after, limit, i + 1, acc.(next := entry.event.id)), acc, entry.event.id, rest, limit);
      } else if turn.Stop? {
        StopIsPrefix(acc, [entry] + rest, limit);
      } else {
        ScanIsPrefix(log, q, after, limit, i + 1, Grown(acc, entry));
        PrefixShift(Scanned(log, q, after, limit, i + 1, Grown(acc, entry)), acc, entry, rest, limit);
      }
    }
  }

  ghost predicate PrefixFrom(scan: Scan, acc: Scan, hits: seq<Entry>, limit: nat) {
    |scan.events| >= |acc.events| && PrefixOf(scan, acc, hits, limit, |scan.events| - |acc.events|)
  }

  lemma NothingIsPrefix(acc: Scan, limit: nat)
    requires acc.exhausted && |acc.events| <= limit && acc.bytes <= PAGE_BYTES
    ensures PrefixFrom(acc, acc, [], limit)
  {}

  lemma PrefixIgnoresNext(scan: Scan, acc: Scan, next: nat, hits: seq<Entry>, limit: nat)
    requires PrefixFrom(scan, acc.(next := next), hits, limit)
    ensures PrefixFrom(scan, acc, hits, limit)
  {}

  lemma StopIsPrefix(acc: Scan, hits: seq<Entry>, limit: nat)
    requires hits != [] && |acc.events| <= limit && acc.bytes <= PAGE_BYTES
    requires |acc.events| == limit || acc.bytes + hits[0].bytes > PAGE_BYTES
    ensures PrefixFrom(acc.(exhausted := false), acc, hits, limit)
  {
    assert hits[..0] == [];
  }

  lemma PrefixShift(scan: Scan, acc: Scan, entry: Entry, rest: seq<Entry>, limit: nat)
    requires PrefixFrom(scan, Grown(acc, entry), rest, limit)
    ensures PrefixFrom(scan, acc, [entry] + rest, limit)
  {
    var acc' := Grown(acc, entry);
    var n := |scan.events| - |acc.events|;
    var hits := [entry] + rest;
    assert hits[..n][1..] == rest[..n - 1];
    forall k | 0 <= k < n
      ensures scan.events[|acc.events| + k] == hits[k].event
    {
      if k == 0 {
        assert acc'.events[|acc.events|] == entry.event;
      } else {
        assert scan.events[|acc'.events| + (k - 1)] == rest[k - 1].event;
      }
    }
  }

  /** A page that stops early leaves its cursor just before the first event it held back. */
  ghost predicate StopsBefore(scan: Scan, acc: Scan, hits: seq<Entry>) {
    var n := |scan.events| - |acc.events|;
    && 0 <= n <= |hits|
    && (!scan.exhausted ==>
          && n < |hits|
          && acc.next <= scan.next < hits[n].event.id
          && (n > 0 ==> hits[n - 1].event.id <= scan.next))
  }

  /** The entries from `i` on lie behind the accumulator's cursor, apart from those before the page. */
  ghost predicate Ahead(log: Log, after: nat, i: nat, acc: Scan)
    requires i <= |log.events|
  {
    after <= acc.next
    && forall j | i <= j < |log.events| :: log.events[j].event.id > acc.next || log.events[j].event.id <= after
  }

  lemma AheadStep(log: Log, after: nat, i: nat, acc: Scan, acc': Scan)
    requires i < |log.events| && Ordered(log.events, log.nextId) && Ahead(log, after, i, acc)
    requires acc'.next == acc.next || (acc'.next == log.events[i].event.id && log.events[i].event.id > after)
    ensures Ahead(log, after, i + 1, acc')
  {}

  lemma {:induction false} ScanStopsBefore(log: Log, q: Query, after: nat, limit: nat, i: nat, acc: Scan)
    requires i <= |log.events| && acc.exhausted
    requires Ordered(log.events, log.nextId) && Ahead(log, after, i, acc)
    ensures StopsBefore(Scanned(log, q, after, limit, i, acc), acc, Hits(log, q, after, i))
    decreases |log.events| - i
  {
    if i == |log.events| {
      NothingStopsBefore(acc);
    } else {
      var entry, turn, rest := log.events[i], TurnAt(log, q, after, limit, i, acc), Hits(log, q, after, i + 1);
      ScanStep(log, q, after, limit, i, acc);
      if turn.Skip? {
        AheadStep(log, after, i, acc, acc);
        ScanStopsBefore(log, q, after, limit, i + 1, acc);
      } else {
        EntryIsAhead(log, after, i, acc);
        if turn.Stop? {
          StopIsBefore(acc, entry, rest);
        } else {
          var acc' := if turn.Pass? then acc.(next := entry.event.id) else Grown(acc, entry);
          AheadStep(log, after, i, acc, acc');
          ScanStopsBefore(log, q, after, limit, i + 1, acc');
          if turn.Pass? {
            StopsBeforePassed(Scanned(log, q, after, limit, i + 1, acc'), acc, entry.event.id, rest);
          } else {
            StopsBeforeShift(Scanned(log, q, after, limit, i + 1, acc'), acc, entry, rest);
          }
        }
      }
    }
  }

  lemma NothingStopsBefore(acc: Scan)
    requires acc.exhausted
    ensures StopsBefore(acc, acc, [])
  {}

  lemma EntryIsAhead(log: Log, after: nat, i: nat, acc: Scan)
    requires i < |log.events| && Ahead(log, after, i, acc) && log.events[i].event.id > after
    ensures acc.next < log.events[i].event.id
  {}

  lemma StopIsBefore(acc: Scan, entry: Entry, rest: seq<Entry>)
    requires acc.next < entry.event.id
    ensures StopsBefore(acc.(exhausted := false), acc, [entry] + rest)
  {}

  lemma StopsBeforePassed(scan: Scan, acc: Scan, next: nat, hits: seq<Entry>)
    requires StopsBefore(scan, acc.(next := next), hits) && acc.next <= next
    ensures StopsBefore(scan, acc, hits)
  {}

  lemma StopsBeforeShift(scan: Scan, acc: Scan, entry: Entry, rest: seq<Entry>)
    requires StopsBefore(scan, Grown(acc, entry), rest) && acc.next <= entry.event.id
    ensures StopsBefore(scan, acc, [entry] + rest)
  {}

  /** A page in terms of the hits: how much it holds and where its cursor stands. */
  ghost predicate PageOf(page: Page, log: Log, hits: seq<Entry>, from: nat, limit: nat, n: nat) {
    && |page.events| == n <= |hits| && n <= limit
    && (forall k | 0 <= k < n :: page.events[k] == hits[k].event)
    && SumBytes(hits[..n]) <= PAGE_BYTES
    && page.next.epoch == log.epoch && from <= page.next.id < log.nextId
    && (n == |hits| ==> page.next.id == log.nextId - 1)
    && (n < |hits| ==>
          && n > 0
          && (n == limit || SumBytes(hits[..n + 1]) > PAGE_BYTES)
          && from < hits[n - 1].event.id <= page.next.id < hits[n].event.id)
  }

  lemma PageIsScan(codec: Codec, log: Log, q: Query, after: Option<Cursor>, limit: nat)
    requires ReadPage(codec, log, q, after, limit).Ok?
    ensures var page := ReadPage(codec, log, q, after, limit).value;
            var scan := PageScan(log, q, AfterId(log, after), limit);
            page.events == scan.events && page.next == Cursor(log.epoch, NextId(log, scan)) && 1 <= limit
  {}

  /** Hits lie in the recorded range behind the cursor, and each of them alone fits a page. */
  ghost predicate HitsFit(log: Log, hits: seq<Entry>, from: nat) {
    forall k | 0 <= k < |hits| :: from < hits[k].event.id < log.nextId && hits[k].bytes <= PAGE_BYTES
  }

  lemma HitsDoFit(log: Log, q: Query, from: nat)
    requires Ordered(log.events, log.nextId) && Attributed(log)
    ensures HitsFit(log, Hits(log, q, from, 0), from)
  {
    var hits := Hits(log, q, from, 0);
    HitsBelong(log, q, from, 0);
    forall k | 0 <= k < |hits| ensures from < hits[k].event.id < log.nextId && hits[k].bytes <= PAGE_BYTES {
      assert hits[k] in hits;
    }
  }

  lemma PageFromScan(page: Page, log: Log, hits: seq<Entry>, from: nat, limit: nat, scan: Scan, n: nat)
    requires n == |scan.events| && 1 <= limit && from < log.nextId
    requires PrefixFrom(scan, Scan([], 0, from, true), hits, limit) && StopsBefore(scan, Scan([], 0, from, true), hits)
    requires HitsFit(log, hits, from)
    requires page.events == scan.events && page.next == Cursor(log.epoch, NextId(log, scan))
    ensures PageOf(page, log, hits, from, limit, n)
  {
    if n < |hits| {
      assert hits[..n + 1] == hits[..n] + [hits[n]];
      SumAppend(hits[..n], [hits[n]]);
    }
  }

  /** The page theorem, in terms of what the log retains. */
  lemma PageMeaning(codec: Codec, log: Log, q: Query, after: Option<Cursor>, limit: nat)
    requires Valid(log) && ReadPage(codec, log, q, after, limit).Ok?
    ensures var from := AfterId(log, after);
            var page := ReadPage(codec, log, q, after, limit).value;
            PageOf(page, log, Hits(log, q, from, 0), from, limit, |page.events|)
  {
    var from := AfterId(log, after);
    var scan := PageScan(log, q, from, limit);
    PageIsScan(codec, log, q, after, limit);
    ScanIsPrefix(log, q, from, limit, 0, Scan([], 0, from, true));
    ScanStopsBefore(log, q, from, limit, 0, Scan([], 0, from, true));
    HitsDoFit(log, q, from);
    PageFromScan(ReadPage(codec, log, q, after, limit).value, log, Hits(log, q, from, 0), from, limit, scan, |scan.events|);
  }

  // --- Following the cursor -----------------------------------------------

  /** A reader with a fixed owner and filter: where it began, where it is, what it got, what it was told. */
  datatype Reader = Reader(query: Query, start: nat, cursor: nat, delivered: seq<Event>, gap: bool)

  /** One page: a rejected read leaves the reader where it was. */
  function Turned(codec: Codec, log: Log, r: Reader, limit: nat): Reader {
    match ReadPage(codec, log, r.query, Some(Cursor(log.epoch, r.cursor)), limit)
    case Err(_) => r
    case Ok(page) =>
      r.(cursor := page.next.id, delivered := r.delivered + page.events, gap := r.gap || page.retentionGap)
  }

  ghost predicate Ascending(events: seq<Event>) {
    forall i, j | 0 <= i < j < |events| :: events[i].id < events[j].id
  }

  /** Everything recorded in the range for a watch that still exists was delivered. */
  ghost predicate Complete(log: Log, past: Past, r: Reader) {
    forall e | e in past.events && r.start < e.id <= r.cursor && Hit(log, r.query, e) :: e in r.delivered
  }

  /** Delivered exactly once, in order, only true events; complete unless a gap was reported. */
  ghost predicate Faithful(log: Log, past: Past, r: Reader) {
    && r.start <= r.cursor < log.nextId
    && Ascending(r.delivered)
    && (forall e | e in r.delivered ::
          e in past.events && r.start < e.id <= r.cursor && r.query.filter.Matches(e)
          && (e.watch in log.watches ==> Visible(log.watches[e.watch], r.query.owner)))
    && (!r.gap ==> Complete(log, past, r))
  }

  lemma FaithfulFollows(log: Log, past: Past, log': Log, past': Past, r: Reader)
    requires Faithful(log, past, r) && Good(log, past) && Follows(log, past, log', past')
    ensures Faithful(log', past', r)
  {
    forall e | e in past'.events && r.start < e.id <= r.cursor && Hit(log', r.query, e)
      ensures r.gap || e in r.delivered
    {
      assert e in past.events;
      assert e.watch in log.watches;
    }
  }

  /** Whatever the range holds for a selected watch is either retained or behind a reported gap. */
  lemma UnreportedIsRetained(log: Log, past: Past, q: Query, from: nat, e: Event)
    requires Good(log, past) && e in past.events && e.id > from && Hit(log, q, e)
    requires !exists w | w in Selected(log, q) :: log.watches[w].lastDroppedId > from
    ensures Retained(log.events, e)
  {
    assert e.watch in Selected(log, q);
  }

  ghost predicate Increasing(hits: seq<Entry>) {
    forall j, k | 0 <= j < k < |hits| :: hits[j].event.id < hits[k].event.id
  }

  /** The hits are recorded events that the query wants. */
  ghost predicate TrueHits(log: Log, past: Past, q: Query, from: nat, hits: seq<Entry>) {
    forall k | 0 <= k < |hits| :: hits[k].event in past.events && from < hits[k].event.id && Hit(log, q, hits[k].event)
  }

  /** Every retained entry that the query wants is a hit. */
  ghost predicate AllHits(log: Log, q: Query, from: nat, hits: seq<Entry>) {
    forall entry | entry in log.events && entry.event.id > from && Hit(log, q, entry.event) :: entry in hits
  }

  lemma HitsAreRight(log: Log, past: Past, q: Query, from: nat)
    requires Ordered(log.events, log.nextId) && forall entry | entry in log.events :: entry.event in past.events
    ensures Increasing(Hits(log, q, from, 0))
    ensures TrueHits(log, past, q, from, Hits(log, q, from, 0))
    ensures AllHits(log, q, from, Hits(log, q, from, 0))
  {
    var hits := Hits(log, q, from, 0);
    HitsBelong(log, q, from, 0);
    forall k | 0 <= k < |hits|
      ensures hits[k].event in past.events && from < hits[k].event.id && Hit(log, q, hits[k].event)
    {
      assert hits[k] in hits;
      assert hits[k] in log.events;
    }
  }

  /** What a page delivers, in terms of the hits. */
  ghost predicate Delivers(page: Page, log: Log, past: Past, q: Query, from: nat) {
    && Ascending(page.events)
    && from <= page.next.id < log.nextId
    && forall e | e in page.events :: e in past.events && from < e.id <= page.next.id && Hit(log, q, e)
  }

  lemma PrefixDelivers(page: Page, log: Log, past: Past, q: Query, hits: seq<Entry>, from: nat, limit: nat)
    requires PageOf(page, log, hits, from, limit, |page.events|)
    requires Increasing(hits) && HitsFit(log, hits, from) && TrueHits(log, past, q, from, hits)
    ensures Delivers(page, log, past, q, from)
  {
    var n := |page.events|;
    forall e | e in page.events ensures e in past.events && from < e.id <= page.next.id && Hit(log, q, e) {
      var k :| 0 <= k < n && page.events[k] == e;
      assert e == hits[k].event;
      if n < |hits| && k < n - 1 {
        assert hits[k].event.id < hits[n - 1].event.id;
      }
    }
  }

  /** What a page delivers is recorded, wanted, and in the range it covers. */
  lemma PageIsTrue(codec: Codec, log: Log, past: Past, q: Query, after: Option<Cursor>, limit: nat)
    requires Good(log, past) && ReadPage(codec, log, q, after, limit).Ok?
    ensures Delivers(ReadPage(codec, log, q, after, limit).value, log, past, q, AfterId(log, after))
  {
    var from := AfterId(log, after);
    PageMeaning(codec, log, q, after, limit);
    HitsAreRight(log, past, q, from);
    HitsDoFit(log, q, from);
    PrefixDelivers(ReadPage(codec, log, q, after, limit).value, log, past, q, Hits(log, q, from, 0), from, limit);
  }

  lemma NoGapMeansNoDrop(codec: Codec, log: Log, q: Query, after: Option<Cursor>, limit: nat)
    requires ReadPage(codec, log, q, after, limit).Ok? && !ReadPage(codec, log, q, after, limit).value.retentionGap
    ensures !exists w | w in Selected(log, q) :: log.watches[w].lastDroppedId > AfterId(log, after)
  {}

  lemma RetainedIsDelivered(page: Page, log: Log, q: Query, hits: seq<Entry>, from: nat, limit: nat, e: Event)
    requires PageOf(page, log, hits, from, limit, |page.events|) && Increasing(hits) && AllHits(log, q, from, hits)
    requires Retained(log.events, e) && from < e.id <= page.next.id && Hit(log, q, e)
    ensures e in page.events
  {
    var entry :| entry in log.events && entry.event == e;
    assert entry in hits;
    var i :| 0 <= i < |hits| && hits[i] == entry;
    assert page.events[i] == e;
  }

  /** Without a reported retention gap, a page delivers everything recorded in the range it covers. */
  lemma PageIsComplete(codec: Codec, log: Log, past: Past, q: Query, after: Option<Cursor>, limit: nat, e: Event)
    requires Good(log, past) && ReadPage(codec, log, q, after, limit).Ok?
    requires var page := ReadPage(codec, log, q, after, limit).value;
             !page.retentionGap && AfterId(log, after) < e.id <= page.next.id
    requires e in past.events && Hit(log, q, e)
    ensures e in ReadPage(codec, log, q, after, limit).value.events
  {
    var from := AfterId(log, after);
    PageMeaning(codec, log, q, after, limit);
    HitsAreRight(log, past, q, from);
    NoGapMeansNoDrop(codec, log, q, after, limit);
    UnreportedIsRetained(log, past, q, from, e);
    RetainedIsDelivered(ReadPage(codec, log, q, after, limit).value, log, q, Hits(log, q, from, 0), from, limit, e);
  }

  lemma TurnKeepsFaithful(codec: Codec, log: Log, past: Past, r: Reader, limit: nat)
    requires Good(log, past) && Faithful(log, past, r)
    ensures Faithful(log, past, Turned(codec, log, r, limit))
  {
    var after := Some(Cursor(log.epoch, r.cursor));
    if ReadPage(codec, log, r.query, after, limit).Ok? {
      var page := ReadPage(codec, log, r.query, after, limit).value;
      PageIsTrue(codec, log, past, r.query, after, limit);
      DeliveredAscending(r.delivered, page.events, r.cursor);
      var r' := Turned(codec, log, r, limit);
      forall e | e in past.events && r.start < e.id <= r'.cursor && Hit(log, r.query, e)
        ensures r'.gap || e in r'.delivered
      {
        if !r'.gap && e.id > r.cursor {
          PageIsComplete(codec, log, past, r.query, after, limit, e);
        }
      }
    }
  }

  lemma DeliveredAscending(a: seq<Event>, b: seq<Event>, cursor: nat)
    requires Ascending(a) && Ascending(b)
    requires (forall e | e in a :: e.id <= cursor) && (forall e | e in b :: cursor < e.id)
    ensures Ascending(a + b)
  {
    forall i, j | 0 <= i < j < |a + b|
      ensures (a + b)[i].id < (a + b)[j].id
    {
      if i < |a| <= j {
        assert (a + b)[i] in a && (a + b)[j] in b;
      }
    }
  }

  /** A page that is not the last one strictly advances; the last one reaches the end of the recording. */
  lemma TurnAdvances(codec: Codec, log: Log, past: Past, r: Reader, limit: nat)
    requires Good(log, past) && Faithful(log, past, r)
    requires ReadPage(codec, log, r.query, Some(Cursor(log.epoch, r.cursor)), limit).Ok?
    ensures var r' := Turned(codec, log, r, limit);
            r'.cursor == log.nextId - 1 || (r.cursor < r'.cursor && |r'.delivered| > |r.delivered|)
  {
    PageMeaning(codec, log, r.query, Some(Cursor(log.epoch, r.cursor)), limit);
  }

  /** A run of the store with one reader in it. */
  datatype Turn = Change(op: Op) | Look(limit: nat)

  ghost predicate TurnsEnabled(codec: Codec, log: Log, past: Past, turns: seq<Turn>)
    decreases |turns|
  {
    turns != [] ==>
      match turns[0]
      case Change(op) =>
        && Enabled(past, op)
        && TurnsEnabled(codec, Applied(codec, log, op), Remembered(codec, log, past, op), turns[1..])
      case Look(_) => TurnsEnabled(codec, log, past, turns[1..])
  }

  function Chain(codec: Codec, log: Log, past: Past, r: Reader, turns: seq<Turn>): (Log, Past, Reader)
    decreases |turns|
  {
    if turns == [] then (log, past, r)
    else
      match turns[0]
      case Change(op) => Chain(codec, Applied(codec, log, op), Remembered(codec, log, past, op), r, turns[1..])
      case Look(limit) => Chain(codec, log, past, Turned(codec, log, r, limit), turns[1..])
  }

  /**
   The reader theorem: over every interleaving of pages with appends, losses,
   evictions, failures and forgets, what a reader collected is every matching
   event recorded after its start for each watch that still exists, exactly once
   and in order, unless a page reported a retention gap.
   */
  lemma {:induction false} ReaderMissesNothing(codec: Codec, log: Log, past: Past, r: Reader, turns: seq<Turn>)
    requires codec.GapsFit() && Good(log, past) && Faithful(log, past, r) && TurnsEnabled(codec, log, past, turns)
    ensures var (log', past', r') := Chain(codec, log, past, r, turns);
            Good(log', past') && Faithful(log', past', r')
    decreases |turns|
  {
    if turns != [] {
      match turns[0]
      case Change(op) =>
        StepKeepsGood(codec, log, past, op);
        FaithfulFollows(log, past, Applied(codec, log, op), Remembered(codec, log, past, op), r);
        ReaderMissesNothing(codec, Applied(codec, log, op), Remembered(codec, log, past, op), r, turns[1..]);
      case Look(limit) =>
        TurnKeepsFaithful(codec, log, past, r, limit);
        ReaderMissesNothing(codec, log, past, Turned(codec, log, r, limit), turns[1..]);
    }
  }
}
