/**
 Background waits. A wait looks at the log one page at a time and ends
 Satisfied, Failed, Canceled or TimedOut. The theorem is that it never ends
 TimedOut when the answer is unknown or was missed.

 A wait's task holds its own copy of what it waits for; the record and the
 cancellation handle live in the store and may disappear under it.
 */
module ObservationWaits {
  import opened Wrappers
  import opened FiniteSets
  import opened ObservationLog
  import opened ObservationAccounting
  import opened ObservationHistory
  import opened ObservationRead

  datatype Outcome = Running | Satisfied | TimedOut | Canceled | Failed

  datatype WaitError =
    | Unreadable(error: ReadError)
    | EpochChanged
    | RecordingGap
    | RecordingStopped(watchError: Option<string>)
    | PersistenceLost(storeError: string)
    | HostRestarted

  /** What is waited for: fixed when the wait starts. */
  datatype Spec = Spec(owner: Uuid, lifetime: Lifetime, filter: EventFilter, start: Cursor, deadline: nat) {
    /** Events observed after the deadline do not count. */
    function Clipped(): EventFilter {
      filter.(until := Some(if filter.until.Some? && filter.until.value < deadline then filter.until.value else deadline))
    }

    function Query(): Query { ObservationRead.Query(owner, Clipped()) }
  }

  datatype Wait = Wait(spec: Spec, outcome: Outcome, event: Option<Event>, error: Option<WaitError>, cursor: Cursor)

  datatype Ending = Ending(outcome: Outcome, event: Option<Event>, error: Option<WaitError>, cursor: Option<Cursor>)

  datatype Move = Stay(cursor: Cursor) | End(ending: Ending)

  datatype Task = Task(spec: Spec, cursor: Cursor, pending: Option<Move>)

  datatype Waits = Waits(
    records: map<Uuid, Wait>, handles: set<Uuid>, signaled: set<Uuid>, tasks: map<Uuid, Task>, used: set<Uuid>,
    closed: set<Uuid>, swept: set<Uuid>)

  // --- One iteration ------------------------------------------------------

  /** The error reported for a watch that is no longer recording. */
  function StoppedError(log: Log, selected: set<Uuid>, named: Uuid): WaitError {
    RecordingStopped(if named in selected && named in log.watches then log.watches[named].error else None)
  }

  /** What the loop body decides from one look at the log. */
  function Judged(codec: Codec, log: Log, spec: Spec, cursor: Cursor, canceled: bool, late: bool): Move {
    if canceled then End(Ending(Canceled, None, None, Some(cursor)))
    else
      match ReadPage(codec, log, spec.Query(), Some(cursor), 1)
      case Err(error) => End(Ending(Outcome.Failed, None, Some(Unreadable(error)), Some(cursor)))
      case Ok(page) =>
        if page.restarted then End(Ending(Outcome.Failed, None, Some(EpochChanged), Some(page.next)))
        else if page.events != [] then
          End(Ending(Satisfied, Some(page.events[0]), None, Some(Cursor(page.events[0].epoch, page.events[0].id))))
        else if page.retentionGap || page.recordingGap then
          End(Ending(Outcome.Failed, None, Some(RecordingGap), Some(page.next)))
        else if spec.filter.watch.Some?
                && forall w | w in page.watches :: w in log.watches && !log.watches[w].status.Active() then
          End(Ending(Outcome.Failed, None, Some(StoppedError(log, page.watches, spec.filter.watch.value)), Some(page.next)))
        else if late then End(Ending(TimedOut, None, None, Some(page.next)))
        else Stay(page.next)
  }

  // --- What the store does to a record ------------------------------------

  /** Ending a wait: only a running record changes, and it loses its handle. */
  function Ended(ws: Waits, id: Uuid, ending: Ending): Waits {
    if id in ws.records && ws.records[id].outcome == Running then
      var record := ws.records[id];
      ws.(records := ws.records[id := Wait(
            record.spec, ending.outcome, ending.event, ending.error, if ending.cursor.Some? then ending.cursor.value else record.cursor)],
          handles := ws.handles - {id})
    else ws
  }

  function FailedWithStore(wait: Wait, error: string): Wait {
    if wait.spec.lifetime == Persistent && wait.outcome == Running then
      wait.(outcome := Outcome.Failed, error := Some(PersistenceLost(error)))
    else wait
  }

  /** After a failed checkpoint no persistent wait keeps running. */
  function StoreLost(ws: Waits, error: string): Waits {
    var gone := set id | id in ws.records && ws.records[id].spec.lifetime == Persistent && ws.records[id].outcome == Running;
    ws.(records := map id | id in ws.records :: FailedWithStore(ws.records[id], error),
        handles := ws.handles - gone, signaled := ws.signaled + (gone * ws.handles))
  }

  predicate OwnedBy(wait: Wait, owner: Uuid) {
    wait.spec.owner == owner && wait.spec.lifetime == Connection
  }

  /** The sweep of a closed connection: its waits are canceled and removed. */
  function Swept(ws: Waits, owner: Uuid): Waits {
    var gone := set id | id in ws.records && OwnedBy(ws.records[id], owner);
    ws.(records := ws.records - gone, handles := ws.handles - gone, signaled := ws.signaled + (gone * ws.handles),
        swept := ws.swept + {owner})
  }

  // --- The system ---------------------------------------------------------

  /** An epoch of the recording as it was when it ended. */
  datatype Age = Age(log: Log, past: Past)

  /** The running host, and the epochs of the hosts before it. */
  datatype System = System(log: Log, past: Past, waits: Waits, ages: map<Uuid, Age>)

  /**
   One atomic step. `Look` is a loop iteration up to its decision, `Settle` its
   effect on the store; everything else may happen in between. Canceling a wait
   is `CancelToken` and then `EndCanceled`; a host that shuts down cancels every
   token and ends nothing.
   */
  datatype Action =
    | Change(op: Op)
    | CheckpointLost(error: string)
    | Start(id: Uuid, spec: Spec)
    | Look(id: Uuid, canceled: bool, late: bool)
    | Settle(id: Uuid)
    | CancelToken(id: Uuid)
    | CancelTokens
    | EndCanceled(id: Uuid)
    | Forget(id: Uuid)
    | CloseToken(owner: Uuid)
    | Sweep(owner: Uuid)

  predicate Possible(s: System, a: Action) {
    match a
    case Change(op) => Enabled(s.past, op)
    case CheckpointLost(_) => true
    // The start cursor was checked by an earlier read, and identifiers are unique.
    case Start(id, spec) =>
      id !in s.waits.used && (spec.start.epoch == s.log.epoch ==> spec.start.id < s.log.nextId)
    case Look(id, canceled, _) =>
      && id in s.waits.tasks && s.waits.tasks[id].pending.None? && (canceled ==> id in s.waits.signaled)
    case Settle(id) => id in s.waits.tasks && s.waits.tasks[id].pending.Some?
    case CancelToken(_) => true
    case CancelTokens => true
    // Its own token comes first; a wait without one has already ended.
    case EndCanceled(id) =>
      id in s.waits.signaled || id !in s.waits.records || s.waits.records[id].outcome != Running
    case Forget(id) => id in s.waits.records && s.waits.records[id].outcome != Running
    case CloseToken(_) => true
    case Sweep(owner) => owner in s.waits.closed
  }

  /** Starting fails on an invalid filter, once the connection's token is canceled, or when the table is full. */
  predicate Admits(codec: Codec, ws: Waits, spec: Spec) {
    && spec.filter.Accepted(codec)
    && (spec.lifetime == Persistent || spec.owner !in ws.closed)
    && |ws.records| < MAX_RECORDS
  }

  function Started(codec: Codec, ws: Waits, id: Uuid, spec: Spec): Waits {
    if !Admits(codec, ws, spec) then ws
    else
      ws.(records := ws.records[id := Wait(spec, Running, None, None, spec.start)],
          handles := ws.handles + {id},
          tasks := ws.tasks[id := Task(spec, spec.start, None)],
          used := ws.used + {id})
  }

  function Settled(ws: Waits, id: Uuid): Waits
    requires id in ws.tasks && ws.tasks[id].pending.Some?
  {
    match ws.tasks[id].pending.value
    case Stay(cursor) => ws.(tasks := ws.tasks[id := ws.tasks[id].(cursor := cursor, pending := None)])
    case End(ending) => Ended(ws, id, ending).(tasks := ws.tasks - {id})
  }

  function Next(codec: Codec, s: System, a: Action): System
    requires Possible(s, a)
  {
    match a
    case Change(op) => s.(log := Applied(codec, s.log, op), past := Remembered(codec, s.log, s.past, op))
    case CheckpointLost(error) =>
      var op := CheckpointFailed(error);
      s.(log := Applied(codec, s.log, op), past := Remembered(codec, s.log, s.past, op), waits := StoreLost(s.waits, error))
    case Start(id, spec) => s.(waits := Started(codec, s.waits, id, spec))
    case Look(id, canceled, late) =>
      var task := s.waits.tasks[id];
      var move := Judged(codec, s.log, task.spec, task.cursor, canceled, late);
      s.(waits := s.waits.(tasks := s.waits.tasks[id := task.(pending := Some(move))]))
    case Settle(id) => s.(waits := Settled(s.waits, id))
    case CancelToken(id) => s.(waits := s.waits.(signaled := s.waits.signaled + ({id} * s.waits.handles)))
    case CancelTokens => s.(waits := s.waits.(signaled := s.waits.signaled + s.waits.handles))
    case EndCanceled(id) => s.(waits := Ended(s.waits, id, Ending(Canceled, None, None, None)))
    case Forget(id) => s.(waits := s.waits.(records := s.waits.records - {id}))
    case CloseToken(owner) => s.(waits := s.waits.(closed := s.waits.closed + {owner}))
    case Sweep(owner) => s.(waits := Swept(s.waits, owner))
  }

  // --- Nothing was missed -------------------------------------------------

  /** An event of the watch the wait names, or of one its owner still sees. */
  predicate Concerns(log: Log, spec: Spec, e: Event) {
    spec.filter.watch == Some(e.watch) || Sees(log, spec.owner, e.watch)
  }

  /**
   In the range looked at, no recorded event of concern matches, and none is a
   gap. Gaps of other watches are only ruled out for the sources waited on.
   */
  ghost predicate NothingMissed(log: Log, past: Past, spec: Spec, upto: nat) {
    forall e | e in past.events && spec.start.id < e.id <= upto && Concerns(log, spec, e) ::
      && !spec.Clipped().Matches(e)
      && (spec.filter.watch == Some(e.watch)
          || (spec.filter.watch.None? && (spec.filter.source.Some? ==> spec.filter.source.value == e.source))
          ==> e.kind != GAP)
  }

  ghost predicate Looked(log: Log, past: Past, spec: Spec, cursor: Cursor) {
    cursor.epoch == log.epoch ==>
      && spec.start.epoch == log.epoch && spec.start.id <= cursor.id < log.nextId
      && NothingMissed(log, past, spec, cursor.id)
  }

  /** A timeout in this epoch means that the condition did not occur while it was watched. */
  ghost predicate HonestTimeout(log: Log, past: Past, spec: Spec, cursor: Cursor) {
    && cursor.epoch == log.epoch && spec.start.epoch == log.epoch
    && spec.start.id <= cursor.id < log.nextId
    && NothingMissed(log, past, spec, cursor.id)
  }

  ghost predicate HonestSuccess(log: Log, past: Past, spec: Spec, event: Option<Event>) {
    && spec.start.epoch == log.epoch
    && event.Some? && event.value in past.events && spec.start.id < event.value.id
    && spec.Clipped().Matches(event.value)
    && (event.value.watch in log.watches ==> Visible(log.watches[event.value.watch], spec.owner))
  }

  ghost predicate HonestEnding(log: Log, past: Past, spec: Spec, outcome: Outcome, event: Option<Event>, cursor: Option<Cursor>) {
    && (outcome == TimedOut ==> cursor.Some? && HonestTimeout(log, past, spec, cursor.value))
    && (outcome == Satisfied ==> HonestSuccess(log, past, spec, event))
  }

  ghost predicate HonestTask(log: Log, past: Past, task: Task) {
    && Looked(log, past, task.spec, task.cursor)
    && (task.cursor.epoch != log.epoch ==> task.cursor == task.spec.start)
    && (task.pending.Some? ==>
          match task.pending.value
          case Stay(cursor) => cursor.epoch == log.epoch && Looked(log, past, task.spec, cursor)
          case End(ending) => HonestEnding(log, past, task.spec, ending.outcome, ending.event, ending.cursor))
  }

  /** The epoch a wait was started in, finished or current. */
  function AgeOf(log: Log, past: Past, ages: map<Uuid, Age>, spec: Spec): Age {
    if spec.start.epoch in ages then ages[spec.start.epoch] else Age(log, past)
  }

  /** A wait is judged by everything recorded in the epoch it was started in, also after that epoch ended. */
  ghost predicate HonestRecord(log: Log, past: Past, ages: map<Uuid, Age>, wait: Wait) {
    var age := AgeOf(log, past, ages, wait.spec);
    HonestEnding(age.log, age.past, wait.spec, wait.outcome, wait.event, Some(wait.cursor))
  }

  ghost predicate HonestRecords(log: Log, past: Past, ages: map<Uuid, Age>, records: map<Uuid, Wait>) {
    forall id | id in records :: HonestRecord(log, past, ages, records[id])
  }

  ghost predicate Honest(s: System) {
    && s.log.epoch !in s.ages
    && (forall id | id in s.waits.tasks :: HonestTask(s.log, s.past, s.waits.tasks[id]))
    && HonestRecords(s.log, s.past, s.ages, s.waits.records)
    && (forall id | id in s.waits.tasks && id in s.waits.records :: s.waits.tasks[id].spec == s.waits.records[id].spec)
  }

  /** A record runs exactly when it has a handle, and a swept connection owns none. */
  ghost predicate Tidy(ws: Waits) {
    && (forall id :: id in ws.handles <==> id in ws.records && ws.records[id].outcome == Running)
    && ws.records.Keys <= ws.used && ws.tasks.Keys <= ws.used
    && ws.swept <= ws.closed
    && (forall id | id in ws.tasks ::
          ws.tasks[id].pending.Some? && ws.tasks[id].pending.value.End? ==> ws.tasks[id].pending.value.ending.outcome != Running)
    && (forall id | id in ws.records :: ws.records[id].spec.lifetime == Connection ==> ws.records[id].spec.owner !in ws.swept)
  }

  /** A wait ends Canceled only if its token was canceled. */
  ghost predicate Asked(ws: Waits) {
    && (forall id | id in ws.records && ws.records[id].outcome == Canceled :: id in ws.signaled)
    && (forall id | id in ws.tasks :: AskedMove(ws, id, ws.tasks[id].pending))
  }

  ghost predicate AskedMove(ws: Waits, id: Uuid, pending: Option<Move>) {
    pending.Some? && pending.value.End? && pending.value.ending.outcome == Canceled ==> id in ws.signaled
  }

  ghost predicate Bounded(codec: Codec, records: map<Uuid, Wait>) {
    && |records| <= MAX_RECORDS
    && (forall id | id in records :: records[id].spec.filter.Accepted(codec))
  }

  ghost predicate Inv(codec: Codec, s: System) {
    Good(s.log, s.past) && Honest(s) && Tidy(s.waits) && Asked(s.waits) && Bounded(codec, s.waits.records)
  }

  // --- One look -----------------------------------------------------------

  /** An empty page without a gap report settles every event of concern up to its cursor. */
  lemma QuietPageIsProof(codec: Codec, log: Log, past: Past, spec: Spec, cursor: Cursor, e: Event)
    requires Good(log, past) && cursor.epoch == log.epoch && cursor.id < log.nextId
    requires var r := ReadPage(codec, log, spec.Query(), Some(cursor), 1);
             r.Ok? && r.value.events == [] && !r.value.retentionGap && !r.value.recordingGap
             && (spec.filter.watch.Some? ==> exists w :: w in r.value.watches)
    requires e in past.events && cursor.id < e.id && Concerns(log, spec, e)
    ensures !spec.Clipped().Matches(e)
    ensures spec.filter.watch == Some(e.watch)
            || (spec.filter.watch.None? && (spec.filter.source.Some? ==> spec.filter.source.value == e.source))
            ==> e.kind != GAP
  {
    var page := ReadPage(codec, log, spec.Query(), Some(cursor), 1).value;
    QuietPageReachesTheEnd(codec, log, spec, cursor);
    assert Sees(log, spec.owner, e.watch);
    if spec.Clipped().Matches(e) {
      PageIsComplete(codec, log, past, spec.Query(), Some(cursor), 1, e);
      assert false;
    }
    if spec.filter.watch == Some(e.watch)
       || (spec.filter.watch.None? && (spec.filter.source.Some? ==> spec.filter.source.value == e.source)) {
      assert e.watch in page.watches;
      assert log.watches[e.watch].lastGapId <= cursor.id;
    }
  }

  lemma QuietPageReachesTheEnd(codec: Codec, log: Log, spec: Spec, cursor: Cursor)
    requires Valid(log) && cursor.id < log.nextId
    requires var r := ReadPage(codec, log, spec.Query(), Some(cursor), 1); r.Ok? && r.value.events == []
    ensures var page := ReadPage(codec, log, spec.Query(), Some(cursor), 1).value;
            page.next == Cursor(log.epoch, log.nextId - 1) && AfterId(log, Some(cursor)) == cursor.id
  {
    PageMeaning(codec, log, spec.Query(), Some(cursor), 1);
  }

  /** A page with a match ends the wait with a recorded event of the range. */
  lemma MatchIsHonest(codec: Codec, log: Log, past: Past, spec: Spec, cursor: Cursor)
    requires Good(log, past) && Looked(log, past, spec, cursor)
    requires var r := ReadPage(codec, log, spec.Query(), Some(cursor), 1);
             r.Ok? && !r.value.restarted && r.value.events != []
    ensures HonestSuccess(log, past, spec, Some(ReadPage(codec, log, spec.Query(), Some(cursor), 1).value.events[0]))
  {
    var page := ReadPage(codec, log, spec.Query(), Some(cursor), 1).value;
    PageIsTrue(codec, log, past, spec.Query(), Some(cursor), 1);
    assert page.events[0] in page.events;
  }

  /** An empty page without a gap report extends what was looked at to its cursor. */
  lemma QuietIsHonest(codec: Codec, log: Log, past: Past, spec: Spec, cursor: Cursor)
    requires Good(log, past) && Looked(log, past, spec, cursor)
    requires var r := ReadPage(codec, log, spec.Query(), Some(cursor), 1);
             r.Ok? && !r.value.restarted && r.value.events == [] && !r.value.retentionGap && !r.value.recordingGap
             && (spec.filter.watch.Some? ==> exists w :: w in r.value.watches)
    ensures var next := ReadPage(codec, log, spec.Query(), Some(cursor), 1).value.next;
            HonestTimeout(log, past, spec, next) && Looked(log, past, spec, next)
  {
    var page := ReadPage(codec, log, spec.Query(), Some(cursor), 1).value;
    QuietPageReachesTheEnd(codec, log, spec, cursor);
    forall e | e in past.events && spec.start.id < e.id <= page.next.id && Concerns(log, spec, e)
      ensures && !spec.Clipped().Matches(e)
              && (spec.filter.watch == Some(e.watch)
                  || (spec.filter.watch.None? && (spec.filter.source.Some? ==> spec.filter.source.value == e.source))
                  ==> e.kind != GAP)
    {
      if e.id > cursor.id {
        QuietPageIsProof(codec, log, past, spec, cursor, e);
      }
    }
  }

  lemma LookIsHonest(codec: Codec, log: Log, past: Past, task: Task, canceled: bool, late: bool)
    requires Good(log, past) && HonestTask(log, past, task) && task.pending.None?
    ensures HonestTask(log, past, task.(pending := Some(Judged(codec, log, task.spec, task.cursor, canceled, late))))
  {
    var spec, cursor := task.spec, task.cursor;
    var r := ReadPage(codec, log, spec.Query(), Some(cursor), 1);
    if !canceled && r.Ok? && !r.value.restarted {
      var page := r.value;
      if page.events != [] {
        MatchIsHonest(codec, log, past, spec, cursor);
      } else if !page.retentionGap && !page.recordingGap && (spec.filter.watch.Some? ==> exists w :: w in page.watches) {
        QuietIsHonest(codec, log, past, spec, cursor);
      }
    }
  }

  /** A match that was recorded but is no longer there makes the wait fail; it can neither go on nor time out. */
  lemma LostMatchFails(codec: Codec, log: Log, past: Past, spec: Spec, cursor: Cursor, late: bool, e: Event)
    requires Good(log, past) && cursor.epoch == log.epoch
    requires e in past.events && cursor.id < e.id && Hit(log, spec.Query(), e)
    requires forall entry | entry in log.events && entry.event.id > cursor.id :: !Hit(log, spec.Query(), entry.event)
    ensures var move := Judged(codec, log, spec, cursor, false, late);
            move.End? && move.ending.outcome == Outcome.Failed
  {
    var r := ReadPage(codec, log, spec.Query(), Some(cursor), 1);
    if r.Ok? && cursor.id < log.nextId {
      PageMeaning(codec, log, spec.Query(), Some(cursor), 1);
      HitsBelong(log, spec.Query(), cursor.id, 0);
      if !r.value.retentionGap {
        PageIsComplete(codec, log, past, spec.Query(), Some(cursor), 1, e);
        assert false;
      }
    }
  }

  // --- Every step ---------------------------------------------------------

  lemma NothingMissedFollows(log: Log, past: Past, log': Log, past': Past, spec: Spec, upto: nat)
    requires Good(log, past) && Follows(log, past, log', past')
    requires upto < log.nextId && NothingMissed(log, past, spec, upto)
    ensures NothingMissed(log', past', spec, upto)
  {
    forall e | e in past'.events && spec.start.id < e.id <= upto && Concerns(log', spec, e)
      ensures e in past.events && Concerns(log, spec, e)
    {}
  }

  lemma EndingFollows(
    log: Log, past: Past, log': Log, past': Past, spec: Spec, outcome: Outcome, event: Option<Event>, cursor: Option<Cursor>)
    requires Good(log, past) && Follows(log, past, log', past')
    requires HonestEnding(log, past, spec, outcome, event, cursor)
    ensures HonestEnding(log', past', spec, outcome, event, cursor)
  {
    if outcome == TimedOut {
      NothingMissedFollows(log, past, log', past', spec, cursor.value.id);
    }
  }

  lemma LookedFollows(log: Log, past: Past, log': Log, past': Past, spec: Spec, cursor: Cursor)
    requires Good(log, past) && Follows(log, past, log', past') && Looked(log, past, spec, cursor)
    ensures Looked(log', past', spec, cursor)
  {
    if cursor.epoch == log.epoch {
      NothingMissedFollows(log, past, log', past', spec, cursor.id);
    }
  }

  lemma TaskFollows(log: Log, past: Past, log': Log, past': Past, task: Task)
    requires Good(log, past) && Follows(log, past, log', past') && HonestTask(log, past, task)
    ensures HonestTask(log', past', task)
  {
    LookedFollows(log, past, log', past', task.spec, task.cursor);
    match task.pending
    case None =>
    case Some(Stay(cursor)) => LookedFollows(log, past, log', past', task.spec, cursor);
    case Some(End(ending)) =>
      EndingFollows(log, past, log', past', task.spec, ending.outcome, ending.event, ending.cursor);
  }

  lemma RecordFollows(log: Log, past: Past, log': Log, past': Past, ages: map<Uuid, Age>, wait: Wait)
    requires Good(log, past) && Follows(log, past, log', past') && HonestRecord(log, past, ages, wait)
    ensures HonestRecord(log', past', ages, wait)
  {
    if wait.spec.start.epoch !in ages {
      EndingFollows(log, past, log', past', wait.spec, wait.outcome, wait.event, Some(wait.cursor));
    }
  }

  lemma RecordsFollow(log: Log, past: Past, log': Log, past': Past, ages: map<Uuid, Age>, records: map<Uuid, Wait>)
    requires Good(log, past) && Follows(log, past, log', past') && HonestRecords(log, past, ages, records)
    ensures HonestRecords(log', past', ages, records)
  {
    forall id | id in records ensures HonestRecord(log', past', ages, records[id]) {
      RecordFollows(log, past, log', past', ages, records[id]);
    }
  }

  lemma ChangeKeepsHonest(codec: Codec, s: System, op: Op)
    requires codec.GapsFit() && Inv(codec, s) && Enabled(s.past, op)
    ensures var s' := s.(log := Applied(codec, s.log, op), past := Remembered(codec, s.log, s.past, op));
            Good(s'.log, s'.past) && Honest(s')
  {
    var log', past' := Applied(codec, s.log, op), Remembered(codec, s.log, s.past, op);
    StepKeepsGood(codec, s.log, s.past, op);
    forall id | id in s.waits.tasks
      ensures HonestTask(log', past', s.waits.tasks[id])
    {
      TaskFollows(s.log, s.past, log', past', s.waits.tasks[id]);
    }
    RecordsFollow(s.log, s.past, log', past', s.ages, s.waits.records);
  }

  lemma StartIsHonest(s: System, id: Uuid, spec: Spec)
    requires Possible(s, Start(id, spec))
    ensures HonestTask(s.log, s.past, Task(spec, spec.start, None))
  {}

  lemma StepKeepsTidy(codec: Codec, s: System, a: Action)
    requires Tidy(s.waits) && Possible(s, a)
    ensures Tidy(Next(codec, s, a).waits)
  {
    if a.Start? || a.Settle? || a.EndCanceled? {
      RecordStepIsTidy(codec, s, a);
    } else if a.CheckpointLost? || a.Sweep? || a.Forget? {
      RemovalIsTidy(codec, s, a);
    }
  }

  lemma RecordStepIsTidy(codec: Codec, s: System, a: Action)
    requires Tidy(s.waits) && Possible(s, a) && (a.Start? || a.Settle? || a.EndCanceled?)
    ensures Tidy(Next(codec, s, a).waits)
  {}

  lemma RemovalIsTidy(codec: Codec, s: System, a: Action)
    requires Tidy(s.waits) && Possible(s, a) && (a.CheckpointLost? || a.Sweep? || a.Forget?)
    ensures Tidy(Next(codec, s, a).waits)
  {}

  lemma StepKeepsAsked(codec: Codec, s: System, a: Action)
    requires Asked(s.waits) && Possible(s, a)
    ensures Asked(Next(codec, s, a).waits) && s.waits.signaled <= Next(codec, s, a).waits.signaled
  {}

  lemma OtherRecordsStay(codec: Codec, s: System, a: Action)
    requires Possible(s, a) && (a.Change? || a.Look? || a.CloseToken? || a.CancelToken? || a.CancelTokens?)
    ensures Next(codec, s, a).waits.records == s.waits.records
  {}

  lemma StartStaysBounded(codec: Codec, ws: Waits, id: Uuid, spec: Spec)
    requires Bounded(codec, ws.records)
    ensures Bounded(codec, Started(codec, ws, id, spec).records)
  {}

  lemma EndStaysBounded(codec: Codec, ws: Waits, id: Uuid, ending: Ending)
    requires Bounded(codec, ws.records)
    ensures Bounded(codec, Ended(ws, id, ending).records)
  {
    assert Ended(ws, id, ending).records.Keys == ws.records.Keys;
  }

  lemma SettleStaysBounded(codec: Codec, ws: Waits, id: Uuid)
    requires Bounded(codec, ws.records) && id in ws.tasks && ws.tasks[id].pending.Some?
    ensures Bounded(codec, Settled(ws, id).records)
  {
    if ws.tasks[id].pending.value.End? {
      EndStaysBounded(codec, ws, id, ws.tasks[id].pending.value.ending);
    }
  }

  lemma LostStaysBounded(codec: Codec, ws: Waits, error: string)
    requires Bounded(codec, ws.records)
    ensures Bounded(codec, StoreLost(ws, error).records)
  {
    assert StoreLost(ws, error).records.Keys == ws.records.Keys;
  }

  lemma FewerStayBounded(codec: Codec, records: map<Uuid, Wait>, gone: set<Uuid>)
    requires Bounded(codec, records)
    ensures Bounded(codec, records - gone)
  {
    FewerKeys(records, gone);
  }

  lemma StepKeepsBounded(codec: Codec, s: System, a: Action)
    requires Bounded(codec, s.waits.records) && Possible(s, a)
    ensures Bounded(codec, Next(codec, s, a).waits.records)
  {
    var ws := s.waits;
    if a.Change? || a.Look? || a.CloseToken? || a.CancelToken? || a.CancelTokens? {
      OtherRecordsStay(codec, s, a);
    } else if a.CheckpointLost? {
      LostStaysBounded(codec, ws, a.error);
    } else if a.Start? {
      StartStaysBounded(codec, ws, a.id, a.spec);
    } else if a.Settle? {
      SettleStaysBounded(codec, ws, a.id);
    } else if a.EndCanceled? {
      EndStaysBounded(codec, ws, a.id, Ending(Canceled, None, None, None));
    } else if a.Forget? {
      FewerStayBounded(codec, ws.records, {a.id});
    } else {
      FewerStayBounded(codec, ws.records, set id | id in ws.records && OwnedBy(ws.records[id], a.owner));
    }
  }

  /** Removing records, or touching only bookkeeping, keeps everyone honest. */
  lemma FewerStaysHonest(s: System, ws: Waits)
    requires Honest(s) && ws.tasks == s.waits.tasks
    requires forall id | id in ws.records :: id in s.waits.records && ws.records[id] == s.waits.records[id]
    ensures Honest(s.(waits := ws))
  {}

  /** What is honest now about a wait that ends is honest about the epoch it was started in. */
  lemma EndingIsHonestThen(
    log: Log, past: Past, ages: map<Uuid, Age>, spec: Spec, outcome: Outcome, event: Option<Event>, cursor: Option<Cursor>)
    requires log.epoch !in ages && HonestEnding(log, past, spec, outcome, event, cursor)
    ensures var age := AgeOf(log, past, ages, spec); HonestEnding(age.log, age.past, spec, outcome, event, cursor)
  {}

  lemma EndedStaysHonest(s: System, id: Uuid, ending: Ending)
    requires Honest(s) && ending.outcome != Running
    requires id in s.waits.records ==>
               HonestEnding(s.log, s.past, s.waits.records[id].spec, ending.outcome, ending.event, ending.cursor)
    ensures Honest(s.(waits := Ended(s.waits, id, ending)))
  {
    var ws := Ended(s.waits, id, ending);
    forall other | other in ws.records
      ensures HonestRecord(s.log, s.past, s.ages, ws.records[other])
    {
      var before := s.waits.records[other];
      assert HonestRecord(s.log, s.past, s.ages, before);
      if ws.records[other] != before {
        EndingIsHonestThen(s.log, s.past, s.ages, before.spec, ending.outcome, ending.event, ending.cursor);
      }
    }
  }

  lemma SettleKeepsHonest(s: System, id: Uuid)
    requires Honest(s) && Tidy(s.waits) && Possible(s, Settle(id))
    ensures Honest(s.(waits := Settled(s.waits, id)))
  {
    var task := s.waits.tasks[id];
    assert HonestTask(s.log, s.past, task);
    match task.pending.value
    case Stay(_) =>
    case End(ending) => EndedStaysHonest(s, id, ending);
  }

  lemma WaitStepKeepsHonest(codec: Codec, s: System, a: Action)
    requires Honest(s) && Tidy(s.waits) && Possible(s, a)
    requires !a.Change? && !a.CheckpointLost? && !a.Look? && !a.Start?
    ensures Honest(Next(codec, s, a))
  {
    if a.Settle? {
      SettleKeepsHonest(s, a.id);
    } else if a.EndCanceled? {
      EndedStaysHonest(s, a.id, Ending(Canceled, None, None, None));
    } else {
      FewerStaysHonest(s, Next(codec, s, a).waits);
    }
  }

  lemma StartKeepsHonest(codec: Codec, s: System, id: Uuid, spec: Spec)
    requires Honest(s) && Tidy(s.waits) && Possible(s, Start(id, spec))
    ensures Honest(Next(codec, s, Start(id, spec)))
  {
    StartIsHonest(s, id, spec);
  }

  lemma StoreLostIsHonest(s: System, error: string)
    requires Honest(s)
    ensures Honest(s.(waits := StoreLost(s.waits, error)))
  {
    forall id | id in s.waits.records
      ensures HonestRecord(s.log, s.past, s.ages, FailedWithStore(s.waits.records[id], error))
    {
      assert HonestRecord(s.log, s.past, s.ages, s.waits.records[id]);
    }
  }

  lemma LookKeepsHonest(codec: Codec, s: System, id: Uuid, canceled: bool, late: bool)
    requires Good(s.log, s.past) && Honest(s) && Possible(s, Action.Look(id, canceled, late))
    ensures Honest(Next(codec, s, Action.Look(id, canceled, late)))
  {
    LookIsHonest(codec, s.log, s.past, s.waits.tasks[id], canceled, late);
  }

  lemma StepKeepsInv(codec: Codec, s: System, a: Action)
    requires codec.GapsFit() && Inv(codec, s) && Possible(s, a)
    ensures Inv(codec, Next(codec, s, a))
  {
    StepKeepsTidy(codec, s, a);
    StepKeepsAsked(codec, s, a);
    StepKeepsBounded(codec, s, a);
    match a
    case Change(op) => ChangeKeepsHonest(codec, s, op);
    case CheckpointLost(error) =>
      ChangeKeepsHonest(codec, s, CheckpointFailed(error));
      var op := CheckpointFailed(error);
      StoreLostIsHonest(s.(log := Applied(codec, s.log, op), past := Remembered(codec, s.log, s.past, op)), error);
    case Start(id, spec) => StartKeepsHonest(codec, s, id, spec);
    case Look(id, canceled, late) => LookKeepsHonest(codec, s, id, canceled, late);
    case _ => WaitStepKeepsHonest(codec, s, a);
  }

  /** A terminal outcome never changes; it can only be forgotten. */
  lemma TerminalIsAbsorbing(codec: Codec, s: System, a: Action, id: Uuid)
    requires Possible(s, a) && Tidy(s.waits) && id in s.waits.records && s.waits.records[id].outcome != Running
    ensures var records := Next(codec, s, a).waits.records;
            id in records ==> records[id] == s.waits.records[id]
  {}

  const NO_WAITS: Waits := Waits(map[], {}, {}, map[], {}, {}, {})

  lemma FreshSystem(codec: Codec, epoch: Uuid)
    ensures Inv(codec, System(Fresh(epoch), Past({}, {}), NO_WAITS, map[]))
  {
    FreshIsGood(epoch);
  }
}
