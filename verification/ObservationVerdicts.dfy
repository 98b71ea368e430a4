/**
 What one look of a wait decides, for every state of the log, told by the log
 itself: a match satisfies it, a gap or a stopped watch fails it, a deadline
 ends it, and otherwise it goes on. The verdict is what its record then shows.
 */
module ObservationVerdicts {
  import opened Wrappers
  import opened ObservationLog
  import opened ObservationAccounting
  import opened ObservationRead
  import opened ObservationFilter
  import opened ObservationWaits

  /** What the wait is for: visible, as the filter says, and in time. */
  predicate Awaited(log: Log, spec: Spec, e: Event) {
    MaySee(log, spec.owner, e.watch) && Agrees(spec.filter, e) && e.observedAt <= spec.deadline
  }

  predicate AwaitedAfter(log: Log, spec: Spec, from: nat, entry: Entry) {
    entry in log.events && entry.event.id > from && Awaited(log, spec, entry.event)
  }

  predicate Matched(log: Log, spec: Spec, from: nat) {
    exists entry | entry in log.events :: AwaitedAfter(log, spec, from, entry)
  }

  predicate FirstMatch(log: Log, spec: Spec, from: nat, entry: Entry) {
    && AwaitedAfter(log, spec, from, entry)
    && forall other | other in log.events && AwaitedAfter(log, spec, from, other) :: entry.event.id <= other.event.id
  }

  /** One of the watches looked at. */
  predicate Watched(log: Log, spec: Spec, w: Uuid) { SpeaksFor(log, ObservationRead.Query(spec.owner, spec.filter), w) }

  ghost predicate Gapped(log: Log, spec: Spec, from: nat) {
    exists w :: Watched(log, spec, w) && (log.watches[w].lastDroppedId > from || log.watches[w].lastGapId > from)
  }

  /** The watch that the wait names is no longer active. */
  ghost predicate Over(log: Log, spec: Spec) {
    spec.filter.watch.Some? && forall w | w in log.watches && Watched(log, spec, w) :: !log.watches[w].status.Active()
  }

  /** The look can be answered at all. */
  predicate Answerable(codec: Codec, log: Log, spec: Spec, cursor: Cursor) {
    && (spec.filter.process.Some? ==> spec.filter.process.value.created.Some?)
    && (spec.filter.since.Some? ==>
          && spec.filter.since.value <= spec.deadline
          && (spec.filter.until.Some? ==> spec.filter.since.value <= spec.filter.until.value))
    && codec.filter(spec.Clipped()) <= 16384
    && (spec.filter.watch.Some? ==> MaySee(log, spec.owner, spec.filter.watch.value))
    && (cursor.id < log.nextId || cursor.epoch != log.epoch)
  }

  /** The verdicts, in the order in which they are considered. */
  datatype Verdict = Withdrawn | Unanswered | NewEpoch | Match | Gap | Ceased | Late | GoOn

  ghost function Decided(codec: Codec, log: Log, spec: Spec, cursor: Cursor, canceled: bool, late: bool): Verdict {
    if canceled then Withdrawn
    else if !Answerable(codec, log, spec, cursor) then Unanswered
    else if cursor.epoch != log.epoch then NewEpoch
    else if Matched(log, spec, cursor.id) then Match
    else if Gapped(log, spec, cursor.id) then Gap
    else if Over(log, spec) then Ceased
    else if late then Late
    else GoOn
  }

  // --- One look -----------------------------------------------------------------

  lemma ClippedAgrees(spec: Spec, e: Event)
    ensures Agrees(spec.Clipped(), e) <==> Agrees(spec.filter, e) && e.observedAt <= spec.deadline
  {
    assert HasAll(e.payload, spec.Clipped().payloadEquals) <==> HasAll(e.payload, spec.filter.payloadEquals);
  }

  lemma LookIsAnswered(codec: Codec, log: Log, spec: Spec, cursor: Cursor)
    ensures ReadPage(codec, log, spec.Query(), Some(cursor), 1).Ok? <==> Answerable(codec, log, spec, cursor)
  {
    AnsweredExactly(codec, log, spec.Query(), Some(cursor), 1);
  }

  lemma AwaitedIsAHit(log: Log, spec: Spec, e: Event)
    ensures Hit(log, spec.Query(), e) <==> Awaited(log, spec, e)
  {
    WantedMeansAgrees(log, spec.Query(), e);
    ClippedAgrees(spec, e);
  }

  /** The hits of a look are the matches, the first of them first. */
  lemma HitsAreMatches(log: Log, spec: Spec, from: nat)
    requires Ordered(log.events, log.nextId)
    ensures Hits(log, spec.Query(), from, 0) == [] <==> !Matched(log, spec, from)
    ensures Hits(log, spec.Query(), from, 0) != [] ==> FirstMatch(log, spec, from, Hits(log, spec.Query(), from, 0)[0])
  {
    var hits := Hits(log, spec.Query(), from, 0);
    HitsBelong(log, spec.Query(), from, 0);
    forall entry | entry in log.events ensures entry in hits <==> AwaitedAfter(log, spec, from, entry) {
      AwaitedIsAHit(log, spec, entry.event);
    }
    if hits != [] {
      assert hits[0] in hits;
      forall other | other in log.events && AwaitedAfter(log, spec, from, other)
        ensures hits[0].event.id <= other.event.id
      {
        assert other in hits;
      }
    }
  }

  /** The one event of the page is the first match. */
  lemma PageShowsTheMatch(codec: Codec, log: Log, spec: Spec, cursor: Cursor)
    requires Valid(log) && cursor.epoch == log.epoch && Answerable(codec, log, spec, cursor)
    ensures var r := ReadPage(codec, log, spec.Query(), Some(cursor), 1);
            && r.Ok? && !r.value.restarted
            && (Matched(log, spec, cursor.id) ==>
                  var hits := Hits(log, spec.Query(), cursor.id, 0);
                  hits != [] && r.value.events == [hits[0].event] && FirstMatch(log, spec, cursor.id, hits[0]))
            && (!Matched(log, spec, cursor.id) ==> r.value.events == [] && r.value.next == Cursor(log.epoch, log.nextId - 1))
  {
    LookIsAnswered(codec, log, spec, cursor);
    PageMeaning(codec, log, spec.Query(), Some(cursor), 1);
    HitsAreMatches(log, spec, cursor.id);
  }

  lemma FlagsShowTheRest(codec: Codec, log: Log, spec: Spec, cursor: Cursor)
    requires cursor.epoch == log.epoch && Answerable(codec, log, spec, cursor)
    ensures var r := ReadPage(codec, log, spec.Query(), Some(cursor), 1);
            && r.Ok?
            && (r.value.retentionGap || r.value.recordingGap <==> Gapped(log, spec, cursor.id))
            && (spec.filter.watch.Some? && (forall w | w in r.value.watches :: w in log.watches && !log.watches[w].status.Active())
                <==> Over(log, spec))
  {
    LookIsAnswered(codec, log, spec, cursor);
    FlagsAreExact(codec, log, spec.Query(), Some(cursor), 1);
    forall w ensures SpeaksFor(log, spec.Query(), w) <==> Watched(log, spec, w) {}
  }

  /** What each verdict makes of the wait. */
  ghost predicate Makes(codec: Codec, log: Log, spec: Spec, cursor: Cursor, verdict: Verdict, move: Move)
    requires log.nextId >= 1
  {
    match verdict
    case Withdrawn => move == End(Ending(Canceled, None, None, Some(cursor)))
    case Unanswered =>
      move.End? && move.ending.outcome == Outcome.Failed && move.ending.event.None? && move.ending.error.Some?
      && move.ending.error.value.Unreadable? && move.ending.cursor == Some(cursor)
    case NewEpoch =>
      && move.End? && move.ending.outcome == Outcome.Failed && move.ending.event.None?
      && move.ending.error == Some(EpochChanged)
    case Match =>
      exists entry | entry in log.events ::
        && FirstMatch(log, spec, cursor.id, entry)
        && move == End(Ending(Satisfied, Some(entry.event), None, Some(Cursor(entry.event.epoch, entry.event.id))))
    case Gap => move == End(Ending(Outcome.Failed, None, Some(RecordingGap), Some(Cursor(log.epoch, log.nextId - 1))))
    case Ceased =>
      && move.End? && move.ending.outcome == Outcome.Failed && move.ending.event.None?
      && spec.filter.watch.Some?
      && move.ending.error == Some(RecordingStopped(
           if Watched(log, spec, spec.filter.watch.value) then log.watches[spec.filter.watch.value].error else None))
      && move.ending.cursor == Some(Cursor(log.epoch, log.nextId - 1))
    case Late => move == End(Ending(TimedOut, None, None, Some(Cursor(log.epoch, log.nextId - 1))))
    case GoOn => move == Stay(Cursor(log.epoch, log.nextId - 1))
  }

  /**
   The verdict theorem: in every good log a look decides exactly this. In
   particular a match that is retained always satisfies the wait, with the first
   such event, and only a look without match, gap or stopped watch can time out.
   */
  lemma LookIsRight(codec: Codec, log: Log, spec: Spec, cursor: Cursor, canceled: bool, late: bool)
    requires Valid(log)
    ensures Makes(codec, log, spec, cursor, Decided(codec, log, spec, cursor, canceled, late),
                    Judged(codec, log, spec, cursor, canceled, late))
  {
    LookIsAnswered(codec, log, spec, cursor);
    if !canceled && Answerable(codec, log, spec, cursor) {
      if cursor.epoch != log.epoch {
        FlagsAreExact(codec, log, spec.Query(), Some(cursor), 1);
      } else {
        PageShowsTheMatch(codec, log, spec, cursor);
        FlagsShowTheRest(codec, log, spec, cursor);
      }
    }
  }

  // --- What the record shows ------------------------------------------------------

  /** The verdict of a task that has decided to end is what a running record shows when it settles. */
  lemma VerdictIsRecorded(codec: Codec, s: System, id: Uuid)
    requires Possible(s, Settle(id)) && s.waits.tasks[id].pending.value.End?
    requires id in s.waits.records && s.waits.records[id].outcome == Running
    ensures var ending, s' := s.waits.tasks[id].pending.value.ending, Next(codec, s, Settle(id));
            && id in s'.waits.records && id !in s'.waits.tasks && id !in s'.waits.handles
            && var was, now := s.waits.records[id], s'.waits.records[id];
               && now.spec == was.spec && now.outcome == ending.outcome && now.event == ending.event && now.error == ending.error
               && now.cursor == if ending.cursor.Some? then ending.cursor.value else was.cursor
  {}

  /** Until it settles, no step of anyone else changes what a task has decided. */
  lemma DecisionStands(codec: Codec, s: System, a: Action, id: Uuid)
    requires Possible(s, a) && a != Settle(id) && id in s.waits.tasks && s.waits.tasks[id].pending.Some?
    requires s.waits.tasks.Keys <= s.waits.used
    ensures id in Next(codec, s, a).waits.tasks && Next(codec, s, a).waits.tasks[id] == s.waits.tasks[id]
  {}

  /**
   A wait that looks while a match is retained ends Satisfied with the first one,
   in its record, unless somebody ends or removes the record before it settles.
   */
  lemma MatchSatisfies(codec: Codec, s: System, id: Uuid, late: bool)
    requires Valid(s.log) && Possible(s, Action.Look(id, false, late))
    requires id in s.waits.records && s.waits.records[id].outcome == Running
    requires var task := s.waits.tasks[id];
             && Answerable(codec, s.log, task.spec, task.cursor) && task.cursor.epoch == s.log.epoch
             && Matched(s.log, task.spec, task.cursor.id)
    ensures var records := LookedAndSettled(codec, s, id, late).waits.records;
            id in records && Satisfies(s.log, s.waits.tasks[id].spec, s.waits.tasks[id].cursor.id, records[id])
  {
    var task := s.waits.tasks[id];
    LookIsRight(codec, s.log, task.spec, task.cursor, false, late);
    LookIsPending(codec, s, id, false, late);
    VerdictIsRecorded(codec, Pondering(codec, s, id, false, late), id);
  }

  /** The record of a wait that its first match has satisfied. */
  ghost predicate Satisfies(log: Log, spec: Spec, from: nat, record: Wait) {
    exists entry | entry in log.events ::
      && FirstMatch(log, spec, from, entry)
      && record.outcome == Satisfied && record.event == Some(entry.event) && record.error.None?
      && record.cursor == Cursor(entry.event.epoch, entry.event.id)
  }

  /** The state between a look and its effect. */
  function Pondering(codec: Codec, s: System, id: Uuid, canceled: bool, late: bool): (s': System)
    requires Possible(s, Action.Look(id, canceled, late))
    ensures Possible(s', Settle(id))
  {
    Next(codec, s, Action.Look(id, canceled, late))
  }

  function LookedAndSettled(codec: Codec, s: System, id: Uuid, late: bool): System
    requires Possible(s, Action.Look(id, false, late))
  {
    Next(codec, Pondering(codec, s, id, false, late), Settle(id))
  }

  lemma LookIsPending(codec: Codec, s: System, id: Uuid, canceled: bool, late: bool)
    requires Possible(s, Action.Look(id, canceled, late))
    ensures var task, looked := s.waits.tasks[id], Pondering(codec, s, id, canceled, late);
            && looked.waits.records == s.waits.records && id in looked.waits.tasks
            && looked.waits.tasks[id] == task.(pending := Some(Judged(codec, s.log, task.spec, task.cursor, canceled, late)))
  {}

  /** A look that goes on leaves the record running and the task behind everything it has seen. */
  lemma GoingOnAdvances(codec: Codec, s: System, id: Uuid, late: bool)
    requires Valid(s.log) && Possible(s, Action.Look(id, false, late)) && id in s.waits.records
    requires var task := s.waits.tasks[id]; Decided(codec, s.log, task.spec, task.cursor, false, late) == GoOn
    ensures var after := LookedAndSettled(codec, s, id, late).waits;
            && after.records == s.waits.records && id in after.tasks
            && after.tasks[id] == s.waits.tasks[id].(cursor := Cursor(s.log.epoch, s.log.nextId - 1))
  {
    var task := s.waits.tasks[id];
    LookIsRight(codec, s.log, task.spec, task.cursor, false, late);
    LookIsPending(codec, s, id, false, late);
  }

  /** With room for it, an open connection's wait starts: a running record, a token and a task at its start. */
  lemma WaitStarts(codec: Codec, s: System, id: Uuid, spec: Spec)
    requires Possible(s, Start(id, spec)) && |s.waits.records| < 128
    requires spec.filter.process.Some? ==> spec.filter.process.value.created.Some?
    requires spec.filter.since.Some? && spec.filter.until.Some? ==> spec.filter.since.value <= spec.filter.until.value
    requires codec.filter(spec.filter) <= 16384 && (spec.lifetime == Persistent || spec.owner !in s.waits.closed)
    ensures var ws := Next(codec, s, Start(id, spec)).waits;
            && id in ws.records && ws.records[id] == Wait(spec, Running, None, None, spec.start)
            && id in ws.handles && id in ws.tasks && ws.tasks[id] == Task(spec, spec.start, None)
  {}

  // --- Ends that come from outside --------------------------------------------------

  /** Asking a wait to stop: its token is canceled, and only its own. */
  lemma CancelIsNoted(codec: Codec, s: System, id: Uuid)
    ensures var ws := Next(codec, s, CancelToken(id)).waits;
            && ws.records == s.waits.records && ws.tasks == s.waits.tasks
            && (forall other :: other in ws.signaled <==> other in s.waits.signaled || (other == id && id in s.waits.handles))
  {}

  /** A canceled wait that still runs ends as canceled, where it stood; one that has ended keeps its outcome. */
  lemma CancelIsRecorded(codec: Codec, s: System, id: Uuid)
    requires Possible(s, EndCanceled(id)) && id in s.waits.records
    ensures var ws, was := Next(codec, s, EndCanceled(id)).waits, s.waits.records[id];
            && id in ws.records && ws.records - {id} == s.waits.records - {id}
            && ws.records[id] == (if was.outcome == Running then Wait(was.spec, Canceled, None, None, was.cursor) else was)
            && (was.outcome == Running ==> id !in ws.handles)
  {}

  /** The host going down asks every running wait to stop, and ends none by itself. */
  lemma ShutdownAsksAll(codec: Codec, s: System)
    ensures var ws := Next(codec, s, CancelTokens).waits;
            ws.records == s.waits.records && ws.signaled == s.waits.signaled + s.waits.handles
  {}

  /** When a checkpoint is lost, exactly the persistent waits that still run fail, and say why. */
  lemma LossIsRecorded(codec: Codec, s: System, error: string, id: Uuid)
    requires id in s.waits.records
    ensures var ws, was := Next(codec, s, CheckpointLost(error)).waits, s.waits.records[id];
            && id in ws.records && ws.records.Keys == s.waits.records.Keys
            && (if was.spec.lifetime == Persistent && was.outcome == Running then
                  && ws.records[id] == Wait(was.spec, Outcome.Failed, was.event, Some(PersistenceLost(error)), was.cursor)
                  && id !in ws.handles && (id in s.waits.handles ==> id in ws.signaled)
                else
                  && ws.records[id] == was && (id in ws.handles <==> id in s.waits.handles)
                  && (id in ws.signaled <==> id in s.waits.signaled))
  {}

  /** The close of a connection takes away exactly its own waits, and stops those that run. */
  lemma CloseTakesItsWaits(codec: Codec, s: System, owner: Uuid, id: Uuid)
    requires Possible(s, Sweep(owner)) && id in s.waits.records
    ensures var ws, was := Next(codec, s, Sweep(owner)).waits, s.waits.records[id];
            if was.spec.lifetime == Connection && was.spec.owner == owner then
              && id !in ws.records && id !in ws.handles && (id in s.waits.handles ==> id in ws.signaled)
            else
              && id in ws.records && ws.records[id] == was && (id in ws.handles <==> id in s.waits.handles)
              && (id in ws.signaled <==> id in s.waits.signaled)
  {}

  /** Forgetting takes away that one wait, and only once it has ended. */
  lemma ForgetDecides(codec: Codec, s: System, id: Uuid)
    ensures Possible(s, Action.Forget(id)) <==> id in s.waits.records && s.waits.records[id].outcome != Running
    ensures Possible(s, Action.Forget(id)) ==> Next(codec, s, Action.Forget(id)).waits.records == s.waits.records - {id}
  {}

  /** No wait starts on a connection whose token is canceled, nor beyond 128 of them, nor with a filter that is not sound. */
  lemma WaitIsRefused(codec: Codec, s: System, id: Uuid, spec: Spec)
    requires Possible(s, Start(id, spec))
    requires || |s.waits.records| >= 128
             || (spec.lifetime == Connection && spec.owner in s.waits.closed)
             || (spec.filter.process.Some? && spec.filter.process.value.created.None?)
             || (spec.filter.since.Some? && spec.filter.until.Some? && spec.filter.since.value > spec.filter.until.value)
             || codec.filter(spec.filter) > 16384
    ensures Next(codec, s, Start(id, spec)).waits == s.waits
  {}
}
