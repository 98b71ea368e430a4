/**
 The life of a resident host: any number of processes, one after the other.
 Each runs the store of `ObservationWaits`, leaves checkpoints behind, and is
 followed by one that restores the last of them under a new epoch. Whatever
 happened after that checkpoint is lost, except that `ages` remembers how each
 epoch really ended, and every wait is judged by that.
 */
module ObservationLife {
  import opened Wrappers
  import opened ObservationLog
  import opened ObservationHistory
  import opened ObservationRead
  import opened ObservationWaits
  import opened ObservationRestart

  /** The running host and the state its last checkpoint was taken from. */
  datatype Life = Life(host: System, saved: System)

  /** `Crash` ends the process at any point; the next one restores the checkpoint and writes its own. */
  datatype Event = Step(action: Action) | Checkpoint | Crash(epoch: Uuid, now: nat)

  function Snap(life: Life): Snapshot { Taken(life.saved.log, life.saved.waits) }

  predicate Possible(life: Life, e: Event) {
    match e
    case Step(a) => ObservationWaits.Possible(life.host, a)
    case Checkpoint => true
    // Epochs are never used twice.
    case Crash(epoch, _) => epoch != life.host.log.epoch && epoch !in life.host.ages
  }

  /** No task, token or connection outlives the process; identifiers stay used and closed connections closed. */
  function WaitsAfter(ws: Waits, records: map<Uuid, Wait>): Waits {
    ws.(records := records, handles := {}, tasks := map[])
  }

  function PastAfter(past: Past, restarted: Past): Past { Past(restarted.events, past.used + restarted.used) }

  function Restarted(codec: Codec, life: Life, restored: Restored, epoch: Uuid, now: nat): System {
    var host := life.host;
    System(restored.log, PastAfter(host.past, RestartedPast(codec, life.saved.log, epoch, now)),
           WaitsAfter(host.waits, restored.waits), host.ages[host.log.epoch := Age(host.log, host.past)])
  }

  /** A host whose checkpoint does not restore does not come up. */
  function Next(codec: Codec, life: Life, e: Event): Life
    requires Possible(life, e)
  {
    match e
    case Step(a) => life.(host := ObservationWaits.Next(codec, life.host, a))
    case Checkpoint => life.(saved := life.host)
    case Crash(epoch, now) =>
      match Restore(codec, Snap(life), epoch, now)
      case Err(_) => life
      case Ok(restored) => var host := Restarted(codec, life, restored, epoch, now); Life(host, host)
  }

  // --- What holds all along ------------------------------------------------

  /** What the last checkpoint promises the next process. */
  ghost predicate Restorable(codec: Codec, saved: System) {
    Good(saved.log, saved.past) && Bounded(codec, saved.waits.records) && Encoded(codec, saved.log.events)
  }

  /** The records of the checkpoint are as honest as those of the host, and as old. */
  ghost predicate SavedHonest(host: System, records: map<Uuid, Wait>) {
    && HonestRecords(host.log, host.past, host.ages, records)
    && records.Keys <= host.waits.used
    && forall id | id in records && records[id].outcome == Canceled :: id in host.waits.signaled
  }

  ghost predicate Alive(codec: Codec, life: Life) {
    && Inv(codec, life.host) && Encoded(codec, life.host.log.events)
    && Restorable(codec, life.saved) && SavedHonest(life.host, life.saved.waits.records)
  }

  // --- Steps of one process ------------------------------------------------

  /** An action either is an operation on the log or leaves the log alone. */
  lemma LogOfStep(codec: Codec, s: System, a: Action)
    requires ObservationWaits.Possible(s, a)
    ensures var s' := ObservationWaits.Next(codec, s, a);
            && s'.ages == s.ages
            && (a.Change? ==> s'.log == Applied(codec, s.log, a.op) && s'.past == Remembered(codec, s.log, s.past, a.op))
            && (a.CheckpointLost? ==>
                  && s'.log == Applied(codec, s.log, CheckpointFailed(a.error))
                  && s'.past == Remembered(codec, s.log, s.past, CheckpointFailed(a.error)))
            && (!a.Change? && !a.CheckpointLost? ==> s'.log == s.log && s'.past == s.past)
  {}

  lemma StepMovesForward(codec: Codec, s: System, a: Action)
    requires codec.GapsFit() && Good(s.log, s.past) && Encoded(codec, s.log.events) && ObservationWaits.Possible(s, a)
    ensures var s' := ObservationWaits.Next(codec, s, a);
            Follows(s.log, s.past, s'.log, s'.past) && Encoded(codec, s'.log.events)
  {
    LogOfStep(codec, s, a);
    if a.Change? {
      StepKeepsGood(codec, s.log, s.past, a.op);
      StepKeepsEncoded(codec, s.log, s.past, a.op);
    } else if a.CheckpointLost? {
      StepKeepsGood(codec, s.log, s.past, CheckpointFailed(a.error));
      StepKeepsEncoded(codec, s.log, s.past, CheckpointFailed(a.error));
    } else {
      NothingKeepsGood(s.log, s.past);
    }
  }

  lemma UsedStaysUsed(codec: Codec, s: System, a: Action)
    requires ObservationWaits.Possible(s, a)
    ensures s.waits.used <= ObservationWaits.Next(codec, s, a).waits.used
  {}

  lemma StepKeepsAlive(codec: Codec, life: Life, a: Action)
    requires codec.GapsFit() && Alive(codec, life) && Possible(life, Step(a))
    ensures Alive(codec, Next(codec, life, Step(a)))
  {
    var s, s' := life.host, ObservationWaits.Next(codec, life.host, a);
    ObservationWaits.StepKeepsInv(codec, s, a);
    StepMovesForward(codec, s, a);
    LogOfStep(codec, s, a);
    StepKeepsAsked(codec, s, a);
    UsedStaysUsed(codec, s, a);
    RecordsFollow(s.log, s.past, s'.log, s'.past, s.ages, life.saved.waits.records);
  }

  // --- From one process to the next ----------------------------------------

  /** A record is judged as before once its epoch has ended. */
  lemma EndedAgeStays(log: Log, past: Past, ages: map<Uuid, Age>, wait: Wait, log': Log, past': Past)
    requires log.epoch !in ages && HonestRecord(log, past, ages, wait)
    ensures HonestRecord(log', past', ages[log.epoch := Age(log, past)], wait)
  {}

  /** The records a crash hands on are honest about the epochs they were started in. */
  lemma RestoredAreHonest(host: System, ws: Waits, waits: map<Uuid, Wait>, log': Log, past': Past)
    requires host.log.epoch !in host.ages && SavedHonest(host, ws.records) && WaitsCarried(ws, waits)
    ensures HonestRecords(log', past', host.ages[host.log.epoch := Age(host.log, host.past)], waits)
    ensures waits.Keys <= host.waits.used
    ensures forall id | id in waits :: waits[id].outcome != Running && waits[id].spec.lifetime == Persistent
    ensures forall id | id in waits && waits[id].outcome == Canceled :: id in host.waits.signaled
  {
    forall id | id in waits
      ensures HonestRecord(log', past', host.ages[host.log.epoch := Age(host.log, host.past)], waits[id])
    {
      assert id in KeptWaits(ws);
      assert HonestRecord(host.log, host.past, host.ages, ws.records[id]);
      if ws.records[id].outcome != Running {
        EndedAgeStays(host.log, host.past, host.ages, waits[id], log', past');
      }
    }
  }

  /** Records that have all ended need no handle and no task. */
  lemma RestoredAreTidy(ws: Waits, records: map<Uuid, Wait>)
    requires Tidy(ws) && records.Keys <= ws.used
    requires forall id | id in records :: records[id].outcome != Running && records[id].spec.lifetime == Persistent
    requires forall id | id in records && records[id].outcome == Canceled :: id in ws.signaled
    ensures Tidy(WaitsAfter(ws, records)) && Asked(WaitsAfter(ws, records))
  {}

  lemma MoreNamesKeepGood(log: Log, past: Past, before: Past)
    requires Good(log, past)
    ensures Good(log, PastAfter(before, past))
  {}

  /** The restored host is as good as any: it keeps the whole invariant, and so does its own checkpoint. */
  lemma CrashKeepsAlive(codec: Codec, life: Life, epoch: Uuid, now: nat)
    requires codec.GapsFit() && Alive(codec, life) && Possible(life, Crash(epoch, now))
    ensures Alive(codec, Next(codec, life, Crash(epoch, now)))
  {
    var saved := life.saved;
    RestartTheorem(codec, saved.log, saved.past, saved.waits, epoch, now);
    var r := Restore(codec, Snap(life), epoch, now);
    if r.Ok? {
      RestoredIsAlive(codec, life, r.value, epoch, now);
    }
  }

  lemma RestoredIsAlive(codec: Codec, life: Life, restored: Restored, epoch: Uuid, now: nat)
    requires life.host.log.epoch !in life.host.ages && SavedHonest(life.host, life.saved.waits.records) && Tidy(life.host.waits)
    requires Possible(life, Crash(epoch, now)) && restored.log.epoch == epoch
    requires Good(restored.log, RestartedPast(codec, life.saved.log, epoch, now)) && Encoded(codec, restored.log.events)
    requires Bounded(codec, restored.waits) && WaitsCarried(life.saved.waits, restored.waits)
    ensures var host' := Restarted(codec, life, restored, epoch, now); Alive(codec, Life(host', host'))
  {
    var host := life.host;
    var host' := Restarted(codec, life, restored, epoch, now);
    MoreNamesKeepGood(restored.log, RestartedPast(codec, life.saved.log, epoch, now), host.past);
    RestoredAreHonest(host, life.saved.waits, restored.waits, host'.log, host'.past);
    RestoredAreTidy(host.waits, restored.waits);
    IdleIsAlive(codec, host');
  }

  /** A host without tasks is alive, and may be saved, as soon as its log and its records are in order. */
  lemma IdleIsAlive(codec: Codec, host: System)
    requires Good(host.log, host.past) && Encoded(codec, host.log.events) && host.log.epoch !in host.ages
    requires HonestRecords(host.log, host.past, host.ages, host.waits.records) && host.waits.tasks == map[]
    requires Tidy(host.waits) && Asked(host.waits) && Bounded(codec, host.waits.records)
    ensures Alive(codec, Life(host, host))
  {}

  lemma EventKeepsAlive(codec: Codec, life: Life, e: Event)
    requires codec.GapsFit() && Alive(codec, life) && Possible(life, e)
    ensures Alive(codec, Next(codec, life, e))
  {
    match e
    case Step(a) => StepKeepsAlive(codec, life, a);
    case Checkpoint =>
    case Crash(epoch, now) => CrashKeepsAlive(codec, life, epoch, now);
  }

  // --- Whole lives ---------------------------------------------------------

  function Born(epoch: Uuid): Life {
    var host := System(Fresh(epoch), Past({}, {}), NO_WAITS, map[]);
    Life(host, host)
  }

  ghost predicate LifePossible(codec: Codec, life: Life, events: seq<Event>)
    decreases |events|, 0
  {
    events != [] ==>
      && LifePossible(codec, life, events[..|events| - 1])
      && Possible(Lived(codec, life, events[..|events| - 1]), events[|events| - 1])
  }

  function Lived(codec: Codec, life: Life, events: seq<Event>): Life
    requires LifePossible(codec, life, events)
    decreases |events|, 1
  {
    if events == [] then life
    else Next(codec, Lived(codec, life, events[..|events| - 1]), events[|events| - 1])
  }

  lemma {:induction false} LifeKeepsAlive(codec: Codec, life: Life, events: seq<Event>)
    requires codec.GapsFit() && Alive(codec, life) && LifePossible(codec, life, events)
    ensures Alive(codec, Lived(codec, life, events))
    decreases |events|
  {
    if events != [] {
      LifeKeepsAlive(codec, life, events[..|events| - 1]);
      EventKeepsAlive(codec, Lived(codec, life, events[..|events| - 1]), events[|events| - 1]);
    }
  }

  /** Every state that a host can be in, over any number of processes. */
  ghost predicate Reachable(codec: Codec, life: Life) {
    exists epoch, events | LifePossible(codec, Born(epoch), events) :: life == Lived(codec, Born(epoch), events)
  }

  lemma ReachableIsAlive(codec: Codec, life: Life)
    requires codec.GapsFit() && Reachable(codec, life)
    ensures Alive(codec, life)
  {
    var epoch, events :| LifePossible(codec, Born(epoch), events) && life == Lived(codec, Born(epoch), events);
    FreshSystem(codec, epoch);
    LifeKeepsAlive(codec, Born(epoch), events);
  }

  /**
   The timeout theorem: in whatever process a wait that names a watch ended
   TimedOut, and however many followed, no event ever recorded for that watch
   in the epoch of the wait, between its start and its final cursor, matches
   the deadline-clipped filter, and none is a gap.
   */
  lemma TimeoutIsNeverAGuess(codec: Codec, life: Life, id: Uuid, w: Uuid, e: ObservationLog.Event)
    requires codec.GapsFit() && Reachable(codec, life)
    requires var s := life.host;
             && id in s.waits.records && s.waits.records[id].outcome == TimedOut
             && s.waits.records[id].spec.filter.watch == Some(w)
             && e in AgeOf(s.log, s.past, s.ages, s.waits.records[id].spec).past.events && e.watch == w
             && s.waits.records[id].spec.start.id < e.id <= s.waits.records[id].cursor.id
    ensures var wait := life.host.waits.records[id];
            && !wait.spec.Clipped().Matches(e) && e.kind != GAP
            && wait.spec.start.epoch == wait.cursor.epoch
  {
    ReachableIsAlive(codec, life);
    var s := life.host;
    assert HonestRecord(s.log, s.past, s.ages, s.waits.records[id]);
  }

  /** A wait ends Satisfied only by an event of its epoch's history, after its start, that it could see and that matches. */
  lemma SuccessIsReal(codec: Codec, life: Life, id: Uuid)
    requires codec.GapsFit() && Reachable(codec, life)
    requires id in life.host.waits.records && life.host.waits.records[id].outcome == Satisfied
    ensures var s := life.host;
            var wait := s.waits.records[id];
            var age := AgeOf(s.log, s.past, s.ages, wait.spec);
            && wait.event.Some? && wait.event.value in age.past.events
            && wait.spec.start.id < wait.event.value.id && wait.spec.Clipped().Matches(wait.event.value)
            && (wait.event.value.watch in age.log.watches ==>
                  Visible(age.log.watches[wait.event.value.watch], wait.spec.owner))
  {
    ReachableIsAlive(codec, life);
    var s := life.host;
    assert HonestRecord(s.log, s.past, s.ages, s.waits.records[id]);
  }

  /** A wait ends Canceled only if its token was canceled. */
  lemma CanceledWasAsked(codec: Codec, life: Life, id: Uuid)
    requires codec.GapsFit() && Reachable(codec, life)
    requires id in life.host.waits.records && life.host.waits.records[id].outcome == Canceled
    ensures id in life.host.waits.signaled
  {
    ReachableIsAlive(codec, life);
  }

  /** A closed and swept connection owns no wait, whatever started beside the sweep and whatever was restored since. */
  lemma SweptOwnsNothing(codec: Codec, life: Life, owner: Uuid, id: Uuid)
    requires codec.GapsFit() && Reachable(codec, life)
    requires owner in life.host.waits.swept && id in life.host.waits.records
    ensures !OwnedBy(life.host.waits.records[id], owner)
  {
    ReachableIsAlive(codec, life);
  }

  /**
   The restart theorem over every life: a crash is survived exactly when the
   cursor of the last checkpoint has room for the markers; then exactly what
   that checkpoint held persistently is there again, and every watch says that
   its recording was interrupted.
   */
  lemma EveryCrashIsSurvived(codec: Codec, life: Life, epoch: Uuid, now: nat)
    requires codec.GapsFit() && Reachable(codec, life) && Possible(life, Crash(epoch, now))
    ensures var saved, life' := life.saved, Next(codec, life, Crash(epoch, now));
            if saved.log.nextId < U64_MAX - |Kept(saved.log)| then
              && Reachable(codec, life') && life'.host == life'.saved && life'.host.log.epoch == epoch
              && WatchesCarried(saved.log, life'.host.log)
              && Interruption(saved.log, life'.host.log)
              && EventsCarried(saved.log, life'.host.log)
              && WaitsCarried(saved.waits, life'.host.waits.records)
            else life' == life
  {
    ReachableIsAlive(codec, life);
    RestartTheorem(codec, life.saved.log, life.saved.past, life.saved.waits, epoch, now);
    ReachableGoesOn(codec, life, Crash(epoch, now));
  }

  lemma ReachableGoesOn(codec: Codec, life: Life, e: Event)
    requires Reachable(codec, life) && Possible(life, e)
    ensures Reachable(codec, Next(codec, life, e))
  {
    var epoch, events :| LifePossible(codec, Born(epoch), events) && life == Lived(codec, Born(epoch), events);
    OneMore(codec, Born(epoch), events, e);
  }

  lemma OneMore(codec: Codec, life: Life, events: seq<Event>, e: Event)
    requires LifePossible(codec, life, events) && Possible(Lived(codec, life, events), e)
    ensures LifePossible(codec, life, events + [e])
    ensures Lived(codec, life, events + [e]) == Next(codec, Lived(codec, life, events), e)
  {
    assert (events + [e])[..|events|] == events;
  }

  // --- Readers across restarts ---------------------------------------------

  /** Whoever comes from before `id` is told about the watch, now and after every further crash. */
  ghost predicate Tells(life: Life, w: Uuid, id: nat) {
    && TellsIn(life.host.log, w, id) && TellsIn(life.saved.log, w, id)
    && w in life.host.past.used
  }

  ghost predicate TellsIn(log: Log, w: Uuid, id: nat) {
    id <= log.nextId && (w in log.watches ==> log.watches[w].lastGapId >= id)
  }

  lemma CrashTells(codec: Codec, life: Life, epoch: Uuid, now: nat, w: Uuid, id: nat)
    requires codec.GapsFit() && Alive(codec, life) && Possible(life, Crash(epoch, now))
    requires w in life.host.past.used && id <= life.saved.log.nextId
    ensures var life' := Next(codec, life, Crash(epoch, now)); life' == life || Tells(life', w, id)
  {
    var saved := life.saved;
    RestartTheorem(codec, saved.log, saved.past, saved.waits, epoch, now);
    var r := Restore(codec, Snap(life), epoch, now);
    if r.Ok? {
      RestoredTells(saved.log, r.value.log, w, id);
    }
  }

  lemma RestoredTells(log: Log, after: Log, w: Uuid, id: nat)
    requires Interruption(log, after) && log.nextId <= after.nextId && id <= log.nextId
    ensures TellsIn(after, w, id)
  {}

  lemma EventKeepsTelling(codec: Codec, life: Life, e: Event, w: Uuid, id: nat)
    requires codec.GapsFit() && Alive(codec, life) && Possible(life, e) && Tells(life, w, id)
    ensures Tells(Next(codec, life, e), w, id)
  {
    match e
    case Step(a) => StepMovesForward(codec, life.host, a);
    case Checkpoint =>
    case Crash(epoch, now) => CrashTells(codec, life, epoch, now, w, id);
  }

  lemma {:induction false} LifeKeepsTelling(codec: Codec, life: Life, events: seq<Event>, w: Uuid, id: nat)
    requires codec.GapsFit() && Alive(codec, life) && LifePossible(codec, life, events) && Tells(life, w, id)
    ensures Tells(Lived(codec, life, events), w, id)
    decreases |events|
  {
    if events != [] {
      var before := events[..|events| - 1];
      LifeKeepsAlive(codec, life, before);
      LifeKeepsTelling(codec, life, before, w, id);
      EventKeepsTelling(codec, Lived(codec, life, before), events[|events| - 1], w, id);
    }
  }

  /**
   The interruption theorem: once a crash was survived, whatever happens next,
   further crashes included, a reader whose cursor lies before the restored
   checkpoint and whose page covers a watch that the checkpoint held is told
   that the recording was interrupted, and that the host restarted if its
   cursor says so.
   */
  lemma InterruptionIsSeen(
    codec: Codec, life: Life, epoch: Uuid, now: nat, events: seq<Event>, q: Query, cursor: Cursor, limit: nat, w: Uuid)
    requires codec.GapsFit() && Reachable(codec, life) && Possible(life, Crash(epoch, now))
    requires life.saved.log.nextId < U64_MAX - |Kept(life.saved.log)|
    requires w in Kept(life.saved.log) && cursor.id < life.saved.log.nextId
    requires var life' := Next(codec, life, Crash(epoch, now));
             && LifePossible(codec, life', events)
             && w in Selected(Lived(codec, life', events).host.log, q)
             && ReadPage(codec, Lived(codec, life', events).host.log, q, Some(cursor), limit).Ok?
    ensures var log := Lived(codec, Next(codec, life, Crash(epoch, now)), events).host.log;
            var page := ReadPage(codec, log, q, Some(cursor), limit).value;
            page.recordingGap && (page.restarted <==> cursor.epoch != log.epoch)
  {
    ReachableIsAlive(codec, life);
    var life' := Next(codec, life, Crash(epoch, now));
    EveryCrashIsSurvived(codec, life, epoch, now);
    CrashKeepsAlive(codec, life, epoch, now);
    assert w in life'.host.log.watches;
    LifeKeepsTelling(codec, life', events, w, life.saved.log.nextId);
    OldCursorsSeeTheGap(codec, Lived(codec, life', events).host.log, q, cursor, limit, life.saved.log.nextId);
  }
}
