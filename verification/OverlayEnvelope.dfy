/**
 How the glow of src/overlay.rs rises, holds and fades. Times are milliseconds
 and levels are real numbers, so rounding is not part of this model.
 */
module OverlayEnvelope {
  import opened Wrappers

  const ATTACK: real := 250.0
  const HOLD: real := 1000.0
  const RELEASE: real := 3000.0
  const FRAME: real := 16.0

  datatype Phase =
    | Idle
    | Attack(t0: real, dur: real, from: real)
    | Hold(until: real)
    | Release(t0: real, from: real)

  /** Phases that triggers and ticks lead to. */
  predicate Sound(p: Phase) {
    match p
    case Idle => true
    case Attack(_, dur, from) => dur > 0.0 && 0.0 <= from < 1.0
    case Hold(_) => true
    case Release(_, from) => 0.0 <= from <= 1.0
  }

  function Since(now: real, t0: real): (e: real)
    ensures e >= 0.0
  {
    if now <= t0 then 0.0 else now - t0
  }

  function LevelAt(p: Phase, now: real): real
    requires Sound(p)
  {
    match p
    case Idle => 0.0
    case Attack(t0, dur, from) =>
      var e := Since(now, t0);
      if e >= dur then 1.0 else from + (1.0 - from) * (e / dur)
    case Hold(_) => 1.0
    case Release(t0, from) =>
      var e := Since(now, t0);
      if e >= RELEASE then 0.0 else from * (1.0 - e / RELEASE)
  }

  function Triggered(p: Phase, now: real): (q: Phase)
    requires Sound(p)
    ensures Sound(q)
  {
    var current := LevelAt(p, now);
    LevelIsBetween(p, now);
    if current >= 0.999 then Hold(now + HOLD)
    else
      Attack(now, ATTACK * (if 1.0 - current >= 0.02 then 1.0 - current else 0.02), current)
  }

  lemma Ratio(e: real, dur: real)
    requires 0.0 <= e < dur
    ensures 0.0 <= e / dur < 1.0 && (e > 0.0 ==> e / dur > 0.0)
  {}

  lemma Product(a: real, b: real)
    requires a >= 0.0 && b >= 0.0
    ensures a * b >= 0.0
  {}

  lemma LevelIsBetween(p: Phase, now: real)
    requires Sound(p)
    ensures 0.0 <= LevelAt(p, now) <= 1.0
  {
    match p {
      case Attack(t0, dur, from) =>
        var e := Since(now, t0);
        if e < dur {
          Ratio(e, dur);
          Blend(from, e / dur);
        }
      case Release(t0, from) =>
        var e := Since(now, t0);
        if e < RELEASE {
          Ratio(e, RELEASE);
          Fade(from, e / RELEASE);
        }
      case Idle =>
      case Hold(_) =>
    }
  }

  lemma Blend(from: real, r: real)
    requires 0.0 <= from <= 1.0 && 0.0 <= r <= 1.0
    ensures from <= from + (1.0 - from) * r <= 1.0
  {
    Product(1.0 - from, r);
    Product(1.0 - from, 1.0 - r);
    assert (1.0 - from) * (1.0 - r) == (1.0 - from) - (1.0 - from) * r;
  }

  lemma Fade(from: real, r: real)
    requires 0.0 <= from <= 1.0 && 0.0 <= r <= 1.0
    ensures 0.0 <= from * (1.0 - r) <= 1.0
  {
    Product(from, r);
    Product(from, 1.0 - r);
    assert from * (1.0 - r) == from - from * r;
  }

  // --- Ticks --------------------------------------------------------------

  function AfterRelease(p: Phase, now: real): (q: Phase)
    requires Sound(p) && p.Release?
    ensures Sound(q)
  {
    if Since(now, p.t0) >= RELEASE then Idle else p
  }

  function AfterHold(p: Phase, now: real): (q: Phase)
    requires p.Hold?
    ensures Sound(q)
  {
    if now >= p.until then AfterRelease(Release(p.until, 1.0), now) else p
  }

  /** The phase that the clock calls for: each phase ends at the time it was to end, however late the tick. */
  function Advanced(p: Phase, now: real): (q: Phase)
    requires Sound(p)
    ensures Sound(q)
  {
    match p
    case Idle => p
    case Attack(t0, dur, _) => if Since(now, t0) >= dur then AfterHold(Hold(t0 + dur + HOLD), now) else p
    case Hold(_) => AfterHold(p, now)
    case Release(_, _) => AfterRelease(p, now)
  }

  /** How long until the next redraw is worth doing. */
  function NextRedraw(p: Phase, now: real): Option<real> {
    match p
    case Idle => None
    case Hold(until) => Some(until - now)
    case Attack(_, _, _) => Some(FRAME)
    case Release(_, _) => Some(FRAME)
  }

  class Envelope {
    var phase: Phase

    constructor ()
      ensures phase == Idle
    {
      phase := Idle;
    }

    method Trigger(now: real)
      requires Sound(phase)
      modifies this
      ensures phase == Triggered(old(phase), now) && Sound(phase)
    {
      phase := Triggered(phase, now);
    }

    method Advance(now: real) returns (level: real, next: Option<real>)
      requires Sound(phase)
      modifies this
      ensures phase == Advanced(old(phase), now) && Sound(phase)
      ensures level == LevelAt(phase, now) && next == NextRedraw(phase, now)
    {
      while true
        invariant Sound(phase) && Advanced(phase, now) == Advanced(old(phase), now)
        decreases match phase case Attack(_, _, _) => 3 case Hold(_) => 2 case Release(_, _) => 1 case Idle => 0
      {
        match phase {
          case Idle => return 0.0, None;
          case Attack(t0, dur, from) =>
            if Since(now, t0) >= dur {
              phase := Hold(t0 + dur + HOLD);
              continue;
            }
            return LevelAt(phase, now), Some(FRAME);
          case Hold(until) =>
            if now >= until {
              phase := Release(until, 1.0);
              continue;
            }
            return 1.0, Some(until - now);
          case Release(t0, from) =>
            if Since(now, t0) >= RELEASE {
              phase := Idle;
              continue;
            }
            return LevelAt(phase, now), Some(FRAME);
        }
      }
    }
  }

  /** Ticks do not matter: one in between changes neither the later phase nor, with it, the later level. */
  lemma TicksDoNotMatter(p: Phase, early: real, late: real)
    requires Sound(p) && early <= late
    ensures Advanced(Advanced(p, early), late) == Advanced(p, late)
  {}

  ghost function AdvancedOver(p: Phase, ticks: seq<real>): (q: Phase)
    requires Sound(p)
    ensures Sound(q)
    decreases |ticks|
  {
    if ticks == [] then p else AdvancedOver(Advanced(p, ticks[0]), ticks[1..])
  }

  /** So the level is a function of the clock, over every schedule of ticks. */
  lemma {:induction false} ScheduleDoesNotMatter(p: Phase, ticks: seq<real>, now: real)
    requires Sound(p) && forall k | 0 <= k < |ticks| :: ticks[k] <= now
    ensures Advanced(AdvancedOver(p, ticks), now) == Advanced(p, now)
    decreases |ticks|
  {
    if ticks != [] {
      ScheduleDoesNotMatter(Advanced(p, ticks[0]), ticks[1..], now);
      TicksDoNotMatter(p, ticks[0], now);
    }
  }

  /** The phase is stale: it says fully lit although the glow should be fading by now. */
  predicate Overdue(p: Phase, now: real) {
    match p
    case Attack(t0, dur, _) => now > t0 + dur + HOLD
    case Hold(until) => now > until
    case Idle => false
    case Release(_, _) => false
  }

  /**
   A trigger reads the level without advancing. It reads the level that the clock
   calls for exactly when the phase is not overdue; otherwise it reads a full one.
   */
  lemma TriggerReadsTheClock(p: Phase, now: real)
    requires Sound(p)
    ensures LevelAt(p, now) == LevelAt(Advanced(p, now), now) <==> !Overdue(p, now)
  {
    if p.Attack? || p.Hold? {
      var until := if p.Hold? then p.until else p.t0 + p.dur + HOLD;
      if until <= now < until + RELEASE {
        Ratio(now - until, RELEASE);
        assert LevelAt(Release(until, 1.0), now) == 1.0 - (now - until) / RELEASE;
      }
    }
  }

  /** So a trigger 2250 ms after the glow began can find it at two thirds or at full, depending on ticks. */
  lemma TriggerDependsOnTicks()
    ensures var p := Attack(0.0, 250.0, 0.0);
            Sound(p) && LevelAt(p, 2250.0) == 1.0 && LevelAt(Advanced(p, 2250.0), 2250.0) == 1.0 - 1000.0 / 3000.0
  {
    assert Advanced(Attack(0.0, 250.0, 0.0), 2250.0) == Release(1250.0, 1.0);
  }

  /** A trigger never makes the level jump: it goes on from where it is, or holds what is as good as full. */
  lemma TriggerDoesNotJump(p: Phase, now: real)
    requires Sound(p)
    ensures var before, after := LevelAt(p, now), LevelAt(Triggered(p, now), now);
            if before >= 0.999 then after == 1.0 else after == before
  {
    var current := LevelAt(p, now);
    LevelIsBetween(p, now);
    if current < 0.999 {
      assert 0.0 / Triggered(p, now).dur == 0.0;
    }
  }

  // --- A pulse in time ------------------------------------------------------------

  /** How long a pulse takes to rise: a quarter of a second from the dark, less from a level it is already at. */
  function Rise(level: real): (rise: real)
    requires 0.0 <= level <= 1.0
    ensures level < 0.999 ==> rise > 0.0
  {
    if level >= 0.999 then 0.0
    else if level > 0.98 then 5.0
    else 250.0 * (1.0 - level)
  }

  /** Up for as long as the rise takes, a second at full, and three seconds down. */
  function Shape(level: real, rise: real, t: real): real {
    if t < rise && rise > 0.0 then level + (1.0 - level) * (t / rise) else Fall(t - rise - 1000.0)
  }

  function Fall(late: real): real {
    if late <= 0.0 then 1.0 else if late < 3000.0 then 1.0 - late / 3000.0 else 0.0
  }

  /** The light of a pulse `t` milliseconds after its trigger. */
  function Glow(level: real, t: real): real
    requires 0.0 <= level <= 1.0
  {
    Shape(level, Rise(level), t)
  }

  lemma TriggeredRises(p: Phase, now: real)
    requires Sound(p)
    ensures var c := LevelAt(p, now);
            && 0.0 <= c <= 1.0
            && Triggered(p, now) == if c >= 0.999 then Hold(now + 1000.0) else Attack(now, Rise(c), c)
  {
    LevelIsBetween(p, now);
  }

  lemma HoldGlows(until: real, now: real)
    ensures LevelAt(Advanced(Hold(until), now), now) == Fall(now - until)
  {
    if until < now < until + 3000.0 {
      assert LevelAt(Release(until, 1.0), now) == 1.0 - (now - until) / RELEASE;
    }
  }

  lemma AttackGlows(t0: real, rise: real, from: real, t: real)
    requires 0.0 <= from < 1.0 && rise > 0.0 && t >= 0.0
    ensures LevelAt(Advanced(Attack(t0, rise, from), t0 + t), t0 + t) == Shape(from, rise, t)
  {
    assert Since(t0 + t, t0) == t;
    if t >= rise {
      HoldGlows(t0 + rise + 1000.0, t0 + t);
      assert t0 + t - (t0 + rise + 1000.0) == t - rise - 1000.0;
    }
  }

  lemma TriggeredGlows(level: real, now: real, t: real)
    requires 0.0 <= level <= 1.0 && t >= 0.0
    ensures var q := if level >= 0.999 then Hold(now + 1000.0) else Attack(now, Rise(level), level);
            Sound(q) && LevelAt(Advanced(q, now + t), now + t) == Glow(level, t)
  {
    if level >= 0.999 {
      HoldGlows(now + 1000.0, now + t);
      assert now + t - (now + 1000.0) == t - 0.0 - 1000.0;
    } else {
      AttackGlows(now, Rise(level), level, t);
    }
  }

  /**
   The glow of a pulse, whatever went before and however the ticks fall: the level
   at every moment until the next trigger.
   */
  lemma PulseOverTime(p: Phase, now: real, ticks: seq<real>, t: real)
    requires Sound(p) && t >= 0.0 && forall k | 0 <= k < |ticks| :: ticks[k] <= now + t
    ensures 0.0 <= LevelAt(p, now) <= 1.0
    ensures var shown := Advanced(AdvancedOver(Triggered(p, now), ticks), now + t);
            LevelAt(shown, now + t) == Glow(LevelAt(p, now), t)
  {
    TriggeredRises(p, now);
    ScheduleDoesNotMatter(Triggered(p, now), ticks, now + t);
    TriggeredGlows(LevelAt(p, now), now, t);
  }

  /** From the dark: full after 250 ms, until 1250 ms, and dark again at 4250 ms. */
  lemma PulseFromTheDark(now: real, t: real)
    requires t >= 0.0
    ensures LevelAt(Idle, now) == 0.0
    ensures Glow(0.0, t)
         == if t < 250.0 then t / 250.0
                            else if t <= 1250.0 then 1.0
                            else if t < 4250.0 then 1.0 - (t - 1250.0) / 3000.0
                            else 0.0
  {
    assert Rise(0.0) == 250.0;
    assert t - 250.0 - 1000.0 == t - 1250.0;
  }
}
