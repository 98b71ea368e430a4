/** The bounded cache of earlier frames in src/desktop/observation.rs. */
module FrameStore {
  import opened Wrappers
  import opened FrameRegions
  import opened FrameCompare
  import opened FrameTiles

  const MAX_RETAINED_BYTES: nat := 67_108_864
  const MAX_FRAMES: nat := 4
  const RETENTION_MS: nat := 120_000

  /** The parts of a capture's metadata that two frames must share to be compared, and one that they need not. */
  datatype Metadata = Metadata(
    target: nat, sessionId: nat, desktop: nat, bounds: Rect, scaleX: int, scaleY: int, geometry: nat, other: nat)

  datatype Frame = Frame(metadata: Metadata, bgra: seq<Byte>)

  datatype Stored = Stored(id: nat, frame: Frame, inserted: nat)

  datatype Changes =
    | NotRequested
    | BaselineMissing
    | BaselineMismatch
    | Compared(comparison: Comparison)

  predicate Compatible(previous: Metadata, current: Metadata) {
    previous.(other := current.other) == current
  }

  /** Two captures can be compared when they agree in all but what changes from one to the next. */
  lemma CompatibleExactly(previous: Metadata, current: Metadata)
    ensures Compatible(previous, current) <==>
              && previous.target == current.target && previous.sessionId == current.sessionId
              && previous.desktop == current.desktop && previous.bounds == current.bounds
              && previous.scaleX == current.scaleX && previous.scaleY == current.scaleY
              && previous.geometry == current.geometry
  {}

  function Bytes(frames: seq<Stored>): nat {
    if frames == [] then 0 else |frames[0].frame.bgra| + Bytes(frames[1..])
  }

  /** Frames younger than the retention, in order. */
  function Fresh(frames: seq<Stored>, now: nat): seq<Stored> {
    if frames == [] then []
    else
      var rest := Fresh(frames[1..], now);
      if now - frames[0].inserted < RETENTION_MS then [frames[0]] + rest else rest
  }

  lemma {:induction false} FreshIsExact(frames: seq<Stored>, now: nat, s: Stored)
    ensures s in Fresh(frames, now) <==> s in frames && now - s.inserted < RETENTION_MS
  {
    if frames != [] {
      FreshIsExact(frames[1..], now, s);
      assert frames == [frames[0]] + frames[1..];
    }
  }

  lemma {:induction false} FreshAppend(frames: seq<Stored>, s: Stored, now: nat)
    ensures Fresh(frames + [s], now) == Fresh(frames, now) + if now - s.inserted < RETENTION_MS then [s] else []
  {
    if frames == [] {
      assert frames + [s] == [s];
    } else {
      FreshAppend(frames[1..], s, now);
      assert (frames + [s])[1..] == frames[1..] + [s];
    }
  }

  lemma {:induction false} FreshShrinks(frames: seq<Stored>, now: nat)
    ensures |Fresh(frames, now)| <= |frames| && Bytes(Fresh(frames, now)) <= Bytes(frames)
  {
    if frames != [] {
      FreshShrinks(frames[1..], now);
      if now - frames[0].inserted < RETENTION_MS {
        assert Fresh(frames, now)[1..] == Fresh(frames[1..], now);
      }
    }
  }

  lemma {:induction false} BytesAppend(frames: seq<Stored>, s: Stored)
    ensures Bytes(frames + [s]) == Bytes(frames) + |s.frame.bgra|
  {
    if frames == [] {
      assert frames + [s] == [s];
    } else {
      BytesAppend(frames[1..], s);
      assert (frames + [s])[1..] == frames[1..] + [s];
    }
  }

  predicate Fits(frames: seq<Stored>, size: nat) {
    |frames| < MAX_FRAMES && Bytes(frames) + size <= MAX_RETAINED_BYTES
  }

  /** How many of the oldest frames must go before one of this size fits. */
  function Evictions(frames: seq<Stored>, size: nat): (k: nat)
    requires size <= MAX_RETAINED_BYTES
    ensures k <= |frames| && Fits(frames[k..], size)
  {
    if Fits(frames, size) then
      assert frames[0..] == frames;
      0
    else
      assert forall k: nat | k <= |frames| - 1 :: frames[1..][k..] == frames[k + 1..];
      1 + Evictions(frames[1..], size)
  }

  /** No fewer would have done. */
  lemma {:induction false} EvictionsAreLeast(frames: seq<Stored>, size: nat, k: nat)
    requires size <= MAX_RETAINED_BYTES && k < Evictions(frames, size)
    ensures !Fits(frames[k..], size)
  {
    if k == 0 {
      assert frames[0..] == frames;
    } else {
      EvictionsAreLeast(frames[1..], size, k - 1);
      assert frames[1..][k - 1..] == frames[k..];
    }
  }

  /** The first stored frame with an identifier. */
  function Find(frames: seq<Stored>, id: nat): (r: Option<Stored>)
    ensures r.Some? ==> r.value in frames && r.value.id == id
    ensures r.None? ==> forall s | s in frames :: s.id != id
  {
    if frames == [] then None
    else if frames[0].id == id then Some(frames[0])
    else Find(frames[1..], id)
  }

  function Remembered(frames: seq<Stored>, now: nat, id: nat, frame: Frame): seq<Stored> {
    var young := Fresh(frames, now);
    if |frame.bgra| > MAX_RETAINED_BYTES then young
    else young[Evictions(young, |frame.bgra|)..] + [Stored(id, frame, now)]
  }

  /** The cache in numbers: four frames and 64 MiB in all, each for two minutes. */
  lemma CacheInNumbers(frames: seq<Stored>, size: nat, now: nat, s: Stored)
    ensures Fits(frames, size) <==> |frames| < 4 && Bytes(frames) + size <= 67_108_864
    ensures s in Fresh(frames, now) <==> s in frames && now - s.inserted < 120_000
  {
    FreshIsExact(frames, now, s);
  }

  /** The sizes are right, no tile row finds the operation canceled, and every corner fits 32 bits. */
  ghost predicate Comparable(previous: Frame, frame: Frame, canceled: nat -> bool) {
    var bounds := frame.metadata.bounds;
    var f := Frames(previous.bgra, frame.bgra, bounds.width, bounds.height);
    && AllocationOk(bounds.width, bounds.height) && f.Valid()
    && !CanceledAbove(canceled, bounds.height) && AllRunsFit(f.Changed(), bounds)
  }

  method CompareFrames(previous: Frame, frame: Frame, canceled: nat -> bool) returns (r: Result<Comparison, CompareError>)
    ensures r.Ok? <==> Comparable(previous, frame, canceled)
    ensures r.Ok? ==>
              var f := Frames(previous.bgra, frame.bgra, frame.metadata.bounds.width, frame.metadata.bounds.height);
              f.Valid() && Reports(f, frame.metadata.bounds, r.value)
  {
    r := Compare(previous.bgra, frame.bgra, frame.metadata.bounds, canceled);
    match r {
      case Ok(_) =>
      case Err(BadDimensions) =>
      case Err(BadBuffer) =>
      case Err(Canceled) =>
      case Err(OutOfRange) =>
    }
  }

  datatype ObserveError = OperationCanceled | Comparing(error: CompareError)

  class FrameStore {
    var frames: seq<Stored>

    ghost predicate Valid()
      reads this
    {
      |frames| <= MAX_FRAMES && Bytes(frames) <= MAX_RETAINED_BYTES
    }

    constructor ()
      ensures Valid() && frames == []
    {
      frames := [];
    }

    method DropExpired(now: nat)
      modifies this
      ensures frames == Fresh(old(frames), now)
    {
      var kept := [];
      for k := 0 to |frames|
        invariant frames == old(frames) && kept == Fresh(frames[..k], now)
      {
        assert frames[..k + 1] == frames[..k] + [frames[k]];
        FreshAppend(frames[..k], frames[k], now);
        if now - frames[k].inserted < RETENTION_MS {
          kept := kept + [frames[k]];
        }
      }
      assert frames[..|frames|] == frames;
      frames := kept;
    }

    method TotalBytes() returns (bytes: nat)
      ensures bytes == Bytes(frames)
    {
      bytes := 0;
      for k := 0 to |frames|
        invariant bytes == Bytes(frames[..k])
      {
        assert frames[..k + 1] == frames[..k] + [frames[k]];
        BytesAppend(frames[..k], frames[k]);
        bytes := bytes + |frames[k].frame.bgra|;
      }
      assert frames[..|frames|] == frames;
    }

    /** Evict the oldest frames until the new one fits, then store it. */
    method Retain(id: nat, frame: Frame, now: nat)
      requires Valid() && |frame.bgra| <= MAX_RETAINED_BYTES
      modifies this
      ensures Valid()
      ensures frames == old(frames[Evictions(frames, |frame.bgra|)..]) + [Stored(id, frame, now)]
    {
      var bytes := TotalBytes();
      ghost var gone := 0;
      while |frames| >= MAX_FRAMES || bytes + |frame.bgra| > MAX_RETAINED_BYTES
        invariant gone <= |old(frames)| && frames == old(frames)[gone..] && bytes == Bytes(frames)
        invariant Evictions(old(frames), |frame.bgra|) == gone + Evictions(frames, |frame.bgra|)
        decreases |frames|
      {
        if frames == [] {
          break;
        }
        bytes := bytes - |frames[0].frame.bgra|;
        frames := frames[1..];
        gone := gone + 1;
      }
      BytesAppend(frames, Stored(id, frame, now));
      frames := frames + [Stored(id, frame, now)];
    }

    /**
     Observe a frame: compare it with the baseline asked for, if that is still
     here, and keep it as a later baseline. An error keeps nothing of it.
     */
    method Observe(frame: Frame, baseline: Option<nat>, id: nat, now: nat, stopped: bool, canceled: nat -> bool)
      returns (r: Result<(Changes, bool), ObserveError>)
      requires Valid()
      modifies this
      ensures Valid()
      ensures stopped ==> r == Err(OperationCanceled) && frames == old(frames)
      ensures !stopped && r.Err? ==> frames == Fresh(old(frames), now)
      ensures r.Ok? ==>
                && !stopped && frames == Remembered(old(frames), now, id, frame)
                && r.value.1 == (|frame.bgra| <= MAX_RETAINED_BYTES)
      ensures r.Ok? ==> Tells(r.value.0, baseline, Fresh(old(frames), now), frame)
      ensures !stopped ==> (r.Ok? <==> CanTell(baseline, Fresh(old(frames), now), frame, canceled))
    {
      if stopped {
        return Err(OperationCanceled);
      }
      DropExpired(now);
      FreshShrinks(old(frames), now);
      var changes := NotRequested;
      if baseline.Some? {
        var previous := Find(frames, baseline.value);
        if previous.None? {
          changes := BaselineMissing;
        } else if !Compatible(previous.value.frame.metadata, frame.metadata) {
          changes := BaselineMismatch;
        } else {
          var compared := CompareFrames(previous.value.frame, frame, canceled);
          if compared.Err? {
            return Err(Comparing(compared.error));
          }
          changes := Compared(compared.value);
        }
      }
      var retained := |frame.bgra| <= MAX_RETAINED_BYTES;
      if retained {
        Retain(id, frame, now);
      }
      return Ok((changes, retained));
    }
  }

  /** What the reader is told: a comparison only with a compatible baseline that is still stored, and a true one. */
  ghost predicate Tells(changes: Changes, baseline: Option<nat>, stored: seq<Stored>, frame: Frame) {
    match baseline
    case None => changes.NotRequested?
    case Some(id) =>
      match Find(stored, id)
      case None => changes.BaselineMissing?
      case Some(previous) =>
        var bounds := frame.metadata.bounds;
        if !Compatible(previous.frame.metadata, frame.metadata) then changes.BaselineMismatch?
        else
          var f := Frames(previous.frame.bgra, frame.bgra, bounds.width, bounds.height);
          changes.Compared? && f.Valid() && Reports(f, bounds, changes.comparison)
  }

  /** There is nothing to compare with, or the two frames can be compared. */
  ghost predicate CanTell(baseline: Option<nat>, stored: seq<Stored>, frame: Frame, canceled: nat -> bool) {
    baseline.Some? && Find(stored, baseline.value).Some? ==>
      var previous := Find(stored, baseline.value).value.frame;
      Compatible(previous.metadata, frame.metadata) ==> Comparable(previous, frame, canceled)
  }

  // --- Over several observations --------------------------------------------

  datatype Observation = Observation(id: nat, frame: Frame, now: nat)

  function Observed(frames: seq<Stored>, steps: seq<Observation>): seq<Stored>
    decreases |steps|
  {
    if steps == [] then frames
    else Observed(Remembered(frames, steps[0].now, steps[0].id, steps[0].frame), steps[1..])
  }

  function Sizes(steps: seq<Observation>): nat {
    if steps == [] then 0 else |steps[0].frame.bgra| + Sizes(steps[1..])
  }

  predicate EndsWith(frames: seq<Stored>, suffix: seq<Stored>) {
    |suffix| <= |frames| && frames[|frames| - |suffix|..] == suffix
  }

  /** Whatever is stored under an identifier is this frame. */
  ghost predicate OnlyUnder(frames: seq<Stored>, id: nat, s: Stored) {
    forall other | other in frames && other.id == id :: other == s
  }

  lemma RememberedBelongs(frames: seq<Stored>, next: Observation, s: Stored)
    requires s in Remembered(frames, next.now, next.id, next.frame)
    ensures s in frames || s == Stored(next.id, next.frame, next.now)
  {
    var young := Fresh(frames, next.now);
    assert s in young || s == Stored(next.id, next.frame, next.now);
    FreshIsExact(frames, next.now, s);
  }

  lemma {:induction false} OnlyUnderStays(frames: seq<Stored>, id: nat, s: Stored, later: seq<Observation>)
    requires OnlyUnder(frames, id, s) && forall k | 0 <= k < |later| :: later[k].id != id
    ensures OnlyUnder(Observed(frames, later), id, s)
    decreases |later|
  {
    if later != [] {
      var next := Remembered(frames, later[0].now, later[0].id, later[0].frame);
      forall other | other in next && other.id == id ensures other == s {
        RememberedBelongs(frames, later[0], other);
      }
      OnlyUnderStays(next, id, s, later[1..]);
    }
  }

  /**
   A retained frame is still found, whole, by every later observation that comes
   before it expires, as long as at most three came between and all of them fit.
   Identifiers are never used twice.
   */
  lemma BaselineSurvives(frames: seq<Stored>, first: Observation, later: seq<Observation>, now: nat)
    requires |later| <= 3 && |first.frame.bgra| + Sizes(later) <= MAX_RETAINED_BYTES
    requires first.now <= now < first.now + RETENTION_MS
    requires forall k | 0 <= k < |later| :: first.now <= later[k].now < first.now + RETENTION_MS && later[k].id != first.id
    requires forall s | s in frames :: s.id != first.id
    ensures Find(Fresh(Observed(Remembered(frames, first.now, first.id, first.frame), later), now), first.id)
         == Some(Stored(first.id, first.frame, first.now))
  {
    var a := Stored(first.id, first.frame, first.now);
    var one := Remembered(frames, first.now, first.id, first.frame);
    assert one[|one| - 1..] == [a];
    assert Bytes([a]) == |first.frame.bgra| by { assert [a][1..] == []; }
    SuffixStays(one, [a], later, first.now + RETENTION_MS);
    var after := Observed(one, later);
    FreshIsExact(after, now, a);
    forall other | other in one && other.id == first.id ensures other == a {
      RememberedBelongs(frames, first, other);
    }
    OnlyUnderStays(one, first.id, a, later);
    var found := Find(Fresh(after, now), first.id);
    assert found.Some?;
    FreshIsExact(after, now, found.value);
  }

  /** Frames that end the cache, and all come to fit, stay in it. */
  lemma {:induction false} SuffixStays(frames: seq<Stored>, suffix: seq<Stored>, later: seq<Observation>, until: nat)
    requires EndsWith(frames, suffix) && |suffix| + |later| <= MAX_FRAMES
    requires Bytes(suffix) + Sizes(later) <= MAX_RETAINED_BYTES
    requires forall s | s in suffix :: until <= s.inserted + RETENTION_MS
    requires forall k | 0 <= k < |later| :: later[k].now < until <= later[k].now + RETENTION_MS
    ensures forall s | s in suffix :: s in Observed(frames, later)
    decreases |later|
  {
    if later == [] {
      assert forall s | s in suffix :: s in frames[|frames| - |suffix|..];
    } else {
      var next := later[0];
      var stored := Stored(next.id, next.frame, next.now);
      BytesAppend(suffix, stored);
      SuffixSurvives(frames, suffix, next);
      SuffixStays(Remembered(frames, next.now, next.id, next.frame), suffix + [stored], later[1..], until);
      assert forall s | s in suffix :: s in suffix + [stored];
    }
  }

  lemma EvictionsSpare(frames: seq<Stored>, suffix: seq<Stored>, size: nat)
    requires EndsWith(frames, suffix) && Fits(suffix, size)
    ensures EndsWith(frames[Evictions(frames, size)..], suffix)
  {
    var k, m := Evictions(frames, size), |frames| - |suffix|;
    if m < k {
      EvictionsAreLeast(frames, size, m);
    }
    assert frames[k..][m - k..] == frames[m..];
  }

  lemma EndsWithOneMore(frames: seq<Stored>, suffix: seq<Stored>, s: Stored)
    requires EndsWith(frames, suffix)
    ensures EndsWith(frames + [s], suffix + [s])
  {
    var m := |frames| - |suffix|;
    assert (frames + [s])[m..] == frames[m..] + [s];
  }

  /** The newest frames stay when the next one fits beside them. */
  lemma SuffixSurvives(frames: seq<Stored>, suffix: seq<Stored>, next: Observation)
    requires EndsWith(frames, suffix) && Fits(suffix, |next.frame.bgra|)
    requires forall s | s in suffix :: next.now - s.inserted < RETENTION_MS
    ensures EndsWith(Remembered(frames, next.now, next.id, next.frame), suffix + [Stored(next.id, next.frame, next.now)])
  {
    var young, size := Fresh(frames, next.now), |next.frame.bgra|;
    FreshKeepsSuffix(frames, |frames| - |suffix|, next.now);
    EvictionsSpare(young, suffix, size);
    EndsWithOneMore(young[Evictions(young, size)..], suffix, Stored(next.id, next.frame, next.now));
  }

  lemma {:induction false} FreshKeepsSuffix(frames: seq<Stored>, n: nat, now: nat)
    requires n <= |frames| && forall s | s in frames[n..] :: now - s.inserted < RETENTION_MS
    ensures |Fresh(frames, now)| >= |frames| - n
    ensures Fresh(frames, now)[|Fresh(frames, now)| - (|frames| - n)..] == frames[n..]
  {
    if n > 0 {
      assert frames[1..][n - 1..] == frames[n..];
      FreshKeepsSuffix(frames[1..], n - 1, now);
    } else {
      assert frames[0..] == frames;
      AllFresh(frames, now);
    }
  }

  lemma {:induction false} AllFresh(frames: seq<Stored>, now: nat)
    requires forall s | s in frames :: now - s.inserted < RETENTION_MS
    ensures Fresh(frames, now) == frames
  {
    if frames != [] {
      AllFresh(frames[1..], now);
    }
  }
}
