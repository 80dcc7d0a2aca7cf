/**
 * The animation plan of one capture: how many frames are rendered, the
 * normalised time of each frame, the cubic ease-in-out curve applied to it,
 * and the progress percentage published after each frame.
 *
 * JavaScript numbers are idealised as exact `real`s (no rounding error, no
 * overflow); `Math.round` is modelled exactly as JavaScript defines it on
 * reals: the nearest integer, ties going towards +infinity.
 */
module AnimationPlan {
  import opened Wrappers

  /** JavaScript's `Math.round`: floor(x + 1/2). */
  function Round(x: real): (r: int)
    ensures r as real - 0.5 <= x < r as real + 0.5
  {
    (x + 0.5).Floor
  }

  function Max(a: int, b: int): int { if a < b then b else a }

  /** Rounding an integral value gives it back. */
  lemma RoundOfInteger(n: int)
    ensures Round(n as real) == n
  {
  }

  /** Rounding is monotonic. */
  lemma RoundMonotone(x: real, y: real)
    requires x <= y
    ensures Round(x) <= Round(y)
  {
  }

  /** `Math.max(1, Math.round(durationSec * captureFps))` (line 201). */
  function TotalFrames(durationSec: int, fps: int): (n: nat)
    ensures n >= 1
    ensures n >= durationSec * fps
    ensures n == 1 || n == durationSec * fps
  {
    RoundOfInteger(durationSec * fps);
    Max(1, Round((durationSec * fps) as real))
  }

  /**
   * With a duration in [3,30] and a frame rate in [10,60], as the input
   * handlers enforce, the frame count is exactly duration * fps and lies in
   * [30,1800]; in particular the divisor `totalFrames - 1` is never zero.
   */
  lemma ClampedFrameCount(durationSec: int, fps: int)
    requires 3 <= durationSec <= 30 && 10 <= fps <= 60
    ensures TotalFrames(durationSec, fps) == durationSec * fps
    ensures 30 <= TotalFrames(durationSec, fps) <= 1800
  {
    assert durationSec * fps >= 3 * fps >= 30;
    assert durationSec * fps <= 30 * fps <= 1800;
  }

  lemma FrameCountExamples()
    ensures TotalFrames(10, 30) == 300
    ensures TotalFrames(3, 10) == 30
    ensures TotalFrames(30, 60) == 1800
  {
    ClampedFrameCount(10, 30);
    ClampedFrameCount(3, 10);
    ClampedFrameCount(30, 60);
  }

  /**
   * `frame / (totalFrames - 1)` (line 216). With a single frame the divisor is
   * zero and JavaScript produces a non-finite number (NaN for 0/0), modelled
   * as None.
   */
  function NormalizedTime(frame: int, totalFrames: int): (t: Option<real>)
    ensures t.None? <==> totalFrames == 1
    ensures t.Some? ==> t.value * (totalFrames - 1) as real == frame as real
  {
    if totalFrames - 1 == 0 then None
    else Some(frame as real / (totalFrames - 1) as real)
  }

  /** t is 0 at the first frame and 1 at the last one. */
  lemma TimeEndpoints(totalFrames: int)
    requires totalFrames >= 2
    ensures NormalizedTime(0, totalFrames) == Some(0.0)
    ensures NormalizedTime(totalFrames - 1, totalFrames) == Some(1.0)
  {
    var d := (totalFrames - 1) as real;
    assert d != 0.0 && d / d == 1.0;
  }

  /** Across the frames of a plan, t stays in [0,1] and strictly increases. */
  lemma TimeInUnitInterval(frame: int, totalFrames: int)
    requires totalFrames >= 2 && 0 <= frame <= totalFrames - 1
    ensures NormalizedTime(frame, totalFrames).Some?
    ensures 0.0 <= NormalizedTime(frame, totalFrames).value <= 1.0
  {
    var d := (totalFrames - 1) as real;
    assert frame as real / d <= d / d;
  }

  lemma TimeStrictlyIncreasing(i: int, j: int, totalFrames: int)
    requires totalFrames >= 2 && i < j
    ensures NormalizedTime(i, totalFrames).value < NormalizedTime(j, totalFrames).value
  {
    var d := (totalFrames - 1) as real;
    assert j as real / d - i as real / d == (j - i) as real / d;
  }

  /** A one-frame plan divides zero by zero: its only time value is not a number. */
  lemma SingleFrameTimeIsNotFinite()
    ensures NormalizedTime(0, 1) == None
  {
  }

  function Cube(x: real): real { x * x * x }

  /**
   * Cubic ease-in-out (line 218): `t < 0.5 ? 4t^3 : 1 - (-2t + 2)^3 / 2`,
   * with `Math.pow(x, 3)` taken as the exact cube. The curve maps [0,1] into
   * [0,1].
   */
  function Ease(t: real): (e: real)
    ensures 0.0 <= t <= 1.0 ==> 0.0 <= e <= 1.0
  {
    if t < 0.5 then
      CubeMonotone(t, 0.5);
      4.0 * Cube(t)
    else
      CubeMonotone(-2.0 * t + 2.0, 1.0);
      1.0 - Cube(-2.0 * t + 2.0) / 2.0
  }

  lemma EaseFixedPoints()
    ensures Ease(0.0) == 0.0
    ensures Ease(0.5) == 0.5
    ensures Ease(1.0) == 1.0
  {
    assert Cube(0.0) == 0.0;
    assert -2.0 * 0.5 + 2.0 == 1.0 && Cube(1.0) == 1.0;
    assert -2.0 * 1.0 + 2.0 == 0.0;
  }

  /** The cube is non-negative and non-decreasing on the non-negative reals. */
  lemma CubeMonotone(a: real, b: real)
    ensures 0.0 <= a <= b ==> 0.0 <= Cube(a) <= Cube(b)
  {
    if 0.0 <= a <= b {
      assert a * a <= b * b by {
        assert a * a <= a * b <= b * b;
      }
      assert a * a * a <= b * b * a <= b * b * b;
    }
  }

  /** The curve is non-decreasing on [0,1]. */
  lemma EaseMonotone(t: real, u: real)
    requires 0.0 <= t <= u <= 1.0
    ensures Ease(t) <= Ease(u)
  {
    if u < 0.5 {
      CubeMonotone(t, u);
    } else if t < 0.5 {
      CubeMonotone(t, 0.5);
      CubeMonotone(-2.0 * u + 2.0, 1.0);
    } else {
      CubeMonotone(-2.0 * u + 2.0, -2.0 * t + 2.0);
    }
  }

  /** The curve is point-symmetric about its midpoint (0.5, 0.5). */
  lemma EaseSymmetric(t: real)
    ensures Ease(1.0 - t) == 1.0 - Ease(t)
  {
    if t < 0.5 {
      assert -2.0 * (1.0 - t) + 2.0 == 2.0 * t;
      CubeOfDouble(t);
    } else if t > 0.5 {
      assert -2.0 * t + 2.0 == 2.0 * (1.0 - t);
      CubeOfDouble(1.0 - t);
    }
  }

  lemma CubeOfDouble(x: real)
    ensures Cube(2.0 * x) == 8.0 * Cube(x)
  {
  }

  /** The eased blend factor of one frame; a non-finite t stays non-finite. */
  function EasedAt(frame: int, totalFrames: int): (b: Option<real>)
    ensures b.None? <==> totalFrames == 1
  {
    match NormalizedTime(frame, totalFrames)
    case None => None
    case Some(t) => Some(Ease(t))
  }

  /**
   * The first frame of a plan of at least two frames blends fully towards the
   * start orientation and camera distance, the last one fully towards the
   * target, and every frame in between blends by a factor in [0,1].
   */
  lemma EasedEndpoints(totalFrames: int)
    requires totalFrames >= 2
    ensures EasedAt(0, totalFrames) == Some(0.0)
    ensures EasedAt(totalFrames - 1, totalFrames) == Some(1.0)
  {
    TimeEndpoints(totalFrames);
    EaseFixedPoints();
  }

  lemma EasedInUnitInterval(frame: int, totalFrames: int)
    requires totalFrames >= 2 && 0 <= frame <= totalFrames - 1
    ensures EasedAt(frame, totalFrames).Some?
    ensures 0.0 <= EasedAt(frame, totalFrames).value <= 1.0
  {
    TimeInUnitInterval(frame, totalFrames);
  }

  lemma EasedMonotone(i: int, j: int, totalFrames: int)
    requires totalFrames >= 2 && 0 <= i <= j <= totalFrames - 1
    ensures EasedAt(i, totalFrames).value <= EasedAt(j, totalFrames).value
  {
    TimeInUnitInterval(i, totalFrames);
    TimeInUnitInterval(j, totalFrames);
    if i < j {
      TimeStrictlyIncreasing(i, j, totalFrames);
    }
    EaseMonotone(NormalizedTime(i, totalFrames).value, NormalizedTime(j, totalFrames).value);
  }

  /**
   * `Math.round((frame / totalFrames) * 100)` (line 229): the integer nearest
   * to the percentage 100 * frame / totalFrames, a tie going up.
   */
  function Progress(frame: int, totalFrames: int): (p: int)
    requires totalFrames >= 1
    ensures (p as real - 0.5) * totalFrames as real <= (100 * frame) as real
    ensures (100 * frame) as real < (p as real + 0.5) * totalFrames as real
  {
    var n := totalFrames as real;
    var x := frame as real / n * 100.0;
    ScaledRound(x, n, (100 * frame) as real);
    Round(x)
  }

  /** The rounding bounds of x, scaled by a positive n, bound m = x * n. */
  lemma ScaledRound(x: real, n: real, m: real)
    requires n > 0.0 && x * n == m
    ensures (Round(x) as real - 0.5) * n <= m < (Round(x) as real + 0.5) * n
  {
    var lo, hi := Round(x) as real - 0.5, Round(x) as real + 0.5;
    assert lo <= x < hi;
    ScaleAtMost(lo, x, n);
    ScaleBelow(x, hi, n);
    assert lo * n <= m < hi * n;
  }

  /** Scaling by a positive factor keeps the order. */
  lemma ScaleAtMost(a: real, b: real, n: real)
    requires a <= b && n > 0.0
    ensures a * n <= b * n
  {
  }

  lemma ScaleBelow(a: real, b: real, n: real)
    requires a < b && n > 0.0
    ensures a * n < b * n
  {
  }

  /** The published percentage stays in [0,100] over the frames 0..totalFrames. */
  lemma ProgressBounds(frame: int, totalFrames: int)
    requires totalFrames >= 1 && 0 <= frame <= totalFrames
    ensures 0 <= Progress(frame, totalFrames) <= 100
  {
    var n := totalFrames as real;
    assert frame as real / n <= n / n;
    RoundMonotone(0.0, frame as real / n * 100.0);
    RoundMonotone(frame as real / n * 100.0, 100.0);
    RoundOfInteger(0);
    RoundOfInteger(100);
  }

  /** The published percentage never decreases as the frame advances. */
  lemma ProgressMonotone(i: int, j: int, totalFrames: int)
    requires totalFrames >= 1 && i <= j
    ensures Progress(i, totalFrames) <= Progress(j, totalFrames)
  {
    var n := totalFrames as real;
    assert j as real / n - i as real / n == (j - i) as real / n;
    RoundMonotone(i as real / n * 100.0, j as real / n * 100.0);
  }

  lemma ProgressAtStart(totalFrames: int)
    requires totalFrames >= 1
    ensures Progress(0, totalFrames) == 0
  {
    RoundOfInteger(0);
  }

  /**
   * The percentage published for the last frame is already 100 exactly when
   * the plan has at least 200 frames (100 - 100/n rounds up to 100 iff
   * 100/n <= 1/2).
   */
  lemma LastFrameProgress(totalFrames: int)
    requires totalFrames >= 1
    ensures Progress(totalFrames - 1, totalFrames) == 100 <==> totalFrames >= 200
  {
    var n := totalFrames as real;
    var x := (totalFrames - 1) as real / n * 100.0;
    assert x == 100.0 - 100.0 / n;
    ProgressBounds(totalFrames - 1, totalFrames);
    if totalFrames >= 200 {
      assert 100.0 / n <= 0.5;
    } else {
      assert 100.0 / n > 0.5 by {
        assert 100.0 > 0.5 * n;
      }
    }
  }

  /** The percentages published, one per rendered frame, in order. */
  function ProgressTrace(frames: nat, totalFrames: int): (s: seq<int>)
    requires totalFrames >= 1
    ensures |s| == frames
  {
    seq(frames, i => Progress(i, totalFrames))
  }

  /** Within one session the published percentages are ordered and bounded by 100. */
  lemma ProgressTraceMonotone(frames: nat, totalFrames: int)
    requires totalFrames >= 1 && frames <= totalFrames
    ensures forall i, j :: 0 <= i <= j < frames ==>
      0 <= ProgressTrace(frames, totalFrames)[i] <= ProgressTrace(frames, totalFrames)[j] <= 100
  {
    forall i, j | 0 <= i <= j < frames
      ensures 0 <= ProgressTrace(frames, totalFrames)[i] <= ProgressTrace(frames, totalFrames)[j] <= 100
    {
      ProgressBounds(i, totalFrames);
      ProgressBounds(j, totalFrames);
      ProgressMonotone(i, j, totalFrames);
    }
  }

  /** The eased blend factors, one per rendered frame, in order. */
  function EaseTrace(frames: nat, totalFrames: int): (s: seq<Option<real>>)
    ensures |s| == frames
  {
    seq(frames, i => EasedAt(i, totalFrames))
  }

  /** Rendering one more frame extends each trace by that frame's entry. */
  lemma TracesAppend(frames: nat, totalFrames: int)
    requires totalFrames >= 1
    ensures ProgressTrace(frames + 1, totalFrames)
      == ProgressTrace(frames, totalFrames) + [Progress(frames, totalFrames)]
    ensures EaseTrace(frames + 1, totalFrames)
      == EaseTrace(frames, totalFrames) + [EasedAt(frames, totalFrames)]
    ensures Frames(frames + 1) == Frames(frames) + [frames]
  {
  }

  /** The frame indices rendered so far: 0, 1, ..., frames - 1. */
  function Frames(frames: nat): (s: seq<nat>)
    ensures |s| == frames
    ensures forall i :: 0 <= i < frames ==> s[i] == i
  {
    seq(frames, i => i)
  }
}
