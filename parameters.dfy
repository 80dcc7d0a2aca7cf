/**
 * The capture parameters at the boundary of the recorder: the clamping the
 * duration and frame-rate inputs apply, the resolution table, and the file
 * name offered for download.
 */
module Parameters {
  import opened Wrappers
  import Decimal

  const MIN_DURATION := 3
  const MAX_DURATION := 30
  const MIN_FPS := 10
  const MAX_FPS := 60

  function Dist(a: int, b: int): nat { if a < b then b - a else a - b }

  /**
   * `Math.max(lo, Math.min(hi, x))`: the point of [lo, hi] nearest to x.
   */
  function Clamp(lo: int, hi: int, x: int): (r: int)
    requires lo <= hi
    ensures lo <= r <= hi
    ensures lo <= x <= hi ==> r == x
    ensures forall y :: lo <= y <= hi ==> Dist(r, x) <= Dist(y, x)
  {
    var m := if x < hi then x else hi;
    if lo < m then m else lo
  }

  /** The duration input handler (line 270). */
  function ClampDuration(x: int): (r: int)
    ensures MIN_DURATION <= r <= MAX_DURATION
    ensures MIN_DURATION <= x <= MAX_DURATION ==> r == x
  {
    Clamp(MIN_DURATION, MAX_DURATION, x)
  }

  /** The frame-rate input handler (line 281). */
  function ClampFps(x: int): (r: int)
    ensures MIN_FPS <= r <= MAX_FPS
    ensures MIN_FPS <= x <= MAX_FPS ==> r == x
  {
    Clamp(MIN_FPS, MAX_FPS, x)
  }

  /** Clamping twice is clamping once. */
  lemma ClampIdempotent(x: int)
    ensures ClampDuration(ClampDuration(x)) == ClampDuration(x)
    ensures ClampFps(ClampFps(x)) == ClampFps(x)
  {
  }

  /** The duration and frame rate lie in the ranges their inputs clamp to. */
  predicate SettingsInRange(durationSec: int, fps: int)
  {
    MIN_DURATION <= durationSec <= MAX_DURATION && MIN_FPS <= fps <= MAX_FPS
  }

  datatype Resolution = P720 | P1080 | K4

  datatype Dimensions = Dimensions(width: nat, height: nat)

  /**
   * The option value of each resolution, as the file name spells it: at
   * least two characters and no `-`, so the name's separators stay unambiguous.
   */
  function Label(r: Resolution): (s: string)
    ensures |s| >= 2 && forall i :: 0 <= i < |s| ==> s[i] != '-'
  {
    match r
    case P720 => "720p"
    case P1080 => "1080p"
    case K4 => "4k"
  }

  /** `RESOLUTION_TO_SIZE` (lines 8-12). */
  function Size(r: Resolution): (d: Dimensions)
    ensures d.width * 9 == d.height * 16
    ensures d.height > 0
  {
    match r
    case P720 => Dimensions(1280, 720)
    case P1080 => Dimensions(1920, 1080)
    case K4 => Dimensions(3840, 2160)
  }

  const NAME_PREFIX := "india-from-space-"
  const NAME_SUFFIX := "s.webm"

  /**
   * `india-from-space-${resolution}-${durationSec}s.webm` (line 247): the name
   * begins with the fixed prefix and ends with the `s.webm` suffix.
   */
  function DownloadName(r: Resolution, durationSec: int): (name: string)
    ensures |name| >= |NAME_PREFIX| + |NAME_SUFFIX|
    ensures name[..|NAME_PREFIX|] == NAME_PREFIX
    ensures name[|name| - |NAME_SUFFIX|..] == NAME_SUFFIX
  {
    NAME_PREFIX + (Label(r) + "-" + Decimal.IntToString(durationSec)) + NAME_SUFFIX
  }

  /** Reads back the duration after `<label>-`, if the text starts with that tag. */
  function ParseTagged(r: Resolution, middle: string): Option<int>
  {
    var tag := Label(r) + "-";
    if |tag| <= |middle| && middle[..|tag|] == tag then Decimal.ParseInt(middle[|tag|..]) else None
  }

  function ParseMiddle(middle: string): Option<(Resolution, int)>
  {
    match ParseTagged(P720, middle)
    case Some(d) => Some((P720, d))
    case None =>
      match ParseTagged(P1080, middle)
      case Some(d) => Some((P1080, d))
      case None =>
        match ParseTagged(K4, middle)
        case Some(d) => Some((K4, d))
        case None => None
  }

  /** Recovers the resolution and duration a download name was built from. */
  function ParseDownloadName(name: string): Option<(Resolution, int)>
  {
    if |name| < |NAME_PREFIX| + |NAME_SUFFIX| then None
    else if name[..|NAME_PREFIX|] != NAME_PREFIX || name[|name| - |NAME_SUFFIX|..] != NAME_SUFFIX then None
    else ParseMiddle(name[|NAME_PREFIX|..|name| - |NAME_SUFFIX|])
  }

  lemma ParseTaggedOf(r: Resolution, other: Resolution, durationSec: int)
    ensures ParseTagged(other, Label(r) + "-" + Decimal.IntToString(durationSec))
      == if other == r then Some(durationSec) else None
  {
    var middle := Label(r) + "-" + Decimal.IntToString(durationSec);
    var tag := Label(other) + "-";
    if other == r {
      assert middle[..|tag|] == tag;
      assert middle[|tag|..] == Decimal.IntToString(durationSec);
      Decimal.ParseIntToString(durationSec);
    } else if |tag| <= |middle| {
      assert middle[0] != tag[0];
    }
  }

  /** The three parts of a concatenation can be sliced back out of it. */
  lemma SliceAround(prefix: string, middle: string, suffix: string)
    ensures var whole := prefix + middle + suffix;
      && whole[..|prefix|] == prefix
      && whole[|whole| - |suffix|..] == suffix
      && whole[|prefix|..|whole| - |suffix|] == middle
  {
  }

  /** The download name determines the resolution and duration it encodes. */
  lemma DownloadNameRoundTrip(r: Resolution, durationSec: int)
    ensures ParseDownloadName(DownloadName(r, durationSec)) == Some((r, durationSec))
  {
    var middle := Label(r) + "-" + Decimal.IntToString(durationSec);
    assert DownloadName(r, durationSec) == NAME_PREFIX + middle + NAME_SUFFIX;
    SliceAround(NAME_PREFIX, middle, NAME_SUFFIX);
    ParseMiddleOf(r, durationSec);
  }

  /** The part between prefix and suffix names exactly one resolution and its duration. */
  lemma ParseMiddleOf(r: Resolution, durationSec: int)
    ensures ParseMiddle(Label(r) + "-" + Decimal.IntToString(durationSec)) == Some((r, durationSec))
  {
    ParseTaggedOf(r, P720, durationSec);
    ParseTaggedOf(r, P1080, durationSec);
    ParseTaggedOf(r, K4, durationSec);
  }

  /** Two captures with different settings are offered under different names. */
  lemma DownloadNameInjective(r1: Resolution, d1: int, r2: Resolution, d2: int)
    requires DownloadName(r1, d1) == DownloadName(r2, d2)
    ensures r1 == r2 && d1 == d2
  {
    DownloadNameRoundTrip(r1, d1);
    DownloadNameRoundTrip(r2, d2);
  }

  /** The default capture (1080p, 10 s) is offered as `india-from-space-1080p-10s.webm`. */
  lemma DefaultDownloadName()
    ensures DownloadName(P1080, 10) == "india-from-space-1080p-10s.webm"
  {
    assert Decimal.NatToString(1) == "1";
    assert Decimal.NatToString(10) == "10";
  }

  /** The anchor `onDownload` clicks: the video's URL and the suggested name. */
  datatype Anchor<U> = Anchor(href: U, download: string)
}
