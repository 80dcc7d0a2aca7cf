/**
 * The choice of container and codec for the recording: VP9 if the browser
 * supports it, else VP8, else plain WebM, which is used without asking.
 */
module Codec {

  const WEBM_VP9 := "video/webm;codecs=vp9"
  const WEBM_VP8 := "video/webm;codecs=vp8"
  const WEBM := "video/webm"

  /** The codec identifiers tried, most preferred first. */
  const CANDIDATES := [WEBM_VP9, WEBM_VP8]

  /** Reference definition: the first supported candidate, else the fallback. */
  function FirstSupported(candidates: seq<string>, isTypeSupported: string -> bool, fallback: string): (m: string)
    ensures m in candidates || m == fallback
    decreases |candidates|
  {
    if |candidates| == 0 then fallback
    else if isTypeSupported(candidates[0]) then candidates[0]
    else FirstSupported(candidates[1..], isTypeSupported, fallback)
  }

  /** The type the cascade of `startRecording` settles on: one of the three it names. */
  function CascadeChoice(isTypeSupported: string -> bool): (m: string)
    ensures m == WEBM_VP9 || m == WEBM_VP8 || m == WEBM
  {
    FirstSupported(CANDIDATES, isTypeSupported, WEBM)
  }

  /**
   * Whether `new MediaRecorder` accepts the type the cascade settles on; the
   * constructor throws `NotSupportedError` for a type the browser does not
   * support (the final fallback WEBM is not checked before line 180).
   */
  predicate Accepts(isTypeSupported: string -> bool)
  {
    isTypeSupported(CascadeChoice(isTypeSupported))
  }

  /** The constructor refuses the chosen type exactly when none of the three types is supported. */
  lemma AcceptsIffAnySupported(isTypeSupported: string -> bool)
    ensures Accepts(isTypeSupported) <==>
      isTypeSupported(WEBM_VP9) || isTypeSupported(WEBM_VP8) || isTypeSupported(WEBM)
  {
    FirstSupportedIsFirst(CANDIDATES, isTypeSupported, WEBM);
  }

  /**
   * FirstSupported picks a supported candidate that every earlier candidate
   * loses to, and falls back only when none is supported.
   */
  lemma {:induction false} FirstSupportedIsFirst(candidates: seq<string>, isTypeSupported: string -> bool, fallback: string)
    ensures var m := FirstSupported(candidates, isTypeSupported, fallback);
      || (exists i :: 0 <= i < |candidates| && m == candidates[i] && isTypeSupported(m)
            && forall j :: 0 <= j < i ==> !isTypeSupported(candidates[j]))
      || (m == fallback && forall j :: 0 <= j < |candidates| ==> !isTypeSupported(candidates[j]))
    decreases |candidates|
  {
    if |candidates| > 0 && !isTypeSupported(candidates[0]) {
      var rest := candidates[1..];
      FirstSupportedIsFirst(rest, isTypeSupported, fallback);
      var m := FirstSupported(rest, isTypeSupported, fallback);
      if exists i :: 0 <= i < |rest| && m == rest[i] && isTypeSupported(m)
          && forall j :: 0 <= j < i ==> !isTypeSupported(rest[j]) {
        var i :| 0 <= i < |rest| && m == rest[i] && isTypeSupported(m)
          && forall j :: 0 <= j < i ==> !isTypeSupported(rest[j]);
        assert m == candidates[i + 1];
        assert forall j :: 0 <= j < i + 1 ==> !isTypeSupported(candidates[j]) by {
          forall j | 0 <= j < i + 1 ensures !isTypeSupported(candidates[j]) {
            if j > 0 { assert candidates[j] == rest[j - 1]; }
          }
        }
      } else {
        assert forall j :: 0 <= j < |candidates| ==> !isTypeSupported(candidates[j]) by {
          forall j | 0 <= j < |candidates| ensures !isTypeSupported(candidates[j]) {
            if j > 0 { assert candidates[j] == rest[j - 1]; }
          }
        }
      }
    } else if |candidates| > 0 {
      assert FirstSupported(candidates, isTypeSupported, fallback) == candidates[0];
    }
  }

  /**
   * The sequential reassignments of `mimeType` in `startRecording`
   * (lines 172-178), with `MediaRecorder.isTypeSupported` as a parameter.
   */
  method ChooseMimeType(isTypeSupported: string -> bool) returns (mimeType: string)
    ensures mimeType == CascadeChoice(isTypeSupported)
    ensures isTypeSupported(WEBM_VP9) ==> mimeType == WEBM_VP9
    ensures !isTypeSupported(WEBM_VP9) && isTypeSupported(WEBM_VP8) ==> mimeType == WEBM_VP8
    ensures !isTypeSupported(WEBM_VP9) && !isTypeSupported(WEBM_VP8) ==> mimeType == WEBM
  {
    mimeType := WEBM_VP9;
    if !isTypeSupported(mimeType) {
      mimeType := WEBM_VP8;
    }
    if !isTypeSupported(mimeType) {
      mimeType := WEBM;
    }
    assert CANDIDATES[1..] == [WEBM_VP8] && [WEBM_VP8][1..] == [];
    assert FirstSupported([WEBM_VP8], isTypeSupported, WEBM)
      == if isTypeSupported(WEBM_VP8) then WEBM_VP8 else WEBM;
    assert FirstSupported(CANDIDATES, isTypeSupported, WEBM)
      == if isTypeSupported(WEBM_VP9) then WEBM_VP9 else FirstSupported([WEBM_VP8], isTypeSupported, WEBM);
  }
}
