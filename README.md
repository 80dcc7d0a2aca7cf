# India-from-space globe recorder: capture pipeline model

The `GlobeRecorder` component draws a rotating Earth on a canvas. It records
a fixed animation into a WebM video: the globe turns until India faces the
camera while the camera dollies in. This project models the component's
capture pipeline:

- The inputs are clamped: duration to 3-30 s, frame rate to 10-60 fps.
- A resolution is mapped to its pixel size.
- The frame count is `max(1, round(duration * fps))`.
- Each frame has a normalised time `t = frame / (N - 1)`, with the cubic
  ease-in-out curve applied to it.
- After each frame the component publishes a progress percentage.
- The encoder MIME type is chosen from a cascade.
- The chunk buffer fills as data arrives.
- The component's state changes through `startRecording`, the chain of
  `renderFrame` calls, `ondataavailable` and `onstop`.
- The download name is `india-from-space-<label>-<duration>s.webm`.

Layout, one module per file:

- `Wrappers` (`wrappers.dfy`): `Option`.
- `Decimal` (`decimal.dfy`): the decimal text of an integral JavaScript
  number below 10^21 in magnitude (from 1e21 on, JavaScript switches to
  exponent notation), and a parser that inverts it.
- `Media` (`media.dfy`):
  - bytes, chunks, `Blob` and object URLs;
  - the in-order concatenation a `Blob` performs;
  - the filter the `dataavailable` handler applies.
- `Parameters` (`parameters.dfy`):
  - the clamping of the two number inputs;
  - `RESOLUTION_TO_SIZE`;
  - the download name, together with a parser that recovers its settings.
- `AnimationPlan` (`plan.dfy`):
  - `Math.round`, the frame count, normalised time, the easing curve and the
    progress formula;
  - the traces of values one capture produces.
- `Codec` (`codec.dfy`): the MIME-type cascade, written as the source's
  sequence of reassignments and proved against a first-supported reference
  function.
- `CaptureState` (`capture_state.dfy`): the recorder lifecycle, the
  per-capture plan and the ghost trace of observations. It also holds the
  invariant tying the published React state to them.
- `Recorder` (`recorder.dfy`): the class `GlobeRecorder`. Its fields are the
  component's React state and refs. Its methods are the event handlers, each
  updating those fields in place.

Rendering is an opaque event. The model records, for each frame, the frame
index rendered and the eased blend factor it was rendered with.

JavaScript numbers are idealised as exact integers and reals.
`Math.round(x)` is `floor(x + 1/2)`. A division by zero (`0 / 0` when there
is only one frame) yields `None`.

The browser's `MediaRecorder.isTypeSupported` is a parameter of type
`string -> bool`. Chunk payloads are byte sequences. Their `size` is their
length.

Two places where the code differs from what a user of the component would
expect (a bar that reaches 100 only when the video is ready, and one capture
at a time); the model follows the code in both. A third difference is a
defect and is listed under "## Findings".

- **Progress may reach 100 before the video is ready.** The code publishes
  `round(100 * frame / N)` before incrementing `frame`. The last frame
  therefore publishes `round(100 - 100 / N)`. That is already 100 exactly
  when `N >= 200` (`AnimationPlan.LastFrameProgress`). For shorter captures
  the bar reaches 100 only in `onstop`.
- **Nothing stops a second capture.** The code has no manual stop, does not
  suspend the idle rotation, and does not reject a second start. Only the
  Generate button being disabled while recording (line 285) keeps a second
  capture from starting. The model states that as `Start`'s precondition.

## Model

| member | source | states |
|---|---|---|
| Parameters.Clamp | components/GlobeRecorder.tsx:270 | the result lies in [lo, hi]; an input already in range is returned unchanged; the result is the point of [lo, hi] nearest to the input |
| Parameters.ClampDuration | components/GlobeRecorder.tsx:270 | the stored duration lies in [3, 30], and a duration already in [3, 30] is kept |
| Parameters.ClampFps | components/GlobeRecorder.tsx:281 | the stored frame rate lies in [10, 60], and a rate already in [10, 60] is kept |
| Parameters.ClampIdempotent | components/GlobeRecorder.tsx:270-281 | clamping an already clamped duration or frame rate changes nothing |
| Parameters.Size | components/GlobeRecorder.tsx:8-12 | every capture size has a 16:9 aspect ratio (w * 9 == h * 16) and a positive height |
| Parameters.Label | components/GlobeRecorder.tsx:256-259 | each resolution's option value has at least two characters and no `-`, so it cannot be confused with the separator that follows it in the name |
| Parameters.DownloadName | components/GlobeRecorder.tsx:247 | the name starts with `india-from-space-` and ends with `s.webm` |
| Parameters.DownloadNameRoundTrip | components/GlobeRecorder.tsx:247 | parsing the download name gives back the resolution and the duration it was built from |
| Parameters.ParseMiddleOf | components/GlobeRecorder.tsx:247 | the text between prefix and suffix, `<label>-<duration>`, determines the resolution and the duration |
| Parameters.DownloadNameInjective | components/GlobeRecorder.tsx:247 | different (resolution, duration) pairs give different file names |
| Parameters.DefaultDownloadName | components/GlobeRecorder.tsx:247 | the default settings (1080p, 10 s) give `india-from-space-1080p-10s.webm` |
| Decimal.NatToString | components/GlobeRecorder.tsx:247 | the text is a non-empty run of digits; it has a leading zero only when the number is 0, whose text is `0` |
| Decimal.IntToString | components/GlobeRecorder.tsx:247 | the text is non-empty and starts with `-` exactly for negative numbers |
| Decimal.ParseInt | components/GlobeRecorder.tsx:247 | the parser accepts only non-empty text, and yields a negative number only after a leading `-` |
| Decimal.ParseNatToString | components/GlobeRecorder.tsx:247 | parsing the text of a natural number gives the number back |
| Decimal.ParseIntToString | components/GlobeRecorder.tsx:247 | parsing the text of an integer gives the integer back |
| Decimal.IntToStringInjective | components/GlobeRecorder.tsx:247 | different integers have different texts |
| AnimationPlan.Round | components/GlobeRecorder.tsx:229 | `Math.round(x)` is the integer r with r - 1/2 <= x < r + 1/2 |
| AnimationPlan.RoundMonotone | components/GlobeRecorder.tsx:229 | rounding preserves order |
| AnimationPlan.TotalFrames | components/GlobeRecorder.tsx:201 | the frame count is at least 1 and at least duration * fps; it equals duration * fps unless that product is below 1 |
| AnimationPlan.ClampedFrameCount | components/GlobeRecorder.tsx:201 | for clamped settings the frame count is exactly duration * fps and lies in [30, 1800]; the divisor `totalFrames - 1` is never zero |
| AnimationPlan.FrameCountExamples | components/GlobeRecorder.tsx:201 | 10 s at 30 fps is 300 frames; 3 s at 10 fps is 30; 30 s at 60 fps is 1800 |
| AnimationPlan.NormalizedTime | components/GlobeRecorder.tsx:216 | t is not a finite number exactly when the plan has one frame; otherwise t * (N - 1) = frame |
| AnimationPlan.TimeEndpoints | components/GlobeRecorder.tsx:216 | t is 0 at frame 0 and 1 at the last frame |
| AnimationPlan.TimeInUnitInterval | components/GlobeRecorder.tsx:216 | t is finite and in [0, 1] for every frame of the plan |
| AnimationPlan.TimeStrictlyIncreasing | components/GlobeRecorder.tsx:216 | t strictly increases with the frame |
| AnimationPlan.SingleFrameTimeIsNotFinite | components/GlobeRecorder.tsx:216 | a one-frame plan computes 0/0, which is not a finite number |
| AnimationPlan.EaseFixedPoints | components/GlobeRecorder.tsx:218 | ease(0) = 0, ease(1/2) = 1/2, ease(1) = 1 |
| AnimationPlan.Ease | components/GlobeRecorder.tsx:218 | ease maps [0, 1] into [0, 1] |
| AnimationPlan.CubeMonotone | components/GlobeRecorder.tsx:218 | the cube is non-negative and non-decreasing on non-negative reals |
| AnimationPlan.EaseMonotone | components/GlobeRecorder.tsx:218 | ease is non-decreasing on [0, 1], across its two branches |
| AnimationPlan.EaseSymmetric | components/GlobeRecorder.tsx:218 | ease(1 - t) = 1 - ease(t): the curve's two halves mirror each other |
| AnimationPlan.EasedAt | components/GlobeRecorder.tsx:216-218 | a frame's blend factor is missing (not finite) exactly when the plan has one frame |
| AnimationPlan.EasedEndpoints | components/GlobeRecorder.tsx:216-218 | the first frame blends by 0 (start orientation, start distance), the last frame by 1 (India centred, closest camera) |
| AnimationPlan.EasedInUnitInterval | components/GlobeRecorder.tsx:216-218 | every frame's blend factor is finite and in [0, 1] |
| AnimationPlan.EasedMonotone | components/GlobeRecorder.tsx:216-218 | blend factors never decrease from one frame to a later one |
| AnimationPlan.Progress | components/GlobeRecorder.tsx:229 | the published value p is the integer nearest to 100 * frame / N, a tie going up: (p - 1/2) * N <= 100 * frame < (p + 1/2) * N |
| AnimationPlan.ProgressBounds | components/GlobeRecorder.tsx:229 | the published percentage lies in [0, 100] |
| AnimationPlan.ProgressMonotone | components/GlobeRecorder.tsx:229 | the published percentage never decreases as the frame advances |
| AnimationPlan.ProgressAtStart | components/GlobeRecorder.tsx:229 | the first frame publishes 0 |
| AnimationPlan.LastFrameProgress | components/GlobeRecorder.tsx:229 | the last frame publishes 100 if and only if the plan has at least 200 frames |
| AnimationPlan.ProgressTraceMonotone | components/GlobeRecorder.tsx:229-237 | the sequence of percentages of one capture is non-decreasing and within [0, 100] |
| AnimationPlan.TracesAppend | components/GlobeRecorder.tsx:215-238 | one more frame extends the frame, blend and progress traces by exactly that frame's entries |
| Media.Flatten | components/GlobeRecorder.tsx:186 | the Blob's bytes are empty exactly when every part is empty |
| Media.FlattenAppend | components/GlobeRecorder.tsx:186 | adding one chunk to a Blob's parts appends exactly its bytes |
| Media.KeepNonEmpty | components/GlobeRecorder.tsx:182-184 | the kept chunks are among those that arrived, all of positive size, and no more of them |
| Media.KeepNonEmptyAppend | components/GlobeRecorder.tsx:182-184 | a newly arrived chunk is appended to the buffer exactly when its size is positive |
| Media.FlattenKeepNonEmpty | components/GlobeRecorder.tsx:182-186 | dropping empty chunks loses no bytes: the Blob holds everything delivered, in delivery order |
| Codec.FirstSupported | components/GlobeRecorder.tsx:172-178 | the chosen type is one of the candidates or the fallback |
| Codec.CascadeChoice | components/GlobeRecorder.tsx:172-178 | the cascade settles on one of `video/webm;codecs=vp9`, `video/webm;codecs=vp8` and `video/webm` |
| Codec.FirstSupportedIsFirst | components/GlobeRecorder.tsx:172-178 | the chosen type is a supported candidate that every earlier candidate loses to, or the fallback when none is supported |
| Codec.AcceptsIffAnySupported | components/GlobeRecorder.tsx:172-180 | `new MediaRecorder` refuses the chosen type exactly when none of vp9, vp8 and plain WebM is supported |
| Codec.ChooseMimeType | components/GlobeRecorder.tsx:172-178 | vp9 when supported, else vp8 when supported, else plain `video/webm`; equals the first-supported reference |
| CaptureState.TraceStart | components/GlobeRecorder.tsx:212 | a capture that has rendered nothing has empty frame, blend and progress traces |
| CaptureState.TraceStep | components/GlobeRecorder.tsx:215-238 | rendering frame k of a consistent trace gives the consistent trace of k + 1 frames |
| CaptureState.ResetIsConsistent | components/GlobeRecorder.tsx:151-178 | the state after the reset and before any recorder exists (no recorder, frame 0, empty buffer, 0%, no video) satisfies the invariant |
| CaptureState.LaunchedIsConsistent | components/GlobeRecorder.tsx:180-213 | the state just before the first frame (recorder started, recording, frame 0, empty buffer, 0%, no video) satisfies the invariant |
| CaptureState.StoppedIsConsistent | components/GlobeRecorder.tsx:185-190 | handling `stop` (URL of the chunks' Blob, not recording, 100%) keeps the invariant |
| Recorder.GlobeRecorder.constructor | components/GlobeRecorder.tsx:34-40 | initial state: 1080p, 10 s, 30 fps, not recording, no video, 0%, no error, no chunks |
| Recorder.GlobeRecorder.SetResolution | components/GlobeRecorder.tsx:256 | stores the chosen resolution and keeps the invariant |
| Recorder.GlobeRecorder.SetDuration | components/GlobeRecorder.tsx:270 | stores the clamped duration and keeps the invariant |
| Recorder.GlobeRecorder.SetFps | components/GlobeRecorder.tsx:281 | stores the clamped frame rate and keeps the invariant |
| Recorder.GlobeRecorder.Start | components/GlobeRecorder.tsx:150-241 | after the click: error and video cleared; recording; 0%; empty buffer. If the browser accepts the cascade's type: a plan of Size(resolution), that type and duration * fps frames, frame 0 rendered with blend 0, and the recorder started and not stopped. Otherwise: no recorder, nothing rendered, the old plan kept |
| Recorder.GlobeRecorder.Prepare | components/GlobeRecorder.tsx:151-178 | the state before `new MediaRecorder`: cleared error and video, 0%, recording, an empty buffer and trace, no recorder yet; returns the cascade's type |
| Recorder.GlobeRecorder.Launch | components/GlobeRecorder.tsx:180-213 | a constructed recorder: the plan of Size(resolution), the chosen type and duration * fps frames; the recorder started |
| Recorder.GlobeRecorder.StartOrReport | components/GlobeRecorder.tsx:150-241 | as `Start`, including its first-frame trace and empty arrivals when the type is accepted, except that a refused type leaves the component not recording, with the failure in `error`, so Generate is enabled again |
| Recorder.GlobeRecorder.CaptureOrReport | components/GlobeRecorder.tsx:150-241 | a whole capture under the corrected start: not recording afterwards; if the type is accepted, stopped at 100% with every planned frame rendered, no error, and a video holding exactly the delivered bytes; otherwise the failure reported in `error`, 0% and no video |
| Recorder.GlobeRecorder.HandleWhileStalled | components/GlobeRecorder.tsx:256-316 | once a refused type has left the component recording without a recorder, no sequence of setting changes and Download clicks clears the recording flag, sets an error or yields a video |
| Recorder.GlobeRecorder.Step | components/GlobeRecorder.tsx:215-238 | renders the current frame and records its blend; publishes round(100 * frame / N); advances the frame; stops the recorder exactly when that was the last frame; nothing else changes |
| Recorder.GlobeRecorder.StopRecording | components/GlobeRecorder.tsx:146-148 | `stop()` moves a recording recorder to stopping and leaves any other state alone; each call is counted |
| Recorder.GlobeRecorder.RunScheduledFrames | components/GlobeRecorder.tsx:232-237 | the chain of scheduled frames renders every frame 0..N-1 in order, publishes each frame's percentage, and leaves the recorder stopped by exactly one stop call; the error is untouched |
| Recorder.GlobeRecorder.OnDataAvailable | components/GlobeRecorder.tsx:182-184 | records the arrival; appends the chunk to the buffer if its size is positive, else leaves the buffer unchanged |
| Recorder.GlobeRecorder.OnStop | components/GlobeRecorder.tsx:185-190 | a URL to the Blob of the buffered chunks with the chosen MIME type; not recording; 100%; that Blob holds all bytes delivered |
| Recorder.GlobeRecorder.OnDownload | components/GlobeRecorder.tsx:243-249 | no link without a video; otherwise a link to the video named after the current resolution and duration |
| Recorder.GlobeRecorder.Capture | components/GlobeRecorder.tsx:150-241 | a whole capture: the error stays cleared. If the browser accepts the type: the single data delivery, then stopped, 100%, every planned frame rendered, and the video holding exactly the delivered bytes. Otherwise: still recording, no recorder, 0%, no video, nothing rendered |
| Recorder.GlobeRecorder.Complete | components/GlobeRecorder.tsx:182-238 | the events after a successful start: stopped, 100%, every planned frame rendered, the error untouched, and the video holding exactly the delivered bytes |
| Recorder.GlobeRecorder.Observations | components/GlobeRecorder.tsx:212-237 | in every reachable state: frames rendered in order; percentages non-decreasing within [0, 100]; blends in [0, 1], non-decreasing, 0 first and 1 last; at most one stop call, and only after the last frame |
| Recorder.GlobeRecorder.FinishedCapture | components/GlobeRecorder.tsx:185-190 | a finished capture rendered its whole plan and offers a video of all delivered bytes at 100% |
| Recorder.DefaultCapture | components/GlobeRecorder.tsx:150-249 | if the browser accepts the type, the default settings give 300 frames at 1920x1080, render frames 0..299, end at 100%, and offer `india-from-space-1080p-10s.webm` holding the recorded bytes; otherwise no link, and the component stays recording with no error |
| Recorder.StalledByUnsupportedType | components/GlobeRecorder.tsx:150-180 | a browser without WebM support: the first click leaves the component recording with no recorder, 0%, no video, no error and nothing rendered |

## Left out

- Scene setup, the idle rotation loop and the resize observer (lines 44-144): these are three.js scene management. The model has no scene.
- `latLonToVector3` and the quaternion slerp, axial tilt, camera lerp and `lookAt` (lines 14-21, 202-209, 220-226): these are floating-point geometry. Each frame is recorded only by its index and its blend factor.
- Renderer sizing (lines 164-167 and 191-197): the `setSize`, pixel-ratio and aspect updates at start and in `onstop` change only the canvas. The model keeps just the planned capture size.
- `canvas.captureStream(captureFps)` and the 12 Mbit/s bitrate (lines 169 and 180) are assumed to succeed. Of the ways `new MediaRecorder` can fail, only the rejection of an unsupported MIME type is modelled (see "## Findings").
- `a.click()` (line 248): the browser's download of the anchor is not modelled. `OnDownload` returns the anchor.
- When `new MediaRecorder` throws, `mediaRecorderRef` keeps pointing at the previous capture's recorder. That recorder is already inactive and delivers no further event, so the model records the state as having no recorder (`Absent`).
- `setTimeout` pacing of `1000 / captureFps` ms (line 234): time is not modelled. Each scheduled call is one `Step`. Other handlers may run between steps.
- Error reporting: the code only ever clears `error` (line 151). No path sets it, so the model of the code never does either. Only the corrected `StartOrReport` sets it.
- Non-integer inputs: the model's input handlers take integers only. In the code, `Number(e.target.value)` can be NaN, which passes through `Math.min`/`Math.max`. A fractional entry such as `7.5` also reaches the clamp, because `step={1}` only marks it invalid. Such an entry would give `Math.round(7.5 * 30)` frames and the name `india-from-space-1080p-7.5s.webm`. In the model the `Math.round` of line 201 is therefore the identity, and the download name never shows a fraction.
- JavaScript floating point: `frame / (totalFrames - 1)`, the easing and `Math.round` are computed on exact reals, and rounding error is not modelled. The one place where this changes a published value is a tie in line 229: in IEEE doubles the product can land just below the half. For example, 4 s at 10 fps gives N = 40, and at frame 23 `(23 / 40) * 100` is 57.49999999999999. JavaScript then publishes 57, where `AnimationPlan.Progress(23, 40)` is 58. The bounds, the monotonicity and `AnimationPlan.LastFrameProgress` are unaffected.
- Object URLs are never revoked by the code. An object URL is modelled as a handle to its Blob.
- Recorder.GlobeRecorder.Start: requires that no capture is running. The code does not check this itself; only the disabled Generate button (line 285) prevents a second start.
- Recorder.GlobeRecorder.Capture: assumes the recorder delivers its data in one `dataavailable` event before `stop`. That is the behaviour of a recorder started without a timeslice (line 213). `OnDataAvailable` itself handles any number of deliveries.
- `OnDownload` names the file after the resolution and duration current when the button is clicked, not those of the recorded capture (line 247). The model keeps this behaviour: changing a setting after a capture renames its download.

## Findings

| source | as written | input that shows it | evidently intended | confidence | as-written member | corrected member |
|---|---|---|---|---|---|---|
| components/GlobeRecorder.tsx:172-180 | the cascade falls back to `video/webm` without checking it, and `startRecording` does not catch the `NotSupportedError` that `new MediaRecorder` then throws; `isRecording` is already true (line 154), so the component shows "Rendering and recording (0%)" for good, with Generate disabled and no error | `MediaRecorder.isTypeSupported` false for all three WebM types | report the failure in `error` (displayed at line 311) and clear `isRecording`, so the user can retry | not executed | Recorder.StalledByUnsupportedType | Recorder.GlobeRecorder.StartOrReport |

`Recorder.GlobeRecorder.HandleWhileStalled` shows that nothing the user can
still do ends the stall. `Codec.AcceptsIffAnySupported` shows that the type
is refused exactly when none of the three types is supported.
`Recorder.GlobeRecorder.CaptureOrReport` carries the corrected start through
to a finished video. `Recorder.GlobeRecorder.Start`, `Capture` and
`DefaultCapture` model the code as written, including this branch.
