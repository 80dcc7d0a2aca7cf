/**
 * The state one capture of the globe component goes through: the
 * MediaRecorder's lifecycle, the constants the capture closures share, the
 * record of what the opaque events observed, and the invariant tying the
 * published React state to them.
 */
module CaptureState {
  import opened Wrappers
  import opened Media
  import opened Parameters
  import opened AnimationPlan

  /** Lifecycle of the MediaRecorder held in `mediaRecorderRef`. */
  datatype RecorderState =
    | Unused     // no capture has been started
    | Absent     // the latest click has created no recorder: `new MediaRecorder`
                 // (line 180) has not run yet, or it threw
    | Recording  // `recorder.start()` was called; frames are being rendered
    | Stopping   // `stop()` was called; the `stop` event has not arrived yet
    | Stopped    // the `stop` event was handled

  /** A recorder of the latest click was constructed and started. */
  predicate Started(r: RecorderState)
  {
    r == Recording || r == Stopping || r == Stopped
  }

  /**
   * The constants the closures of one `startRecording` call capture: the
   * capture size, the chosen MIME type and the frame count.
   */
  datatype Plan = Plan(size: Dimensions, mimeType: string, totalFrames: nat)

  /** Observations of the opaque events of the current capture, in order. */
  datatype Trace = Trace(
    rendered: seq<nat>,          // the frame each `renderFrame` call rendered
    blends: seq<Option<real>>,   // eased factor each rendered frame used
    published: seq<int>,         // each `setProgress` made by `renderFrame`
    arrived: seq<Chunk>,         // each `dataavailable` payload
    stopCalls: nat)              // calls of `stopRecording`

  /** The trace of a capture that has rendered frames 0 .. frame - 1. */
  ghost predicate TraceAgrees(t: Trace, frame: nat, totalFrames: nat)
  {
    && 1 <= totalFrames && frame <= totalFrames
    && t.rendered == Frames(frame)
    && t.blends == EaseTrace(frame, totalFrames)
    && t.published == ProgressTrace(frame, totalFrames)
  }

  lemma TraceStart(totalFrames: nat, arrived: seq<Chunk>, stopCalls: nat)
    requires totalFrames >= 1
    ensures TraceAgrees(Trace([], [], [], arrived, stopCalls), 0, totalFrames)
  {
  }

  /** Rendering the next frame extends each per-frame record by that frame's entry. */
  lemma TraceStep(t: Trace, frame: nat, totalFrames: nat)
    requires TraceAgrees(t, frame, totalFrames) && frame < totalFrames
    ensures TraceAgrees(t.(rendered := t.rendered + [frame],
                           blends := t.blends + [EasedAt(frame, totalFrames)],
                           published := t.published + [Progress(frame, totalFrames)]),
                        frame + 1, totalFrames)
  {
    TracesAppend(frame, totalFrames);
  }

  /**
   * The capture part of the component's invariant. A `renderFrame` call is
   * due exactly while the recorder is recording.
   */
  ghost predicate Consistent(recorder: RecorderState, plan: Plan, frame: nat, trace: Trace,
                             chunks: seq<Chunk>, isRecording: bool, progress: int,
                             videoUrl: Option<ObjectUrl>)
  {
    && TraceAgrees(trace, frame, plan.totalFrames)
    && (Started(recorder) ==> 30 <= plan.totalFrames <= 1800)
    && chunks == KeepNonEmpty(trace.arrived)
    && (recorder == Unused || recorder == Absent ==>
          frame == 0 && trace.arrived == [] && trace.stopCalls == 0 && progress == 0 && videoUrl == None)
    && (recorder == Recording ==> frame < plan.totalFrames && trace.stopCalls == 0)
    && (recorder == Stopping || recorder == Stopped ==> frame == plan.totalFrames && trace.stopCalls == 1)
    && (recorder == Recording || recorder == Stopping ==> isRecording)
    && (recorder == Unused || recorder == Stopped ==> !isRecording)
    && (isRecording ==>
          videoUrl == None && progress == (if frame == 0 then 0 else trace.published[frame - 1]))
    && (recorder == Stopped ==>
          progress == 100 && videoUrl == Some(ObjectUrl(Blob(Flatten(chunks), plan.mimeType))))
  }

  /**
   * The state `startRecording` leaves once it has reset the published state
   * and emptied the buffer, before any recorder exists, keeps the invariant.
   */
  lemma ResetIsConsistent(plan: Plan, isRecording: bool)
    requires plan.totalFrames >= 1
    ensures Consistent(Absent, plan, 0, Trace([], [], [], [], 0), [], isRecording, 0, None)
  {
    TraceStart(plan.totalFrames, [], 0);
  }

  /** The state `startRecording` leaves just before its first frame keeps the invariant. */
  lemma LaunchedIsConsistent(plan: Plan)
    requires 30 <= plan.totalFrames <= 1800
    ensures Consistent(Recording, plan, 0, Trace([], [], [], [], 0), [], true, 0, None)
  {
    TraceStart(plan.totalFrames, [], 0);
  }

  /** Handling the `stop` event of a stopping recorder keeps the invariant. */
  lemma StoppedIsConsistent(plan: Plan, frame: nat, trace: Trace, chunks: seq<Chunk>, progress: int)
    requires Consistent(Stopping, plan, frame, trace, chunks, true, progress, None)
    ensures Consistent(Stopped, plan, frame, trace, chunks, false, 100,
                       Some(ObjectUrl(Blob(Flatten(chunks), plan.mimeType))))
  {
  }
}
