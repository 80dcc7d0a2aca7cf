/**
 * The capture controller of the globe component: the React state and refs
 * that `startRecording`, `renderFrame`, `ondataavailable` and `onstop`
 * update, as one object whose methods are those callbacks.
 *
 * Rendering (the slerp of the globe's orientation, the axial tilt, the camera
 * dolly and `renderer.render`) is an opaque event; the model records, per
 * frame, the frame index rendered and the eased blend factor it used.
 */
module Recorder {
  import opened Wrappers
  import opened Media
  import opened Parameters
  import opened AnimationPlan
  import opened CaptureState
  import Codec

  class GlobeRecorder {
    // React state of the component
    var resolution: Resolution
    var durationSec: int
    var fps: int
    var isRecording: bool
    var videoUrl: Option<ObjectUrl>
    var progress: int
    var error: Option<string>

    // `mediaRecorderRef` and `recordedChunksRef`
    var recorder: RecorderState
    var chunks: seq<Chunk>

    // the closure state of the latest `startRecording` call
    var plan: Plan
    var frame: nat

    ghost var trace: Trace

    /** The invariant of the component. */
    ghost predicate Valid()
      reads this
    {
      && SettingsInRange(durationSec, fps)
      && Consistent(recorder, plan, frame, trace, chunks, isRecording, progress, videoUrl)
    }

    /** The component's initial state (lines 32-40). */
    constructor ()
      ensures Valid()
      ensures resolution == P1080 && durationSec == 10 && fps == 30
      ensures !isRecording && videoUrl == None && progress == 0 && error == None
      ensures recorder == Unused && chunks == []
    {
      resolution, durationSec, fps := P1080, 10, 30;
      isRecording, videoUrl, progress, error := false, None, 0, None;
      recorder, chunks := Unused, [];
      plan, frame := Plan(Size(P1080), "", 1), 0;
      trace := Trace([], [], [], [], 0);
    }

    /** The resolution select's `onChange` (line 256). */
    method SetResolution(r: Resolution)
      requires Valid()
      modifies this`resolution
      ensures Valid() && resolution == r
    {
      resolution := r;
    }

    /** The duration input's `onChange` (line 270). */
    method SetDuration(input: int)
      requires Valid()
      modifies this`durationSec
      ensures Valid() && durationSec == ClampDuration(input)
    {
      durationSec := ClampDuration(input);
    }

    /** The frame-rate input's `onChange` (line 281). */
    method SetFps(input: int)
      requires Valid()
      modifies this`fps
      ensures Valid() && fps == ClampFps(input)
    {
      fps := ClampFps(input);
    }

    /**
     * `startRecording` (lines 150-241): reset the published state and choose
     * the MIME type, then construct the recorder and render the first frame
     * (lines 180-240). When the browser does not support the chosen type the
     * constructor throws (line 180) and the rest of the call never runs: the
     * component stays marked recording with no recorder and no frame due.
     * The Generate button is disabled while recording (line 285), so a
     * capture starts only when none is running.
     */
    method Start(isTypeSupported: string -> bool)
      requires Valid() && !isRecording
      modifies this
      ensures Valid()
      ensures isRecording && error == None && videoUrl == None && progress == 0
      ensures resolution == old(resolution) && durationSec == old(durationSec) && fps == old(fps)
      ensures chunks == [] && trace.arrived == [] && trace.stopCalls == 0
      ensures Codec.Accepts(isTypeSupported) ==>
        && plan == Plan(Size(resolution), Codec.CascadeChoice(isTypeSupported), durationSec * fps)
        && frame == 1 && trace.rendered == [0] && trace.blends == [Some(0.0)]
        && trace.published == [0] && recorder == Recording
      ensures !Codec.Accepts(isTypeSupported) ==>
        recorder == Absent && frame == 0 && trace.rendered == [] && plan == old(plan)
    {
      var mimeType := Prepare(isTypeSupported);
      if isTypeSupported(mimeType) {
        Launch(mimeType);
        Step();
        ProgressAtStart(plan.totalFrames);
        EasedEndpoints(plan.totalFrames);
      }
    }

    /**
     * The part of `startRecording` before the recorder exists (lines 151-178):
     * clear the error and the previous video, publish 0%, mark the component
     * recording, empty the chunk buffer and choose the MIME type.
     */
    method Prepare(isTypeSupported: string -> bool) returns (mimeType: string)
      requires Valid()
      modifies this
      ensures Valid()
      ensures isRecording && error == None && videoUrl == None && progress == 0
      ensures resolution == old(resolution) && durationSec == old(durationSec) && fps == old(fps)
      ensures chunks == [] && frame == 0 && trace == Trace([], [], [], [], 0)
      ensures recorder == Absent && plan == old(plan)
      ensures mimeType == Codec.CascadeChoice(isTypeSupported)
    {
      mimeType := Codec.ChooseMimeType(isTypeSupported);
      ResetIsConsistent(plan, true);
      error, videoUrl, progress, isRecording := None, None, 0, true;
      chunks, frame, recorder := [], 0, Absent;
      trace := Trace([], [], [], [], 0);
    }

    /**
     * The part of `startRecording` from a successful `new MediaRecorder` to
     * `recorder.start()` (lines 180-213): fix the capture size, plan the frames
     * and start the recorder.
     */
    method Launch(mimeType: string)
      requires Valid() && recorder == Absent && isRecording
      requires chunks == [] && frame == 0 && trace == Trace([], [], [], [], 0)
      modifies this`plan, this`recorder
      ensures Valid()
      ensures plan == Plan(Size(resolution), mimeType, durationSec * fps)
      ensures recorder == Recording
    {
      var totalFrames := TotalFrames(durationSec, fps);
      ClampedFrameCount(durationSec, fps);
      var p := Plan(Size(resolution), mimeType, totalFrames);
      LaunchedIsConsistent(p);
      plan, recorder := p, Recording;
    }

    /**
     * `startRecording` as evidently intended: a constructor that refuses the
     * type reports its message in `error` (displayed at line 311) and clears
     * the recording flag, so the Generate button is enabled again.
     */
    method StartOrReport(isTypeSupported: string -> bool, failure: string)
      requires Valid() && !isRecording
      modifies this
      ensures Valid()
      ensures resolution == old(resolution) && durationSec == old(durationSec) && fps == old(fps)
      ensures videoUrl == None && progress == 0 && chunks == []
      ensures Codec.Accepts(isTypeSupported) ==>
        && isRecording && error == None && recorder == Recording && frame == 1
        && plan == Plan(Size(resolution), Codec.CascadeChoice(isTypeSupported), durationSec * fps)
        && trace.arrived == [] && trace.stopCalls == 0 && trace.rendered == [0]
        && trace.blends == [Some(0.0)] && trace.published == [0]
      ensures !Codec.Accepts(isTypeSupported) ==>
        !isRecording && error == Some(failure) && recorder == Absent && trace.rendered == []
    {
      Start(isTypeSupported);
      if recorder == Absent {
        error, isRecording := Some(failure), false;
      }
    }

    /**
     * A whole capture under the corrected start: a video holding exactly the
     * delivered bytes when the type is accepted, a reported failure otherwise.
     */
    method CaptureOrReport(isTypeSupported: string -> bool, failure: string, data: Chunk)
      requires Valid() && !isRecording
      modifies this
      ensures Valid() && !isRecording
      ensures resolution == old(resolution) && durationSec == old(durationSec) && fps == old(fps)
      ensures Codec.Accepts(isTypeSupported) ==>
        && recorder == Stopped && progress == 100 && error == None
        && plan == Plan(Size(resolution), Codec.CascadeChoice(isTypeSupported), durationSec * fps)
        && trace.rendered == Frames(plan.totalFrames)
        && videoUrl == Some(ObjectUrl(Blob(data, plan.mimeType)))
      ensures !Codec.Accepts(isTypeSupported) ==>
        error == Some(failure) && videoUrl == None && progress == 0 && trace.rendered == []
    {
      StartOrReport(isTypeSupported, failure);
      if recorder == Recording {
        Complete(data);
      }
    }

    /**
     * A component that a refused type has left recording with no recorder
     * stays so whatever the user does: the Generate button is disabled, so
     * only the settings and the Download button remain, and none of them
     * clears the recording flag or yields a video.
     */
    method HandleWhileStalled(events: seq<UserEvent>)
      requires Valid() && recorder == Absent && isRecording
      modifies this
      ensures Valid() && recorder == Absent && isRecording
      ensures error == old(error) && videoUrl == None && progress == 0 && trace.rendered == []
    {
      var i := 0;
      while i < |events|
        invariant Valid() && recorder == Absent && isRecording && error == old(error)
      {
        match events[i] {
          case ChooseResolution(r) => SetResolution(r);
          case EnterDuration(n) => SetDuration(n);
          case EnterFps(n) => SetFps(n);
          case ClickDownload =>
            var link := OnDownload();
            assert link.None?;
        }
        i := i + 1;
      }
    }

    /**
     * One `renderFrame` call (lines 215-238): blend by the eased time of the
     * current frame, render it, publish its progress, advance the frame and
     * either schedule the next call or, after the last frame, stop.
     */
    method Step()
      requires Valid() && recorder == Recording
      modifies this
      ensures Valid()
      ensures frame == old(frame) + 1
      ensures trace.rendered == old(trace.rendered) + [old(frame)]
      ensures trace.blends == old(trace.blends) + [EasedAt(old(frame), plan.totalFrames)]
      ensures trace.published == old(trace.published) + [Progress(old(frame), plan.totalFrames)]
      ensures progress == Progress(old(frame), plan.totalFrames)
      ensures recorder == (if frame < plan.totalFrames then Recording else Stopping)
      ensures trace.stopCalls == (if frame < plan.totalFrames then 0 else 1)
      ensures plan == old(plan) && chunks == old(chunks) && trace.arrived == old(trace.arrived)
      ensures isRecording == old(isRecording) && videoUrl == old(videoUrl) && error == old(error)
      ensures resolution == old(resolution) && durationSec == old(durationSec) && fps == old(fps)
    {
      var eased := EasedAt(frame, plan.totalFrames);
      var p := Progress(frame, plan.totalFrames);
      TraceStep(trace, frame, plan.totalFrames);
      trace := trace.(rendered := trace.rendered + [frame],
                      blends := trace.blends + [eased],
                      published := trace.published + [p]);
      progress := p;
      frame := frame + 1;
      if frame == plan.totalFrames {
        StopRecording();
      }
    }

    /** `stopRecording` (lines 146-148): `stop()` does nothing unless recording. */
    method StopRecording()
      modifies this`recorder, this`trace
      ensures recorder == (if old(recorder) == Recording then Stopping else old(recorder))
      ensures trace == old(trace).(stopCalls := old(trace).stopCalls + 1)
    {
      if recorder == Recording {
        recorder := Stopping;
      }
      trace := trace.(stopCalls := trace.stopCalls + 1);
    }

    /**
     * The event loop firing each scheduled `renderFrame` in turn until the
     * chain ends, with no other event in between.
     */
    method RunScheduledFrames()
      requires Valid() && recorder == Recording
      modifies this
      ensures Valid()
      ensures frame == plan.totalFrames && plan == old(plan)
      ensures recorder == Stopping && trace.stopCalls == 1
      ensures trace.rendered == Frames(plan.totalFrames)
      ensures trace.published == ProgressTrace(plan.totalFrames, plan.totalFrames)
      ensures progress == Progress(plan.totalFrames - 1, plan.totalFrames)
      ensures chunks == old(chunks) && trace.arrived == old(trace.arrived)
      ensures isRecording && videoUrl == None && error == old(error)
      ensures resolution == old(resolution) && durationSec == old(durationSec) && fps == old(fps)
    {
      while recorder == Recording
        invariant Valid()
        invariant recorder == Recording || recorder == Stopping
        invariant plan == old(plan) && chunks == old(chunks) && trace.arrived == old(trace.arrived)
        invariant error == old(error)
        invariant resolution == old(resolution) && durationSec == old(durationSec) && fps == old(fps)
        decreases plan.totalFrames - frame
      {
        Step();
      }
    }

    /** `recorder.ondataavailable` (lines 182-184): keep chunks of positive size. */
    method OnDataAvailable(data: Chunk)
      requires Valid() && (recorder == Recording || recorder == Stopping)
      modifies this`chunks, this`trace
      ensures Valid()
      ensures trace == old(trace).(arrived := old(trace).arrived + [data])
      ensures chunks == if |data| > 0 then old(chunks) + [data] else old(chunks)
      ensures resolution == old(resolution) && durationSec == old(durationSec) && fps == old(fps)
      ensures recorder == old(recorder) && plan == old(plan) && error == old(error)
    {
      KeepNonEmptyAppend(trace.arrived, data);
      if |data| > 0 {
        chunks := chunks + [data];
      }
      trace := trace.(arrived := trace.arrived + [data]);
    }

    /**
     * `recorder.onstop` (lines 185-198): package the chunks into a Blob of the
     * chosen type, publish its URL, clear the recording flag and publish 100%.
     */
    method OnStop()
      requires Valid() && recorder == Stopping
      modifies this`videoUrl, this`isRecording, this`progress, this`recorder
      ensures Valid()
      ensures recorder == Stopped && !isRecording && progress == 100
      ensures videoUrl == Some(ObjectUrl(Blob(Flatten(chunks), plan.mimeType)))
      ensures Flatten(chunks) == Flatten(trace.arrived)
      ensures resolution == old(resolution) && durationSec == old(durationSec) && fps == old(fps)
      ensures plan == old(plan) && trace == old(trace) && error == old(error)
    {
      StoppedIsConsistent(plan, frame, trace, chunks, progress);
      FlattenKeepNonEmpty(trace.arrived);
      videoUrl, isRecording, progress, recorder :=
        Some(ObjectUrl(Blob(Flatten(chunks), plan.mimeType))), false, 100, Stopped;
    }

    /**
     * `onDownload` (lines 243-249): nothing without a video; otherwise an
     * anchor to the video named after the current resolution and duration.
     */
    method OnDownload() returns (link: Option<Anchor<ObjectUrl>>)
      ensures link.None? <==> videoUrl.None?
      ensures link.Some? ==> link.value.href == videoUrl.value
      ensures link.Some? ==> link.value.download == DownloadName(resolution, durationSec)
    {
      if videoUrl.None? {
        return None;
      }
      link := Some(Anchor(videoUrl.value, DownloadName(resolution, durationSec)));
    }

    /**
     * One whole capture as the event loop runs it: the Generate click and,
     * when the recorder was constructed, every scheduled frame, the single
     * `dataavailable` a recorder started without a timeslice (line 213)
     * delivers on `stop`, and the `stop` event.
     */
    method Capture(isTypeSupported: string -> bool, data: Chunk)
      requires Valid() && !isRecording
      modifies this
      ensures Valid() && error == None
      ensures resolution == old(resolution) && durationSec == old(durationSec) && fps == old(fps)
      ensures Codec.Accepts(isTypeSupported) ==>
        && recorder == Stopped && !isRecording && progress == 100
        && plan == Plan(Size(resolution), Codec.CascadeChoice(isTypeSupported), durationSec * fps)
        && trace.rendered == Frames(plan.totalFrames) && trace.arrived == [data]
        && videoUrl == Some(ObjectUrl(Blob(data, plan.mimeType)))
      ensures !Codec.Accepts(isTypeSupported) ==>
        recorder == Absent && isRecording && progress == 0 && videoUrl == None && trace.rendered == []
    {
      Start(isTypeSupported);
      if recorder == Recording {
        Complete(data);
      }
    }

    /**
     * The events of a capture after the click that constructed its recorder:
     * every scheduled frame, the recorder's one `dataavailable` and its `stop`.
     */
    method Complete(data: Chunk)
      requires Valid() && recorder == Recording && chunks == [] && trace.arrived == []
      modifies this
      ensures Valid() && recorder == Stopped && !isRecording && progress == 100
      ensures plan == old(plan) && error == old(error)
      ensures resolution == old(resolution) && durationSec == old(durationSec) && fps == old(fps)
      ensures trace.rendered == Frames(plan.totalFrames) && trace.arrived == [data]
      ensures videoUrl == Some(ObjectUrl(Blob(data, plan.mimeType)))
    {
      RunScheduledFrames();
      OnDataAvailable(data);
      OnStop();
      assert Flatten([data]) == data by {
        assert [data][..0] == [];
      }
    }

    /**
     * What any reachable state says about the capture so far: the frames
     * rendered are 0, 1, ... in order, each blended by a factor in [0,1] that
     * starts at 0, never decreases and reaches 1 on the last frame; the
     * published percentages never decrease and stay within [0,100]; stop was
     * requested at most once, and only after the last frame.
     */
    lemma Observations()
      requires Valid()
      ensures forall i :: 0 <= i < |trace.rendered| ==> trace.rendered[i] == i
      ensures forall i, j :: 0 <= i <= j < |trace.published| ==>
        0 <= trace.published[i] <= trace.published[j] <= 100
      ensures Started(recorder) ==> forall i :: 0 <= i < |trace.blends| ==>
        trace.blends[i].Some? && 0.0 <= trace.blends[i].value <= 1.0
      ensures Started(recorder) ==> forall i, j :: 0 <= i <= j < |trace.blends| ==>
        trace.blends[i].value <= trace.blends[j].value
      ensures Started(recorder) && frame >= 1 ==> trace.blends[0] == Some(0.0)
      ensures Started(recorder) && frame == plan.totalFrames ==>
        trace.blends[frame - 1] == Some(1.0)
      ensures trace.stopCalls <= 1
      ensures trace.stopCalls == 1 ==> frame == plan.totalFrames && recorder != Recording
    {
      var t, n := trace, plan.totalFrames;
      ProgressTraceMonotone(frame, n);
      if Started(recorder) {
        EasedEndpoints(n);
        forall i | 0 <= i < |t.blends|
          ensures t.blends[i].Some? && 0.0 <= t.blends[i].value <= 1.0
        {
          EasedInUnitInterval(i, n);
        }
        forall i, j | 0 <= i <= j < |t.blends|
          ensures t.blends[i].value <= t.blends[j].value
        {
          EasedInUnitInterval(i, n);
          EasedInUnitInterval(j, n);
          EasedMonotone(i, j, n);
        }
      }
    }

    /**
     * A finished capture rendered every frame of its plan and offers a WebM
     * video holding all the bytes the recorder delivered, in order.
     */
    lemma FinishedCapture()
      requires Valid() && recorder == Stopped
      ensures trace.rendered == Frames(plan.totalFrames)
      ensures |trace.published| == plan.totalFrames
      ensures progress == 100 && !isRecording
      ensures videoUrl == Some(ObjectUrl(Blob(Flatten(trace.arrived), plan.mimeType)))
    {
      FlattenKeepNonEmpty(trace.arrived);
    }
  }

  /** What the user can do while a capture is running: the Generate button is disabled. */
  datatype UserEvent = ChooseResolution(r: Resolution) | EnterDuration(n: int) | EnterFps(n: int) | ClickDownload

  /**
   * The default capture: 1080p, 10 s at 30 fps renders 300 frames at
   * 1920x1080, ends at 100% and is offered under a name holding "1080p" and
   * "10s"; when the browser supports none of the WebM types it never ends.
   */
  method DefaultCapture(isTypeSupported: string -> bool, data: Chunk)
    returns (g: GlobeRecorder, link: Option<Anchor<ObjectUrl>>)
    ensures Codec.Accepts(isTypeSupported) ==>
      && link.Some?
      && link.value.download == "india-from-space-1080p-10s.webm"
      && link.value.href.target.bytes == data
      && g.plan.totalFrames == 300 && g.plan.size == Dimensions(1920, 1080)
      && g.progress == 100 && g.trace.rendered == Frames(300)
    ensures !Codec.Accepts(isTypeSupported) ==> link.None? && g.isRecording && g.error == None
  {
    g := new GlobeRecorder();
    g.Capture(isTypeSupported, data);
    DefaultDownloadName();
    link := g.OnDownload();
  }

  /**
   * A browser without WebM support: the first Generate click leaves the
   * component recording for good, showing 0% and no error.
   */
  method StalledByUnsupportedType() returns (g: GlobeRecorder)
    ensures g.Valid() && g.recorder == Absent && g.isRecording
    ensures g.error == None && g.videoUrl == None && g.progress == 0 && g.trace.rendered == []
  {
    g := new GlobeRecorder();
    g.Start((t: string) => false);
  }
}
