/**
 * `LocalVideoFileRecorder`: records the default camera to "output.mp4" as H.264 at 30 fps,
 * stopping at the first frame that is missing, has the wrong size or fails to record, and
 * finalising the file with an explicit stop that the `finally` block does not repeat.
 */
module FileRecorder {
  import opened Wrappers
  import opened Media

  const VideoBitrate: int := 2000000
  const FrameRate: real := 30.0

  /** The recorder for the negotiated resolution: MP4, H.264 in YUV420P, 2 Mbps, 30 fps, no audio. */
  function Settings(res: Resolution): (s: SinkSettings)
    ensures s.imageWidth == res.width && s.imageHeight == res.height && s.audioChannels == 0
    ensures s.format == Some("mp4") && s.videoCodec == Some(CodecIdH264) && s.pixelFormat == Some(PixFmtYuv420p)
    ensures s.videoBitrate == Some(2000000) && s.frameRate == Some(30.0)
    ensures s.gopSize.None? && s.audioCodec.None? && s.sampleRate.None? && s.audioBitrate.None?
  {
    NewRecorder(res.width, res.height, 0).(
      videoCodec := Some(CodecIdH264),
      format := Some("mp4"),
      videoBitrate := Some(VideoBitrate),
      pixelFormat := Some(PixFmtYuv420p),
      frameRate := Some(FrameRate))
  }

  /** Recording happens only with a valid resolution: the camera's own, else the 640x480 retry. */
  function Setup(first: Resolution, retry: Option<Resolution>): (r: Option<SinkSettings>)
    ensures r.None? <==> NegotiateResolution(first, retry).None?
    ensures r.Some? ==> r.value.imageWidth > 0 && r.value.imageHeight > 0
    ensures r.Some? && ValidResolution(first) ==> r.value.imageWidth == first.width && r.value.imageHeight == first.height
    ensures r.Some? && !ValidResolution(first) ==> Some(Resolution(r.value.imageWidth, r.value.imageHeight)) == retry
    ensures r.Some? ==> NegotiateResolution(first, retry).Some? && r.value == Settings(NegotiateResolution(first, retry).value)
  {
    match NegotiateResolution(first, retry)
    case None => None
    case Some(res) => Some(Settings(res))
  }

  /** A frame of the size the recorder was opened with. */
  predicate FrameMatches(f: Frame, res: Resolution) {
    f.imageWidth == res.width && f.imageHeight == res.height
  }

  /** A grab the loop records and counts: the right size, and `record` returns normally. */
  predicate RecordsCleanly(g: Grab, res: Resolution) {
    FrameMatches(g.frame, res) && g.recordSucceeds
  }

  /** How many grabs from the start record cleanly, up to the first that does not. */
  function GoodRun(grabs: seq<Grab>, res: Resolution): (n: nat)
    ensures n <= |grabs|
    ensures forall k :: 0 <= k < n ==> RecordsCleanly(grabs[k], res)
    ensures n < |grabs| ==> !RecordsCleanly(grabs[n], res)
  {
    if grabs == [] || !RecordsCleanly(grabs[0], res) then 0
    else
      var rest := GoodRun(grabs[1..], res);
      assert forall k :: 1 <= k < 1 + rest ==> grabs[k] == grabs[1..][k - 1];
      1 + rest
  }

  /** Why the recording loop ended. */
  datatype LoopExit =
    | CanvasClosed        // the preview stopped showing
    | NullFrame           // `grab()` returned null
    | DimensionMismatch   // a frame of another size arrived
    | RecordFailed        // `record` threw

  /**
   * The recording loop: while the preview shows, grab; stop on a null frame or a frame of another
   * size; otherwise set the timestamp `frameCount * 33333`, record, stop if that threw, and count
   * the frame. `showingReads` is how many checks of the preview see it showing.
   */
  method RecordLoop(grabs: seq<Grab>, showingReads: nat, res: Resolution)
    returns (calls: seq<RecordCall>, frameCount: nat, exit: LoopExit)
    ensures frameCount == Min(showingReads, GoodRun(grabs, res))
    ensures |calls| == frameCount + (if exit.RecordFailed? then 1 else 0) && |calls| <= |grabs|
    ensures forall k :: 0 <= k < |calls| ==> calls[k] == RecordCall(grabs[k].frame, Some(FrameTimestamp(k)))
    ensures exit.CanvasClosed? <==> frameCount == showingReads
    ensures exit.NullFrame? <==> frameCount < showingReads && frameCount == |grabs|
    ensures exit.DimensionMismatch? <==>
              frameCount < showingReads && frameCount < |grabs| && !FrameMatches(grabs[frameCount].frame, res)
    ensures exit.RecordFailed? <==>
              frameCount < showingReads && frameCount < |grabs| && FrameMatches(grabs[frameCount].frame, res) &&
              !grabs[frameCount].recordSucceeds
  {
    calls := [];
    frameCount := 0;
    while true
      invariant frameCount <= showingReads && frameCount <= GoodRun(grabs, res)
      invariant |calls| == frameCount
      invariant forall k :: 0 <= k < frameCount ==> calls[k] == RecordCall(grabs[k].frame, Some(FrameTimestamp(k)))
      decreases showingReads - frameCount
    {
      if frameCount == showingReads {
        return calls, frameCount, CanvasClosed;
      }
      if frameCount == |grabs| {
        return calls, frameCount, NullFrame;
      }
      var g := grabs[frameCount];
      if !FrameMatches(g.frame, res) {
        return calls, frameCount, DimensionMismatch;
      }
      calls := calls + [RecordCall(g.frame, Some(FrameTimestamp(frameCount)))];
      if !g.recordSucceeds {
        return calls, frameCount, RecordFailed;
      }
      frameCount := frameCount + 1;
    }
  }

  /**
   * The recorder reference and the calls made on the recorder between its creation and the end of
   * `finally`. `recorderSet` is `recorderRef.get() != null`.
   */
  class RecorderSession {
    var recorderSet: bool
    var startFailed: bool
    var latchCount: nat
    var stopCalls: nat
    var releaseCalls: nat

    /** Just after `recorderRef.set(recorder)`: start not attempted, the latch at 1. */
    constructor ()
      ensures recorderSet && !startFailed && latchCount == 1 && stopCalls == 0 && releaseCalls == 0
    {
      recorderSet, startFailed, latchCount, stopCalls, releaseCalls := true, false, 1, 0, 0;
    }

    /** The start thread and the bounded wait for it, as they ended. */
    method AwaitStart(outcome: StartOutcome)
      modifies this
      ensures startFailed == StartFailed(outcome) && latchCount == LatchCount(outcome)
      ensures recorderSet == old(recorderSet) && stopCalls == old(stopCalls) && releaseCalls == old(releaseCalls)
    {
      startFailed := StartFailed(outcome);
      latchCount := LatchCount(outcome);
    }

    /**
     * The explicit stop after the loop: when the start-failure flag is clear, stop and release, and
     * clear the reference only when both returned.
     */
    method ExplicitStop(close: CloseOutcome)
      modifies this
      ensures stopCalls == old(stopCalls) + (if !startFailed then 1 else 0)
      ensures releaseCalls == old(releaseCalls) + (if !startFailed && !close.StopThrows? then 1 else 0)
      ensures recorderSet == (old(recorderSet) && (startFailed || !close.Closed?))
      ensures startFailed == old(startFailed) && latchCount == old(latchCount)
    {
      if !startFailed {
        stopCalls := stopCalls + 1;
        if !close.StopThrows? {
          releaseCalls := releaseCalls + 1;
          if close.Closed? {
            recorderSet := false;
          }
        }
      }
    }

    /** The `finally` block: stop and release when the reference is still set, the failure flag is clear and the latch is 0. */
    method FinallyRelease(close: CloseOutcome)
      modifies this
      ensures var enters := old(recorderSet) && !startFailed && latchCount == 0;
              stopCalls == old(stopCalls) + (if enters then 1 else 0) &&
              releaseCalls == old(releaseCalls) + (if enters && !close.StopThrows? then 1 else 0)
      ensures recorderSet == old(recorderSet) && startFailed == old(startFailed) && latchCount == old(latchCount)
    {
      if recorderSet {
        if !startFailed && latchCount == 0 {
          stopCalls := stopCalls + 1;
          if !close.StopThrows? {
            releaseCalls := releaseCalls + 1;
          }
        }
      }
    }
  }

  /**
   * From the recorder's creation to the end of `finally`. A start that timed out or threw
   * `FrameRecorder.Exception` sets the failure flag, returns before the loop and is never stopped; a
   * start that threw an unchecked exception leaves the flag clear, so the program records on and
   * stops that recorder like a started one. Otherwise `finished` says whether the loop ended normally
   * (so the explicit stop runs) rather than by an exception; the recorder is stopped once, and a
   * second time only when the explicit stop or release threw.
   */
  method RecorderTeardown(start: StartOutcome, finished: bool, explicitClose: CloseOutcome, finalClose: CloseOutcome)
    returns (stopCalls: nat, releaseCalls: nat)
    ensures StartFailed(start) ==> stopCalls == 0 && releaseCalls == 0
    ensures !StartFailed(start) ==> 1 <= stopCalls <= 2
    ensures start.StartThrewUnchecked? ==> stopCalls >= 1
    ensures stopCalls == 2 <==> !StartFailed(start) && finished && !explicitClose.Closed?
    ensures !StartFailed(start) && finished && explicitClose.Closed? ==> stopCalls == 1 && releaseCalls == 1
    ensures releaseCalls <= stopCalls
  {
    var session := new RecorderSession();
    session.AwaitStart(start);
    if !StartFailed(start) && finished {
      session.ExplicitStop(explicitClose);
    }
    session.FinallyRelease(finalClose);
    stopCalls, releaseCalls := session.stopCalls, session.releaseCalls;
  }
}
