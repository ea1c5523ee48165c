/**
 * The RTSP-to-HLS converter server (`RTSPHlsConverterServer`): it configures an HLS recorder from
 * what the RTSP grabber detects, preferring H.264 video and AAC audio (re-encoding otherwise),
 * copies frames until the source ends or the server stops, and tears both handles down on shutdown.
 */
module HlsConverter {
  import opened Wrappers
  import opened Media

  const ReencodeFrameRate: real := 30.0

  /** The window of detected frame rates the converter trusts. */
  predicate SaneFrameRate(fr: real) {
    0.0 < fr < 200.0
  }

  /** HLS players want H.264: any other source video codec is re-encoded. */
  predicate ReencodesVideo(src: SourceInfo) {
    src.videoCodec != CodecIdH264
  }

  /** Audio present in another codec than AAC is re-encoded. */
  predicate ReencodesAudio(src: SourceInfo) {
    src.audioChannels > 0 && src.audioCodec != CodecIdAac
  }

  /** The recorder settings `startRtspToHlsConversion` derives from the grabber's source parameters. */
  function SinkFor(src: SourceInfo): (r: SinkSettings)
    ensures r.format == Some("hls") && r.imageWidth == src.imageWidth && r.imageHeight == src.imageHeight
    // video: always H.264; pixel format and bitrate are set exactly when re-encoding
    ensures r.videoCodec == Some(CodecIdH264)
    ensures r.pixelFormat.Some? <==> ReencodesVideo(src)
    ensures r.pixelFormat.Some? ==> r.pixelFormat.value == PixFmtYuv420p
    ensures r.videoBitrate.Some? <==> ReencodesVideo(src)
    ensures r.videoBitrate.Some? ==> r.videoBitrate.value > 0
    ensures r.videoBitrate.Some? && src.videoBitrate > 0 ==> r.videoBitrate.value == src.videoBitrate
    ensures r.videoBitrate.Some? && src.videoBitrate <= 0 ==> r.videoBitrate.value == DefaultVideoBitrate
    // frame rate: the source's when sane, 30 when insane and re-encoding, otherwise left alone
    ensures r.frameRate.Some? ==> SaneFrameRate(r.frameRate.value)
    ensures SaneFrameRate(src.frameRate) ==> r.frameRate == Some(src.frameRate)
    ensures !SaneFrameRate(src.frameRate) && r.frameRate.Some? ==> r.frameRate.value == ReencodeFrameRate
    ensures r.frameRate.None? <==> !SaneFrameRate(src.frameRate) && !ReencodesVideo(src)
    ensures r.gopSize.None?
    // audio: AAC with the source's channels; bitrate only when re-encoding, sample rate only when known
    ensures src.audioChannels > 0 ==> r.audioCodec == Some(CodecIdAac) && r.audioChannels == src.audioChannels
    ensures r.sampleRate.Some? <==> src.audioChannels > 0 && src.sampleRate > 0
    ensures r.sampleRate.Some? ==> r.sampleRate.value == src.sampleRate
    ensures r.audioBitrate.Some? <==> ReencodesAudio(src)
    ensures r.audioBitrate.Some? ==> r.audioBitrate.value > 0
    ensures r.audioBitrate.Some? && src.audioBitrate > 0 ==> r.audioBitrate.value == src.audioBitrate
    ensures r.audioBitrate.Some? && src.audioBitrate <= 0 ==> r.audioBitrate.value == DefaultAudioBitrate
    ensures src.audioChannels <= 0 ==> r.audioChannels == 0 && r.audioCodec.None?
  {
    var created := NewRecorder(src.imageWidth, src.imageHeight, src.audioChannels).(format := Some("hls"));
    var reencodeVideo := src.videoCodec != CodecIdH264;
    var video :=
      if !reencodeVideo then created.(videoCodec := Some(CodecIdH264))
      else created.(videoCodec := Some(CodecIdH264), pixelFormat := Some(PixFmtYuv420p),
                    videoBitrate := Some(if src.videoBitrate > 0 then src.videoBitrate else DefaultVideoBitrate));
    var timed :=
      if src.frameRate > 0.0 && src.frameRate < 200.0 then video.(frameRate := Some(src.frameRate))
      else if reencodeVideo then video.(frameRate := Some(ReencodeFrameRate))
      else video;
    if src.audioChannels > 0 then
      var coded :=
        if src.audioCodec == CodecIdAac then timed.(audioCodec := Some(CodecIdAac))
        else timed.(audioCodec := Some(CodecIdAac),
                    audioBitrate := Some(if src.audioBitrate > 0 then src.audioBitrate else DefaultAudioBitrate));
      var sampled := if src.sampleRate > 0 then coded.(sampleRate := Some(src.sampleRate)) else coded;
      sampled.(audioChannels := src.audioChannels)
    else
      timed.(audioChannels := 0)
  }

  /** A frame with neither an image nor samples is skipped by the copy loop. */
  predicate IsEmpty(f: Frame) {
    !f.hasImage && !f.hasSamples
  }

  /** The record call the copy loop makes for one grabbed frame, if any. */
  function CallFor(g: Grab): seq<RecordCall> {
    if IsEmpty(g.frame) then []
    else [RecordCall(g.frame, if g.frame.timestamp != 0 then Some(g.frame.timestamp) else None)]
  }

  /** The record calls the copy loop makes for a run of grabs, in order. */
  function RecordCalls(grabs: seq<Grab>): seq<RecordCall> {
    if grabs == [] then []
    else RecordCalls(grabs[..|grabs| - 1]) + CallFor(grabs[|grabs| - 1])
  }

  /** How many of those record calls return normally: the final `frameCount`. */
  function SuccessCount(grabs: seq<Grab>): nat {
    if grabs == [] then 0
    else
      var last := grabs[|grabs| - 1];
      SuccessCount(grabs[..|grabs| - 1]) + (if !IsEmpty(last.frame) && last.recordSucceeds then 1 else 0)
  }

  /**
   * The conversion loop. `grabs` is what `grab()` yields before it returns null, `runningReads` how
   * many times the `running` flag reads true (it only ever goes from true to false). A `record`
   * that throws `FrameRecorder.Exception` is swallowed and the loop goes on.
   */
  method CopyLoop(grabs: seq<Grab>, runningReads: nat) returns (calls: seq<RecordCall>, frameCount: nat)
    ensures calls == RecordCalls(grabs[..Min(runningReads, |grabs|)])
    ensures frameCount == SuccessCount(grabs[..Min(runningReads, |grabs|)])
  {
    calls, frameCount := [], 0;
    var i := 0;
    while i < runningReads && i < |grabs|
      invariant i <= Min(runningReads, |grabs|)
      invariant calls == RecordCalls(grabs[..i])
      invariant frameCount == SuccessCount(grabs[..i])
    {
      var g := grabs[i];
      ghost var upTo := grabs[..i + 1];
      assert upTo[..i] == grabs[..i] && upTo[i] == g;
      assert RecordCalls(upTo) == calls + CallFor(g);
      assert SuccessCount(upTo) == frameCount + (if !IsEmpty(g.frame) && g.recordSucceeds then 1 else 0);
      i := i + 1;
      if IsEmpty(g.frame) {
        continue;
      }
      if g.frame.timestamp != 0 {
        calls := calls + [RecordCall(g.frame, Some(g.frame.timestamp))];
      } else {
        calls := calls + [RecordCall(g.frame, None)];
      }
      if g.recordSucceeds {
        frameCount := frameCount + 1;
      }
    }
  }

  /**
   * Every record call is for a non-empty frame and sets the frame's own timestamp exactly when it
   * is nonzero; `frameCount` never exceeds the calls made, and equals them when no record throws.
   */
  lemma {:induction false} RecordCallsShape(grabs: seq<Grab>)
    ensures forall k :: 0 <= k < |RecordCalls(grabs)| ==>
              var c := RecordCalls(grabs)[k];
              !IsEmpty(c.frame) && (c.timestamp.Some? <==> c.frame.timestamp != 0) &&
              (c.timestamp.Some? ==> c.timestamp.value == c.frame.timestamp)
    ensures SuccessCount(grabs) <= |RecordCalls(grabs)|
    ensures (forall k :: 0 <= k < |grabs| ==> grabs[k].recordSucceeds) ==> SuccessCount(grabs) == |RecordCalls(grabs)|
  {
    if grabs != [] {
      var init := grabs[..|grabs| - 1];
      RecordCallsShape(init);
      assert forall k :: 0 <= k < |init| ==> init[k] == grabs[k];
    }
  }

  /** A frame is recorded exactly when it is non-empty: each non-empty grab adds one call, an empty one none. */
  lemma {:induction false} RecordCallsCountNonEmpty(grabs: seq<Grab>, g: Grab)
    ensures |RecordCalls(grabs + [g])| == |RecordCalls(grabs)| + (if IsEmpty(g.frame) then 0 else 1)
    ensures !IsEmpty(g.frame) ==> RecordCalls(grabs + [g])[|RecordCalls(grabs)|].frame == g.frame
  {
    assert (grabs + [g])[..|grabs|] == grabs;
  }

  /** How one `try { stop(); release(); }` on a handle ends, unchecked exceptions included. */
  datatype StopAttempt = Caught(outcome: CloseOutcome) | Unchecked

  /** The server's static `recorder` and `grabber` references and what has been done to the native handles. */
  class StreamingHandles {
    var recorder: bool         // `recorder != null`
    var grabber: bool          // `grabber != null`
    var recorderStops: nat     // `recorder.stop()` calls so far
    var recorderReleases: nat  // `recorder.release()` calls that returned
    var grabberStops: nat
    var grabberReleases: nat

    constructor (recorder: bool, grabber: bool)
      ensures this.recorder == recorder && this.grabber == grabber
      ensures recorderStops == 0 && recorderReleases == 0 && grabberStops == 0 && grabberReleases == 0
    {
      this.recorder, this.grabber := recorder, grabber;
      recorderStops, recorderReleases, grabberStops, grabberReleases := 0, 0, 0, 0;
    }

    /**
     * `stopStreamingInternal`: stop and release the recorder, then the grabber, each only if
     * non-null. Checked failures are logged; the recorder is nulled in a `finally`, so it is null
     * afterwards even when an unchecked exception escapes (which skips the grabber). Returns whether
     * an exception escaped.
     */
    method StopStreamingInternal(recorderStop: StopAttempt, grabberStop: StopAttempt) returns (escaped: bool)
      modifies this
      ensures !recorder
      ensures recorderStops == old(recorderStops) + (if old(recorder) then 1 else 0)
      ensures recorderReleases == old(recorderReleases) + (if old(recorder) && recorderStop == Caught(Closed) then 1 else 0)
      ensures old(recorder) && recorderStop.Unchecked? ==>
                escaped && grabber == old(grabber) && grabberStops == old(grabberStops) &&
                grabberReleases == old(grabberReleases)
      ensures !(old(recorder) && recorderStop.Unchecked?) ==>
                escaped == (old(grabber) && grabberStop.Unchecked?) && !grabber &&
                grabberStops == old(grabberStops) + (if old(grabber) then 1 else 0) &&
                grabberReleases == old(grabberReleases) + (if old(grabber) && grabberStop == Caught(Closed) then 1 else 0)
    {
      if recorder {
        recorderStops := recorderStops + 1;
        if recorderStop == Caught(Closed) {
          recorderReleases := recorderReleases + 1;
        }
        recorder := false;
        if recorderStop.Unchecked? {
          return true;
        }
      }
      escaped := false;
      if grabber {
        grabberStops := grabberStops + 1;
        if grabberStop == Caught(Closed) {
          grabberReleases := grabberReleases + 1;
        }
        grabber := false;
        escaped := grabberStop.Unchecked?;
      }
    }
  }

  /**
   * Two shutdown requests in a row: every handle that was open is stopped exactly once, the
   * second request finding nothing left to stop (or only the grabber an escaping recorder
   * exception skipped), whatever the stop calls throw.
   */
  method ShutdownTwice(hasRecorder: bool, hasGrabber: bool,
                       recorderFirst: StopAttempt, grabberFirst: StopAttempt,
                       recorderSecond: StopAttempt, grabberSecond: StopAttempt)
    returns (recorderStops: nat, grabberStops: nat, recorderLeft: bool, grabberLeft: bool)
    ensures recorderStops == (if hasRecorder then 1 else 0)
    ensures grabberStops == (if hasGrabber then 1 else 0)
    ensures !recorderLeft && !grabberLeft
  {
    var handles := new StreamingHandles(hasRecorder, hasGrabber);
    var escapedFirst := handles.StopStreamingInternal(recorderFirst, grabberFirst);
    var escapedSecond := handles.StopStreamingInternal(recorderSecond, grabberSecond);
    recorderStops, grabberStops := handles.recorderStops, handles.grabberStops;
    recorderLeft, grabberLeft := handles.recorder, handles.grabber;
  }
}
