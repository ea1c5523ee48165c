/**
 * The earlier variant of the RTSP-to-HLS converter (`RTSPHlsConverterServerback`): it copies the
 * source codecs when the grabber knows them and only falls back to H.264/AAC when it does not,
 * sets frame rate and bitrates only from the source (no defaults), and records every grabbed frame.
 */
module HlsConverterBack {
  import opened Wrappers
  import opened Media
  import HlsConverter

  /** The back variant's test for a known codec: neither `AV_CODEC_ID_NONE` nor 0 (the same value). */
  predicate KnownCodec(id: int) {
    id != CodecIdNone && id != 0
  }

  /** The recorder settings this variant's `startRtspToHlsConversion` derives from the source. */
  function SinkFor(src: SourceInfo): (r: SinkSettings)
    ensures r.format == Some("hls") && r.imageWidth == src.imageWidth && r.imageHeight == src.imageHeight
    // video: the source codec is copied exactly when it is nonzero; otherwise H.264 in YUV420P
    ensures r.videoCodec.Some? && r.videoCodec.value != CodecIdNone
    ensures r.videoCodec == Some(src.videoCodec) <==> src.videoCodec != 0
    ensures r.pixelFormat.Some? <==> src.videoCodec == 0
    ensures src.videoCodec == 0 ==> r.videoCodec == Some(CodecIdH264) && r.pixelFormat == Some(PixFmtYuv420p)
    // frame rate and video bitrate come only from the source, and only when plausible
    ensures r.frameRate.Some? <==> HlsConverter.SaneFrameRate(src.frameRate)
    ensures r.frameRate.Some? ==> r.frameRate.value == src.frameRate
    ensures r.videoBitrate.Some? <==> src.videoBitrate > 0
    ensures r.videoBitrate.Some? ==> r.videoBitrate.value == src.videoBitrate
    ensures r.gopSize.None?
    // audio: channels stay as constructed; codec copied when known, AAC otherwise
    ensures r.audioChannels == src.audioChannels
    ensures r.audioCodec.Some? <==> src.audioChannels > 0
    ensures r.audioCodec.Some? ==> r.audioCodec.value != CodecIdNone
    ensures r.audioCodec.Some? && src.audioCodec != 0 ==> r.audioCodec.value == src.audioCodec
    ensures r.audioCodec.Some? && src.audioCodec == 0 ==> r.audioCodec.value == CodecIdAac
    ensures r.sampleRate.Some? <==> src.audioChannels > 0 && src.sampleRate > 0
    ensures r.sampleRate.Some? ==> r.sampleRate.value == src.sampleRate
    ensures r.audioBitrate.Some? <==> src.audioChannels > 0 && src.audioBitrate > 0
    ensures r.audioBitrate.Some? ==> r.audioBitrate.value == src.audioBitrate
  {
    var created := NewRecorder(src.imageWidth, src.imageHeight, src.audioChannels).(format := Some("hls"));
    var video :=
      if KnownCodec(src.videoCodec) then created.(videoCodec := Some(src.videoCodec))
      else created.(videoCodec := Some(CodecIdH264), pixelFormat := Some(PixFmtYuv420p));
    var audio :=
      if src.audioChannels > 0 then
        var coded := video.(audioCodec := Some(if KnownCodec(src.audioCodec) then src.audioCodec else CodecIdAac));
        var sampled := if src.sampleRate > 0 then coded.(sampleRate := Some(src.sampleRate)) else coded;
        if src.audioBitrate > 0 then sampled.(audioBitrate := Some(src.audioBitrate)) else sampled
      else video;
    var timed :=
      if src.frameRate > 0.0 && src.frameRate < 200.0 then audio.(frameRate := Some(src.frameRate)) else audio;
    if src.videoBitrate > 0 then timed.(videoBitrate := Some(src.videoBitrate)) else timed
  }

  /**
   * Where the two converter variants part ways: both pass an H.264 source through without a pixel
   * format, but for any other known codec the current server re-encodes to H.264/YUV420P while
   * this variant copies the codec; for an implausible frame rate the current server may fall back to
   * 30 fps while this variant never sets one.
   */
  lemma VariantsCompared(src: SourceInfo)
    ensures src.videoCodec == CodecIdH264 ==>
              SinkFor(src).videoCodec == HlsConverter.SinkFor(src).videoCodec == Some(CodecIdH264) &&
              SinkFor(src).pixelFormat.None? && HlsConverter.SinkFor(src).pixelFormat.None?
    ensures src.videoCodec != CodecIdH264 && src.videoCodec != 0 ==>
              SinkFor(src).videoCodec == Some(src.videoCodec) && SinkFor(src).pixelFormat.None? &&
              HlsConverter.SinkFor(src).videoCodec == Some(CodecIdH264) &&
              HlsConverter.SinkFor(src).pixelFormat == Some(PixFmtYuv420p)
    ensures !HlsConverter.SaneFrameRate(src.frameRate) ==>
              SinkFor(src).frameRate.None? &&
              (HlsConverter.SinkFor(src).frameRate.Some? <==> src.videoCodec != CodecIdH264)
  {
  }

  /**
   * This variant's conversion loop: every grabbed frame, empty or not, is handed to `record`, in
   * order, until the `running` flag reads false or `grab()` returns null; records that throw
   * `FrameRecorder.Exception` are swallowed.
   */
  method CopyLoop(grabs: seq<Grab>, runningReads: nat) returns (recorded: seq<Frame>)
    ensures |recorded| == Min(runningReads, |grabs|)
    ensures forall k :: 0 <= k < |recorded| ==> recorded[k] == grabs[k].frame
  {
    recorded := [];
    var i := 0;
    while i < runningReads && i < |grabs|
      invariant i <= Min(runningReads, |grabs|)
      invariant |recorded| == i
      invariant forall k :: 0 <= k < i ==> recorded[k] == grabs[k].frame
    {
      recorded := recorded + [grabs[i].frame];
      i := i + 1;
    }
  }

  /** This variant's static `recorder` and `grabber` references and the native calls made on them. */
  class StreamingHandles {
    var recorder: bool
    var grabber: bool
    var recorderStops: nat
    var recorderReleases: nat
    var grabberStops: nat
    var grabberReleases: nat

    constructor (recorder: bool, grabber: bool)
      ensures this.recorder == recorder && this.grabber == grabber
      ensures recorderStops == 0 && recorderReleases == 0 && grabberStops == 0 && grabberReleases == 0
    {
      this.recorder, this.grabber := recorder, grabber;
      recorderStops, recorderReleases, grabberStops, grabberReleases := 0, 0, 0, 0;
    }

    /**
     * `stopStreamingInternal` of this variant: a handle is nulled after its `try`/`catch`, not in a
     * `finally`, so a handle whose stop throws an unchecked exception stays non-null (and the grabber
     * is skipped). Returns whether an exception escaped.
     */
    method StopStreamingInternal(recorderStop: HlsConverter.StopAttempt, grabberStop: HlsConverter.StopAttempt)
      returns (escaped: bool)
      modifies this
      ensures recorderStops == old(recorderStops) + (if old(recorder) then 1 else 0)
      ensures recorderReleases == old(recorderReleases) + (if old(recorder) && recorderStop == HlsConverter.Caught(Closed) then 1 else 0)
      ensures recorder == (old(recorder) && recorderStop.Unchecked?)
      ensures recorder ==>
                escaped && grabber == old(grabber) && grabberStops == old(grabberStops) &&
                grabberReleases == old(grabberReleases)
      ensures !recorder ==>
                escaped == (old(grabber) && grabberStop.Unchecked?) &&
                grabber == (old(grabber) && grabberStop.Unchecked?) &&
                grabberStops == old(grabberStops) + (if old(grabber) then 1 else 0) &&
                grabberReleases == old(grabberReleases) + (if old(grabber) && grabberStop == HlsConverter.Caught(Closed) then 1 else 0)
    {
      if recorder {
        recorderStops := recorderStops + 1;
        if recorderStop == HlsConverter.Caught(Closed) {
          recorderReleases := recorderReleases + 1;
        }
        if recorderStop.Unchecked? {
          return true;
        }
        recorder := false;
      }
      escaped := false;
      if grabber {
        grabberStops := grabberStops + 1;
        if grabberStop == HlsConverter.Caught(Closed) {
          grabberReleases := grabberReleases + 1;
        }
        if grabberStop.Unchecked? {
          return true;
        }
        grabber := false;
      }
    }
  }

  /**
   * Two shutdown requests in a row: with no unchecked exception in the first, the second does
   * nothing; a handle is stopped a second time only when its first stop escaped unchecked.
   */
  method ShutdownTwice(hasRecorder: bool, hasGrabber: bool,
                       recorderFirst: HlsConverter.StopAttempt, grabberFirst: HlsConverter.StopAttempt,
                       recorderSecond: HlsConverter.StopAttempt, grabberSecond: HlsConverter.StopAttempt)
    returns (recorderStops: nat, grabberStops: nat, recorderLeft: bool, grabberLeft: bool)
    ensures recorderStops == (if hasRecorder then (if recorderFirst.Unchecked? then 2 else 1) else 0)
    ensures grabberStops <= 2
    ensures grabberStops == 2 ==> hasGrabber && grabberFirst.Unchecked?
    ensures !(hasRecorder && recorderFirst.Unchecked?) && !(hasGrabber && grabberFirst.Unchecked?) ==>
              grabberStops == (if hasGrabber then 1 else 0) && !recorderLeft && !grabberLeft
  {
    var handles := new StreamingHandles(hasRecorder, hasGrabber);
    var escapedFirst := handles.StopStreamingInternal(recorderFirst, grabberFirst);
    var escapedSecond := handles.StopStreamingInternal(recorderSecond, grabberSecond);
    recorderStops, grabberStops := handles.recorderStops, handles.grabberStops;
    recorderLeft, grabberLeft := handles.recorder, handles.grabber;
  }
}
