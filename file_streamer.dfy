/**
 * `LocalFileStreamer`: reads a local video file and publishes it over RTMP, re-encoding the video
 * to H.264 and the audio to AAC, and stamping each frame with the time the file gives it.
 */
module FileStreamer {
  import opened Wrappers
  import opened Media
  import LocalIp
  import Registration
  import RtmpPublisher

  const DefaultFrameRate: real := 30.0

  const StreamName: string := "Local MP4 File Stream (via MediaMTX)"
  const StreamDescription: string := "Streaming a local MP4 file, served by MediaMTX"

  /** The frame rate used for the recorder: the file's own when positive, 30 fps otherwise. */
  function EffectiveFrameRate(sourceFrameRate: real): (r: real)
    ensures r > 0.0
    ensures sourceFrameRate > 0.0 ==> r == sourceFrameRate
    ensures sourceFrameRate <= 0.0 ==> r == DefaultFrameRate
  {
    if sourceFrameRate <= 0.0 then DefaultFrameRate else sourceFrameRate
  }

  /**
   * The recorder settings derived from what the file grabber reports, or the fatal error when the
   * file has no usable video dimensions.
   */
  function SinkFor(src: SourceInfo): (r: Result<SinkSettings, string>)
    ensures r.Err? <==> src.imageWidth <= 0 || src.imageHeight <= 0
    ensures r.Ok? ==>
              var s := r.value;
              s.format == Some("flv") &&
              s.imageWidth == src.imageWidth && s.imageHeight == src.imageHeight &&
              s.videoCodec == Some(CodecIdH264) && s.pixelFormat == Some(PixFmtYuv420p) &&
              s.frameRate == Some(EffectiveFrameRate(src.frameRate))
    ensures r.Ok? ==>
              var s := r.value;
              s.videoBitrate.Some? && s.videoBitrate.value > 0 &&
              (src.videoBitrate > 0 ==> s.videoBitrate.value == src.videoBitrate) &&
              (src.videoBitrate <= 0 ==> s.videoBitrate.value == DefaultVideoBitrate)
    ensures r.Ok? ==> r.value.gopSize == Some(GopSize(EffectiveFrameRate(src.frameRate)))
    ensures r.Ok? ==>
              var s := r.value;
              s.audioChannels == src.audioChannels &&
              (s.audioCodec.Some? <==> src.audioChannels > 0) &&
              (s.sampleRate.Some? <==> src.audioChannels > 0) &&
              (s.audioBitrate.Some? <==> src.audioChannels > 0) &&
              (src.audioChannels > 0 ==>
                 s.audioCodec == Some(CodecIdAac) && s.sampleRate == Some(src.sampleRate) &&
                 s.audioBitrate.value > 0 &&
                 (src.audioBitrate > 0 ==> s.audioBitrate.value == src.audioBitrate) &&
                 (src.audioBitrate <= 0 ==> s.audioBitrate.value == DefaultAudioBitrate))
  {
    if src.imageWidth <= 0 || src.imageHeight <= 0 then
      Err("Fatal: Could not get valid video dimensions from input file.")
    else
      var frameRate := EffectiveFrameRate(src.frameRate);
      var created := NewRecorder(src.imageWidth, src.imageHeight, src.audioChannels).(format := Some("flv"));
      var video := created.(
        videoCodec := Some(CodecIdH264),
        pixelFormat := Some(PixFmtYuv420p),
        frameRate := Some(frameRate),
        videoBitrate := Some(if src.videoBitrate > 0 then src.videoBitrate else DefaultVideoBitrate),
        gopSize := Some(GopSize(frameRate)));
      if src.audioChannels > 0 then
        Ok(video.(
          audioCodec := Some(CodecIdAac),
          sampleRate := Some(src.sampleRate),
          audioChannels := src.audioChannels,
          audioBitrate := Some(if src.audioBitrate > 0 then src.audioBitrate else DefaultAudioBitrate)))
      else Ok(video)
  }

  /** For a file of plausible frame rate the keyframe interval is two seconds of whole frames. */
  lemma KeyframesEveryTwoSeconds(src: SourceInfo)
    requires src.imageWidth > 0 && src.imageHeight > 0
    requires src.frameRate < 0x4000_0000 as real
    ensures SinkFor(src).value.gopSize == Some(2 * EffectiveFrameRate(src.frameRate).Floor)
    ensures src.frameRate <= 0.0 ==> SinkFor(src).value.gopSize == Some(60)
  {
  }

  /**
   * The timestamp given to the recorder before a frame: the frame's own when the grabber reports 0
   * and the frame does not, else the grabber's when nonzero, else none at all.
   */
  function ChooseTimestamp(grabberTimestamp: int, frameTimestamp: int): (r: Option<int>)
    ensures r.None? <==> grabberTimestamp == 0 && frameTimestamp == 0
    ensures r.Some? ==> r.value != 0
    ensures grabberTimestamp != 0 ==> r == Some(grabberTimestamp)
    ensures grabberTimestamp == 0 && frameTimestamp != 0 ==> r == Some(frameTimestamp)
  {
    if grabberTimestamp == 0 && frameTimestamp != 0 then Some(frameTimestamp)
    else if grabberTimestamp != 0 then Some(grabberTimestamp)
    else None
  }

  /** The `record` call for one grab. */
  function CallFor(g: Grab): RecordCall {
    RecordCall(g.frame, ChooseTimestamp(g.grabberTimestamp, g.frame.timestamp))
  }

  /**
   * The streaming loop. Each round reads the `streamingActive` flag, then grabs, then checks that
   * the preview is still showing (so the grab that meets a closed preview is taken but not sent),
   * then records; a record that throws `FrameRecorder.Exception` is swallowed. `activeReads` and `showingReads` are how many
   * reads of each flag see true before it turns false.
   */
  method StreamLoop(grabs: seq<Grab>, activeReads: nat, showingReads: nat)
    returns (calls: seq<RecordCall>, grabsTaken: nat)
    ensures |calls| == Min(Min(activeReads, |grabs|), showingReads)
    ensures forall k :: 0 <= k < |calls| ==> calls[k] == CallFor(grabs[k])
    ensures grabsTaken == Min(Min(activeReads, |grabs|), showingReads + 1)
    ensures grabsTaken == |calls| || (grabsTaken == |calls| + 1 && |calls| == showingReads)
  {
    calls := [];
    grabsTaken := 0;
    var i := 0;
    while i < activeReads && i < |grabs|
      invariant i <= Min(activeReads, |grabs|) && i <= showingReads
      invariant |calls| == i && grabsTaken == i
      invariant forall k :: 0 <= k < i ==> calls[k] == CallFor(grabs[k])
    {
      var g := grabs[i];
      grabsTaken := grabsTaken + 1;
      if i >= showingReads {
        break;
      }
      calls := calls + [CallFor(g)];
      i := i + 1;
    }
  }

  /**
   * Registering the file stream: its name and description, and "rtsp://<host>:8554/file_stream" for
   * the advertised host.
   */
  method RegisterFileStream(interfaces: Option<seq<LocalIp.NetworkInterface>>, localHost: Option<string>, reply: Option<int>)
    returns (sent: Registration.RequestFields, outcome: Registration.RegistrationOutcome)
    ensures var host := RtmpPublisher.AdvertisedHost(Some(LocalIp.SelectAddress(interfaces, localHost)));
            sent == Registration.RequestFields(Some(StreamName), Some("rtsp://" + host + ":8554/file_stream"), Some(StreamDescription))
    ensures outcome == Registration.Outcome(reply)
  {
    var host;
    host, sent, outcome := RtmpPublisher.RegisterRelayedStream(StreamName, RtmpPublisher.FileStreamPath, StreamDescription, interfaces, localHost, reply);
    RtmpPublisher.FileAccessUrl(host);
    RtmpPublisher.AccessUrlOfHost(sent.rtspUrl.value, RtmpPublisher.FileStreamPath);
  }
}
