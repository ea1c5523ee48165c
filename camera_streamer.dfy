/**
 * `StreamingClientMain`: publishes the default camera over RTMP as H.264 at a fixed 30 fps,
 * stamping frame `n` with `n` frame periods.
 */
module CameraStreamer {
  import opened Wrappers
  import opened Media
  import LocalIp
  import Registration
  import RtmpPublisher

  const FrameRate: real := 30.0
  const VideoBitrate: int := 2000000

  const StreamName: string := "My MacBook Camera (via MediaMTX)"
  const StreamDescription: string := "Live stream from MacBook, served by MediaMTX"

  /**
   * The recorder for a negotiated resolution, or the fatal error when neither the camera's own
   * resolution nor the 640x480 retry is valid.
   */
  function Setup(first: Resolution, retry: Option<Resolution>): (r: Result<SinkSettings, string>)
    ensures r.Err? <==> NegotiateResolution(first, retry).None?
    ensures r.Ok? ==>
              var s := r.value;
              s.imageWidth > 0 && s.imageHeight > 0 &&
              Some(Resolution(s.imageWidth, s.imageHeight)) == NegotiateResolution(first, retry) &&
              s.format == Some("flv") && s.audioChannels == 0 &&
              s.videoCodec == Some(CodecIdH264) && s.pixelFormat == Some(PixFmtYuv420p) &&
              s.frameRate == Some(30.0) && s.videoBitrate == Some(2000000) && s.gopSize == Some(60) &&
              s.audioCodec.None? && s.sampleRate.None? && s.audioBitrate.None?
  {
    match NegotiateResolution(first, retry)
    case None => Err("Fatal: Could not get a valid resolution.")
    case Some(res) =>
      Ok(NewRecorder(res.width, res.height, 0).(
        format := Some("flv"),
        videoCodec := Some(CodecIdH264),
        pixelFormat := Some(PixFmtYuv420p),
        frameRate := Some(FrameRate),
        videoBitrate := Some(VideoBitrate),
        gopSize := Some(GopSize(FrameRate))))
  }

  /**
   * The streaming loop. Each round reads the `streamingActive` flag, checks that the preview is
   * showing, grabs (stopping on null), sets the timestamp `frameCount * 33333`, records, and counts
   * the frame whether or not the record threw `FrameRecorder.Exception`.
   */
  method StreamLoop(grabs: seq<Grab>, activeReads: nat, showingReads: nat)
    returns (calls: seq<RecordCall>, frameCount: nat)
    ensures frameCount == |calls| == Min(Min(activeReads, showingReads), |grabs|)
    ensures forall k :: 0 <= k < |calls| ==> calls[k] == RecordCall(grabs[k].frame, Some(FrameTimestamp(k)))
    ensures forall k, m :: 0 <= k < m < |calls| ==>
              calls[k].timestamp.value + MicrosPerFrame <= calls[m].timestamp.value
  {
    calls := [];
    frameCount := 0;
    while frameCount < activeReads
      invariant frameCount <= Min(Min(activeReads, showingReads), |grabs|)
      invariant |calls| == frameCount
      invariant forall k :: 0 <= k < frameCount ==> calls[k] == RecordCall(grabs[k].frame, Some(FrameTimestamp(k)))
    {
      if frameCount >= showingReads {
        break;
      }
      if frameCount >= |grabs| {
        break;
      }
      var g := grabs[frameCount];
      calls := calls + [RecordCall(g.frame, Some(FrameTimestamp(frameCount)))];
      frameCount := frameCount + 1;
    }
    forall k, m | 0 <= k < m < |calls|
      ensures calls[k].timestamp.value + MicrosPerFrame <= calls[m].timestamp.value
    {
      FrameTimestampsIncrease(k, m);
    }
  }

  /**
   * Registering the camera stream: its name and description, and "rtsp://<host>:8554/live" for the
   * advertised host.
   */
  method RegisterLiveStream(interfaces: Option<seq<LocalIp.NetworkInterface>>, localHost: Option<string>, reply: Option<int>)
    returns (sent: Registration.RequestFields, outcome: Registration.RegistrationOutcome)
    ensures var host := RtmpPublisher.AdvertisedHost(Some(LocalIp.SelectAddress(interfaces, localHost)));
            sent == Registration.RequestFields(Some(StreamName), Some("rtsp://" + host + ":8554/live"), Some(StreamDescription))
    ensures outcome == Registration.Outcome(reply)
  {
    var host;
    host, sent, outcome := RtmpPublisher.RegisterRelayedStream(StreamName, RtmpPublisher.LivePath, StreamDescription, interfaces, localHost, reply);
    RtmpPublisher.CameraAccessUrl(host);
    RtmpPublisher.AccessUrlOfHost(sent.rtspUrl.value, RtmpPublisher.LivePath);
  }
}
