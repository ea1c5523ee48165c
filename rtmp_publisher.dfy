/**
 * What the two RTMP publishers (`StreamingClientMain`, the camera, and `LocalFileStreamer`, a
 * local file) share: the RTSP address they register with the server once MediaMTX re-publishes
 * their RTMP stream, and the guard that decides whether the `finally` block stops the recorder.
 */
module RtmpPublisher {
  import opened Wrappers
  import opened Text
  import opened Media
  import LocalIp
  import Registration

  const MediaMtxRtspPort: string := "8554"
  const LivePath: string := "/live"
  const FileStreamPath: string := "/file_stream"

  const UrlScheme: string := "rtsp://"

  /** The host to advertise: `null` and "localhost" both become "localhost"; any other address is kept. */
  function AdvertisedHost(ip: Option<string>): (host: string)
    ensures host == "localhost" <==> ip.None? || ip == Some("localhost")
    ensures host != "localhost" ==> ip == Some(host)
  {
    match ip
    case None => "localhost"
    case Some(a) => if a == "localhost" then "localhost" else a
  }

  /**
   * `"rtsp://" + host + ":" + 8554 + path`, the address registered with the server: the scheme and
   * host, then the relay's RTSP port and the path, and nothing else.
   */
  function AccessUrl(host: string, path: string): (url: string)
    ensures StartsWith(url, UrlScheme + host)
    ensures EndsWith(url, ":" + MediaMtxRtspPort + path)
    ensures |url| == |UrlScheme| + |host| + 1 + |MediaMtxRtspPort| + |path|
  {
    UrlScheme + host + (":" + MediaMtxRtspPort + path)
  }

  /** Recovers the host from a registered address, given the path it ends in. */
  function HostOf(url: string, path: string): (host: Option<string>)
    ensures host.Some? ==> StartsWith(url, UrlScheme) && EndsWith(url, ":" + MediaMtxRtspPort + path)
  {
    var tail := ":" + MediaMtxRtspPort + path;
    if |UrlScheme| + |tail| <= |url| && StartsWith(url, UrlScheme) && EndsWith(url, tail)
    then Some(url[|UrlScheme|..|url| - |tail|])
    else None
  }

  /** The host is recovered from the address exactly: the address determines the host. */
  lemma HostOfAccessUrl(host: string, path: string)
    ensures HostOf(AccessUrl(host, path), path) == Some(host)
  {
    var tail := ":" + MediaMtxRtspPort + path;
    var url := AccessUrl(host, path);
    assert url[|UrlScheme|..|url| - |tail|] == host;
    assert url[|url| - |tail|..] == tail;
  }

  /** Conversely, every address `HostOf` accepts is the access address of the host it returns. */
  lemma AccessUrlOfHost(url: string, path: string)
    requires HostOf(url, path).Some?
    ensures AccessUrl(HostOf(url, path).value, path) == url
  {
    var tail := ":" + MediaMtxRtspPort + path;
    var host := HostOf(url, path).value;
    assert url == url[..|UrlScheme|] + host + url[|url| - |tail|..];
  }

  /** Two hosts give the same address only when they are the same host. */
  lemma AccessUrlInjective(h1: string, h2: string, path: string)
    requires AccessUrl(h1, path) == AccessUrl(h2, path)
    ensures h1 == h2
  {
    HostOfAccessUrl(h1, path);
    HostOfAccessUrl(h2, path);
  }

  /** The camera publisher registers "rtsp://<host>:8554/live". */
  lemma CameraAccessUrl(host: string)
    ensures AccessUrl(host, LivePath) == "rtsp://" + host + ":8554/live"
  {
    assert ":" + MediaMtxRtspPort + LivePath == ":8554/live";
  }

  /** The file publisher registers "rtsp://<host>:8554/file_stream". */
  lemma FileAccessUrl(host: string)
    ensures AccessUrl(host, FileStreamPath) == "rtsp://" + host + ":8554/file_stream"
  {
    assert ":" + MediaMtxRtspPort + FileStreamPath == ":8554/file_stream";
  }

  /**
   * Step 4 of a publisher's `main`, once its recorder has started: pick the local address, advertise
   * it (or "localhost"), and register the relay's RTSP address for `path` under `name` and
   * `description`. The host recovered from the registered address is the advertised one.
   */
  method RegisterRelayedStream(name: string, path: string, description: string,
                               interfaces: Option<seq<LocalIp.NetworkInterface>>, localHost: Option<string>,
                               reply: Option<int>)
    returns (host: string, sent: Registration.RequestFields, outcome: Registration.RegistrationOutcome)
    ensures host == AdvertisedHost(Some(LocalIp.SelectAddress(interfaces, localHost)))
    ensures sent.streamName == Some(name) && sent.description == Some(description)
    ensures sent.rtspUrl.Some? && HostOf(sent.rtspUrl.value, path) == Some(host)
    ensures outcome == Registration.Outcome(reply)
  {
    var ip := LocalIp.SuitableLocalIpAddress(interfaces, localHost);
    host := AdvertisedHost(Some(ip));
    var url := AccessUrl(host, path);
    HostOfAccessUrl(host, path);
    var endpoint;
    endpoint, sent, outcome := Registration.RegisterStreamWithServer(name, url, description, reply);
  }

  /**
   * The publisher's recorder bookkeeping in `main`: the recorder reference, the start-failure
   * flag, the start latch, the "properly stopped" flag, and the native calls made on the recorder.
   */
  class PublisherSession {
    var recorderSet: bool
    var startFailed: bool
    var latchCount: nat
    var properlyStopped: bool
    var stopCalls: nat
    var releaseCalls: nat

    /** Before anything happens: no recorder, flags false, the latch at 1. */
    constructor ()
      ensures !recorderSet && !startFailed && latchCount == 1 && !properlyStopped
      ensures stopCalls == 0 && releaseCalls == 0
    {
      recorderSet, startFailed, latchCount, properlyStopped := false, false, 1, false;
      stopCalls, releaseCalls := 0, 0;
    }

    /** `recorderRef.set(recorder)`. */
    method CreateRecorder()
      modifies this
      ensures recorderSet
      ensures startFailed == old(startFailed) && latchCount == old(latchCount)
      ensures properlyStopped == old(properlyStopped)
      ensures stopCalls == old(stopCalls) && releaseCalls == old(releaseCalls)
    {
      recorderSet := true;
    }

    /** The start thread and the bounded wait for it, as they ended. */
    method AwaitStart(outcome: StartOutcome)
      modifies this
      ensures startFailed == StartFailed(outcome) && latchCount == LatchCount(outcome)
      ensures recorderSet == old(recorderSet) && properlyStopped == old(properlyStopped)
      ensures stopCalls == old(stopCalls) && releaseCalls == old(releaseCalls)
    {
      startFailed := StartFailed(outcome);
      latchCount := LatchCount(outcome);
    }

    /** The condition under which the `finally` block enters its `try`. */
    predicate WillStop()
      reads this
    {
      recorderSet && !properlyStopped && !startFailed && latchCount == 0
    }

    /**
     * The `finally` block: stop and release the recorder when it exists, was not stopped yet, did
     * not fail to start and the latch reached 0; a throwing stop skips the release, and only a
     * completed pair marks the recorder as properly stopped.
     */
    method FinallyRelease(close: CloseOutcome)
      modifies this
      ensures stopCalls == old(stopCalls) + (if old(WillStop()) then 1 else 0)
      ensures releaseCalls == old(releaseCalls) + (if old(WillStop()) && !close.StopThrows? then 1 else 0)
      ensures properlyStopped == (old(properlyStopped) || (old(WillStop()) && close.Closed?))
      ensures recorderSet == old(recorderSet) && startFailed == old(startFailed) && latchCount == old(latchCount)
    {
      if recorderSet && !properlyStopped && !startFailed {
        if latchCount == 0 {
          stopCalls := stopCalls + 1;
          if !close.StopThrows? {
            releaseCalls := releaseCalls + 1;
            if close.Closed? {
              properlyStopped := true;
            }
          }
        }
      }
    }
  }

  /**
   * A publisher run from the recorder's creation to the end of `finally`: the recorder is stopped
   * exactly when it was created and the failure flag stayed clear, and never more than once. A
   * timed-out start and one that threw `FrameRecorder.Exception` never get a stop; a start that threw
   * an unchecked exception leaves the flag clear and does get one. `created` is false when an
   * earlier step left `main` first.
   */
  method PublisherTeardown(created: bool, start: StartOutcome, close: CloseOutcome)
    returns (stopCalls: nat, releaseCalls: nat, properlyStopped: bool)
    ensures stopCalls == (if created && !StartFailed(start) then 1 else 0)
    ensures created && start.StartThrewUnchecked? ==> stopCalls == 1
    ensures releaseCalls <= stopCalls
    ensures releaseCalls == (if created && !StartFailed(start) && !close.StopThrows? then 1 else 0)
    ensures properlyStopped <==> created && !StartFailed(start) && close.Closed?
  {
    var session := new PublisherSession();
    if created {
      session.CreateRecorder();
      session.AwaitStart(start);
    }
    session.FinallyRelease(close);
    stopCalls, releaseCalls, properlyStopped := session.stopCalls, session.releaseCalls, session.properlyStopped;
  }

  /**
   * The latch test inside the guard never decides anything: whenever the failure flag is clear, the
   * latch is already 0. The flag is set only by a timeout or a `FrameRecorder.Exception`.
   */
  lemma LatchTestIsRedundant(start: StartOutcome)
    ensures !StartFailed(start) ==> LatchCount(start) == 0
    ensures StartFailed(start) <==> start.StartThrew? || start.TimedOut?
    ensures !StartFailed(start) <==> start.Started? || start.StartThrewUnchecked?
  {
  }
}
