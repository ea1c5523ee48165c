/**
 * What every program hands to and receives from the native multimedia library: the parameters a
 * grabber detects in its source, the settings a program gives a recorder (sink), and the frames
 * that flow between them. The library itself is not modelled; its answers are inputs here.
 */
module Media {
  import opened Wrappers

  // Identifiers of the native library (FFmpeg's `AVCodecID` and `AVPixelFormat` values).
  const CodecIdNone: int := 0
  const CodecIdH264: int := 27
  const CodecIdAac: int := 86018
  const PixFmtYuv420p: int := 0

  /** What a started grabber reports about its source (`getImageWidth()`, `getFrameRate()`, ...). */
  datatype SourceInfo = SourceInfo(
    imageWidth: int,
    imageHeight: int,
    frameRate: real,
    videoCodec: int,
    videoBitrate: int,
    audioChannels: int,
    audioCodec: int,
    sampleRate: int,
    audioBitrate: int)

  /**
   * The configuration a program gives a recorder. Width, height and audio channels come from the
   * recorder's constructor; every other setting is `None` when the program never calls its setter,
   * in which case the recorder keeps the library's own default.
   */
  datatype SinkSettings = SinkSettings(
    format: Option<string>,
    imageWidth: int,
    imageHeight: int,
    audioChannels: int,
    videoCodec: Option<int>,
    pixelFormat: Option<int>,
    frameRate: Option<real>,
    videoBitrate: Option<int>,
    gopSize: Option<int>,
    audioCodec: Option<int>,
    sampleRate: Option<int>,
    audioBitrate: Option<int>)

  /** `new FFmpegFrameRecorder(output, imageWidth, imageHeight, audioChannels)` before any setter. */
  function NewRecorder(imageWidth: int, imageHeight: int, audioChannels: int): SinkSettings {
    SinkSettings(None, imageWidth, imageHeight, audioChannels, None, None, None, None, None, None, None, None)
  }

  /** The bitrates the programs fall back on when the source reports none: 2 Mbps video, 128 kbps audio. */
  const DefaultVideoBitrate: int := 2000000
  const DefaultAudioBitrate: int := 128000

  const Int32Max: int := 0x7fff_ffff
  const Int32Min: int := -0x8000_0000

  /**
   * Java's `(int)` cast of a `double`: truncation toward zero, saturating at the bounds of `int`.
   * (NaN, which casts to 0, has no counterpart among the reals.)
   */
  function JavaIntCast(x: real): (n: int)
    ensures Int32Min <= n <= Int32Max
    ensures x >= Int32Max as real ==> n == Int32Max
    ensures x <= Int32Min as real ==> n == Int32Min
    ensures 0.0 <= x < Int32Max as real ==> n as real <= x < n as real + 1.0
    ensures Int32Min as real < x <= 0.0 ==> n as real - 1.0 < x <= n as real
  {
    if x >= Int32Max as real then Int32Max
    else if x <= Int32Min as real then Int32Min
    else if x >= 0.0 then x.Floor
    else -((-x).Floor)
  }

  /** Java's 32-bit `int` arithmetic: the mathematical result reduced into [Int32Min, Int32Max]. */
  function WrapInt32(v: int): (n: int)
    ensures Int32Min <= n <= Int32Max
    ensures (n - v) % 0x1_0000_0000 == 0
    ensures Int32Min <= v <= Int32Max ==> n == v
  {
    (v - Int32Min) % 0x1_0000_0000 + Int32Min
  }

  /**
   * The keyframe interval the RTMP publishers set, `(int) frameRate * 2`: for any plausible rate it
   * is two seconds of whole frames; the cast saturates at 2^31 - 1 and the doubling then wraps to -2.
   */
  function GopSize(frameRate: real): (g: int)
    ensures 0.0 <= frameRate < 0x4000_0000 as real ==> g == 2 * frameRate.Floor >= 0
    ensures frameRate >= Int32Max as real ==> g == -2
  {
    WrapInt32(JavaIntCast(frameRate) * 2)
  }

  /** A grabbed frame: whether it carries an image and/or audio samples, its timestamp and size. */
  datatype Frame = Frame(hasImage: bool, hasSamples: bool, timestamp: int, imageWidth: int, imageHeight: int)

  /**
   * One successful `grab()`: the frame, the grabber's `getTimestamp()` right after it, and whether
   * the recorder's `record(frame)` would return normally (true) or throw `FrameRecorder.Exception`
   * (false), which the loops catch. An unchecked exception from `record` is not represented.
   * A program's input is the finite sequence of grabs; `grab()` returns null after the last one.
   */
  datatype Grab = Grab(frame: Frame, grabberTimestamp: int, recordSucceeds: bool)

  /** One `record(frame)` call, with the value of the `setTimestamp` call made just before it, if any. */
  datatype RecordCall = RecordCall(frame: Frame, timestamp: Option<int>)

  /** The fixed rate of the camera programs, and the timestamp step `1000000L / (long) 30.0`. */
  const TargetFrameRate: int := 30
  const MicrosPerFrame: int := 1000000 / TargetFrameRate

  /** The timestamp the camera programs give the frame with index `frameCount`. */
  function FrameTimestamp(frameCount: nat): int {
    frameCount * MicrosPerFrame
  }

  /** Frame `n` is stamped `n * 33333` microseconds, and later frames get strictly later stamps. */
  lemma FrameTimestampsIncrease(m: nat, n: nat)
    requires m < n
    ensures FrameTimestamp(n) == n * 33333
    ensures FrameTimestamp(m) < FrameTimestamp(n)
    ensures FrameTimestamp(n) - FrameTimestamp(m) >= 33333
  {
    assert MicrosPerFrame == 33333;
    assert FrameTimestamp(n) - FrameTimestamp(m) == (n - m) * 33333;
  }

  function Min(a: int, b: int): int {
    if a <= b then a else b
  }

  /** How the thread that starts a recorder ended by the time the program stopped waiting for it. */
  datatype StartOutcome =
    | Started             // `recorder.start()` returned
    | StartThrew          // it threw `FrameRecorder.Exception`; the thread set the failure flag and counted the latch down
    | StartThrewUnchecked // it threw anything else, which the thread does not catch: the flag stays false, but the
                          // `finally` still counts the latch down, so the program goes on as after a start that returned
    | TimedOut            // the 10 s wait ran out; the main thread set the failure flag, the latch is still 1

  /** The recorder-start failure flag once the program has stopped waiting. */
  function StartFailed(o: StartOutcome): bool {
    o.StartThrew? || o.TimedOut?
  }

  /** The count of the one-shot start latch once the program has stopped waiting. */
  function LatchCount(o: StartOutcome): nat {
    if o.TimedOut? then 1 else 0
  }

  /**
   * How a `stop(); release();` pair inside a `try` ends. `StopThrows` and `ReleaseThrows` also stand
   * for an unchecked exception from that call: the stop and release counts are the same, and what
   * differs (the exception leaving `main`, the grabber release it skips) is not represented.
   */
  datatype CloseOutcome = Closed | StopThrows | ReleaseThrows

  /** Width and height as a grabber reports them. */
  datatype Resolution = Resolution(width: int, height: int)

  predicate ValidResolution(r: Resolution) {
    r.width > 0 && r.height > 0
  }

  /**
   * The camera programs' resolution check: keep what the started grabber reports when it is valid;
   * otherwise restart the grabber asking for 640x480 once (`retry` is what it reports then, `None`
   * when the restart throws) and give up when that is not valid either.
   */
  function NegotiateResolution(first: Resolution, retry: Option<Resolution>): (r: Option<Resolution>)
    ensures r.Some? ==> ValidResolution(r.value)
    ensures ValidResolution(first) ==> r == Some(first)
    ensures r.None? || r == Some(first) || r == retry
    ensures r.None? <==> !ValidResolution(first) && (retry.None? || !ValidResolution(retry.value))
  {
    if ValidResolution(first) then Some(first)
    else if retry.Some? && ValidResolution(retry.value) then retry
    else None
  }
}
