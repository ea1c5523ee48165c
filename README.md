# StreamingClient in Dafny

StreamingClient is a set of small Java programs around a native multimedia library:

- **RTSP-to-HLS converters.** `RTSPHlsConverterServer` and its earlier variant `RTSPHlsConverterServerback` pull an RTSP camera stream and write an HLS playlist with segments. An embedded HTTP handler serves these files.
- **RTMP publishers.** `StreamingClientMain` (a camera) and `LocalFileStreamer` (a local video file) publish over RTMP to a MediaMTX relay. Each registers the relay's RTSP address with an application server, using a `StreamCreationRequestDto`.
- **Local recorder.** `LocalVideoFileRecorder` records the camera to an MP4 file.

This project models the decision logic of those programs and proves what it promises:

- which file the HLS handler serves, with what status and content type;
- which recorder settings each program derives from the source;
- which local address a publisher advertises, and the URL it registers;
- what each copy or recording loop hands to the recorder, with which timestamps, and why it stops;
- how often the native recorder and grabber are stopped and released on shutdown.

The native library is not modelled. What it reports is an input to the model:

- **Source properties:** a `SourceInfo`.
- **Grabbed frames:** a finite sequence of `Grab`s. Each carries the frame, the grabber's timestamp, and whether `record` returns normally.
- **Start outcome:** a `StartOutcome`.
- **`stop`/`release` outcome:** a `CloseOutcome`.

Settings the programs never set are `None`. The recorder then keeps the library's default. Java `null` is `None`. Java `double` frame rates are `real`. Java's `(int)` cast and 32-bit `int` arithmetic are written out explicitly, in `Media.JavaIntCast` and `Media.WrapInt32`.

Modules, one per source concern:

| module | file | models |
|---|---|---|
| `Wrappers`, `Text` | wrappers.dfy, text.dfy | `Option`/`Result`; `startsWith`, `endsWith` and `\d` on strings |
| `Media` | media.dfy | library constants, source and sink settings, frames, frame timestamps, the 640x480 resolution retry, `(int)` casts |
| `HlsFileHandler` | hls_file_handler.dfy | `SimpleFileHttpHandler.handle` (identical in both converter servers) |
| `HlsConverter` | hls_converter.dfy | `RTSPHlsConverterServer`: recorder settings, copy loop, `stopStreamingInternal` |
| `HlsConverterBack` | hls_converter_back.dfy | `RTSPHlsConverterServerback`: the same three, codec-copying variant |
| `LocalIp` | local_ip.dfy | `getSuitableLocalIpAddress` (identical in both publishers) |
| `RtmpPublisher` | rtmp_publisher.dfy | the registered RTSP address, and the publishers' `finally` release guard |
| `Registration` | registration.dfy | `StreamCreationRequestDto` and `registerStreamWithServer` |
| `FileStreamer` | file_streamer.dfy | `LocalFileStreamer`: settings, timestamp choice, streaming loop |
| `CameraStreamer` | camera_streamer.dfy | `StreamingClientMain`: settings, frame-count streaming loop |
| `FileRecorder` | file_recorder.dfy | `LocalVideoFileRecorder`: settings, recording loop, explicit and `finally` stop |

Two stateful parts of the source are Dafny classes:

- the converters' static `recorder`/`grabber` fields;
- the DTO, and the recorder reference with its flags in the publishers' and recorder's `main`.

Every loop is a `method` with a `while` or `for` loop, proved against a specification function or an explicit postcondition.

## Model

| member | source | states |
|---|---|---|
| HlsFileHandler.RelativePath | src/main/java/RTSPHlsConverterServer.java:309-312 | the relative path is never "" or "/"; it is the playlist name, or the request path minus one leading "/", or the request path itself when it has no leading "/" |
| HlsFileHandler.RelativePathDefault | src/main/java/RTSPHlsConverterServer.java:309-312 | the playlist default is taken exactly for the request paths "", "/" and "//" (both directions) |
| HlsFileHandler.RelativePathStripsOneSlash | src/main/java/RTSPHlsConverterServerback.java:271-274 | any other path loses exactly one leading "/" and nothing else; a path without one is kept as is |
| HlsFileHandler.ContentType | src/main/java/RTSPHlsConverterServer.java:326-328 | the playlist type iff the path ends in ".m3u8", the segment type iff it ends in ".ts", the byte-stream type otherwise |
| HlsFileHandler.Handle | src/main/java/RTSPHlsConverterServer.java:307-341 | status 200 iff the file exists, is not a directory and its canonical path starts with the base path; no response at all iff resolving the canonical path of an existing non-directory throws (the `IOException` leaves `handle`); 404 otherwise; a 200 carries the suffix content type and CORS "*" |
| HlsFileHandler.MissingOrDirectoryIsNotFound | src/main/java/RTSPHlsConverterServerback.java:289-311 | a missing file or a directory always gets 404, and its canonical path is never asked for |
| HlsFileHandler.SiblingDirectoryIsServed | src/main/java/RTSPHlsConverterServer.java:325 | a file in a sibling directory whose name extends the base directory's name is served with 200 (see Findings) |
| HlsFileHandler.HandleContained | src/main/java/RTSPHlsConverterServer.java:325 | served files lie strictly under the base directory; it agrees with `Handle` wherever `Handle` serves a contained file, refuses only files outside the base, and sends no response exactly when `Handle` sends none |
| HlsConverter.SinkFor | src/main/java/RTSPHlsConverterServer.java:144-178 | H.264 always; pixel format and video bitrate set iff the source is not H.264 (bitrate from the source or 2 Mbps); frame rate = the source's in (0, 200), else 30 when re-encoding, else unset; AAC with audio; sample rate iff > 0; audio bitrate iff re-encoding audio (source or 128 kbps); channels 0 without audio |
| HlsConverter.CopyLoop | src/main/java/RTSPHlsConverterServer.java:192-214 | the record calls are exactly those of the specification `RecordCalls` over the grabs taken while `running` reads true; `frameCount` is the number of those that succeed |
| HlsConverter.RecordCallsShape | src/main/java/RTSPHlsConverterServer.java:194-213 | every call is for a non-empty frame and sets the frame's timestamp iff it is nonzero; `frameCount` ≤ calls, with equality when no record throws |
| HlsConverter.RecordCallsCountNonEmpty | src/main/java/RTSPHlsConverterServer.java:195-204 | one more grab adds one record call iff its frame is non-empty, and that call carries the frame |
| HlsConverter.StreamingHandles.StopStreamingInternal | src/main/java/RTSPHlsConverterServer.java:234-260 | each non-null handle is stopped once and nulled whatever the outcome; an unchecked exception from the recorder skips the grabber |
| HlsConverter.ShutdownTwice | src/main/java/RTSPHlsConverterServer.java:234-260 | two shutdowns stop each handle at most once and leave both null when nothing unchecked escapes |
| HlsConverterBack.SinkFor | src/main/java/RTSPHlsConverterServerback.java:157-180 | the source codec is copied iff it is nonzero, else H.264/YUV420P; the audio codec is copied when known, else AAC; sample rate, audio bitrate, frame rate (0 < fps < 200) and video bitrate are set only from positive source values, with no defaults |
| HlsConverterBack.VariantsCompared | src/main/java/RTSPHlsConverterServerback.java:157-164 | both variants pass H.264 through without a pixel format; for other known codecs the current server re-encodes while this one copies; an implausible frame rate is never set here |
| HlsConverterBack.CopyLoop | src/main/java/RTSPHlsConverterServerback.java:195-203 | every grabbed frame, in order, is handed to record while `running` reads true |
| HlsConverterBack.StreamingHandles.StopStreamingInternal | src/main/java/RTSPHlsConverterServerback.java:225-249 | a handle is nulled after its try/catch, so it stays set when an unchecked exception escapes, and the grabber is then skipped |
| HlsConverterBack.ShutdownTwice | src/main/java/RTSPHlsConverterServerback.java:225-249 | a second shutdown stops a handle again only if its first stop escaped unchecked; otherwise both end null and each was stopped once |
| LocalIp.IsDottedQuad | src/main/java/StreamingClientMain.java:268 | the pattern `\d{1,3}\.\d{1,3}\.\d{1,3}\.\d{1,3}` matched against the whole address; `DottedQuadOfGroups` and `DottedQuadGroups` prove together that it holds exactly for four groups of 1 to 3 digits joined by dots |
| LocalIp.DottedQuadShape | src/main/java/LocalFileStreamer.java:291 | an accepted address has only digits and dots, exactly three dots, and 7 to 15 characters |
| LocalIp.DottedQuadOfGroups | src/main/java/LocalFileStreamer.java:291 | any four groups of 1 to 3 digits joined by dots match the pattern |
| LocalIp.DottedQuadGroups | src/main/java/LocalFileStreamer.java:291 | conversely, every match is four groups of 1 to 3 digits joined by dots (so "1234.5.6.7" does not match) |
| LocalIp.SuitableLocalIpAddress | src/main/java/LocalFileStreamer.java:282-303 | the nested loop returns exactly `SelectAddress`: the first preferred candidate, else the first candidate, else the local host's address, else "localhost" |
| LocalIp.PreferredHitIsSelected | src/main/java/LocalFileStreamer.java:292 | the early return inside the loop yields the selection rule's answer |
| LocalIp.SkippedInterfaceIsIgnored | src/main/java/LocalFileStreamer.java:287 | an interface that is down, loopback or virtual never changes the result |
| LocalIp.PreferredCandidateWins | src/main/java/LocalFileStreamer.java:288-293 | when any candidate is on a preferred interface, the result is the first such candidate, even after earlier non-preferred ones |
| LocalIp.NoPreferredMeansFirst | src/main/java/LocalFileStreamer.java:297 | with no preferred candidate anywhere, the first candidate in enumeration order is chosen; with no candidate, the local host's address, else "localhost" |
| LocalIp.CandidatesQualify | src/main/java/StreamingClientMain.java:264-268 | every candidate is a dotted-quad, site-local, non-loopback address of a usable interface, tagged with that interface's preference |
| LocalIp.SelectedAddressQualifies | src/main/java/LocalFileStreamer.java:297-301 | the result is a qualifying address when one exists, and otherwise the local host's address or "localhost" |
| RtmpPublisher.AdvertisedHost | src/main/java/LocalFileStreamer.java:192-194 | the host is "localhost" iff the address is null or "localhost"; otherwise it is the address |
| RtmpPublisher.AccessUrl | src/main/java/StreamingClientMain.java:166 | the registered address starts with "rtsp://" and the host, ends with ":8554" and the path, and has nothing in between |
| RtmpPublisher.HostOfAccessUrl | src/main/java/LocalFileStreamer.java:195 | the host is recovered exactly from the registered address by `HostOf`, the inverse of `AccessUrl` (a proof device with no counterpart in the source) |
| RtmpPublisher.AccessUrlOfHost | src/main/java/StreamingClientMain.java:166 | every address `HostOf` accepts is the registered address of the host it returns, so the address and the host determine each other |
| RtmpPublisher.AccessUrlInjective | src/main/java/LocalFileStreamer.java:195 | different hosts give different registered addresses |
| RtmpPublisher.CameraAccessUrl | src/main/java/StreamingClientMain.java:166 | the camera registers "rtsp://" + host + ":8554/live" |
| RtmpPublisher.FileAccessUrl | src/main/java/LocalFileStreamer.java:195 | the file streamer registers "rtsp://" + host + ":8554/file_stream" |
| RtmpPublisher.RegisterRelayedStream | src/main/java/StreamingClientMain.java:161-168 | the advertised host is the selected local address (or "localhost"); the record carries the given name and description and an address whose host is the advertised one; the outcome is `Outcome` of the reply |
| CameraStreamer.RegisterLiveStream | src/main/java/StreamingClientMain.java:161-168 | the camera registers its own name and description with "rtsp://" + advertised host + ":8554/live" |
| FileStreamer.RegisterFileStream | src/main/java/LocalFileStreamer.java:191-197 | the file streamer registers its own name and description with "rtsp://" + advertised host + ":8554/file_stream" |
| RtmpPublisher.PublisherSession.CreateRecorder | src/main/java/StreamingClientMain.java:115 | the recorder reference becomes set; no flag, latch or call count changes |
| RtmpPublisher.PublisherSession.AwaitStart | src/main/java/StreamingClientMain.java:134-153 | after the start thread and the bounded wait, the failure flag is set iff the start timed out or threw `FrameRecorder.Exception` (a start that throws an unchecked exception leaves it clear), and the latch is 1 only after a timeout |
| RtmpPublisher.PublisherSession.FinallyRelease | src/main/java/StreamingClientMain.java:210-223 | stop (and, unless it throws, release) only when the recorder exists, is not already stopped, the start-failure flag is clear and the latch is 0 |
| RtmpPublisher.PublisherTeardown | src/main/java/LocalFileStreamer.java:241-250 | the recorder is stopped exactly once when it was created and the failure flag stayed clear: after a start that returned, and also after one that threw an unchecked exception; never after a timeout or a `FrameRecorder.Exception` |
| RtmpPublisher.LatchTestIsRedundant | src/main/java/StreamingClientMain.java:211-214 | when the failure flag is clear (the start returned or threw an unchecked exception), the latch is already 0; the flag is set exactly after a timeout or a `FrameRecorder.Exception` |
| Registration.StreamCreationRequestDto.Empty | src/main/java/StreamCreationRequestDto.java:8 | all three properties are null |
| Registration.StreamCreationRequestDto.constructor | src/main/java/StreamCreationRequestDto.java:10-14 | stores name, URL and description exactly |
| Registration.StreamCreationRequestDto.GetStreamName | src/main/java/StreamCreationRequestDto.java:16 | returns the stored name; `ConstructionsAgree` and `SetterIsolation` state what that is after each way of building the record |
| Registration.StreamCreationRequestDto.GetRtspUrl | src/main/java/StreamCreationRequestDto.java:18 | returns the stored URL; `ConstructionsAgree` and `SetterIsolation` state what that is after each way of building the record |
| Registration.StreamCreationRequestDto.GetDescription | src/main/java/StreamCreationRequestDto.java:20 | returns the stored description; `ConstructionsAgree` and `SetterIsolation` state what that is after each way of building the record |
| Registration.StreamCreationRequestDto.SetStreamName | src/main/java/StreamCreationRequestDto.java:17 | sets the name and leaves the other two properties unchanged |
| Registration.StreamCreationRequestDto.SetRtspUrl | src/main/java/StreamCreationRequestDto.java:19 | sets the URL and leaves the other two properties unchanged |
| Registration.StreamCreationRequestDto.SetDescription | src/main/java/StreamCreationRequestDto.java:21 | sets the description and leaves the other two properties unchanged |
| Registration.ConstructionsAgree | src/main/java/StreamCreationRequestDto.java:8-21 | the getters return the same values after the three-argument constructor as after the empty constructor plus the setters, in either order |
| Registration.SetterIsolation | src/main/java/StreamCreationRequestDto.java:16-21 | after any one of the three setters, its getter returns the new value and the other two getters are unchanged; an empty record reads null |
| Registration.Outcome | src/main/java/StreamingClientMain.java:250 | registered iff the status is in [200, 300); rejected for any other status; failed iff the exchange threw |
| Registration.RegisterStreamWithServer | src/main/java/LocalFileStreamer.java:263-280 | posts the constructor's three values to http://localhost:8080/api/streams and reports `Outcome` of the reply |
| Media.NegotiateResolution | src/main/java/StreamingClientMain.java:68-76 | the camera's resolution when valid, else the retry's when valid, else none (both directions) |
| Media.FrameTimestampsIncrease | src/main/java/StreamingClientMain.java:192 | frame n is stamped n × 33333 µs, and later frames are at least one period later |
| Media.JavaIntCast | src/main/java/LocalFileStreamer.java:147 | the cast is within the `int` range, truncates toward zero inside it, and saturates to 2^31 - 1 and -2^31 outside it |
| Media.WrapInt32 | src/main/java/LocalFileStreamer.java:147 | the result is within the `int` range, congruent to the true value modulo 2^32, and equal to it when it fits |
| Media.GopSize | src/main/java/StreamingClientMain.java:122 | the GOP is 2 × the whole frames per second for plausible rates; a saturated cast wraps to -2 |
| FileStreamer.EffectiveFrameRate | src/main/java/LocalFileStreamer.java:89-92 | positive; the file's rate when positive, else 30 |
| FileStreamer.SinkFor | src/main/java/LocalFileStreamer.java:86-164 | an error iff the width or height is not positive; otherwise flv, H.264/YUV420P, the effective frame rate, video bitrate from the source or 2 Mbps, GOP from the frame rate; with audio: AAC, the source sample rate, channels, and audio bitrate from the source or 128 kbps |
| FileStreamer.KeyframesEveryTwoSeconds | src/main/java/LocalFileStreamer.java:147 | the GOP is twice the whole effective frame rate, and 60 when the file reports none |
| FileStreamer.ChooseTimestamp | src/main/java/LocalFileStreamer.java:215-220 | no timestamp iff both are 0; the grabber's when nonzero; the frame's when only it is nonzero |
| FileStreamer.StreamLoop | src/main/java/LocalFileStreamer.java:205-231 | records grab k with its chosen timestamp, for as many grabs as both flags and the file allow; a grab that meets a closed preview is taken but not recorded |
| CameraStreamer.Setup | src/main/java/StreamingClientMain.java:114-122 | fatal iff resolution negotiation fails; otherwise flv, no audio, H.264/YUV420P, 30 fps, 2 Mbps, GOP 60 at the negotiated size |
| CameraStreamer.StreamLoop | src/main/java/StreamingClientMain.java:176-200 | records grab k with timestamp k × 33333, for as many grabs as the flag, the preview and the camera allow; frameCount counts every grab even if record throws `FrameRecorder.Exception`; timestamps strictly increase |
| FileRecorder.Settings | src/main/java/LocalVideoFileRecorder.java:109-116 | mp4, H.264/YUV420P, 2 Mbps, 30 fps, no audio, at the given size |
| FileRecorder.Setup | src/main/java/LocalVideoFileRecorder.java:43-64 | recording happens iff resolution negotiation succeeds; the settings are then `Settings` of the negotiated resolution, at a positive size: the camera's own when valid, else the 640x480 retry's |
| FileRecorder.GoodRun | src/main/java/LocalVideoFileRecorder.java:163-186 | the longest prefix of grabs that match the size and record without error |
| FileRecorder.RecordLoop | src/main/java/LocalVideoFileRecorder.java:150-187 | frameCount = min(preview checks, good prefix); call k carries timestamp k × 33333; the exit reason is exactly one of preview closed, null frame, size mismatch, or record failure, each characterised by the frame at `frameCount` |
| FileRecorder.RecorderSession.AwaitStart | src/main/java/LocalVideoFileRecorder.java:122-141 | after the start thread and the bounded wait, the failure flag is set iff the start timed out or threw `FrameRecorder.Exception` (a start that throws an unchecked exception leaves it clear), and the latch is 1 only after a timeout; the reference and call counts are unchanged |
| FileRecorder.RecorderSession.ExplicitStop | src/main/java/LocalVideoFileRecorder.java:190-203 | stop and release, clearing the reference only when both returned |
| FileRecorder.RecorderSession.FinallyRelease | src/main/java/LocalVideoFileRecorder.java:233-251 | stop only when the reference is still set, the start-failure flag is clear and the latch is 0 |
| FileRecorder.RecorderTeardown | src/main/java/LocalVideoFileRecorder.java:190-251 | a recorder whose start timed out or threw `FrameRecorder.Exception` is never stopped; otherwise (including a start that threw an unchecked exception) it is stopped once, and twice exactly when the loop finished and the explicit stop or release threw |

## Left out

- The native library is not modelled: grabber and recorder start, grab, record, stop and release, codec names, and log callbacks. Their results are inputs.
- HLS muxer options, `movflags`, and the grabber's RTSP transport and timeout options are not modelled. They are strings passed to the library and have no visible effect in the model.
- HlsConverter.CopyLoop, HlsConverterBack.CopyLoop, CameraStreamer.StreamLoop and FileStreamer.StreamLoop: a `recordSucceeds` of false means `record` threw `FrameRecorder.Exception`, which these loops catch before going on. An unchecked exception from `record` is not modelled. It leaves the loop: in the HLS servers the conversion task's `catch (Exception)` ends the conversion, and in the publishers it leaves `main` after the `finally` without counting the frame.
- Exceptions thrown by `grab()` inside a loop are left out. They leave the loop through the enclosing `catch`. The teardown methods cover that exit through their `finished` and `created` inputs.
- HTTP I/O is left out: the `HttpServer` setup, the byte-copy loop that sends a served file, and `HttpClient.send`. The JSON encoding of the request record is also left out; the model sends the values its getters return.
- `LocalFileStreamer`'s opening check that the input file exists and is a regular file is not modelled; when it fails, the program returns before anything the model covers.
- File-system queries in the HTTP handler are inputs: `exists`, `isDirectory` and `getCanonicalPath`. A `getCanonicalPath` that throws is an entry without a canonical path, and the handler then sends no response.
- Server and output setup is not modelled: creating the HLS directory with `mkdirs` at startup, and the recorders' output targets (the RTMP publish URLs and "output.mp4"), which are only passed to the library.
- Concurrency is reduced to the outcomes it produces: threads, latches, executors, shutdown hooks and the memory-logging timer. A flag that goes from true to false is the number of its reads that saw true. The start thread is one `StartOutcome`.
- FileRecorder.RecordLoop and FileRecorder.RecorderTeardown: the `CanvasClosed` exit covers only a preview that stops showing while the process keeps running. `LocalVideoFileRecorder` opens its preview with `EXIT_ON_CLOSE` (LocalVideoFileRecorder.java:78). Closing that window, the announced way to stop (:149), ends the process from the event thread. The explicit stop (:190-203) and the `finally` block then never run, and the MP4 is not finalised. The model does not represent process exit.
- Swing preview windows are left out. `RTSPViewer` and `CameraViewMain` are grab-and-show programs and are not part of this model.
- Floating-point NaN and rounding are not modelled. Frame rates are exact reals. NaN passes none of the source's comparisons, and the reals have no counterpart for it.
- In `LocalIp`, `isUp()` throwing a `SocketException` midway is not modelled separately from the enumeration itself throwing. Both end in "localhost", and only the second is an input.
- Printed messages and the printed recording duration are left out.
- HlsConverterBack.StreamingHandles.StopStreamingInternal: idempotent only when no unchecked exception escapes. The code nulls a handle after its `try`/`catch`, not in a `finally`, so an escaping `RuntimeException` leaves the handle set. The model keeps that case and does not claim unconditional idempotence; `ShutdownTwice` states what holds.

## Findings

| source | as written | input that shows it | evidently intended | confidence | as-written member | corrected member |
|---|---|---|---|---|---|---|
| src/main/java/RTSPHlsConverterServer.java:325 | the handler serves a file when its canonical path starts with the base path as a plain string | base "/srv/hls_output", request "/../hls_output_old/key.ts", canonical "/srv/hls_output_old/key.ts": served with 200 | serve only files inside the base directory, i.e. canonical path starting with base + "/" | medium, not executed | HlsFileHandler.SiblingDirectoryIsServed | HlsFileHandler.HandleContained |
