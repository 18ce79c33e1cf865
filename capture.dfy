/** How a runner opens its video source (`_open_capture`, identical in both runners). */
module Capture {
  import opened Config

  /** The way a capture is opened. */
  datatype CaptureConfig =
    | DefaultCamera                            // device index 0
    | Stream(url: string, bufferSize: nat)     // the FFmpeg backend with the given capture buffer depth
    | FileOrUrl(path: string)                  // any other source, opened as a path

  /** Why a read loop stopped: the source ended, ESC was pressed, or the modelled reads ran out. */
  datatype StopReason = EndOfStream | EscPressed | OutOfReads

  /** The buffer depth forced on streaming sources. */
  const StreamBufferSize: nat := 1

  /** `"0"` is tested first; an RTSP source is streamed with a one-frame buffer; anything else is a path. */
  function OpenCapture(s: Settings): (c: CaptureConfig)
    ensures c.DefaultCamera? <==> s.source == "0"
    ensures c.Stream? <==> IsRtspSource(s)
    ensures c.Stream? ==> c == Stream(s.source, StreamBufferSize)
    ensures c.FileOrUrl? ==> c.path == s.source
  {
    if s.source == "0" then DefaultCamera
    else if IsRtspSource(s) then Stream(s.source, StreamBufferSize)
    else FileOrUrl(s.source)
  }

  /** The default-device test comes first, but no RTSP source is `"0"`, so the order never decides. */
  lemma DefaultCameraIsNotRtsp(s: Settings)
    requires s.source == "0"
    ensures !IsRtspSource(s)
  {
  }
}
