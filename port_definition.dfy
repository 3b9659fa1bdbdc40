/**
 * The input port definition that the encode loop derives from its
 * arguments before handing it back to the video encoder, and the Q16.16
 * frame rate that is written into it and read back when the definition is
 * reported.
 */
module PortDefinition {

  import opened Common
  import FrameLayout

  const Q16_ONE: int := 0x10000

  /** `OMX_COLOR_FormatYUV420PackedPlanar` in the OpenMAX IL colour format enumeration. */
  const ColorFormatYUV420PackedPlanar: u32 := 20

  datatype Direction = DirInput | DirOutput

  /** The video view of a port definition's format union (`format.video`). */
  datatype VideoFormat = VideoFormat(
    nFrameWidth: u32,
    nFrameHeight: u32,
    nStride: int,
    nSliceHeight: u32,
    nBitrate: u32,
    xFramerate: u32,
    bFlagErrorConcealment: bool,
    eCompressionFormat: u32,
    eColorFormat: u32)

  /**
   * `OMX_PARAM_PORTDEFINITIONTYPE`, without the size and version header and
   * without `eDomain`, `format.video.cMIMEType`, `format.video.pNativeRender`
   * and `format.video.pNativeWindow`, which the encode loop neither sets nor reads.
   */
  datatype PortDef = PortDef(
    nPortIndex: u32,
    eDir: Direction,
    nBufferCountActual: u32,
    nBufferCountMin: u32,
    nBufferSize: u32,
    nBufferAlignment: u32,
    bEnabled: bool,
    bPopulated: bool,
    bBuffersContiguous: bool,
    video: VideoFormat)

  /** The conversion of an `OMX_U32` to the signed `OMX_S32` of `nStride`. */
  function ToS32(x: u32): (r: int)
    ensures -0x8000_0000 <= r < 0x8000_0000
    ensures (r - x as int) % U32_MODULUS == 0
    ensures x as int < 0x8000_0000 ==> r == x as int
  {
    if x as int < 0x8000_0000 then x as int else x as int - U32_MODULUS
  }

  /** `frameRate << 16` on an unsigned 32-bit value: the bits shifted past bit 31 are lost. */
  function ToQ16(frameRate: u32): (x: u32)
    ensures x as int == (frameRate as int % Q16_ONE) * Q16_ONE
  {
    var y := frameRate as int * Q16_ONE;
    DivModUnique(y, U32_MODULUS, frameRate as int / Q16_ONE, (frameRate as int % Q16_ONE) * Q16_ONE);
    (y % U32_MODULUS) as u32
  }

  /** `xFramerate >> 16`: the whole frames per second of a Q16.16 rate. */
  function FromQ16(x: u32): (rate: int)
    ensures 0 <= rate < Q16_ONE
    ensures rate * Q16_ONE <= x as int < (rate + 1) * Q16_ONE
  {
    x as int / Q16_ONE
  }

  /**
   * Reading back a rate written in Q16.16 gives the rate modulo 2^16, which
   * is the rate itself exactly when it is below 2^16.
   */
  lemma Q16RoundTrip(frameRate: u32)
    ensures FromQ16(ToQ16(frameRate)) == frameRate as int % Q16_ONE
    ensures FromQ16(ToQ16(frameRate)) == frameRate as int <==> frameRate as int < Q16_ONE
  {
    var r := frameRate as int % Q16_ONE;
    DivModUnique(ToQ16(frameRate) as int, Q16_ONE, r, 0);
  }

  /** The frame rate that `print_def_` reports for a video port: the integer part of `xFramerate`. */
  function ReportedFrameRate(def: PortDef): (rate: int)
    ensures 0 <= rate < Q16_ONE
    ensures rate * Q16_ONE <= def.video.xFramerate as int < (rate + 1) * Q16_ONE
  {
    FromQ16(def.video.xFramerate)
  }

  /**
   * The field updates of `capture_encode_loop` on the encoder's input port
   * definition as read from the component: buffer size, frame geometry,
   * Q16.16 frame rate, a stride equal to the width, a slice height equal
   * to the height, and the colour format.
   */
  function ConfigureInputPort(def: PortDef, frameWidth: u32, frameHeight: u32, frameRate: u32,
                              colorFormat: u32, bufsize: u32): (r: PortDef)
    ensures r.nBufferSize == bufsize
    ensures r.video.nFrameWidth == frameWidth && r.video.nFrameHeight == frameHeight
    ensures r.video.nStride == ToS32(frameWidth) && r.video.nSliceHeight == frameHeight
    ensures r.video.eColorFormat == colorFormat
    ensures r.video.xFramerate == ToQ16(frameRate)
    ensures FromQ16(r.video.xFramerate) == frameRate as int % Q16_ONE
    ensures SameOutsideConfiguration(r, def)
  {
    Q16RoundTrip(frameRate);
    var video := def.video.(
      nFrameWidth := frameWidth,
      nFrameHeight := frameHeight,
      xFramerate := ToQ16(frameRate));
    var video := video.(
      nSliceHeight := video.nFrameHeight,
      nStride := ToS32(video.nFrameWidth),
      eColorFormat := colorFormat);
    def.(nBufferSize := bufsize, video := video)
  }

  /** Two port definitions agree on every modelled field that the encode loop does not set. */
  predicate SameOutsideConfiguration(a: PortDef, b: PortDef) {
    && a.nPortIndex == b.nPortIndex
    && a.eDir == b.eDir
    && a.nBufferCountActual == b.nBufferCountActual
    && a.nBufferCountMin == b.nBufferCountMin
    && a.nBufferAlignment == b.nBufferAlignment
    && a.bEnabled == b.bEnabled
    && a.bPopulated == b.bPopulated
    && a.bBuffersContiguous == b.bBuffersContiguous
    && a.video.nBitrate == b.video.nBitrate
    && a.video.bFlagErrorConcealment == b.video.bFlagErrorConcealment
    && a.video.eCompressionFormat == b.video.eCompressionFormat
  }

  /** The definition `print_def_` reports after configuration shows the configured rate whenever it is below 2^16. */
  lemma ReportedRateIsConfigured(def: PortDef, frameWidth: u32, frameHeight: u32, frameRate: u32,
                                 colorFormat: u32, bufsize: u32)
    requires frameRate as int < Q16_ONE
    ensures ReportedFrameRate(ConfigureInputPort(def, frameWidth, frameHeight, frameRate, colorFormat, bufsize)) == frameRate as int
  {
    Q16RoundTrip(frameRate);
  }

  /** Configuring a definition that is already configured with the same arguments changes nothing. */
  lemma ConfigureIdempotent(def: PortDef, frameWidth: u32, frameHeight: u32, frameRate: u32,
                            colorFormat: u32, bufsize: u32)
    ensures var once := ConfigureInputPort(def, frameWidth, frameHeight, frameRate, colorFormat, bufsize);
      ConfigureInputPort(once, frameWidth, frameHeight, frameRate, colorFormat, bufsize) == once
  {
  }

  /**
   * The field updates of `video_encode_test` for the test card: `WIDTH` by
   * `HEIGHT`, 30 frames per second, stride and slice height equal to the
   * frame size, planar YUV 4:2:0; the buffer size is left as read.
   */
  function ConfigureTestCardPort(def: PortDef): (r: PortDef)
    ensures r == ConfigureInputPort(def, FrameLayout.Width as u32, FrameLayout.Height as u32, 30,
                                    ColorFormatYUV420PackedPlanar, def.nBufferSize)
    ensures r.video.xFramerate == 1966080 && ReportedFrameRate(r) == 30
  {
    FrameLayout.DemoConstants();
    var video := def.video.(
      nFrameWidth := FrameLayout.Width as u32,
      nFrameHeight := FrameLayout.Height as u32,
      xFramerate := ToQ16(30));
    var video := video.(
      nSliceHeight := video.nFrameHeight,
      nStride := ToS32(video.nFrameWidth),
      eColorFormat := ColorFormatYUV420PackedPlanar);
    def.(video := video)
  }
}
