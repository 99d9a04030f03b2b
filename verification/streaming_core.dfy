/**
 * The shared data types of the streaming workspace: the pixel formats a
 * camera can deliver, their V4L2 FourCC codes, and the records that describe
 * what a camera supports.
 */
module StreamingCore {
  import opened Basics

  /** A V4L2 FourCC: exactly four bytes, usually four ASCII letters or digits. */
  type FourCC = s: seq<uint8> | |s| == 4 witness [0, 0, 0, 0]

  /** The byte of an ASCII character. */
  function Ascii(c: char): uint8
    requires c as int < 0x80
  {
    c as int as uint8
  }

  const MjpgCode: FourCC := [Ascii('M'), Ascii('J'), Ascii('P'), Ascii('G')]
  const YuyvCode: FourCC := [Ascii('Y'), Ascii('U'), Ascii('Y'), Ascii('V')]
  const Rgb3Code: FourCC := [Ascii('R'), Ascii('G'), Ascii('B'), Ascii('3')]
  const Bgr3Code: FourCC := [Ascii('B'), Ascii('G'), Ascii('R'), Ascii('3')]
  const Yu12Code: FourCC := [Ascii('Y'), Ascii('U'), Ascii('1'), Ascii('2')]
  const Yv12Code: FourCC := [Ascii('Y'), Ascii('V'), Ascii('1'), Ascii('2')]

  /** The six codes the decoder recognises. */
  const KnownCodes: set<FourCC> := {MjpgCode, YuyvCode, Rgb3Code, Bgr3Code, Yu12Code, Yv12Code}

  datatype PixelFormat = MJPG | YUYV | RGB3 | BGR3 | YU12 | YV12

  /** A captured frame. The frame's wall-clock timestamp is not modelled. */
  datatype Frame = Frame(
    format: PixelFormat,
    width: uint32,
    height: uint32,
    sequence: uint64,
    data: seq<uint8>)

  datatype Resolution = Resolution(width: uint32, height: uint32)

  /** One pixel format a camera offers, with the frame sizes it offers it in. */
  datatype FormatCapability = FormatCapability(format: PixelFormat, resolutions: seq<Resolution>)

  datatype CameraCapabilities = CameraCapabilities(formats: seq<FormatCapability>)

  /** Decodes a FourCC. Total: a known code gives the format that encodes to it,
      and every other code falls back to YUYV. */
  function FromFourCC(code: FourCC): (p: PixelFormat)
    ensures code in KnownCodes ==> ToFourCC(p) == code
    ensures code !in KnownCodes ==> p == YUYV
  {
    if code == MjpgCode then MJPG
    else if code == YuyvCode then YUYV
    else if code == Rgb3Code then RGB3
    else if code == Bgr3Code then BGR3
    else if code == Yu12Code then YU12
    else if code == Yv12Code then YV12
    else YUYV
  }

  /** Encodes a format as its FourCC, always one of the known codes. */
  function ToFourCC(p: PixelFormat): (code: FourCC)
    ensures code in KnownCodes
  {
    match p
    case MJPG => MjpgCode
    case YUYV => YuyvCode
    case RGB3 => Rgb3Code
    case BGR3 => Bgr3Code
    case YU12 => Yu12Code
    case YV12 => Yv12Code
  }

  /** Encoding then decoding gives the format back. */
  lemma FormatRoundTrip(p: PixelFormat)
    ensures FromFourCC(ToFourCC(p)) == p
  {
  }

  /** Decoding then encoding gives the code back exactly for the six known codes. */
  lemma CodeRoundTrip(code: FourCC)
    ensures ToFourCC(FromFourCC(code)) == code <==> code in KnownCodes
  {
  }

  /** An unrecognised code decodes to YUYV and so re-encodes as "YUYV". */
  lemma UnknownCodeFallsBack(code: FourCC)
    requires code !in KnownCodes
    ensures FromFourCC(code) == YUYV
    ensures ToFourCC(FromFourCC(code)) == YuyvCode
  {
  }

  /** Distinct formats have distinct codes. */
  lemma ToFourCCInjective(p: PixelFormat, q: PixelFormat)
    ensures ToFourCC(p) == ToFourCC(q) <==> p == q
  {
  }

  /** The known codes are exactly the codes some format encodes to. */
  lemma KnownCodesAreImage(code: FourCC)
    ensures code in KnownCodes <==> exists p :: ToFourCC(p) == code
  {
    if code in KnownCodes {
      assert ToFourCC(FromFourCC(code)) == code;
    }
  }

  /** The codes that decode to `p`: its own code, plus every unknown code when `p` is YUYV. */
  lemma DecodePreimage(code: FourCC, p: PixelFormat)
    ensures FromFourCC(code) == p <==> code == ToFourCC(p) || (p == YUYV && code !in KnownCodes)
  {
  }

  /** Normalising a code through the format type is idempotent. */
  lemma NormaliseIdempotent(code: FourCC)
    ensures FromFourCC(ToFourCC(FromFourCC(code))) == FromFourCC(code)
  {
  }
}
