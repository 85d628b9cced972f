/** Channel structures and the encoding tags that resolve to them. */
module Enums {
  import opened Errors
  import opened Buffers

  /** The four channel layouts the engine aligns: luma, luma+alpha, rgb, rgba. */
  datatype ColorStructure = L | La | Rgb | Rgba

  /** How many channels a pixel of each layout carries. */
  function ChannelCount(s: ColorStructure): nat {
    match s
    case L => 1
    case La => 2
    case Rgb => 3
    case Rgba => 4
  }

  /** Classifies a buffer by its channel count (the sample layout's
      `channels`); any count other than 1 to 4 is unsupported. */
  function Classify(channels: nat): (r: Result<ColorStructure>)
    ensures r.Ok? <==> 1 <= channels <= 4
    ensures r.Ok? ==> ChannelCount(r.value) == channels
    ensures r.Err? ==> r.error == UnsupportedType
  {
    match channels
    case 1 => Ok(L)
    case 2 => Ok(La)
    case 3 => Ok(Rgb)
    case 4 => Ok(Rgba)
    case _ => Err(UnsupportedType)
  }

  /** Classification recovers every structure from its channel count. */
  lemma ClassifyChannelCount(s: ColorStructure)
    ensures Classify(ChannelCount(s)) == Ok(s)
  {
  }

  /** Whether the layout carries an alpha channel: the two even layouts. */
  function HasAlpha(s: ColorStructure): (r: bool)
    ensures r <==> ChannelCount(s) % 2 == 0
  {
    match s
    case La | Rgba => true
    case _ => false
  }

  /** Whether the layout has three colour channels rather than one luma channel. */
  function IsRgb(s: ColorStructure): (r: bool)
    ensures r <==> ChannelCount(s) >= 3
  {
    match s
    case L | La => false
    case Rgb | Rgba => true
  }

  /** The index of the alpha channel: present exactly when the layout has
      alpha, and always the last channel. */
  function AlphaChannel(s: ColorStructure): (r: Option<nat>)
    ensures r.Some? <==> HasAlpha(s)
    ensures r.Some? ==> r.value == ChannelCount(s) - 1
  {
    match s
    case La => Some(1)
    case Rgba => Some(3)
    case _ => None
  }

  /** The name of a structure, as carried by `UnsupportedBlend`. */
  function ColorStr(s: ColorStructure): (r: string)
    ensures |r| == ChannelCount(s)
    ensures r[0] == (if IsRgb(s) then 'R' else 'L')
    ensures HasAlpha(s) <==> r[|r| - 1] == 'a'
  {
    match s
    case L => "L"
    case La => "La"
    case Rgb => "Rgb"
    case Rgba => "Rgba"
  }

  /** The four structure names are distinct. */
  lemma ColorStrInjective(s: ColorStructure, t: ColorStructure)
    ensures ColorStr(s) == ColorStr(t) ==> s == t
  {
  }

  /** The runtime encoding tag of a dynamic image: the ten encodings the
      engine handles, plus `Unknown` for every other tag the image library
      may report. */
  datatype ColorType =
    | L8 | La8 | Rgb8 | Rgba8
    | L16 | La16 | Rgb16 | Rgba16
    | Rgb32F | Rgba32F
    | Unknown

  predicate Supported(t: ColorType) {
    t != Unknown
  }

  /** The channel count of each supported encoding, as the image library defines it. */
  function ChannelsOf(t: ColorType): nat
    requires Supported(t)
  {
    match t
    case L8 | L16 => 1
    case La8 | La16 => 2
    case Rgb8 | Rgb16 | Rgb32F => 3
    case Rgba8 | Rgba16 | Rgba32F => 4
  }

  /** The subpixel type of each supported encoding, as the image library defines it. */
  function SubpixelOf(t: ColorType): Subpixel
    requires Supported(t)
  {
    match t
    case L8 | La8 | Rgb8 | Rgba8 => U8
    case L16 | La16 | Rgb16 | Rgba16 => U16
    case Rgb32F | Rgba32F => F32
  }

  /** The structure of an encoding tag (the conversion panics on any other tag):
      it is the structure its channel count classifies to, so the 8-bit,
      16-bit and float variants of one layout share it. */
  function StructureOf(t: ColorType): (r: ColorStructure)
    requires Supported(t)
    ensures Classify(ChannelsOf(t)) == Ok(r)
  {
    match t
    case L8 | L16 => L
    case La8 | La16 => La
    case Rgb8 | Rgb16 | Rgb32F => Rgb
    case Rgba8 | Rgba16 | Rgba32F => Rgba
  }

  /** The name of an encoding tag. */
  function ColorTypeStr(t: ColorType): (r: string)
    ensures r == "Unknown" <==> !Supported(t)
  {
    match t
    case L8 => "L8"
    case La8 => "La8"
    case Rgb8 => "Rgb8"
    case Rgba8 => "Rgba8"
    case L16 => "L16"
    case La16 => "La16"
    case Rgb16 => "Rgb16"
    case Rgba16 => "Rgba16"
    case Rgb32F => "Rgb32F"
    case Rgba32F => "Rgba32F"
    case Unknown => "Unknown"
  }

  /** Distinct supported encodings have distinct names. */
  lemma ColorTypeStrInjective(t: ColorType, u: ColorType)
    requires Supported(t) && Supported(u)
    ensures ColorTypeStr(t) == ColorTypeStr(u) ==> t == u
  {
  }
}
