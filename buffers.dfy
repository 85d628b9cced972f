/** A flat-sample stand-in for the image library's pixel buffer: a
    width x height grid of pixels stored row by row, every pixel holding the
    same number of channels of one subpixel type. Samples are exact reals. */
module Buffers {

  /** The subpixel types the model covers. */
  datatype Subpixel = U8 | U16 | F32

  /** The largest value of f32, as an f64. */
  const F32Max: real := 340282346638528859811704183484516925440.0

  /** The subpixel primitive's largest representable value, as an f64. */
  function MaxValue(k: Subpixel): real {
    match k
    case U8 => 255.0
    case U16 => 65535.0
    case F32 => F32Max
  }

  /** An image as a value: header plus one sample sequence per pixel. */
  datatype Raster = Raster(width: nat, height: nat, channels: nat, kind: Subpixel, pixels: seq<seq<real>>)

  /** Every pixel is present and has the buffer's channel count, which is at
      least one. */
  ghost predicate Shaped(r: Raster) {
    && r.channels >= 1
    && |r.pixels| == r.width * r.height
    && forall p :: 0 <= p < |r.pixels| ==> |r.pixels[p]| == r.channels
  }

  /** Two rasters with the same dimensions, channel count and subpixel type. */
  ghost predicate SameHeader(r: Raster, s: Raster) {
    r.width == s.width && r.height == s.height && r.channels == s.channels && r.kind == s.kind
  }

  /** A pixel buffer whose samples are updated in place, pixel by pixel. */
  class ImageBuffer {
    const width: nat
    const height: nat
    const channels: nat
    const kind: Subpixel
    const data: array<seq<real>>

    ghost predicate Valid()
      reads data
    {
      Shaped(View())
    }

    ghost function View(): Raster
      reads data
    {
      Raster(width, height, channels, kind, data[..])
    }

    /** A buffer holding a copy of the given pixels. */
    constructor (width: nat, height: nat, channels: nat, kind: Subpixel, pixels: seq<seq<real>>)
      requires Shaped(Raster(width, height, channels, kind, pixels))
      ensures Valid() && fresh(data)
      ensures View() == Raster(width, height, channels, kind, pixels)
    {
      this.width := width;
      this.height := height;
      this.channels := channels;
      this.kind := kind;
      this.data := new seq<real>[|pixels|](i requires 0 <= i < |pixels| => pixels[i]);
    }
  }
}
