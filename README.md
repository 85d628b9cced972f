# image-blend: channel alignment and alpha transfer, modelled in Dafny

This project models the core of the `image-blend` Rust crate: the engine that
composites one raster image into another with a caller-supplied per-channel
function, and that moves alpha channels between images of different pixel
encodings.

- **Channel-structure classifier** (`enums.dfy`, module `Enums`). A channel
  count of 1 to 4 becomes `L`, `La`, `Rgb` or `Rgba`; any other count is
  `UnsupportedType`. The module answers whether a structure has alpha, whether
  it is rgb, and where its alpha channel is. It maps the ten supported
  `ColorType` encoding tags to structures and gives the names of tags and
  structures.
- **Pairing resolver and blend engine** (`blend_ops.dfy`, module `BlendOps`).
  - `TypeMax` gives the "fully on" value of a subpixel type, including the
    f32 special case.
  - `GetChannels` gives the asymmetric (destination, source) channel pairing.
  - `Blended` is the meaning of a blend as a function on image values.
  - `Blend` runs the two in-place pixel passes over an array, with loop
    invariants, and is proved equal to `Blended`.
- **Alpha transfer** (`alpha_ops.dfy`, module `AlphaOps`). `get_alpha`,
  `set_alpha` and `transplant_alpha` are here, each as a value-level
  specification (`AlphaRendition`, `WithAlphaFrom`, `Transplanted`) and as an
  imperative method over buffers proved against it.
- **Dynamic dispatcher** (`dynamic_blend.dfy`, module `DynamicBlend`). A
  `DynamicImage` pairs an encoding tag with its buffer. The dispatcher resolves
  the tag of both operands, then delegates to the generic operation.
- **Support.** `errors.dfy` holds the error type of `src/error.rs` and the
  `Option`/`Result`/`Outcome` shapes. `buffers.dfy` holds the stand-in for the
  image library's pixel buffer:
  - a `Raster` value: width, height, channel count, subpixel kind and one
    sample sequence per pixel;
  - an `ImageBuffer` class whose `data: array<seq<real>>` the operations
    update in place, pixel by pixel.

Samples are exact reals. They are divided by `TypeMax` to reach unit space.
They are written back by clamping to [0, 1], scaling, and casting to the
subpixel type. For the integer types the cast truncates toward zero; for f32
it is exact.

The source's `&mut self` and `&other` can never alias, so every operation
requires the two buffers to be distinct arrays. The source (`other`) is
therefore never written.

Points of the code's behaviour worth stating explicitly:
- **Blend weight.** The colour pass takes its weight from the source pixel's
  alpha (src/blend_ops.rs:63-68, documented at src/dynamic_blend.rs:13), not
  the destination's. So in `MultiplyRgba8Example` the destination pixel
  (50, 50, 50, 0) under an opaque source becomes (39, 39, 39, 0).
- **Check order on the dynamic path.** The dynamic entry points check both
  encoding tags (`UnsupportedType`) before the dimension check runs.
- **get_alpha on unsupported layouts.** The generic `get_alpha` returns
  nothing for an unsupported channel count as well as for a layout without
  alpha.
- The crate has no strip-alpha operation.

## Model

| member | source | states |
|---|---|---|
| `Enums.Classify` | src/enums.rs:12-19 | succeeds exactly for channel counts 1 to 4, with the structure carrying that many channels; every other count gives `UnsupportedType` |
| `Enums.ClassifyChannelCount` | src/enums.rs:12-19 | classification recovers every structure from its channel count |
| `Enums.HasAlpha` | src/enums.rs:36-41 | true exactly for the structures with an even channel count (`La`, `Rgba`) |
| `Enums.IsRgb` | src/enums.rs:42-47 | true exactly for the structures with three or more channels (`Rgb`, `Rgba`) |
| `Enums.AlphaChannel` | src/enums.rs:48-54 | present exactly when the structure has alpha, and then it is the last channel, `channels - 1` |
| `Enums.ColorStrInjective` | src/enums.rs:77-86 | the four structure names are distinct |
| `Enums.ColorStr` | src/enums.rs:77-86 | the name of a structure has one letter per channel: it starts with `R` exactly for the rgb structures (otherwise `L`) and ends in `a` exactly for those with alpha |
| `Enums.StructureOf` | src/enums.rs:24-34 | each of the ten supported tags maps to the structure its channel count classifies to, so the 8-bit, 16-bit and f32 variants of a layout share one structure; only supported tags are accepted |
| `Enums.ColorTypeStr` | src/enums.rs:60-76 | the name is "Unknown" exactly for unsupported tags |
| `Enums.ColorTypeStrInjective` | src/enums.rs:60-76 | distinct supported tags have distinct names |
| `BlendOps.DimsMatch` | src/blend_ops.rs:15-20 | fails, with `DimensionMismatch`, exactly when the (width, height) pairs differ |
| `BlendOps.TypeMax` | src/blend_ops.rs:101-109 | 255 for u8, 65535 for u16 and 1.0 for f32: the f32 maximum is replaced by 1 |
| `BlendOps.Quantize` | src/blend_ops.rs:77-77 | the `NumCast` back to the subpixel type: the identity for f32; for u8 and u16 an integer that truncates toward zero, at most 1 away from the value and never further from zero |
| `BlendOps.Store` | src/blend_ops.rs:91-91 | the write-back clamp-scale-cast: anything at or below 0 becomes 0, anything at or above 1 becomes the type max, and for f32 the value is the clamped unit value |
| `BlendOps.AlphaWeight` | src/blend_ops.rs:63-68 | the weight is 1 for a source without alpha; otherwise it is the source pixel's last (alpha) sample in unit space, within [0, 1] for an in-range sample and 1 for a fully opaque one |
| `BlendOps.GetChannels` | src/blend_ops.rs:115-136 | fails with `UnsupportedBlend(dst name, src name)` exactly for a luma destination and an rgb source. Otherwise: rgb from rgb pairs (0,0),(1,1),(2,2); rgb from luma broadcasts (0,0),(1,0),(2,0); luma from luma pairs (0,0). No colour pair names an alpha index. The alpha pair is present exactly when both sides have alpha, and it names the last channel of each |
| `BlendOps.StoreInRange` | src/blend_ops.rs:77-77 | every written-back value lies in [0, type max] and is integral for the integer types |
| `BlendOps.ColourPass` | src/blend_ops.rs:59-81 | the colour pass keeps the image's header and shape |
| `BlendOps.AlphaPass` | src/blend_ops.rs:82-95 | the alpha pass keeps the image's header and shape |
| `BlendOps.Blended` | src/blend_ops.rs:50-54 | `DimensionMismatch` exactly when dimensions differ, before any classification; then `UnsupportedType` for the destination's, then the source's, channel count; then `UnsupportedBlend` for luma from rgb; it succeeds exactly when none applies, with the same header and shape |
| `BlendOps.BlendedColourSample` | src/blend_ops.rs:63-78 | a paired colour channel keeps its value when the source weight is 0, else becomes clamp(op(dst, src) * w + dst * (1 - w)) rescaled and cast |
| `BlendOps.BlendedTransparentSourcePixel` | src/blend_ops.rs:63-71 | under a source pixel whose alpha is 0, every colour channel of the destination pixel is unchanged; without the alpha pass, the whole pixel is |
| `BlendOps.BlendedOpaqueSourceIsUnweighted` | src/blend_ops.rs:63-76 | with no source alpha, or a fully opaque source pixel, a paired colour channel is clamp(op(dst, src)) rescaled and cast |
| `BlendOps.BlendedAlphaSample` | src/blend_ops.rs:83-93 | the alpha pass writes clamp(op(dst alpha, src alpha)), unweighted, into the destination alpha channel |
| `BlendOps.BlendedFrame` | src/blend_ops.rs:59-95 | a sample is unchanged unless it is a paired colour channel with the colour pass on, or the destination alpha with the alpha pass on and alpha on both sides |
| `BlendOps.BlendedNothingRequested` | src/blend_ops.rs:59-95 | with both passes off, a successful blend changes nothing |
| `BlendOps.BlendedInRange` | src/blend_ops.rs:73-92 | every sample a blend changes is within the destination's range, so an in-range destination stays in range |
| `BlendOps.MultiplyRgba8Example` | src/blend_ops.rs:59-80 | multiplying (100,100,100,255),(50,50,50,0) by an opaque (200,200,200,255) source gives (78,78,78,255),(39,39,39,0) |
| `BlendOps.AddAcrossDepthsSaturates` | src/blend_ops.rs:56-78 | adding a u16 sample 32768 into a u8 sample 128 clamps to 255 |
| `BlendOps.Blend` | src/blend_ops.rs:43-98 | returns the outcome of `Blended`; on success the buffer holds `Blended`'s image, on every error it is unchanged; only the destination is written |
| `BlendOps.ColourPassInPlace` | src/blend_ops.rs:59-81 | the per-pixel loop leaves the buffer equal to `ColourPass` of its old contents |
| `BlendOps.BlendColourPixel` | src/blend_ops.rs:72-79 | the loop over the pairs, in order, yields `ColourPixel` |
| `BlendOps.AlphaPassInPlace` | src/blend_ops.rs:82-95 | the per-pixel loop leaves the buffer equal to `AlphaPass` of its old contents |
| `AlphaOps.AlphaRendition` | src/alpha_ops.rs:51-77 | nothing exactly for an unsupported channel count or a layout without alpha; otherwise an image with the same header and shape |
| `AlphaOps.AlphaRenditionSamples` | src/alpha_ops.rs:58-75 | in the rendition every colour channel holds that pixel's alpha sample and the alpha channel holds the type max |
| `AlphaOps.GetAlpha` | src/alpha_ops.rs:51-77 | returns a fresh buffer holding `AlphaRendition` of the input (nothing when that is nothing); the input is only read |
| `AlphaOps.Rescale` | src/alpha_ops.rs:177-178 | carrying a sample from one subpixel type to another through unit space keeps it in range, sends 0 to 0 and the source type max to the destination type max; the same conversion serves src/alpha_ops.rs:199-200 |
| `AlphaOps.RenderAlphaPixel` | src/alpha_ops.rs:67-75 | overwriting the listed colour channels, then the alpha channel, yields `RenditionPixel` |
| `AlphaOps.WithAlphaFrom` | src/alpha_ops.rs:164-182 | `DimensionMismatch` first, then `UnsupportedType` or `NoAlphaChannel` from the destination alone; it succeeds exactly for equal dimensions and a destination with 2 or 4 channels, whatever the other image's channel count |
| `AlphaOps.WithAlphaFromSamples` | src/alpha_ops.rs:175-180 | each alpha sample becomes the other image's channel 0 rescaled to the destination type; colour samples are untouched |
| `AlphaOps.WithAlphaFromReadsFirstChannel` | src/alpha_ops.rs:88-89 | the result depends on the other image only through its dimensions, its subpixel type and its channel 0 |
| `AlphaOps.SetAlpha` | src/alpha_ops.rs:164-182 | returns the outcome of `WithAlphaFrom`; on success the buffer holds its image, on every error it is unchanged |
| `AlphaOps.Transplanted` | src/alpha_ops.rs:183-204 | `DimensionMismatch`, then classification errors for either side, then `NoAlphaChannel` if either side lacks alpha; it succeeds exactly when none applies |
| `AlphaOps.TransplantedSamples` | src/alpha_ops.rs:197-202 | each alpha sample becomes the other image's alpha sample rescaled; colour samples are untouched |
| `AlphaOps.RescaleSameKind` | src/alpha_ops.rs:199-200 | rescaling an in-range sample to its own type gives it back |
| `AlphaOps.TransplantedSameKindCopies` | src/alpha_ops.rs:194-202 | between images of one subpixel type, alpha is copied verbatim |
| `AlphaOps.TransplantAlpha` | src/alpha_ops.rs:183-204 | returns the outcome of `Transplanted`; on success the buffer holds its image, on every error it is unchanged |
| `AlphaOps.WithAlphaFromRenditionIsTransplant` | src/tests.rs:177-183 | setting alpha from the rendition of b's alpha gives the same result, errors included, as transplanting b's alpha |
| `AlphaOps.AlphaRoundTrip` | src/alpha_ops.rs:51-182 | setting an in-range image's alpha from the rendition of its own alpha gives the image back |
| `DynamicBlend.DynBlend` | src/dynamic_blend.rs:191-212 | an unsupported destination or source tag gives `UnsupportedType`, with nothing written; otherwise result and effect are those of the generic blend on the wrapped buffers |
| `DynamicBlend.BlendStepA` | src/dynamic_blend.rs:272-292 | an unsupported source tag gives `UnsupportedType`; otherwise it is the generic blend |
| `DynamicBlend.DynGetAlpha` | src/dynamic_blend.rs:213-232 | nothing exactly for an unsupported tag or an encoding without alpha; otherwise a fresh image with the same tag holding `AlphaRendition`; the input is never written |
| `DynamicBlend.GetAlphaStepA` | src/dynamic_blend.rs:293-301 | `NoAlphaChannel` exactly when the rendition is nothing; otherwise the replacement buffer holds the rendition |
| `DynamicBlend.DynSetAlpha` | src/dynamic_blend.rs:252-270 | an unsupported tag on either side gives `UnsupportedType`, with nothing written; otherwise it is the generic `set_alpha` |
| `DynamicBlend.SetAlphaStepA` | src/dynamic_blend.rs:302-322 | an unsupported source tag gives `UnsupportedType`; otherwise it is the generic `set_alpha` |
| `DynamicBlend.DynTransplantAlpha` | src/dynamic_blend.rs:233-251 | an unsupported tag on either side gives `UnsupportedType`, with nothing written; otherwise it is the generic `transplant_alpha` |
| `DynamicBlend.TransplantAlphaStepA` | src/dynamic_blend.rs:323-343 | an unsupported source tag gives `UnsupportedType`; otherwise it is the generic `transplant_alpha` |
| `DynamicBlend.TaggedAlpha` | src/dynamic_blend.rs:216-231 | for a supported tag, the rendition exists exactly when the tag's structure has alpha |
| `DynamicBlend.SupportedBlendFailsIffLumaFromRgb` | src/tests.rs:80-83 | among the ten encodings, a same-sized blend fails exactly for a luma destination and an rgb source, with `UnsupportedBlend` naming both structures |
| `DynamicBlend.SupportedAlphaTransfer` | src/alpha_ops.rs:187-192 | among the ten encodings, transplant succeeds exactly when both carry alpha, and set exactly when the destination does |

## Left out

- Named blend modes (`src/pixelops.rs`): the engine takes any `(real, real) -> real` function. `Product` and `Sum` stand in for multiply and add in the two examples only.
- Floating point: samples and unit values are exact reals. f64 rounding, NaN from `op`, and rounding to nearest when writing an f32 sample are not modelled.
- The `NumCast(...).unwrap()` panics: a value outside the destination type's range is written truncated instead of panicking. This matters only for `set_alpha` and `transplant_alpha`, which do not clamp. The lemmas that need in-range samples assume them (`SamplesInRange`).
- `StructureOf`: the panic on tags outside the ten is modelled as a precondition.
- Subpixel types other than u8, u16 and f32 (u32, signed integers, f64) are not modelled. An f64 image would keep f64's maximum as its type max.
- The image library itself is replaced by the flat-sample model: its `ImageBuffer` and `DynamicImage` memory layout, decoding, saving and format conversions. One pixel is an immutable sequence that is replaced as a whole when one of its channels is written; the channel count is fixed per buffer and is at least 1.
- `*subject = alpha` in `get_alpha_step_a` is modelled by returning the replacement buffer. The clone it replaces is fresh, so nothing else can observe the difference.
- Error message strings (`src/error.rs`), module and lint declarations (`src/lib.rs`), test file I/O and rayon parallelism (`src/tests.rs`).
- `RescaleSameKind`: holds in exact arithmetic only. Whether f64 reproduces v / max * max exactly is not modelled.
