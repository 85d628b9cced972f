/** Alpha transfer: reading an alpha channel out as a grayscale image,
    writing one image's first channel into another's alpha channel, and
    copying alpha to alpha. */
module AlphaOps {
  import opened Errors
  import opened Buffers
  import opened Enums
  import opened BlendOps

  /** A sample of subpixel type `from` carried over to subpixel type `to`
      through unit space. */
  function Rescale(v: real, from: Subpixel, to: Subpixel): (r: real)
    ensures InRange(from, v) ==> InRange(to, r)
    ensures v == 0.0 ==> r == 0.0
    ensures v == TypeMax(from) ==> r == TypeMax(to)
  {
    Quantize(to, v / TypeMax(from) * TypeMax(to))
  }

  /** One pixel of the grayscale rendition: the listed colour channels take
      the pixel's alpha sample and the alpha channel takes `max`. */
  function RenditionPixel(px: seq<real>, colour: seq<nat>, alphaIndex: nat, max: real): (r: seq<real>)
    requires alphaIndex < |px|
    ensures |r| == |px|
  {
    seq(|px|, c requires 0 <= c < |px| =>
      if c == alphaIndex then max else if c in colour then px[alphaIndex] else px[c])
  }

  /** `get_alpha`: nothing for an unsupported layout or one without alpha;
      otherwise a copy of `a` recoloured pixel by pixel. */
  function AlphaRendition(a: Raster): (r: Option<Raster>)
    requires Shaped(a)
    ensures r.None? <==> !(1 <= a.channels <= 4) || a.channels % 2 == 1
    ensures r.Some? ==> Shaped(r.value) && SameHeader(r.value, a)
  {
    var structure := Classify(a.channels);
    if structure.Err? || !HasAlpha(structure.value) then None
    else
      var colour: seq<nat> := if IsRgb(structure.value) then [0, 1, 2] else [0];
      var alphaIndex := AlphaChannel(structure.value).value;
      var max := Quantize(a.kind, TypeMax(a.kind));
      Some(a.(pixels := seq(|a.pixels|, p requires 0 <= p < |a.pixels| =>
        RenditionPixel(a.pixels[p], colour, alphaIndex, max))))
  }

  /** In the rendition every colour channel holds the pixel's alpha sample and
      the alpha channel holds the type's maximum (fully opaque). */
  lemma AlphaRenditionSamples(a: Raster, p: nat, c: nat)
    requires Shaped(a) && AlphaRendition(a).Some?
    requires p < |a.pixels| && c < a.channels
    ensures AlphaRendition(a).value.pixels[p][c] ==
      if c == a.channels - 1 then TypeMax(a.kind) else a.pixels[p][a.channels - 1]
  {
    var structure := Classify(a.channels).value;
    var colour: seq<nat> := if IsRgb(structure) then [0, 1, 2] else [0];
    assert c < a.channels - 1 ==> c in colour;
    assert TypeMax(a.kind) == TypeMax(a.kind).Floor as real;
  }

  /** `set_alpha`: after the dimension check and the classification of `a`
      (never of `b`), `a`'s alpha channel takes `b`'s first channel, rescaled. */
  function WithAlphaFrom(a: Raster, b: Raster): (r: Result<Raster>)
    requires Shaped(a) && Shaped(b)
    ensures r == Err(DimensionMismatch) <==> (a.width, a.height) != (b.width, b.height)
    ensures (a.width, a.height) == (b.width, b.height) && !(1 <= a.channels <= 4) ==>
      r == Err(UnsupportedType)
    ensures (a.width, a.height) == (b.width, b.height) && 1 <= a.channels <= 4 && a.channels % 2 == 1 ==>
      r == Err(NoAlphaChannel)
    ensures r.Ok? <==> (a.width, a.height) == (b.width, b.height) && (a.channels == 2 || a.channels == 4)
    ensures r.Ok? ==> Shaped(r.value) && SameHeader(r.value, a)
  {
    if DimsMatch((a.width, a.height), (b.width, b.height)).Fail? then Err(DimensionMismatch)
    else
      var structure :- Classify(a.channels);
      var alphaIndex :- if HasAlpha(structure) then Ok(AlphaChannel(structure).value) else Err(NoAlphaChannel);
      Ok(a.(pixels := seq(|a.pixels|, p requires 0 <= p < |a.pixels| =>
        a.pixels[p][alphaIndex := Rescale(b.pixels[p][0], b.kind, a.kind)])))
  }

  /** After `set_alpha`, the alpha sample of every pixel is the other image's
      first channel rescaled to `a`'s type, and every colour sample is as it was. */
  lemma WithAlphaFromSamples(a: Raster, b: Raster, p: nat, c: nat)
    requires Shaped(a) && Shaped(b) && WithAlphaFrom(a, b).Ok?
    requires p < |a.pixels| && c < a.channels
    ensures WithAlphaFrom(a, b).value.pixels[p][c] ==
      if c == a.channels - 1 then Rescale(b.pixels[p][0], b.kind, a.kind) else a.pixels[p][c]
  {
  }

  /** `set_alpha` reads nothing of the other image but its dimensions, its
      subpixel type and its first channel: images that agree on those give
      the same result, whatever their channel counts, supported or not. */
  lemma {:induction false} WithAlphaFromReadsFirstChannel(a: Raster, b: Raster, b': Raster)
    requires Shaped(a) && Shaped(b) && Shaped(b')
    requires b.width == b'.width && b.height == b'.height && b.kind == b'.kind
    requires forall p :: 0 <= p < |b.pixels| ==> b.pixels[p][0] == b'.pixels[p][0]
    ensures WithAlphaFrom(a, b) == WithAlphaFrom(a, b')
  {
    if WithAlphaFrom(a, b).Ok? {
      var r, r' := WithAlphaFrom(a, b).value, WithAlphaFrom(a, b').value;
      assert |r.pixels| == |r'.pixels|;
      forall p | 0 <= p < |r.pixels| ensures r.pixels[p] == r'.pixels[p] {
        assert |r.pixels[p]| == |r'.pixels[p]|;
        forall c | 0 <= c < a.channels ensures r.pixels[p][c] == r'.pixels[p][c] {
          WithAlphaFromSamples(a, b, p, c);
          WithAlphaFromSamples(a, b', p, c);
        }
      }
      assert r.pixels == r'.pixels;
    }
  }

  /** `transplant_alpha`: after the dimension check, both classifications and
      both alpha checks, `a`'s alpha channel takes `b`'s alpha channel, rescaled. */
  function Transplanted(a: Raster, b: Raster): (r: Result<Raster>)
    requires Shaped(a) && Shaped(b)
    ensures r == Err(DimensionMismatch) <==> (a.width, a.height) != (b.width, b.height)
    ensures (a.width, a.height) == (b.width, b.height) && !(1 <= a.channels <= 4) ==>
      r == Err(UnsupportedType)
    ensures (a.width, a.height) == (b.width, b.height) && 1 <= a.channels <= 4 && !(1 <= b.channels <= 4) ==>
      r == Err(UnsupportedType)
    ensures (&& (a.width, a.height) == (b.width, b.height)
             && 1 <= a.channels <= 4 && 1 <= b.channels <= 4
             && (a.channels % 2 == 1 || b.channels % 2 == 1)) ==> r == Err(NoAlphaChannel)
    ensures r.Ok? <==>
      && (a.width, a.height) == (b.width, b.height)
      && (a.channels == 2 || a.channels == 4)
      && (b.channels == 2 || b.channels == 4)
    ensures r.Ok? ==> Shaped(r.value) && SameHeader(r.value, a)
  {
    if DimsMatch((a.width, a.height), (b.width, b.height)).Fail? then Err(DimensionMismatch)
    else
      var structureA :- Classify(a.channels);
      var structureB :- Classify(b.channels);
      var alphaA :- if HasAlpha(structureA) then Ok(AlphaChannel(structureA).value) else Err(NoAlphaChannel);
      var alphaB :- if HasAlpha(structureB) then Ok(AlphaChannel(structureB).value) else Err(NoAlphaChannel);
      Ok(a.(pixels := seq(|a.pixels|, p requires 0 <= p < |a.pixels| =>
        a.pixels[p][alphaA := Rescale(b.pixels[p][alphaB], b.kind, a.kind)])))
  }

  /** After `transplant_alpha`, the alpha sample of every pixel is the other
      image's alpha sample rescaled, and every colour sample is as it was. */
  lemma TransplantedSamples(a: Raster, b: Raster, p: nat, c: nat)
    requires Shaped(a) && Shaped(b) && Transplanted(a, b).Ok?
    requires p < |a.pixels| && c < a.channels
    ensures Transplanted(a, b).value.pixels[p][c] ==
      if c == a.channels - 1 then Rescale(b.pixels[p][b.channels - 1], b.kind, a.kind) else a.pixels[p][c]
  {
  }

  /** Rescaling an in-range sample to its own subpixel type gives it back. */
  lemma RescaleSameKind(v: real, k: Subpixel)
    requires InRange(k, v)
    ensures Rescale(v, k, k) == v
  {
    var m := TypeMax(k);
    assert v / m * m == v;
  }

  /** Between images of one subpixel type, `transplant_alpha` copies every
      alpha sample verbatim. */
  lemma TransplantedSameKindCopies(a: Raster, b: Raster, p: nat)
    requires Shaped(a) && Shaped(b) && Transplanted(a, b).Ok? && SamplesInRange(b)
    requires a.kind == b.kind && p < |a.pixels|
    ensures Transplanted(a, b).value.pixels[p][a.channels - 1] == b.pixels[p][b.channels - 1]
  {
    TransplantedSamples(a, b, p, a.channels - 1);
    RescaleSameKind(b.pixels[p][b.channels - 1], b.kind);
  }

  /** Setting `a`'s alpha from the rendition of `b`'s alpha has the same
      result as transplanting `b`'s alpha into `a`, errors included. */
  lemma {:induction false} WithAlphaFromRenditionIsTransplant(a: Raster, b: Raster)
    requires Shaped(a) && Shaped(b) && AlphaRendition(b).Some?
    ensures WithAlphaFrom(a, AlphaRendition(b).value) == Transplanted(a, b)
  {
    var g := AlphaRendition(b).value;
    if Transplanted(a, b).Ok? {
      var r, r' := WithAlphaFrom(a, g).value, Transplanted(a, b).value;
      forall p | 0 <= p < |r.pixels| ensures r.pixels[p] == r'.pixels[p] {
        forall c | 0 <= c < a.channels ensures r.pixels[p][c] == r'.pixels[p][c] {
          WithAlphaFromSamples(a, g, p, c);
          TransplantedSamples(a, b, p, c);
          AlphaRenditionSamples(b, p, 0);
        }
      }
      assert r.pixels == r'.pixels;
    }
  }

  /** Round trip: an image whose alpha is set from the rendition of its own
      alpha channel comes back unchanged. */
  lemma {:induction false} AlphaRoundTrip(a: Raster)
    requires Shaped(a) && SamplesInRange(a) && AlphaRendition(a).Some?
    ensures WithAlphaFrom(a, AlphaRendition(a).value) == Ok(a)
  {
    WithAlphaFromRenditionIsTransplant(a, a);
    var r := Transplanted(a, a).value;
    forall p | 0 <= p < |r.pixels| ensures r.pixels[p] == a.pixels[p] {
      forall c | 0 <= c < a.channels ensures r.pixels[p][c] == a.pixels[p][c] {
        TransplantedSamples(a, a, p, c);
        if c == a.channels - 1 {
          TransplantedSameKindCopies(a, a, p);
        }
      }
    }
    assert r.pixels == a.pixels;
  }

  /** `get_alpha` on a buffer: a fresh copy whose pixels are overwritten with
      the grayscale rendition; `subject` is only read. */
  method GetAlpha(subject: ImageBuffer) returns (r: Option<ImageBuffer>)
    requires subject.Valid()
    ensures r.None? <==> AlphaRendition(subject.View()).None?
    ensures r.Some? ==> fresh(r.value.data) && r.value.Valid()
    ensures r.Some? ==> r.value.View() == AlphaRendition(subject.View()).value
  {
    var structure := Classify(subject.channels);
    if structure.Err? {
      return None;
    }
    if !HasAlpha(structure.value) {
      return None;
    }
    var colour: seq<nat> := if IsRgb(structure.value) then [0, 1, 2] else [0];
    var alphaIndex := AlphaChannel(structure.value).value;
    var alpha := new ImageBuffer(subject.width, subject.height, subject.channels, subject.kind, subject.data[..]);
    var max := Quantize(subject.kind, TypeMax(subject.kind));
    ghost var target := AlphaRendition(subject.View()).value.pixels;
    var n := alpha.data.Length;
    var p := 0;
    while p < n
      invariant 0 <= p <= n && n == subject.data.Length
      invariant forall q :: 0 <= q < p ==> alpha.data[q] == target[q]
      invariant forall q :: p <= q < n ==> alpha.data[q] == subject.data[q]
    {
      var alphaVal := subject.data[p][alphaIndex];
      var px := RenderAlphaPixel(alpha.data[p], alphaVal, colour, alphaIndex, max);
      alpha.data[p] := px;
      p := p + 1;
    }
    assert alpha.data[..] == target;
    return Some(alpha);
  }

  /** Overwrites the listed colour channels of one pixel with its alpha
      sample, then its alpha channel with `max`. */
  method RenderAlphaPixel(px: seq<real>, alphaVal: real, colour: seq<nat>, alphaIndex: nat, max: real)
    returns (r: seq<real>)
    requires alphaIndex < |px| && alphaVal == px[alphaIndex]
    requires forall k :: 0 <= k < |colour| ==> colour[k] < |px|
    ensures r == RenditionPixel(px, colour, alphaIndex, max)
  {
    r := px;
    var k := 0;
    while k < |colour|
      invariant 0 <= k <= |colour|
      invariant |r| == |px|
      invariant forall c :: 0 <= c < |px| ==> r[c] == if c in colour[..k] then alphaVal else px[c]
    {
      assert colour[..k + 1] == colour[..k] + [colour[k]];
      r := r[colour[k] := alphaVal];
      k := k + 1;
    }
    assert colour[..k] == colour;
    r := r[alphaIndex := max];
  }

  /** `set_alpha` on buffers: validation first, then the alpha channel of
      every pixel of `subject`, in place. */
  method SetAlpha(subject: ImageBuffer, other: ImageBuffer) returns (res: Outcome)
    requires subject.Valid() && other.Valid() && subject.data != other.data
    modifies subject.data
    ensures subject.Valid()
    ensures var spec := WithAlphaFrom(old(subject.View()), other.View());
      && res == OutcomeOf(spec)
      && subject.View() == if spec.Ok? then spec.value else old(subject.View())
  {
    if DimsMatch((subject.width, subject.height), (other.width, other.height)).Fail? {
      return Fail(DimensionMismatch);
    }
    var structure := Classify(subject.channels);
    if structure.Err? {
      return Fail(structure.error);
    }
    if AlphaChannel(structure.value).None? {
      return Fail(NoAlphaChannel);
    }
    var alphaIndex := AlphaChannel(structure.value).value;
    ghost var target := WithAlphaFrom(subject.View(), other.View()).value.pixels;
    var n := subject.data.Length;
    var p := 0;
    while p < n
      invariant 0 <= p <= n
      invariant forall q :: 0 <= q < p ==> subject.data[q] == target[q]
      invariant forall q :: p <= q < n ==> subject.data[q] == old(subject.data[q])
    {
      var alpha := Rescale(other.data[p][0], other.kind, subject.kind);
      subject.data[p] := subject.data[p][alphaIndex := alpha];
      p := p + 1;
    }
    assert subject.data[..] == target;
    return Pass;
  }

  /** `transplant_alpha` on buffers: validation first, then the alpha channel
      of every pixel of `subject`, in place. */
  method TransplantAlpha(subject: ImageBuffer, other: ImageBuffer) returns (res: Outcome)
    requires subject.Valid() && other.Valid() && subject.data != other.data
    modifies subject.data
    ensures subject.Valid()
    ensures var spec := Transplanted(old(subject.View()), other.View());
      && res == OutcomeOf(spec)
      && subject.View() == if spec.Ok? then spec.value else old(subject.View())
  {
    if DimsMatch((subject.width, subject.height), (other.width, other.height)).Fail? {
      return Fail(DimensionMismatch);
    }
    var structureA := Classify(subject.channels);
    if structureA.Err? {
      return Fail(structureA.error);
    }
    var structureB := Classify(other.channels);
    if structureB.Err? {
      return Fail(structureB.error);
    }
    if AlphaChannel(structureA.value).None? {
      return Fail(NoAlphaChannel);
    }
    var alphaA := AlphaChannel(structureA.value).value;
    if AlphaChannel(structureB.value).None? {
      return Fail(NoAlphaChannel);
    }
    var alphaB := AlphaChannel(structureB.value).value;
    ghost var target := Transplanted(subject.View(), other.View()).value.pixels;
    var n := subject.data.Length;
    var p := 0;
    while p < n
      invariant 0 <= p <= n
      invariant forall q :: 0 <= q < p ==> subject.data[q] == target[q]
      invariant forall q :: p <= q < n ==> subject.data[q] == old(subject.data[q])
    {
      var alpha := Rescale(other.data[p][alphaB], other.kind, subject.kind);
      subject.data[p] := subject.data[p][alphaA := alpha];
      p := p + 1;
    }
    assert subject.data[..] == target;
    return Pass;
  }
}
