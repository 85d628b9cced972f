/** The channel-pairing resolver and the blend engine. */
module BlendOps {
  import opened Errors
  import opened Buffers
  import opened Enums

  /** Two images may be combined only when their (width, height) agree. */
  function DimsMatch(a: (nat, nat), b: (nat, nat)): (r: Outcome)
    ensures r.Fail? <==> a != b
    ensures r.Fail? ==> r.error == DimensionMismatch
  {
    if a != b then Fail(DimensionMismatch) else Pass
  }

  /** The "fully on" value of a subpixel type. The subpixel type's largest
      value is used, except when it equals f32's largest value: float
      samples are normalised to [0, 1]. */
  function TypeMax(k: Subpixel): (r: real)
    ensures r == (match k case U8 => 255.0 case U16 => 65535.0 case F32 => 1.0)
  {
    var max := MaxValue(k);
    var f32Max := MaxValue(F32);
    if max - f32Max == 0.0 then 1.0 else max
  }

  /** A (destination channel, source channel) index pair. */
  type ChannelPair = (nat, nat)

  /** The colour channels to combine, in order, and the alpha pair if both
      sides carry alpha. */
  datatype Pairing = Pairing(colour: seq<ChannelPair>, alpha: Option<ChannelPair>)

  /** A colour index of a structure: a channel that is not its alpha channel. */
  ghost predicate IsColourIndex(s: ColorStructure, c: nat) {
    c < ChannelCount(s) && AlphaChannel(s) != Some(c)
  }

  /** Resolves which destination channel takes which source channel. A luma
      destination cannot take an rgb source; an rgb destination takes a luma
      source by broadcasting its single channel. */
  function GetChannels(sa: ColorStructure, sb: ColorStructure): (r: Result<Pairing>)
    ensures r.Err? <==> !IsRgb(sa) && IsRgb(sb)
    ensures r.Err? ==> r.error == UnsupportedBlend(ColorStr(sa), ColorStr(sb))
    ensures r.Ok? ==> |r.value.colour| == if IsRgb(sa) then 3 else 1
    ensures r.Ok? ==> forall k :: 0 <= k < |r.value.colour| ==>
      r.value.colour[k] == (k, if IsRgb(sb) then k else 0)
    ensures r.Ok? ==> forall k :: 0 <= k < |r.value.colour| ==>
      IsColourIndex(sa, r.value.colour[k].0) && IsColourIndex(sb, r.value.colour[k].1)
    ensures r.Ok? ==> (r.value.alpha.Some? <==> HasAlpha(sa) && HasAlpha(sb))
    ensures r.Ok? && r.value.alpha.Some? ==>
      r.value.alpha.value == (ChannelCount(sa) - 1, ChannelCount(sb) - 1)
  {
    var colour: seq<ChannelPair> :- match (IsRgb(sa), IsRgb(sb))
      case (true, true) => Ok([(0, 0), (1, 1), (2, 2)])
      case (true, false) => Ok([(0, 0), (1, 0), (2, 0)])
      case (false, false) => Ok([(0, 0)])
      case (false, true) => Err(UnsupportedBlend(ColorStr(sa), ColorStr(sb)));
    var alpha := if HasAlpha(sa) && HasAlpha(sb)
      then Some((AlphaChannel(sa).value, AlphaChannel(sb).value))
      else None;
    Ok(Pairing(colour, alpha))
  }

  /** f64::clamp(x, 0, 1). */
  function Clamp01(x: real): real {
    if x < 0.0 then 0.0 else if x > 1.0 then 1.0 else x
  }

  /** The cast from f64 back to a subpixel: truncation toward zero for the
      integer types, exact for f32. */
  function Quantize(k: Subpixel, x: real): (r: real)
    ensures k == F32 ==> r == x
    ensures k != F32 ==> r == r.Floor as real
    ensures k != F32 && x >= 0.0 ==> 0.0 <= r <= x < r + 1.0
    ensures k != F32 && x < 0.0 ==> x <= r <= 0.0 && r < x + 1.0
  {
    if k == F32 then x
    else if x >= 0.0 then x.Floor as real
    else
      var n := (-x).Floor;
      assert n as real <= -x < n as real + 1.0;
      (-n) as real
  }

  /** Writes a unit value back to a subpixel: clamp to [0, 1], scale, cast. */
  function Store(k: Subpixel, u: real): (r: real)
    ensures u <= 0.0 ==> r == 0.0
    ensures u >= 1.0 ==> r == TypeMax(k)
    ensures k == F32 ==> r == Clamp01(u)
  {
    Quantize(k, Clamp01(u) * TypeMax(k))
  }

  /** The result of `op`, interpolated toward the destination value by the weight. */
  function Mixed(op: (real, real) -> real, x: real, y: real, w: real): real {
    op(x, y) * w + x * (1.0 - w)
  }

  /** A sample value a subpixel of this type can hold, within [0, max]. */
  ghost predicate InRange(k: Subpixel, v: real) {
    0.0 <= v <= TypeMax(k) && (k != F32 ==> v == v.Floor as real)
  }

  ghost predicate SamplesInRange(r: Raster) {
    forall p, c :: 0 <= p < |r.pixels| && 0 <= c < |r.pixels[p]| ==> InRange(r.kind, r.pixels[p][c])
  }

  /** Every value written back lies within the subpixel's range. */
  lemma StoreInRange(k: Subpixel, u: real)
    ensures InRange(k, Store(k, u))
  {
    var m := TypeMax(k);
    var x := Clamp01(u) * m;
    assert 0.0 <= x <= m by {
      assert 0.0 <= Clamp01(u) <= 1.0;
      assert m > 0.0;
    }
    if k != F32 {
      assert m == m.Floor as real;
      assert Store(k, u) == x.Floor as real;
    }
  }

  /** The colour pass's weight for one source pixel: its alpha sample in unit
      space, or 1 when the source has no alpha. */
  function AlphaWeight(sb: ColorStructure, pb: seq<real>, bk: Subpixel): (r: real)
    requires |pb| == ChannelCount(sb)
    ensures !HasAlpha(sb) ==> r == 1.0
    ensures HasAlpha(sb) ==> r == pb[|pb| - 1] / TypeMax(bk)
    ensures HasAlpha(sb) && InRange(bk, pb[|pb| - 1]) ==> 0.0 <= r <= 1.0
    ensures HasAlpha(sb) && pb[|pb| - 1] == TypeMax(bk) ==> r == 1.0
  {
    match AlphaChannel(sb)
    case Some(i) => pb[i] / TypeMax(bk)
    case None => 1.0
  }

  /** The pairs address the k-th destination channel and a source channel
      that exists. */
  ghost predicate PairsFit(colour: seq<ChannelPair>, ca: nat, cb: nat) {
    forall k :: 0 <= k < |colour| ==> colour[k].0 == k && k < ca && colour[k].1 < cb
  }

  /** One pixel after the colour pass with weight `w`. */
  function ColourPixel(pa: seq<real>, pb: seq<real>, colour: seq<ChannelPair>, w: real,
                       op: (real, real) -> real, ak: Subpixel, bk: Subpixel): (r: seq<real>)
    requires PairsFit(colour, |pa|, |pb|)
    ensures |r| == |pa|
  {
    seq(|pa|, c requires 0 <= c < |pa| =>
      if c < |colour| then Store(ak, Mixed(op, pa[c] / TypeMax(ak), pb[colour[c].1] / TypeMax(bk), w))
      else pa[c])
  }

  /** The colour pass over every pixel: pixels whose weight is zero are skipped. */
  function ColourPass(a: Raster, b: Raster, sb: ColorStructure, colour: seq<ChannelPair>,
                      op: (real, real) -> real): (r: Raster)
    requires Shaped(a) && Shaped(b) && |a.pixels| == |b.pixels|
    requires b.channels == ChannelCount(sb) && PairsFit(colour, a.channels, b.channels)
    ensures Shaped(r) && SameHeader(r, a)
  {
    a.(pixels := seq(|a.pixels|, p requires 0 <= p < |a.pixels| =>
      var w := AlphaWeight(sb, b.pixels[p], b.kind);
      if w == 0.0 then a.pixels[p]
      else ColourPixel(a.pixels[p], b.pixels[p], colour, w, op, a.kind, b.kind)))
  }

  /** One pixel after the alpha pass: `op` applied to the two alpha samples, unweighted. */
  function AlphaPixel(pa: seq<real>, pb: seq<real>, pair: ChannelPair,
                      op: (real, real) -> real, ak: Subpixel, bk: Subpixel): (r: seq<real>)
    requires pair.0 < |pa| && pair.1 < |pb|
    ensures |r| == |pa|
  {
    pa[pair.0 := Store(ak, op(pa[pair.0] / TypeMax(ak), pb[pair.1] / TypeMax(bk)))]
  }

  /** The alpha pass over every pixel. */
  function AlphaPass(a: Raster, b: Raster, pair: ChannelPair, op: (real, real) -> real): (r: Raster)
    requires Shaped(a) && Shaped(b) && |a.pixels| == |b.pixels|
    requires pair.0 < a.channels && pair.1 < b.channels
    ensures Shaped(r) && SameHeader(r, a)
  {
    a.(pixels := seq(|a.pixels|, p requires 0 <= p < |a.pixels| =>
      AlphaPixel(a.pixels[p], b.pixels[p], pair, op, a.kind, b.kind)))
  }

  /** `a` after blending `b` into it: the validation steps in order, then the
      colour pass and the alpha pass. */
  function Blended(a: Raster, b: Raster, op: (real, real) -> real, applyToColor: bool, applyToAlpha: bool): (r: Result<Raster>)
    requires Shaped(a) && Shaped(b)
    ensures r == Err(DimensionMismatch) <==> (a.width, a.height) != (b.width, b.height)
    ensures (a.width, a.height) == (b.width, b.height) && !(1 <= a.channels <= 4) ==>
      r == Err(UnsupportedType)
    ensures (a.width, a.height) == (b.width, b.height) && 1 <= a.channels <= 4 && !(1 <= b.channels <= 4) ==>
      r == Err(UnsupportedType)
    ensures (a.width, a.height) == (b.width, b.height) && 1 <= a.channels <= 2 && 3 <= b.channels <= 4 ==>
      r == Err(UnsupportedBlend(ColorStr(Classify(a.channels).value), ColorStr(Classify(b.channels).value)))
    ensures r.Ok? <==>
      && (a.width, a.height) == (b.width, b.height)
      && 1 <= a.channels <= 4 && 1 <= b.channels <= 4
      && !(a.channels <= 2 && 3 <= b.channels)
    ensures r.Ok? ==> Shaped(r.value) && SameHeader(r.value, a)
  {
    if DimsMatch((a.width, a.height), (b.width, b.height)).Fail? then Err(DimensionMismatch)
    else
      var sa :- Classify(a.channels);
      var sb :- Classify(b.channels);
      var pairing :- GetChannels(sa, sb);
      var coloured := if applyToColor then ColourPass(a, b, sb, pairing.colour, op) else a;
      Ok(if applyToAlpha && pairing.alpha.Some? then AlphaPass(coloured, b, pairing.alpha.value, op) else coloured)
  }

  /** How a successful blend is assembled from the two passes. */
  lemma BlendedPasses(a: Raster, b: Raster, op: (real, real) -> real, applyToColor: bool, applyToAlpha: bool)
    requires Shaped(a) && Shaped(b) && Blended(a, b, op, applyToColor, applyToAlpha).Ok?
    ensures |a.pixels| == |b.pixels|
    ensures Classify(a.channels).Ok? && Classify(b.channels).Ok?
    ensures GetChannels(Classify(a.channels).value, Classify(b.channels).value).Ok?
    ensures var sb := Classify(b.channels).value;
      var pairing := GetChannels(Classify(a.channels).value, sb).value;
      var coloured := if applyToColor then ColourPass(a, b, sb, pairing.colour, op) else a;
      Blended(a, b, op, applyToColor, applyToAlpha).value
        == if applyToAlpha && pairing.alpha.Some? then AlphaPass(coloured, b, pairing.alpha.value, op) else coloured
  {
  }

  /** The number of destination colour channels a blend pairs: three for an
      rgb destination, one for a luma destination. */
  function PairedColourCount(channels: nat): nat {
    if channels >= 3 then 3 else 1
  }

  /** The source channel paired with destination colour channel `c`: the same
      index from an rgb source, channel 0 (broadcast) from a luma source. */
  function PairedSourceChannel(bChannels: nat, c: nat): nat {
    if bChannels >= 3 then c else 0
  }

  /** The colour pass's weight for pixel `p`: the source alpha sample in unit
      space, or 1 when the source has no alpha. */
  function SourceWeight(b: Raster, p: nat): real
    requires Shaped(b) && p < |b.pixels|
  {
    if b.channels % 2 == 0 then b.pixels[p][b.channels - 1] / TypeMax(b.kind) else 1.0
  }

  /** A paired colour channel after a blend with the colour pass on: when the
      source weight is zero it keeps its value; otherwise it is the clamped,
      rescaled value of op(dst, src) interpolated toward dst by the weight. */
  lemma BlendedColourSample(a: Raster, b: Raster, op: (real, real) -> real, applyToAlpha: bool, p: nat, c: nat)
    requires Shaped(a) && Shaped(b) && Blended(a, b, op, true, applyToAlpha).Ok?
    requires p < |a.pixels| && c < PairedColourCount(a.channels)
    ensures var w := SourceWeight(b, p);
      var r := Blended(a, b, op, true, applyToAlpha).value;
      r.pixels[p][c] ==
        if w == 0.0 then a.pixels[p][c]
        else Store(a.kind, Mixed(op, a.pixels[p][c] / TypeMax(a.kind),
                                 b.pixels[p][PairedSourceChannel(b.channels, c)] / TypeMax(b.kind), w))
  {
    BlendedPasses(a, b, op, true, applyToAlpha);
    var sa, sb := Classify(a.channels).value, Classify(b.channels).value;
    var pairing := GetChannels(sa, sb).value;
    var coloured := ColourPass(a, b, sb, pairing.colour, op);
    assert AlphaWeight(sb, b.pixels[p], b.kind) == SourceWeight(b, p);
    assert pairing.colour[c] == (c, PairedSourceChannel(b.channels, c));
    assert coloured.pixels[p][c] == Blended(a, b, op, true, applyToAlpha).value.pixels[p][c];
  }

  /** A source pixel whose alpha is zero leaves every colour channel of the
      destination pixel as it was; without the alpha pass it leaves the whole
      pixel as it was. */
  lemma BlendedTransparentSourcePixel(a: Raster, b: Raster, op: (real, real) -> real,
                                      applyToColor: bool, applyToAlpha: bool, p: nat)
    requires Shaped(a) && Shaped(b) && Blended(a, b, op, applyToColor, applyToAlpha).Ok?
    requires p < |b.pixels| && b.channels % 2 == 0 && b.pixels[p][b.channels - 1] == 0.0
    ensures var r := Blended(a, b, op, applyToColor, applyToAlpha).value;
      && (forall c: nat :: IsColourIndex(Classify(a.channels).value, c) ==> r.pixels[p][c] == a.pixels[p][c])
      && (!applyToAlpha ==> r.pixels[p] == a.pixels[p])
  {
    var r := Blended(a, b, op, applyToColor, applyToAlpha).value;
    BlendedPasses(a, b, op, applyToColor, applyToAlpha);
    assert SourceWeight(b, p) == 0.0;
    forall c: nat | c < a.channels && (IsColourIndex(Classify(a.channels).value, c) || !applyToAlpha)
      ensures r.pixels[p][c] == a.pixels[p][c]
    {
      if applyToColor && c < PairedColourCount(a.channels) {
        BlendedColourSample(a, b, op, applyToAlpha, p, c);
      } else {
        BlendedFrame(a, b, op, applyToColor, applyToAlpha, p, c);
      }
    }
  }

  /** Without a source alpha channel, or under a fully opaque source pixel, a
      paired colour channel is the clamped, rescaled op(dst, src) itself. */
  lemma BlendedOpaqueSourceIsUnweighted(a: Raster, b: Raster, op: (real, real) -> real, applyToAlpha: bool, p: nat, c: nat)
    requires Shaped(a) && Shaped(b) && Blended(a, b, op, true, applyToAlpha).Ok?
    requires p < |a.pixels| && c < PairedColourCount(a.channels)
    requires b.channels % 2 == 1 || b.pixels[p][b.channels - 1] == TypeMax(b.kind)
    ensures Blended(a, b, op, true, applyToAlpha).value.pixels[p][c] ==
      Store(a.kind, op(a.pixels[p][c] / TypeMax(a.kind), b.pixels[p][PairedSourceChannel(b.channels, c)] / TypeMax(b.kind)))
  {
    BlendedColourSample(a, b, op, applyToAlpha, p, c);
    assert SourceWeight(b, p) == 1.0;
  }

  /** The alpha pass combines the two alpha samples with op directly: no
      weighting, just clamping and rescaling. */
  lemma BlendedAlphaSample(a: Raster, b: Raster, op: (real, real) -> real, applyToColor: bool, p: nat)
    requires Shaped(a) && Shaped(b) && Blended(a, b, op, applyToColor, true).Ok?
    requires p < |a.pixels| && a.channels % 2 == 0 && b.channels % 2 == 0
    ensures Blended(a, b, op, applyToColor, true).value.pixels[p][a.channels - 1] ==
      Store(a.kind, op(a.pixels[p][a.channels - 1] / TypeMax(a.kind), b.pixels[p][b.channels - 1] / TypeMax(b.kind)))
  {
    BlendedPasses(a, b, op, applyToColor, true);
  }

  /** A blend writes only the paired colour channels (with the colour pass on)
      and the destination alpha channel (with the alpha pass on and alpha on
      both sides); every other sample keeps its value. */
  lemma BlendedFrame(a: Raster, b: Raster, op: (real, real) -> real, applyToColor: bool, applyToAlpha: bool, p: nat, c: nat)
    requires Shaped(a) && Shaped(b) && Blended(a, b, op, applyToColor, applyToAlpha).Ok?
    requires p < |a.pixels| && c < a.channels
    requires !(applyToColor && c < PairedColourCount(a.channels))
    requires !(applyToAlpha && a.channels % 2 == 0 && b.channels % 2 == 0 && c == a.channels - 1)
    ensures Blended(a, b, op, applyToColor, applyToAlpha).value.pixels[p][c] == a.pixels[p][c]
  {
    BlendedPasses(a, b, op, applyToColor, applyToAlpha);
  }

  /** With neither pass requested, a successful blend changes nothing. */
  lemma BlendedNothingRequested(a: Raster, b: Raster, op: (real, real) -> real)
    requires Shaped(a) && Shaped(b) && Blended(a, b, op, false, false).Ok?
    ensures Blended(a, b, op, false, false).value == a
  {
    BlendedPasses(a, b, op, false, false);
  }

  /** Every sample a blend changes holds a value in the destination's range,
      so a destination whose samples are in range stays in range. */
  lemma BlendedInRange(a: Raster, b: Raster, op: (real, real) -> real, applyToColor: bool, applyToAlpha: bool)
    requires Shaped(a) && Shaped(b) && Blended(a, b, op, applyToColor, applyToAlpha).Ok?
    ensures var r := Blended(a, b, op, applyToColor, applyToAlpha).value;
      forall p, c :: 0 <= p < |r.pixels| && 0 <= c < r.channels && r.pixels[p][c] != a.pixels[p][c] ==>
        InRange(a.kind, r.pixels[p][c])
    ensures SamplesInRange(a) ==> SamplesInRange(Blended(a, b, op, applyToColor, applyToAlpha).value)
  {
    var r := Blended(a, b, op, applyToColor, applyToAlpha).value;
    forall p, c | 0 <= p < |r.pixels| && 0 <= c < r.channels && r.pixels[p][c] != a.pixels[p][c]
      ensures InRange(a.kind, r.pixels[p][c])
    {
      BlendedPasses(a, b, op, applyToColor, applyToAlpha);
      if applyToColor && c < PairedColourCount(a.channels) && !(applyToAlpha && a.channels % 2 == 0 && b.channels % 2 == 0 && c == a.channels - 1) {
        BlendedColourSample(a, b, op, applyToAlpha, p, c);
        var w := SourceWeight(b, p);
        StoreInRange(a.kind, Mixed(op, a.pixels[p][c] / TypeMax(a.kind),
          b.pixels[p][PairedSourceChannel(b.channels, c)] / TypeMax(b.kind), w));
      } else if applyToAlpha && a.channels % 2 == 0 && b.channels % 2 == 0 && c == a.channels - 1 {
        BlendedAlphaSample(a, b, op, applyToColor, p);
        StoreInRange(a.kind, op(a.pixels[p][c] / TypeMax(a.kind), b.pixels[p][b.channels - 1] / TypeMax(b.kind)));
      } else {
        BlendedFrame(a, b, op, applyToColor, applyToAlpha, p, c);
      }
    }
  }

  /** The multiply and add blend modes, in exact arithmetic. */
  function Product(x: real, y: real): real { x * y }
  function Sum(x: real, y: real): real { x + y }

  /** Two 8-bit rgba pixels multiplied by two opaque grey source pixels: the
      first destination pixel becomes (78, 78, 78, 255). The weight comes from
      the SOURCE alpha, so the second pixel, whose own alpha is 0, is blended
      too and becomes (39, 39, 39, 0). */
  lemma MultiplyRgba8Example()
    ensures
      var a := Raster(2, 1, 4, U8, [[100.0, 100.0, 100.0, 255.0], [50.0, 50.0, 50.0, 0.0]]);
      var b := Raster(2, 1, 4, U8, [[200.0, 200.0, 200.0, 255.0], [200.0, 200.0, 200.0, 255.0]]);
      Blended(a, b, Product, true, false)
        == Ok(a.(pixels := [[78.0, 78.0, 78.0, 255.0], [39.0, 39.0, 39.0, 0.0]]))
  {
    var a := Raster(2, 1, 4, U8, [[100.0, 100.0, 100.0, 255.0], [50.0, 50.0, 50.0, 0.0]]);
    var b := Raster(2, 1, 4, U8, [[200.0, 200.0, 200.0, 255.0], [200.0, 200.0, 200.0, 255.0]]);
    var op := Product;
    var r := Blended(a, b, op, true, false);
    assert Store(U8, Mixed(op, 100.0 / 255.0, 200.0 / 255.0, 1.0)) == 78.0;
    assert Store(U8, Mixed(op, 50.0 / 255.0, 200.0 / 255.0, 1.0)) == 39.0;
    BlendedPasses(a, b, op, true, false);
    assert r.value.pixels[0] == [78.0, 78.0, 78.0, 255.0];
    assert r.value.pixels[1] == [39.0, 39.0, 39.0, 0.0];
    assert r.value.pixels == [[78.0, 78.0, 78.0, 255.0], [39.0, 39.0, 39.0, 0.0]];
  }

  /** An 8-bit destination and a 16-bit source are each normalised by their
      own maximum: adding 128/255 and 32768/65535 exceeds 1, and the result is
      clamped to the 8-bit maximum 255 rather than overflowing. */
  lemma AddAcrossDepthsSaturates()
    ensures
      var a := Raster(1, 1, 1, U8, [[128.0]]);
      var b := Raster(1, 1, 1, U16, [[32768.0]]);
      Blended(a, b, Sum, true, false) == Ok(a.(pixels := [[255.0]]))
  {
    var a := Raster(1, 1, 1, U8, [[128.0]]);
    var b := Raster(1, 1, 1, U16, [[32768.0]]);
    var op := Sum;
    assert Store(U8, Mixed(op, 128.0 / 255.0, 32768.0 / 65535.0, 1.0)) == 255.0;
    BlendedPasses(a, b, op, true, false);
    assert Blended(a, b, op, true, false).value.pixels[0] == [255.0];
    assert Blended(a, b, op, true, false).value.pixels == [[255.0]];
  }

  /** Blends `other` into `subject` in place: validation first, so nothing is
      written on any error; then the alpha-weighted colour pass; then the
      unweighted alpha pass. `other` is never written. */
  method Blend(subject: ImageBuffer, other: ImageBuffer, op: (real, real) -> real,
               applyToColor: bool, applyToAlpha: bool) returns (res: Outcome)
    requires subject.Valid() && other.Valid() && subject.data != other.data
    modifies subject.data
    ensures subject.Valid()
    ensures var spec := Blended(old(subject.View()), other.View(), op, applyToColor, applyToAlpha);
      && res == OutcomeOf(spec)
      && subject.View() == if spec.Ok? then spec.value else old(subject.View())
  {
    if DimsMatch((subject.width, subject.height), (other.width, other.height)).Fail? {
      return Fail(DimensionMismatch);
    }
    var structureA := Classify(subject.channels);
    if structureA.Err? {
      return Fail(structureA.error);
    }
    var structureB := Classify(other.channels);
    if structureB.Err? {
      return Fail(structureB.error);
    }
    var channels := GetChannels(structureA.value, structureB.value);
    if channels.Err? {
      return Fail(channels.error);
    }
    if applyToColor {
      ColourPassInPlace(subject, other, structureB.value, channels.value.colour, op);
    }
    if applyToAlpha && channels.value.alpha.Some? {
      AlphaPassInPlace(subject, other, channels.value.alpha.value, op);
    }
    return Pass;
  }

  /** The colour pass of `Blend`, pixel by pixel. */
  method ColourPassInPlace(subject: ImageBuffer, other: ImageBuffer, sb: ColorStructure,
                           colour: seq<ChannelPair>, op: (real, real) -> real)
    requires subject.Valid() && other.Valid() && subject.data != other.data
    requires subject.data.Length == other.data.Length
    requires other.channels == ChannelCount(sb) && PairsFit(colour, subject.channels, other.channels)
    modifies subject.data
    ensures subject.View() == ColourPass(old(subject.View()), other.View(), sb, colour, op)
  {
    ghost var a0 := subject.View();
    ghost var target := ColourPass(a0, other.View(), sb, colour, op).pixels;
    var aMax, bMax := TypeMax(subject.kind), TypeMax(other.kind);
    var n := subject.data.Length;
    var p := 0;
    while p < n
      invariant 0 <= p <= n
      invariant forall q :: 0 <= q < p ==> subject.data[q] == target[q]
      invariant forall q :: p <= q < n ==> subject.data[q] == a0.pixels[q]
    {
      var pxB := other.data[p];
      var alphaWeight := match AlphaChannel(sb)
        case Some(i) => pxB[i] / bMax
        case None => 1.0;
      if alphaWeight != 0.0 {
        var pxA := BlendColourPixel(subject.data[p], pxB, colour, alphaWeight, op, subject.kind, other.kind);
        subject.data[p] := pxA;
      }
      p := p + 1;
    }
    assert subject.data[..] == target;
  }

  /** Combines the paired colour channels of one pixel, in pairing order. */
  method BlendColourPixel(pa: seq<real>, pb: seq<real>, colour: seq<ChannelPair>, alphaWeight: real,
                          op: (real, real) -> real, ak: Subpixel, bk: Subpixel) returns (r: seq<real>)
    requires PairsFit(colour, |pa|, |pb|)
    ensures r == ColourPixel(pa, pb, colour, alphaWeight, op, ak, bk)
  {
    var aMax, bMax := TypeMax(ak), TypeMax(bk);
    ghost var want := ColourPixel(pa, pb, colour, alphaWeight, op, ak, bk);
    r := pa;
    var k := 0;
    while k < |colour|
      invariant 0 <= k <= |colour| && k <= |pa|
      invariant |r| == |pa|
      invariant forall c :: 0 <= c < k ==> r[c] == want[c]
      invariant forall c :: k <= c < |r| ==> r[c] == pa[c]
    {
      var (chA, chB) := colour[k];
      assert chA == k && r[chA] == pa[k];
      var x := r[chA] / aMax;
      var y := pb[chB] / bMax;
      r := r[chA := Store(ak, Mixed(op, x, y, alphaWeight))];
      assert want[k] == Store(ak, Mixed(op, pa[k] / TypeMax(ak), pb[colour[k].1] / TypeMax(bk), alphaWeight));
      k := k + 1;
    }
  }

  /** The alpha pass of `Blend`, pixel by pixel. */
  method AlphaPassInPlace(subject: ImageBuffer, other: ImageBuffer, pair: ChannelPair, op: (real, real) -> real)
    requires subject.Valid() && other.Valid() && subject.data != other.data
    requires subject.data.Length == other.data.Length
    requires pair.0 < subject.channels && pair.1 < other.channels
    modifies subject.data
    ensures subject.View() == AlphaPass(old(subject.View()), other.View(), pair, op)
  {
    ghost var a0 := subject.View();
    ghost var target := AlphaPass(a0, other.View(), pair, op).pixels;
    var aMax, bMax := TypeMax(subject.kind), TypeMax(other.kind);
    var (alphaA, alphaB) := pair;
    var n := subject.data.Length;
    var p := 0;
    while p < n
      invariant 0 <= p <= n
      invariant forall q :: 0 <= q < p ==> subject.data[q] == target[q]
      invariant forall q :: p <= q < n ==> subject.data[q] == a0.pixels[q]
    {
      var pxA := subject.data[p];
      var x := pxA[alphaA] / aMax;
      var y := other.data[p][alphaB] / bMax;
      subject.data[p] := pxA[alphaA := Store(subject.kind, op(x, y))];
      p := p + 1;
    }
    assert subject.data[..] == target;
  }
}
