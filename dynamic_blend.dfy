/** The dispatcher for images whose encoding is known only at run time: it
    resolves the tag of each operand, then delegates to the generic
    operation on the wrapped buffers. */
module DynamicBlend {
  import opened Errors
  import opened Buffers
  import opened Enums
  import opened BlendOps
  import opened AlphaOps

  /** A type-erased image: its encoding tag and the buffer it wraps. */
  datatype DynamicImage = DynamicImage(color: ColorType, buffer: ImageBuffer)

  /** A supported tag describes the buffer it wraps, so unwrapping the buffer
      as that encoding always succeeds. */
  predicate Tagged(d: DynamicImage) {
    Supported(d.color) ==> d.buffer.channels == ChannelsOf(d.color) && d.buffer.kind == SubpixelOf(d.color)
  }

  /** `blend` on dynamic images: the destination tag is resolved first, the
      source tag second, and only then does the generic blend check the
      dimensions; an unsupported tag fails with `UnsupportedType` before
      anything is read or written. */
  method DynBlend(subject: DynamicImage, other: DynamicImage, op: (real, real) -> real,
                  applyToColor: bool, applyToAlpha: bool) returns (res: Outcome)
    requires Tagged(subject) && Tagged(other)
    requires subject.buffer.Valid() && other.buffer.Valid() && subject.buffer.data != other.buffer.data
    modifies subject.buffer.data
    ensures subject.buffer.Valid()
    ensures !Supported(subject.color) || !Supported(other.color) ==>
      res == Fail(UnsupportedType) && subject.buffer.View() == old(subject.buffer.View())
    ensures Supported(subject.color) && Supported(other.color) ==>
      var spec := Blended(old(subject.buffer.View()), other.buffer.View(), op, applyToColor, applyToAlpha);
      && res == OutcomeOf(spec)
      && subject.buffer.View() == if spec.Ok? then spec.value else old(subject.buffer.View())
  {
    if !Supported(subject.color) {
      return Fail(UnsupportedType);
    }
    res := BlendStepA(subject.buffer, other, op, applyToColor, applyToAlpha);
  }

  /** Resolves the source tag and runs the generic blend on the unwrapped buffers. */
  method BlendStepA(subject: ImageBuffer, other: DynamicImage, op: (real, real) -> real,
                    applyToColor: bool, applyToAlpha: bool) returns (res: Outcome)
    requires Tagged(other)
    requires subject.Valid() && other.buffer.Valid() && subject.data != other.buffer.data
    modifies subject.data
    ensures subject.Valid()
    ensures !Supported(other.color) ==> res == Fail(UnsupportedType) && subject.View() == old(subject.View())
    ensures Supported(other.color) ==>
      var spec := Blended(old(subject.View()), other.buffer.View(), op, applyToColor, applyToAlpha);
      && res == OutcomeOf(spec)
      && subject.View() == if spec.Ok? then spec.value else old(subject.View())
  {
    if !Supported(other.color) {
      return Fail(UnsupportedType);
    }
    res := Blend(subject, other.buffer, op, applyToColor, applyToAlpha);
  }

  /** `get_alpha` on a dynamic image: works on a copy, so `subject` is never
      written; nothing for an unsupported tag or an encoding without alpha;
      otherwise an image of the same encoding holding the rendition. */
  method DynGetAlpha(subject: DynamicImage) returns (r: Option<DynamicImage>)
    requires Tagged(subject) && subject.buffer.Valid()
    ensures r.None? <==> !Supported(subject.color) || !HasAlpha(StructureOf(subject.color))
    ensures r.Some? ==> && r.value.color == subject.color && Tagged(r.value)
                        && fresh(r.value.buffer.data) && r.value.buffer.Valid()
                        && r.value.buffer.View() == AlphaRendition(subject.buffer.View()).value
  {
    var color := subject.color;
    var copy := new ImageBuffer(subject.buffer.width, subject.buffer.height, subject.buffer.channels,
                                subject.buffer.kind, subject.buffer.data[..]);
    if !Supported(color) {
      return None;
    }
    var step, replacement := GetAlphaStepA(copy);
    if step.Fail? {
      TaggedAlpha(color, subject.buffer.View());
      return None;
    }
    TaggedAlpha(color, subject.buffer.View());
    return Some(DynamicImage(color, replacement));
  }

  /** Replaces `subject` by its grayscale rendition; the replacement buffer is
      returned, and it is `subject` itself when there is no alpha channel. */
  method GetAlphaStepA(subject: ImageBuffer) returns (res: Outcome, replacement: ImageBuffer)
    requires subject.Valid()
    ensures res.Fail? <==> AlphaRendition(subject.View()).None?
    ensures res.Fail? ==> res.error == NoAlphaChannel && replacement == subject
    ensures res.Pass? ==> && fresh(replacement.data) && replacement.Valid()
                          && replacement.View() == AlphaRendition(subject.View()).value
  {
    var alpha := GetAlpha(subject);
    if alpha.None? {
      return Fail(NoAlphaChannel), subject;
    }
    return Pass, alpha.value;
  }

  /** `set_alpha` on dynamic images: both tags are resolved before the
      generic `set_alpha` checks dimensions and `subject`'s alpha channel. */
  method DynSetAlpha(subject: DynamicImage, other: DynamicImage) returns (res: Outcome)
    requires Tagged(subject) && Tagged(other)
    requires subject.buffer.Valid() && other.buffer.Valid() && subject.buffer.data != other.buffer.data
    modifies subject.buffer.data
    ensures subject.buffer.Valid()
    ensures !Supported(subject.color) || !Supported(other.color) ==>
      res == Fail(UnsupportedType) && subject.buffer.View() == old(subject.buffer.View())
    ensures Supported(subject.color) && Supported(other.color) ==>
      var spec := WithAlphaFrom(old(subject.buffer.View()), other.buffer.View());
      && res == OutcomeOf(spec)
      && subject.buffer.View() == if spec.Ok? then spec.value else old(subject.buffer.View())
  {
    if !Supported(subject.color) {
      return Fail(UnsupportedType);
    }
    res := SetAlphaStepA(subject.buffer, other);
  }

  /** Resolves the source tag and runs the generic `set_alpha`. */
  method SetAlphaStepA(subject: ImageBuffer, other: DynamicImage) returns (res: Outcome)
    requires Tagged(other)
    requires subject.Valid() && other.buffer.Valid() && subject.data != other.buffer.data
    modifies subject.data
    ensures subject.Valid()
    ensures !Supported(other.color) ==> res == Fail(UnsupportedType) && subject.View() == old(subject.View())
    ensures Supported(other.color) ==>
      var spec := WithAlphaFrom(old(subject.View()), other.buffer.View());
      && res == OutcomeOf(spec)
      && subject.View() == if spec.Ok? then spec.value else old(subject.View())
  {
    if !Supported(other.color) {
      return Fail(UnsupportedType);
    }
    res := SetAlpha(subject, other.buffer);
  }

  /** `transplant_alpha` on dynamic images: both tags are resolved before the
      generic `transplant_alpha` runs its own checks. */
  method DynTransplantAlpha(subject: DynamicImage, other: DynamicImage) returns (res: Outcome)
    requires Tagged(subject) && Tagged(other)
    requires subject.buffer.Valid() && other.buffer.Valid() && subject.buffer.data != other.buffer.data
    modifies subject.buffer.data
    ensures subject.buffer.Valid()
    ensures !Supported(subject.color) || !Supported(other.color) ==>
      res == Fail(UnsupportedType) && subject.buffer.View() == old(subject.buffer.View())
    ensures Supported(subject.color) && Supported(other.color) ==>
      var spec := Transplanted(old(subject.buffer.View()), other.buffer.View());
      && res == OutcomeOf(spec)
      && subject.buffer.View() == if spec.Ok? then spec.value else old(subject.buffer.View())
  {
    if !Supported(subject.color) {
      return Fail(UnsupportedType);
    }
    res := TransplantAlphaStepA(subject.buffer, other);
  }

  /** Resolves the source tag and runs the generic `transplant_alpha`. */
  method TransplantAlphaStepA(subject: ImageBuffer, other: DynamicImage) returns (res: Outcome)
    requires Tagged(other)
    requires subject.Valid() && other.buffer.Valid() && subject.data != other.buffer.data
    modifies subject.data
    ensures subject.Valid()
    ensures !Supported(other.color) ==> res == Fail(UnsupportedType) && subject.View() == old(subject.View())
    ensures Supported(other.color) ==>
      var spec := Transplanted(old(subject.View()), other.buffer.View());
      && res == OutcomeOf(spec)
      && subject.View() == if spec.Ok? then spec.value else old(subject.View())
  {
    if !Supported(other.color) {
      return Fail(UnsupportedType);
    }
    res := TransplantAlpha(subject, other.buffer);
  }

  /** For a buffer tagged with a supported encoding, the rendition exists
      exactly when the encoding's structure has alpha. */
  lemma TaggedAlpha(t: ColorType, a: Raster)
    requires Supported(t) && Shaped(a) && a.channels == ChannelsOf(t)
    ensures AlphaRendition(a).Some? <==> HasAlpha(StructureOf(t))
  {
    ClassifyChannelCount(StructureOf(t));
  }

  /** Among the ten supported encodings, a blend of same-sized images fails
      exactly when the destination is luma and the source is rgb. */
  lemma SupportedBlendFailsIffLumaFromRgb(ta: ColorType, a: Raster, tb: ColorType, b: Raster,
                                          op: (real, real) -> real, applyToColor: bool, applyToAlpha: bool)
    requires Supported(ta) && Supported(tb) && Shaped(a) && Shaped(b)
    requires a.channels == ChannelsOf(ta) && b.channels == ChannelsOf(tb)
    requires (a.width, a.height) == (b.width, b.height)
    ensures Blended(a, b, op, applyToColor, applyToAlpha).Err? <==> !IsRgb(StructureOf(ta)) && IsRgb(StructureOf(tb))
    ensures Blended(a, b, op, applyToColor, applyToAlpha).Err? ==>
      Blended(a, b, op, applyToColor, applyToAlpha).error
        == UnsupportedBlend(ColorStr(StructureOf(ta)), ColorStr(StructureOf(tb)))
  {
    ClassifyChannelCount(StructureOf(ta));
    ClassifyChannelCount(StructureOf(tb));
  }

  /** Among the ten supported encodings, alpha can move between same-sized
      images exactly when both encodings carry alpha (transplant) or the
      destination does (set). */
  lemma SupportedAlphaTransfer(ta: ColorType, a: Raster, tb: ColorType, b: Raster)
    requires Supported(ta) && Supported(tb) && Shaped(a) && Shaped(b)
    requires a.channels == ChannelsOf(ta) && b.channels == ChannelsOf(tb)
    requires (a.width, a.height) == (b.width, b.height)
    ensures Transplanted(a, b).Ok? <==> HasAlpha(StructureOf(ta)) && HasAlpha(StructureOf(tb))
    ensures WithAlphaFrom(a, b).Ok? <==> HasAlpha(StructureOf(ta))
    ensures !HasAlpha(StructureOf(ta)) ==> WithAlphaFrom(a, b) == Err(NoAlphaChannel) && Transplanted(a, b) == Err(NoAlphaChannel)
  {
    ClassifyChannelCount(StructureOf(ta));
    ClassifyChannelCount(StructureOf(tb));
  }
}
