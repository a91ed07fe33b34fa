/**
 The recorder's reading of a paint: the colour an operation is certain to produce,
 whether the operation can change any pixel, and whether it can take a group
 opacity (display_list/dl_builder.cc, display_list/dl_builder.h).
 */
module PaintRules {
  import opened Records

  datatype OpResult = NoEffect | PreservesTransparency | AffectsAll

  function EffectiveColor(paint: Paint, flags: OpFlags): Color {
    var base :=
      if flags.color then
        match paint.source
        case Some(PlainColor(c)) => c
        case Some(Shader(_, kind)) => if kind.IsOpaque() then BLACK else ANY_COLOR
        case None => paint.color
      else if flags.alpha then if paint.color.a == 0 then TRANSPARENT else ANY_COLOR
      else ANY_COLOR;
    var imaged := if flags.imageFilter then Filtered(base, paint.imageFilter) else base;
    if flags.colorFilter then Filtered(imaged, paint.colorFilter) else imaged
  }

  function Filtered(color: Color, filter: Option<Filter>): Color {
    if filter.Some? && (!color.IsTransparent() || filter.value.modifiesTransparentBlack)
    then ANY_COLOR else color
  }

  function PaintResult(isNop: bool, paint: Paint, flags: OpFlags): OpResult {
    if isNop then NoEffect
    else if !flags.blend then AffectsAll
    else
      var color := EffectiveColor(paint, flags);
      match paint.blend
      case Dst => NoEffect
      case Clear => PreservesTransparency
      case SrcIn => PreservesTransparency
      case SrcATop => if color.IsTransparent() then NoEffect else PreservesTransparency
      case DstOut => if color.IsTransparent() then NoEffect else PreservesTransparency
      case Src => if color.IsTransparent() then PreservesTransparency else AffectsAll
      case SrcOut => if color.IsTransparent() then PreservesTransparency else AffectsAll
      case DstATop => if color.IsTransparent() then PreservesTransparency else AffectsAll
      case DstIn => if color.IsOpaque() then NoEffect else PreservesTransparency
      case Modulate => if color == WHITE then NoEffect else PreservesTransparency
      case _ => if color.IsTransparent() then NoEffect else AffectsAll
  }

  /** A layer drawn with this paint leaves the surface alone wherever the layer is clear. */
  predicate NopsOnTransparency(paint: Paint) {
    && (paint.imageFilter.Some? ==> !paint.imageFilter.value.modifiesTransparentBlack)
    && (paint.colorFilter.Some? ==> !paint.colorFilter.value.modifiesTransparentBlack)
    && paint.blend !in {Clear, Src, SrcIn, DstIn, SrcOut, DstATop, Modulate}
  }

  /** The paint can be drawn at an inherited opacity. */
  predicate OpacityCompatible(paint: Paint) {
    paint.colorFilter.None? && !paint.invertColors && paint.blend == SrcOver
  }
}
