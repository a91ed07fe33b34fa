/**
 The recorder's judgement of a paint against the pixels, in both directions
 (display_list/dl_builder.cc, `GetEffectiveColor` and `PaintResult`): what is dropped
 changes nothing, and what is kept changes some pixel in some rendering that fits the
 paint's description.  The shaders that are dropped are named by what they are.
 */
module Judging {
  import opened Records
  import opened PaintRules
  import opened Blend
  import Canvas

  // ----- the shaders dropped under DstIn -----

  /** An image known opaque, and a gradient of opaque colours that is no decal; nothing else. */
  lemma DstInDropsShaders(paint: Paint, flags: OpFlags)
    requires flags.color && flags.blend && paint.blend == DstIn && paint.source.Some? && paint.source.value.Shader?
    requires (flags.colorFilter ==> paint.colorFilter.None?) && (flags.imageFilter ==> paint.imageFilter.None?)
    ensures PaintResult(false, paint, flags) == NoEffect <==>
            match paint.source.value.kind
            case ImageShader(imageIsOpaque, _, _) => imageIsOpaque
            case GradientShader(colorsAreOpaque, mode, _) => colorsAreOpaque && mode != Decal
            case EffectShader => false
  {
  }

  /** A decal gradient and an effect are never dropped for being opaque. */
  lemma DecalGradientsKept(paint: Paint, flags: OpFlags, colorsAreOpaque: bool, fills: bool, id: nat)
    requires flags.color && flags.blend && paint.blend != Dst
    requires paint.source in
               {Some(Shader(id, GradientShader(colorsAreOpaque, Decal, fills))), Some(Shader(id, EffectShader))}
    ensures PaintResult(false, paint, flags) != NoEffect
  {
  }

  /** Images: only the mode and an invisible paint count. */
  lemma ImagesDropped(paint: Paint, flags: OpFlags)
    requires !flags.color && flags.alpha && flags.blend
    requires (flags.colorFilter ==> paint.colorFilter.None?) && (flags.imageFilter ==> paint.imageFilter.None?)
    ensures PaintResult(false, paint, flags) == NoEffect <==>
            paint.blend == Dst || (paint.color.a == 0 && !ErasesClear(paint.blend))
  {
  }

  /** Operations that do not honour the blend mode are never dropped, but on a dead level. */
  lemma BlendlessKept(paint: Paint, flags: OpFlags)
    requires !flags.blend
    ensures PaintResult(false, paint, flags) == AffectsAll && PaintResult(true, paint, flags) == NoEffect
  {
  }

  // ----- what a source can change -----

  /** Some surface shows a source of this kind under the mode. */
  predicate Reaches(mode: BlendMode, s: Pixel) {
    match mode
    case Dst => false
    case Clear => true
    case Src => true
    case SrcIn => true
    case SrcOut => true
    case DstATop => true
    case DstIn => s.a != 1.0
    case Modulate => s != SOLID_WHITE
    case _ => s.a > 0.0
  }

  /** A rendering in which the modes described in words always show. */
  function Showing(mode: BlendMode, s: Pixel, d: Pixel): Pixel {
    if s == CLEAR then d else if d == CLEAR then SOLID_WHITE else CLEAR
  }

  const SOLID_RED := Pixel(1.0, 1.0, 0.0, 0.0)

  lemma OverClear(env: Renderer, mode: BlendMode, s: Pixel)
    requires env.blend == Showing && InRange(s) && s.a > 0.0
    requires mode !in {Clear, Dst, SrcIn, DstIn, SrcATop, DstOut, Modulate}
    ensures Blended(env, mode, s, CLEAR) != CLEAR
  {
    if !Unwritten(mode) {
      assert Blended(env, mode, s, CLEAR).a == s.a;
    }
  }

  lemma SrcInOpaque(env: Renderer, s: Pixel, d: Pixel)
    requires InRange(s) && d.a == 1.0
    ensures Blended(env, SrcIn, s, d) == s && Blended(env, SrcOut, s, d) == CLEAR
  {
  }

  lemma SrcStays(env: Renderer, s: Pixel, d: Pixel)
    requires InRange(s)
    ensures Blended(env, Src, s, d) == s && Blended(env, Clear, s, d) == CLEAR
  {
  }

  lemma AlphaOverWhite(env: Renderer, s: Pixel)
    requires InRange(s)
    ensures Blended(env, DstOut, s, SOLID_WHITE).a == 1.0 - s.a
    ensures Blended(env, DstIn, s, SOLID_WHITE).a == s.a
  {
  }

  lemma DstATopEnds(env: Renderer, s: Pixel)
    requires InRange(s)
    ensures s == CLEAR ==> Blended(env, DstATop, s, SOLID_WHITE) == CLEAR
    ensures Blended(env, DstATop, s, CLEAR) == s
  {
  }

  lemma ModulateWhite(env: Renderer, s: Pixel)
    requires InRange(s)
    ensures Blended(env, Modulate, s, SOLID_WHITE) == s
  {
  }

  /** A source with some alpha cannot leave both white and black alone. */
  lemma AtopChanges(env: Renderer, s: Pixel)
    requires InRange(s) && s.a > 0.0
    ensures Blended(env, SrcATop, s, SOLID_WHITE) != SOLID_WHITE || Blended(env, SrcATop, s, SOLID_BLACK) != SOLID_BLACK
  {
    assert Component(SrcATop, s.r, 0.0, s.a, 1.0) == s.r;
    assert Component(SrcATop, s.r, 1.0, s.a, 1.0) == s.r + (1.0 - s.a);
  }

  lemma ReachingChanges(env: Renderer, mode: BlendMode, s: Pixel) returns (d: Pixel)
    requires env.blend == Showing && InRange(s) && Reaches(mode, s)
    ensures InRange(d) && Blended(env, mode, s, d) != d
  {
    hide Blended;
    match mode
    case Clear =>
      d := SOLID_WHITE;
      SrcStays(env, s, d);
    case Src =>
      d := if s == SOLID_WHITE then CLEAR else SOLID_WHITE;
      SrcStays(env, s, d);
    case SrcIn =>
      d := if s == SOLID_WHITE then SOLID_RED else SOLID_WHITE;
      SrcInOpaque(env, s, d);
    case SrcOut =>
      d := SOLID_WHITE;
      SrcInOpaque(env, s, d);
    case DstATop =>
      d := if s == CLEAR then SOLID_WHITE else CLEAR;
      DstATopEnds(env, s);
    case DstIn =>
      d := SOLID_WHITE;
      AlphaOverWhite(env, s);
    case Modulate =>
      d := SOLID_WHITE;
      ModulateWhite(env, s);
    case DstOut =>
      d := SOLID_WHITE;
      AlphaOverWhite(env, s);
    case SrcATop =>
      AtopChanges(env, s);
      d := if Blended(env, SrcATop, s, SOLID_WHITE) != SOLID_WHITE then SOLID_WHITE else SOLID_BLACK;
    case _ =>
      OverClear(env, mode, s);
      d := CLEAR;
  }

  // ----- a rendering that fits the description -----

  /** Shaders of one colour, and a filter of one colour but for what it promises to keep clear. */
  function Fitting(paint: Paint, shade: Pixel, filtered: Pixel): Renderer {
    var keeps := paint.colorFilter.Some? && !paint.colorFilter.value.modifiesTransparentBlack;
    Renderer(Showing, id => shade, (id, p) => if keeps && p == CLEAR then CLEAR else filtered)
  }

  lemma FittingDescribes(paint: Paint, shade: Pixel, filtered: Pixel)
    requires InRange(shade) && (OpaqueShader(paint) ==> shade.a == 1.0)
    ensures Lawful(Fitting(paint, shade, filtered)) && Describes(Fitting(paint, shade, filtered), paint)
  {
  }

  predicate ErasesClear(mode: BlendMode) { mode in {Clear, Src, SrcIn, DstIn, SrcOut, DstATop, Modulate} }

  lemma PremultipliedFacts(c: Color)
    ensures InRange(Premultiplied(c)) && InRange(Inverted(Premultiplied(c)))
    ensures (Premultiplied(c).a == 1.0 <==> c.a == 255) && (Premultiplied(c).a > 0.0 <==> c.a > 0)
    ensures c.a == 0 ==> Premultiplied(c) == CLEAR
    ensures Inverted(Premultiplied(c)).a == Premultiplied(c).a
    ensures Premultiplied(c) == SOLID_WHITE <==> c == WHITE
    ensures Inverted(Premultiplied(c)) == SOLID_WHITE <==> c == BLACK
  {
    hide Channel;
    ChannelFacts(c.r, c.a);
    ChannelFacts(c.g, c.a);
    ChannelFacts(c.b, c.a);
    var p := Premultiplied(c);
    AlphaFacts(c.a);
    assert p.a == c.a as real / 255.0 && p.r == Channel(c.r, c.a) && p.g == Channel(c.g, c.a) && p.b == Channel(c.b, c.a);
    hide Premultiplied, ChannelLike;
    PixelRange(p, c);
    PixelEnds(p, c);
  }

  lemma AlphaFacts(a: Byte)
    ensures (a as real / 255.0 == 1.0 <==> a == 255) && (a as real / 255.0 > 0.0 <==> a > 0)
  {
  }

  /** The same of any pixel whose channels are as a premultiplied colour's. */
  predicate Like(p: Pixel, c: Color) {
    ChannelLike(p.r, c.r, p.a, c.a) && ChannelLike(p.g, c.g, p.a, c.a) && ChannelLike(p.b, c.b, p.a, c.a)
  }

  lemma PixelRange(p: Pixel, c: Color)
    requires Like(p, c)
    ensures InRange(p) && InRange(Inverted(p)) && Inverted(p).a == p.a
  {
  }

  lemma PixelEnds(p: Pixel, c: Color)
    requires Like(p, c) && (p.a > 0.0 <==> c.a > 0)
    ensures c.a == 0 ==> p == CLEAR
    ensures p == SOLID_WHITE <==> c == WHITE
    ensures Inverted(p) == SOLID_WHITE <==> c == BLACK
  {
    if c.a == 255 {
      FullEnds(p.r, c.r);
      FullEnds(p.g, c.g);
      FullEnds(p.b, c.b);
      assert p.a == 1.0;
      hide ChannelLike, Like;
      assert Inverted(p) == Pixel(1.0, 1.0 - p.r, 1.0 - p.g, 1.0 - p.b);
    } else {
      assert p.a != 1.0;
      assert Inverted(p).a != 1.0;
    }
  }

  lemma FullEnds(p: real, x: Byte)
    requires ChannelLike(p, x, 1.0, 255)
    ensures (p == 1.0 <==> x == 255) && (p == 0.0 <==> x == 0)
  {
  }

  predicate ChannelLike(p: real, x: Byte, a: real, alpha: Byte) {
    && 0.0 <= p <= a <= 1.0 && (alpha == 0 ==> p == 0.0) && (p == 1.0 <==> x == 255 && alpha == 255)
    && (alpha == 255 ==> (p == 0.0 <==> x == 0)) && (a == 1.0 <==> alpha == 255)
  }

  /** One premultiplied channel: at most the alpha, full exactly with it, and nothing exactly for nothing. */
  lemma ChannelFacts(x: Byte, alpha: Byte)
    ensures ChannelLike(Channel(x, alpha), x, alpha as real / 255.0, alpha)
  {
    var u, a := x as real / 255.0, alpha as real / 255.0;
    ProductFacts(u, a, Channel(x, alpha));
    hide Channel;
  }

  lemma ProductFacts(u: real, a: real, p: real)
    requires InUnit(u) && InUnit(a) && p == u * a
    ensures 0.0 <= p <= a && (a == 0.0 ==> p == 0.0) && (a == 1.0 ==> p == u) && (p == 1.0 <==> u == 1.0 && a == 1.0)
  {
    LessThanOne(u, a);
    NonNegativeProduct(u, a);
  }

  /** The colour of a paint without a shader. */
  function PlainColorOf(paint: Paint): Color {
    match paint.source
    case Some(PlainColor(c)) => c
    case _ => paint.color
  }

  predicate HasShader(paint: Paint) { paint.source.Some? && paint.source.value.Shader? }

  /**
   Nothing shows, judged so or not: a shader drawn with an invisible paint where a clear
   source leaves the surface alone, unless a filter makes it visible, and inverted black
   under Modulate.
   */
  predicate KeptForNothing(paint: Paint, flags: OpFlags) {
    || (HasShader(paint) && paint.color.a == 0 && !ErasesClear(paint.blend) &&
        (Filters(paint, flags) ==> !paint.colorFilter.value.modifiesTransparentBlack))
    || (paint.blend == Modulate && Inverts(paint, flags) && !Filters(paint, flags) && !HasShader(paint) &&
        PlainColorOf(paint) == BLACK)
  }

  /** Whatever the renderer makes of the shader, no pixel changes. */
  lemma NothingShows(paint: Paint, flags: OpFlags, content: Pixel)
    requires flags.color && flags.blend && flags.coloring == FromPaint && Unfiltered(paint, flags)
    requires KeptForNothing(paint, flags)
    ensures ChangesNoPixel(paint, flags, content)
  {
    hide Source, Blended, Lawful, InRange;
    forall env, d | Lawful(env) && Describes(env, paint) && InRange(d)
      ensures Composed(env, paint, flags, content, d) == d
    {
      if HasShader(paint) {
        InvisibleSource(env, paint, flags, content);
        ClearSource(env, paint.blend, d);
      } else {
        UnfilteredSource(env, paint, flags, content);
        PremultipliedFacts(BLACK);
        WhiteModulate(env, d);
      }
    }
  }

  lemma InvisibleSource(env: Renderer, paint: Paint, flags: OpFlags, content: Pixel)
    requires flags.color && flags.coloring == FromPaint && HasShader(paint) && paint.color.a == 0 && Describes(env, paint)
    requires Filters(paint, flags) ==> !paint.colorFilter.value.modifiesTransparentBlack
    ensures Source(env, paint, flags, content) == CLEAR
  {
    assert PaintSource(env, paint) == CLEAR;
    hide PaintSource;
  }

  predicate Filters(paint: Paint, flags: OpFlags) { flags.colorFilter && paint.colorFilter.Some? }

  /** The shader's colour that shows best under a mode. */
  function BestShade(paint: Paint): Pixel {
    if paint.blend == DstIn && !OpaqueShader(paint) then CLEAR
    else if paint.blend == Modulate then SOLID_RED
    else SOLID_WHITE
  }

  function BestFiltered(paint: Paint): Pixel { if ErasesClear(paint.blend) then CLEAR else SOLID_WHITE }

  /** Without a filter, the source of a kept operation reaches. */
  lemma UnfilteredReaches(paint: Paint, flags: OpFlags, content: Pixel)
    requires flags.color && flags.blend && flags.coloring == FromPaint && Unfiltered(paint, flags) && !Filters(paint, flags)
    requires PaintResult(false, paint, flags) != NoEffect && !KeptForNothing(paint, flags)
    ensures var s := Source(Fitting(paint, BestShade(paint), BestFiltered(paint)), paint, flags, content);
            InRange(s) && Reaches(paint.blend, s)
  {
    var env := Fitting(paint, BestShade(paint), BestFiltered(paint));
    UnfilteredSource(env, paint, flags, content);
    if HasShader(paint) {
      ShaderReaches(paint, flags);
    } else {
      PlainReaches(paint, flags);
    }
    hide Source, PaintResult, PaintSource;
  }

  lemma UnfilteredSource(env: Renderer, paint: Paint, flags: OpFlags, content: Pixel)
    requires flags.color && flags.coloring == FromPaint && !Filters(paint, flags)
    ensures var base := if HasShader(paint) then Scaled(env.shade(paint.source.value.id), Alpha(paint))
                        else Premultiplied(PlainColorOf(paint));
            Source(env, paint, flags, content) == if Inverts(paint, flags) then Inverted(base) else base
  {
    hide Scaled, Premultiplied, Inverted;
  }

  lemma PlainReaches(paint: Paint, flags: OpFlags)
    requires flags.color && flags.blend && Unfiltered(paint, flags) && !Filters(paint, flags) && !HasShader(paint)
    requires PaintResult(false, paint, flags) != NoEffect && !KeptForNothing(paint, flags)
    ensures var base := Premultiplied(PlainColorOf(paint));
            var s := if Inverts(paint, flags) then Inverted(base) else base;
            InRange(s) && Reaches(paint.blend, s)
  {
    hide PaintResult, EffectiveColor, Premultiplied, PlainColorOf, Inverted, Reaches, Inverts, InRange;
    PlainKept(paint, flags);
    ColorReaches(paint.blend, PlainColorOf(paint), Inverts(paint, flags));
  }

  lemma ColorReaches(mode: BlendMode, c: Color, inverts: bool)
    requires mode != Dst && (mode == DstIn ==> c.a != 255) && (!ErasesClear(mode) ==> c.a != 0)
    requires mode == Modulate ==> if inverts then c != BLACK else c != WHITE
    ensures var base := Premultiplied(c);
            var s := if inverts then Inverted(base) else base;
            InRange(s) && Reaches(mode, s)
  {
    hide Premultiplied, Inverted, InRange;
    PremultipliedFacts(c);
  }

  lemma PlainKept(paint: Paint, flags: OpFlags)
    requires flags.color && flags.blend && Unfiltered(paint, flags) && !Filters(paint, flags) && !HasShader(paint)
    requires PaintResult(false, paint, flags) != NoEffect
    ensures var c := PlainColorOf(paint);
            && paint.blend != Dst && (paint.blend == DstIn ==> c.a != 255) && (paint.blend == Modulate ==> c != WHITE)
            && (!ErasesClear(paint.blend) ==> c.a != 0)
  {
    assert EffectiveColor(paint, flags) == PlainColorOf(paint);
    hide EffectiveColor, PlainColorOf;
  }

  lemma ShaderReaches(paint: Paint, flags: OpFlags)
    requires flags.color && flags.blend && Unfiltered(paint, flags) && !Filters(paint, flags) && HasShader(paint)
    requires PaintResult(false, paint, flags) != NoEffect && (paint.color.a != 0 || ErasesClear(paint.blend))
    ensures var base := Scaled(BestShade(paint), Alpha(paint));
            var s := if Inverts(paint, flags) then Inverted(base) else base;
            InRange(s) && Reaches(paint.blend, s)
  {
    hide Scaled, OpaqueShader, PaintResult, EffectiveColor;
    KeptShader(paint, flags);
    var k := Alpha(paint);
    assert 0.0 <= k <= 1.0 && (k == 0.0 ==> paint.color.a == 0);
    hide Alpha;
    ScaledShades(k);
    ShadeReaches(paint.blend, Scaled(BestShade(paint), k), k, Inverts(paint, flags));
  }

  lemma ShadeReaches(mode: BlendMode, base: Pixel, k: real, inverts: bool)
    requires 0.0 <= k <= 1.0 && mode != Dst && (k == 0.0 ==> ErasesClear(mode))
    requires base == if mode == DstIn then CLEAR else if mode == Modulate then Pixel(k, k, 0.0, 0.0) else Pixel(k, k, k, k)
    ensures var s := if inverts then Inverted(base) else base; InRange(s) && Reaches(mode, s)
  {
    hide InRange, Inverted, Reaches;
    assert Full(base) && InUnit(base.a);
    Shade(base);
    Shows(mode, base);
    Shows(mode, Inverted(base));
  }

  lemma Shows(mode: BlendMode, s: Pixel)
    requires mode != Dst && (mode == DstIn ==> s.a == 0.0) && (mode == Modulate ==> s.r != 1.0 || s.g != 1.0)
    requires s.a == 0.0 ==> ErasesClear(mode)
    requires s.a >= 0.0
    ensures Reaches(mode, s)
  {
  }

  /** Every channel is nothing or all there is. */
  predicate Full(p: Pixel) { p.r in {0.0, p.a} && p.g in {0.0, p.a} && p.b in {0.0, p.a} }

  lemma Shade(p: Pixel)
    requires InUnit(p.a) && Full(p)
    ensures InRange(p) && InRange(Inverted(p)) && Inverted(p).a == p.a && Inverted(p).r == p.a - p.r
  {
  }

  lemma ScaledShades(k: real)
    ensures Scaled(SOLID_WHITE, k) == Pixel(k, k, k, k) && Scaled(SOLID_RED, k) == Pixel(k, k, 0.0, 0.0)
    ensures Scaled(CLEAR, k) == CLEAR
  {
  }

  lemma KeptShader(paint: Paint, flags: OpFlags)
    requires flags.color && flags.blend && Unfiltered(paint, flags) && !Filters(paint, flags) && HasShader(paint)
    requires PaintResult(false, paint, flags) != NoEffect
    ensures paint.blend != Dst && (paint.blend == DstIn ==> !OpaqueShader(paint))
  {
  }

  /** With one, its output can be chosen, unless it is promised to stay clear: then the mode erases. */
  lemma FilteredReaches(paint: Paint, flags: OpFlags, content: Pixel)
    requires flags.color && flags.blend && flags.coloring == FromPaint && Unfiltered(paint, flags) && Filters(paint, flags)
    requires PaintResult(false, paint, flags) != NoEffect && !KeptForNothing(paint, flags)
    ensures var s := Source(Fitting(paint, SOLID_WHITE, BestFiltered(paint)), paint, flags, content);
            InRange(s) && Reaches(paint.blend, s)
  {
    hide Source, PaintResult, Scaled, Premultiplied, EffectiveColor;
    var env := Fitting(paint, SOLID_WHITE, BestFiltered(paint));
    var base := PaintSource(env, paint);
    FilteredSource(env, paint, flags, content);
    FilteredColor(paint, flags);
    BaseShows(env, paint);
    hide PaintSource, PlainColorOf, HasShader;
  }

  lemma FilteredSource(env: Renderer, paint: Paint, flags: OpFlags, content: Pixel)
    requires flags.color && flags.coloring == FromPaint && Filters(paint, flags)
    ensures var f := env.filter(paint.colorFilter.value.id, PaintSource(env, paint));
            Source(env, paint, flags, content) == if Inverts(paint, flags) then Inverted(f) else f
  {
    hide PaintSource, Inverted;
  }

  /** A shader drawn visibly, and a plain colour that is not transparent, are not clear. */
  lemma BaseShows(env: Renderer, paint: Paint)
    requires HasShader(paint) ==> env.shade(paint.source.value.id) == SOLID_WHITE
    ensures PaintSource(env, paint) == CLEAR ==> if HasShader(paint) then paint.color.a == 0 else PlainColorOf(paint).a == 0
  {
    if HasShader(paint) {
      ScaledShades(Alpha(paint));
    } else {
      PremultipliedFacts(PlainColorOf(paint));
    }
    hide Scaled, Premultiplied;
  }

  /** A filter makes the colour uncertain unless it keeps a transparent one. */
  lemma FilteredColor(paint: Paint, flags: OpFlags)
    requires flags.color && flags.blend && Unfiltered(paint, flags) && Filters(paint, flags)
    requires PaintResult(false, paint, flags) != NoEffect
    ensures paint.blend != Dst
    ensures !paint.colorFilter.value.modifiesTransparentBlack && !HasShader(paint) && PlainColorOf(paint).a == 0 ==>
              ErasesClear(paint.blend)
  {
  }

  /** What is kept changes some pixel. */
  lemma KeptChanges(paint: Paint, flags: OpFlags, content: Pixel) returns (env: Renderer, d: Pixel)
    requires flags.color && flags.blend && flags.coloring == FromPaint && Unfiltered(paint, flags)
    requires PaintResult(false, paint, flags) != NoEffect && !KeptForNothing(paint, flags)
    ensures Lawful(env) && Describes(env, paint) && InRange(d)
    ensures Composed(env, paint, flags, content, d) != d
  {
    hide Source, Blended, PaintResult, KeptForNothing, Lawful, Describes, Reaches, InRange, Showing;
    var shade := if Filters(paint, flags) then SOLID_WHITE else BestShade(paint);
    env := Fitting(paint, shade, BestFiltered(paint));
    ShadesInRange();
    FittingDescribes(paint, shade, BestFiltered(paint));
    if Filters(paint, flags) {
      FilteredReaches(paint, flags, content);
    } else {
      UnfilteredReaches(paint, flags, content);
    }
    d := ReachingChanges(env, paint.blend, Source(env, paint, flags, content));
  }

  lemma ShadesInRange()
    ensures InRange(SOLID_WHITE) && InRange(SOLID_RED) && InRange(CLEAR)
  {
  }

  /**
   Of the operations coloured by their paint, those that change no pixel are exactly those
   dropped and not misjudged, and those kept for nothing.
   */
  lemma JudgedExactly(paint: Paint, flags: OpFlags, content: Pixel)
    requires flags.color && flags.blend && flags.coloring == FromPaint && Unfiltered(paint, flags) && InRange(content)
    ensures ChangesNoPixel(paint, flags, content) <==>
            || (PaintResult(false, paint, flags) == NoEffect && !Misjudged(paint, flags, content))
            || KeptForNothing(paint, flags)
  {
    hide Composed, PaintResult, Misjudged, KeptForNothing;
    if PaintResult(false, paint, flags) == NoEffect {
      NoEffectExact(paint, flags, content);
    } else if !KeptForNothing(paint, flags) {
      var env, d := KeptChanges(paint, flags, content);
    }
    if KeptForNothing(paint, flags) {
      NothingShows(paint, flags, content);
    }
  }

  // ----- transparency -----

  /** An operation said to preserve transparency leaves a clear surface clear. */
  lemma TransparencyPreserved(env: Renderer, paint: Paint, flags: OpFlags, content: Pixel)
    requires Lawful(env) && Describes(env, paint) && Unfiltered(paint, flags)
    requires PaintResult(false, paint, flags) != AffectsAll
    ensures Composed(env, paint, flags, content, CLEAR) == CLEAR
  {
    var s := Source(env, paint, flags, content);
    hide Source, EffectiveColor;
    if paint.blend in {Clear, Dst, SrcIn, DstIn, SrcATop, DstOut, Modulate} {
      ClearStays(env, paint.blend, s);
    } else {
      TransparentSource(env, paint, flags, content);
      ClearOnClear(env, paint.blend);
    }
    hide Blended;
  }

  lemma ClearStays(env: Renderer, mode: BlendMode, s: Pixel)
    requires mode in {Clear, Dst, SrcIn, DstIn, SrcATop, DstOut, Modulate}
    ensures Blended(env, mode, s, CLEAR) == CLEAR
  {
  }

  lemma ClearOnClear(env: Renderer, mode: BlendMode)
    requires Lawful(env)
    ensures Blended(env, mode, CLEAR, CLEAR) == CLEAR
  {
  }

  // ----- group opacity -----

  /**
   What can take a group opacity: source-over without a colour filter or inversion, and where hairlines
   do not count, a fill or a stroke of some width.
   */
  lemma TakesOpacityExactly(rule: Canvas.OpacityRule, paint: Paint)
    ensures var plain := paint.blend == SrcOver && paint.colorFilter == None && !paint.invertColors;
            Canvas.TakesOpacity(rule, paint) <==>
            match rule
            case UsesPaint => plain
            case UsesPaintUnlessHairline => plain && !(paint.style != Fill && paint.strokeWidth <= 0.0)
            case Fixed(compatible) => compatible
  {
  }

  /** A stroked hairline is the one paint for which the two rules differ. */
  lemma OnlyHairlinesDiffer(paint: Paint)
    ensures Canvas.TakesOpacity(Canvas.UsesPaint, paint) != Canvas.TakesOpacity(Canvas.UsesPaintUnlessHairline, paint) <==>
            OpacityCompatible(paint) && paint.style in {Stroke, StrokeAndFill} && paint.strokeWidth <= 0.0
  {
  }
}
