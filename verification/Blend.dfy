/**
 What dropping an operation costs in pixels: premultiplied pixels over the reals,
 the blend equations of display_list/dl_blend_mode.h, and the recorder's decision
 that an operation or a whole layer has no effect.

 The decision is right but for three families, and those are named: under DstIn an
 opaque shader drawn with a translucent paint or one that does not cover the plane;
 inverted white under Modulate; and under either mode operations whose source is not
 the paint's colour alone, such as glyphs.
 */
module Blend {
  import opened Records
  import opened PaintRules

  // ----- pixels -----

  datatype Pixel = Pixel(a: real, r: real, g: real, b: real)

  const CLEAR := Pixel(0.0, 0.0, 0.0, 0.0)
  const SOLID_WHITE := Pixel(1.0, 1.0, 1.0, 1.0)
  const SOLID_BLACK := Pixel(1.0, 0.0, 0.0, 0.0)

  predicate InUnit(x: real) { 0.0 <= x <= 1.0 }

  predicate InRange(p: Pixel) {
    InUnit(p.a) && InUnit(p.r) && InUnit(p.g) && InUnit(p.b)
  }

  function ClampUnit(x: real): (r: real)
    ensures InUnit(r)
    ensures InUnit(x) ==> r == x
  {
    if x < 0.0 then 0.0 else if x > 1.0 then 1.0 else x
  }

  function Scaled(p: Pixel, k: real): Pixel {
    Pixel(p.a * k, p.r * k, p.g * k, p.b * k)
  }

  function Premultiplied(c: Color): Pixel {
    Pixel(c.a as real / 255.0, Channel(c.r, c.a), Channel(c.g, c.a), Channel(c.b, c.a))
  }

  function Channel(x: Byte, alpha: Byte): real { x as real / 255.0 * (alpha as real / 255.0) }

  function Inverted(p: Pixel): Pixel {
    Pixel(p.a, p.a - p.r, p.a - p.g, p.a - p.b)
  }

  // ----- the blend equations -----

  function Least(x: real, y: real): real { if x <= y then x else y }
  function Most(x: real, y: real): real { if x <= y then y else x }

  /** One component of the result: source `s`, destination `d`, alphas `sa` and `da`. */
  function Component(mode: BlendMode, s: real, d: real, sa: real, da: real): real {
    match mode
    case Clear => 0.0
    case Src => s
    case Dst => d
    case SrcOver => s + (1.0 - sa) * d
    case DstOver => d + (1.0 - da) * s
    case SrcIn => s * da
    case DstIn => d * sa
    case SrcOut => s * (1.0 - da)
    case DstOut => d * (1.0 - sa)
    case SrcATop => s * da + d * (1.0 - sa)
    case DstATop => d * sa + s * (1.0 - da)
    case Xor => s * (1.0 - da) + d * (1.0 - sa)
    case Plus => Least(s + d, 1.0)
    case Modulate => s * d
    case Screen => s + d - s * d
    case Darken => s + d - Most(s * da, d * sa)
    case Lighten => s + d - Least(s * da, d * sa)
    case Difference => s + d - 2.0 * Least(s * da, d * sa)
    case Exclusion => s + d - 2.0 * (s * d)
    case Multiply => s * (1.0 - da) + d * (1.0 - sa) + s * d
    case _ => d
  }

  /** The modes whose result alpha is that of SrcOver. */
  predicate SrcOverAlpha(mode: BlendMode) {
    mode.Darken? || mode.Lighten? || mode.Difference? || mode.Exclusion?
  }

  /** The modes whose equation is described in words only. */
  predicate Unwritten(mode: BlendMode) {
    mode.Overlay? || mode.ColorDodge? || mode.ColorBurn? || mode.HardLight? || mode.SoftLight?
    || mode.Hue? || mode.Saturation? || mode.HueAndSaturation? || mode.Luminosity?
  }

  /**
   The parts of rendering that are not written down here: the modes described in
   words, what a shader and a colour filter produce at the pixel in question.
   */
  datatype Renderer = Renderer(
    blend: (BlendMode, Pixel, Pixel) -> Pixel,
    shade: nat -> Pixel,
    filter: (nat, Pixel) -> Pixel)

  /** A clear source leaves the destination alone, and filters keep what they say they keep. */
  ghost predicate Lawful(env: Renderer) {
    && (forall mode, d :: env.blend(mode, CLEAR, d) == d)
    && (forall id :: InRange(env.shade(id)))
  }

  /**
   A shader or filter named by the paint behaves as it is described: the colours of
   an opaque shader are opaque, and where they do not reach it is clear.
   */
  ghost predicate Describes(env: Renderer, paint: Paint) {
    && (OpaqueShader(paint) ==>
          var shade := env.shade(paint.source.value.id);
          shade.a == 1.0 || (shade == CLEAR && !paint.source.value.kind.CoversPlane()))
    && (paint.colorFilter.Some? && !paint.colorFilter.value.modifiesTransparentBlack ==>
          env.filter(paint.colorFilter.value.id, CLEAR) == CLEAR)
  }

  function Blended(env: Renderer, mode: BlendMode, s: Pixel, d: Pixel): Pixel {
    var r := if Unwritten(mode) then env.blend(mode, s, d)
             else Pixel(if SrcOverAlpha(mode) then s.a + (1.0 - s.a) * d.a else Component(mode, s.a, d.a, s.a, d.a),
                        Component(mode, s.r, d.r, s.a, d.a),
                        Component(mode, s.g, d.g, s.a, d.a),
                        Component(mode, s.b, d.b, s.a, d.a));
    Pixel(ClampUnit(r.a), ClampUnit(r.r), ClampUnit(r.g), ClampUnit(r.b))
  }

  predicate OpaqueShader(paint: Paint) {
    paint.source.Some? && paint.source.value.Shader? && paint.source.value.kind.IsOpaque()
  }

  /** The Porter-Duff modes: what is in, what is out, and their sums; each is its opposite with the roles exchanged. */
  lemma PorterDuff(s: real, d: real, sa: real, da: real)
    ensures Component(SrcIn, s, d, sa, da) == s * da && Component(SrcOut, s, d, sa, da) == s - s * da
    ensures Component(SrcOver, s, d, sa, da) == s + Component(DstOut, s, d, sa, da)
    ensures Component(SrcATop, s, d, sa, da) == Component(SrcIn, s, d, sa, da) + Component(DstOut, s, d, sa, da)
    ensures Component(Xor, s, d, sa, da) == Component(SrcOut, s, d, sa, da) + Component(DstOut, s, d, sa, da)
    ensures Component(DstOver, s, d, sa, da) == Component(SrcOver, d, s, da, sa)
    ensures Component(DstIn, s, d, sa, da) == Component(SrcIn, d, s, da, sa)
    ensures Component(DstOut, s, d, sa, da) == Component(SrcOut, d, s, da, sa)
    ensures Component(DstATop, s, d, sa, da) == Component(SrcATop, d, s, da, sa)
    ensures Component(Dst, s, d, sa, da) == Component(Src, d, s, da, sa) == d
  {
  }

  /** The separable modes do not tell source from destination, and are related among themselves. */
  lemma Separable(s: real, d: real, sa: real, da: real)
    ensures forall mode :: mode in {Xor, Plus, Modulate, Screen, Darken, Lighten, Difference, Exclusion, Multiply} ==>
              Component(mode, s, d, sa, da) == Component(mode, d, s, da, sa)
    ensures Component(Screen, s, d, sa, da) + Component(Modulate, s, d, sa, da) == s + d
    ensures Component(Exclusion, s, d, sa, da) + Component(Modulate, s, d, sa, da) == Component(Screen, s, d, sa, da)
    ensures Component(Multiply, s, d, sa, da) == Component(Xor, s, d, sa, da) + Component(Modulate, s, d, sa, da)
    ensures Component(Darken, s, d, sa, da) + Component(Lighten, s, d, sa, da) == (s + d) + (s + d) - (s * da + d * sa)
    ensures Component(Difference, s, d, sa, da) == Component(Lighten, s, d, sa, da) - Least(s * da, d * sa)
    ensures Component(Darken, s, d, sa, da) <= Component(Lighten, s, d, sa, da)
    ensures Component(Plus, s, d, sa, da) <= 1.0 && (s + d <= 1.0 ==> Component(Plus, s, d, sa, da) == s + d)
  {
  }

  // ----- one operation -----

  function Alpha(paint: Paint): real { paint.color.a as real / 255.0 }

  /** The alpha of the colour a paint stands for. */
  function ColorAlpha(paint: Paint): Byte {
    match paint.source
    case Some(PlainColor(c)) => c.a
    case _ => paint.color.a
  }

  /** What a paint makes of its colour source. */
  function PaintSource(env: Renderer, paint: Paint): Pixel {
    match paint.source
    case Some(PlainColor(c)) => Premultiplied(c)
    case Some(Shader(id, _)) => Scaled(env.shade(id), Alpha(paint))
    case None => Premultiplied(paint.color)
  }

  /** The pixel an operation brings before filters: its own `content`, the paint's colour, or both. */
  function Base(env: Renderer, paint: Paint, flags: OpFlags, content: Pixel): Pixel {
    if flags.color then
      match flags.coloring
      case FromPaint => PaintSource(env, paint)
      case OwnColors => Scaled(content, ColorAlpha(paint) as real / 255.0)
      case Stencil => Scaled(PaintSource(env, paint), content.a)
    else if flags.alpha then Scaled(content, Alpha(paint))
    else content
  }

  function Source(env: Renderer, paint: Paint, flags: OpFlags, content: Pixel): Pixel {
    var base := Base(env, paint, flags, content);
    var filtered := if flags.colorFilter && paint.colorFilter.Some?
                    then env.filter(paint.colorFilter.value.id, base) else base;
    if flags.colorFilter && paint.invertColors then Inverted(filtered) else filtered
  }

  function Composed(env: Renderer, paint: Paint, flags: OpFlags, content: Pixel, d: Pixel): (r: Pixel)
    ensures InRange(r)
  {
    Blended(env, if flags.blend then paint.blend else SrcOver, Source(env, paint, flags, content), d)
  }

  /** No image filter is applied: those look beyond one pixel. */
  predicate Unfiltered(paint: Paint, flags: OpFlags) {
    flags.imageFilter ==> paint.imageFilter.None?
  }

  /** An opaque paint whose source is not opaque everywhere. */
  predicate Uneven(paint: Paint) {
    OpaqueShader(paint) && (paint.color.a != 255 || !paint.source.value.kind.CoversPlane())
  }

  predicate Inverts(paint: Paint, flags: OpFlags) { flags.colorFilter && paint.invertColors }

  /** The operations the recorder misjudges, among those it judges to have no effect. */
  predicate Misjudged(paint: Paint, flags: OpFlags, content: Pixel) {
    && flags.color
    && match flags.coloring
       case FromPaint =>
         || (paint.blend == DstIn && Uneven(paint))
         || (paint.blend == Modulate && Inverts(paint, flags))
       case Stencil =>
         || (paint.blend == DstIn && (Uneven(paint) || content.a != 1.0))
         || (paint.blend == Modulate && (Inverts(paint, flags) || content.a != 1.0))
       case OwnColors =>
         || (paint.blend == DstIn && (content.a != 1.0 || ColorAlpha(paint) != 255))
         || (paint.blend == Modulate && content != if Inverts(paint, flags) then SOLID_BLACK else SOLID_WHITE)
  }

  lemma ClearSource(env: Renderer, mode: BlendMode, d: Pixel)
    requires Lawful(env) && InRange(d)
    requires mode !in {Clear, Src, SrcIn, DstIn, SrcOut, DstATop, Modulate}
    ensures Blended(env, mode, CLEAR, d) == d
  {
  }

  lemma OpaqueDstIn(env: Renderer, s: Pixel, d: Pixel)
    requires s.a == 1.0 && InRange(d)
    ensures Blended(env, DstIn, s, d) == d
  {
  }

  lemma WhiteModulate(env: Renderer, d: Pixel)
    requires InRange(d)
    ensures Blended(env, Modulate, SOLID_WHITE, d) == d
  {
  }

  lemma TransparentSource(env: Renderer, paint: Paint, flags: OpFlags, content: Pixel)
    requires EffectiveColor(paint, flags).IsTransparent() && Describes(env, paint) && Unfiltered(paint, flags)
    ensures Source(env, paint, flags, content) == CLEAR
  {
    TransparentBase(env, paint, flags, content);
    hide Base;
  }

  lemma TransparentBase(env: Renderer, paint: Paint, flags: OpFlags, content: Pixel)
    requires EffectiveColor(paint, flags).IsTransparent() && Unfiltered(paint, flags)
    ensures Base(env, paint, flags, content) == CLEAR
  {
    ClearWithoutAlpha(paint, content);
    if paint.source.Some? && paint.source.value.PlainColor? {
      ClearWithoutAlpha(paint.(color := paint.source.value.color), content);
    }
    assert Scaled(CLEAR, content.a) == CLEAR;
    hide Scaled, Premultiplied;
  }

  lemma ClearWithoutAlpha(paint: Paint, content: Pixel)
    ensures paint.color.a == 0 ==>
              Premultiplied(paint.color) == CLEAR && Scaled(content, paint.color.a as real / 255.0) == CLEAR
  {
  }

  /** Without a filter the source of a plain operation is the base, inverted if need be. */
  lemma JudgedBase(paint: Paint, flags: OpFlags)
    requires !EffectiveColor(paint, flags).IsTransparent() && EffectiveColor(paint, flags) != ANY_COLOR
    requires Unfiltered(paint, flags)
    ensures flags.color && (flags.colorFilter ==> paint.colorFilter.None?)
    ensures EffectiveColor(paint, flags) ==
            match paint.source
            case Some(PlainColor(c)) => c
            case Some(Shader(_, kind)) => if kind.IsOpaque() then BLACK else ANY_COLOR
            case None => paint.color
  {
  }

  /** The alpha an operation judged opaque brings. */
  lemma OpaqueAlpha(env: Renderer, paint: Paint, flags: OpFlags, content: Pixel)
    requires EffectiveColor(paint, flags).IsOpaque() && Unfiltered(paint, flags)
    ensures flags.color
    ensures var own := if OpaqueShader(paint) then env.shade(paint.source.value.id).a * Alpha(paint) else 1.0;
            Source(env, paint, flags, content).a ==
            match flags.coloring
            case FromPaint => own
            case Stencil => own * content.a
            case OwnColors => content.a * (ColorAlpha(paint) as real / 255.0)
    ensures !OpaqueShader(paint) ==> ColorAlpha(paint) == 255
  {
    hide EffectiveColor, PaintSource;
    JudgedBase(paint, flags);
    PaintAlpha(env, paint);
    BaseAlpha(env, paint, flags, content);
    hide Base, Alpha;
  }

  lemma BaseAlpha(env: Renderer, paint: Paint, flags: OpFlags, content: Pixel)
    requires flags.color
    ensures Base(env, paint, flags, content).a ==
            match flags.coloring
            case FromPaint => PaintSource(env, paint).a
            case Stencil => PaintSource(env, paint).a * content.a
            case OwnColors => content.a * (ColorAlpha(paint) as real / 255.0)
  {
    hide PaintSource, ColorAlpha;
  }

  lemma PaintAlpha(env: Renderer, paint: Paint)
    ensures PaintSource(env, paint).a ==
            match paint.source
            case Some(PlainColor(c)) => c.a as real / 255.0
            case Some(Shader(id, _)) => env.shade(id).a * Alpha(paint)
            case None => Alpha(paint)
  {
  }

  lemma OpaqueSource(env: Renderer, paint: Paint, flags: OpFlags, content: Pixel)
    requires paint.blend == DstIn && EffectiveColor(paint, flags).IsOpaque()
    requires Describes(env, paint) && Unfiltered(paint, flags) && !Misjudged(paint, flags, content)
    ensures Source(env, paint, flags, content).a == 1.0
  {
    hide EffectiveColor, Source;
    OpaqueAlpha(env, paint, flags, content);
  }

  /** The source of an operation judged white. */
  lemma WhiteSource(env: Renderer, paint: Paint, flags: OpFlags, content: Pixel)
    requires EffectiveColor(paint, flags) == WHITE && Unfiltered(paint, flags)
    ensures flags.color
    ensures var base := match flags.coloring
                        case FromPaint => SOLID_WHITE
                        case Stencil => Scaled(SOLID_WHITE, content.a)
                        case OwnColors => content;
            Source(env, paint, flags, content) == if Inverts(paint, flags) then Inverted(base) else base
  {
    JudgedBase(paint, flags);
    hide EffectiveColor;
    assert Premultiplied(WHITE) == SOLID_WHITE;
    assert Scaled(content, 1.0) == content;
    assert PaintSource(env, paint) == SOLID_WHITE && ColorAlpha(paint) == 255;
    hide Scaled, Premultiplied, PaintSource, ColorAlpha;
  }

  /** Which contents leave white white. */
  lemma WhiteStays(content: Pixel, k: real)
    ensures Inverted(content) == SOLID_WHITE <==> content == SOLID_BLACK
    ensures Scaled(SOLID_WHITE, k) == SOLID_WHITE <==> k == 1.0
    ensures Inverted(Scaled(SOLID_WHITE, k)) != SOLID_WHITE
  {
  }

  /** Under Modulate an operation judged white is misjudged exactly if its source is not white. */
  lemma WhiteExactly(env: Renderer, paint: Paint, flags: OpFlags, content: Pixel)
    requires paint.blend == Modulate && EffectiveColor(paint, flags) == WHITE && Unfiltered(paint, flags)
    ensures Misjudged(paint, flags, content) <==> Source(env, paint, flags, content) != SOLID_WHITE
  {
    hide EffectiveColor, Source, Scaled, Inverted;
    WhiteSource(env, paint, flags, content);
    WhiteStays(content, content.a);
    WhiteStays(SOLID_WHITE, 1.0);
  }

  /** An operation judged to have no effect leaves every pixel alone, unless it is one of the misjudged. */
  lemma NoEffectSound(env: Renderer, paint: Paint, flags: OpFlags, content: Pixel, d: Pixel)
    requires Lawful(env) && Describes(env, paint) && InRange(d) && Unfiltered(paint, flags)
    requires PaintResult(false, paint, flags) == NoEffect && !Misjudged(paint, flags, content)
    ensures Composed(env, paint, flags, content, d) == d
  {
    hide Source, EffectiveColor, Blended, Misjudged;
    if paint.blend == Dst {
      DstKeeps(env, Source(env, paint, flags, content), d);
    } else if paint.blend == DstIn {
      OpaqueSource(env, paint, flags, content);
      OpaqueDstIn(env, Source(env, paint, flags, content), d);
    } else if paint.blend == Modulate {
      WhiteExactly(env, paint, flags, content);
      WhiteModulate(env, d);
    } else {
      TransparentSource(env, paint, flags, content);
      ClearSource(env, paint.blend, d);
    }
  }

  lemma DstKeeps(env: Renderer, s: Pixel, d: Pixel)
    requires InRange(d)
    ensures Blended(env, Dst, s, d) == d
  {
  }

  lemma OverWhite(env: Renderer, s: Pixel)
    ensures Blended(env, DstIn, s, SOLID_WHITE).a == ClampUnit(s.a)
    ensures Blended(env, Modulate, s, SOLID_WHITE).r == ClampUnit(s.r)
    ensures AtMostOne(s) ==> (Blended(env, Modulate, s, SOLID_WHITE) == SOLID_WHITE <==> s == SOLID_WHITE)
  {
  }

  predicate AtMostOne(p: Pixel) { p.a <= 1.0 && p.r <= 1.0 && p.g <= 1.0 && p.b <= 1.0 }

  /** A renderer in which an opaque shader that does not cover the plane is clear at the pixel, any other white. */
  function Simple(paint: Paint): Renderer {
    var shade := if OpaqueShader(paint) && !paint.source.value.kind.CoversPlane() then CLEAR else SOLID_WHITE;
    Renderer((mode, s, d) => d, id => shade, (id, p) => p)
  }

  lemma SimpleDescribes(paint: Paint)
    ensures Lawful(Simple(paint)) && Describes(Simple(paint), paint)
  {
  }

  /** A misjudged operation does change a pixel. */
  lemma MisjudgedChanges(paint: Paint, flags: OpFlags, content: Pixel) returns (env: Renderer, d: Pixel)
    requires PaintResult(false, paint, flags) == NoEffect && Unfiltered(paint, flags) && InRange(content)
    requires Misjudged(paint, flags, content)
    ensures Lawful(env) && Describes(env, paint) && InRange(d)
    ensures Composed(env, paint, flags, content, d) != d
  {
    env, d := Simple(paint), SOLID_WHITE;
    SimpleDescribes(paint);
    hide Source, Blended, EffectiveColor, Simple, Lawful, Describes;
    OverWhite(env, Source(env, paint, flags, content));
    if paint.blend == DstIn {
      FadedSource(paint, flags, content);
    } else {
      WhiteAtMostOne(env, paint, flags, content);
      WhiteExactly(env, paint, flags, content);
    }
  }

  /** Under DstIn, a misjudged operation brings less than full alpha. */
  lemma FadedSource(paint: Paint, flags: OpFlags, content: Pixel)
    requires paint.blend == DstIn && EffectiveColor(paint, flags).IsOpaque() && Unfiltered(paint, flags)
    requires InRange(content) && Misjudged(paint, flags, content)
    ensures Source(Simple(paint), paint, flags, content).a < 1.0
  {
    hide EffectiveColor, Source;
    OpaqueAlpha(Simple(paint), paint, flags, content);
    var alpha, own := Alpha(paint), ColorAlpha(paint) as real / 255.0;
    LessThanOne(alpha, content.a);
    LessThanOne(content.a, own);
  }

  lemma LessThanOne(x: real, y: real)
    requires InUnit(x) && InUnit(y)
    ensures x != 1.0 || y != 1.0 ==> x * y < 1.0
    ensures x * y <= x && x * y <= y
  {
    var u, v := 1.0 - x, 1.0 - y;
    NonNegativeProduct(x, v);
    NonNegativeProduct(y, u);
    assert x * y + x * v == x && x * y + y * u == y;
  }

  lemma NonNegativeProduct(x: real, y: real)
    requires x >= 0.0 && y >= 0.0
    ensures x * y >= 0.0
  {
  }

  lemma ScaledInRange(p: Pixel, k: real)
    requires InRange(p) && InUnit(k)
    ensures InRange(Scaled(p, k))
  {
    UnitProduct(p.a, k);
    UnitProduct(p.r, k);
    UnitProduct(p.g, k);
    UnitProduct(p.b, k);
  }

  lemma UnitProduct(x: real, k: real)
    requires InUnit(x) && InUnit(k)
    ensures InUnit(x * k)
  {
    LessThanOne(x, k);
    NonNegativeProduct(x, k);
  }

  lemma PremultipliedInRange(c: Color)
    ensures InRange(Premultiplied(c))
  {
    var a := c.a as real / 255.0;
    UnitProduct(c.r as real / 255.0, a);
    UnitProduct(c.g as real / 255.0, a);
    UnitProduct(c.b as real / 255.0, a);
  }

  lemma WhiteAtMostOne(env: Renderer, paint: Paint, flags: OpFlags, content: Pixel)
    requires EffectiveColor(paint, flags) == WHITE && Unfiltered(paint, flags) && InRange(content)
    ensures AtMostOne(Source(env, paint, flags, content))
  {
    hide EffectiveColor, Source;
    WhiteSource(env, paint, flags, content);
  }

  /** One paint of each kind the recorder drops and should not, and the pixel it changes. */
  const DECAL_IMAGE := DEFAULT_PAINT.(blend := DstIn, source := Some(Shader(0, ImageShader(true, Decal, Decal))))
  const CONICAL_GRADIENT := DEFAULT_PAINT.(blend := DstIn, source := Some(Shader(0, GradientShader(true, Clamp, false))))
  const FADED_IMAGE :=
    DEFAULT_PAINT.(blend := DstIn, source := Some(Shader(0, ImageShader(true, Clamp, Clamp))), color := Argb(128, 0, 0, 0))
  const INVERTED_WHITE := DEFAULT_PAINT.(blend := Modulate, color := WHITE, invertColors := true)

  lemma ClearShader(env: Renderer, paint: Paint)
    requires paint.source.Some? && paint.source.value.Shader? && env.shade(paint.source.value.id) == CLEAR
    requires paint.colorFilter.None? && !paint.invertColors
    ensures Source(env, paint, DRAW_PAINT, CLEAR) == CLEAR
  {
    assert Scaled(CLEAR, Alpha(paint)) == CLEAR by { hide Alpha; }
    hide Scaled, Alpha;
  }

  /** Outside an opaque image tiled as a decal, whichever way, the surface is erased. */
  lemma DecalErases(horizontal: TileMode, vertical: TileMode) returns (env: Renderer)
    requires horizontal == Decal || vertical == Decal
    ensures var paint := DECAL_IMAGE.(source := Some(Shader(0, ImageShader(true, horizontal, vertical))));
            && Lawful(env) && Describes(env, paint) && PaintResult(false, paint, DRAW_PAINT) == NoEffect
            && Composed(env, paint, DRAW_PAINT, CLEAR, SOLID_WHITE) == CLEAR
  {
    hide Source, Blended, Lawful, Describes;
    var paint := DECAL_IMAGE.(source := Some(Shader(0, ImageShader(true, horizontal, vertical))));
    env := Simple(paint);
    SimpleDescribes(paint);
    ClearShader(env, paint);
    ClearErases(env, DstIn);
  }

  /** Where an image reaches everywhere and is opaque, nothing is lost. */
  lemma TiledImageKeeps(env: Renderer, horizontal: TileMode, vertical: TileMode, d: Pixel)
    requires horizontal != Decal && vertical != Decal && Lawful(env) && InRange(d)
    requires Describes(env, DECAL_IMAGE.(source := Some(Shader(0, ImageShader(true, horizontal, vertical)))))
    ensures Composed(env, DECAL_IMAGE.(source := Some(Shader(0, ImageShader(true, horizontal, vertical)))), DRAW_PAINT,
                     CLEAR, d) == d
  {
    NoEffectSound(env, DECAL_IMAGE.(source := Some(Shader(0, ImageShader(true, horizontal, vertical)))), DRAW_PAINT,
                  CLEAR, d);
    hide Composed;
  }

  /** Outside the cone of an opaque conical gradient, too. */
  lemma ConicalErases() returns (env: Renderer)
    ensures Lawful(env) && Describes(env, CONICAL_GRADIENT) && PaintResult(false, CONICAL_GRADIENT, DRAW_PAINT) == NoEffect
    ensures Composed(env, CONICAL_GRADIENT, DRAW_PAINT, CLEAR, SOLID_WHITE) == CLEAR
  {
    hide Source, Blended, Lawful, Describes;
    env := Simple(CONICAL_GRADIENT);
    SimpleDescribes(CONICAL_GRADIENT);
    ClearShader(env, CONICAL_GRADIENT);
    ClearErases(env, DstIn);
  }

  /** An opaque image drawn with a translucent paint fades the surface. */
  lemma FadedFades() returns (env: Renderer)
    ensures Lawful(env) && Describes(env, FADED_IMAGE) && PaintResult(false, FADED_IMAGE, DRAW_PAINT) == NoEffect
    ensures Composed(env, FADED_IMAGE, DRAW_PAINT, CLEAR, SOLID_WHITE).a < 1.0
  {
    env := Simple(FADED_IMAGE);
    SimpleDescribes(FADED_IMAGE);
    hide Source, Blended;
    FadedSource(FADED_IMAGE, DRAW_PAINT, CLEAR);
    OverWhite(env, Source(env, FADED_IMAGE, DRAW_PAINT, CLEAR));
  }

  /** White inverted is black, and blackens the surface. */
  lemma InvertedBlackens(env: Renderer)
    ensures PaintResult(false, INVERTED_WHITE, DRAW_PAINT) == NoEffect
    ensures Composed(env, INVERTED_WHITE, DRAW_PAINT, CLEAR, SOLID_WHITE).r == 0.0
  {
    WhiteSource(env, INVERTED_WHITE, DRAW_PAINT, CLEAR);
    OverWhite(env, Source(env, INVERTED_WHITE, DRAW_PAINT, CLEAR));
    hide Source, Blended;
  }

  /** A red glyph with colours of its own, drawn with white under Modulate, reddens the surface. */
  lemma GlyphReddens(env: Renderer)
    ensures var red, paint := Pixel(1.0, 1.0, 0.0, 0.0), DEFAULT_PAINT.(blend := Modulate, color := WHITE);
            && PaintResult(false, paint, DRAW_COLOR_GLYPHS) == NoEffect
            && Composed(env, paint, DRAW_COLOR_GLYPHS, red, SOLID_WHITE) != SOLID_WHITE
  {
    var red, paint := Pixel(1.0, 1.0, 0.0, 0.0), DEFAULT_PAINT.(blend := Modulate, color := WHITE);
    WhiteSource(env, paint, DRAW_COLOR_GLYPHS, red);
    OverWhite(env, red);
    hide Source, Blended;
  }

  /** Beside a glyph, where nothing of it covers the pixel, an opaque text under DstIn erases the surface. */
  lemma GlyphErases(env: Renderer)
    ensures var paint := DEFAULT_PAINT.(blend := DstIn);
            && PaintResult(false, paint, DRAW_TEXT) == NoEffect
            && Composed(env, paint, DRAW_TEXT, CLEAR, SOLID_WHITE).a == 0.0
  {
    var paint := DEFAULT_PAINT.(blend := DstIn);
    OpaqueAlpha(env, paint, DRAW_TEXT, CLEAR);
    OverWhite(env, Source(env, paint, DRAW_TEXT, CLEAR));
    hide Source, Blended;
  }

  ghost predicate ChangesNoPixel(paint: Paint, flags: OpFlags, content: Pixel) {
    forall env, d :: Lawful(env) && Describes(env, paint) && InRange(d) ==>
      Composed(env, paint, flags, content, d) == d
  }

  /** The recorder's decision is right exactly when the operation is not one of the misjudged. */
  lemma NoEffectExact(paint: Paint, flags: OpFlags, content: Pixel)
    requires PaintResult(false, paint, flags) == NoEffect && Unfiltered(paint, flags) && InRange(content)
    ensures ChangesNoPixel(paint, flags, content) <==> !Misjudged(paint, flags, content)
  {
    hide Composed;
    if Misjudged(paint, flags, content) {
      var env, d := MisjudgedChanges(paint, flags, content);
    } else {
      forall env, d | Lawful(env) && Describes(env, paint) && InRange(d)
        ensures Composed(env, paint, flags, content, d) == d
      {
        NoEffectSound(env, paint, flags, content, d);
      }
    }
  }

  lemma ClearContent(env: Renderer, paint: Paint)
    requires Describes(env, paint) && (paint.colorFilter.Some? ==> !paint.colorFilter.value.modifiesTransparentBlack)
    ensures Source(env, paint, SAVE_LAYER_WITH_PAINT, CLEAR) == CLEAR
  {
    assert Scaled(CLEAR, Alpha(paint)) == CLEAR by { hide Alpha; }
    hide Scaled, Alpha;
  }

  lemma ClearErases(env: Renderer, mode: BlendMode)
    requires mode in {Clear, Src, SrcIn, DstIn, SrcOut, DstATop, Modulate}
    ensures Blended(env, mode, CLEAR, SOLID_WHITE) == CLEAR
  {
  }

  /** Where a layer is clear, a paint that nops on transparency changes nothing. */
  lemma ClearLayerNops(env: Renderer, paint: Paint, d: Pixel)
    requires Lawful(env) && Describes(env, paint) && InRange(d) && NopsOnTransparency(paint)
    ensures Composed(env, paint, SAVE_LAYER_WITH_PAINT, CLEAR, d) == d
  {
    hide Blended, Source, Describes, Lawful;
    ClearContent(env, paint);
    ClearSource(env, paint.blend, d);
  }

  /** Without filters it is exactly those paints: any other clears a white surface. */
  lemma ClearLayerNopsExactly(env: Renderer, paint: Paint)
    requires Lawful(env) && Describes(env, paint) && paint.colorFilter.None? && paint.imageFilter.None?
    ensures NopsOnTransparency(paint) <==>
            forall d :: InRange(d) ==> Composed(env, paint, SAVE_LAYER_WITH_PAINT, CLEAR, d) == d
  {
    hide Blended, Source, Describes, Lawful;
    if NopsOnTransparency(paint) {
      forall d | InRange(d) ensures Composed(env, paint, SAVE_LAYER_WITH_PAINT, CLEAR, d) == d {
        ClearLayerNops(env, paint, d);
      }
    } else {
      ClearContent(env, paint);
      ClearErases(env, paint.blend);
      assert InRange(SOLID_WHITE) && Composed(env, paint, SAVE_LAYER_WITH_PAINT, CLEAR, SOLID_WHITE) != SOLID_WHITE;
    }
  }

  // ----- trees of operations and layers -----

  datatype Node =
    | Shape(paint: Paint, flags: OpFlags, content: Pixel)
    | Layer(withPaint: bool, paint: Paint, children: seq<Node>)

  function FlagsOf(node: Node): OpFlags {
    match node
    case Shape(_, flags, _) => flags
    case Layer(withPaint, _, _) => if withPaint then SAVE_LAYER_WITH_PAINT else IGNORES_PAINT
  }

  /** The pixel after drawing some nodes over `d`, in order; a layer starts clear. */
  function Render(env: Renderer, nodes: seq<Node>, d: Pixel): (r: Pixel)
    ensures InRange(d) ==> InRange(r)
    decreases nodes
  {
    if nodes == [] then d else
    var node := nodes[0];
    var content := if node.Layer? then Render(env, node.children, CLEAR) else node.content;
    Render(env, nodes[1..], Composed(env, node.paint, FlagsOf(node), content, d))
  }

  /** What the recorder keeps: nodes judged to have no effect go, with everything inside them. */
  function Recorded(nodes: seq<Node>): seq<Node>
    decreases nodes
  {
    if nodes == [] then [] else
    var node := nodes[0];
    if PaintResult(false, node.paint, FlagsOf(node)) == NoEffect then Recorded(nodes[1..])
    else
      var kept := if node.Layer? then node.(children := Recorded(node.children)) else node;
      [kept] + Recorded(nodes[1..])
  }

  /** A shape's own content; that of a layer has no part in judging it. */
  function NodeContent(node: Node): Pixel {
    match node
    case Shape(_, _, content) => content
    case Layer(_, _, _) => CLEAR
  }

  /** Every dropped node is one the recorder judges rightly. */
  ghost predicate RightlyJudged(env: Renderer, nodes: seq<Node>)
    decreases nodes
  {
    nodes == [] ||
    var node := nodes[0];
    && RightlyJudged(env, nodes[1..])
    && if PaintResult(false, node.paint, FlagsOf(node)) == NoEffect
       then && !Misjudged(node.paint, FlagsOf(node), NodeContent(node))
            && Unfiltered(node.paint, FlagsOf(node)) && Describes(env, node.paint)
       else node.Layer? ==> RightlyJudged(env, node.children)
  }

  lemma NodeJudged(node: Node, content: Pixel)
    requires node.Shape? ==> content == node.content
    ensures Misjudged(node.paint, FlagsOf(node), content) == Misjudged(node.paint, FlagsOf(node), NodeContent(node))
  {
  }

  /** Dropping them changes no pixel, whatever was there before. */
  lemma {:induction false} RecordedRendersAlike(env: Renderer, nodes: seq<Node>, d: Pixel)
    requires Lawful(env) && InRange(d) && RightlyJudged(env, nodes)
    ensures Render(env, Recorded(nodes), d) == Render(env, nodes, d)
    decreases nodes
  {
    hide Composed;
    hide PaintResult;
    hide Misjudged;
    hide Describes;
    if nodes != [] {
      var node, rest := nodes[0], nodes[1..];
      var content := if node.Layer? then Render(env, node.children, CLEAR) else node.content;
      var after := Composed(env, node.paint, FlagsOf(node), content, d);
      RecordedRendersAlike(env, rest, after);
      if PaintResult(false, node.paint, FlagsOf(node)) == NoEffect {
        NodeJudged(node, content);
        NoEffectSound(env, node.paint, FlagsOf(node), content, d);
      } else {
        if node.Layer? {
          RecordedRendersAlike(env, node.children, CLEAR);
        }
        var kept := if node.Layer? then node.(children := Recorded(node.children)) else node;
        assert ([kept] + Recorded(rest))[1..] == Recorded(rest);
      }
    }
  }

  // ----- group opacity -----

  /** Fading a lone SrcOver source equals compositing it through a faded layer. */
  lemma OpacityDistributes(env: Renderer, s: Pixel, opacity: real, d: Pixel)
    requires InRange(s)
    ensures Blended(env, SrcOver, Scaled(Blended(env, SrcOver, s, CLEAR), opacity), d)
            == Blended(env, SrcOver, Scaled(s, opacity), d)
  {
  }

  /** With two overlapping sources it does not: two whites at half opacity over clear. */
  lemma TwoSourcesDoNotDistribute(env: Renderer)
    ensures var half := Scaled(SOLID_WHITE, 0.5);
            var group := Blended(env, SrcOver, SOLID_WHITE, Blended(env, SrcOver, SOLID_WHITE, CLEAR));
            Blended(env, SrcOver, Scaled(group, 0.5), CLEAR)
            != Blended(env, SrcOver, half, Blended(env, SrcOver, half, CLEAR))
  {
    hide Blended;
    var half := Scaled(SOLID_WHITE, 0.5);
    assert half == Pixel(0.5, 0.5, 0.5, 0.5);
    SrcOverAlphas(env, SOLID_WHITE, CLEAR);
    SrcOverAlphas(env, SOLID_WHITE, Blended(env, SrcOver, SOLID_WHITE, CLEAR));
    SrcOverAlphas(env, Scaled(Blended(env, SrcOver, SOLID_WHITE, Blended(env, SrcOver, SOLID_WHITE, CLEAR)), 0.5), CLEAR);
    SrcOverAlphas(env, half, CLEAR);
    SrcOverAlphas(env, half, Blended(env, SrcOver, half, CLEAR));
  }

  lemma SrcOverAlphas(env: Renderer, s: Pixel, d: Pixel)
    ensures Blended(env, SrcOver, s, d).a == ClampUnit(s.a + (1.0 - s.a) * d.a)
  {
    assert Component(SrcOver, s.a, d.a, s.a, d.a) == s.a + (1.0 - s.a) * d.a;
    hide Component, ClampUnit;
  }
}
