/**
 The values the recorder and the player of a display list share: paints and the
 attribute records that change them, transforms over the reals, clips, and the
 records of the stream itself.

 A stream is a sequence of records addressed by index.  A save record holds the
 index of its matching restore record; the recorder fills it in when the restore
 is recorded.
 */
module Records {

  datatype Option<+T> = None | Some(value: T)

  // ----- paints -----

  type Byte = x: int | 0 <= x < 256

  datatype BlendMode =
    | Clear | Src | Dst | SrcOver | DstOver | SrcIn | DstIn | SrcOut | DstOut
    | SrcATop | DstATop | Xor | Plus | Modulate | Screen
    | Overlay | Darken | Lighten | ColorDodge | ColorBurn | HardLight | SoftLight
    | Difference | Exclusion | Multiply
    | Hue | Saturation | HueAndSaturation | Luminosity

  datatype Color = Argb(a: Byte, r: Byte, g: Byte, b: Byte) {
    predicate IsOpaque() { a == 255 }
    predicate IsTransparent() { a == 0 }
  }

  const BLACK := Argb(255, 0, 0, 0)
  const WHITE := Argb(255, 255, 255, 255)
  const TRANSPARENT := Argb(0, 0, 0, 0)
  // Neither opaque nor transparent: triggers none of the short cuts below.
  const ANY_COLOR := Argb(128, 128, 128, 128)

  datatype TileMode = Clamp | Repeat | Mirror | Decal

  /**
   What is known of a shader.  A gradient `fills` the plane unless it is conical and
   its circles are not nested: outside its cone it is clear.
   */
  datatype ShaderKind =
    | ImageShader(imageIsOpaque: bool, horizontal: TileMode, vertical: TileMode)
    | GradientShader(colorsAreOpaque: bool, mode: TileMode, fills: bool)
    | EffectShader
  {
    /** What the shader says of itself. */
    predicate IsOpaque() {
      match this
      case ImageShader(imageIsOpaque, _, _) => imageIsOpaque
      case GradientShader(colorsAreOpaque, mode, _) => mode != Decal && colorsAreOpaque
      case EffectShader => false
    }

    /** Whether its colours reach every pixel; past the edge of a decal it is clear. */
    predicate CoversPlane() {
      match this
      case ImageShader(_, horizontal, vertical) => horizontal != Decal && vertical != Decal
      case GradientShader(_, mode, fills) => mode != Decal && fills
      case EffectShader => false
    }
  }

  datatype ColorSource = PlainColor(color: Color) | Shader(id: nat, kind: ShaderKind)

  datatype Filter = Filter(id: nat, modifiesTransparentBlack: bool)

  datatype DrawStyle = Fill | Stroke | StrokeAndFill
  datatype StrokeCap = Butt | RoundCap | SquareCap
  datatype StrokeJoin = Miter | RoundJoin | Bevel

  datatype Paint = Paint(
    antiAlias: bool,
    invertColors: bool,
    style: DrawStyle,
    cap: StrokeCap,
    join: StrokeJoin,
    strokeWidth: real,
    strokeMiter: real,
    color: Color,
    blend: BlendMode,
    source: Option<ColorSource>,
    colorFilter: Option<Filter>,
    imageFilter: Option<Filter>,
    pathEffect: Option<nat>,
    maskFilter: Option<nat>)

  const DEFAULT_PAINT :=
    Paint(false, false, Fill, Butt, Miter, 0.0, 4.0, BLACK, SrcOver, None, None, None, None, None)

  datatype Attribute =
    | SetAntiAlias(antiAlias: bool)
    | SetInvertColors(invert: bool)
    | SetStyle(style: DrawStyle)
    | SetStrokeCap(cap: StrokeCap)
    | SetStrokeJoin(join: StrokeJoin)
    | SetStrokeWidth(width: real)
    | SetStrokeMiter(miter: real)
    | SetColor(color: Color)
    | SetBlendMode(mode: BlendMode)
    | SetColorSource(source: Option<ColorSource>)
    | SetColorFilter(colorFilter: Option<Filter>)
    | SetImageFilter(imageFilter: Option<Filter>)
    | SetPathEffect(pathEffect: Option<nat>)
    | SetMaskFilter(maskFilter: Option<nat>)

  /** What an attribute record does to the paint of the receiver. */
  function ApplyAttribute(p: Paint, a: Attribute): Paint {
    match a
    case SetAntiAlias(v) => p.(antiAlias := v)
    case SetInvertColors(v) => p.(invertColors := v)
    case SetStyle(v) => p.(style := v)
    case SetStrokeCap(v) => p.(cap := v)
    case SetStrokeJoin(v) => p.(join := v)
    case SetStrokeWidth(v) => p.(strokeWidth := v)
    case SetStrokeMiter(v) => p.(strokeMiter := v)
    case SetColor(v) => p.(color := v)
    case SetBlendMode(v) => p.(blend := v)
    case SetColorSource(v) => p.(source := v)
    case SetColorFilter(v) => p.(colorFilter := v)
    case SetImageFilter(v) => p.(imageFilter := v)
    case SetPathEffect(v) => p.(pathEffect := v)
    case SetMaskFilter(v) => p.(maskFilter := v)
  }

  /**
   Where the colours of an operation that applies the paint's colour come from: from
   the paint alone; from the operation, as those of colour glyphs do, scaled by the
   paint's alpha; or from the paint, scaled by the operation's own coverage, as those
   of other glyphs do where coverage is part of the source.
   */
  datatype Coloring = FromPaint | OwnColors | Stencil

  /** Which attributes of the paint an operation honours. */
  datatype OpFlags = OpFlags(
    antiAlias: bool,
    alpha: bool,
    color: bool,
    blend: bool,
    shader: bool,
    colorFilter: bool,
    imageFilter: bool,
    pathEffect: bool,
    maskFilter: bool,
    drawnGeometry: bool,
    strokedGeometry: bool,
    // How the operation is coloured where it applies the paint's colour.
    coloring: Coloring)
  {
    predicate IsStroked(style: DrawStyle) {
      strokedGeometry || (style != Fill && drawnGeometry)
    }
  }

  const IGNORES_PAINT :=
    OpFlags(false, false, false, false, false, false, false, false, false, false, false, FromPaint)
  const SAVE_LAYER_WITH_PAINT :=
    OpFlags(false, true, false, true, false, true, true, false, false, false, false, FromPaint)
  const DRAW_PAINT :=
    OpFlags(false, true, true, true, true, true, true, false, false, false, false, FromPaint)

  const DRAW_TEXT :=
    OpFlags(false, true, true, true, true, true, true, true, true, true, false, Stencil)
  const DRAW_COLOR_GLYPHS := DRAW_TEXT.(coloring := OwnColors)

  // ----- transforms and clips -----

  /** A 4x4 matrix in row major order. */
  datatype Matrix = Matrix(
    xx: real, xy: real, xz: real, xt: real,
    yx: real, yy: real, yz: real, yt: real,
    zx: real, zy: real, zz: real, zt: real,
    wx: real, wy: real, wz: real, wt: real)

  const IDENTITY := Matrix(1.0, 0.0, 0.0, 0.0,
                           0.0, 1.0, 0.0, 0.0,
                           0.0, 0.0, 1.0, 0.0,
                           0.0, 0.0, 0.0, 1.0)

  function Affine(xx: real, xy: real, xt: real, yx: real, yy: real, yt: real): Matrix {
    IDENTITY.(xx := xx, xy := xy, xt := xt, yx := yx, yy := yy, yt := yt)
  }

  function Concat(a: Matrix, b: Matrix): Matrix {
    Matrix(
      a.xx * b.xx + a.xy * b.yx + a.xz * b.zx + a.xt * b.wx,
      a.xx * b.xy + a.xy * b.yy + a.xz * b.zy + a.xt * b.wy,
      a.xx * b.xz + a.xy * b.yz + a.xz * b.zz + a.xt * b.wz,
      a.xx * b.xt + a.xy * b.yt + a.xz * b.zt + a.xt * b.wt,
      a.yx * b.xx + a.yy * b.yx + a.yz * b.zx + a.yt * b.wx,
      a.yx * b.xy + a.yy * b.yy + a.yz * b.zy + a.yt * b.wy,
      a.yx * b.xz + a.yy * b.yz + a.yz * b.zz + a.yt * b.wz,
      a.yx * b.xt + a.yy * b.yt + a.yz * b.zt + a.yt * b.wt,
      a.zx * b.xx + a.zy * b.yx + a.zz * b.zx + a.zt * b.wx,
      a.zx * b.xy + a.zy * b.yy + a.zz * b.zy + a.zt * b.wy,
      a.zx * b.xz + a.zy * b.yz + a.zz * b.zz + a.zt * b.wz,
      a.zx * b.xt + a.zy * b.yt + a.zz * b.zt + a.zt * b.wt,
      a.wx * b.xx + a.wy * b.yx + a.wz * b.zx + a.wt * b.wx,
      a.wx * b.xy + a.wy * b.yy + a.wz * b.zy + a.wt * b.wy,
      a.wx * b.xz + a.wy * b.yz + a.wz * b.zz + a.wt * b.wz,
      a.wx * b.xt + a.wy * b.yt + a.wz * b.zt + a.wt * b.wt)
  }

  lemma ConcatIdentity(m: Matrix)
    ensures Concat(m, IDENTITY) == m
  {
  }

  datatype Transform =
    | Translate(tx: real, ty: real)
    | Scale(sx: real, sy: real)
    // A rotation is given by the cosine and the sine of its angle.
    | Rotate(cos: real, sin: real)
    | Skew(kx: real, ky: real)
    | Affine2D(xx: real, xy: real, xt: real, yx: real, yy: real, yt: real)
    | FullPerspective(m: Matrix)
    | Reset

  function Transformed(ctm: Matrix, t: Transform): Matrix {
    match t
    case Translate(tx, ty) => Concat(ctm, Affine(1.0, 0.0, tx, 0.0, 1.0, ty))
    case Scale(sx, sy) => Concat(ctm, Affine(sx, 0.0, 0.0, 0.0, sy, 0.0))
    case Rotate(c, s) => Concat(ctm, Affine(c, -s, 0.0, s, c, 0.0))
    case Skew(kx, ky) => Concat(ctm, Affine(1.0, kx, 0.0, ky, 1.0, 0.0))
    case Affine2D(xx, xy, xt, yx, yy, yt) => Concat(ctm, Affine(xx, xy, xt, yx, yy, yt))
    case FullPerspective(m) => Concat(ctm, m)
    case Reset => IDENTITY
  }

  datatype Clip = Clip(shape: nat, difference: bool, antiAlias: bool)

  /** The transform in force and the clips in force, each with the transform it was given under. */
  datatype Geometry = Geometry(ctm: Matrix, clips: seq<(Clip, Matrix)>)

  const WHOLE_SURFACE := Geometry(IDENTITY, [])

  // ----- records -----

  datatype Record =
    | AttributeRecord(attribute: Attribute)
    | SaveRecord(restoreIndex: nat)
    | SaveLayerRecord(layer: nat, withPaint: bool, restoreIndex: nat, distributesOpacity: bool)
    | RestoreRecord
    | TransformRecord(transform: Transform)
    | ClipRecord(clip: Clip)
    | DrawRecord(drawing: nat)
  {
    predicate IsSave() { SaveRecord? || SaveLayerRecord? }
    predicate IsGeometry() { TransformRecord? || ClipRecord? }
  }

  function ApplyGeometry(g: Geometry, r: Record): Geometry
    requires r.IsGeometry()
  {
    match r
    case TransformRecord(t) => g.(ctm := Transformed(g.ctm, t))
    case ClipRecord(c) => g.(clips := g.clips + [(c, g.ctm)])
  }
}
