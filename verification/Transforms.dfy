/**
 What the transforms do to points: the matrices in force are those that map the
 caller's coordinates to the surface, each call acting before all the earlier ones.
 */
module Transforms {
  import opened Records

  /** A point in homogeneous coordinates. */
  datatype Point = Point(x: real, y: real, z: real, w: real)

  function Row(a: real, b: real, c: real, d: real, p: Point): real { a * p.x + b * p.y + c * p.z + d * p.w }

  function Mapped(m: Matrix, p: Point): Point {
    Point(Row(m.xx, m.xy, m.xz, m.xt, p), Row(m.yx, m.yy, m.yz, m.yt, p),
          Row(m.zx, m.zy, m.zz, m.zt, p), Row(m.wx, m.wy, m.wz, m.wt, p))
  }

  function ColumnX(m: Matrix): Point { Point(m.xx, m.yx, m.zx, m.wx) }
  function ColumnY(m: Matrix): Point { Point(m.xy, m.yy, m.zy, m.wy) }
  function ColumnZ(m: Matrix): Point { Point(m.xz, m.yz, m.zz, m.wz) }
  function ColumnT(m: Matrix): Point { Point(m.xt, m.yt, m.zt, m.wt) }

  lemma RowOfProduct(a: real, b: real, c: real, d: real, m: Matrix, p: Point)
    ensures Row(a, b, c, d, Mapped(m, p)) ==
            Row(Row(a, b, c, d, ColumnX(m)), Row(a, b, c, d, ColumnY(m)), Row(a, b, c, d, ColumnZ(m)),
                Row(a, b, c, d, ColumnT(m)), p)
  {
    hide Row, Mapped;
    var x, y := a * m.xx + b * m.yx + c * m.zx + d * m.wx, a * m.xy + b * m.yy + c * m.zy + d * m.wy;
    var z, t := a * m.xz + b * m.yz + c * m.zz + d * m.wz, a * m.xt + b * m.yt + c * m.zt + d * m.wt;
    MappedRows(m, p);
    RowIs(a, b, c, d, Row(m.xx, m.xy, m.xz, m.xt, p), Row(m.yx, m.yy, m.yz, m.yt, p), Row(m.zx, m.zy, m.zz, m.zt, p),
          Row(m.wx, m.wy, m.wz, m.wt, p));
    ColumnSums(a, b, c, d, m);
    hide ColumnX, ColumnY, ColumnZ, ColumnT;
    RowIs(x, y, z, t, p.x, p.y, p.z, p.w);
    Interchanged(a, b, c, d, m, p);
    assert Point(p.x, p.y, p.z, p.w) == p;
  }

  lemma ColumnSums(a: real, b: real, c: real, d: real, m: Matrix)
    ensures Row(a, b, c, d, ColumnX(m)) == a * m.xx + b * m.yx + c * m.zx + d * m.wx
    ensures Row(a, b, c, d, ColumnY(m)) == a * m.xy + b * m.yy + c * m.zy + d * m.wy
    ensures Row(a, b, c, d, ColumnZ(m)) == a * m.xz + b * m.yz + c * m.zz + d * m.wz
    ensures Row(a, b, c, d, ColumnT(m)) == a * m.xt + b * m.yt + c * m.zt + d * m.wt
  {
  }

  lemma RowIs(a: real, b: real, c: real, d: real, x: real, y: real, z: real, w: real)
    ensures Row(a, b, c, d, Point(x, y, z, w)) == a * x + b * y + c * z + d * w
  {
  }

  lemma Interchanged(a: real, b: real, c: real, d: real, m: Matrix, p: Point)
    ensures a * Row(m.xx, m.xy, m.xz, m.xt, p) + b * Row(m.yx, m.yy, m.yz, m.yt, p) +
            c * Row(m.zx, m.zy, m.zz, m.zt, p) + d * Row(m.wx, m.wy, m.wz, m.wt, p) ==
            (a * m.xx + b * m.yx + c * m.zx + d * m.wx) * p.x + (a * m.xy + b * m.yy + c * m.zy + d * m.wy) * p.y +
            (a * m.xz + b * m.yz + c * m.zz + d * m.wz) * p.z + (a * m.xt + b * m.yt + c * m.zt + d * m.wt) * p.w
  {
    hide Row;
    Spread(a, m.xx, m.xy, m.xz, m.xt, p);
    Spread(b, m.yx, m.yy, m.yz, m.yt, p);
    Spread(c, m.zx, m.zy, m.zz, m.zt, p);
    Spread(d, m.wx, m.wy, m.wz, m.wt, p);
    Gathered(a * m.xx, b * m.yx, c * m.zx, d * m.wx, p.x);
    Gathered(a * m.xy, b * m.yy, c * m.zy, d * m.wy, p.y);
    Gathered(a * m.xz, b * m.yz, c * m.zz, d * m.wz, p.z);
    Gathered(a * m.xt, b * m.yt, c * m.zt, d * m.wt, p.w);
  }

  /** Each cell of a product is a row of the left matrix with a column of the right one. */
  lemma ConcatRow(a: Matrix, b: Matrix, p: Point)
    ensures Mapped(Concat(a, b), p) ==
            Point(ProductRow(a.xx, a.xy, a.xz, a.xt, b, p), ProductRow(a.yx, a.yy, a.yz, a.yt, b, p),
                  ProductRow(a.zx, a.zy, a.zz, a.zt, b, p), ProductRow(a.wx, a.wy, a.wz, a.wt, b, p))
  {
  }

  function ProductRow(a: real, b: real, c: real, d: real, m: Matrix, p: Point): real {
    Row(Row(a, b, c, d, ColumnX(m)), Row(a, b, c, d, ColumnY(m)), Row(a, b, c, d, ColumnZ(m)),
        Row(a, b, c, d, ColumnT(m)), p)
  }

  lemma Spread(k: real, a: real, b: real, c: real, d: real, p: Point)
    ensures k * Row(a, b, c, d, p) == k * a * p.x + k * b * p.y + k * c * p.z + k * d * p.w
  {
  }

  lemma Gathered(a: real, b: real, c: real, d: real, x: real)
    ensures (a + b + c + d) * x == a * x + b * x + c * x + d * x
  {
  }

  /** Concatenating maps first by the new matrix and then by the one in force. */
  lemma ConcatMaps(a: Matrix, b: Matrix, p: Point)
    ensures Mapped(Concat(a, b), p) == Mapped(a, Mapped(b, p))
  {
    RowOfProduct(a.xx, a.xy, a.xz, a.xt, b, p);
    RowOfProduct(a.yx, a.yy, a.yz, a.yt, b, p);
    RowOfProduct(a.zx, a.zy, a.zz, a.zt, b, p);
    RowOfProduct(a.wx, a.wy, a.wz, a.wt, b, p);
    ConcatRow(a, b, p);
    MappedRows(a, Mapped(b, p));
    hide Mapped, Row, Concat;
  }

  lemma MappedRows(m: Matrix, p: Point)
    ensures Mapped(m, p) == Point(Row(m.xx, m.xy, m.xz, m.xt, p), Row(m.yx, m.yy, m.yz, m.yt, p),
                                  Row(m.zx, m.zy, m.zz, m.zt, p), Row(m.wx, m.wy, m.wz, m.wt, p))
  {
  }

  function Flat(x: real, y: real): Point { Point(x, y, 0.0, 1.0) }

  function Times(a: real, b: real): real { a * b }

  /** Where one transform takes a point of the caller's; a perspective is left to its matrix. */
  function Moved(t: Transform, x: real, y: real): Point {
    match t
    case Translate(tx, ty) => Flat(x + tx, y + ty)
    case Scale(sx, sy) => Flat(Times(sx, x), Times(sy, y))
    case Rotate(c, s) => Flat(Times(c, x) - Times(s, y), Times(s, x) + Times(c, y))
    case Skew(kx, ky) => Flat(x + Times(kx, y), Times(ky, x) + y)
    case Affine2D(xx, xy, xt, yx, yy, yt) =>
      Flat(Times(xx, x) + Times(xy, y) + xt, Times(yx, x) + Times(yy, y) + yt)
    case FullPerspective(m) => Mapped(m, Flat(x, y))
    case Reset => Flat(x, y)
  }

  /** The new transform acts first, then those in force; a reset forgets them. */
  lemma TransformedMaps(ctm: Matrix, t: Transform, x: real, y: real)
    ensures Mapped(Transformed(ctm, t), Flat(x, y)) ==
            if t.Reset? then Flat(x, y) else Mapped(ctm, Moved(t, x, y))
  {
    hide Mapped, Concat, Affine;
    match t
    case Translate(tx, ty) => TranslateMaps(ctm, tx, ty, x, y);
    case Scale(sx, sy) => ScaleMaps(ctm, sx, sy, x, y);
    case Rotate(c, s) => RotateMaps(ctm, c, s, x, y);
    case Skew(kx, ky) => SkewMaps(ctm, kx, ky, x, y);
    case Affine2D(xx, xy, xt, yx, yy, yt) => Affine2DMaps(ctm, xx, xy, xt, yx, yy, yt, x, y);
    case FullPerspective(m) => ConcatMaps(ctm, m, Flat(x, y));
    case Reset => IdentityMaps(Flat(x, y));
  }

  lemma TranslateMaps(ctm: Matrix, tx: real, ty: real, x: real, y: real)
    ensures Mapped(Transformed(ctm, Translate(tx, ty)), Flat(x, y)) == Mapped(ctm, Moved(Translate(tx, ty), x, y))
  {
    hide Mapped, Concat, Affine;
    AffineMaps(ctm, 1.0, 0.0, tx, 0.0, 1.0, ty, x, y, x + tx, y + ty);
  }

  lemma ScaleMaps(ctm: Matrix, sx: real, sy: real, x: real, y: real)
    ensures Mapped(Transformed(ctm, Scale(sx, sy)), Flat(x, y)) == Mapped(ctm, Moved(Scale(sx, sy), x, y))
  {
    hide Mapped, Concat, Affine;
    AffineMaps(ctm, sx, 0.0, 0.0, 0.0, sy, 0.0, x, y, Times(sx, x), Times(sy, y));
  }

  lemma RotateMaps(ctm: Matrix, c: real, s: real, x: real, y: real)
    ensures Mapped(Transformed(ctm, Rotate(c, s)), Flat(x, y)) == Mapped(ctm, Moved(Rotate(c, s), x, y))
  {
    hide Mapped, Concat, Affine;
    AffineMaps(ctm, c, -s, 0.0, s, c, 0.0, x, y, Times(c, x) - Times(s, y), Times(s, x) + Times(c, y));
  }

  lemma SkewMaps(ctm: Matrix, kx: real, ky: real, x: real, y: real)
    ensures Mapped(Transformed(ctm, Skew(kx, ky)), Flat(x, y)) == Mapped(ctm, Moved(Skew(kx, ky), x, y))
  {
    hide Mapped, Concat, Affine;
    AffineMaps(ctm, 1.0, kx, 0.0, ky, 1.0, 0.0, x, y, x + Times(kx, y), Times(ky, x) + y);
  }

  lemma Affine2DMaps(ctm: Matrix, xx: real, xy: real, xt: real, yx: real, yy: real, yt: real, x: real, y: real)
    ensures Mapped(Transformed(ctm, Affine2D(xx, xy, xt, yx, yy, yt)), Flat(x, y)) ==
            Mapped(ctm, Moved(Affine2D(xx, xy, xt, yx, yy, yt), x, y))
  {
    hide Mapped, Concat, Affine;
    AffineMaps(ctm, xx, xy, xt, yx, yy, yt, x, y, Times(xx, x) + Times(xy, y) + xt,
               Times(yx, x) + Times(yy, y) + yt);
  }

  lemma IdentityMaps(p: Point)
    ensures Mapped(IDENTITY, p) == p
  {
  }

  lemma AffineMaps(ctm: Matrix, xx: real, xy: real, xt: real, yx: real, yy: real, yt: real, x: real, y: real,
                   u: real, v: real)
    requires u == xx * x + xy * y + xt && v == yx * x + yy * y + yt
    ensures Mapped(Concat(ctm, Affine(xx, xy, xt, yx, yy, yt)), Flat(x, y)) == Mapped(ctm, Flat(u, v))
  {
    FlatMaps(xx, xy, xt, yx, yy, yt, x, y);
    ConcatMaps(ctm, Affine(xx, xy, xt, yx, yy, yt), Flat(x, y));
    hide Concat, Mapped, Affine;
  }

  lemma FlatMaps(xx: real, xy: real, xt: real, yx: real, yy: real, yt: real, x: real, y: real)
    ensures Mapped(Affine(xx, xy, xt, yx, yy, yt), Flat(x, y)) == Flat(xx * x + xy * y + xt, yx * x + yy * y + yt)
  {
  }

  /** Turning by an angle and back, for a cosine and a sine, is no transform. */
  lemma RotatedBack(ctm: Matrix, c: real, s: real, x: real, y: real)
    requires c * c + s * s == 1.0
    ensures Mapped(Transformed(Transformed(ctm, Rotate(c, s)), Rotate(c, -s)), Flat(x, y)) == Mapped(ctm, Flat(x, y))
  {
    hide Mapped, Transformed;
    TransformedMaps(Transformed(ctm, Rotate(c, s)), Rotate(c, -s), x, y);
    var u, v := TurnedBack(c, s, x, y);
    TransformedMaps(ctm, Rotate(c, s), u, v);
  }

  lemma TurnedBack(c: real, s: real, x: real, y: real) returns (u: real, v: real)
    requires c * c + s * s == 1.0
    ensures Moved(Rotate(c, -s), x, y) == Flat(u, v) && Moved(Rotate(c, s), u, v) == Flat(x, y)
  {
    u, v := c * x - -s * y, -s * x + c * y;
    assert c * u - s * v == (c * c + s * s) * x;
    assert s * u + c * v == (c * c + s * s) * y;
  }
}
