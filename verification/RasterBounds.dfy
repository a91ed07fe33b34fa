/**
 Where a cached image lands (flow/raster_cache_key.h, flow/raster_cache_util.h,
 flow/raster_cache_util.cc), in exact arithmetic.
 */
module RasterBounds {
  import opened Rects

  /** A three by three matrix, row by row. */
  datatype M33 = M33(
    scaleX: real, skewX: real, transX: real,
    skewY: real, scaleY: real, transY: real,
    persp0: real, persp1: real, persp2: real)

  predicate IsAffine(m: M33) { m.persp0 == 0.0 && m.persp1 == 0.0 && m.persp2 == 1.0 }

  predicate IsScaleTranslate(m: M33) { IsAffine(m) && m.skewX == 0.0 && m.skewY == 0.0 }

  // ----- keys -----

  datatype KeyType = Layer | DisplayList | LayerChildren

  datatype KeyId = KeyId(unique: nat, kind: KeyType, children: seq<KeyId>)

  datatype Key = Key(id: KeyId, matrix: M33)

  function MakeKey(id: KeyId, m: M33): Key { Key(id, m.(transX := 0.0, transY := 0.0)) }

  /** Hashes combine a node with the hashes of its children. */
  function Hash(id: KeyId, combine: (nat, KeyType, seq<nat>) -> nat): nat {
    combine(id.unique, id.kind, seq(|id.children|, i requires 0 <= i < |id.children| => Hash(id.children[i], combine)))
  }

  predicate IdEquals(a: KeyId, b: KeyId, combine: (nat, KeyType, seq<nat>) -> nat) {
    && a.unique == b.unique && a.kind == b.kind
    && Hash(a, combine) == Hash(b, combine)
    && |a.children| == |b.children|
    && forall i :: 0 <= i < |a.children| ==> IdEquals(a.children[i], b.children[i], combine)
  }

  /** Whatever the hash, comparing hashes on the way changes nothing: equality is structural. */
  lemma {:induction false} IdEqualsIsEquality(a: KeyId, b: KeyId, combine: (nat, KeyType, seq<nat>) -> nat)
    ensures IdEquals(a, b, combine) <==> a == b
    decreases a
  {
    if IdEquals(a, b, combine) {
      forall i | 0 <= i < |a.children| ensures a.children[i] == b.children[i] {
        IdEqualsIsEquality(a.children[i], b.children[i], combine);
      }
      assert a.children == b.children;
    } else if a == b {
      forall i | 0 <= i < |a.children| ensures IdEquals(a.children[i], b.children[i], combine) {
        IdEqualsIsEquality(a.children[i], b.children[i], combine);
      }
    }
  }

  // ----- snapping -----

  function RoundScalar(x: real): int { (x + 0.5).Floor }

  /** The snapped matrix when snapping applies and changes something. */
  function ComputeIntegralTrans(m: M33): (r: (bool, M33)) {
    var tx, ty := RoundScalar(m.transX) as real, RoundScalar(m.transY) as real;
    if !IsScaleTranslate(m) then (false, m)
    else if tx != m.transX || ty != m.transY then (true, m.(transX := tx, transY := ty))
    else (false, m)
  }

  function Integral(m: M33): M33 {
    if ComputeIntegralTrans(m).0 then ComputeIntegralTrans(m).1 else m
  }

  predicate IsInteger(x: real) { x.Floor as real == x }

  /** Snapping moves each translation by at most half a pixel, to a whole one, and touches nothing else. */
  lemma SnappedTranslation(m: M33)
    ensures MakeKey(KeyId(0, Layer, []), Integral(m)) == MakeKey(KeyId(0, Layer, []), m)
    ensures IsScaleTranslate(m) ==> IsInteger(Integral(m).transX) && IsInteger(Integral(m).transY)
    ensures -0.5 <= Integral(m).transX - m.transX <= 0.5 && -0.5 <= Integral(m).transY - m.transY <= 0.5
    ensures Integral(Integral(m)) == Integral(m)
  {
    RoundsToItself(m.transX);
    RoundsToItself(m.transY);
    WholeIsInteger(RoundScalar(m.transX));
    WholeIsInteger(RoundScalar(m.transY));
    hide RoundScalar, IsInteger;
  }

  // ----- the four by four form -----

  /** The entries of a four by four matrix, by row and column. */
  datatype M44 = M44(
    m00: real, m01: real, m02: real, m03: real,
    m10: real, m11: real, m12: real, m13: real,
    m20: real, m21: real, m22: real, m23: real,
    m30: real, m31: real, m32: real, m33: real)

  function ComputeIntegralTrans44(m: M44): (bool, M44) {
    if m.m01 != 0.0 || m.m02 != 0.0 then (false, m)
    else if m.m10 != 0.0 || m.m12 != 0.0 then (false, m)
    else if m.m30 != 0.0 || m.m31 != 0.0 || m.m32 != 0.0 || m.m33 != 1.0 then (false, m)
    else
      var tx, ty := RoundScalar(m.m03) as real, RoundScalar(m.m13) as real;
      if tx != m.m03 || ty != m.m13 then (true, m.(m03 := tx, m13 := ty)) else (false, m)
  }

  /** Dropping depth. */
  function Flat(m: M44): M33 { M33(m.m00, m.m01, m.m03, m.m10, m.m11, m.m13, m.m30, m.m31, m.m33) }

  /**
   The two forms snap alike, except for a matrix that feeds depth into x, y or w
   and is otherwise a scale and a translation with a fraction: the flat form
   snaps that one, the full form does not.
   */
  lemma SnapsAgree(m: M44)
    ensures (ComputeIntegralTrans44(m).0 == ComputeIntegralTrans(Flat(m)).0
             && Flat(ComputeIntegralTrans44(m).1) == ComputeIntegralTrans(Flat(m)).1)
            <==>
            (m.m02 == m.m12 == m.m32 == 0.0 || !IsScaleTranslate(Flat(m))
             || (IsInteger(m.m03) && IsInteger(m.m13)))
  {
    RoundsToItself(m.m03);
    RoundsToItself(m.m13);
    hide RoundScalar, IsInteger;
  }

  /** Half a pixel across, with depth fed into x: the flat form snaps, the full form does not. */
  lemma SnapsDifferExample()
    ensures var m := M44(1.0, 0.0, 1.0, 0.5,
                         0.0, 1.0, 0.0, 0.0,
                         0.0, 0.0, 1.0, 0.0,
                         0.0, 0.0, 0.0, 1.0);
            !ComputeIntegralTrans44(m).0 && ComputeIntegralTrans(Flat(m)).0 && ComputeIntegralTrans(Flat(m)).1.transX == 1.0
  {
    FloorUnique(1.0, 1);
    FloorUnique(0.5, 0);
    RoundsToItself(0.5);
  }

  lemma FloorUnique(x: real, n: int)
    requires n as real <= x < n as real + 1.0
    ensures x.Floor == n
  {
    var d := x.Floor - n;
    assert d as real == x.Floor as real - n as real;
  }

  lemma WholeIsInteger(n: int)
    ensures IsInteger(n as real) && RoundScalar(n as real) == n
  {
    FloorUnique(n as real, n);
    FloorUnique(n as real + 0.5, n);
  }

  lemma RoundsToItself(x: real)
    ensures RoundScalar(x) as real == x <==> IsInteger(x)
    ensures -0.5 <= RoundScalar(x) as real - x <= 0.5
  {
    WholeIsInteger(RoundScalar(x));
    WholeIsInteger(x.Floor);
  }

  // ----- bounds -----

  function Least(a: real, b: real, c: real, d: real): real { Min(Min(a, b), Min(c, d)) }
  function Greatest(a: real, b: real, c: real, d: real): real { Max(Max(a, b), Max(c, d)) }

  /** Where a point goes. */
  function MapX(m: M33, x: real, y: real): real { m.scaleX * x + m.skewX * y + m.transX }
  function MapY(m: M33, x: real, y: real): real { m.skewY * x + m.scaleY * y + m.transY }

  /** The bounds of the four mapped corners. */
  function MapRect(m: M33, r: Rect): Rect {
    Rect(
      Least(MapX(m, r.l, r.t), MapX(m, r.r, r.t), MapX(m, r.l, r.b), MapX(m, r.r, r.b)),
      Least(MapY(m, r.l, r.t), MapY(m, r.r, r.t), MapY(m, r.l, r.b), MapY(m, r.r, r.b)),
      Greatest(MapX(m, r.l, r.t), MapX(m, r.r, r.t), MapX(m, r.l, r.b), MapX(m, r.r, r.b)),
      Greatest(MapY(m, r.l, r.t), MapY(m, r.r, r.t), MapY(m, r.l, r.b), MapY(m, r.r, r.b)))
  }

  function DeviceBounds(r: Rect, m: M33): IRect { RoundOut(MapRect(m, r)) }

  function Width(r: IRect): int { r.r - r.l }
  function Height(r: IRect): int { r.b - r.t }

  /** What the cache computes when it rasterises and again when it draws. */
  function CachedBounds(r: Rect, m: M33): IRect { DeviceBounds(r, Integral(m)) }

  /** Mapped rectangles under matrices that differ in translation are translates of each other. */
  lemma MapRectMoves(a: M33, b: M33, r: Rect)
    requires b == a.(transX := b.transX, transY := b.transY)
    ensures var dx, dy := b.transX - a.transX, b.transY - a.transY;
            var p, q := MapRect(a, r), MapRect(b, r);
            q == Rect(p.l + dx, p.t + dy, p.r + dx, p.b + dy)
  {
    var dx, dy := b.transX - a.transX, b.transY - a.transY;
    PointMoves(a, b, r.l, r.t);
    PointMoves(a, b, r.r, r.t);
    PointMoves(a, b, r.l, r.b);
    PointMoves(a, b, r.r, r.b);
    hide MapX, MapY, Least, Greatest;
    LeastMoves(MapX(a, r.l, r.t), MapX(a, r.r, r.t), MapX(a, r.l, r.b), MapX(a, r.r, r.b), dx);
    LeastMoves(MapY(a, r.l, r.t), MapY(a, r.r, r.t), MapY(a, r.l, r.b), MapY(a, r.r, r.b), dy);
  }

  lemma PointMoves(a: M33, b: M33, x: real, y: real)
    requires b == a.(transX := b.transX, transY := b.transY)
    ensures MapX(b, x, y) == MapX(a, x, y) + (b.transX - a.transX)
    ensures MapY(b, x, y) == MapY(a, x, y) + (b.transY - a.transY)
  {
  }

  lemma LeastMoves(a: real, b: real, c: real, d: real, s: real)
    ensures Least(a + s, b + s, c + s, d + s) == Least(a, b, c, d) + s
    ensures Greatest(a + s, b + s, c + s, d + s) == Greatest(a, b, c, d) + s
  {
  }

  lemma ExtentWithinOne(left: real, right: real, shift: real)
    ensures var w, v := Ceil(right) - left.Floor, Ceil(right + shift) - (left + shift).Floor;
            -1 <= v - w <= 1 && (IsInteger(shift) ==> v == w)
  {
    if IsInteger(shift) {
      IntegerShift(left, shift.Floor);
      IntegerShift(right, shift.Floor);
    }
  }

  lemma IntegerShift(x: real, n: int)
    ensures (x + n as real).Floor == x.Floor + n
    ensures Ceil(x + n as real) == Ceil(x) + n
  {
  }

  lemma IntegerDifference(x: real, y: real)
    requires IsInteger(x) && IsInteger(y)
    ensures IsInteger(x - y)
  {
    assert x - y == (x.Floor - y.Floor) as real;
  }

  /**
   An image made under one matrix fits, to within a pixel each way, the bounds
   computed under any other with the same key; exactly, when the matrix only
   scales and translates.
   */
  lemma CachedImageFits(id: KeyId, a: M33, b: M33, r: Rect)
    requires MakeKey(id, a) == MakeKey(id, b)
    ensures var p, q := CachedBounds(r, a), CachedBounds(r, b);
            && -1 <= Width(p) - Width(q) <= 1 && -1 <= Height(p) - Height(q) <= 1
            && (IsScaleTranslate(a) ==> Width(p) == Width(q) && Height(p) == Height(q))
  {
    var x, y := Integral(a), Integral(b);
    assert IsScaleTranslate(a) <==> IsScaleTranslate(b) by {
      assert MakeKey(id, a).matrix == MakeKey(id, b).matrix;
    }
    SnappedTranslation(a);
    SnappedTranslation(b);
    assert y == x.(transX := y.transX, transY := y.transY);
    hide Integral, ComputeIntegralTrans, MapRect, IsInteger;
    MapRectMoves(x, y, r);
    var p := MapRect(x, r);
    ExtentWithinOne(p.l, p.r, y.transX - x.transX);
    ExtentWithinOne(p.t, p.b, y.transY - x.transY);
    if IsScaleTranslate(a) {
      IntegerDifference(y.transX, x.transX);
      IntegerDifference(y.transY, x.transY);
    }
  }

  lemma Sheared(shift: real)
    ensures MapRect(M33(1.0, 1.0, shift, 0.0, 1.0, 0.0, 0.0, 0.0, 1.0), Rect(0.0, 0.0, 1.0, 1.0)) ==
            Rect(shift, 0.0, 2.0 + shift, 1.0)
  {
    var m := M33(1.0, 1.0, shift, 0.0, 1.0, 0.0, 0.0, 0.0, 1.0);
    assert MapX(m, 0.0, 0.0) == shift && MapX(m, 1.0, 0.0) == MapX(m, 0.0, 1.0) == 1.0 + shift;
    assert MapX(m, 1.0, 1.0) == 2.0 + shift;
    assert MapY(m, 0.0, 0.0) == MapY(m, 1.0, 0.0) == 0.0 && MapY(m, 0.0, 1.0) == MapY(m, 1.0, 1.0) == 1.0;
    hide MapX, MapY;
  }

  /** The bound is met: half a pixel of translation under a shear makes the bounds one wider. */
  lemma BoundIsTight()
    ensures exists id, a, b, r :: MakeKey(id, a) == MakeKey(id, b)
                               && Width(CachedBounds(r, a)) - Width(CachedBounds(r, b)) == 1
  {
    var a := M33(1.0, 1.0, 0.5, 0.0, 1.0, 0.0, 0.0, 0.0, 1.0);
    var b := a.(transX := 0.0);
    var r := Rect(0.0, 0.0, 1.0, 1.0);
    var id := KeyId(0, Layer, []);
    ShearedBounds();
    assert MakeKey(id, a) == MakeKey(id, b);
    hide *;
    assert Width(CachedBounds(r, a)) - Width(CachedBounds(r, b)) == 1;
  }

  lemma ShearedBounds()
    ensures var a, r := M33(1.0, 1.0, 0.5, 0.0, 1.0, 0.0, 0.0, 0.0, 1.0), Rect(0.0, 0.0, 1.0, 1.0);
            Width(CachedBounds(r, a)) == 3 && Width(CachedBounds(r, a.(transX := 0.0))) == 2
  {
    var a := M33(1.0, 1.0, 0.5, 0.0, 1.0, 0.0, 0.0, 0.0, 1.0);
    Sheared(0.5);
    Sheared(0.0);
    hide MapRect;
    assert Integral(a) == a && Integral(a.(transX := 0.0)) == a.(transX := 0.0);
    hide Integral;
    assert (0.5).Floor == 0 && Ceil(2.5) == 3 && (0.0).Floor == 0 && Ceil(2.0) == 2;
  }

  // ----- bounds and keys, spelled out -----

  ghost predicate Around(q: Rect, x: real, y: real) { q.l <= x <= q.r && q.t <= y <= q.b }

  ghost predicate Corner(r: Rect, x: real, y: real) { (x == r.l || x == r.r) && (y == r.t || y == r.b) }

  /** The mapped rectangle is around all four mapped corners, and each of its edges has one on it. */
  lemma MapRectExactly(m: M33, r: Rect)
    ensures var q := MapRect(m, r);
            && (forall x, y :: Corner(r, x, y) ==> Around(q, MapX(m, x, y), MapY(m, x, y)))
            && (exists x, y :: Corner(r, x, y) && MapX(m, x, y) == q.l)
            && (exists x, y :: Corner(r, x, y) && MapX(m, x, y) == q.r)
            && (exists x, y :: Corner(r, x, y) && MapY(m, x, y) == q.t)
            && (exists x, y :: Corner(r, x, y) && MapY(m, x, y) == q.b)
  {
    var q := MapRect(m, r);
    assert Corner(r, r.l, r.t) && Corner(r, r.r, r.t) && Corner(r, r.l, r.b) && Corner(r, r.r, r.b);
    ExtremesAreOnes(MapX(m, r.l, r.t), MapX(m, r.r, r.t), MapX(m, r.l, r.b), MapX(m, r.r, r.b));
    ExtremesAreOnes(MapY(m, r.l, r.t), MapY(m, r.r, r.t), MapY(m, r.l, r.b), MapY(m, r.r, r.b));
    hide MapX, MapY, Least, Greatest;
  }

  lemma ExtremesAreOnes(a: real, b: real, c: real, d: real)
    ensures Least(a, b, c, d) in {a, b, c, d} && Greatest(a, b, c, d) in {a, b, c, d}
    ensures forall x <- [a, b, c, d] :: Least(a, b, c, d) <= x <= Greatest(a, b, c, d)
  {
  }

  /** Keys agree exactly for the same item under matrices that differ in translation only. */
  lemma KeysAgree(i: KeyId, a: M33, j: KeyId, b: M33)
    ensures MakeKey(i, a) == MakeKey(j, b) <==>
            && i == j
            && a.scaleX == b.scaleX && a.skewX == b.skewX && a.skewY == b.skewY && a.scaleY == b.scaleY
            && a.persp0 == b.persp0 && a.persp1 == b.persp1 && a.persp2 == b.persp2
  {
  }
}
