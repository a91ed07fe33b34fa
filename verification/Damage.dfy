/**
 Damage arithmetic: which rectangle of a frame has to be painted again
 (flow/diff_context.cc, `ComputeDamage` and `AlignRect`).

 Rectangles follow the rules of the Skia types the source uses: joining with an
 empty rectangle is a no-op, and intersecting two integer rectangles that do not
 meet leaves the first one unchanged.
 */
module Damage {
  import opened Rects
  import Bits

  function Overlap(a: IRect, b: IRect): IRect {
    IRect(MaxI(a.l, b.l), MaxI(a.t, b.t), MinI(a.r, b.r), MinI(a.b, b.b))
  }

  predicate Meets(a: IRect, b: IRect) { !IsEmptyI(Overlap(a, b)) }

  /** The intersection where the two meet, and the first one unchanged where they do not. */
  function IntersectI(a: IRect, b: IRect): IRect {
    if Meets(a, b) then Overlap(a, b) else a
  }

  datatype Size = Size(w: nat, h: nat)

  function FrameRect(size: Size): IRect { IRect(0, 0, size.w, size.h) }

  // ----- alignment -----

  /** The remainder that truncates toward zero. */
  function TruncatedMod(x: int, m: int): int
    requires m > 0
  {
    if x >= 0 then x % m else -((-x) % m)
  }

  function AlignDown(x: int, m: int): int
    requires m > 0
  {
    x - TruncatedMod(x, m)
  }

  function AlignUp(x: int, m: int): int
    requires m > 0
  {
    if TruncatedMod(x, m) != 0 then x + m - TruncatedMod(x, m) else x
  }

  function AlignRect(a: IRect, size: Size, horizontal: int, vertical: int): IRect
    requires horizontal > 0 && vertical > 0
  {
    IRect(AlignDown(a.l, horizontal), AlignDown(a.t, vertical),
          MinI(AlignUp(a.r, horizontal), size.w), MinI(AlignUp(a.b, vertical), size.h))
  }

  predicate IsMultiple(x: int, m: int)
    requires m > 0
  {
    x % m == 0
  }

  lemma MultipleOf(q: int, m: int)
    requires m > 0
    ensures IsMultiple(q * m, m)
  {
    var d, r := (q * m) / m, (q * m) % m;
    assert (q - d) * m == r;
    if q - d >= 1 {
      Bits.MultiplyKeeps(1, q - d, m);
    } else if q - d <= -1 {
      Bits.MultiplyKeeps(q - d, -1, m);
    }
  }

  /** For an edge inside the frame, the nearest multiple on each side. */
  lemma AlignedEdges(x: int, m: int)
    requires m > 0 && x >= 0
    ensures IsMultiple(AlignDown(x, m), m) && AlignDown(x, m) <= x < AlignDown(x, m) + m
    ensures IsMultiple(AlignUp(x, m), m) && AlignUp(x, m) - m < x <= AlignUp(x, m)
    ensures 0 <= AlignDown(x, m)
  {
    var q := x / m;
    assert x == q * m + x % m && (q + 1) * m == q * m + m;
    MultipleOf(q, m);
    MultipleOf(q + 1, m);
  }

  lemma MultiplesApart(x: int, y: int, m: int)
    requires m > 0 && IsMultiple(x, m) && IsMultiple(y, m) && x < y
    ensures x + m <= y
  {
    var i, j := x / m, y / m;
    assert x == i * m && y == j * m;
    if j <= i {
      Bits.MultiplyKeeps(j, i, m);
    } else {
      Bits.MultiplyKeeps(i + 1, j, m);
      assert (i + 1) * m == x + m;
    }
  }

  lemma AlignedMonotone(x: int, y: int, m: int)
    requires m > 0 && 0 <= x <= y
    ensures AlignDown(x, m) <= AlignDown(y, m) && AlignUp(x, m) <= AlignUp(y, m)
  {
    AlignedEdges(x, m);
    AlignedEdges(y, m);
    hide AlignDown;
    hide AlignUp;
    if AlignDown(y, m) < AlignDown(x, m) {
      MultiplesApart(AlignDown(y, m), AlignDown(x, m), m);
    }
    if AlignUp(y, m) < AlignUp(x, m) {
      MultiplesApart(AlignUp(y, m), AlignUp(x, m), m);
    }
  }

  // ----- readbacks -----

  /** A filter that paints in one rectangle and samples from another. */
  datatype Readback = Readback(position: nat, paint: IRect, readback: IRect)

  predicate Triggered(r: Readback, damage: Rect) {
    Intersects(OfInts(r.paint), damage) || Intersects(OfInts(r.readback), damage)
  }

  function WithReadback(damage: Rect, r: Readback): Rect {
    Join(Join(damage, OfInts(r.readback)), OfInts(r.paint))
  }

  /** One pass over the readbacks in order; each sees the damage accumulated before it. */
  function FrameDamageOf(raw: Rect, readbacks: seq<Readback>): Rect {
    if readbacks == [] then raw else
    var before, r := FrameDamageOf(raw, readbacks[..|readbacks| - 1]), readbacks[|readbacks| - 1];
    if Triggered(r, before) then WithReadback(before, r) else before
  }

  function BufferDamageOf(raw: Rect, readbacks: seq<Readback>, existing: IRect): Rect {
    if readbacks == [] then Join(OfInts(existing), raw) else
    var rest, r := readbacks[..|readbacks| - 1], readbacks[|readbacks| - 1];
    var before := BufferDamageOf(raw, rest, existing);
    if Triggered(r, FrameDamageOf(raw, rest)) then WithReadback(before, r) else before
  }

  // ----- the whole computation -----

  datatype Damage = Damage(frame: IRect, buffer: IRect)

  /** Alignments of at most one mean none; otherwise both have to be positive. */
  predicate AlignmentOk(horizontal: int, vertical: int) {
    horizontal > 1 || vertical > 1 ==> horizontal > 0 && vertical > 0
  }

  function Settled(damage: Rect, size: Size, horizontal: int, vertical: int): IRect
    requires AlignmentOk(horizontal, vertical)
  {
    var clipped := IntersectI(RoundOut(damage), FrameRect(size));
    if horizontal > 1 || vertical > 1 then AlignRect(clipped, size, horizontal, vertical) else clipped
  }

  function DamageOf(raw: Rect, readbacks: seq<Readback>, existing: IRect, size: Size,
                    horizontal: int, vertical: int): Damage
    requires AlignmentOk(horizontal, vertical)
  {
    Damage(Settled(FrameDamageOf(raw, readbacks), size, horizontal, vertical),
           Settled(BufferDamageOf(raw, readbacks, existing), size, horizontal, vertical))
  }

  // ----- pixels -----

  /** Pixel (x, y) is the unit square whose top left corner is (x, y). */
  predicate Holds(a: IRect, x: int, y: int) { a.l <= x < a.r && a.t <= y < a.b }

  predicate Touches(a: Rect, x: int, y: int) {
    !IsEmpty(a) && a.l < (x + 1) as real && x as real < a.r && a.t < (y + 1) as real && y as real < a.b
  }

  predicate Within(a: IRect, b: IRect) { b.l <= a.l && a.r <= b.r && b.t <= a.t && a.b <= b.b }
  predicate Inside(a: IRect, b: IRect) { Within(a, b) && a.l <= a.r && a.t <= a.b }
  predicate WithinR(a: Rect, b: Rect) { b.l <= a.l && a.r <= b.r && b.t <= a.t && a.b <= b.b }

  lemma TouchRoundsOut(a: Rect, x: int, y: int)
    requires Touches(a, x, y)
    ensures Holds(RoundOut(a), x, y)
  {
  }

  lemma HeldTouches(a: IRect, x: int, y: int)
    requires Holds(a, x, y)
    ensures Touches(OfInts(a), x, y)
  {
  }

  lemma JoinTouches(a: Rect, b: Rect, x: int, y: int)
    ensures Touches(a, x, y) || Touches(b, x, y) ==> Touches(Join(a, b), x, y)
  {
  }

  /** Settling keeps every pixel of the frame it was given. */
  lemma SettledCovers(damage: Rect, size: Size, horizontal: int, vertical: int, x: int, y: int)
    requires AlignmentOk(horizontal, vertical)
    requires Holds(FrameRect(size), x, y) && Touches(damage, x, y)
    ensures Holds(Settled(damage, size, horizontal, vertical), x, y)
  {
    TouchRoundsOut(damage, x, y);
    var rounded := RoundOut(damage);
    assert Meets(rounded, FrameRect(size));
    var clipped := Overlap(rounded, FrameRect(size));
    if horizontal > 1 || vertical > 1 {
      AlignedEdges(clipped.l, horizontal);
      AlignedEdges(clipped.r, horizontal);
      AlignedEdges(clipped.t, vertical);
      AlignedEdges(clipped.b, vertical);
    }
  }

  lemma {:induction false} RawInBoth(raw: Rect, readbacks: seq<Readback>, existing: IRect, x: int, y: int)
    ensures Touches(raw, x, y) ==> Touches(FrameDamageOf(raw, readbacks), x, y)
    ensures Touches(raw, x, y) || Holds(existing, x, y) ==> Touches(BufferDamageOf(raw, readbacks, existing), x, y)
  {
    if readbacks == [] {
      if Holds(existing, x, y) {
        HeldTouches(existing, x, y);
      }
      JoinTouches(OfInts(existing), raw, x, y);
    } else {
      var rest, r := readbacks[..|readbacks| - 1], readbacks[|readbacks| - 1];
      RawInBoth(raw, rest, existing, x, y);
      var f, b := FrameDamageOf(raw, rest), BufferDamageOf(raw, rest, existing);
      JoinTouches(f, OfInts(r.readback), x, y);
      JoinTouches(Join(f, OfInts(r.readback)), OfInts(r.paint), x, y);
      JoinTouches(b, OfInts(r.readback), x, y);
      JoinTouches(Join(b, OfInts(r.readback)), OfInts(r.paint), x, y);
    }
  }

  /** What the two damages are for: changed pixels are in both, lagging pixels are in the buffer's. */
  lemma DamageCovers(raw: Rect, readbacks: seq<Readback>, existing: IRect, size: Size,
                     horizontal: int, vertical: int, x: int, y: int)
    requires AlignmentOk(horizontal, vertical) && Holds(FrameRect(size), x, y)
    ensures var damage := DamageOf(raw, readbacks, existing, size, horizontal, vertical);
            && (Touches(raw, x, y) ==> Holds(damage.frame, x, y))
            && (Touches(raw, x, y) || Holds(existing, x, y) ==> Holds(damage.buffer, x, y))
  {
    RawInBoth(raw, readbacks, existing, x, y);
    if Touches(FrameDamageOf(raw, readbacks), x, y) {
      SettledCovers(FrameDamageOf(raw, readbacks), size, horizontal, vertical, x, y);
    }
    if Touches(BufferDamageOf(raw, readbacks, existing), x, y) {
      SettledCovers(BufferDamageOf(raw, readbacks, existing), size, horizontal, vertical, x, y);
    }
  }

  // ----- tightness -----

  /** The damage lies in the frame already, as no damage at all does, or meets it. */
  predicate InSight(damage: Rect, size: Size) {
    Inside(RoundOut(damage), FrameRect(size)) || Meets(RoundOut(damage), FrameRect(size))
  }

  /** The result lies in the frame when the damage is in sight. */
  lemma SettledInFrame(damage: Rect, size: Size, horizontal: int, vertical: int)
    requires AlignmentOk(horizontal, vertical) && InSight(damage, size)
    ensures Inside(Settled(damage, size, horizontal, vertical), FrameRect(size))
    ensures Meets(RoundOut(damage), FrameRect(size)) ==>
              Within(Overlap(RoundOut(damage), FrameRect(size)), Settled(damage, size, horizontal, vertical))
  {
    var clipped := IntersectI(RoundOut(damage), FrameRect(size));
    if horizontal > 1 || vertical > 1 {
      AlignedEdges(clipped.l, horizontal);
      AlignedEdges(clipped.r, horizontal);
      AlignedEdges(clipped.t, vertical);
      AlignedEdges(clipped.b, vertical);
    }
  }

  /** Alignment truncates toward zero: an edge less than one step before the frame ends up on it. */
  lemma AlignedBefore(x: int, m: int)
    requires m > 0 && x < 0
    ensures AlignDown(x, m) == -((-x) / m * m) && x <= AlignDown(x, m) <= 0
    ensures 0 <= AlignDown(x, m) <==> -m < x
    ensures AlignUp(x, m) == AlignDown(x, m) || AlignUp(x, m) == AlignDown(x, m) + m
  {
    var q := (-x) / m;
    assert -x == q * m + (-x) % m;
    if q >= 1 {
      Bits.MultiplyKeeps(1, q, m);
    }
  }

  lemma AlignedOrder(lo: int, hi: int, m: int)
    requires m > 0 && lo <= hi
    ensures AlignDown(lo, m) <= AlignUp(hi, m)
  {
    if lo >= 0 {
      AlignedEdges(lo, m);
      AlignedEdges(hi, m);
    } else {
      AlignedBefore(lo, m);
      if hi >= 0 {
        AlignedEdges(hi, m);
      } else {
        AlignedBefore(hi, m);
        var p, q := (-lo) / m, (-hi) / m;
        assert -lo == p * m + (-lo) % m && -hi == q * m + (-hi) % m;
        assert (p + 1) * m == p * m + m;
        if p < q {
          Bits.MultiplyKeeps(p + 1, q, m);
        }
        Bits.MultiplyKeeps(q, p, m);
      }
    }
  }

  /** Out of sight, two edges still end up on the frame if they truncate onto it. */
  predicate EdgesStay(lo: int, hi: int, extent: int, m: int)
    requires m > 0
  {
    -m < lo && AlignDown(lo, m) <= extent && (lo <= hi || AlignDown(lo, m) <= AlignUp(hi, m))
  }

  lemma EdgesStayExactly(lo: int, hi: int, extent: int, m: int)
    requires m > 0
    ensures EdgesStay(lo, hi, extent, m) <==>
            0 <= AlignDown(lo, m) <= MinI(AlignUp(hi, m), extent)
  {
    if lo <= hi {
      AlignedOrder(lo, hi, m);
    }
    if lo < 0 {
      AlignedBefore(lo, m);
    } else {
      AlignedEdges(lo, m);
    }
    hide AlignDown, AlignUp;
  }

  /**
   Exactly when the result lies in the frame, for every alignment.  Unaligned, that is
   for damage in sight.  Aligned, it is for damage that meets the frame, or whose left
   and top edges truncate onto it.
   */
  lemma SettledInFrameExactly(damage: Rect, size: Size, horizontal: int, vertical: int)
    requires AlignmentOk(horizontal, vertical)
    ensures var rounded := RoundOut(damage);
            Inside(Settled(damage, size, horizontal, vertical), FrameRect(size)) <==>
            if horizontal > 1 || vertical > 1
            then Meets(rounded, FrameRect(size)) ||
                 (EdgesStay(rounded.l, rounded.r, size.w, horizontal) && EdgesStay(rounded.t, rounded.b, size.h, vertical))
            else InSight(damage, size)
  {
    hide RoundOut, AlignDown, AlignUp, EdgesStay;
    var rounded := RoundOut(damage);
    if horizontal > 1 || vertical > 1 {
      EdgesStayExactly(rounded.l, rounded.r, size.w, horizontal);
      EdgesStayExactly(rounded.t, rounded.b, size.h, vertical);
      if Meets(rounded, FrameRect(size)) {
        SettledInFrame(damage, size, horizontal, vertical);
      }
    }
  }

  /** Damage to the right of the frame is handed on where it is, aligned or not. */
  lemma OutOfSightExample()
    ensures var damage, size := Rect(200.0, 0.0, 210.0, 10.0), Size(100, 100);
            && Settled(damage, size, 1, 1) == IRect(200, 0, 210, 10)
            && !Inside(Settled(damage, size, 1, 1), FrameRect(size))
            && !Inside(Settled(damage, size, 4, 4), FrameRect(size))
  {
    RoundsToInts(IRect(200, 0, 210, 10));
    hide RoundOut;
  }

  lemma RoundsToInts(a: IRect)
    ensures RoundOut(OfInts(a)) == a
  {
  }

  predicate Ordered(a: Rect) { a.l <= a.r && a.t <= a.b }

  /** The damage the code gathers has its edges in order, so the last case of `EdgesStay` does not arise. */
  lemma {:induction false} GatheredIsOrdered(raw: Rect, readbacks: seq<Readback>)
    requires Ordered(raw)
    ensures Ordered(FrameDamageOf(raw, readbacks))
  {
    if readbacks != [] {
      GatheredIsOrdered(raw, readbacks[..|readbacks| - 1]);
    }
  }

  /** Each edge is the nearest aligned one, or the edge of the frame. */
  lemma SettledTight(damage: Rect, size: Size, horizontal: int, vertical: int)
    requires horizontal > 0 && vertical > 0 && Meets(RoundOut(damage), FrameRect(size))
    ensures var raw, s := Overlap(RoundOut(damage), FrameRect(size)), Settled(damage, size, horizontal, vertical);
            && raw.l - horizontal < s.l <= raw.l && IsMultiple(s.l, horizontal)
            && raw.t - vertical < s.t <= raw.t && IsMultiple(s.t, vertical)
            && raw.r <= s.r < raw.r + horizontal && (s.r == size.w || IsMultiple(s.r, horizontal))
            && raw.b <= s.b < raw.b + vertical && (s.b == size.h || IsMultiple(s.b, vertical))
  {
    var raw := Overlap(RoundOut(damage), FrameRect(size));
    AlignedEdges(raw.l, horizontal);
    AlignedEdges(raw.r, horizontal);
    AlignedEdges(raw.t, vertical);
    AlignedEdges(raw.b, vertical);
  }

  /** Both operands lie in their join. */
  lemma JoinKeeps(a: Rect, b: Rect)
    ensures !IsEmpty(a) ==> !IsEmpty(Join(a, b)) && WithinR(a, Join(a, b))
    ensures !IsEmpty(b) ==> !IsEmpty(Join(a, b)) && WithinR(b, Join(a, b))
  {
  }

  lemma JoinMonotone(a: Rect, b: Rect, c: Rect)
    requires !IsEmpty(a) ==> !IsEmpty(b) && WithinR(a, b)
    ensures !IsEmpty(Join(a, c)) ==> !IsEmpty(Join(b, c)) && WithinR(Join(a, c), Join(b, c))
  {
  }

  lemma {:induction false} FrameInBuffer(raw: Rect, readbacks: seq<Readback>, existing: IRect)
    ensures var f, b := FrameDamageOf(raw, readbacks), BufferDamageOf(raw, readbacks, existing);
            !IsEmpty(f) ==> !IsEmpty(b) && WithinR(f, b)
  {
    if readbacks == [] {
      JoinKeeps(OfInts(existing), raw);
    } else {
      var rest, r := readbacks[..|readbacks| - 1], readbacks[|readbacks| - 1];
      FrameInBuffer(raw, rest, existing);
      var f, b := FrameDamageOf(raw, rest), BufferDamageOf(raw, rest, existing);
      hide Join;
      JoinMonotone(f, b, OfInts(r.readback));
      JoinMonotone(Join(f, OfInts(r.readback)), Join(b, OfInts(r.readback)), OfInts(r.paint));
    }
  }

  lemma RoundOutMonotone(a: Rect, b: Rect)
    requires WithinR(a, b)
    ensures Within(RoundOut(a), RoundOut(b))
  {
  }

  /** Frame damage lies inside buffer damage, and both lie inside the frame. */
  lemma DamageOrdered(raw: Rect, readbacks: seq<Readback>, existing: IRect, size: Size, horizontal: int, vertical: int)
    requires AlignmentOk(horizontal, vertical)
    requires InSight(FrameDamageOf(raw, readbacks), size) && InSight(BufferDamageOf(raw, readbacks, existing), size)
    ensures var damage := DamageOf(raw, readbacks, existing, size, horizontal, vertical);
            && Inside(damage.frame, FrameRect(size)) && Inside(damage.buffer, FrameRect(size))
            && (!IsEmpty(FrameDamageOf(raw, readbacks)) ==> Within(damage.frame, damage.buffer))
  {
    var f, b := FrameDamageOf(raw, readbacks), BufferDamageOf(raw, readbacks, existing);
    SettledInFrame(f, size, horizontal, vertical);
    SettledInFrame(b, size, horizontal, vertical);
    if !IsEmpty(f) {
      FrameInBuffer(raw, readbacks, existing);
      RoundOutMonotone(f, b);
      var cf, cb := IntersectI(RoundOut(f), FrameRect(size)), IntersectI(RoundOut(b), FrameRect(size));
      assert Within(cf, cb);
      if horizontal > 1 || vertical > 1 {
        AlignedMonotone(cb.l, cf.l, horizontal);
        AlignedMonotone(cf.r, cb.r, horizontal);
        AlignedMonotone(cb.t, cf.t, vertical);
        AlignedMonotone(cf.b, cb.b, vertical);
      }
    }
  }

  /** A readback met by the damage gathered before it is inside the final damage, with its paint. */
  lemma {:induction false} ReadbackIncluded(raw: Rect, readbacks: seq<Readback>, i: nat)
    requires i < |readbacks| && Triggered(readbacks[i], FrameDamageOf(raw, readbacks[..i]))
    ensures var r, damage := readbacks[i], FrameDamageOf(raw, readbacks);
            && (!IsEmptyI(r.paint) ==> WithinR(OfInts(r.paint), damage))
            && (!IsEmptyI(r.readback) ==> WithinR(OfInts(r.readback), damage))
            && !IsEmpty(damage)
  {
    var n := |readbacks| - 1;
    var before, last := FrameDamageOf(raw, readbacks[..n]), readbacks[n];
    WithReadbackKeeps(before, last);
    hide WithReadback;
    if i < n {
      assert readbacks[..n][..i] == readbacks[..i];
      ReadbackIncluded(raw, readbacks[..n], i);
      hide IsEmpty, IsEmptyI, OfInts, Triggered;
    } else {
      assert readbacks[..i] == readbacks[..n];
      hide OfInts;
    }
  }

  /** Taking a readback in keeps what there was, and a readback that was met leaves something. */
  /** A readback is met exactly where some pixel of either rectangle has been damaged. */
  lemma TriggeredExactly(r: Readback, damage: Rect)
    ensures Triggered(r, damage) <==>
            exists x, y :: Touches(damage, x, y) && (Holds(r.paint, x, y) || Holds(r.readback, x, y))
  {
    MeetsAtPixel(r.paint, damage);
    MeetsAtPixel(r.readback, damage);
    hide Intersects, Touches;
  }

  lemma MeetsAtPixel(a: IRect, damage: Rect)
    ensures Intersects(OfInts(a), damage) <==> exists x, y :: Touches(damage, x, y) && Holds(a, x, y)
  {
    if Intersects(OfInts(a), damage) {
      var x, y := Max(a.l as real, damage.l).Floor, Max(a.t as real, damage.t).Floor;
      assert Touches(damage, x, y) && Holds(a, x, y);
    }
  }

  /**
   A change in what a filter samples, or where it paints, repaints both: every pixel of
   the frame in either rectangle is in both damages.
   */
  lemma ReadbackRepainted(raw: Rect, readbacks: seq<Readback>, existing: IRect, size: Size, horizontal: int, vertical: int,
                          i: nat, x: int, y: int, u: int, v: int)
    requires AlignmentOk(horizontal, vertical) && i < |readbacks|
    requires Touches(FrameDamageOf(raw, readbacks[..i]), x, y)
    requires Holds(readbacks[i].paint, x, y) || Holds(readbacks[i].readback, x, y)
    requires Holds(FrameRect(size), u, v) && (Holds(readbacks[i].paint, u, v) || Holds(readbacks[i].readback, u, v))
    ensures var damage := DamageOf(raw, readbacks, existing, size, horizontal, vertical);
            Holds(damage.frame, u, v) && Holds(damage.buffer, u, v)
  {
    var r := readbacks[i];
    TriggeredExactly(r, FrameDamageOf(raw, readbacks[..i]));
    hide Touches, Triggered, Settled, FrameDamageOf, BufferDamageOf;
    ReadbackTouched(raw, readbacks, existing, i, u, v);
    SettledCovers(FrameDamageOf(raw, readbacks), size, horizontal, vertical, u, v);
    SettledCovers(BufferDamageOf(raw, readbacks, existing), size, horizontal, vertical, u, v);
  }

  lemma {:induction false} ReadbackTouched(raw: Rect, readbacks: seq<Readback>, existing: IRect, i: nat, u: int, v: int)
    requires i < |readbacks| && Triggered(readbacks[i], FrameDamageOf(raw, readbacks[..i]))
    requires Holds(readbacks[i].paint, u, v) || Holds(readbacks[i].readback, u, v)
    ensures Touches(FrameDamageOf(raw, readbacks), u, v) && Touches(BufferDamageOf(raw, readbacks, existing), u, v)
  {
    hide Touches, Triggered, Join;
    var n := |readbacks| - 1;
    var rest, last := readbacks[..n], readbacks[n];
    if i < n {
      assert rest[..i] == readbacks[..i];
      ReadbackTouched(raw, rest, existing, i, u, v);
    } else {
      assert readbacks[..i] == rest;
    }
    JoinedReadbackTouches(FrameDamageOf(raw, rest), last, u, v);
    JoinedReadbackTouches(BufferDamageOf(raw, rest, existing), last, u, v);
  }

  lemma JoinedReadbackTouches(before: Rect, r: Readback, u: int, v: int)
    ensures Touches(before, u, v) || Holds(r.paint, u, v) || Holds(r.readback, u, v) ==>
              Touches(WithReadback(before, r), u, v)
  {
    if Holds(r.paint, u, v) {
      HeldTouches(r.paint, u, v);
    }
    if Holds(r.readback, u, v) {
      HeldTouches(r.readback, u, v);
    }
    JoinTouches(before, OfInts(r.readback), u, v);
    JoinTouches(Join(before, OfInts(r.readback)), OfInts(r.paint), u, v);
    hide Touches, Join;
  }

  /** A filter none of whose pixels was damaged before it adds nothing. */
  lemma ReadbackUntouched(raw: Rect, readbacks: seq<Readback>, existing: IRect, i: nat)
    requires i < |readbacks|
    requires forall x, y :: Touches(FrameDamageOf(raw, readbacks[..i]), x, y) ==>
               !Holds(readbacks[i].paint, x, y) && !Holds(readbacks[i].readback, x, y)
    ensures FrameDamageOf(raw, readbacks[..i + 1]) == FrameDamageOf(raw, readbacks[..i])
    ensures BufferDamageOf(raw, readbacks[..i + 1], existing) == BufferDamageOf(raw, readbacks[..i], existing)
  {
    TriggeredExactly(readbacks[i], FrameDamageOf(raw, readbacks[..i]));
    assert readbacks[..i + 1][..i] == readbacks[..i];
    hide Touches, Triggered, Holds;
  }

  // ----- rectangles by their pixels and points -----

  /** The join is the least rectangle around both. */
  lemma JoinLeast(a: Rect, b: Rect, around: Rect)
    requires (!IsEmpty(a) ==> WithinR(a, around)) && (!IsEmpty(b) ==> WithinR(b, around))
    ensures !IsEmpty(Join(a, b)) ==> WithinR(Join(a, b), around)
    ensures IsEmpty(a) && IsEmpty(b) ==> IsEmpty(Join(a, b))
  {
  }

  lemma JoinILeast(a: IRect, b: IRect, around: IRect)
    requires (!IsEmptyI(a) ==> Within(a, around)) && (!IsEmptyI(b) ==> Within(b, around))
    ensures !IsEmptyI(JoinI(a, b)) ==> Within(JoinI(a, b), around)
    ensures (!IsEmptyI(a) ==> Within(a, JoinI(a, b))) && (!IsEmptyI(b) ==> Within(b, JoinI(a, b)))
  {
  }

  predicate StrictlyInside(a: Rect, x: real, y: real) { a.l < x < a.r && a.t < y < a.b }

  /** Two rectangles intersect exactly if some point lies strictly inside both. */
  lemma IntersectsExactly(a: Rect, b: Rect)
    ensures Intersects(a, b) <==> exists x, y :: StrictlyInside(a, x, y) && StrictlyInside(b, x, y)
  {
    if Intersects(a, b) {
      var x := (Max(a.l, b.l) + Min(a.r, b.r)) / 2.0;
      var y := (Max(a.t, b.t) + Min(a.b, b.b)) / 2.0;
      assert StrictlyInside(a, x, y) && StrictlyInside(b, x, y);
    }
  }

  /** Rounding out holds exactly the pixels touched. */
  lemma RoundOutExactly(a: Rect, x: int, y: int)
    requires !IsEmpty(a)
    ensures Holds(RoundOut(a), x, y) <==> Touches(a, x, y)
  {
  }

  /** The overlap holds exactly the pixels of both, and rectangles meet exactly if there are any. */
  lemma OverlapExactly(a: IRect, b: IRect)
    ensures forall x, y :: Holds(Overlap(a, b), x, y) <==> Holds(a, x, y) && Holds(b, x, y)
    ensures Meets(a, b) <==> exists x, y :: Holds(a, x, y) && Holds(b, x, y)
  {
    var o := Overlap(a, b);
    assert Holds(o, o.l, o.t) <==> !IsEmptyI(o);
  }

  lemma WithReadbackKeeps(before: Rect, r: Readback)
    ensures var after := WithReadback(before, r);
            && (!IsEmpty(before) ==> !IsEmpty(after) && WithinR(before, after))
            && (!IsEmptyI(r.paint) ==> WithinR(OfInts(r.paint), after))
            && (!IsEmptyI(r.readback) ==> WithinR(OfInts(r.readback), after))
            && (Triggered(r, before) ==> !IsEmpty(before))
  {
    JoinKeeps(before, OfInts(r.readback));
    JoinKeeps(Join(before, OfInts(r.readback)), OfInts(r.paint));
    hide Join;
  }
}
