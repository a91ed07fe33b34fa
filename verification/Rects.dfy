/**
 Rectangles over the reals and over the integers, by the rules of the Skia types
 the source uses: joining with an empty rectangle is a no-op.
 */
module Rects {

  datatype Rect = Rect(l: real, t: real, r: real, b: real)
  datatype IRect = IRect(l: int, t: int, r: int, b: int)

  const EMPTY := Rect(0.0, 0.0, 0.0, 0.0)
  const NOWHERE := IRect(0, 0, 0, 0)

  predicate IsEmpty(a: Rect) { !(a.l < a.r && a.t < a.b) }
  predicate IsEmptyI(a: IRect) { !(a.l < a.r && a.t < a.b) }

  function Min(x: real, y: real): real { if x <= y then x else y }
  function Max(x: real, y: real): real { if x <= y then y else x }
  function MinI(x: int, y: int): int { if x <= y then x else y }
  function MaxI(x: int, y: int): int { if x <= y then y else x }

  function Join(a: Rect, b: Rect): Rect {
    if IsEmpty(b) then a
    else if IsEmpty(a) then b
    else Rect(Min(a.l, b.l), Min(a.t, b.t), Max(a.r, b.r), Max(a.b, b.b))
  }

  function JoinI(a: IRect, b: IRect): IRect {
    if IsEmptyI(b) then a
    else if IsEmptyI(a) then b
    else IRect(MinI(a.l, b.l), MinI(a.t, b.t), MaxI(a.r, b.r), MaxI(a.b, b.b))
  }

  predicate Intersects(a: Rect, b: Rect) {
    Max(a.l, b.l) < Min(a.r, b.r) && Max(a.t, b.t) < Min(a.b, b.b)
  }

  function OfInts(a: IRect): Rect { Rect(a.l as real, a.t as real, a.r as real, a.b as real) }

  function Ceil(x: real): int { -((-x).Floor) }

  function RoundOut(a: Rect): IRect { IRect(a.l.Floor, a.t.Floor, Ceil(a.r), Ceil(a.b)) }
}
