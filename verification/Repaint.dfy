/**
 Partial repaint with any number of back buffers (flow/compositor_context.cc and
 .h, flow/surface_frame.h, shell/common/rasterizer.cc).

 Each buffer comes with the area in which it lags behind the frame last shown, or
 with nothing known about it.  A frame is painted only inside the buffer damage, or
 in full; the buffer's own lag is cleared and the frame damage is added to the lag
 of all others.  The theorem is that over every run each painted buffer shows its
 whole frame.
 */
module Repaint {
  import opened Records
  import opened Rects
  import opened Damage
  import Diff

  // ----- one frame's damage -----

  const REPAINT_RATIO := 0.7

  /** Over nothing the ratio is infinite with the sign of the extent, or not a number. */
  predicate AtMostRatio(extent: int, of: nat) {
    if of == 0 then extent < 0 else extent as real / of as real <= REPAINT_RATIO
  }

  /** Whether painting only the damage pays off; never when it is the whole frame. */
  predicate ShouldPerformPartialRepaint(damage: Option<IRect>, size: Size) {
    && damage.Some?
    && var width, height := damage.value.r - damage.value.l, damage.value.b - damage.value.t;
       && !(width >= size.w && height >= size.h)
       && (AtMostRatio(width, size.w) || AtMostRatio(height, size.h))
  }

  lemma ScaleKeepsOrder(x: real, y: real, factor: real)
    requires factor > 0.0
    ensures x <= y <==> x * factor <= y * factor
  {
  }

  lemma Quotient(x: real, y: real)
    requires y != 0.0
    ensures x / y * y == x
  {
  }

  lemma TenTimes(extent: int, of: nat)
    ensures extent as real <= REPAINT_RATIO * of as real <==> 10 * extent <= 7 * of
  {
    assert REPAINT_RATIO * of as real == 7.0 * of as real / 10.0;
  }

  lemma RatioExactly(extent: int, of: nat)
    ensures AtMostRatio(extent, of) <==> if of == 0 then extent < 0 else 10 * extent <= 7 * of
  {
    if of != 0 {
      RatioScaled(extent, of);
      TenTimes(extent, of);
    }
  }

  lemma RatioScaled(extent: int, of: nat)
    requires of != 0
    ensures AtMostRatio(extent, of) <==> extent as real <= REPAINT_RATIO * of as real
  {
    var ratio := extent as real / of as real;
    Quotient(extent as real, of as real);
    ScaleKeepsOrder(ratio, REPAINT_RATIO, of as real);
  }

  /**
   In whole numbers: the damage is not as large as the frame, and in one direction at least it is
   seven tenths of it or less.
   */
  lemma PartialRepaintExactly(damage: Option<IRect>, size: Size)
    ensures ShouldPerformPartialRepaint(damage, size) <==>
            && damage.Some?
            && var width, height := damage.value.r - damage.value.l, damage.value.b - damage.value.t;
               && (width < size.w || height < size.h)
               && (|| (size.w != 0 && 10 * width <= 7 * size.w) || (size.w == 0 && width < 0)
                   || (size.h != 0 && 10 * height <= 7 * size.h) || (size.h == 0 && height < 0))
  {
    if damage.Some? {
      RatioExactly(damage.value.r - damage.value.l, size.w);
      RatioExactly(damage.value.b - damage.value.t, size.h);
      hide AtMostRatio;
    }
  }

  /** Without a previous frame to compare with, all of it counts as changed. */
  function RawDamage(hasPrevious: bool, size: Size, raw: Rect): Rect {
    if hasPrevious then raw else Join(OfInts(FrameRect(size)), raw)
  }

  class FrameDamage {
    var additionalDamage: IRect
    var damage: Option<Damage>
    var hasPrevious: bool
    var horizontal: int
    var vertical: int
    var ignoreDamage: bool

    constructor ()
      ensures additionalDamage == NOWHERE && damage == None && !hasPrevious
      ensures horizontal == vertical == 1 && !ignoreDamage
    {
      additionalDamage, damage, hasPrevious := NOWHERE, None, false;
      horizontal, vertical, ignoreDamage := 1, 1, false;
    }

    method SetPreviousLayerTree(present: bool)
      modifies `hasPrevious
      ensures hasPrevious == present
    {
      hasPrevious := present;
    }

    method AddAdditionalDamage(added: IRect)
      modifies `additionalDamage
      ensures additionalDamage == JoinI(old(additionalDamage), added)
    {
      additionalDamage := JoinI(additionalDamage, added);
    }

    method SetClipAlignment(h: int, v: int)
      modifies `horizontal, `vertical
      ensures horizontal == h && vertical == v
    {
      horizontal, vertical := h, v;
    }

    /** The clip for this frame, once the tree diff has run on `context`. */
    method ComputeClipRect(context: Diff.DiffContext) returns (clip: IRect)
      requires AlignmentOk(horizontal, vertical)
      modifies `damage
      ensures damage == Some(DamageOf(context.damage, context.readbacks, additionalDamage, context.size,
                                      horizontal, vertical))
      ensures clip == damage.value.buffer
    {
      var result := context.ComputeDamage(additionalDamage, horizontal, vertical);
      damage := Some(result);
      clip := result.buffer;
    }

    method Reset()
      modifies `ignoreDamage
      ensures ignoreDamage
    {
      ignoreDamage := true;
    }

    function GetFrameDamage(): Option<IRect>
      reads this
    {
      if damage.Some? then Some(damage.value.frame) else None
    }

    function GetBufferDamage(): Option<IRect>
      reads this
    {
      if damage.Some? && !ignoreDamage then Some(damage.value.buffer) else None
    }
  }

  // ----- surfaces -----

  type Image = (int, int) -> nat

  /** A back buffer; `existing` is where it lags behind the frame shown, or nothing known. */
  datatype BackBuffer = BackBuffer(image: Image, existing: Option<IRect>)

  datatype Surface = Surface(size: Size, shown: Option<Image>, buffers: seq<BackBuffer>)

  /** A frame to show: what it looks like, the buffer it goes to, and what the tree diff found. */
  datatype Frame = Frame(
    image: Image, target: nat, raw: Rect, readbacks: seq<Readback>,
    horizontal: int, vertical: int, forceFull: bool, impeller: bool)

  datatype Painting = Painting(clip: Option<IRect>, frameDamage: IRect)

  /** Compares with the frame shown only when the buffer's lag is known. */
  predicate Compares(s: Surface, f: Frame)
    requires f.target < |s.buffers|
  {
    s.buffers[f.target].existing.Some? && !f.forceFull
  }

  function FrameDamages(s: Surface, f: Frame): Damage
    requires f.target < |s.buffers| && AlignmentOk(f.horizontal, f.vertical)
  {
    if Compares(s, f) then
      DamageOf(RawDamage(s.shown.Some?, s.size, f.raw), f.readbacks,
               JoinI(NOWHERE, s.buffers[f.target].existing.value), s.size, f.horizontal, f.vertical)
    else
      DamageOf(RawDamage(false, s.size, f.raw), f.readbacks, NOWHERE, s.size, 1, 1)
  }

  function Painted(s: Surface, f: Frame): Painting
    requires f.target < |s.buffers| && AlignmentOk(f.horizontal, f.vertical)
  {
    var damage := FrameDamages(s, f);
    var clip := if f.impeller && !ShouldPerformPartialRepaint(Some(damage.buffer), s.size)
                then None else Some(damage.buffer);
    Painting(clip, damage.frame)
  }

  /** Rastering one frame: the clip to paint in, and the damage reported for the other buffers. */
  method Raster(s: Surface, f: Frame, context: Diff.DiffContext)
    returns (clip: Option<IRect>, frameDamage: Option<IRect>)
    requires f.target < |s.buffers| && AlignmentOk(f.horizontal, f.vertical)
    // The tree diff has run: against the frame shown if there is one to compare with.
    requires context.size == s.size && context.readbacks == f.readbacks
    requires context.damage == RawDamage(Compares(s, f) && s.shown.Some?, s.size, f.raw)
    ensures clip == Painted(s, f).clip && frameDamage == Some(Painted(s, f).frameDamage)
  {
    var damage := new FrameDamage();
    var existing := s.buffers[f.target].existing;
    if existing.Some? && !f.forceFull {
      damage.SetPreviousLayerTree(s.shown.Some?);
      damage.AddAdditionalDamage(existing.value);
      damage.SetClipAlignment(f.horizontal, f.vertical);
    }
    var rect := damage.ComputeClipRect(context);
    clip := Some(rect);
    if f.impeller && !ShouldPerformPartialRepaint(clip, s.size) {
      clip := None;
      // Only the buffer damage is withdrawn; the frame damage is still reported.
      damage.Reset();
      assert damage.GetBufferDamage() == None;
    }
    frameDamage := damage.GetFrameDamage();
  }

  function Repainted(old_: Image, new_: Image, clip: Option<IRect>): Image {
    (x, y) => if clip.None? || Holds(clip.value, x, y) then new_(x, y) else old_(x, y)
  }

  function Lagging(existing: Option<IRect>, frameDamage: IRect): Option<IRect> {
    if existing.Some? then Some(JoinI(existing.value, frameDamage)) else None
  }

  /** The surface after a frame: one buffer painted, the others lagging by the frame damage. */
  function Presented(s: Surface, f: Frame): Surface
    requires f.target < |s.buffers| && AlignmentOk(f.horizontal, f.vertical)
  {
    var p := Painted(s, f);
    Surface(s.size, Some(f.image),
            seq(|s.buffers|, i requires 0 <= i < |s.buffers| =>
              if i == f.target then BackBuffer(Repainted(s.buffers[i].image, f.image, p.clip), Some(NOWHERE))
              else BackBuffer(s.buffers[i].image, Lagging(s.buffers[i].existing, p.frameDamage))))
  }

  // ----- safety -----

  ghost predicate SameOutside(size: Size, a: Image, b: Image, lag: IRect) {
    forall x, y :: Holds(FrameRect(size), x, y) && !Holds(lag, x, y) ==> a(x, y) == b(x, y)
  }

  ghost predicate Shows(size: Size, a: Image, b: Image) {
    forall x, y :: Holds(FrameRect(size), x, y) ==> a(x, y) == b(x, y)
  }

  /** Where a buffer's lag is known, it covers every pixel that differs from the frame shown. */
  ghost predicate LagsKnown(s: Surface) {
    forall i :: 0 <= i < |s.buffers| && s.buffers[i].existing.Some? ==>
      s.shown.Some? && SameOutside(s.size, s.buffers[i].image, s.shown.value, s.buffers[i].existing.value)
  }

  /** The tree diff covers every pixel that changes from the frame shown. */
  ghost predicate DiffCovers(s: Surface, f: Frame) {
    s.shown.Some? ==>
      forall x, y :: Holds(FrameRect(s.size), x, y) && s.shown.value(x, y) != f.image(x, y) ==> Touches(f.raw, x, y)
  }

  ghost predicate Acceptable(s: Surface, f: Frame) {
    f.target < |s.buffers| && AlignmentOk(f.horizontal, f.vertical) && DiffCovers(s, f)
  }

  lemma JoinHolds(a: IRect, b: IRect, x: int, y: int)
    ensures Holds(a, x, y) || Holds(b, x, y) ==> Holds(JoinI(a, b), x, y)
  {
  }

  lemma WholeFrameTouched(size: Size, raw: Rect, x: int, y: int)
    requires Holds(FrameRect(size), x, y)
    ensures Touches(RawDamage(false, size, raw), x, y)
  {
    HeldTouches(FrameRect(size), x, y);
    JoinTouches(OfInts(FrameRect(size)), raw, x, y);
  }

  /** At one pixel: reported where it changes, painted where it changes or lagged. */
  lemma PixelCovered(s: Surface, f: Frame, x: int, y: int)
    requires LagsKnown(s) && Acceptable(s, f) && Holds(FrameRect(s.size), x, y)
    ensures var damage := FrameDamages(s, f);
            && (s.shown.Some? && s.shown.value(x, y) != f.image(x, y) ==> Holds(damage.frame, x, y))
            && (s.buffers[f.target].image(x, y) != f.image(x, y) ==> Holds(damage.buffer, x, y))
  {
    hide DamageOf;
    hide RawDamage;
    WholeFrameTouched(s.size, f.raw, x, y);
    var target := s.buffers[f.target];
    if Compares(s, f) {
      assert SameOutside(s.size, target.image, s.shown.value, target.existing.value);
      JoinHolds(NOWHERE, target.existing.value, x, y);
      var raw := RawDamage(true, s.size, f.raw);
      assert raw == f.raw by { ComparedRaw(s.size, f.raw); }
      DamageCovers(raw, f.readbacks, JoinI(NOWHERE, target.existing.value), s.size, f.horizontal, f.vertical, x, y);
    } else {
      DamageCovers(RawDamage(false, s.size, f.raw), f.readbacks, NOWHERE, s.size, 1, 1, x, y);
    }
  }

  lemma ComparedRaw(size: Size, raw: Rect)
    ensures RawDamage(true, size, raw) == raw
  {
  }

  /** One frame: the painted buffer shows all of it, and every known lag stays right. */
  lemma FrameIsSafe(s: Surface, f: Frame)
    requires LagsKnown(s) && Acceptable(s, f)
    ensures var after := Presented(s, f);
            Shows(s.size, after.buffers[f.target].image, f.image) && LagsKnown(after)
  {
    hide FrameDamages;
    hide ShouldPerformPartialRepaint;
    var after, p := Presented(s, f), Painted(s, f);
    forall x, y | Holds(FrameRect(s.size), x, y)
      ensures after.buffers[f.target].image(x, y) == f.image(x, y)
    {
      PixelCovered(s, f, x, y);
    }
    forall i | 0 <= i < |after.buffers| && after.buffers[i].existing.Some?
      ensures SameOutside(s.size, after.buffers[i].image, f.image, after.buffers[i].existing.value)
    {
      forall x, y | Holds(FrameRect(s.size), x, y) && !Holds(after.buffers[i].existing.value, x, y)
        ensures after.buffers[i].image(x, y) == f.image(x, y)
      {
        PixelCovered(s, f, x, y);
        if i != f.target {
          JoinHolds(s.buffers[i].existing.value, p.frameDamage, x, y);
          assert SameOutside(s.size, s.buffers[i].image, s.shown.value, s.buffers[i].existing.value);
        }
      }
    }
  }

  /**
   A frame compared with the one shown: the damage is that of the changes found and of the buffer's
   lag alone, and outside it the buffer stays as it is unless all of it is painted.
   */
  lemma PaintsNoMore(s: Surface, f: Frame)
    requires f.target < |s.buffers| && AlignmentOk(f.horizontal, f.vertical)
    requires s.shown.Some? && s.buffers[f.target].existing.Some? && !f.forceFull
    ensures var target, p := s.buffers[f.target], Painted(s, f);
            var lag := if IsEmptyI(target.existing.value) then NOWHERE else target.existing.value;
            var damage := DamageOf(f.raw, f.readbacks, lag, s.size, f.horizontal, f.vertical);
            && p.frameDamage == damage.frame
            && (p.clip == None <==> f.impeller && !ShouldPerformPartialRepaint(Some(damage.buffer), s.size))
            && (p.clip.Some? ==> p.clip.value == damage.buffer)
            && (p.clip.Some? ==>
                  forall x, y :: !Holds(damage.buffer, x, y) ==>
                    Presented(s, f).buffers[f.target].image(x, y) == target.image(x, y))
  {
    hide DamageOf, ShouldPerformPartialRepaint;
    ComparedRaw(s.size, f.raw);
  }

  /**
   After a frame the painted buffer lags nowhere, and a buffer whose lag was known lags by that and the
   frame damage, as little as that allows; what is not known stays so.
   */
  lemma LagsAfter(s: Surface, f: Frame, i: nat)
    requires f.target < |s.buffers| && AlignmentOk(f.horizontal, f.vertical) && i < |s.buffers|
    ensures var before, after := s.buffers[i], Presented(s, f).buffers[i];
            && Presented(s, f).shown == Some(f.image)
            && (i == f.target ==> after.existing == Some(NOWHERE))
            && (i != f.target ==> after.image == before.image && (after.existing.Some? <==> before.existing.Some?))
            && (i != f.target && after.existing.Some? ==>
                  forall x, y :: Holds(before.existing.value, x, y) || Holds(Painted(s, f).frameDamage, x, y) ==>
                    Holds(after.existing.value, x, y))
            && (i != f.target && after.existing.Some? ==>
                  forall around: IRect ::
                    (IsEmptyI(before.existing.value) || Within(before.existing.value, around)) &&
                    (IsEmptyI(Painted(s, f).frameDamage) || Within(Painted(s, f).frameDamage, around)) ==>
                      IsEmptyI(after.existing.value) || Within(after.existing.value, around))
  {
    hide FrameDamages, ShouldPerformPartialRepaint;
  }

  /** When nothing has changed and the buffer is up to date, no pixel of the frame is painted. */
  lemma IdleFrame(s: Surface, f: Frame, x: int, y: int)
    requires f.target < |s.buffers| && AlignmentOk(f.horizontal, f.vertical)
    requires s.shown.Some? && s.buffers[f.target].existing == Some(NOWHERE) && !f.forceFull
    requires f.raw == EMPTY && f.readbacks == [] && Holds(FrameRect(s.size), x, y)
    ensures Painted(s, f).clip.Some? && !Holds(Painted(s, f).clip.value, x, y)
    ensures Painted(s, f).frameDamage == NOWHERE
  {
    ComparedRaw(s.size, f.raw);
    var damage := DamageOf(EMPTY, [], NOWHERE, s.size, f.horizontal, f.vertical);
    NoDamage(s.size, f.horizontal, f.vertical);
    PartialRepaintExactly(Some(damage.buffer), s.size);
    hide DamageOf, ShouldPerformPartialRepaint, AlignmentOk;
  }

  lemma NoDamage(size: Size, horizontal: int, vertical: int)
    requires AlignmentOk(horizontal, vertical)
    ensures DamageOf(EMPTY, [], NOWHERE, size, horizontal, vertical) == Damage(NOWHERE, NOWHERE)
  {
    assert Settled(EMPTY, size, horizontal, vertical) == NOWHERE;
  }

  // ----- runs -----

  ghost function Ran(s: Surface, frames: seq<Frame>): Surface
    requires Runs(s, frames)
    decreases |frames|
  {
    if frames == [] then s else Ran(Presented(s, frames[0]), frames[1..])
  }

  /** Every frame of the run goes to some buffer and comes with a diff that covers its changes. */
  ghost predicate Runs(s: Surface, frames: seq<Frame>)
    decreases |frames|
  {
    frames == [] || (Acceptable(s, frames[0]) && Runs(Presented(s, frames[0]), frames[1..]))
  }

  lemma {:induction false} RunPrefix(s: Surface, frames: seq<Frame>, k: nat)
    requires Runs(s, frames) && k <= |frames|
    ensures Runs(s, frames[..k])
    decreases k
  {
    if k > 0 {
      RunPrefix(Presented(s, frames[0]), frames[1..], k - 1);
      assert frames[..k][1..] == frames[1..][..k - 1];
    }
  }

  /** After every frame of every run, the buffer it was painted into shows exactly that frame. */
  lemma {:induction false} EveryFrameShows(s: Surface, frames: seq<Frame>, k: nat)
    requires LagsKnown(s) && Runs(s, frames) && k < |frames|
    ensures Runs(s, frames[..k + 1])
    ensures var after := Ran(s, frames[..k + 1]);
            && frames[k].target < |after.buffers|
            && Shows(s.size, after.buffers[frames[k].target].image, frames[k].image)
            && LagsKnown(after)
    decreases k
  {
    hide Presented;
    hide LagsKnown;
    hide Shows;
    RunPrefix(s, frames, k + 1);
    var next := Presented(s, frames[0]);
    FrameIsSafe(s, frames[0]);
    PresentedShape(s, frames[0]);
    assert frames[..k + 1][1..] == frames[1..][..k];
    if k == 0 {
      assert Ran(s, frames[..1]) == Ran(next, []);
    } else {
      EveryFrameShows(next, frames[1..], k - 1);
    }
  }

  lemma PresentedShape(s: Surface, f: Frame)
    requires Acceptable(s, f)
    ensures Presented(s, f).size == s.size && |Presented(s, f).buffers| == |s.buffers|
  {
  }

  /** A surface about which nothing is known is a safe place to start. */
  lemma UnknownIsSafe(s: Surface)
    requires forall i :: 0 <= i < |s.buffers| ==> s.buffers[i].existing == None
    ensures LagsKnown(s)
  {
  }

  /** A diff that reports the whole frame is acceptable for any two frames. */
  lemma WholeFrameAcceptable(s: Surface, f: Frame)
    requires f.target < |s.buffers| && AlignmentOk(f.horizontal, f.vertical) && f.raw == OfInts(FrameRect(s.size))
    ensures Acceptable(s, f)
  {
    if s.shown.Some? {
      forall x, y | Holds(FrameRect(s.size), x, y) ensures Touches(f.raw, x, y) {
        HeldTouches(FrameRect(s.size), x, y);
      }
    }
  }
}
