/**
 What a caller's draw leaves behind: one mark in its place, under the transform and
 the clips in force, with the caller's paint on every attribute the operation
 honours, through recording and playing back.
 */
module Marks {
  import opened Records
  import opened PaintRules
  import opened Player
  import opened Canvas
  import opened Builder
  import opened LayerFading
  import opened Pipeline

  /** Whatever follows, the marks made so far stay as they are. */
  lemma {:induction false} MarksStay(probe: Probe, calls: seq<CanvasCall>, n: nat)
    requires n <= |calls|
    ensures PerformAll(probe, calls[..n]).marks <= PerformAll(probe, calls).marks
    decreases |calls|
  {
    hide Performed;
    if n == |calls| {
      assert calls[..n] == calls;
    } else {
      var last := |calls| - 1;
      MarksStay(probe, calls[..last], n);
      assert calls[..last][..n] == calls[..n];
      MarksGrow(probe, PerformAll(probe, calls[..last]), calls[last]);
    }
  }

  lemma MarksEnd(probe: Probe, calls: seq<CanvasCall>, n: nat)
    requires n < |calls|
    ensures Performed(probe, PerformAll(probe, calls[..n]), calls[n]).marks <= Ended(probe, calls).marks
  {
    hide Performed, RestoredTo;
    assert calls[..n + 1][..n] == calls[..n];
    assert PerformAll(probe, calls[..n + 1]) == Performed(probe, PerformAll(probe, calls[..n]), calls[n]);
    MarksStay(probe, calls, n + 1);
    RestoredToGrows(PerformAll(probe, calls), 1);
  }

  /** A draw's mark: what is drawn, where, and how, and whether it is kept. */
  ghost predicate DrawnAs(m: CanvasMark, probe: Probe, before: Canvas, draw: DrawCall)
    requires before.levels != [] && draw.Painted?
  {
    && m.mark.Drawn? && m.mark.drawing == draw.drawing && m.mark.geometry == Top(before).geometry
    && Honours(m.mark.paint, before.paint, draw.paint, draw.flags)
    && (m.kept <==> PaintResult(Top(before).dead, m.mark.paint, draw.flags) != NoEffect
                    && probe.isVisible(Top(before).track, draw.drawing, m.mark.paint))
  }

  lemma DrawMarks(probe: Probe, before: Canvas, draw: DrawCall)
    requires before.levels != [] && draw.Painted?
    ensures var marks := Performed(probe, before, DoDraw(draw)).marks;
            && |marks| == |before.marks| + 1 && before.marks <= marks
            && DrawnAs(marks[|before.marks|], probe, before, draw)
  {
    AdoptedHonours(before.paint, draw.paint, draw.flags);
    hide Adopted, Honours, PaintResult, Stale, TakesOpacity, Requested;
  }

  /** Of any calls, each draw with a paint leaves its own mark, in the order of the calls. */
  lemma EveryDrawMarks(probe: Probe, calls: seq<CanvasCall>, n: nat)
    requires n < |calls| && calls[n].DoDraw? && calls[n].draw.Painted?
    ensures var before, marks := PerformAll(probe, calls[..n]), Ended(probe, calls).marks;
            && |before.marks| < |marks| && before.marks == marks[..|before.marks|]
            && DrawnAs(marks[|before.marks|], probe, before, calls[n].draw)
  {
    hide Performed, RestoredTo, DrawnAs;
    DrawMarks(probe, PerformAll(probe, calls[..n]), calls[n].draw);
    MarksEnd(probe, calls, n);
  }

  /** A layer's mark, under a paint of its own or none. */
  ghost predicate OpenedAs(m: CanvasMark, before: Canvas, layer: nat, paint: Option<Paint>)
    requires before.levels != []
  {
    && m.mark.LayerOpened? && m.mark.layer == layer && m.mark.withPaint == paint.Some?
    && m.mark.geometry == Top(before).geometry
    && if paint.Some? then Honours(m.mark.paint, before.paint, paint.value, SAVE_LAYER_WITH_PAINT)
       else m.mark.paint == before.paint
  }

  lemma LayerMarks(probe: Probe, before: Canvas, layer: nat, bounds: Option<nat>, paint: Option<Paint>)
    requires before.levels != []
    ensures var marks := Performed(probe, before, DoSaveLayer(layer, bounds, paint)).marks;
            && |marks| == |before.marks| + 1 && before.marks <= marks
            && OpenedAs(marks[|before.marks|], before, layer, paint)
  {
    if paint.Some? {
      AdoptedHonours(before.paint, paint.value, SAVE_LAYER_WITH_PAINT);
    }
    hide Adopted, Honours, PaintResult, Stale, Requested, LayerTrack, OpacityCompatible;
  }

  /** And so does each layer. */
  lemma EveryLayerMarks(probe: Probe, calls: seq<CanvasCall>, n: nat)
    requires n < |calls| && calls[n].DoSaveLayer?
    ensures var before, marks := PerformAll(probe, calls[..n]), Ended(probe, calls).marks;
            && |before.marks| < |marks| && before.marks == marks[..|before.marks|]
            && OpenedAs(marks[|before.marks|], before, calls[n].layer, calls[n].paint)
  {
    hide Performed, RestoredTo, OpenedAs;
    LayerMarks(probe, PerformAll(probe, calls[..n]), calls[n].layer, calls[n].bounds, calls[n].paint);
    MarksEnd(probe, calls, n);
  }

  /** The paint in force changes only by what a call's own paint is honoured for. */
  lemma PaintInForce(probe: Probe, calls: seq<CanvasCall>, n: nat)
    requires n < |calls|
    ensures PerformAll(probe, []).paint == DEFAULT_PAINT
    ensures var before, after := PerformAll(probe, calls[..n]).paint, PerformAll(probe, calls[..n + 1]).paint;
            match calls[n]
            case DoDraw(Painted(_, flags, paint, _)) => Honours(after, before, paint, flags)
            case DoSaveLayer(_, _, Some(paint)) => Honours(after, before, paint, SAVE_LAYER_WITH_PAINT)
            case _ => after == before
  {
    var c := PerformAll(probe, calls[..n]);
    assert calls[..n + 1][..n] == calls[..n];
    assert PerformAll(probe, calls[..n + 1]) == Performed(probe, c, calls[n]);
    hide PerformAll, Adopted, Honours, PaintResult, Stale, TakesOpacity, Requested, Transformed, LayerTrack, Restored,
         RestoredTo;
    match calls[n]
    case DoDraw(Painted(_, flags, paint, _)) => AdoptedHonours(c.paint, paint, flags);
    case DoSaveLayer(_, _, Some(paint)) => AdoptedHonours(c.paint, paint, SAVE_LAYER_WITH_PAINT);
    case DoRestore => PaintStays(c);
    case DoRestoreToCount(count) => PaintStaysTo(c, count);
    case _ =>
  }

  lemma PaintStays(c: Canvas)
    requires c.levels != []
    ensures Restored(c).paint == c.paint
  {
    hide Distributes, Stale;
  }

  lemma {:induction false} PaintStaysTo(c: Canvas, count: int)
    requires c.levels != []
    ensures RestoredTo(c, count).paint == c.paint
    decreases |c.levels|
  {
    hide Restored;
    if count < |c.levels| && |c.levels| > 1 {
      PaintStays(c);
      RestoredShrinks(c);
      PaintStaysTo(Restored(c), count);
    }
  }

  /** Kept marks stand in the order they were made. */
  lemma {:induction false} KeptAt(marks: seq<CanvasMark>, at: nat)
    requires at < |marks| && marks[at].kept
    ensures |KeptMarks(marks[..at])| < |KeptMarks(marks)| && KeptMarks(marks)[|KeptMarks(marks[..at])|] == marks[at]
    decreases |marks|
  {
    var n := |marks| - 1;
    if at < n {
      KeptAt(marks[..n], at);
      assert marks[..n][..at] == marks[..at];
    }
  }

  /**
   What the receiver sees of a kept draw: the caller's drawing under the caller's transform and
   clips, painted as the caller said on all that the operation honours, the shader aside where a
   stale one stood.
   */
  lemma EveryKeptDrawSeen(probe: Probe, calls: seq<CanvasCall>, seen: seq<Mark>, n: nat)
    requires SeenAsMeant(seen, Ended(probe, calls).marks)
    requires n < |calls| && calls[n].DoDraw? && calls[n].draw.Painted?
    requires var before := PerformAll(probe, calls[..n]);
             |before.marks| < |Ended(probe, calls).marks| && Ended(probe, calls).marks[|before.marks|].kept
    ensures var before, marks, draw := PerformAll(probe, calls[..n]), Ended(probe, calls).marks, calls[n].draw;
            var at := |KeptMarks(before.marks)|;
            && at < |seen| && seen[at].Drawn?
            && seen[at].drawing == draw.drawing && seen[at].geometry == Top(before).geometry
            && (exists source :: Honours(seen[at].paint.(source := source), before.paint, draw.paint, draw.flags))
            && (!marks[|before.marks|].stale ==> Honours(seen[at].paint, before.paint, draw.paint, draw.flags))
  {
    var before, marks := PerformAll(probe, calls[..n]), Ended(probe, calls).marks;
    EveryDrawMarks(probe, calls, n);
    hide PerformAll, RestoredTo, Honours, PaintResult, KeptMarks, HonoursColor;
    KeptAt(marks, |before.marks|);
    var s, m := seen[|KeptMarks(before.marks)|], marks[|before.marks|];
    assert MarkAgrees(s, m);
    assert s.paint.(source := m.mark.paint.source) == m.mark.paint;
  }

  // ----- the operations of a group -----

  /**
   A kept draw counts once in the group it is in, with its own answer, and a dropped one not at all; so
   a group of one kept draw distributes an opacity exactly if that draw takes it, and no group of two.
   */
  lemma DrawCounted(probe: Probe, before: Canvas, draw: DrawCall)
    requires before.levels != []
    ensures var after := Performed(probe, before, DoDraw(draw));
            var m := after.marks[|after.marks| - 1];
            && after.levels == SetTop(before, Top(after)).levels
            && Top(after) == Top(before).(tally := Top(after).tally)
            && m.mark.Drawn?
            && (m.kept && draw.Painted? ==>
                  Top(after).tally == Top(before).tally + [TakesOpacity(draw.rule, m.mark.paint)])
            && (m.kept && draw.Unpainted? ==> Top(after).tally == Top(before).tally + [draw.compatible])
            && (!m.kept ==> Top(after).tally == Top(before).tally)
  {
    hide Adopted, PaintResult, Stale, TakesOpacity, Requested, Judged;
  }

  /**
   A kept layer counts once in the group it is in, and what is inside it is a group of its own: one that
   may distribute if the layer's paint takes an opacity and is not filtered, and never otherwise.
   */
  lemma LayerCounted(c: Canvas, layer: nat, bounds: Option<nat>, withPaint: bool)
    requires c.levels != [] && PaintResult(Top(c).dead, c.paint, LayerFlags(withPaint)) != NoEffect
    ensures var after, n := LayerSaved(c, layer, bounds, withPaint), |c.levels| - 1;
            var p := c.paint;
            var takes := withPaint ==> p.blend == SrcOver && p.colorFilter == None && !p.invertColors;
            && |after.levels| == n + 2
            && after.levels[n].tally == Top(c).tally + [takes]
            && after.levels[n + 1].kind == KeptLayer
            && after.levels[n + 1].tally == if takes && (withPaint ==> p.imageFilter == None) then [] else [false]
  {
    hide PaintResult, Stale, LayerTrack;
  }

  /** Closing a layer says whether its own group distributes; the operations of a plain save are the outer group's. */
  lemma RestoreCounted(c: Canvas)
    requires |c.levels| > 1
    ensures var after, n := Restored(c), |c.levels| - 1;
            var inner, outer := c.levels[n], c.levels[n - 1];
            && |after.levels| == n
            && Top(after).tally == (if inner.kind == KeptLayer then outer.tally else outer.tally + inner.tally)
            && (inner.kind == PlainLevel ==> after.marks == c.marks)
            && (inner.kind != PlainLevel ==>
                  && |after.marks| == |c.marks| + 1
                  && var m := after.marks[|c.marks|];
                     m.mark == LayerClosed(inner.tally in {[], [true]}) && (m.kept <==> inner.kind == KeptLayer))
  {
    DistributesExactly(c.levels[|c.levels| - 1].tally);
    hide Stale, Distributes;
  }

  // ----- levels -----

  /** What is in force on a level. */
  datatype Force = Force(geometry: Geometry, track: Track, dead: bool)

  function ForceOf(level: CanvasLevel): Force { Force(level.geometry, level.track, level.dead) }

  function Forces(c: Canvas): (f: seq<Force>)
    ensures |f| == |c.levels| && forall i :: 0 <= i < |f| ==> f[i] == ForceOf(c.levels[i])
  {
    seq(|c.levels|, i requires 0 <= i < |c.levels| => ForceOf(c.levels[i]))
  }

  /**
   What each call does to what is in force: saves and layers open a level with what is in force,
   restores bring back exactly what was there, and transforms and clips change the innermost
   level, a clip being given under the transform of the time.  A level is dead from the clip that
   empties it on, or because its layer is judged to have no effect.
   */
  lemma ForcesAfter(probe: Probe, c: Canvas, call: CanvasCall)
    requires c.levels != []
    ensures var before, after, n := Forces(c), Forces(Performed(probe, c, call)), |c.levels| - 1;
            var top := before[n];
            match call
            case DoSave => after == before + [top]
            case DoSaveLayer(_, bounds, paint) =>
              && |after| == n + 2 && after[..n + 1] == before && after[n + 1].geometry == top.geometry
              && LayerForce(top, after[n + 1], bounds, paint)
              && (after[n + 1].dead <==>
                    PaintResult(top.dead, Performed(probe, c, call).paint, LayerFlags(paint.Some?)) == NoEffect)
            case DoRestore => after == if n == 0 then before else before[..n]
            case DoRestoreToCount(count) =>
              after == if count > n then before else before[..if count < 1 then 1 else count]
            case DoTransform(t) =>
              after == before[n := Force(Geometry(Transformed(top.geometry.ctm, t), top.geometry.clips),
                                         Track(Transformed(top.track.ctm, t), top.track.clips), top.dead)]
            case DoClip(clip) =>
              var track := Track(top.track.ctm, top.track.clips + [ShapeClip(clip, top.track.ctm)]);
              after == before[n := Force(Geometry(top.geometry.ctm, top.geometry.clips + [(clip, top.geometry.ctm)]), track,
                                         top.dead || probe.isEmpty(track))]
            case DoDraw(_) => after == before
  {
    hide Adopt, PaintResult, TakesOpacity, Judged, Transformed, LayerSaved, LayerForce, Restored, RestoredTo, Marked;
    match call
    case DoSave =>
    case DoRestore => RestoredForces(c);
    case DoRestoreToCount(count) => RestoredToForces(c, count);
    case DoSaveLayer(layer, bounds, paint) =>
      if paint.Some? {
        LayerAdopts(c, paint.value);
        LayerForces(Adopt(c, paint.value, SAVE_LAYER_WITH_PAINT), layer, bounds, paint);
      } else {
        LayerForces(c, layer, bounds, paint);
      }
    case DoTransform(t) => SetForces(c, Top(Transforming(c, t)));
    case DoClip(clip) => SetForces(c, Top(Clipped(probe, c, clip)));
    case DoDraw(draw) =>
      DrawForces(probe, c, draw);
      hide Drew;
  }

  lemma SetForces(c: Canvas, level: CanvasLevel)
    requires c.levels != []
    ensures Forces(SetTop(c, level)) == Forces(c)[|c.levels| - 1 := ForceOf(level)]
  {
  }

  lemma LayerAdopts(c: Canvas, paint: Paint)
    ensures var a := Adopt(c, paint, SAVE_LAYER_WITH_PAINT);
            a.levels == c.levels && a.paint.imageFilter == paint.imageFilter
  {
    AdoptedHonours(c.paint, paint, SAVE_LAYER_WITH_PAINT);
    hide Adopted, Requested;
  }

  lemma DrawForces(probe: Probe, c: Canvas, draw: DrawCall)
    requires c.levels != []
    ensures Forces(Drew(probe, c, draw)) == Forces(c)
  {
    hide Adopted, PaintResult, Stale, TakesOpacity, Requested, Judged;
  }

  /** The bounds of a layer that is not dropped; under an image filter they replace the clip. */
  predicate LayerForce(top: Force, inner: Force, bounds: Option<nat>, paint: Option<Paint>) {
    var clips := inner.track.clips;
    && (top.dead ==> inner.dead) && inner.track.ctm == top.track.ctm
    && if inner.dead then clips == top.track.clips
       else if paint.Some? && paint.value.imageFilter.Some? then
         clips == top.track.clips + [ResetBounds(bounds, top.track.ctm)]
       else if bounds.Some? then clips == top.track.clips + [LayerBounds(bounds.value, top.track.ctm)]
       else clips == top.track.clips
  }

  lemma LayerForces(c: Canvas, layer: nat, bounds: Option<nat>, paint: Option<Paint>)
    requires c.levels != [] && (paint.Some? ==> c.paint.imageFilter == paint.value.imageFilter)
    ensures var before, made, n := Forces(c), LayerSaved(c, layer, bounds, paint.Some?), |c.levels| - 1;
            var after := Forces(made);
            && |after| == n + 2 && after[..n + 1] == before && after[n + 1].geometry == before[n].geometry
            && LayerForce(before[n], after[n + 1], bounds, paint) && made.paint == c.paint
            && (after[n + 1].dead <==> PaintResult(before[n].dead, c.paint, LayerFlags(paint.Some?)) == NoEffect)
  {
    DeadIsNop(c.paint, LayerFlags(paint.Some?));
    hide PaintResult, Stale, OpacityCompatible;
  }

  lemma DeadIsNop(paint: Paint, flags: OpFlags)
    ensures PaintResult(true, paint, flags) == NoEffect
  {
  }

  lemma RestoredForces(c: Canvas)
    requires c.levels != []
    ensures Forces(Restored(c)) == if |c.levels| == 1 then Forces(c) else Forces(c)[..|c.levels| - 1]
  {
    hide Stale, Distributes;
  }

  lemma {:induction false} RestoredToForces(c: Canvas, count: int)
    requires c.levels != []
    ensures Forces(RestoredTo(c, count)) ==
            if count >= |c.levels| then Forces(c) else Forces(c)[..if count < 1 then 1 else count]
    decreases |c.levels|
  {
    hide Restored;
    if count < |c.levels| && |c.levels| > 1 {
      RestoredForces(c);
      RestoredShrinks(c);
      RestoredToForces(Restored(c), count);
    }
  }
}
