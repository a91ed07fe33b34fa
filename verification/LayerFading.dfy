/**
 The opacity flag of a layer record (display_list/dl_builder.cc, patched by `Restore`;
 display_list/skia/dl_sk_dispatcher.cc, consumed by `saveLayer`).

 A receiver that finds the flag set makes no layer: it draws the layer's content
 straight onto the surface below, faded by the alpha of the layer's paint.  For every
 kept layer and any calls inside it, that shows what closing the layer shows.
 */
module LayerFading {
  import opened Records
  import opened PaintRules
  import opened Player
  import opened Canvas
  import opened Blend
  import opened Pixels
  import opened Fading
  import Bits

  // ----- the inside of a layer, as a canvas of its own -----

  /** The levels from `b` on and the marks from `m` on; the layer's level is the root. */
  function Inner(c: Canvas, b: nat, m: nat): Canvas
    requires b < |c.levels| && m <= |c.marks|
  {
    c.(levels := [c.levels[b].(kind := PlainLevel)] + c.levels[b + 1..], marks := c.marks[m..])
  }

  function InnerCall(call: CanvasCall, b: nat): CanvasCall {
    match call
    case DoRestoreToCount(count) => DoRestoreToCount(count - b)
    case _ => call
  }

  /** A level as it is inside: the layer's own level is plain there. */
  function InnerLevel(c: Canvas, b: nat, level: CanvasLevel): CanvasLevel {
    if |c.levels| == b + 1 then level.(kind := PlainLevel) else level
  }

  lemma InnerTop(c: Canvas, b: nat, m: nat, level: CanvasLevel)
    requires b < |c.levels| && m <= |c.marks|
    ensures Top(Inner(c, b, m)) == InnerLevel(c, b, Top(c))
    ensures Inner(SetTop(c, level), b, m) == SetTop(Inner(c, b, m), InnerLevel(c, b, level))
  {
    var i, n := Inner(c, b, m), |c.levels| - 1;
    assert i.levels[|i.levels| - 1] == InnerLevel(c, b, c.levels[n]);
    var set_, other := Inner(SetTop(c, level), b, m).levels, SetTop(i, InnerLevel(c, b, level)).levels;
    assert |set_| == |other|;
    forall k | 0 <= k < |set_| ensures set_[k] == other[k] {
      assert k > 0 ==> set_[k] == SetTop(c, level).levels[b + k];
    }
  }

  lemma InnerPush(c: Canvas, b: nat, m: nat, level: CanvasLevel)
    requires b < |c.levels| && m <= |c.marks|
    ensures Inner(c.(levels := c.levels + [level]), b, m) == Inner(c, b, m).(levels := Inner(c, b, m).levels + [level])
  {
    var levels := c.levels + [level];
    assert levels[b] == c.levels[b] && levels[b + 1..] == c.levels[b + 1..] + [level];
    Bits.Regroup([c.levels[b].(kind := PlainLevel)], c.levels[b + 1..], [level]);
  }

  lemma InnerPop(c: Canvas, b: nat, m: nat)
    requires b + 1 < |c.levels| && m <= |c.marks|
    ensures var n, i := |c.levels| - 1, Inner(c, b, m);
            && |i.levels| > 1 && Top(i) == Top(c)
            && Inner(c.(levels := c.levels[..n]), b, m) == i.(levels := i.levels[..|i.levels| - 1])
  {
    var n, i := |c.levels| - 1, Inner(c, b, m);
    InnerTop(c, b, m, Top(c));
    assert c.levels[..n][b + 1..] == c.levels[b + 1..n];
    assert i.levels[..|i.levels| - 1] == [c.levels[b].(kind := PlainLevel)] + c.levels[b + 1..n];
  }

  lemma InnerMark(c: Canvas, b: nat, m: nat, mark: Mark, kept: bool)
    requires b < |c.levels| && m <= |c.marks|
    ensures Inner(Marked(c, mark, kept), b, m) == Marked(Inner(c, b, m), mark, kept)
  {
    var x := CanvasMark(mark, kept, Stale(c.requests));
    assert (c.marks + [x])[m..] == c.marks[m..] + [x];
    hide Stale;
  }

  // ----- calls commute with looking inside -----

  lemma InnerRestored(c: Canvas, b: nat, m: nat)
    requires b + 1 < |c.levels| && m <= |c.marks|
    ensures |Restored(c).levels| == |c.levels| - 1 && m <= |Restored(c).marks|
    ensures Inner(Restored(c), b, m) == Restored(Inner(c, b, m))
  {
    hide Inner, Distributes, Stale;
    var n := |c.levels| - 1;
    var top, outer := Top(c), c.(levels := c.levels[..n]);
    var mark := LayerClosed(Distributes(top.tally));
    InnerPop(c, b, m);
    InnerMark(outer, b, m, mark, true);
    var summed := Top(outer).(tally := Top(outer).tally + top.tally);
    InnerTop(outer, b, m, summed);
    InnerMark(SetTop(outer, summed), b, m, mark, false);
  }

  lemma {:induction false} InnerRestoredTo(c: Canvas, b: nat, m: nat, count: int)
    requires b < |c.levels| && m <= |c.marks| && |RestoredTo(c, count).levels| > b
    ensures m <= |RestoredTo(c, count).marks|
    ensures Inner(RestoredTo(c, count), b, m) == RestoredTo(Inner(c, b, m), count - b)
    decreases |c.levels|
  {
    assert |Inner(c, b, m).levels| == |c.levels| - b;
    hide Restored;
    if count < |c.levels| && |c.levels| > 1 {
      RestoredShrinks(c);
      if |c.levels| == b + 1 {
        RestoredToShrinks(Restored(c), count);
      } else {
        InnerRestored(c, b, m);
        hide Inner;
        InnerRestoredTo(Restored(c), b, m, count);
      }
    }
  }

  lemma RestoredShrinks(c: Canvas)
    requires |c.levels| > 1
    ensures |Restored(c).levels| == |c.levels| - 1
  {
    hide Distributes, Stale;
  }

  lemma {:induction false} RestoredToShrinks(c: Canvas, count: int)
    requires c.levels != []
    ensures 1 <= |RestoredTo(c, count).levels| <= |c.levels|
    decreases |c.levels|
  {
    hide Restored;
    if count < |c.levels| && |c.levels| > 1 {
      RestoredShrinks(c);
      RestoredToShrinks(Restored(c), count);
    }
  }

  lemma InnerLayerSaved(c: Canvas, b: nat, m: nat, layer: nat, bounds: Option<nat>, withPaint: bool)
    requires b < |c.levels| && m <= |c.marks|
    ensures var after := LayerSaved(c, layer, bounds, withPaint);
            && |after.levels| > b && m <= |after.marks|
            && Inner(after, b, m) == LayerSaved(Inner(c, b, m), layer, bounds, withPaint)
  {
    hide Inner, PaintResult, LayerTrack, OpacityCompatible, Stale;
    var top := Top(c);
    InnerHeight(c, b, m);
    InnerTop(c, b, m, top);
    var mark := LayerOpened(layer, withPaint, c.paint, top.geometry);
    if PaintResult(top.dead, c.paint, LayerFlags(withPaint)) == NoEffect {
      InnerMark(c, b, m, mark, false);
      InnerPush(Marked(c, mark, false), b, m, top.(dead := true, kind := DroppedLayer, tally := []));
    } else {
      var compatible := !withPaint || OpacityCompatible(c.paint);
      var filtered := withPaint && c.paint.imageFilter.Some?;
      var t := Tally(c, compatible);
      InnerTop(c, b, m, top.(tally := top.tally + [compatible]));
      InnerMark(t, b, m, mark, true);
      InnerPush(Marked(t, mark, true), b, m,
                top.(track := LayerTrack(top.track, bounds, filtered), kind := KeptLayer,
                     tally := if compatible && !filtered then [] else [false]));
    }
  }

  lemma InnerDrawMarked(c: Canvas, b: nat, m: nat, drawing: nat, kept: bool, compatible: bool)
    requires b < |c.levels| && m <= |c.marks|
    ensures var after := DrawMarked(c, drawing, kept, compatible);
            && |after.levels| > b && m <= |after.marks|
            && Inner(after, b, m) == DrawMarked(Inner(c, b, m), drawing, kept, compatible)
  {
    hide Inner, Stale;
    var top := Top(c);
    InnerHeight(c, b, m);
    InnerTop(c, b, m, top);
    var mark := Drawn(drawing, c.paint, top.geometry);
    InnerMark(c, b, m, mark, kept);
    InnerTop(Marked(c, mark, kept), b, m, top.(tally := top.tally + [compatible]));
  }

  lemma InnerAdopt(c: Canvas, b: nat, m: nat, paint: Paint, flags: OpFlags)
    requires b < |c.levels| && m <= |c.marks|
    ensures Inner(Adopt(c, paint, flags), b, m) == Adopt(Inner(c, b, m), paint, flags)
  {
    hide Adopted, Requested;
  }

  lemma InnerPerformed(probe: Probe, c: Canvas, b: nat, m: nat, call: CanvasCall)
    requires b < |c.levels| && m <= |c.marks| && |Performed(probe, c, call).levels| > b >= 1
    ensures m <= |Performed(probe, c, call).marks|
    ensures Inner(Performed(probe, c, call), b, m) == Performed(probe, Inner(c, b, m), InnerCall(call, b))
  {
    hide Inner, PaintResult, Judged, DrawMarked, LayerSaved, TakesOpacity, Transformed;
    InnerTop(c, b, m, Top(c));
    InnerHeight(c, b, m);
    match call
    case DoSave => InnerPush(c, b, m, Top(c).(kind := PlainLevel, tally := []));
    case DoSaveLayer(layer, bounds, paint) =>
      if paint.Some? {
        InnerAdopt(c, b, m, paint.value, SAVE_LAYER_WITH_PAINT);
        InnerLayerSaved(Adopt(c, paint.value, SAVE_LAYER_WITH_PAINT), b, m, layer, bounds, true);
      } else {
        InnerLayerSaved(c, b, m, layer, bounds, false);
      }
    case DoRestore =>
      RestoredShrinks(c);
      InnerRestored(c, b, m);
    case DoRestoreToCount(count) => InnerRestoredTo(c, b, m, count);
    case DoTransform(t) => InnerTop(c, b, m, Top(Transforming(c, t)));
    case DoClip(clip) => InnerTop(c, b, m, Top(Clipped(probe, c, clip)));
    case DoDraw(Painted(drawing, flags, paint, rule)) =>
      InnerAdopt(c, b, m, paint, flags);
      var a := Adopt(c, paint, flags);
      InnerTop(a, b, m, Top(a));
      var kept := PaintResult(Top(a).dead, a.paint, flags) != NoEffect && probe.isVisible(Top(a).track, drawing, a.paint);
      InnerDrawMarked(a, b, m, drawing, kept, TakesOpacity(rule, a.paint));
    case DoDraw(Unpainted(drawing, judged, compatible)) =>
      var kept := Judged(Top(c).dead, judged) != NoEffect && probe.isVisible(Top(c).track, drawing, c.paint);
      InnerDrawMarked(c, b, m, drawing, kept, compatible);
  }

  lemma InnerHeight(c: Canvas, b: nat, m: nat)
    requires b < |c.levels| && m <= |c.marks|
    ensures |Inner(c, b, m).levels| == |c.levels| - b
    ensures Inner(c, b, m).paint == c.paint && Inner(c, b, m).requests == c.requests
  {
  }

  // ----- playing on top of other surfaces -----

  /** The kept marks played from some surfaces on. */
  function ShownOn(scene: Scene, start: seq<Surface>, marks: seq<CanvasMark>): seq<Surface> {
    if marks == [] then start else
    var before := ShownOn(scene, start, marks[..|marks| - 1]);
    var last := marks[|marks| - 1];
    if last.kept then Show(scene, before, last.mark) else before
  }

  lemma {:induction false} ShownSplit(scene: Scene, marks: seq<CanvasMark>, d: Pixel, m: nat)
    requires m <= |marks|
    ensures Shown(scene, marks, d, false) == ShownOn(scene, Shown(scene, marks[..m], d, false), marks[m..])
  {
    hide Show;
    if m == |marks| {
      assert marks[..m] == marks && marks[m..] == [];
    } else {
      var n := |marks| - 1;
      ShownSplit(scene, marks[..n], d, m);
      assert marks[..n][..m] == marks[..m] && marks[m..][..n - m] == marks[..n][m..] && marks[m..][n - m] == marks[n];
    }
  }

  /** What is played into a clear layer, standing on the layer's own surface. */
  function Lifted(under: seq<Surface>, base: Surface, flat: seq<Surface>): seq<Surface>
    requires flat != []
  {
    under + [base.(pixel := flat[0].pixel)] + flat[1..]
  }

  lemma ShowLifted(scene: Scene, under: seq<Surface>, base: Surface, flat: seq<Surface>, mark: Mark)
    requires flat != [] && (mark.LayerClosed? ==> |flat| > 1)
    ensures Show(scene, flat, mark) != []
    ensures Show(scene, Lifted(under, base, flat), mark) == Lifted(under, base, Show(scene, flat, mark))
  {
    hide DrawnOver, Closed;
    var lifted, n, u := Lifted(under, base, flat), |flat| - 1, |under|;
    assert forall k :: 1 <= k <= n ==> lifted[u + k] == flat[k];
    assert lifted[u].pixel == flat[0].pixel && |lifted| == u + n + 1;
    var a, b := Show(scene, lifted, mark), Lifted(under, base, Show(scene, flat, mark));
    assert |a| == |b|;
    forall k | 0 <= k < |a| ensures a[k] == b[k] {
    }
  }

  /** What a call may add to the marks. */
  ghost predicate Adds(c: Canvas, c': Canvas) {
    || c'.marks == c.marks
    || (&& c.levels != [] && |c'.marks| == |c.marks| + 1 && c'.marks[..|c.marks|] == c.marks
        && var x := c'.marks[|c.marks|];
           && (x.kept && x.mark.LayerClosed? ==> Layers(c.levels, KeptLayer) > 0)
           && (x.mark.Drawn? ==> x.mark.geometry == Top(c).geometry)
           && (x.mark.LayerOpened? ==> x.mark.geometry == Top(c).geometry))
  }

  lemma RestoredAdds(c: Canvas)
    requires c.levels != []
    ensures Adds(c, Restored(c))
  {
    hide Distributes, Stale;
    if |c.levels| > 1 {
      assert Top(c).kind == KeptLayer ==> Layers(c.levels, KeptLayer) > 0;
      hide Layers;
    }
  }

  lemma CallAdds(probe: Probe, c: Canvas, call: CanvasCall)
    requires c.levels != [] && !call.DoRestoreToCount?
    ensures Adds(c, Performed(probe, c, call))
  {
    hide Stale, PaintResult, Judged, TakesOpacity, Transformed, Adopted, Requested, Layers, Restored, OpacityCompatible,
         LayerTrack;
    if call.DoRestore? {
      RestoredAdds(c);
    }
  }

  // ----- the pixel outside the layer's clip -----

  ghost predicate AllOutside(scene: Scene, levels: seq<CanvasLevel>) {
    forall k :: 0 <= k < |levels| ==> !scene.inside(levels[k].geometry.clips)
  }

  ghost predicate ClipsShrink(scene: Scene) { forall clips, x :: scene.inside(clips + [x]) ==> scene.inside(clips) }

  lemma RestoredOutside(scene: Scene, c: Canvas)
    requires AllOutside(scene, c.levels) && c.levels != []
    ensures AllOutside(scene, Restored(c).levels)
  {
    hide Distributes, Stale;
  }

  lemma {:induction false} RestoredToOutside(scene: Scene, c: Canvas, count: int)
    requires AllOutside(scene, c.levels) && c.levels != []
    ensures AllOutside(scene, RestoredTo(c, count).levels)
    decreases |c.levels|
  {
    hide AllOutside, Restored;
    if count < |c.levels| && |c.levels| > 1 {
      RestoredShrinks(c);
      RestoredOutside(scene, c);
      RestoredToOutside(scene, Restored(c), count);
    }
  }

  lemma CallOutside(scene: Scene, probe: Probe, c: Canvas, call: CanvasCall)
    requires AllOutside(scene, c.levels) && c.levels != [] && ClipsShrink(scene)
    ensures AllOutside(scene, Performed(probe, c, call).levels)
  {
    hide Stale, PaintResult, Judged, TakesOpacity, Transformed, Adopted, Requested, Restored, RestoredTo, LayerTrack,
         OpacityCompatible;
    match call
    case DoRestore => RestoredOutside(scene, c);
    case DoRestoreToCount(count) => RestoredToOutside(scene, c, count);
    case _ =>
  }

  /** Nothing reaches the layer, and nothing inside it reaches what is below. */
  ghost predicate Untouched(flat: seq<Surface>) {
    flat != [] && flat[0].pixel == CLEAR && forall k :: 1 <= k < |flat| ==> !flat[k].inside
  }

  lemma ShowUntouched(scene: Scene, flat: seq<Surface>, mark: Mark)
    requires Untouched(flat)
    requires mark.Drawn? || mark.LayerOpened? ==> !scene.inside(mark.geometry.clips)
    ensures Untouched(Show(scene, flat, mark))
  {
    hide DrawnOver, Composed;
  }

  // ----- the run inside the layer -----

  ghost predicate InnerOk(scene: Scene, c: Canvas, under: seq<Surface>, base: Surface, opacity: real, d: Pixel) {
    var flat := Shown(scene, c.marks, CLEAR, false);
    && FadeOk(scene, c, opacity, d)
    && flat != [] && ShownOn(scene, under + [base], c.marks) == Lifted(under, base, flat)
    && (!base.inside ==> AllOutside(scene, c.levels) && Untouched(flat))
  }

  lemma AddsKeeps(scene: Scene, c: Canvas, c': Canvas, under: seq<Surface>, base: Surface, opacity: real, d: Pixel)
    requires InnerOk(scene, c, under, base, opacity, d) && Adds(c, c') && FadeOk(scene, c', opacity, d)
    requires !base.inside ==> AllOutside(scene, c'.levels)
    ensures InnerOk(scene, c', under, base, opacity, d)
  {
    hide InStep, Show, Layers, RootTally, AllOutside;
    if c'.marks != c.marks {
      var x := c'.marks[|c.marks|];
      var flat := Shown(scene, c.marks, CLEAR, false);
      assert c'.marks == c.marks + [x];
      if x.kept {
        ShowLifted(scene, under, base, flat, x.mark);
        if !base.inside {
          TopOutside(scene, c);
          ShowUntouched(scene, flat, x.mark);
        }
      }
    }
  }

  lemma TopOutside(scene: Scene, c: Canvas)
    requires AllOutside(scene, c.levels) && c.levels != []
    ensures !scene.inside(Top(c).geometry.clips)
  {
  }

  lemma {:induction false} RestoreToInner(scene: Scene, c: Canvas, under: seq<Surface>, base: Surface, opacity: real,
                                          d: Pixel, count: int)
    requires InnerOk(scene, c, under, base, opacity, d) && Lawful(scene.env) && InRange(d) && c.levels != []
    ensures InnerOk(scene, RestoredTo(c, count), under, base, opacity, d)
    decreases |c.levels|
  {
    hide Restored, Lawful, InRange;
    if count < |c.levels| && |c.levels| > 1 {
      RestoredShrinks(c);
      InnerIsFade(scene, c, under, base, opacity, d);
      hide InnerOk, FadeOk, Adds, AllOutside;
      RestoreFades(scene, c, opacity, d);
      RestoredAdds(c);
      if !base.inside {
        RestoredOutside(scene, c);
      }
      AddsKeeps(scene, c, Restored(c), under, base, opacity, d);
      RestoreToInner(scene, Restored(c), under, base, opacity, d, count);
    }
  }

  lemma InnerIsFade(scene: Scene, c: Canvas, under: seq<Surface>, base: Surface, opacity: real, d: Pixel)
    requires InnerOk(scene, c, under, base, opacity, d)
    ensures FadeOk(scene, c, opacity, d)
    ensures !base.inside ==> AllOutside(scene, c.levels)
  {
  }

  lemma CallInner(scene: Scene, probe: Probe, c: Canvas, under: seq<Surface>, base: Surface, opacity: real, d: Pixel,
                  call: CanvasCall)
    requires InnerOk(scene, c, under, base, opacity, d) && c.levels != []
    requires Lawful(scene.env) && ContentInRange(scene) && InRange(d) && ClipsShrink(scene)
    requires Proper(scene, call) && Fair(call)
    ensures InnerOk(scene, Performed(probe, c, call), under, base, opacity, d)
  {
    InnerIsFade(scene, c, under, base, opacity, d);
    hide InnerOk, FadeOk, Lawful, ContentInRange, InRange, ClipsShrink, Proper, Fair, Adds, AllOutside, Performed;
    if call.DoRestoreToCount? {
      RestoreToInner(scene, c, under, base, opacity, d, call.count);
      RestoreToPerformed(probe, c, call.count);
    } else {
      CallFades(scene, probe, c, opacity, d, call);
      CallAdds(probe, c, call);
      if !base.inside {
        CallOutside(scene, probe, c, call);
      }
      AddsKeeps(scene, c, Performed(probe, c, call), under, base, opacity, d);
    }
  }

  lemma RestoreToPerformed(probe: Probe, c: Canvas, count: int)
    requires c.levels != []
    ensures Performed(probe, c, DoRestoreToCount(count)) == RestoredTo(c, count)
  {
  }

  // ----- the tally only grows -----

  lemma {:induction false} RestoredToTally(c: Canvas, count: int)
    requires c.levels != []
    ensures RootTally(RestoredTo(c, count).levels) == RootTally(c.levels)
    decreases |c.levels|
  {
    hide Restored, RootTally;
    if count < |c.levels| && |c.levels| > 1 {
      RestoredShrinks(c);
      RestoredTally(c);
      RestoredToTally(Restored(c), count);
    }
  }

  lemma RestoredTally(c: Canvas)
    requires c.levels != []
    ensures RootTally(Restored(c).levels) == RootTally(c.levels)
  {
    if |c.levels| > 1 {
      hide Distributes, Stale;
      var n := |c.levels| - 1;
      if Top(c).kind == KeptLayer {
        assert c.levels == c.levels[..n] + [c.levels[n]];
        RootTallyNext(c.levels[..n], c.levels[n]);
        hide RootTally, Layers;
        assert RootTally(c.levels[..n]) + [] == RootTally(c.levels[..n]);
      } else {
        MergedTally(c.levels, c.levels[n - 1].(tally := c.levels[n - 1].tally + Top(c).tally));
        hide RootTally, Layers;
      }
    }
  }

  lemma TopTally(c: Canvas, level: CanvasLevel)
    requires c.levels != [] && level.kind == Top(c).kind && Top(c).tally <= level.tally
    ensures RootTally(c.levels) <= RootTally(SetTop(c, level).levels)
  {
    RootTallyTop(c.levels, level);
    hide RootTally, Layers;
  }

  lemma PushTally(levels: seq<CanvasLevel>, level: CanvasLevel)
    ensures RootTally(levels) <= RootTally(levels + [level])
  {
    RootTallyNext(levels, level);
    hide RootTally, Layers;
  }

  lemma LayerSavedTally(c: Canvas, layer: nat, bounds: Option<nat>, withPaint: bool)
    requires c.levels != []
    ensures RootTally(c.levels) <= RootTally(LayerSaved(c, layer, bounds, withPaint).levels)
  {
    hide RootTally, Layers, PaintResult, LayerTrack, OpacityCompatible, Stale;
    var top := Top(c);
    var compatible := !withPaint || OpacityCompatible(c.paint);
    TopTally(c, top.(tally := top.tally + [compatible]));
    var after := LayerSaved(c, layer, bounds, withPaint).levels;
    var n := |after| - 1;
    assert after == after[..n] + [after[n]];
    PushTally(after[..n], after[n]);
    assert after[..n] == c.levels || after[..n] == Tally(c, compatible).levels;
  }

  lemma CallTally(probe: Probe, c: Canvas, call: CanvasCall)
    requires c.levels != []
    ensures RootTally(c.levels) <= RootTally(Performed(probe, c, call).levels)
  {
    hide RootTally, Layers, PaintResult, Judged, LayerSaved, TakesOpacity, Transformed, Restored, RestoredTo, Adopted,
         Requested, Stale;
    match call
    case DoSave => PushTally(c.levels, Top(c).(kind := PlainLevel, tally := []));
    case DoSaveLayer(layer, bounds, paint) =>
      LayerSavedTally(if paint.Some? then Adopt(c, paint.value, SAVE_LAYER_WITH_PAINT) else c, layer, bounds, paint.Some?);
    case DoRestore => RestoredTally(c);
    case DoRestoreToCount(count) => RestoredToTally(c, count);
    case DoTransform(t) => TopTally(c, Top(Transforming(c, t)));
    case DoClip(clip) => TopTally(c, Top(Clipped(probe, c, clip)));
    case DoDraw(Painted(drawing, flags, paint, rule)) =>
      var a := Adopt(c, paint, flags);
      TopTally(a, Top(a).(tally := Top(a).tally + [TakesOpacity(rule, a.paint)]));
    case DoDraw(Unpainted(drawing, judged, compatible)) =>
      TopTally(c, Top(c).(tally := Top(c).tally + [compatible]));
  }

  // ----- the whole layer -----

  function PerformFrom(probe: Probe, c: Canvas, calls: seq<CanvasCall>): (r: Canvas)
    requires c.levels != []
    ensures r.levels != []
    decreases |calls|
  {
    if calls == [] then c else PerformFrom(probe, Performed(probe, c, calls[0]), calls[1..])
  }

  /** The calls never restore past level `b`. */
  predicate StayInside(probe: Probe, c: Canvas, calls: seq<CanvasCall>, b: nat)
    decreases |calls|
  {
    |c.levels| > b && (calls == [] || StayInside(probe, Performed(probe, c, calls[0]), calls[1..], b))
  }

  /** At no point on the way are there so few levels. */
  lemma {:induction false} StayInsideExactly(probe: Probe, c: Canvas, calls: seq<CanvasCall>, b: nat)
    requires c.levels != []
    ensures StayInside(probe, c, calls, b) <==>
            forall k: nat :: k <= |calls| ==> |PerformFrom(probe, c, calls[..k]).levels| > b
    decreases |calls|
  {
    hide Performed;
    assert PerformFrom(probe, c, calls[..0]) == c;
    if calls != [] {
      var next, rest := Performed(probe, c, calls[0]), calls[1..];
      StayInsideExactly(probe, next, rest, b);
      forall k: nat | k <= |rest|
        ensures PerformFrom(probe, c, calls[..k + 1]) == PerformFrom(probe, next, rest[..k])
      {
        assert calls[..k + 1][0] == calls[0] && calls[..k + 1][1..] == rest[..k];
      }
      hide PerformFrom;
      if !StayInside(probe, next, rest, b) {
        var k: nat :| k <= |rest| && |PerformFrom(probe, next, rest[..k]).levels| <= b;
        assert |PerformFrom(probe, c, calls[..k + 1]).levels| <= b;
      } else {
        forall k: nat | 0 < k <= |calls| ensures |PerformFrom(probe, c, calls[..k]).levels| > b {
          assert calls[..k - 1 + 1] == calls[..k];
          assert PerformFrom(probe, c, calls[..k]) == PerformFrom(probe, next, rest[..k - 1]);
        }
      }
    }
  }

  lemma MarksGrow(probe: Probe, c: Canvas, call: CanvasCall)
    requires c.levels != []
    ensures c.marks <= Performed(probe, c, call).marks
  {
    if call.DoRestoreToCount? {
      hide RestoredTo;
      RestoredToGrows(c, call.count);
    } else {
      hide Performed, Layers;
      CallAdds(probe, c, call);
    }
  }

  lemma {:induction false} RestoredToGrows(c: Canvas, count: int)
    requires c.levels != []
    ensures c.marks <= RestoredTo(c, count).marks
    decreases |c.levels|
  {
    hide Restored, Layers;
    if count < |c.levels| && |c.levels| > 1 {
      RestoredShrinks(c);
      RestoredAdds(c);
      RestoredToGrows(Restored(c), count);
    }
  }

  /** Levels that stay keep their kind. */
  lemma KindStays(probe: Probe, c: Canvas, call: CanvasCall, b: nat)
    requires c.levels != [] && b < |c.levels| && b < |Performed(probe, c, call).levels|
    ensures Performed(probe, c, call).levels[b].kind == c.levels[b].kind
  {
    hide PaintResult, Judged, TakesOpacity, Transformed, Adopted, Requested, Stale, LayerTrack, OpacityCompatible, Restored,
         RestoredTo;
    match call
    case DoRestore => RestoredKinds(c);
    case DoRestoreToCount(count) => RestoredToKinds(c, count);
    case _ =>
  }

  lemma RestoredKinds(c: Canvas)
    requires c.levels != []
    ensures |Restored(c).levels| <= |c.levels|
    ensures forall k :: 0 <= k < |Restored(c).levels| ==> Restored(c).levels[k].kind == c.levels[k].kind
  {
    hide Distributes, Stale;
  }

  lemma {:induction false} RestoredToKinds(c: Canvas, count: int)
    requires c.levels != []
    ensures |RestoredTo(c, count).levels| <= |c.levels|
    ensures forall k :: 0 <= k < |RestoredTo(c, count).levels| ==> RestoredTo(c, count).levels[k].kind == c.levels[k].kind
    decreases |c.levels|
  {
    hide Restored;
    if count < |c.levels| && |c.levels| > 1 {
      RestoredShrinks(c);
      RestoredKinds(c);
      RestoredToKinds(Restored(c), count);
    }
  }

  ghost predicate Sane(scene: Scene, calls: seq<CanvasCall>) {
    forall i :: 0 <= i < |calls| ==> Proper(scene, calls[i]) && Fair(calls[i])
  }

  lemma InnerCallSane(scene: Scene, call: CanvasCall, b: nat)
    requires Proper(scene, call) && Fair(call)
    ensures Proper(scene, InnerCall(call, b)) && Fair(InnerCall(call, b))
  {
    hide Judgeable;
  }

  lemma {:induction false} RunInner(scene: Scene, probe: Probe, c: Canvas, calls: seq<CanvasCall>, b: nat, m: nat,
                                    under: seq<Surface>, base: Surface, opacity: real, d: Pixel)
    requires StayInside(probe, c, calls, b) && m <= |c.marks| && b >= 1
    requires InnerOk(scene, Inner(c, b, m), under, base, opacity, d) && Sane(scene, calls)
    requires Lawful(scene.env) && ContentInRange(scene) && InRange(d) && ClipsShrink(scene)
    ensures var e := PerformFrom(probe, c, calls);
            && |e.levels| > b && m <= |e.marks| && e.marks[..m] == c.marks[..m] && e.levels[b].kind == c.levels[b].kind
            && InnerOk(scene, Inner(e, b, m), under, base, opacity, d)
            && RootTally(Inner(c, b, m).levels) <= RootTally(Inner(e, b, m).levels)
    decreases |calls|
  {
    hide InnerOk, Inner, Lawful, ContentInRange, InRange, ClipsShrink, Performed, RootTally, Proper, Fair;
    if calls != [] {
      var call, next := calls[0], Performed(probe, c, calls[0]);
      InnerPerformed(probe, c, b, m, call);
      InnerHeight(c, b, m);
      InnerCallSane(scene, call, b);
      CallInner(scene, probe, Inner(c, b, m), under, base, opacity, d, InnerCall(call, b));
      CallTally(probe, Inner(c, b, m), InnerCall(call, b));
      MarksGrow(probe, c, call);
      KindStays(probe, c, call, b);
      RunInner(scene, probe, next, calls[1..], b, m, under, base, opacity, d);
    }
  }

  /** A canvas with one level that nothing was drawn on yet. */
  lemma FreshFades(scene: Scene, c: Canvas, opacity: real, d: Pixel)
    requires InRange(d) && c.marks == [] && |c.levels| == 1 && c.levels[0].kind == PlainLevel
    requires Distributes(c.levels[0].tally) ==> c.levels[0].tally == []
    ensures FadeOk(scene, c, opacity, d) && RootTally(c.levels) == c.levels[0].tally
  {
    ClearFades(scene.env, opacity, d);
    hide Blended, Scaled, Distributes;
    RootTallyNext([], c.levels[0]);
    assert [] + [c.levels[0]] == c.levels && [] + c.levels[0].tally == c.levels[0].tally;
    assert Shown(scene, c.marks, CLEAR, false) == [Root(CLEAR)];
  }

  function LayerOpacity(c: Canvas, withPaint: bool): real { if withPaint then Alpha(c.paint) else 1.0 }

  /** The layer's level as it is opened, and what its answers start from. */
  function OpenedLevel(c: Canvas, bounds: Option<nat>, withPaint: bool): CanvasLevel
    requires c.levels != []
  {
    var compatible := !withPaint || OpacityCompatible(c.paint);
    var filtered := withPaint && c.paint.imageFilter.Some?;
    Top(c).(track := LayerTrack(Top(c).track, bounds, filtered), kind := KeptLayer,
            tally := if compatible && !filtered then [] else [false])
  }

  lemma LayerIsOpened(c: Canvas, layer: nat, bounds: Option<nat>, withPaint: bool)
    requires c.levels != [] && PaintResult(Top(c).dead, c.paint, LayerFlags(withPaint)) != NoEffect
    ensures var opened_ := LayerSaved(c, layer, bounds, withPaint);
            var mark := LayerOpened(layer, withPaint, c.paint, Top(c).geometry);
            && |opened_.levels| == |c.levels| + 1 && Top(opened_) == OpenedLevel(c, bounds, withPaint)
            && opened_.marks == c.marks + [CanvasMark(mark, true, Stale(c.requests))]
  {
    hide PaintResult, LayerTrack, Stale, OpacityCompatible;
  }

  lemma LayerStarts(scene: Scene, c: Canvas, layer: nat, bounds: Option<nat>, withPaint: bool, under: seq<Surface>, d: Pixel)
    requires c.levels != [] && PaintResult(Top(c).dead, c.paint, LayerFlags(withPaint)) != NoEffect && InRange(d)
    ensures var start := LayerSaved(c, layer, bounds, withPaint);
            var base := Surface(CLEAR, withPaint, c.paint, scene.inside(Top(c).geometry.clips));
            && |start.levels| == |c.levels| + 1 && |start.marks| == |c.marks| + 1 && Top(start).kind == KeptLayer
            && InnerOk(scene, Inner(start, |c.levels|, |start.marks|), under, base, LayerOpacity(c, withPaint), d)
            && RootTally(Inner(start, |c.levels|, |start.marks|).levels) == OpenedLevel(c, bounds, withPaint).tally
  {
    hide PaintResult, LayerSaved, Blended;
    LayerIsOpened(c, layer, bounds, withPaint);
    var start := LayerSaved(c, layer, bounds, withPaint);
    var i := Inner(start, |c.levels|, |start.marks|);
    var level := OpenedLevel(c, bounds, withPaint);
    assert i.levels == [level.(kind := PlainLevel)] && i.marks == [];
    OneFalse();
    FreshFades(scene, i, LayerOpacity(c, withPaint), d);
    hide FadeOk, Inner, OpenedLevel;
    assert Shown(scene, i.marks, CLEAR, false) == [Root(CLEAR)];
    var base := Surface(CLEAR, withPaint, c.paint, scene.inside(Top(c).geometry.clips));
    assert Lifted(under, base, [Root(CLEAR)]) == under + [base];
  }

  lemma OneFalse()
    ensures !Distributes([false])
  {
    assert ![false][0];
  }

  /** A compatible layer composes its content faded by its paint's alpha. */
  lemma CompatibleCloses(scene: Scene, base: Surface, d: Pixel)
    requires base.inside && LayerFades(base) && InRange(d)
    ensures var opacity := if base.withPaint then Alpha(base.paint) else 1.0;
            Closed(scene, base, d) == Blended(scene.env, SrcOver, Scaled(base.pixel, opacity), d)
  {
    assert Scaled(base.pixel, 1.0) == base.pixel;
    hide Blended, Scaled, Alpha;
  }

  /**
   For every kept layer whose flag is set: drawing its content straight onto the
   surface below, faded by its alpha, shows what closing the layer shows.
   */
  lemma LayerFlagExact(scene: Scene, probe: Probe, c: Canvas, layer: nat, bounds: Option<nat>, withPaint: bool,
                       calls: seq<CanvasCall>, d: Pixel)
    requires c.levels != [] && PaintResult(Top(c).dead, c.paint, LayerFlags(withPaint)) != NoEffect
    requires Lawful(scene.env) && ContentInRange(scene) && ClipsShrink(scene) && Sane(scene, calls)
    requires var under := Shown(scene, c.marks, d, false); under != [] && InRange(under[|under| - 1].pixel)
    requires var start := LayerSaved(c, layer, bounds, withPaint);
             && StayInside(probe, start, calls, |c.levels|)
             && |PerformFrom(probe, start, calls).levels| == |c.levels| + 1
    requires Distributes(Top(PerformFrom(probe, LayerSaved(c, layer, bounds, withPaint), calls)).tally)
    ensures var end := PerformFrom(probe, LayerSaved(c, layer, bounds, withPaint), calls);
            var under := Shown(scene, c.marks, d, false);
            var top := under[|under| - 1];
            && |end.marks| > |c.marks|
            && var faded := ShownFaded(scene, LayerOpacity(c, withPaint), end.marks[|c.marks| + 1..], top.pixel);
               && |faded| == 1
               && Shown(scene, Restored(end).marks, d, false) == under[|under| - 1 := top.(pixel := faded[0].pixel)]
  {
    hide PaintResult, LayerSaved, Blended, Shown, ShownFaded, Performed, Lawful, ContentInRange, ClipsShrink, Sane, InRange,
         InnerOk, Inner, Distributes;
    var start := LayerSaved(c, layer, bounds, withPaint);
    var under := Shown(scene, c.marks, d, false);
    var b, m, n := |c.levels|, |c.marks| + 1, |under| - 1;
    var below, opacity := under[n].pixel, LayerOpacity(c, withPaint);
    var base := Surface(CLEAR, withPaint, c.paint, scene.inside(Top(c).geometry.clips));
    LayerStarts(scene, c, layer, bounds, withPaint, under, below);
    RunInner(scene, probe, start, calls, b, m, under, base, opacity, below);
    var end := PerformFrom(probe, start, calls);
    LayerEnds(scene, c, start, end, under, base, opacity, below, d, layer, bounds, withPaint);
  }

  lemma LayerEnds(scene: Scene, c: Canvas, start: Canvas, end: Canvas, under: seq<Surface>, base: Surface, opacity: real,
                  below: Pixel, d: Pixel, layer: nat, bounds: Option<nat>, withPaint: bool)
    requires c.levels != [] && PaintResult(Top(c).dead, c.paint, LayerFlags(withPaint)) != NoEffect
    requires start == LayerSaved(c, layer, bounds, withPaint) && opacity == LayerOpacity(c, withPaint)
    requires base == Surface(CLEAR, withPaint, c.paint, scene.inside(Top(c).geometry.clips))
    requires under == Shown(scene, c.marks, d, false) && under != [] && under[|under| - 1].pixel == below && InRange(below)
    requires |start.marks| == |c.marks| + 1 <= |end.marks| && end.marks[..|c.marks| + 1] == start.marks
    requires |end.levels| == |c.levels| + 1 && Top(end).kind == KeptLayer
    requires InnerOk(scene, Inner(end, |c.levels|, |c.marks| + 1), under, base, opacity, below)
    requires OpenedLevel(c, bounds, withPaint).tally <= RootTally(Inner(end, |c.levels|, |c.marks| + 1).levels)
    requires Distributes(Top(end).tally)
    ensures var faded := ShownFaded(scene, opacity, end.marks[|c.marks| + 1..], below);
            && |faded| == 1
            && Shown(scene, Restored(end).marks, d, false)
               == under[|under| - 1 := under[|under| - 1].(pixel := faded[0].pixel)]
  {
    hide PaintResult, LayerSaved, Blended, Scaled, Shown, ShownFaded, InRange, Show, Closed, OpenedLevel, Stale;
    var b, m := |c.levels|, |c.marks| + 1;
    var i := Inner(end, b, m);
    LayerIsOpened(c, layer, bounds, withPaint);
    OneLevel(i, end.levels[b]);
    OpenedCompatible(c, bounds, withPaint, end.levels[b].tally);
    var content := end.marks[m..];
    var flat, faded := Shown(scene, content, CLEAR, false), ShownFaded(scene, opacity, content, below);
    assert |flat| == 1;
    var layered := base.(pixel := flat[0].pixel);
    // The layer's surface, with all of its content, on top of what was there.
    assert Shown(scene, end.marks, d, false) == under + [layered] by {
      ShownSplit(scene, end.marks, d, m);
      ShownNext(scene, c, d, false, LayerOpened(layer, withPaint, c.paint, Top(c).geometry), true);
      ShowOpened(scene, under, layer, withPaint, c.paint, Top(c).geometry);
      assert Lifted(under, base, flat) == under + [layered];
    }
    ClosingMark(end, b);
    var outer := end.(levels := end.levels[..b]);
    ShownNext(scene, outer, d, false, LayerClosed(true), true);
    ShowClosed(scene, under, layered, true);
    if base.inside {
      CompatibleCloses(scene, layered, below);
    } else {
      OutsideCloses(scene, layered, below);
      ClearFades(scene.env, opacity, below);
    }
  }

  lemma OneLevel(i: Canvas, level: CanvasLevel)
    requires i.levels == [level.(kind := PlainLevel)]
    ensures Layers(i.levels, KeptLayer) == 0 && RootTally(i.levels) == level.tally
  {
    RootTallyNext([], i.levels[0]);
    assert [] + [i.levels[0]] == i.levels && [] + level.tally == level.tally;
  }

  /** A layer whose answers came out well had a compatible paint to begin with. */
  lemma OpenedCompatible(c: Canvas, bounds: Option<nat>, withPaint: bool, tally: seq<bool>)
    requires c.levels != [] && OpenedLevel(c, bounds, withPaint).tally <= tally && Distributes(tally)
    ensures withPaint ==> OpacityCompatible(c.paint)
  {
    hide OpacityCompatible, LayerTrack;
    AllAccept(OpenedLevel(c, bounds, withPaint).tally, tally);
  }

  lemma AllAccept(first: seq<bool>, tally: seq<bool>)
    requires first <= tally && Distributes(tally)
    ensures first != [] ==> first[0]
  {
    assert first != [] ==> first[0] == tally[0];
  }

  lemma ShowOpened(scene: Scene, under: seq<Surface>, layer: nat, withPaint: bool, paint: Paint, g: Geometry)
    ensures Show(scene, under, LayerOpened(layer, withPaint, paint, g))
            == under + [Surface(CLEAR, withPaint, paint, scene.inside(g.clips))]
  {
  }

  lemma ShowClosed(scene: Scene, under: seq<Surface>, layer: Surface, flag: bool)
    requires under != []
    ensures var n := |under| - 1;
            Show(scene, under + [layer], LayerClosed(flag))
            == under[n := under[n].(pixel := Closed(scene, layer, under[n].pixel))]
  {
    hide Closed;
    assert (under + [layer])[..|under|] == under;
  }

  lemma OutsideCloses(scene: Scene, layer: Surface, d: Pixel)
    requires !layer.inside
    ensures Closed(scene, layer, d) == d
  {
  }

  lemma ClosingMark(end: Canvas, b: nat)
    requires |end.levels| == b + 1 && b >= 1 && Top(end).kind == KeptLayer && Distributes(Top(end).tally)
    ensures Restored(end) == Marked(end.(levels := end.levels[..b]), LayerClosed(true), true)
  {
    hide Distributes, Stale;
  }

  /** The same for a layer opened and closed anywhere among the calls on a fresh canvas. */
  lemma EveryLayerFlagExact(scene: Scene, probe: Probe, before: seq<CanvasCall>, layer: nat, bounds: Option<nat>,
                            withPaint: bool, calls: seq<CanvasCall>, d: Pixel)
    requires Sound(scene, probe) && Lawful(scene.env) && ContentInRange(scene) && InRange(d)
    requires Sane(scene, before) && Sane(scene, calls)
    requires var c := PerformAll(probe, before);
             && PaintResult(Top(c).dead, c.paint, LayerFlags(withPaint)) != NoEffect
             && var start := LayerSaved(c, layer, bounds, withPaint);
                && StayInside(probe, start, calls, |c.levels|)
                && |PerformFrom(probe, start, calls).levels| == |c.levels| + 1
                && Distributes(Top(PerformFrom(probe, start, calls)).tally)
    ensures var c := PerformAll(probe, before);
            var end := PerformFrom(probe, LayerSaved(c, layer, bounds, withPaint), calls);
            var under := Shown(scene, c.marks, d, false);
            && under != [] && |end.marks| > |c.marks|
            && var n := |under| - 1;
               var faded := ShownFaded(scene, LayerOpacity(c, withPaint), end.marks[|c.marks| + 1..], under[n].pixel);
               && |faded| == 1
               && Shown(scene, Restored(end).marks, d, false) == under[n := under[n].(pixel := faded[0].pixel)]
  {
    hide Performed, PaintResult, LayerSaved, Blended, ShownFaded, Lawful, ContentInRange, Proper, Fair, Distributes,
         Restored, PerformFrom, StayInside, PerformAll, LayerOpacity;
    RunAgrees(scene, probe, before, d);
    var c := PerformAll(probe, before);
    KeptInRange(scene, c, d);
    hide Sound, Sane, Shown, InRange;
    LayerFlagExact(scene, probe, c, layer, bounds, withPaint, calls, d);
  }

  lemma KeptInRange(scene: Scene, c: Canvas, d: Pixel)
    requires Agree(scene, c, d)
    ensures var under := Shown(scene, c.marks, d, false); under != [] && InRange(under[|under| - 1].pixel)
  {
    hide Shown, Describes, LevelsOk, InRange;
    var full, kept := Shown(scene, c.marks, d, true), Shown(scene, c.marks, d, false);
    assert kept[|kept| - 1] == full[|kept| - 1];
  }
}
