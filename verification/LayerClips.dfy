/**
 What the recorder asserts when it opens a layer that changes clear pixels
 (display_list/dl_builder.cc, `saveLayer`): that the clip is not empty, because an
 empty one would have been noticed before.  It would, but for the bounds a caller gave
 an enclosing layer: they clip the tracker without marking the level.
 */
module LayerClips {
  import opened Records
  import opened PaintRules
  import opened Player
  import opened Canvas

  /** The surface is not empty to begin with, and transforms do not change the clip. */
  ghost predicate Steady(probe: Probe) {
    && !probe.isEmpty(Track(IDENTITY, []))
    && forall t: Track, ctm :: probe.isEmpty(t.(ctm := ctm)) == probe.isEmpty(t)
  }

  /** Accumulating an unbounded operation succeeds, as asserted: there is a clip left. */
  predicate AccumulatesUnbounded(probe: Probe, c: Canvas)
    requires c.levels != []
  {
    !probe.isEmpty(Top(c).track)
  }

  /** The innermost clip is the bounds of a layer. */
  predicate EndsInLayerBounds(track: Track) {
    track.clips != [] && !track.clips[|track.clips| - 1].ShapeClip?
  }

  /** A level that can still show something was emptied by layer bounds if at all. */
  ghost predicate LevelLive(probe: Probe, level: CanvasLevel) {
    !level.dead && probe.isEmpty(level.track) ==> EndsInLayerBounds(level.track)
  }

  ghost predicate AllLive(probe: Probe, levels: seq<CanvasLevel>) {
    forall k :: 0 <= k < |levels| ==> LevelLive(probe, levels[k])
  }

  lemma TopSetLive(probe: Probe, c: Canvas, level: CanvasLevel)
    requires c.levels != [] && AllLive(probe, c.levels) && LevelLive(probe, level)
    ensures AllLive(probe, SetTop(c, level).levels)
  {
    hide LevelLive;
  }

  lemma PushLive(probe: Probe, levels: seq<CanvasLevel>, level: CanvasLevel)
    requires AllLive(probe, levels) && LevelLive(probe, level)
    ensures AllLive(probe, levels + [level])
  {
    hide LevelLive;
  }

  lemma RestoredLive(probe: Probe, c: Canvas)
    requires c.levels != [] && AllLive(probe, c.levels)
    ensures AllLive(probe, Restored(c).levels)
  {
    hide Distributes, Stale, EndsInLayerBounds;
  }

  lemma {:induction false} RestoredToLive(probe: Probe, c: Canvas, count: int)
    requires c.levels != [] && AllLive(probe, c.levels)
    ensures AllLive(probe, RestoredTo(c, count).levels)
    decreases |c.levels|
  {
    hide Restored, AllLive;
    if count < |c.levels| && |c.levels| > 1 {
      RestoredLive(probe, c);
      RestoredLower(c);
      RestoredToLive(probe, Restored(c), count);
    }
  }

  lemma RestoredLower(c: Canvas)
    requires |c.levels| > 1
    ensures 0 < |Restored(c).levels| < |c.levels|
  {
    hide Distributes, Stale;
  }

  lemma LayerTrackLive(probe: Probe, level: CanvasLevel, bounds: Option<nat>, resets: bool)
    requires LevelLive(probe, level)
    ensures LevelLive(probe, level.(track := LayerTrack(level.track, bounds, resets)))
  {
  }

  lemma LayerSavedLive(probe: Probe, c: Canvas, layer: nat, bounds: Option<nat>, withPaint: bool)
    requires c.levels != [] && AllLive(probe, c.levels)
    ensures AllLive(probe, LayerSaved(c, layer, bounds, withPaint).levels)
  {
    hide PaintResult, OpacityCompatible, Stale, LayerTrack, EndsInLayerBounds, AllLive;
    var top := Top(c);
    assert LevelLive(probe, top) by { TopLive(probe, c); }
    if PaintResult(top.dead, c.paint, LayerFlags(withPaint)) == NoEffect {
      PushLive(probe, c.levels, top.(dead := true, kind := DroppedLayer, tally := []));
    } else {
      var compatible := !withPaint || OpacityCompatible(c.paint);
      var filtered := withPaint && c.paint.imageFilter.Some?;
      TopSetLive(probe, c, top.(tally := top.tally + [compatible]));
      LayerTrackLive(probe, top, bounds, filtered);
      PushLive(probe, Tally(c, compatible).levels,
               top.(track := LayerTrack(top.track, bounds, filtered), kind := KeptLayer,
                    tally := if compatible && !filtered then [] else [false]));
    }
  }

  lemma TopLive(probe: Probe, c: Canvas)
    requires c.levels != [] && AllLive(probe, c.levels)
    ensures LevelLive(probe, Top(c))
  {
  }

  lemma CallLive(probe: Probe, c: Canvas, call: CanvasCall)
    requires c.levels != [] && AllLive(probe, c.levels) && Steady(probe)
    ensures AllLive(probe, Performed(probe, c, call).levels)
  {
    TopLive(probe, c);
    hide PaintResult, Judged, TakesOpacity, Adopted, Requested, Stale, LayerSaved, Restored, RestoredTo, AllLive,
         Transformed;
    var top := Top(c);
    match call
    case DoSave => PushLive(probe, c.levels, top.(kind := PlainLevel, tally := []));
    case DoSaveLayer(layer, bounds, paint) =>
      var a := if paint.Some? then Adopt(c, paint.value, SAVE_LAYER_WITH_PAINT) else c;
      LayerSavedLive(probe, a, layer, bounds, paint.Some?);
    case DoRestore => RestoredLive(probe, c);
    case DoRestoreToCount(count) => RestoredToLive(probe, c, count);
    case DoTransform(t) =>
      assert LevelLive(probe, Top(Transforming(c, t)));
      TopSetLive(probe, c, Top(Transforming(c, t)));
    case DoClip(clip) => TopSetLive(probe, c, Top(Clipped(probe, c, clip)));
    case DoDraw(Painted(drawing, flags, paint, rule)) =>
      var a := Adopt(c, paint, flags);
      TopSetLive(probe, a, top.(tally := top.tally + [TakesOpacity(rule, a.paint)]));
    case DoDraw(Unpainted(drawing, judged, compatible)) =>
      TopSetLive(probe, c, top.(tally := top.tally + [compatible]));
  }

  lemma {:induction false} RunLive(probe: Probe, calls: seq<CanvasCall>)
    requires Steady(probe)
    ensures AllLive(probe, PerformAll(probe, calls).levels)
  {
    hide Performed;
    if calls != [] {
      var n := |calls| - 1;
      RunLive(probe, calls[..n]);
      hide AllLive, Steady;
      CallLive(probe, PerformAll(probe, calls[..n]), calls[n]);
    }
  }

  /**
   After any calls, a layer about to be recorded finds a clip to accumulate exactly
   unless the innermost clip is layer bounds that left nothing.
   */
  lemma UnboundedExactly(probe: Probe, calls: seq<CanvasCall>)
    requires Steady(probe)
    ensures var c := PerformAll(probe, calls);
            !Top(c).dead ==>
              (AccumulatesUnbounded(probe, c) <==> !(EndsInLayerBounds(Top(c).track) && probe.isEmpty(Top(c).track)))
  {
    hide EndsInLayerBounds, Steady;
    RunLive(probe, calls);
    TopLive(probe, PerformAll(probe, calls));
  }

  /** A tracker in which bounds 1 and 2 do not meet. */
  function Apart(): Probe {
    Probe((t: Track) => (exists k :: 0 <= k < |t.clips| && t.clips[k].LayerBounds? && t.clips[k].bounds == 1)
                        && (exists k :: 0 <= k < |t.clips| && t.clips[k].LayerBounds? && t.clips[k].bounds == 2),
          (t, drawing, paint) => true)
  }

  const REPLACING := DEFAULT_PAINT.(blend := Src)

  /** In a layer with bounds 2, in a layer with bounds 1, a layer that replaces what is below it breaks the assertion. */
  lemma DisjointBoundsExample()
    ensures Steady(Apart())
    ensures var c := PerformAll(Apart(), [DoSaveLayer(0, Some(1), None), DoSaveLayer(1, Some(2), None)]);
            var paint := Adopted(c.paint, REPLACING, SAVE_LAYER_WITH_PAINT);
            && PaintResult(Top(c).dead, paint, SAVE_LAYER_WITH_PAINT) != NoEffect && !NopsOnTransparency(paint)
            && !AccumulatesUnbounded(Apart(), c)
  {
    var a, b := DoSaveLayer(0, Some(1), None), DoSaveLayer(1, Some(2), None);
    assert [a, b][..1] == [a] && [a][..0] == [];
    var first := LayerSaved(BLANK, 0, Some(1), false);
    OpenedPlain(BLANK, 0, 1);
    OpenedPlain(first, 1, 2);
    hide LayerSaved;
    assert PerformAll(Apart(), [a]) == first;
    var c := PerformAll(Apart(), [a, b]);
    var clips := Top(c).track.clips;
    assert |clips| == 2 && clips[0] == LayerBounds(1, IDENTITY) && clips[1] == LayerBounds(2, IDENTITY);
    assert clips[0].bounds == 1 && clips[1].bounds == 2;
  }

  lemma OpenedPlain(c: Canvas, layer: nat, bounds: nat)
    requires c.levels != [] && !Top(c).dead
    ensures var after := LayerSaved(c, layer, Some(bounds), false);
            && after.levels != [] && !Top(after).dead && after.paint == c.paint && Top(after).track.ctm == Top(c).track.ctm
            && Top(after).track.clips == Top(c).track.clips + [LayerBounds(bounds, Top(c).track.ctm)]
  {
    hide OpacityCompatible, Stale;
  }
}
