/**
 Group opacity in pixels (display_list/dl_builder.h, the opacity flags of `SaveInfo`).

 A list whose flag says so may be drawn at an opacity by fading its one root-level
 operation or layer, without a layer of its own.  Over any calls the pixel is then
 that of drawing the whole list into a clear layer, fading that, and compositing it.
 */
module Fading {
  import opened Records
  import opened PaintRules
  import opened Player
  import opened Canvas
  import opened Blend
  import opened Pixels

  // ----- fading one operation -----

  function ComposedFaded(env: Renderer, paint: Paint, flags: OpFlags, content: Pixel, opacity: real, d: Pixel): (r: Pixel)
    ensures InRange(r)
  {
    Blended(env, if flags.blend then paint.blend else SrcOver, Scaled(Source(env, paint, flags, content), opacity), d)
  }

  function DrawnFaded(scene: Scene, drawing: nat, paint: Paint, opacity: real, d: Pixel): (r: Pixel)
    ensures InRange(r)
  {
    match scene.own(drawing)
    case Some(own) => ComposedFaded(scene.env, own, DRAW_PAINT, scene.content(drawing), opacity, d)
    case None => ComposedFaded(scene.env, paint, scene.flags(drawing), scene.content(drawing), opacity, d)
  }

  function ClosedFaded(scene: Scene, layer: Surface, opacity: real, d: Pixel): Pixel {
    if layer.inside
    then ComposedFaded(scene.env, layer.paint, LayerFlags(layer.withPaint), layer.pixel, opacity, d) else d
  }

  /** As `Show`, but what reaches the root surface is faded. */
  function ShowFaded(scene: Scene, opacity: real, stack: seq<Surface>, mark: Mark): seq<Surface> {
    match mark
    case Drawn(drawing, paint, g) =>
      if |stack| == 1 then
        if scene.inside(g.clips) && scene.touches(drawing, paint, g)
        then [stack[0].(pixel := DrawnFaded(scene, drawing, paint, opacity, stack[0].pixel))] else stack
      else Show(scene, stack, mark)
    case LayerClosed(_) =>
      if |stack| == 2
      then [stack[0].(pixel := ClosedFaded(scene, stack[1], opacity, stack[0].pixel))] else Show(scene, stack, mark)
    case LayerOpened(_, _, _, _) => Show(scene, stack, mark)
  }

  /** A receiver's marks, played at an opacity over `d`. */
  function PlayedFaded(scene: Scene, opacity: real, marks: seq<Mark>, d: Pixel): seq<Surface> {
    if marks == [] then [Root(d)]
    else ShowFaded(scene, opacity, PlayedFaded(scene, opacity, marks[..|marks| - 1], d), marks[|marks| - 1])
  }

  /** The kept marks of a canvas, played at an opacity over `d`. */
  function ShownFaded(scene: Scene, opacity: real, marks: seq<CanvasMark>, d: Pixel): seq<Surface> {
    if marks == [] then [Root(d)] else
    var before := ShownFaded(scene, opacity, marks[..|marks| - 1], d);
    var last := marks[|marks| - 1];
    if last.kept then ShowFaded(scene, opacity, before, last.mark) else before
  }

  lemma FadedNext(scene: Scene, opacity: real, c: Canvas, d: Pixel, mark: Mark, kept: bool)
    ensures ShownFaded(scene, opacity, Marked(c, mark, kept).marks, d) ==
            if kept then ShowFaded(scene, opacity, ShownFaded(scene, opacity, c.marks, d), mark)
            else ShownFaded(scene, opacity, c.marks, d)
  {
    hide ShowFaded;
    var marks := Marked(c, mark, kept).marks;
    assert marks[..|marks| - 1] == c.marks;
  }

  // ----- what may be faded -----

  /** An operation fades as its source does: it composes by SrcOver, and its source is a pixel. */
  ghost predicate Fades(env: Renderer, paint: Paint, flags: OpFlags, content: Pixel) {
    (flags.blend ==> paint.blend == SrcOver) && InRange(Source(env, paint, flags, content))
  }

  ghost predicate DrawFades(scene: Scene, drawing: nat, paint: Paint) {
    match scene.own(drawing)
    case Some(own) => Fades(scene.env, own, DRAW_PAINT, scene.content(drawing))
    case None => Fades(scene.env, paint, scene.flags(drawing), scene.content(drawing))
  }

  /** Without filter and inversion, the source of an operation is a pixel. */
  lemma PlainSourceInRange(env: Renderer, paint: Paint, flags: OpFlags, content: Pixel)
    requires Lawful(env) && InRange(content)
    requires flags.colorFilter ==> paint.colorFilter.None? && !paint.invertColors
    ensures InRange(Source(env, paint, flags, content))
  {
    PaintSourceInRange(env, paint);
    assert InUnit(Alpha(paint)) && InUnit(ColorAlpha(paint) as real / 255.0);
    ScaledInRange(content, Alpha(paint));
    ScaledInRange(content, ColorAlpha(paint) as real / 255.0);
    ScaledInRange(PaintSource(env, paint), content.a);
    hide Scaled, PaintSource, InRange, Alpha, ColorAlpha;
  }

  lemma PaintSourceInRange(env: Renderer, paint: Paint)
    requires Lawful(env)
    ensures InRange(PaintSource(env, paint))
  {
    PremultipliedInRange(paint.color);
    if paint.source.Some? {
      match paint.source.value
      case PlainColor(c) => PremultipliedInRange(c);
      case Shader(id, _) => ScaledInRange(env.shade(id), Alpha(paint));
    }
    hide Scaled, Premultiplied, InRange, Alpha;
  }

  lemma CompatibleFades(env: Renderer, paint: Paint, flags: OpFlags, content: Pixel)
    requires Lawful(env) && InRange(content) && OpacityCompatible(paint)
    ensures Fades(env, paint, flags, content)
  {
    hide Source, InRange, Lawful;
    PlainSourceInRange(env, paint, flags, content);
  }

  /** Fading the source equals fading the layer it is drawn into. */
  lemma FadingDistributes(env: Renderer, paint: Paint, flags: OpFlags, content: Pixel, opacity: real, d: Pixel)
    requires Fades(env, paint, flags, content)
    ensures ComposedFaded(env, paint, flags, content, opacity, d)
            == Blended(env, SrcOver, Scaled(Composed(env, paint, flags, content, CLEAR), opacity), d)
  {
    hide Blended, Scaled, Source, InRange;
    OpacityDistributes(env, Source(env, paint, flags, content), opacity, d);
  }

  /** Nothing faded is nothing. */
  lemma ClearFades(env: Renderer, opacity: real, d: Pixel)
    requires InRange(d)
    ensures Blended(env, SrcOver, Scaled(CLEAR, opacity), d) == d
  {
    assert Scaled(CLEAR, opacity) == CLEAR;
    assert (1.0 - CLEAR.a) == 1.0;
  }

  // ----- the two stacks -----

  /**
   The list played into a clear layer, and faded over `d`: alike above the root, and
   while the root group distributes, the root of one is the other's layer composited.
   */
  ghost predicate InStep(scene: Scene, flat: seq<Surface>, faded: seq<Surface>, tally: seq<bool>, opacity: real, d: Pixel) {
    && |flat| == |faded| >= 1 && flat[1..] == faded[1..] && AllInRange(flat)
    && (Distributes(tally) ==>
          && (tally == [] ==> |flat| == 1 && flat[0].pixel == CLEAR)
          && (|flat| > 1 ==> flat[0].pixel == CLEAR && LayerFades(flat[1]))
          && faded[0].pixel == Blended(scene.env, SrcOver, Scaled(flat[0].pixel, opacity), d))
  }

  predicate LayerFades(layer: Surface) { layer.withPaint ==> OpacityCompatible(layer.paint) }

  function Tallied(tally: seq<bool>, atRoot: bool, compatible: bool): seq<bool> {
    if atRoot then tally + [compatible] else tally
  }

  lemma LoneEntry(tally: seq<bool>, compatible: bool)
    ensures Distributes(tally + [compatible]) <==> tally == [] && compatible
  {
    if Distributes(tally + [compatible]) {
      assert (tally + [compatible])[0];
    }
  }

  lemma RootDrawFades(scene: Scene, drawing: nat, paint: Paint, opacity: real, d: Pixel)
    requires DrawFades(scene, drawing, paint)
    ensures DrawnFaded(scene, drawing, paint, opacity, d)
            == Blended(scene.env, SrcOver, Scaled(DrawnOver(scene, drawing, paint, CLEAR), opacity), d)
  {
    hide Blended, Scaled, Source, InRange, ComposedFaded, Composed, Fades;
    match scene.own(drawing)
    case Some(own) => FadingDistributes(scene.env, own, DRAW_PAINT, scene.content(drawing), opacity, d);
    case None => FadingDistributes(scene.env, paint, scene.flags(drawing), scene.content(drawing), opacity, d);
  }

  lemma DrawInStep(scene: Scene, flat: seq<Surface>, faded: seq<Surface>, tally: seq<bool>, opacity: real, d: Pixel,
                   drawing: nat, paint: Paint, g: Geometry, compatible: bool)
    requires InStep(scene, flat, faded, tally, opacity, d) && InRange(d)
    requires compatible ==> DrawFades(scene, drawing, paint)
    ensures var mark := Drawn(drawing, paint, g);
            InStep(scene, Show(scene, flat, mark), ShowFaded(scene, opacity, faded, mark),
                   Tallied(tally, |flat| == 1, compatible), opacity, d)
  {
    hide Blended, Scaled, DrawnOver, DrawnFaded, DrawFades, Distributes, InRange;
    LoneEntry(tally, compatible);
    NoneTallied();
    ClearFades(scene.env, opacity, d);
    if |flat| == 1 && compatible {
      RootDrawFades(scene, drawing, paint, opacity, d);
    }
  }

  lemma NoneTallied()
    ensures Distributes([])
  {
  }

  lemma OpenInStep(scene: Scene, flat: seq<Surface>, faded: seq<Surface>, tally: seq<bool>, opacity: real, d: Pixel,
                   layer: nat, withPaint: bool, paint: Paint, g: Geometry, compatible: bool)
    requires InStep(scene, flat, faded, tally, opacity, d)
    requires compatible ==> !withPaint || OpacityCompatible(paint)
    ensures var mark := LayerOpened(layer, withPaint, paint, g);
            InStep(scene, Show(scene, flat, mark), ShowFaded(scene, opacity, faded, mark),
                   Tallied(tally, |flat| == 1, compatible), opacity, d)
  {
    hide Blended, Scaled, Distributes, OpacityCompatible;
    LoneEntry(tally, compatible);
    NoneTallied();
    assert tally != [] ==> Tallied(tally, |flat| == 1, compatible) != [];
    var blank := Surface(CLEAR, withPaint, paint, scene.inside(g.clips));
    assert (flat + [blank])[1..] == flat[1..] + [blank] && (faded + [blank])[1..] == faded[1..] + [blank];
  }

  lemma CloseInStep(scene: Scene, flat: seq<Surface>, faded: seq<Surface>, tally: seq<bool>, opacity: real, d: Pixel,
                    flag: bool)
    requires InStep(scene, flat, faded, tally, opacity, d) && |flat| > 1 && Lawful(scene.env) && InRange(d)
    ensures var mark := LayerClosed(flag);
            InStep(scene, Show(scene, flat, mark), ShowFaded(scene, opacity, faded, mark), tally, opacity, d)
  {
    hide Blended, Scaled, Distributes, OpacityCompatible, InRange, Closed, ClosedFaded, Lawful;
    var n := |flat| - 1;
    assert flat[n] == flat[1..][n - 1] && faded[n] == faded[1..][n - 1];
    ClosedInRange(scene, flat[n], flat[n - 1].pixel);
    if n == 1 {
      if Distributes(tally) {
        RootLayerFades(scene, flat[1], opacity, d);
      }
    } else {
      ClosesAbove(scene, flat, faded, flag);
    }
  }

  /** A layer closed above the first one is closed alike on both. */
  lemma ClosesAbove(scene: Scene, flat: seq<Surface>, faded: seq<Surface>, flag: bool)
    requires |flat| == |faded| > 2 && flat[1..] == faded[1..]
    ensures var a, b := Show(scene, flat, LayerClosed(flag)), Show(scene, faded, LayerClosed(flag));
            && |a| == |b| == |flat| - 1 && a[1..] == b[1..] && a[0] == flat[0] && b[0] == faded[0]
            && a[1].paint == flat[1].paint && a[1].withPaint == flat[1].withPaint
  {
    hide Closed;
    var n := |flat| - 1;
    assert forall k :: 1 <= k <= n ==> flat[k] == flat[1..][k - 1] && faded[k] == faded[1..][k - 1];
    var a, b := Show(scene, flat, LayerClosed(flag)), Show(scene, faded, LayerClosed(flag));
    assert forall k :: 1 <= k < n ==> a[k] == b[k];
  }

  lemma RootLayerFades(scene: Scene, layer: Surface, opacity: real, d: Pixel)
    requires LayerFades(layer) && InRange(layer.pixel) && Lawful(scene.env) && InRange(d)
    ensures ClosedFaded(scene, layer, opacity, Blended(scene.env, SrcOver, Scaled(CLEAR, opacity), d))
            == Blended(scene.env, SrcOver, Scaled(Closed(scene, layer, CLEAR), opacity), d)
  {
    hide Blended, Scaled, InRange, Composed, ComposedFaded, Source, Lawful;
    ClearFades(scene.env, opacity, d);
    var flags := LayerFlags(layer.withPaint);
    PlainSourceInRange(scene.env, layer.paint, flags, layer.pixel);
    if layer.inside {
      FadingDistributes(scene.env, layer.paint, flags, layer.pixel, opacity, d);
    }
  }

  // ----- the tally of the root group -----

  /** The answers of the root group, plain saves flattened: those below the first open layer. */
  function RootTally(levels: seq<CanvasLevel>): seq<bool> {
    if levels == [] then [] else
    var n := |levels| - 1;
    RootTally(levels[..n]) + if Layers(levels, KeptLayer) > 0 then [] else levels[n].tally
  }

  lemma RootTallyNext(levels: seq<CanvasLevel>, level: CanvasLevel)
    ensures RootTally(levels + [level]) ==
            RootTally(levels) + if Layers(levels, KeptLayer) > 0 || level.kind == KeptLayer then [] else level.tally
    ensures Layers(levels + [level], KeptLayer) == Layers(levels, KeptLayer) + if level.kind == KeptLayer then 1 else 0
  {
    LayersNext(levels, level, KeptLayer);
    hide Layers;
    assert (levels + [level])[..|levels + [level]| - 1] == levels;
  }

  /** The top level's answers count exactly at the root. */
  lemma RootTallyTop(levels: seq<CanvasLevel>, level: CanvasLevel)
    requires levels != [] && level.kind == levels[|levels| - 1].kind
    ensures var n := |levels| - 1;
            var after := levels[n := level];
            && Layers(after, KeptLayer) == Layers(levels, KeptLayer)
            && RootTally(after) == RootTally(levels[..n]) + (if Layers(levels, KeptLayer) > 0 then [] else level.tally)
            && RootTally(levels) == RootTally(levels[..n]) + if Layers(levels, KeptLayer) > 0 then [] else levels[n].tally
  {
    var n := |levels| - 1;
    assert levels == levels[..n] + [levels[n]] && levels[n := level] == levels[..n] + [level];
    LayersNext(levels[..n], levels[n], KeptLayer);
    RootTallyNext(levels[..n], levels[n]);
    RootTallyNext(levels[..n], level);
  }

  ghost predicate FadeOk(scene: Scene, c: Canvas, opacity: real, d: Pixel) {
    var flat, faded := Shown(scene, c.marks, CLEAR, false), ShownFaded(scene, opacity, c.marks, d);
    && c.levels != [] && c.levels[0].kind == PlainLevel && |flat| == 1 + Layers(c.levels, KeptLayer)
    && InStep(scene, flat, faded, RootTally(c.levels), opacity, d)
  }

  lemma LevelsChange(scene: Scene, c: Canvas, opacity: real, d: Pixel, c': Canvas)
    requires FadeOk(scene, c, opacity, d) && c'.marks == c.marks && c'.levels != [] && c'.levels[0].kind == PlainLevel
    requires RootTally(c'.levels) == RootTally(c.levels) && Layers(c'.levels, KeptLayer) == Layers(c.levels, KeptLayer)
    ensures FadeOk(scene, c', opacity, d)
  {
  }

  /** A mark the recorder drops, and levels that change nothing at the root. */
  lemma DroppedChange(scene: Scene, c: Canvas, opacity: real, d: Pixel, mark: Mark, levels: seq<CanvasLevel>)
    requires FadeOk(scene, c, opacity, d) && levels != [] && levels[0].kind == PlainLevel
    requires RootTally(levels) == RootTally(c.levels) && Layers(levels, KeptLayer) == Layers(c.levels, KeptLayer)
    ensures FadeOk(scene, Marked(c, mark, false).(levels := levels), opacity, d)
  {
    hide InStep, Shown, ShownFaded, RootTally, Layers;
    ShownNext(scene, c, CLEAR, false, mark, false);
    FadedNext(scene, opacity, c, d, mark, false);
  }

  // ----- calls -----

  /** Operations that always take an opacity compose plainly. */
  predicate Fair(call: CanvasCall) {
    match call
    case DoDraw(Painted(_, flags, _, rule)) => rule == Fixed(true) ==> !flags.blend && !flags.colorFilter
    case DoDraw(Unpainted(_, judged, compatible)) => compatible && judged.Some? ==> OpacityCompatible(judged.value)
    case _ => true
  }

  ghost predicate ContentInRange(scene: Scene) { forall drawing :: InRange(scene.content(drawing)) }

  lemma SaveFades(scene: Scene, c: Canvas, opacity: real, d: Pixel)
    requires FadeOk(scene, c, opacity, d)
    ensures FadeOk(scene, Saved(c), opacity, d)
  {
    hide InStep, Shown, ShownFaded;
    var level := Top(c).(kind := PlainLevel, tally := []);
    RootTallyNext(c.levels, level);
    hide RootTally, Layers;
    assert RootTally(c.levels) + [] == RootTally(c.levels);
    LevelsChange(scene, c, opacity, d, Saved(c));
  }

  /** A new top level with the same answers. */
  lemma TopFades(scene: Scene, c: Canvas, opacity: real, d: Pixel, level: CanvasLevel)
    requires FadeOk(scene, c, opacity, d) && level.kind == Top(c).kind && level.tally == Top(c).tally
    ensures FadeOk(scene, SetTop(c, level), opacity, d)
  {
    RootTallyTop(c.levels, level);
    hide InStep, Shown, ShownFaded, RootTally, Layers;
    LevelsChange(scene, c, opacity, d, SetTop(c, level));
  }

  lemma MergedTally(levels: seq<CanvasLevel>, level: CanvasLevel)
    requires |levels| > 1
    requires var n := |levels| - 1;
             levels[n].kind != KeptLayer && level == levels[n - 1].(tally := levels[n - 1].tally + levels[n].tally)
    ensures var outer := levels[..|levels| - 1][|levels| - 2 := level];
            RootTally(outer) == RootTally(levels) && Layers(outer, KeptLayer) == Layers(levels, KeptLayer)
  {
    var n := |levels| - 1;
    var outer := levels[..n];
    assert levels == outer + [levels[n]];
    RootTallyNext(outer, levels[n]);
    RootTallyTop(outer, level);
    hide RootTally, Layers;
    var base := RootTally(outer[..n - 1]);
    if Layers(outer, KeptLayer) == 0 {
      assert base + (outer[n - 1].tally + levels[n].tally) == base + outer[n - 1].tally + levels[n].tally;
    } else {
      assert base + [] == base;
    }
  }

  lemma RestoreFades(scene: Scene, c: Canvas, opacity: real, d: Pixel)
    requires FadeOk(scene, c, opacity, d) && Lawful(scene.env) && InRange(d)
    ensures FadeOk(scene, Restored(c), opacity, d)
  {
    if |c.levels| > 1 {
      hide InStep, Shown, ShownFaded, Show, ShowFaded, Distributes, Lawful, InRange;
      var n := |c.levels| - 1;
      var top, outer := Top(c), c.(levels := c.levels[..n]);
      var merged := c.levels[n - 1].(tally := c.levels[n - 1].tally + top.tally);
      if top.kind == KeptLayer {
        KeptLayerFades(scene, c, opacity, d);
      } else {
        MergedTally(c.levels, merged);
        hide RootTally, Layers;
        if top.kind == PlainLevel {
          LevelsChange(scene, c, opacity, d, Restored(c));
        } else {
          DroppedChange(scene, c, opacity, d, LayerClosed(Distributes(top.tally)), c.levels[..n][n - 1 := merged]);
        }
      }
    }
  }

  lemma KeptLayerFades(scene: Scene, c: Canvas, opacity: real, d: Pixel)
    requires FadeOk(scene, c, opacity, d) && Lawful(scene.env) && InRange(d) && |c.levels| > 1 && Top(c).kind == KeptLayer
    ensures FadeOk(scene, Restored(c), opacity, d)
  {
    hide InStep, Shown, ShownFaded, Show, ShowFaded, Distributes, Lawful, InRange;
    var n := |c.levels| - 1;
    var outer, flag := c.(levels := c.levels[..n]), Distributes(Top(c).tally);
    assert c.levels == outer.levels + [c.levels[n]];
    RootTallyNext(outer.levels, c.levels[n]);
    hide RootTally, Layers;
    assert RootTally(outer.levels) + [] == RootTally(outer.levels);
    var flat, faded := Shown(scene, c.marks, CLEAR, false), ShownFaded(scene, opacity, c.marks, d);
    CloseInStep(scene, flat, faded, RootTally(c.levels), opacity, d, flag);
    ShowHeights(scene, flat, LayerClosed(flag));
    ShownNext(scene, outer, CLEAR, false, LayerClosed(flag), true);
    FadedNext(scene, opacity, outer, d, LayerClosed(flag), true);
  }

  lemma ShowHeights(scene: Scene, stack: seq<Surface>, mark: Mark)
    ensures mark.Drawn? ==> |Show(scene, stack, mark)| == |stack|
    ensures mark.LayerOpened? ==> |Show(scene, stack, mark)| == |stack| + 1
    ensures mark.LayerClosed? && |stack| > 1 ==> |Show(scene, stack, mark)| == |stack| - 1
  {
    hide DrawnOver, Closed;
  }

  lemma {:induction false} RestoreToFades(scene: Scene, c: Canvas, opacity: real, d: Pixel, count: int)
    requires FadeOk(scene, c, opacity, d) && Lawful(scene.env) && InRange(d) && c.levels != []
    ensures FadeOk(scene, RestoredTo(c, count), opacity, d)
    decreases |c.levels|
  {
    hide FadeOk, Lawful, InRange;
    if count < |c.levels| && |c.levels| > 1 {
      RestoreFades(scene, c, opacity, d);
      RestoreToFades(scene, Restored(c), opacity, d, count);
    }
  }

  /** A kept mark, its answer at the root if it is there, and the levels it leaves. */
  lemma LevelTallied(levels: seq<CanvasLevel>, compatible: bool)
    requires levels != []
    ensures var n := |levels| - 1;
            var after := levels[n := levels[n].(tally := levels[n].tally + [compatible])];
            && Layers(after, KeptLayer) == Layers(levels, KeptLayer)
            && RootTally(after) == Tallied(RootTally(levels), Layers(levels, KeptLayer) == 0, compatible)
  {
    var n := |levels| - 1;
    RootTallyTop(levels, levels[n].(tally := levels[n].tally + [compatible]));
    hide RootTally, Layers;
    var base := RootTally(levels[..n]);
    assert base + (levels[n].tally + [compatible]) == base + levels[n].tally + [compatible];
  }

  lemma DrawMarkFades(scene: Scene, c: Canvas, opacity: real, d: Pixel, drawing: nat, kept: bool, compatible: bool)
    requires FadeOk(scene, c, opacity, d) && InRange(d)
    requires compatible ==> DrawFades(scene, drawing, c.paint)
    ensures FadeOk(scene, DrawMarked(c, drawing, kept, compatible), opacity, d)
  {
    LevelTallied(c.levels, compatible);
    hide InStep, Shown, ShownFaded, Show, ShowFaded, InRange, DrawFades, RootTally, Layers;
    var g := Top(c).geometry;
    var mark := Drawn(drawing, c.paint, g);
    if kept {
      var flat, faded := Shown(scene, c.marks, CLEAR, false), ShownFaded(scene, opacity, c.marks, d);
      DrawInStep(scene, flat, faded, RootTally(c.levels), opacity, d, drawing, c.paint, g, compatible);
      ShowHeights(scene, flat, mark);
      ShownNext(scene, c, CLEAR, false, mark, true);
      FadedNext(scene, opacity, c, d, mark, true);
    } else {
      DroppedChange(scene, c, opacity, d, mark, c.levels);
    }
  }

  lemma LayerSaveFades(scene: Scene, c: Canvas, opacity: real, d: Pixel, layer: nat, bounds: Option<nat>, withPaint: bool)
    requires FadeOk(scene, c, opacity, d)
    ensures FadeOk(scene, LayerSaved(c, layer, bounds, withPaint), opacity, d)
  {
    hide InStep, Shown, ShownFaded, Show, ShowFaded, PaintResult, LayerTrack, OpacityCompatible;
    var top := Top(c);
    var mark := LayerOpened(layer, withPaint, c.paint, top.geometry);
    if PaintResult(top.dead, c.paint, LayerFlags(withPaint)) == NoEffect {
      var level := top.(dead := true, kind := DroppedLayer, tally := []);
      RootTallyNext(c.levels, level);
      hide RootTally, Layers;
      assert RootTally(c.levels) + [] == RootTally(c.levels);
      DroppedChange(scene, c, opacity, d, mark, c.levels + [level]);
    } else {
      KeptLayerOpens(scene, c, opacity, d, layer, bounds, withPaint);
    }
  }

  lemma KeptLayerOpens(scene: Scene, c: Canvas, opacity: real, d: Pixel, layer: nat, bounds: Option<nat>, withPaint: bool)
    requires FadeOk(scene, c, opacity, d)
    requires PaintResult(Top(c).dead, c.paint, LayerFlags(withPaint)) != NoEffect
    ensures FadeOk(scene, LayerSaved(c, layer, bounds, withPaint), opacity, d)
  {
    hide InStep, Shown, ShownFaded, Show, ShowFaded, PaintResult, LayerTrack, OpacityCompatible, RootTally, Layers, Tallied;
    var top := Top(c);
    var mark := LayerOpened(layer, withPaint, c.paint, top.geometry);
    var compatible := !withPaint || OpacityCompatible(c.paint);
    var filtered := withPaint && c.paint.imageFilter.Some?;
    var t := Tally(c, compatible);
    var level := top.(track := LayerTrack(top.track, bounds, filtered), kind := KeptLayer,
                      tally := if compatible && !filtered then [] else [false]);
    LevelTallied(c.levels, compatible);
    RootTallyNext(t.levels, level);
    assert RootTally(t.levels) + [] == RootTally(t.levels);
    var flat, faded := Shown(scene, c.marks, CLEAR, false), ShownFaded(scene, opacity, c.marks, d);
    OpenInStep(scene, flat, faded, RootTally(c.levels), opacity, d, layer, withPaint, c.paint, top.geometry, compatible);
    ShowHeights(scene, flat, mark);
    ShownNext(scene, t, CLEAR, false, mark, true);
    FadedNext(scene, opacity, t, d, mark, true);
    assert LayerSaved(c, layer, bounds, withPaint).levels == t.levels + [level];
  }

  lemma AdoptFades(scene: Scene, c: Canvas, opacity: real, d: Pixel, paint: Paint, flags: OpFlags)
    requires FadeOk(scene, c, opacity, d)
    ensures FadeOk(scene, Adopt(c, paint, flags), opacity, d)
  {
    hide InStep, Shown, ShownFaded, RootTally, Layers, Adopted, Requested;
  }

  lemma PaintedFades(scene: Scene, c: Canvas, flags: OpFlags, drawing: nat, rule: OpacityRule)
    requires scene.flags(drawing) == flags && scene.own(drawing) == None && Lawful(scene.env) && ContentInRange(scene)
    requires rule == Fixed(true) ==> !flags.blend && !flags.colorFilter
    ensures TakesOpacity(rule, c.paint) ==> DrawFades(scene, drawing, c.paint)
  {
    hide Source, InRange, Lawful;
    if TakesOpacity(rule, c.paint) {
      if rule == Fixed(true) {
        PlainSourceInRange(scene.env, c.paint, flags, scene.content(drawing));
      } else {
        CompatibleFades(scene.env, c.paint, flags, scene.content(drawing));
      }
    }
  }

  lemma UnpaintedFades(scene: Scene, c: Canvas, drawing: nat, judged: Option<Paint>)
    requires scene.own(drawing) == judged && scene.flags(drawing) == IGNORES_PAINT
    requires Lawful(scene.env) && ContentInRange(scene) && (judged.Some? ==> OpacityCompatible(judged.value))
    ensures DrawFades(scene, drawing, c.paint)
  {
    hide Source, InRange, Lawful;
    match judged
    case Some(own) => CompatibleFades(scene.env, own, DRAW_PAINT, scene.content(drawing));
    case None => PlainSourceInRange(scene.env, c.paint, IGNORES_PAINT, scene.content(drawing));
  }

  lemma CallFades(scene: Scene, probe: Probe, c: Canvas, opacity: real, d: Pixel, call: CanvasCall)
    requires FadeOk(scene, c, opacity, d) && c.levels != [] && Lawful(scene.env) && ContentInRange(scene) && InRange(d)
    requires Proper(scene, call) && Fair(call)
    ensures FadeOk(scene, Performed(probe, c, call), opacity, d)
  {
    hide FadeOk, Lawful, Judgeable, PaintResult, Judged, DrawMarked, LayerSaved, Restored, RestoredTo, Saved,
         TakesOpacity, DrawFades, ContentInRange, InRange, Transformed;
    match call
    case DoSave => SaveFades(scene, c, opacity, d);
    case DoSaveLayer(layer, bounds, paint) =>
      if paint.Some? {
        AdoptFades(scene, c, opacity, d, paint.value, SAVE_LAYER_WITH_PAINT);
        LayerSaveFades(scene, Adopt(c, paint.value, SAVE_LAYER_WITH_PAINT), opacity, d, layer, bounds, true);
      } else {
        LayerSaveFades(scene, c, opacity, d, layer, bounds, false);
      }
    case DoRestore => RestoreFades(scene, c, opacity, d);
    case DoRestoreToCount(count) => RestoreToFades(scene, c, opacity, d, count);
    case DoTransform(t) => TopFades(scene, c, opacity, d, Top(Transforming(c, t)));
    case DoClip(clip) => TopFades(scene, c, opacity, d, Top(Clipped(probe, c, clip)));
    case DoDraw(Painted(drawing, flags, paint, rule)) =>
      AdoptFades(scene, c, opacity, d, paint, flags);
      var a := Adopt(c, paint, flags);
      PaintedFades(scene, a, flags, drawing, rule);
      var kept := PaintResult(Top(a).dead, a.paint, flags) != NoEffect && probe.isVisible(Top(a).track, drawing, a.paint);
      DrawMarkFades(scene, a, opacity, d, drawing, kept, TakesOpacity(rule, a.paint));
    case DoDraw(Unpainted(drawing, judged, compatible)) =>
      if compatible {
        UnpaintedFades(scene, c, drawing, judged);
      }
      var kept := Judged(Top(c).dead, judged) != NoEffect && probe.isVisible(Top(c).track, drawing, c.paint);
      DrawMarkFades(scene, c, opacity, d, drawing, kept, compatible);
  }

  lemma {:induction false} RunFades(scene: Scene, probe: Probe, calls: seq<CanvasCall>, opacity: real, d: Pixel)
    requires Lawful(scene.env) && ContentInRange(scene) && InRange(d)
    requires forall i :: 0 <= i < |calls| ==> Proper(scene, calls[i]) && Fair(calls[i])
    ensures FadeOk(scene, PerformAll(probe, calls), opacity, d)
  {
    hide Lawful, ContentInRange, Proper, Performed, Fair;
    if calls == [] {
      BlankFades(scene, opacity, d);
    } else {
      hide FadeOk;
      var n := |calls| - 1;
      RunFades(scene, probe, calls[..n], opacity, d);
      CallFades(scene, probe, PerformAll(probe, calls[..n]), opacity, d, calls[n]);
    }
  }

  lemma BlankFades(scene: Scene, opacity: real, d: Pixel)
    requires InRange(d)
    ensures FadeOk(scene, BLANK, opacity, d)
  {
    ClearFades(scene.env, opacity, d);
    hide Blended, Scaled;
    RootTallyNext([], BLANK.levels[0]);
    assert [] + [BLANK.levels[0]] == BLANK.levels;
    assert Shown(scene, BLANK.marks, CLEAR, false) == [Root(CLEAR)];
  }

  /**
   Any calls whose root group distributes an opacity: fading the one operation or
   layer at the root shows what compositing the whole group through a faded layer shows.
   */
  lemma GroupOpacityExact(scene: Scene, probe: Probe, calls: seq<CanvasCall>, opacity: real, d: Pixel)
    requires Lawful(scene.env) && ContentInRange(scene) && InRange(d)
    requires forall i :: 0 <= i < |calls| ==> Proper(scene, calls[i]) && Fair(calls[i])
    ensures var c := RestoredTo(PerformAll(probe, calls), 1);
            Distributes(c.levels[0].tally) ==>
              var group, faded := Shown(scene, c.marks, CLEAR, false), ShownFaded(scene, opacity, c.marks, d);
              && |group| == |faded| == 1
              && faded[0].pixel == Blended(scene.env, SrcOver, Scaled(group[0].pixel, opacity), d)
  {
    hide Shown, ShownFaded, Lawful, ContentInRange, Proper, Fair, Blended, Scaled, Distributes;
    var c := PerformAll(probe, calls);
    RunFades(scene, probe, calls, opacity, d);
    RestoreToFades(scene, c, opacity, d, 1);
    var e := RestoredTo(c, 1);
    assert e.levels[..0] == [];
    assert Layers(e.levels, KeptLayer) == 0 && RootTally(e.levels) == e.levels[0].tally;
  }
}
