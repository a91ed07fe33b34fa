/**
 One pixel through the whole recorder: what an immediate canvas shows there after
 any calls, and what remains when everything the recorder drops is left out.

 The recorder drops operations judged to have no effect, operations it takes to lie
 outside the clip, layers judged to have no effect with all they hold, and all that
 happens under an empty clip.  None of it changes the pixel, provided the clip
 tracker does not deny what touches the pixel and no paint is one of the misjudged.
 */
module Pixels {
  import opened Records
  import opened PaintRules
  import opened Player
  import opened Canvas
  import opened Blend

  // ----- a pixel and what touches it -----

  /**
   What the operations mean at the pixel: the flags and the content of a drawing,
   the paint of its own it may carry, whether it touches the pixel, and whether the
   pixel lies inside some clips.
   */
  datatype Scene = Scene(
    env: Renderer,
    flags: nat -> OpFlags,
    content: nat -> Pixel,
    own: nat -> Option<Paint>,
    touches: (nat, Paint, Geometry) -> bool,
    inside: seq<(Clip, Matrix)> -> bool)

  /** A surface being drawn on, and how it will be composed with the one below. */
  datatype Surface = Surface(pixel: Pixel, withPaint: bool, paint: Paint, inside: bool)

  function Root(d: Pixel): Surface { Surface(d, false, DEFAULT_PAINT, true) }

  function DrawnOver(scene: Scene, drawing: nat, paint: Paint, d: Pixel): (r: Pixel)
    ensures InRange(r)
  {
    match scene.own(drawing)
    case Some(own) => Composed(scene.env, own, DRAW_PAINT, scene.content(drawing), d)
    case None => Composed(scene.env, paint, scene.flags(drawing), scene.content(drawing), d)
  }

  function Show(scene: Scene, stack: seq<Surface>, mark: Mark): seq<Surface> {
    var n := |stack| - 1;
    match mark
    case Drawn(drawing, paint, g) =>
      if n >= 0 && scene.inside(g.clips) && scene.touches(drawing, paint, g)
      then stack[n := stack[n].(pixel := DrawnOver(scene, drawing, paint, stack[n].pixel))]
      else stack
    case LayerOpened(_, withPaint, paint, g) => stack + [Surface(CLEAR, withPaint, paint, scene.inside(g.clips))]
    case LayerClosed(_) =>
      if n < 1 then stack else
      stack[..n][n - 1 := stack[n - 1].(pixel := Closed(scene, stack[n], stack[n - 1].pixel))]
  }

  /** A finished layer over the surface below it. */
  function Closed(scene: Scene, layer: Surface, d: Pixel): Pixel {
    if layer.inside then Composed(scene.env, layer.paint, LayerFlags(layer.withPaint), layer.pixel, d) else d
  }

  /** The surfaces after some marks: all of them, or the kept ones only. */
  function Shown(scene: Scene, marks: seq<CanvasMark>, d: Pixel, all: bool): seq<Surface> {
    if marks == [] then [Root(d)] else
    var before := Shown(scene, marks[..|marks| - 1], d, all);
    var last := marks[|marks| - 1];
    if all || last.kept then Show(scene, before, last.mark) else before
  }

  /** The surfaces after a receiver's marks. */
  function Played(scene: Scene, marks: seq<Mark>, d: Pixel): seq<Surface> {
    if marks == [] then [Root(d)] else Show(scene, Played(scene, marks[..|marks| - 1], d), marks[|marks| - 1])
  }

  lemma PlayedNext(scene: Scene, marks: seq<Mark>, d: Pixel, mark: Mark)
    ensures Played(scene, marks + [mark], d) == Show(scene, Played(scene, marks, d), mark)
  {
    hide Show;
    assert (marks + [mark])[..|marks + [mark]| - 1] == marks;
  }

  lemma ShownNext(scene: Scene, c: Canvas, d: Pixel, all: bool, mark: Mark, kept: bool)
    ensures Shown(scene, Marked(c, mark, kept).marks, d, all) ==
            if all || kept then Show(scene, Shown(scene, c.marks, d, all), mark) else Shown(scene, c.marks, d, all)
  {
    hide Show;
    var marks := Marked(c, mark, kept).marks;
    assert marks[..|marks| - 1] == c.marks;
  }

  // ----- what is taken for granted -----

  /** The clips of the tracker that shapes were given for; layer bounds are hints. */
  function Shapes(clips: seq<TrackedClip>): seq<(Clip, Matrix)> {
    if clips == [] then [] else
    var last := clips[|clips| - 1];
    Shapes(clips[..|clips| - 1]) + if last.ShapeClip? then [(last.clip, last.ctm)] else []
  }

  lemma ShapesNext(clips: seq<TrackedClip>, x: TrackedClip)
    ensures Shapes(clips + [x]) == Shapes(clips) + if x.ShapeClip? then [(x.clip, x.ctm)] else []
  {
    assert (clips + [x])[..|clips + [x]| - 1] == clips;
  }

  /** The tracker calls nothing empty or invisible that reaches the pixel, and a further clip adds no pixels. */
  ghost predicate Sound(scene: Scene, probe: Probe) {
    && (forall t: Track :: probe.isEmpty(t) ==> !scene.inside(Shapes(t.clips)))
    && (forall t: Track, drawing, paint :: !probe.isVisible(t, drawing, paint) && scene.inside(Shapes(t.clips)) ==>
          !scene.touches(drawing, paint, Geometry(t.ctm, Shapes(t.clips))))
    && (forall clips, x :: scene.inside(clips + [x]) ==> scene.inside(clips))
  }

  /** An operation the recorder can judge at one pixel, and does not misjudge. */
  ghost predicate Judgeable(env: Renderer, paint: Paint, flags: OpFlags, content: Pixel) {
    && Describes(env, paint) && Unfiltered(paint, flags)
    && (PaintResult(false, paint, flags) == NoEffect ==> !Misjudged(paint, flags, content))
  }

  /** The scene knows the operation, and its paint can be judged. */
  ghost predicate Proper(scene: Scene, call: CanvasCall) {
    match call
    case DoSaveLayer(_, _, Some(paint)) => Judgeable(scene.env, paint, SAVE_LAYER_WITH_PAINT, CLEAR)
    case DoDraw(Painted(drawing, flags, paint, _)) =>
      && scene.flags(drawing) == flags && scene.own(drawing) == None
      && (flags.color ==> flags.shader) && Judgeable(scene.env, paint, flags, scene.content(drawing))
    case DoDraw(Unpainted(drawing, judged, _)) =>
      && scene.flags(drawing) == IGNORES_PAINT && scene.own(drawing) == judged
      && (judged.Some? ==> Judgeable(scene.env, judged.value, DRAW_PAINT, scene.content(drawing)))
    case _ => true
  }

  // ----- paints -----

  /** The paint in force is judged as the caller's is, on what the operation honours. */
  lemma AdoptedJudgeable(env: Renderer, p: Paint, paint: Paint, flags: OpFlags, content: Pixel)
    requires Describes(env, p) && Judgeable(env, paint, flags, content) && (flags.color ==> flags.shader)
    ensures Judgeable(env, Adopted(p, paint, flags), flags, content)
  {
    hide Adopted, PaintResult, Misjudged;
    AdoptedFields(p, paint, flags);
    if flags.color {
      AdoptedResult(p, paint, flags);
      if flags.blend {
        AdoptedMisjudged(p, paint, flags, content);
      } else {
        NeverNothing(Adopted(p, paint, flags), flags);
      }
    } else {
      OnlyColored(Adopted(p, paint, flags), flags, content);
    }
  }

  lemma NeverNothing(paint: Paint, flags: OpFlags)
    requires !flags.blend
    ensures PaintResult(false, paint, flags) != NoEffect
  {
  }

  lemma OnlyColored(paint: Paint, flags: OpFlags, content: Pixel)
    requires !flags.color
    ensures !Misjudged(paint, flags, content)
  {
  }

  /** The paint in force has the effect the caller's has. */
  lemma AdoptedResult(p: Paint, paint: Paint, flags: OpFlags)
    requires flags.color && flags.shader
    ensures PaintResult(false, Adopted(p, paint, flags), flags) == PaintResult(false, paint, flags)
  {
    AdoptedFields(p, paint, flags);
    hide Adopted;
    var a := Adopted(p, paint, flags);
    assert EffectiveColor(a, flags) == EffectiveColor(paint, flags);
    hide EffectiveColor;
  }

  lemma AdoptedMisjudged(p: Paint, paint: Paint, flags: OpFlags, content: Pixel)
    requires flags.color && flags.shader && flags.blend
    ensures Misjudged(Adopted(p, paint, flags), flags, content) == Misjudged(paint, flags, content)
  {
    AdoptedFields(p, paint, flags);
    hide Adopted;
  }

  lemma AdoptedFields(p: Paint, paint: Paint, flags: OpFlags)
    ensures Honours(Adopted(p, paint, flags), p, paint, flags)
    ensures flags.shader && RequestOf(paint.source) == ToColor ==>
              Adopted(p, paint, flags).source == None && Adopted(p, paint, flags).color == paint.source.value.color
  {
    AdoptedHonours(p, paint, flags);
    hide Adopted;
  }

  lemma NoEffectShows(env: Renderer, paint: Paint, flags: OpFlags, content: Pixel, d: Pixel)
    requires Lawful(env) && Judgeable(env, paint, flags, content) && InRange(d)
    requires PaintResult(false, paint, flags) == NoEffect
    ensures Composed(env, paint, flags, content, d) == d
  {
    hide Composed, Misjudged, Describes, PaintResult;
    NoEffectSound(env, paint, flags, content, d);
  }

  // ----- levels -----

  function Layers(levels: seq<CanvasLevel>, kind: LevelKind): nat {
    if levels == [] then 0
    else Layers(levels[..|levels| - 1], kind) + if levels[|levels| - 1].kind == kind then 1 else 0
  }

  lemma LayersNext(levels: seq<CanvasLevel>, level: CanvasLevel, kind: LevelKind)
    ensures Layers(levels + [level], kind) == Layers(levels, kind) + if level.kind == kind then 1 else 0
  {
    assert (levels + [level])[..|levels + [level]| - 1] == levels;
  }

  /** A dead level can show nothing here, and no layer is kept inside a dropped one. */
  ghost predicate LevelOk(scene: Scene, levels: seq<CanvasLevel>, i: nat)
    requires i < |levels|
  {
    var level := levels[i];
    && level.geometry == Geometry(level.track.ctm, Shapes(level.track.clips))
    && (level.dead ==> Layers(levels[..i + 1], DroppedLayer) > 0 || !scene.inside(level.geometry.clips))
    && (Layers(levels[..i + 1], DroppedLayer) > 0 ==> level.dead)
    && (level.kind == KeptLayer ==> Layers(levels[..i], DroppedLayer) == 0)
    && (i == 0 ==> level.kind == PlainLevel)
  }

  ghost predicate LevelsOk(scene: Scene, levels: seq<CanvasLevel>) {
    levels != [] && forall i :: 0 <= i < |levels| ==> LevelOk(scene, levels, i)
  }

  /** Whatever is drawn on it, closing it changes nothing. */
  ghost predicate Harmless(scene: Scene, layer: Surface) {
    layer.inside ==>
      && Judgeable(scene.env, layer.paint, LayerFlags(layer.withPaint), CLEAR)
      && PaintResult(false, layer.paint, LayerFlags(layer.withPaint)) == NoEffect
  }

  ghost predicate AllInRange(stack: seq<Surface>) {
    forall i :: 0 <= i < |stack| ==> InRange(stack[i].pixel)
  }

  /** The kept surfaces are the lower ones of all, and the first dropped one is harmless. */
  ghost predicate StacksOk(scene: Scene, full: seq<Surface>, kept: seq<Surface>) {
    && 1 <= |kept| <= |full| && full[..|kept|] == kept && AllInRange(full)
    && (|full| > |kept| ==> Harmless(scene, full[|kept|]))
  }

  ghost predicate Agree(scene: Scene, c: Canvas, d: Pixel) {
    var full, kept := Shown(scene, c.marks, d, true), Shown(scene, c.marks, d, false);
    && Describes(scene.env, c.paint)
    && LevelsOk(scene, c.levels) && StacksOk(scene, full, kept)
    && |kept| == 1 + Layers(c.levels, KeptLayer)
    && |full| == |kept| + Layers(c.levels, DroppedLayer)
  }

  /** Changing the top level, or adding one, keeps the others. */
  lemma TopLevelSet(scene: Scene, levels: seq<CanvasLevel>, level: CanvasLevel)
    requires LevelsOk(scene, levels)
    requires level.kind == levels[|levels| - 1].kind
    requires level.geometry == Geometry(level.track.ctm, Shapes(level.track.clips))
    requires level.dead ==> Layers(levels, DroppedLayer) > 0 || !scene.inside(level.geometry.clips)
    requires Layers(levels, DroppedLayer) > 0 ==> level.dead
    ensures LevelsOk(scene, levels[|levels| - 1 := level])
    ensures forall kind :: Layers(levels[|levels| - 1 := level], kind) == Layers(levels, kind)
  {
    var n := |levels| - 1;
    var after := levels[n := level];
    assert levels[..n + 1] == levels && after[..n + 1] == after && after[..n] == levels[..n];
    forall i | 0 <= i < |after| ensures LevelOk(scene, after, i) {
      assert LevelOk(scene, levels, i);
      if i < n {
        assert after[..i + 1] == levels[..i + 1] && after[..i] == levels[..i];
      }
    }
  }

  lemma LevelAdded(scene: Scene, levels: seq<CanvasLevel>, level: CanvasLevel)
    requires LevelsOk(scene, levels)
    requires level.geometry == Geometry(level.track.ctm, Shapes(level.track.clips))
    requires level.dead ==>
               Layers(levels, DroppedLayer) > 0 || level.kind == DroppedLayer || !scene.inside(level.geometry.clips)
    requires Layers(levels, DroppedLayer) > 0 || level.kind == DroppedLayer ==> level.dead && level.kind != KeptLayer
    ensures LevelsOk(scene, levels + [level])
  {
    var n := |levels|;
    var after := levels + [level];
    LayersNext(levels, level, DroppedLayer);
    assert after[..n + 1] == after && after[..n] == levels;
    forall i | 0 <= i < |after| ensures LevelOk(scene, after, i) {
      if i < n {
        assert LevelOk(scene, levels, i);
        assert after[..i + 1] == levels[..i + 1] && after[..i] == levels[..i];
      }
    }
  }

  lemma LevelDropped(scene: Scene, levels: seq<CanvasLevel>)
    requires LevelsOk(scene, levels) && |levels| > 1
    ensures var n := |levels| - 1;
            LevelsOk(scene, levels[..n])
            && (levels[n].kind == KeptLayer ==> Layers(levels, DroppedLayer) == 0)
  {
    var n := |levels| - 1;
    assert LevelOk(scene, levels, n);
    forall i | 0 <= i < n ensures LevelOk(scene, levels[..n], i) {
      assert LevelOk(scene, levels, i);
      assert levels[..n][..i + 1] == levels[..i + 1] && levels[..n][..i] == levels[..i];
    }
  }

  // ----- surfaces -----

  /** A draw that is left out touches nothing that shows. */
  lemma DrawShows(scene: Scene, full: seq<Surface>, kept: seq<Surface>, drawing: nat, paint: Paint, g: Geometry,
                  isKept: bool)
    requires StacksOk(scene, full, kept)
    requires isKept ==> |full| == |kept|
    requires !isKept ==> |full| > |kept| || !scene.inside(g.clips) || !scene.touches(drawing, paint, g)
                         || DrawnOver(scene, drawing, paint, full[|full| - 1].pixel) == full[|full| - 1].pixel
    ensures var mark := Drawn(drawing, paint, g);
            var full', kept' := Show(scene, full, mark), if isKept then Show(scene, kept, mark) else kept;
            StacksOk(scene, full', kept') && |full'| == |full| && |kept'| == |kept|
  {
    hide DrawnOver, Judgeable;
  }

  lemma LayerOpens(scene: Scene, full: seq<Surface>, kept: seq<Surface>, layer: nat, withPaint: bool, paint: Paint,
                   g: Geometry, isKept: bool)
    requires StacksOk(scene, full, kept)
    requires isKept ==> |full| == |kept|
    requires !isKept ==> |full| > |kept| || Harmless(scene, Surface(CLEAR, withPaint, paint, scene.inside(g.clips)))
    ensures var mark := LayerOpened(layer, withPaint, paint, g);
            var full', kept' := Show(scene, full, mark), if isKept then Show(scene, kept, mark) else kept;
            StacksOk(scene, full', kept') && |full'| == |full| + 1 && |kept'| == |kept| + if isKept then 1 else 0
  {
    hide Harmless;
  }

  lemma LayerCloses(scene: Scene, full: seq<Surface>, kept: seq<Surface>, flag: bool, isKept: bool)
    requires StacksOk(scene, full, kept) && Lawful(scene.env)
    requires if isKept then |full| == |kept| > 1 else |full| > |kept|
    ensures var mark := LayerClosed(flag);
            var full', kept' := Show(scene, full, mark), if isKept then Show(scene, kept, mark) else kept;
            StacksOk(scene, full', kept') && |full'| == |full| - 1 && |kept'| == |kept| - if isKept then 1 else 0
  {
    var n := |full| - 1;
    ClosedInRange(scene, full[n], full[n - 1].pixel);
    if !isKept && n == |kept| {
      HarmlessCloses(scene, full[n], full[n - 1].pixel);
    }
    hide Harmless, Closed;
  }

  lemma ClosedInRange(scene: Scene, layer: Surface, d: Pixel)
    requires InRange(d)
    ensures InRange(Closed(scene, layer, d))
  {
  }

  lemma HarmlessCloses(scene: Scene, layer: Surface, d: Pixel)
    requires Harmless(scene, layer) && Lawful(scene.env) && InRange(d)
    ensures Closed(scene, layer, d) == d
  {
    hide Composed;
    if layer.inside {
      OnlyColored(layer.paint, LayerFlags(layer.withPaint), layer.pixel);
      hide PaintResult, Describes, Misjudged;
      NoEffectShows(scene.env, layer.paint, LayerFlags(layer.withPaint), layer.pixel, d);
    }
  }

  // ----- calls -----

  lemma TopAgrees(scene: Scene, c: Canvas, d: Pixel, level: CanvasLevel)
    requires Agree(scene, c, d) && level.kind == Top(c).kind
    requires level.geometry == Geometry(level.track.ctm, Shapes(level.track.clips))
    requires level.dead ==> Layers(c.levels, DroppedLayer) > 0 || !scene.inside(level.geometry.clips)
    requires Layers(c.levels, DroppedLayer) > 0 ==> level.dead
    ensures Agree(scene, SetTop(c, level), d)
  {
    hide Shown, LevelsOk, StacksOk, Describes, Shapes;
    assert c.levels != [] by { Nonempty(scene, c.levels); }
    TopLevelSet(scene, c.levels, level);
  }

  lemma Nonempty(scene: Scene, levels: seq<CanvasLevel>)
    requires LevelsOk(scene, levels)
    ensures levels != []
  {
  }

  lemma TopFacts(scene: Scene, c: Canvas)
    requires LevelsOk(scene, c.levels)
    ensures c.levels != []
    ensures var top := Top(c);
            && top.geometry == Geometry(top.track.ctm, Shapes(top.track.clips))
            && (top.dead ==> Layers(c.levels, DroppedLayer) > 0 || !scene.inside(top.geometry.clips))
            && (Layers(c.levels, DroppedLayer) > 0 ==> top.dead)
  {
    assert LevelOk(scene, c.levels, |c.levels| - 1);
    assert c.levels[..|c.levels|] == c.levels;
  }

  lemma TallyAgrees(scene: Scene, c: Canvas, d: Pixel, level: CanvasLevel)
    requires Agree(scene, c, d) && c.levels != [] && level.(tally := []) == Top(c).(tally := [])
    ensures Agree(scene, SetTop(c, level), d)
  {
    hide Shown, LevelsOk, StacksOk, Describes, Shapes;
    TopFacts(scene, c);
    TopAgrees(scene, c, d, level);
  }

  lemma SaveAgrees(scene: Scene, c: Canvas, d: Pixel)
    requires Agree(scene, c, d) && c.levels != []
    ensures Agree(scene, Saved(c), d)
  {
    hide Shown, LevelsOk, StacksOk, Describes, Shapes;
    TopFacts(scene, c);
    var level := Top(c).(kind := PlainLevel, tally := []);
    LevelAdded(scene, c.levels, level);
    LayersNext(c.levels, level, KeptLayer);
    LayersNext(c.levels, level, DroppedLayer);
  }

  lemma TransformAgrees(scene: Scene, c: Canvas, d: Pixel, t: Transform)
    requires Agree(scene, c, d) && c.levels != []
    ensures Agree(scene, Transforming(c, t), d)
  {
    hide Shown, LevelsOk, StacksOk, Describes, Shapes, Transformed;
    TopFacts(scene, c);
    var top := Top(c);
    TopAgrees(scene, c, d, top.(geometry := top.geometry.(ctm := Transformed(top.geometry.ctm, t)),
                                track := top.track.(ctm := Transformed(top.track.ctm, t))));
  }

  lemma ClipAgrees(scene: Scene, probe: Probe, c: Canvas, d: Pixel, clip: Clip)
    requires Agree(scene, c, d) && c.levels != [] && Sound(scene, probe)
    ensures Agree(scene, Clipped(probe, c, clip), d)
  {
    hide Shown, LevelsOk, StacksOk, Describes, Shapes;
    TopFacts(scene, c);
    var top := Top(c);
    var track := top.track.(clips := top.track.clips + [ShapeClip(clip, top.track.ctm)]);
    ShapesNext(top.track.clips, ShapeClip(clip, top.track.ctm));
    TopAgrees(scene, c, d, top.(geometry := top.geometry.(clips := top.geometry.clips + [(clip, top.geometry.ctm)]),
                                track := track, dead := top.dead || probe.isEmpty(track)));
  }

  /** Leaving a level off, below which nothing changes. */
  lemma PlainLevelAgrees(scene: Scene, c: Canvas, d: Pixel)
    requires Agree(scene, c, d) && |c.levels| > 1 && Top(c).kind == PlainLevel
    ensures Agree(scene, Restored(c), d)
  {
    hide Shown, LevelsOk, StacksOk, Describes, Shapes;
    var n := |c.levels| - 1;
    var outer := c.(levels := c.levels[..n]);
    LevelDropped(scene, c.levels);
    TallyAgrees(scene, outer, d, Top(outer).(tally := Top(outer).tally + Top(c).tally));
  }

  lemma LayerAgrees(scene: Scene, c: Canvas, d: Pixel)
    requires Agree(scene, c, d) && |c.levels| > 1 && Top(c).kind != PlainLevel && Lawful(scene.env)
    ensures Agree(scene, Restored(c), d)
  {
    hide Shown, LevelsOk, StacksOk, Describes, Shapes, Show, Distributes;
    var n := |c.levels| - 1;
    var top, outer := Top(c), c.(levels := c.levels[..n]);
    var isKept := top.kind == KeptLayer;
    LevelDropped(scene, c.levels);
    var full, kept := Shown(scene, c.marks, d, true), Shown(scene, c.marks, d, false);
    var flag := Distributes(top.tally);
    LayerCloses(scene, full, kept, flag, isKept);
    ShownNext(scene, outer, d, true, LayerClosed(flag), isKept);
    ShownNext(scene, outer, d, false, LayerClosed(flag), isKept);
    var marked := Marked(outer, LayerClosed(flag), isKept);
    assert Agree(scene, marked, d);
    if !isKept {
      TallyAgrees(scene, marked, d, Top(outer).(tally := Top(outer).tally + top.tally));
    }
  }

  lemma RestoreAgrees(scene: Scene, c: Canvas, d: Pixel)
    requires Agree(scene, c, d) && c.levels != [] && Lawful(scene.env)
    ensures Agree(scene, Restored(c), d)
  {
    hide Agree;
    if |c.levels| > 1 {
      if Top(c).kind == PlainLevel {
        PlainLevelAgrees(scene, c, d);
      } else {
        LayerAgrees(scene, c, d);
      }
    }
  }

  lemma {:induction false} RestoreToAgrees(scene: Scene, c: Canvas, d: Pixel, count: int)
    requires Agree(scene, c, d) && c.levels != [] && Lawful(scene.env)
    ensures Agree(scene, RestoredTo(c, count), d)
    decreases |c.levels|
  {
    hide Agree;
    if count < |c.levels| && |c.levels| > 1 {
      RestoreAgrees(scene, c, d);
      RestoreToAgrees(scene, Restored(c), d, count);
    }
  }

  lemma AdoptAgrees(scene: Scene, c: Canvas, d: Pixel, paint: Paint, flags: OpFlags, content: Pixel)
    requires Agree(scene, c, d) && Judgeable(scene.env, paint, flags, content) && (flags.color ==> flags.shader)
    ensures Agree(scene, Adopt(c, paint, flags), d)
    ensures Judgeable(scene.env, Adopted(c.paint, paint, flags), flags, content)
  {
    hide Shown, LevelsOk, StacksOk, Adopted, Misjudged, Unfiltered, Describes, Requested, PaintResult;
    AdoptedJudgeable(scene.env, c.paint, paint, flags, content);
  }

  lemma LayerSaveAgrees(scene: Scene, c: Canvas, d: Pixel, layer: nat, bounds: Option<nat>, withPaint: bool)
    requires Agree(scene, c, d) && c.levels != []
    requires withPaint ==> Judgeable(scene.env, c.paint, SAVE_LAYER_WITH_PAINT, CLEAR)
    ensures Agree(scene, LayerSaved(c, layer, bounds, withPaint), d)
  {
    hide Shown, LevelsOk, StacksOk, Describes, Shapes, Show, PaintResult, Judgeable;
    TopFacts(scene, c);
    var top := Top(c);
    var mark := LayerOpened(layer, withPaint, c.paint, top.geometry);
    var full, kept := Shown(scene, c.marks, d, true), Shown(scene, c.marks, d, false);
    var isKept := PaintResult(top.dead, c.paint, LayerFlags(withPaint)) != NoEffect;
    LayerJudged(scene.env, top.dead, c.paint, withPaint);
    LayerOpens(scene, full, kept, layer, withPaint, c.paint, top.geometry, isKept);
    if isKept {
      var compatible := !withPaint || OpacityCompatible(c.paint);
      var filtered := withPaint && c.paint.imageFilter.Some?;
      TallyAgrees(scene, c, d, top.(tally := top.tally + [compatible]));
      var t := Tally(c, compatible);
      var level := top.(track := LayerTrack(top.track, bounds, filtered), kind := KeptLayer,
                        tally := if compatible && !filtered then [] else [false]);
      LayerShapes(top.track, bounds, filtered);
      LevelOpens(scene, t, d, mark, true, level);
    } else {
      LevelOpens(scene, c, d, mark, false, top.(dead := true, kind := DroppedLayer, tally := []));
    }
  }

  lemma LayerShapes(track: Track, bounds: Option<nat>, resets: bool)
    ensures LayerTrack(track, bounds, resets).ctm == track.ctm
    ensures Shapes(LayerTrack(track, bounds, resets).clips) == Shapes(track.clips)
  {
    hide Shapes;
    if resets {
      ShapesNext(track.clips, ResetBounds(bounds, track.ctm));
    } else if bounds.Some? {
      ShapesNext(track.clips, LayerBounds(bounds.value, track.ctm));
    }
  }

  /** A mark that opens a layer, and the level it opens. */
  lemma LevelOpens(scene: Scene, c: Canvas, d: Pixel, mark: Mark, isKept: bool, level: CanvasLevel)
    requires Agree(scene, c, d) && c.levels != []
    requires var full, kept := Shown(scene, c.marks, d, true), Shown(scene, c.marks, d, false);
             var full', kept' := Show(scene, full, mark), if isKept then Show(scene, kept, mark) else kept;
             StacksOk(scene, full', kept') && |full'| == |full| + 1 && |kept'| == |kept| + if isKept then 1 else 0
    requires level.kind == if isKept then KeptLayer else DroppedLayer
    requires level.geometry == Geometry(level.track.ctm, Shapes(level.track.clips))
    requires if isKept then Layers(c.levels, DroppedLayer) == 0 else level.dead
    requires isKept && level.dead ==> !scene.inside(level.geometry.clips)
    ensures var marked := Marked(c, mark, isKept); Agree(scene, marked.(levels := marked.levels + [level]), d)
  {
    hide Shown, LevelsOk, StacksOk, Describes, Shapes, Show;
    ShownNext(scene, c, d, true, mark, isKept);
    ShownNext(scene, c, d, false, mark, isKept);
    LevelAdded(scene, c.levels, level);
    LayersNext(c.levels, level, KeptLayer);
    LayersNext(c.levels, level, DroppedLayer);
  }

  lemma LayerJudged(env: Renderer, dead: bool, paint: Paint, withPaint: bool)
    requires withPaint ==> Judgeable(env, paint, SAVE_LAYER_WITH_PAINT, CLEAR)
    ensures var result := PaintResult(dead, paint, LayerFlags(withPaint));
            && (dead ==> result == NoEffect)
            && (!dead && result == NoEffect ==>
                  PaintResult(false, paint, LayerFlags(withPaint)) == NoEffect
                  && Judgeable(env, paint, LayerFlags(withPaint), CLEAR))
  {
    hide Judgeable;
  }

  /** A draw and its mark. */
  lemma DrawMarkAgrees(scene: Scene, c: Canvas, d: Pixel, drawing: nat, isKept: bool, compatible: bool)
    requires Agree(scene, c, d) && c.levels != []
    requires isKept ==> Layers(c.levels, DroppedLayer) == 0
    requires var g := Top(c).geometry;
             !isKept && Layers(c.levels, DroppedLayer) == 0 ==>
               || !scene.inside(g.clips) || !scene.touches(drawing, c.paint, g)
               || forall under :: InRange(under) ==> DrawnOver(scene, drawing, c.paint, under) == under
    ensures Agree(scene, DrawMarked(c, drawing, isKept, compatible), d)
  {
    hide Shown, LevelsOk, Describes, Shapes, Show, DrawnOver;
    var g := Top(c).geometry;
    var full, kept := Shown(scene, c.marks, d, true), Shown(scene, c.marks, d, false);
    DrawShows(scene, full, kept, drawing, c.paint, g, isKept);
    ShownNext(scene, c, d, true, Drawn(drawing, c.paint, g), isKept);
    ShownNext(scene, c, d, false, Drawn(drawing, c.paint, g), isKept);
    hide StacksOk;
    var marked := Marked(c, Drawn(drawing, c.paint, g), isKept);
    assert Agree(scene, marked, d);
    if isKept {
      TallyAgrees(scene, marked, d, Top(c).(tally := Top(c).tally + [compatible]));
    }
  }

  lemma PaintedAgrees(scene: Scene, probe: Probe, c: Canvas, d: Pixel, drawing: nat, flags: OpFlags, compatible: bool)
    requires Agree(scene, c, d) && c.levels != [] && Sound(scene, probe) && Lawful(scene.env)
    requires scene.flags(drawing) == flags && scene.own(drawing) == None
    requires Judgeable(scene.env, c.paint, flags, scene.content(drawing))
    ensures var isKept := PaintResult(Top(c).dead, c.paint, flags) != NoEffect
                          && probe.isVisible(Top(c).track, drawing, c.paint);
            Agree(scene, DrawMarked(c, drawing, isKept, compatible), d)
  {
    hide Shown, LevelsOk, StacksOk, Describes, Shapes, Show, Judgeable;
    TopFacts(scene, c);
    var top := Top(c);
    var isKept := PaintResult(top.dead, c.paint, flags) != NoEffect && probe.isVisible(top.track, drawing, c.paint);
    if !top.dead && PaintResult(false, c.paint, flags) == NoEffect {
      forall under | InRange(under) ensures DrawnOver(scene, drawing, c.paint, under) == under {
        NoEffectShows(scene.env, c.paint, flags, scene.content(drawing), under);
      }
    }
    hide PaintResult, DrawnOver;
    DeadJudged(c.paint, flags);
    DrawMarkAgrees(scene, c, d, drawing, isKept, compatible);
  }

  lemma DeadJudged(paint: Paint, flags: OpFlags)
    ensures PaintResult(true, paint, flags) == NoEffect
  {
  }

  lemma UnpaintedAgrees(scene: Scene, probe: Probe, c: Canvas, d: Pixel, drawing: nat, judged: Option<Paint>,
                        compatible: bool)
    requires Agree(scene, c, d) && c.levels != [] && Sound(scene, probe) && Lawful(scene.env)
    requires scene.own(drawing) == judged
    requires judged.Some? ==> Judgeable(scene.env, judged.value, DRAW_PAINT, scene.content(drawing))
    ensures var isKept := Judged(Top(c).dead, judged) != NoEffect && probe.isVisible(Top(c).track, drawing, c.paint);
            Agree(scene, DrawMarked(c, drawing, isKept, compatible), d)
  {
    hide Shown, LevelsOk, StacksOk, Describes, Shapes, Show, Judgeable;
    TopFacts(scene, c);
    var top := Top(c);
    var isKept := Judged(top.dead, judged) != NoEffect && probe.isVisible(top.track, drawing, c.paint);
    if !top.dead && Judged(false, judged) == NoEffect {
      assert judged.Some?;
      forall under | InRange(under) ensures DrawnOver(scene, drawing, c.paint, under) == under {
        NoEffectShows(scene.env, judged.value, DRAW_PAINT, scene.content(drawing), under);
      }
    }
    assert Judged(true, judged) == NoEffect;
    hide PaintResult, DrawnOver, Judged;
    DrawMarkAgrees(scene, c, d, drawing, isKept, compatible);
  }

  lemma CallAgrees(scene: Scene, probe: Probe, c: Canvas, d: Pixel, call: CanvasCall)
    requires Agree(scene, c, d) && c.levels != [] && Sound(scene, probe) && Lawful(scene.env) && Proper(scene, call)
    ensures Agree(scene, Performed(probe, c, call), d)
  {
    hide Agree, Sound, Lawful, Judgeable, PaintResult, Judged, DrawMarked, LayerSaved, Restored, RestoredTo, Clipped, Saved,
         Transforming, TakesOpacity;
    match call
    case DoSave => SaveAgrees(scene, c, d);
    case DoSaveLayer(layer, bounds, paint) =>
      if paint.Some? {
        AdoptAgrees(scene, c, d, paint.value, SAVE_LAYER_WITH_PAINT, CLEAR);
        LayerSaveAgrees(scene, Adopt(c, paint.value, SAVE_LAYER_WITH_PAINT), d, layer, bounds, true);
      } else {
        LayerSaveAgrees(scene, c, d, layer, bounds, false);
      }
    case DoRestore => RestoreAgrees(scene, c, d);
    case DoRestoreToCount(count) => RestoreToAgrees(scene, c, d, count);
    case DoTransform(t) => TransformAgrees(scene, c, d, t);
    case DoClip(clip) => ClipAgrees(scene, probe, c, d, clip);
    case DoDraw(Painted(drawing, flags, paint, rule)) =>
      AdoptAgrees(scene, c, d, paint, flags, scene.content(drawing));
      var a := Adopt(c, paint, flags);
      PaintedAgrees(scene, probe, a, d, drawing, flags, TakesOpacity(rule, a.paint));
    case DoDraw(Unpainted(drawing, judged, compatible)) =>
      UnpaintedAgrees(scene, probe, c, d, drawing, judged, compatible);
  }

  lemma {:induction false} RunAgrees(scene: Scene, probe: Probe, calls: seq<CanvasCall>, d: Pixel)
    requires Sound(scene, probe) && Lawful(scene.env) && InRange(d)
    requires forall i :: 0 <= i < |calls| ==> Proper(scene, calls[i])
    ensures Agree(scene, PerformAll(probe, calls), d)
  {
    hide Sound, Lawful, Proper, Performed;
    if calls == [] {
      BlankAgrees(scene, d);
    } else {
      hide Agree;
      var n := |calls| - 1;
      RunAgrees(scene, probe, calls[..n], d);
      CallAgrees(scene, probe, PerformAll(probe, calls[..n]), d, calls[n]);
    }
  }

  lemma BlankAgrees(scene: Scene, d: Pixel)
    requires InRange(d)
    ensures Agree(scene, BLANK, d)
  {
    assert BLANK.levels[..0] == [] && BLANK.levels[..1] == BLANK.levels;
    assert LevelOk(scene, BLANK.levels, 0);
  }

  /** The pixel on the canvas after some marks. */
  function PixelAfter(scene: Scene, marks: seq<CanvasMark>, d: Pixel, all: bool): Pixel {
    var stack := Shown(scene, marks, d, all);
    if stack == [] then d else stack[0].pixel
  }

  /**
   Any calls whatever: what the recorder leaves out changes no pixel.
   */
  lemma DroppingShowsNothing(scene: Scene, probe: Probe, calls: seq<CanvasCall>, d: Pixel)
    requires Sound(scene, probe) && Lawful(scene.env) && InRange(d)
    requires forall i :: 0 <= i < |calls| ==> Proper(scene, calls[i])
    ensures var marks := RestoredTo(PerformAll(probe, calls), 1).marks;
            PixelAfter(scene, marks, d, true) == PixelAfter(scene, marks, d, false)
  {
    hide Shown, Sound, Lawful, Proper;
    var c := PerformAll(probe, calls);
    RunAgrees(scene, probe, calls, d);
    RestoreToAgrees(scene, c, d, 1);
  }
}
