/**
 The canvas as its caller sees it: an immediate-mode reference that performs every
 call at once, with no deferred saves and no remembered attributes.

 Each draw and each layer leaves a mark under the paint, transform and clips in
 force.  A mark is `kept` unless the call is judged to have no effect, lies outside
 the clip, or sits inside a level that can show nothing.
 */
module Canvas {
  import opened Records
  import opened PaintRules
  import opened Player

  // ----- calls -----

  /** How an operation answers whether it can take a group opacity. */
  datatype OpacityRule = UsesPaint | UsesPaintUnlessHairline | Fixed(compatible: bool)

  datatype DrawCall =
    // An operation with a paint: its flags say which attributes it honours.
    | Painted(drawing: nat, flags: OpFlags, paint: Paint, rule: OpacityRule)
    // An operation that ignores the paint; `judged` is the paint its effect is judged by, if any.
    | Unpainted(drawing: nat, judged: Option<Paint>, compatible: bool)

  datatype CanvasCall =
    | DoSave
    | DoSaveLayer(layer: nat, bounds: Option<nat>, paint: Option<Paint>)
    | DoRestore
    | DoRestoreToCount(count: int)
    | DoTransform(transform: Transform)
    | DoClip(clip: Clip)
    | DoDraw(draw: DrawCall)

  // ----- the clip tracker, as the list of what it was told -----

  datatype TrackedClip =
    | ShapeClip(clip: Clip, ctm: Matrix)
    | LayerBounds(bounds: nat, ctm: Matrix)
    | ResetBounds(to: Option<nat>, ctm: Matrix)

  datatype Track = Track(ctm: Matrix, clips: seq<TrackedClip>)

  /** What the clip tracker answers: whether the clip is empty, whether a drawing meets it. */
  datatype Probe = Probe(isEmpty: Track -> bool, isVisible: (Track, nat, Paint) -> bool)

  // ----- colour sources -----

  datatype SourceRequest = ToShader | ToNone | ToColor

  function RequestOf(source: Option<ColorSource>): SourceRequest {
    match source
    case None => ToNone
    case Some(PlainColor(_)) => ToColor
    case Some(Shader(_, _)) => ToShader
  }

  datatype SourceState = NoShader | ShaderInForce | StaleShader

  /** A plain colour requested over a shader leaves the shader standing in the stream. */
  function SourceAfter(requests: seq<SourceRequest>): SourceState {
    if requests == [] then NoShader else
    var before := SourceAfter(requests[..|requests| - 1]);
    match requests[|requests| - 1]
    case ToShader => ShaderInForce
    case ToNone => if before == StaleShader then StaleShader else NoShader
    case ToColor => if before == NoShader then NoShader else StaleShader
  }

  predicate Stale(requests: seq<SourceRequest>) {
    SourceAfter(requests) == StaleShader
  }

  lemma SourceNext(requests: seq<SourceRequest>, request: SourceRequest)
    ensures var before, after := SourceAfter(requests), SourceAfter(requests + [request]);
            after == match request
                     case ToShader => ShaderInForce
                     case ToNone => if before == StaleShader then StaleShader else NoShader
                     case ToColor => if before == NoShader then NoShader else StaleShader
  {
    assert (requests + [request])[..|requests + [request]| - 1] == requests;
  }

  /** In terms of the requests alone: a plain colour directly after a shader, and no shader since. */
  ghost predicate ColorOverShader(requests: seq<SourceRequest>, k: nat) {
    && 0 < k < |requests| && requests[k] == ToColor && requests[k - 1] == ToShader
    && forall j :: k < j < |requests| ==> requests[j] != ToShader
  }

  lemma {:induction false} StaleExactly(requests: seq<SourceRequest>)
    ensures Stale(requests) <==> exists k: nat :: ColorOverShader(requests, k)
    ensures SourceAfter(requests) == ShaderInForce <==> requests != [] && requests[|requests| - 1] == ToShader
  {
    if requests != [] {
      var before, n := requests[..|requests| - 1], |requests| - 1;
      StaleExactly(before);
      if Stale(requests) {
        if Stale(before) {
          var k: nat :| ColorOverShader(before, k);
          assert ColorOverShader(requests, k);
        } else {
          assert before[n - 1] == requests[n - 1];
          assert ColorOverShader(requests, n);
        }
      }
      if k: nat :| ColorOverShader(requests, k) {
        if k < n {
          assert ColorOverShader(before, k);
          assert requests[n] != ToShader;
        } else {
          assert before[n - 1] == requests[n - 1];
        }
      }
    }
  }

  // ----- the reference -----

  datatype LevelKind = PlainLevel | KeptLayer | DroppedLayer

  /** One save level; `tally` holds the opacity answers of its operations, plain saves flattened. */
  datatype CanvasLevel = CanvasLevel(
    geometry: Geometry, track: Track, dead: bool, kind: LevelKind, tally: seq<bool>)

  datatype CanvasMark = CanvasMark(mark: Mark, kept: bool, stale: bool)

  datatype Canvas = Canvas(
    paint: Paint, requests: seq<SourceRequest>, levels: seq<CanvasLevel>, marks: seq<CanvasMark>)

  const BLANK := Canvas(DEFAULT_PAINT, [],
                        [CanvasLevel(WHOLE_SURFACE, Track(IDENTITY, []), false, PlainLevel, [])], [])

  /** A group distributes its opacity when it holds at most one operation and that one accepts it. */
  predicate Distributes(tally: seq<bool>) {
    |tally| <= 1 && forall k :: 0 <= k < |tally| ==> tally[k]
  }

  lemma DistributesExactly(tally: seq<bool>)
    ensures Distributes(tally) <==> tally == [] || tally == [true]
  {
  }

  /** The paint in force after a caller's paint is applied to the honoured attributes. */
  function Adopted(p: Paint, paint: Paint, flags: OpFlags): Paint {
    AdoptedMasks(
      AdoptedFilters(
        AdoptedSource(
          AdoptedStroke(
            AdoptedColor(p, paint, flags), paint, flags), paint, flags), paint, flags), paint, flags)
  }

  function AdoptedColor(p: Paint, paint: Paint, flags: OpFlags): Paint {
    var p := if flags.antiAlias then p.(antiAlias := paint.antiAlias) else p;
    var p := if flags.alpha || flags.color then p.(color := paint.color) else p;
    if flags.blend then p.(blend := paint.blend) else p
  }

  function AdoptedStroke(p: Paint, paint: Paint, flags: OpFlags): Paint {
    var p := if flags.drawnGeometry then p.(style := paint.style) else p;
    if flags.IsStroked(paint.style)
    then p.(strokeWidth := paint.strokeWidth, strokeMiter := paint.strokeMiter, cap := paint.cap, join := paint.join)
    else p
  }

  /** A plain colour source means that colour and no shader. */
  function AdoptedSource(p: Paint, paint: Paint, flags: OpFlags): Paint {
    if !flags.shader then p
    else if RequestOf(paint.source) == ToColor then p.(source := None, color := paint.source.value.color)
    else p.(source := paint.source)
  }

  function AdoptedFilters(p: Paint, paint: Paint, flags: OpFlags): Paint {
    var p := if flags.colorFilter
             then p.(invertColors := paint.invertColors, colorFilter := paint.colorFilter) else p;
    if flags.imageFilter then p.(imageFilter := paint.imageFilter) else p
  }

  function AdoptedMasks(p: Paint, paint: Paint, flags: OpFlags): Paint {
    var p := if flags.pathEffect then p.(pathEffect := paint.pathEffect) else p;
    if flags.maskFilter then p.(maskFilter := paint.maskFilter) else p
  }

  /**
   Attribute by attribute: the caller's where the operation honours it, the old one
   where it does not.  The stroke counts for geometry that is always stroked, and for
   drawn geometry unless it is filled.
   */
  predicate Honours(after: Paint, before: Paint, paint: Paint, flags: OpFlags) {
    var stroked := flags.strokedGeometry || (flags.drawnGeometry && paint.style != Fill);
    && after.antiAlias == (if flags.antiAlias then paint.antiAlias else before.antiAlias)
    && after.style == (if flags.drawnGeometry then paint.style else before.style)
    && after.strokeWidth == (if stroked then paint.strokeWidth else before.strokeWidth)
    && after.strokeMiter == (if stroked then paint.strokeMiter else before.strokeMiter)
    && after.cap == (if stroked then paint.cap else before.cap)
    && after.join == (if stroked then paint.join else before.join)
    && after.blend == (if flags.blend then paint.blend else before.blend)
    && after.colorFilter == (if flags.colorFilter then paint.colorFilter else before.colorFilter)
    && after.invertColors == (if flags.colorFilter then paint.invertColors else before.invertColors)
    && after.imageFilter == (if flags.imageFilter then paint.imageFilter else before.imageFilter)
    && after.pathEffect == (if flags.pathEffect then paint.pathEffect else before.pathEffect)
    && after.maskFilter == (if flags.maskFilter then paint.maskFilter else before.maskFilter)
    && HonoursColor(after, before, paint, flags)
  }

  /** A plain colour for the shader is taken for the colour, without a shader. */
  predicate HonoursColor(after: Paint, before: Paint, paint: Paint, flags: OpFlags) {
    match paint.source
    case Some(PlainColor(c)) =>
      && after.source == (if flags.shader then None else before.source)
      && after.color == if flags.shader then c else if flags.alpha || flags.color then paint.color else before.color
    case _ =>
      && after.source == (if flags.shader then paint.source else before.source)
      && after.color == if flags.alpha || flags.color then paint.color else before.color
  }

  lemma AdoptedHonours(p: Paint, paint: Paint, flags: OpFlags)
    ensures Honours(Adopted(p, paint, flags), p, paint, flags)
  {
    var p1 := AdoptedColor(p, paint, flags);
    var p2 := AdoptedStroke(p1, paint, flags);
    var p3 := AdoptedSource(p2, paint, flags);
    var p4 := AdoptedFilters(p3, paint, flags);
    ColorStage(p, paint, flags);
    StrokeStage(p1, paint, flags);
    SourceStage(p2, paint, flags);
    FilterStage(p3, paint, flags);
    MaskStage(p4, paint, flags);
    hide AdoptedColor, AdoptedStroke, AdoptedSource, AdoptedFilters, AdoptedMasks;
  }

  lemma ColorStage(p: Paint, paint: Paint, flags: OpFlags)
    ensures AdoptedColor(p, paint, flags) ==
            p.(antiAlias := if flags.antiAlias then paint.antiAlias else p.antiAlias,
               color := if flags.alpha || flags.color then paint.color else p.color,
               blend := if flags.blend then paint.blend else p.blend)
  {
  }

  lemma StrokeStage(p: Paint, paint: Paint, flags: OpFlags)
    ensures var stroked := flags.strokedGeometry || (flags.drawnGeometry && paint.style != Fill);
            AdoptedStroke(p, paint, flags) ==
            p.(style := if flags.drawnGeometry then paint.style else p.style,
               strokeWidth := if stroked then paint.strokeWidth else p.strokeWidth,
               strokeMiter := if stroked then paint.strokeMiter else p.strokeMiter,
               cap := if stroked then paint.cap else p.cap,
               join := if stroked then paint.join else p.join)
  {
  }

  lemma SourceStage(p: Paint, paint: Paint, flags: OpFlags)
    ensures HonoursColor(AdoptedSource(p, paint, flags), p, paint, flags.(alpha := false, color := false))
    ensures var a := AdoptedSource(p, paint, flags); a == p.(color := a.color, source := a.source)
  {
  }

  lemma FilterStage(p: Paint, paint: Paint, flags: OpFlags)
    ensures AdoptedFilters(p, paint, flags) ==
            p.(colorFilter := if flags.colorFilter then paint.colorFilter else p.colorFilter,
               invertColors := if flags.colorFilter then paint.invertColors else p.invertColors,
               imageFilter := if flags.imageFilter then paint.imageFilter else p.imageFilter)
  {
  }

  lemma MaskStage(p: Paint, paint: Paint, flags: OpFlags)
    ensures AdoptedMasks(p, paint, flags) ==
            p.(pathEffect := if flags.pathEffect then paint.pathEffect else p.pathEffect,
               maskFilter := if flags.maskFilter then paint.maskFilter else p.maskFilter)
  {
  }

  function Requested(requests: seq<SourceRequest>, paint: Paint, flags: OpFlags): seq<SourceRequest> {
    if flags.shader then requests + [RequestOf(paint.source)] else requests
  }

  function Adopt(c: Canvas, paint: Paint, flags: OpFlags): Canvas {
    c.(paint := Adopted(c.paint, paint, flags), requests := Requested(c.requests, paint, flags))
  }

  function Top(c: Canvas): CanvasLevel
    requires c.levels != []
  {
    c.levels[|c.levels| - 1]
  }

  function SetTop(c: Canvas, level: CanvasLevel): Canvas
    requires c.levels != []
  {
    c.(levels := c.levels[|c.levels| - 1 := level])
  }

  function Marked(c: Canvas, mark: Mark, kept: bool): Canvas {
    c.(marks := c.marks + [CanvasMark(mark, kept, Stale(c.requests))])
  }

  function Tally(c: Canvas, compatible: bool): Canvas
    requires c.levels != []
  {
    SetTop(c, Top(c).(tally := Top(c).tally + [compatible]))
  }

  function Saved(c: Canvas): Canvas
    requires c.levels != []
  {
    c.(levels := c.levels + [Top(c).(kind := PlainLevel, tally := [])])
  }

  function Restored(c: Canvas): Canvas
    requires c.levels != []
  {
    if |c.levels| == 1 then c else
    var top := Top(c);
    var outer := c.(levels := c.levels[..|c.levels| - 1]);
    match top.kind
    case PlainLevel => SetTop(outer, Top(outer).(tally := Top(outer).tally + top.tally))
    case DroppedLayer =>
      Marked(SetTop(outer, Top(outer).(tally := Top(outer).tally + top.tally)),
            LayerClosed(Distributes(top.tally)), false)
    case KeptLayer => Marked(outer, LayerClosed(Distributes(top.tally)), true)
  }

  function RestoredTo(c: Canvas, count: int): (r: Canvas)
    requires c.levels != []
    ensures r.levels != []
    ensures count <= 1 ==> |r.levels| == 1
    decreases |c.levels|
  {
    if count < |c.levels| && |c.levels| > 1 then RestoredTo(Restored(c), count) else c
  }

  function LayerFlags(withPaint: bool): OpFlags {
    if withPaint then SAVE_LAYER_WITH_PAINT else IGNORES_PAINT
  }

  function LayerTrack(track: Track, bounds: Option<nat>, resets: bool): Track {
    if resets then track.(clips := track.clips + [ResetBounds(bounds, track.ctm)])
    else if bounds.Some? then track.(clips := track.clips + [LayerBounds(bounds.value, track.ctm)])
    else track
  }

  /** A layer opened under a paint already adopted. */
  function LayerSaved(c: Canvas, layer: nat, bounds: Option<nat>, withPaint: bool): Canvas
    requires c.levels != []
  {
    var top := Top(c);
    var mark := LayerOpened(layer, withPaint, c.paint, top.geometry);
    if PaintResult(top.dead, c.paint, LayerFlags(withPaint)) == NoEffect then
      var marked := Marked(c, mark, false);
      marked.(levels := c.levels + [top.(dead := true, kind := DroppedLayer, tally := [])])
    else
      var compatible := !withPaint || OpacityCompatible(c.paint);
      var filtered := withPaint && c.paint.imageFilter.Some?;
      var marked := Marked(Tally(c, compatible), mark, true);
      marked.(levels := marked.levels +
                        [top.(track := LayerTrack(top.track, bounds, filtered),
                              kind := KeptLayer,
                              tally := if compatible && !filtered then [] else [false])])
  }

  function Transforming(c: Canvas, t: Transform): Canvas
    requires c.levels != []
  {
    var top := Top(c);
    SetTop(c, top.(geometry := top.geometry.(ctm := Transformed(top.geometry.ctm, t)),
                   track := top.track.(ctm := Transformed(top.track.ctm, t))))
  }

  function Clipped(probe: Probe, c: Canvas, clip: Clip): Canvas
    requires c.levels != []
  {
    var top := Top(c);
    var track := top.track.(clips := top.track.clips + [ShapeClip(clip, top.track.ctm)]);
    SetTop(c, top.(geometry := top.geometry.(clips := top.geometry.clips + [(clip, top.geometry.ctm)]),
                   track := track,
                   dead := top.dead || probe.isEmpty(track)))
  }

  function TakesOpacity(rule: OpacityRule, paint: Paint): bool {
    match rule
    case UsesPaint => OpacityCompatible(paint)
    case UsesPaintUnlessHairline => OpacityCompatible(paint) && (paint.style == Fill || paint.strokeWidth > 0.0)
    case Fixed(compatible) => compatible
  }

  /** A draw under a paint already adopted. */
  function DrawMarked(c: Canvas, drawing: nat, kept: bool, compatible: bool): Canvas
    requires c.levels != []
  {
    var marked := Marked(c, Drawn(drawing, c.paint, Top(c).geometry), kept);
    if kept then Tally(marked, compatible) else marked
  }

  function Drew(probe: Probe, c: Canvas, draw: DrawCall): Canvas
    requires c.levels != []
  {
    match draw
    case Painted(drawing, flags, paint, rule) =>
      var a := Adopt(c, paint, flags);
      var kept := PaintResult(Top(a).dead, a.paint, flags) != NoEffect
                  && probe.isVisible(Top(a).track, drawing, a.paint);
      DrawMarked(a, drawing, kept, TakesOpacity(rule, a.paint))
    case Unpainted(drawing, judged, compatible) =>
      var kept := Judged(Top(c).dead, judged) != NoEffect
                  && probe.isVisible(Top(c).track, drawing, c.paint);
      DrawMarked(c, drawing, kept, compatible)
  }

  function Judged(isNop: bool, judged: Option<Paint>): OpResult {
    if judged.Some? then PaintResult(isNop, judged.value, DRAW_PAINT)
    else PaintResult(isNop, DEFAULT_PAINT, IGNORES_PAINT)
  }

  function Performed(probe: Probe, c: Canvas, call: CanvasCall): (r: Canvas)
    requires c.levels != []
    ensures r.levels != []
  {
    match call
    case DoSave => Saved(c)
    case DoSaveLayer(layer, bounds, paint) =>
      LayerSaved(if paint.Some? then Adopt(c, paint.value, SAVE_LAYER_WITH_PAINT) else c,
                 layer, bounds, paint.Some?)
    case DoRestore => Restored(c)
    case DoRestoreToCount(count) => RestoredTo(c, count)
    case DoTransform(t) => Transforming(c, t)
    case DoClip(clip) => Clipped(probe, c, clip)
    case DoDraw(draw) => Drew(probe, c, draw)
  }

  function PerformAll(probe: Probe, calls: seq<CanvasCall>): (r: Canvas)
    ensures r.levels != []
  {
    if calls == [] then BLANK
    else Performed(probe, PerformAll(probe, calls[..|calls| - 1]), calls[|calls| - 1])
  }
}
