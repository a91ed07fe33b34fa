/**
 What the theorems on pixels ask can be had: there are scenes they hold for in which
 everything reaches the pixel, plain paints are within their reach whatever the blend
 mode, and a hit list that names every record is one they accept.
 */
module Premises {
  import opened Records
  import opened PaintRules
  import opened Player
  import opened Canvas
  import opened Blend
  import opened Pixels
  import opened Culling
  import opened Fading
  import opened LayerFading
  import opened Pipeline

  /** Every drawing has these flags and this content, and reaches the pixel whatever the clips. */
  function Everywhere(flags: OpFlags, content: Pixel): Scene {
    Scene(Simple(DEFAULT_PAINT), drawing => flags, drawing => content, drawing => None, (drawing, paint, g) => true,
          clips => true)
  }

  lemma EverywhereSound(flags: OpFlags, content: Pixel)
    requires InRange(content)
    ensures var scene := Everywhere(flags, content);
            Sound(scene, Everything()) && Lawful(scene.env) && ContentInRange(scene) && ClipsShrink(scene)
  {
    SimpleDescribes(DEFAULT_PAINT);
  }

  /** A colour and a blend mode, no shader and no filter. */
  predicate PlainPaint(paint: Paint) {
    paint.source == None && paint.colorFilter == None && paint.imageFilter == None && !paint.invertColors
  }

  lemma PlainJudgeable(env: Renderer, paint: Paint, flags: OpFlags, content: Pixel)
    requires PlainPaint(paint) && flags.coloring == FromPaint
    ensures Judgeable(env, paint, flags, content)
  {
    hide PaintResult;
  }

  /** Any calls with plain paints only. */
  predicate PlainCalls(calls: seq<CanvasCall>, flags: OpFlags) {
    forall i :: 0 <= i < |calls| ==> PlainCall(calls[i], flags)
  }

  predicate PlainCall(call: CanvasCall, flags: OpFlags) {
    match call
    case DoSaveLayer(_, _, Some(paint)) => PlainPaint(paint)
    case DoDraw(Painted(_, own, paint, rule)) => own == flags && PlainPaint(paint) && !rule.Fixed?
    case DoDraw(Unpainted(_, _, _)) => false
    case _ => true
  }

  /** They meet all that is asked of calls, layers and transforms and clips among them. */
  lemma PlainCallsProper(flags: OpFlags, content: Pixel, calls: seq<CanvasCall>)
    requires flags.coloring == FromPaint && (flags.color ==> flags.shader) && PlainCalls(calls, flags)
    ensures var scene := Everywhere(flags, content);
            && (forall i :: 0 <= i < |calls| ==> Proper(scene, calls[i]) && Fair(calls[i]))
            && Sane(scene, calls)
  {
    var scene := Everywhere(flags, content);
    hide Judgeable;
    forall i | 0 <= i < |calls| ensures Proper(scene, calls[i]) && Fair(calls[i]) {
      assert PlainCall(calls[i], flags);
      match calls[i]
      case DoSaveLayer(_, _, Some(paint)) => PlainJudgeable(scene.env, paint, SAVE_LAYER_WITH_PAINT, CLEAR);
      case DoDraw(Painted(drawing, own, paint, _)) => PlainJudgeable(scene.env, paint, own, content);
      case _ =>
    }
  }

  // ----- hits -----

  function AllIndices(n: nat): (ids: seq<int>)
    ensures |ids| == n && forall i :: 0 <= i < n ==> ids[i] == i
  {
    seq(n, i requires 0 <= i < n => i)
  }

  /** Naming every record keeps every record, and finds all that reaches any pixel. */
  lemma AllHits(scene: Scene, ops: seq<Record>)
    requires WellFormed(ops) && |ops| <= MAX_INT
    ensures HitList(AllIndices(|ops|))
    ensures forall i: nat :: i in Kept(ops, AllIndices(|ops|)) <==> i < |ops|
    ensures AllFound(scene, AllIndices(|ops|), ReplayTo(ops, |ops|).trace)
  {
    var ids := AllIndices(|ops|);
    forall i: nat ensures i in Kept(ops, ids) <==> i < |ops| {
      if i < |ops| {
        assert ids[i] == i;
        RestoreLater(ops, i);
        KeptExactly(ops, ids, i);
      }
    }
    TracedInRange(ops, |ops|);
    var trace := ReplayTo(ops, |ops|).trace;
    hide ReplayTo, WellFormed, Kept;
    forall i | 0 <= i < |trace| ensures Found(scene, ids, trace[i]) {
      assert ids[trace[i].index] == trace[i].index;
    }
  }

  lemma RestoreLater(ops: seq<Record>, i: nat)
    requires WellFormed(ops) && i < |ops|
    ensures ops[i].IsSave() ==> i <= ops[i].restoreIndex
  {
    if ops[i].IsSave() {
      FramesNext(ops, i);
      WellFormedNests(ops, i + 1);
      hide ReplayTo, WellFormed;
      var frames := ReplayTo(ops, i + 1).frames;
      var top := frames[|frames| - 1];
      assert top.save == i && i + 1 <= Deadline(ops, top);
    }
  }
}
