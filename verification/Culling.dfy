/**
 Culled playback in pixels.  The hit list of a search around a pixel names the draws
 that touch it and the layers that would change it even where they are clear
 (display_list/dl_builder.cc records the bounds of both under their index).  Playing
 only what the list keeps leaves the pixel as playing everything does.
 */
module Culling {
  import opened Records
  import opened PaintRules
  import opened Player
  import opened Canvas
  import opened Blend
  import opened Pixels

  /** A layer that shows nothing where it is clear. */
  ghost predicate ClearIsHarmless(scene: Scene, layer: Surface) {
    layer.inside && layer.withPaint ==> Describes(scene.env, layer.paint) && NopsOnTransparency(layer.paint)
  }

  lemma ClearCloses(scene: Scene, layer: Surface, d: Pixel)
    requires Lawful(scene.env) && InRange(d) && layer.pixel == CLEAR && ClearIsHarmless(scene, layer)
    ensures Closed(scene, layer, d) == d
  {
    if layer.inside {
      if layer.withPaint {
        hide Composed;
        ClearLayerNops(scene.env, layer.paint, d);
      } else {
        ClearSource(scene.env, SrcOver, d);
      }
    }
  }

  /** What the search finds: a mark whose record it does not name does not reach the pixel by itself. */
  ghost predicate Found(scene: Scene, ids: seq<int>, t: Traced) {
    match t.mark
    case Drawn(drawing, paint, g) => t.index in ids || !scene.inside(g.clips) || !scene.touches(drawing, paint, g)
    case LayerOpened(_, withPaint, paint, g) =>
      t.index in ids || ClearIsHarmless(scene, Surface(CLEAR, withPaint, paint, scene.inside(g.clips)))
    case LayerClosed(_) => true
  }

  ghost predicate AllFound(scene: Scene, ids: seq<int>, trace: seq<Traced>) {
    forall i :: 0 <= i < |trace| ==> Found(scene, ids, trace[i])
  }

  function MarksIn(trace: seq<Traced>): seq<Mark> {
    if trace == [] then [] else MarksIn(trace[..|trace| - 1]) + [trace[|trace| - 1].mark]
  }

  // ----- open layers -----

  /** How many open frames are layers that are kept, or that are not. */
  function OpenLayerCount(frames: seq<Frame>, keep: set<nat>, kept: bool): nat {
    if frames == [] then 0 else
    var top := frames[|frames| - 1];
    OpenLayerCount(frames[..|frames| - 1], keep, kept) + if top.isLayer && (top.save in keep) == kept then 1 else 0
  }

  lemma CountNext(frames: seq<Frame>, keep: set<nat>, kept: bool, f: Frame)
    ensures OpenLayerCount(frames + [f], keep, kept) ==
            OpenLayerCount(frames, keep, kept) + if f.isLayer && (f.save in keep) == kept then 1 else 0
  {
    assert (frames + [f])[..|frames + [f]| - 1] == frames;
  }

  lemma {:induction false} NoneDropped(frames: seq<Frame>, keep: set<nat>)
    requires forall k :: 0 <= k < |frames| ==> frames[k].save in keep
    ensures OpenLayerCount(frames, keep, false) == 0
  {
    if frames != [] {
      NoneDropped(frames[..|frames| - 1], keep);
    }
  }

  /** Around something kept everything is kept. */
  lemma OuterKept(ops: seq<Record>, ids: seq<int>, i: nat)
    requires WellFormed(ops) && i < |ops|
    ensures !ops[i].RestoreRecord? && i in Kept(ops, ids) ==>
              OpenLayerCount(ReplayTo(ops, i).frames, Kept(ops, ids), false) == 0
    ensures var frames := ReplayTo(ops, i).frames;
            frames != [] && frames[|frames| - 1].save in Kept(ops, ids) ==>
              OpenLayerCount(frames, Kept(ops, ids), false) == 0
  {
    var frames := ReplayTo(ops, i).frames;
    if !ops[i].RestoreRecord? && i in Kept(ops, ids) {
      forall k | 0 <= k < |frames| ensures frames[k].save in Kept(ops, ids) {
        KeptIsClosed(ops, ids, i, k);
      }
      hide Kept;
      NoneDropped(frames, Kept(ops, ids));
    }
    if frames != [] && frames[|frames| - 1].save in Kept(ops, ids) {
      TopKept(ops, ids, i);
      hide Kept;
      NoneDropped(frames, Kept(ops, ids));
    }
  }

  lemma TopKept(ops: seq<Record>, ids: seq<int>, i: nat)
    requires WellFormed(ops) && i < |ops| && ReplayTo(ops, i).frames != []
    requires var frames := ReplayTo(ops, i).frames; frames[|frames| - 1].save in Kept(ops, ids)
    ensures var frames := ReplayTo(ops, i).frames;
            forall k :: 0 <= k < |frames| ==> frames[k].save in Kept(ops, ids)
  {
    var frames := ReplayTo(ops, i).frames;
    var n := |frames| - 1;
    WellFormedNests(ops, i);
    OpenSaves(ops, i);
    hide ReplayTo, WellFormed;
    var top := frames[n].save;
    var hit :| 0 <= hit < |ids| && top <= ids[hit] <= LastIndex(ops, top);
    forall k | 0 <= k < n ensures frames[k].save in Kept(ops, ids) {
      assert Deadline(ops, frames[k]) > Deadline(ops, frames[n]);
      assert frames[k].save <= ids[hit] <= LastIndex(ops, frames[k].save);
    }
  }

  // ----- the two stacks -----

  /** The culled surfaces are the lower ones; the rest are clear and harmless. */
  ghost predicate Above(scene: Scene, full: seq<Surface>, culled: seq<Surface>) {
    && 1 <= |culled| <= |full| && full[..|culled|] == culled && AllInRange(full)
    && forall k :: |culled| <= k < |full| ==> full[k].pixel == CLEAR && ClearIsHarmless(scene, full[k])
  }

  lemma DrawAbove(scene: Scene, full: seq<Surface>, culled: seq<Surface>, drawing: nat, paint: Paint, g: Geometry,
                  kept: bool)
    requires Above(scene, full, culled)
    requires if kept then |full| == |culled| else !scene.inside(g.clips) || !scene.touches(drawing, paint, g)
    ensures var mark := Drawn(drawing, paint, g);
            var full', culled' := Show(scene, full, mark), if kept then Show(scene, culled, mark) else culled;
            Above(scene, full', culled') && |full'| == |full| && |culled'| == |culled|
  {
    hide ClearIsHarmless, DrawnOver;
  }

  lemma OpenAbove(scene: Scene, full: seq<Surface>, culled: seq<Surface>, layer: nat, withPaint: bool, paint: Paint,
                  g: Geometry, kept: bool)
    requires Above(scene, full, culled)
    requires if kept then |full| == |culled|
             else ClearIsHarmless(scene, Surface(CLEAR, withPaint, paint, scene.inside(g.clips)))
    ensures var mark := LayerOpened(layer, withPaint, paint, g);
            var full', culled' := Show(scene, full, mark), if kept then Show(scene, culled, mark) else culled;
            Above(scene, full', culled') && |full'| == |full| + 1 && |culled'| == |culled| + if kept then 1 else 0
  {
    hide ClearIsHarmless;
  }

  lemma CloseAbove(scene: Scene, full: seq<Surface>, culled: seq<Surface>, flag: bool, kept: bool)
    requires Above(scene, full, culled) && Lawful(scene.env)
    requires if kept then |full| == |culled| > 1 else |full| > |culled|
    ensures var mark := LayerClosed(flag);
            var full', culled' := Show(scene, full, mark), if kept then Show(scene, culled, mark) else culled;
            Above(scene, full', culled') && |full'| == |full| - 1 && |culled'| == |culled| - if kept then 1 else 0
  {
    hide ClearIsHarmless, Closed, Lawful, InRange;
    var n := |full| - 1;
    ClosedInRange(scene, full[n], full[n - 1].pixel);
    var after := Show(scene, full, LayerClosed(flag));
    if kept {
      assert full == culled;
    } else {
      ClearCloses(scene, full[n], full[n - 1].pixel);
      assert after == full[..n];
    }
  }

  // ----- the walk -----

  ghost predicate InStep(scene: Scene, ops: seq<Record>, keep: set<nat>, d: Pixel, n: nat)
    requires n <= |ops|
  {
    var r := ReplayTo(ops, n);
    var full, culled := Played(scene, MarksIn(r.trace), d), Played(scene, Select(r.trace, keep), d);
    && Above(scene, full, culled)
    && |culled| == 1 + OpenLayerCount(r.frames, keep, true)
    && |full| == |culled| + OpenLayerCount(r.frames, keep, false)
  }

  lemma TraceNext(scene: Scene, trace: seq<Traced>, keep: set<nat>, d: Pixel, t: Traced)
    ensures Played(scene, MarksIn(trace + [t]), d) == Show(scene, Played(scene, MarksIn(trace), d), t.mark)
    ensures Played(scene, Select(trace + [t], keep), d) ==
            if t.index in keep then Show(scene, Played(scene, Select(trace, keep), d), t.mark)
            else Played(scene, Select(trace, keep), d)
  {
    hide Show, Played;
    assert (trace + [t])[..|trace + [t]| - 1] == trace;
    assert MarksIn(trace + [t]) == MarksIn(trace) + [t.mark];
    PlayedNext(scene, MarksIn(trace), d, t.mark);
    SelectNext(trace, keep, t);
    assert Select(trace, keep) + [] == Select(trace, keep);
    hide Select, MarksIn;
    PlayedNext(scene, Select(trace, keep), d, t.mark);
  }

  lemma NotHit(ops: seq<Record>, ids: seq<int>, n: nat)
    requires n < |ops| && n !in Kept(ops, ids) && n <= LastIndex(ops, n)
    ensures n !in ids
  {
    if n in ids {
      var k :| 0 <= k < |ids| && ids[k] == n;
      assert Hit(ids, n, LastIndex(ops, n));
    }
  }

  lemma LastFound(scene: Scene, ids: seq<int>, trace: seq<Traced>, t: Traced)
    requires AllFound(scene, ids, trace + [t])
    ensures Found(scene, ids, t) && AllFound(scene, ids, trace)
  {
    hide Found;
    assert (trace + [t])[|trace|] == t;
    assert forall i :: 0 <= i < |trace| ==> (trace + [t])[i] == trace[i];
  }

  lemma DrawInStep(scene: Scene, ops: seq<Record>, ids: seq<int>, d: Pixel, n: nat)
    requires WellFormed(ops) && n < |ops| && ops[n].DrawRecord?
    requires InStep(scene, ops, Kept(ops, ids), d, n) && AllFound(scene, ids, ReplayTo(ops, n + 1).trace)
    ensures InStep(scene, ops, Kept(ops, ids), d, n + 1)
  {
    hide Played, Show, Above, Select, MarksIn, AllFound, WellFormed;
    var keep, r := Kept(ops, ids), ReplayTo(ops, n);
    var mark := Drawn(ops[n].drawing, r.paint, r.geometry);
    var t := Traced(n, mark);
    assert ReplayTo(ops, n + 1) == r.(trace := r.trace + [t]);
    LastFound(scene, ids, r.trace, t);
    if n !in keep {
      NotHit(ops, ids, n);
    }
    OuterKept(ops, ids, n);
    hide Kept, ReplayTo;
    var full, culled := Played(scene, MarksIn(r.trace), d), Played(scene, Select(r.trace, keep), d);
    DrawAbove(scene, full, culled, ops[n].drawing, r.paint, r.geometry, n in keep);
    TraceNext(scene, r.trace, keep, d, t);
  }

  lemma LayerInStep(scene: Scene, ops: seq<Record>, ids: seq<int>, d: Pixel, n: nat)
    requires WellFormed(ops) && n < |ops| && ops[n].SaveLayerRecord?
    requires InStep(scene, ops, Kept(ops, ids), d, n) && AllFound(scene, ids, ReplayTo(ops, n + 1).trace)
    ensures InStep(scene, ops, Kept(ops, ids), d, n + 1)
  {
    hide Played, Show, Above, Select, MarksIn, AllFound, WellFormed;
    var keep, r, op := Kept(ops, ids), ReplayTo(ops, n), ops[n];
    var t := Traced(n, LayerOpened(op.layer, op.withPaint, r.paint, r.geometry));
    var frame := Frame(n, r.geometry, true);
    assert ReplayTo(ops, n + 1) == r.(frames := r.frames + [frame], trace := r.trace + [t]);
    LastFound(scene, ids, r.trace, t);
    if n !in keep {
      RestoredLater(ops, n);
      NotHit(ops, ids, n);
    }
    OuterKept(ops, ids, n);
    hide Kept, ReplayTo;
    var full, culled := Played(scene, MarksIn(r.trace), d), Played(scene, Select(r.trace, keep), d);
    OpenAbove(scene, full, culled, op.layer, op.withPaint, r.paint, r.geometry, n in keep);
    TraceNext(scene, r.trace, keep, d, t);
    CountNext(r.frames, keep, true, frame);
    CountNext(r.frames, keep, false, frame);
  }

  lemma RestoredLater(ops: seq<Record>, n: nat)
    requires WellFormed(ops) && n < |ops| && ops[n].IsSave()
    ensures n < ops[n].restoreIndex < |ops|
  {
    WellFormedNests(ops, n + 1);
    FramesNext(ops, n);
    var after := ReplayTo(ops, n + 1).frames;
    assert Deadline(ops, after[|after| - 1]) == ops[n].restoreIndex;
  }

  lemma RestoreInStep(scene: Scene, ops: seq<Record>, ids: seq<int>, d: Pixel, n: nat)
    requires WellFormed(ops) && n < |ops| && ops[n].RestoreRecord? && Lawful(scene.env)
    requires InStep(scene, ops, Kept(ops, ids), d, n)
    ensures InStep(scene, ops, Kept(ops, ids), d, n + 1)
  {
    hide Played, Show, Above, Select, MarksIn, Lawful;
    var keep, r := Kept(ops, ids), ReplayTo(ops, n);
    assert RestoreMatches(ops, n);
    OpenLayers(ops, n);
    OuterKept(ops, ids, n);
    var m := |r.frames| - 1;
    var top := r.frames[m];
    var after := ReplayTo(ops, n + 1);
    assert after.frames == r.frames[..m] && after.trace == r.trace + LayerMarks(ops, top.save);
    hide Kept, ReplayTo, WellFormed;
    assert r.frames == r.frames[..m] + [top];
    CountNext(r.frames[..m], keep, true, top);
    CountNext(r.frames[..m], keep, false, top);
    if top.isLayer {
      var flag := ops[top.save].distributesOpacity;
      var full, culled := Played(scene, MarksIn(r.trace), d), Played(scene, Select(r.trace, keep), d);
      CloseAbove(scene, full, culled, flag, top.save in keep);
      TraceNext(scene, r.trace, keep, d, Traced(top.save, LayerClosed(flag)));
    } else {
      assert r.trace + [] == r.trace;
    }
  }

  lemma OtherInStep(scene: Scene, ops: seq<Record>, keep: set<nat>, d: Pixel, n: nat)
    requires n < |ops| && !ops[n].DrawRecord? && !ops[n].SaveLayerRecord? && !ops[n].RestoreRecord?
    requires InStep(scene, ops, keep, d, n)
    ensures InStep(scene, ops, keep, d, n + 1)
    ensures ReplayTo(ops, n + 1).trace == ReplayTo(ops, n).trace
  {
    hide Played, Above, Select, MarksIn, ApplyAttribute, ApplyGeometry;
    var r, after := ReplayTo(ops, n), ReplayTo(ops, n + 1);
    assert after == Step(ops, n, r);
    if ops[n].SaveRecord? {
      CountNext(r.frames, keep, true, Frame(n, r.geometry, false));
      CountNext(r.frames, keep, false, Frame(n, r.geometry, false));
    }
  }

  lemma TraceGrows(ops: seq<Record>, n: nat)
    requires n < |ops|
    ensures ReplayTo(ops, n).trace <= ReplayTo(ops, n + 1).trace
  {
    hide ApplyAttribute, ApplyGeometry;
  }

  lemma FoundBefore(scene: Scene, ids: seq<int>, trace: seq<Traced>, longer: seq<Traced>)
    requires trace <= longer && AllFound(scene, ids, longer)
    ensures AllFound(scene, ids, trace)
  {
    hide Found;
  }

  lemma {:induction false} WalkInStep(scene: Scene, ops: seq<Record>, ids: seq<int>, d: Pixel, n: nat)
    requires WellFormed(ops) && n <= |ops| && Lawful(scene.env) && InRange(d)
    requires AllFound(scene, ids, ReplayTo(ops, n).trace)
    ensures InStep(scene, ops, Kept(ops, ids), d, n)
  {
    hide WellFormed, Lawful, AllFound, Kept;
    if n == 0 {
      StartInStep(scene, ops, Kept(ops, ids), d);
    } else {
      hide InStep, ReplayTo;
      var i := n - 1;
      TraceGrows(ops, i);
      FoundBefore(scene, ids, ReplayTo(ops, i).trace, ReplayTo(ops, n).trace);
      WalkInStep(scene, ops, ids, d, i);
      match ops[i] {
        case DrawRecord(_) => DrawInStep(scene, ops, ids, d, i);
        case SaveLayerRecord(_, _, _, _) => LayerInStep(scene, ops, ids, d, i);
        case RestoreRecord => RestoreInStep(scene, ops, ids, d, i);
        case _ => OtherInStep(scene, ops, Kept(ops, ids), d, i);
      }
    }
  }

  lemma StartInStep(scene: Scene, ops: seq<Record>, keep: set<nat>, d: Pixel)
    requires InRange(d)
    ensures InStep(scene, ops, keep, d, 0)
  {
  }

  /** At a pixel the hit list accounts for, culled and full playback end alike. */
  lemma CulledShowsSame(scene: Scene, ops: seq<Record>, ids: seq<int>, d: Pixel)
    requires WellFormed(ops) && Lawful(scene.env) && InRange(d)
    requires AllFound(scene, ids, ReplayTo(ops, |ops|).trace)
    ensures var trace := ReplayTo(ops, |ops|).trace;
            && Played(scene, Select(trace, Kept(ops, ids)), d) == Played(scene, MarksIn(trace), d)
            && |Played(scene, MarksIn(trace), d)| == 1
  {
    hide Played, Select, MarksIn, Kept, Lawful;
    WalkInStep(scene, ops, ids, d, |ops|);
    assert ReplayTo(ops, |ops|).frames == [];
    hide ReplayTo;
  }

  /** Every pixel the hit list accounts for shows what full playback shows. */
  ghost predicate PixelsKept(ops: seq<Record>, ids: seq<int>, seen: seq<Mark>)
    requires WellFormed(ops)
  {
    forall scene: Scene, d :: Lawful(scene.env) && InRange(d) && AllFound(scene, ids, ReplayTo(ops, |ops|).trace) ==>
      Played(scene, seen, d) == Played(scene, MarksIn(ReplayTo(ops, |ops|).trace), d)
  }

  method PlayCulled(ops: seq<Record>, ids: seq<int>) returns (calls: seq<Call>)
    requires WellFormed(ops) && |ops| < MAX_INT && HitList(ids)
    ensures PixelsKept(ops, ids, Observe(calls).marks)
    ensures Observe(calls).levels == [] && !Observe(calls).underflow
  {
    hide WellFormed, Played, Select, MarksIn, Kept, Lawful, ReplayTo, AllFound, Observe;
    calls := DispatchCulled(ops, ids);
    forall scene: Scene, d | Lawful(scene.env) && InRange(d) && AllFound(scene, ids, ReplayTo(ops, |ops|).trace)
      ensures Played(scene, Observe(calls).marks, d) == Played(scene, MarksIn(ReplayTo(ops, |ops|).trace), d)
    {
      CulledShowsSame(scene, ops, ids, d);
    }
  }
}
