/**
 Playback of a recorded stream, with and without culling
 (display_list/display_list.cc and the dispatch half of display_list/dl_op_records.h).

 `ReplayTo` is the plain player: it performs every record.  `Dispatch` is the
 culling player: a context that walks the records once, skips draws that are not
 in the hit list, skips saves, layers, transforms and clips nothing drawn depends
 on, and keeps the receiver's save stack balanced.  The theorem is that the
 receiver sees exactly the marks the plain player makes for the records that are
 kept, each under the same paint, transform, clips and layers.
 */
module Player {
  import opened Records

  const MAX_INT := 0x7fff_ffff

  // ----- the plain player -----

  datatype Mark =
    | Drawn(drawing: nat, paint: Paint, geometry: Geometry)
    | LayerOpened(layer: nat, withPaint: bool, paint: Paint, geometry: Geometry)
    | LayerClosed(distributesOpacity: bool)

  /** A mark and the index of the record it belongs to; a layer's two marks belong to its save. */
  datatype Traced = Traced(index: nat, mark: Mark)

  /** An open save: its index, the geometry its restore brings back, and whether it opened a layer. */
  datatype Frame = Frame(save: nat, geometry: Geometry, isLayer: bool)

  datatype Replay = Replay(paint: Paint, geometry: Geometry, frames: seq<Frame>, trace: seq<Traced>)

  const START := Replay(DEFAULT_PAINT, WHOLE_SURFACE, [], [])

  function LayerMarks(ops: seq<Record>, save: nat): seq<Traced> {
    if save < |ops| && ops[save].SaveLayerRecord?
    then [Traced(save, LayerClosed(ops[save].distributesOpacity))] else []
  }

  function Step(ops: seq<Record>, i: nat, s: Replay): Replay
    requires i < |ops|
  {
    match ops[i]
    case AttributeRecord(a) => s.(paint := ApplyAttribute(s.paint, a))
    case SaveRecord(_) => s.(frames := s.frames + [Frame(i, s.geometry, false)])
    case SaveLayerRecord(l, withPaint, _, _) =>
      s.(frames := s.frames + [Frame(i, s.geometry, true)],
         trace := s.trace + [Traced(i, LayerOpened(l, withPaint, s.paint, s.geometry))])
    case RestoreRecord =>
      if s.frames == [] then s else
      var top := s.frames[|s.frames| - 1];
      s.(frames := s.frames[..|s.frames| - 1],
         geometry := top.geometry,
         trace := s.trace + LayerMarks(ops, top.save))
    case DrawRecord(d) => s.(trace := s.trace + [Traced(i, Drawn(d, s.paint, s.geometry))])
    case _ => s.(geometry := ApplyGeometry(s.geometry, ops[i]))
  }

  /** The plain player after its first `n` records. */
  function ReplayTo(ops: seq<Record>, n: nat): Replay
    requires n <= |ops|
  {
    if n == 0 then START else Step(ops, n - 1, ReplayTo(ops, n - 1))
  }

  // ----- well-formed streams -----

  /** A restore closes an open save, and that save holds the restore's index. */
  ghost predicate RestoreMatches(ops: seq<Record>, i: nat)
    requires i < |ops|
  {
    var frames := ReplayTo(ops, i).frames;
    && frames != []
    && var save := frames[|frames| - 1].save;
       save < i && ops[save].IsSave() && ops[save].restoreIndex == i
  }

  ghost predicate Bracketed(ops: seq<Record>) {
    forall i :: 0 <= i < |ops| && ops[i].RestoreRecord? ==> RestoreMatches(ops, i)
  }

  ghost predicate WellFormed(ops: seq<Record>) {
    Bracketed(ops) && ReplayTo(ops, |ops|).frames == []
  }

  function Deadline(ops: seq<Record>, frame: Frame): int {
    if frame.save < |ops| && ops[frame.save].IsSave() then ops[frame.save].restoreIndex else -1
  }

  /** The saves open at `i` are earlier records, and inner ones are restored first, all at `i` or later. */
  ghost predicate Nested(ops: seq<Record>, i: nat)
    requires i <= |ops|
  {
    NestedFrames(ops, ReplayTo(ops, i).frames, i)
  }

  ghost predicate NestedFrames(ops: seq<Record>, frames: seq<Frame>, i: nat) {
    && (forall k :: 0 <= k < |frames| ==>
          frames[k].save < i <= |ops| && ops[frames[k].save].IsSave() && i <= Deadline(ops, frames[k]) < |ops|)
    && (forall j, k :: 0 <= j < k < |frames| ==> Deadline(ops, frames[j]) > Deadline(ops, frames[k]))
  }

  lemma FramesNext(ops: seq<Record>, i: nat)
    requires i < |ops|
    ensures var before, after := ReplayTo(ops, i), ReplayTo(ops, i + 1);
            && (ops[i].IsSave() ==> after.frames == before.frames + [Frame(i, before.geometry, ops[i].SaveLayerRecord?)])
            && (ops[i].RestoreRecord? && before.frames != [] ==>
                  after.frames == before.frames[..|before.frames| - 1])
            && (!ops[i].IsSave() && (ops[i].RestoreRecord? ==> before.frames == []) ==>
                  after.frames == before.frames)
  {
    assert ReplayTo(ops, i + 1) == Step(ops, i, ReplayTo(ops, i));
  }

  lemma {:induction false} OpenSaves(ops: seq<Record>, i: nat)
    requires i <= |ops|
    ensures var frames := ReplayTo(ops, i).frames;
            && (forall k :: 0 <= k < |frames| ==> frames[k].save < i && ops[frames[k].save].IsSave())
            && (forall j, k :: 0 <= j < k < |frames| ==> frames[j].save < frames[k].save)
  {
    if i > 0 {
      OpenSaves(ops, i - 1);
      FramesNext(ops, i - 1);
    }
  }

  lemma {:induction false} OpenLayers(ops: seq<Record>, i: nat)
    requires i <= |ops|
    ensures var frames := ReplayTo(ops, i).frames;
            forall k :: 0 <= k < |frames| ==>
              frames[k].save < i && (frames[k].isLayer <==> ops[frames[k].save].SaveLayerRecord?)
  {
    if i > 0 {
      OpenLayers(ops, i - 1);
      FramesNext(ops, i - 1);
    }
  }

  lemma {:induction false} WellFormedNests(ops: seq<Record>, i: nat)
    requires WellFormed(ops) && i <= |ops|
    ensures Nested(ops, i)
    decreases |ops| - i
  {
    if i < |ops| {
      hide ReplayTo, WellFormed, Nested;
      WellFormedNests(ops, i + 1);
      OpenSaves(ops, i);
      FramesNext(ops, i);
      if ops[i].RestoreRecord? {
        RestoreMatched(ops, i);
      }
      NestedBefore(ops, i);
    }
  }

  lemma RestoreMatched(ops: seq<Record>, i: nat)
    requires WellFormed(ops) && i < |ops| && ops[i].RestoreRecord?
    ensures RestoreMatches(ops, i)
  {
  }

  lemma NestedBefore(ops: seq<Record>, i: nat)
    requires i < |ops| && Nested(ops, i + 1) && (ops[i].RestoreRecord? ==> RestoreMatches(ops, i))
    requires forall k :: 0 <= k < |ReplayTo(ops, i).frames| ==>
               ReplayTo(ops, i).frames[k].save < i && ops[ReplayTo(ops, i).frames[k].save].IsSave()
    ensures Nested(ops, i)
  {
    hide ReplayTo, NestedFrames, RestoreMatches, Deadline;
    FramesNext(ops, i);
    var before, after := ReplayTo(ops, i).frames, ReplayTo(ops, i + 1).frames;
    if ops[i].RestoreRecord? {
      RestoreDeadline(ops, i);
      NestedOuter(ops, before, i);
    } else {
      assert before == after[..|before|];
      NestedInner(ops, before, after, i);
    }
  }

  lemma RestoreDeadline(ops: seq<Record>, i: nat)
    requires i < |ops| && RestoreMatches(ops, i)
    ensures var frames := ReplayTo(ops, i).frames;
            frames != [] && Deadline(ops, frames[|frames| - 1]) == i
  {
    hide ReplayTo;
  }

  /** The frames from before a restore: those after it, and one that ends here. */
  lemma NestedOuter(ops: seq<Record>, before: seq<Frame>, i: nat)
    requires before != [] && i < |ops| && NestedFrames(ops, before[..|before| - 1], i + 1)
    requires var top := before[|before| - 1]; top.save < i && ops[top.save].IsSave() && Deadline(ops, top) == i
    requires forall k :: 0 <= k < |before| ==> before[k].save < i
    ensures NestedFrames(ops, before, i)
  {
    hide Deadline;
    var outer := before[..|before| - 1];
    assert forall k :: 0 <= k < |outer| ==> before[k] == outer[k];
  }

  lemma NestedInner(ops: seq<Record>, before: seq<Frame>, after: seq<Frame>, i: nat)
    requires i < |ops| && NestedFrames(ops, after, i + 1) && |before| <= |after| && before == after[..|before|]
    requires forall k :: 0 <= k < |before| ==> before[k].save < i
    ensures NestedFrames(ops, before, i)
  {
    hide Deadline;
    assert forall k :: 0 <= k < |before| ==> before[k] == after[k];
  }

  // ----- the receiver -----

  datatype Call =
    | CallAttribute(attribute: Attribute)
    | CallSave
    | CallSaveLayer(layer: nat, withPaint: bool, distributesOpacity: bool)
    | CallRestore
    | CallGeometry(record: Record)
    | CallDraw(drawing: nat)

  /** A receiver's open save; `layer` holds the opacity flag of a saveLayer. */
  datatype Level = Level(geometry: Geometry, layer: Option<bool>)

  datatype Receiver = Receiver(
    paint: Paint, geometry: Geometry, levels: seq<Level>, marks: seq<Mark>, underflow: bool)

  const FRESH_RECEIVER := Receiver(DEFAULT_PAINT, WHOLE_SURFACE, [], [], false)

  function Receive(s: Receiver, call: Call): Receiver {
    match call
    case CallAttribute(a) => s.(paint := ApplyAttribute(s.paint, a))
    case CallSave => s.(levels := s.levels + [Level(s.geometry, None)])
    case CallSaveLayer(l, withPaint, distributes) =>
      s.(levels := s.levels + [Level(s.geometry, Some(distributes))],
         marks := s.marks + [LayerOpened(l, withPaint, s.paint, s.geometry)])
    case CallRestore =>
      if s.levels == [] then s.(underflow := true) else
      var top := s.levels[|s.levels| - 1];
      s.(levels := s.levels[..|s.levels| - 1],
         geometry := top.geometry,
         marks := s.marks + if top.layer.Some? then [LayerClosed(top.layer.value)] else [])
    case CallGeometry(r) => if r.IsGeometry() then s.(geometry := ApplyGeometry(s.geometry, r)) else s
    case CallDraw(d) => s.(marks := s.marks + [Drawn(d, s.paint, s.geometry)])
  }

  /** What a receiver has seen after a sequence of calls. */
  function Observe(calls: seq<Call>): Receiver {
    if calls == [] then FRESH_RECEIVER
    else Receive(Observe(calls[..|calls| - 1]), calls[|calls| - 1])
  }

  lemma ObserveNext(calls: seq<Call>, call: Call)
    ensures Observe(calls + [call]) == Receive(Observe(calls), call)
  {
    assert (calls + [call])[..|calls + [call]| - 1] == calls;
  }

  // ----- the dispatch context -----

  datatype PendingSave = PendingSave(previousRestoreIndex: int, saveWasNeeded: bool)

  datatype ContextValue = ContextValue(
    calls: seq<Call>, curIndex: int, nextRenderIndex: int, nextRestoreIndex: int, saveInfos: seq<PendingSave>)

  function SaveCall(op: Record): Call
    requires op.IsSave()
  {
    if op.SaveRecord? then CallSave else CallSaveLayer(op.layer, op.withPaint, op.distributesOpacity)
  }

  /** What dispatching one record does to the context. */
  function Dispatched(c: ContextValue, op: Record): ContextValue {
    match op
    case AttributeRecord(a) => c.(calls := c.calls + [CallAttribute(a)])
    case RestoreRecord =>
      if c.saveInfos == [] then c else
      var info := c.saveInfos[|c.saveInfos| - 1];
      c.(calls := if info.saveWasNeeded then c.calls + [CallRestore] else c.calls,
         nextRestoreIndex := info.previousRestoreIndex,
         saveInfos := c.saveInfos[..|c.saveInfos| - 1])
    case DrawRecord(d) =>
      if c.curIndex >= c.nextRenderIndex then c.(calls := c.calls + [CallDraw(d)]) else c
    case _ =>
      if op.IsSave() then
        var needed := c.nextRenderIndex <= op.restoreIndex;
        c.(calls := if needed then c.calls + [SaveCall(op)] else c.calls,
           saveInfos := c.saveInfos + [PendingSave(c.nextRestoreIndex, needed)],
           nextRestoreIndex := op.restoreIndex)
      else if c.nextRenderIndex <= c.nextRestoreIndex then c.(calls := c.calls + [CallGeometry(op)])
      else c
  }

  class DispatchContext {
    var calls: seq<Call>
    var curIndex: int
    var nextRenderIndex: int
    var nextRestoreIndex: int
    var saveInfos: seq<PendingSave>

    constructor ()
      ensures Value() == ContextValue([], 0, 0, MAX_INT, [])
    {
      calls, curIndex, nextRenderIndex, nextRestoreIndex, saveInfos := [], 0, 0, MAX_INT, [];
    }

    function Value(): ContextValue
      reads this
    {
      ContextValue(calls, curIndex, nextRenderIndex, nextRestoreIndex, saveInfos)
    }

    method SaveNeeded(restoreIndex: nat) returns (needed: bool)
      modifies `saveInfos, `nextRestoreIndex
      ensures needed <==> nextRenderIndex <= restoreIndex
      ensures saveInfos == old(saveInfos) + [PendingSave(old(nextRestoreIndex), needed)]
      ensures nextRestoreIndex == restoreIndex
    {
      needed := nextRenderIndex <= restoreIndex;
      saveInfos := saveInfos + [PendingSave(nextRestoreIndex, needed)];
      nextRestoreIndex := restoreIndex;
    }

    method Execute(op: Record)
      requires op.RestoreRecord? ==> saveInfos != []
      modifies this
      ensures Value() == Dispatched(old(Value()), op)
    {
      match op {
        case AttributeRecord(a) => calls := calls + [CallAttribute(a)];
        case SaveRecord(restoreIndex) =>
          var needed := SaveNeeded(restoreIndex);
          if needed {
            calls := calls + [CallSave];
          }
        case SaveLayerRecord(layer, withPaint, restoreIndex, distributes) =>
          var needed := SaveNeeded(restoreIndex);
          if needed {
            calls := calls + [CallSaveLayer(layer, withPaint, distributes)];
          }
        case RestoreRecord =>
          var info := saveInfos[|saveInfos| - 1];
          if info.saveWasNeeded {
            calls := calls + [CallRestore];
          }
          nextRestoreIndex := info.previousRestoreIndex;
          saveInfos := saveInfos[..|saveInfos| - 1];
        case DrawRecord(d) =>
          if curIndex >= nextRenderIndex {
            calls := calls + [CallDraw(d)];
          }
        case _ =>
          if nextRenderIndex <= nextRestoreIndex {
            calls := calls + [CallGeometry(op)];
          }
      }
    }
  }

  /**
   With nothing left to render, both indices are at their maximum, and a transform or a
   clip at the top level is still forwarded; it makes no mark.
   */
  lemma TrailingGeometryForwarded(c: ContextValue, op: Record)
    requires op.IsGeometry() && c.nextRenderIndex == c.nextRestoreIndex == MAX_INT
    ensures Dispatched(c, op).calls == c.calls + [CallGeometry(op)]
    ensures Observe(Dispatched(c, op).calls).marks == Observe(c.calls).marks
  {
    ObserveNext(c.calls, CallGeometry(op));
  }

  // ----- the simulation -----

  /**
   The receiver's levels against the plain player's frames, innermost first.  A
   level's geometry has to agree only while something is still to be rendered
   before the level is restored; a frame whose save was not forwarded has no level
   of its own.
   */
  ghost predicate LevelsAgree(ops: seq<Record>, keep: set<nat>, frames: seq<Frame>, geometry: Geometry,
                              infos: seq<PendingSave>, deadline: int, levels: seq<Level>, seen: Geometry, next: int)
    decreases |frames|
  {
    && (next <= deadline ==> seen == geometry)
    && |infos| == |frames|
    && if frames == [] then levels == [] && deadline == MAX_INT else
       var frame, info := frames[|frames| - 1], infos[|infos| - 1];
       var outerFrames, outerInfos := frames[..|frames| - 1], infos[..|infos| - 1];
       && deadline == Deadline(ops, frame)
       && (info.saveWasNeeded <==> frame.save in keep)
       && if info.saveWasNeeded then
            && levels != []
            && levels[|levels| - 1].layer == LayerFlag(ops, frame.save)
            && LevelsAgree(ops, keep, outerFrames, frame.geometry, outerInfos, info.previousRestoreIndex,
                           levels[..|levels| - 1], levels[|levels| - 1].geometry, next)
          else
            && deadline < next
            && LevelsAgree(ops, keep, outerFrames, frame.geometry, outerInfos, info.previousRestoreIndex,
                           levels, seen, next)
  }

  function LayerFlag(ops: seq<Record>, save: nat): Option<bool> {
    if save < |ops| && ops[save].SaveLayerRecord? then Some(ops[save].distributesOpacity) else None
  }

  /** Rendering later can only relax what has to agree. */
  lemma {:induction false} LevelsAgreeLater(ops: seq<Record>, keep: set<nat>, frames: seq<Frame>, geometry: Geometry,
                                            infos: seq<PendingSave>, deadline: int, levels: seq<Level>,
                                            seen: Geometry, next: int, later: int)
    requires LevelsAgree(ops, keep, frames, geometry, infos, deadline, levels, seen, next)
    requires next <= later
    ensures LevelsAgree(ops, keep, frames, geometry, infos, deadline, levels, seen, later)
    decreases |frames|
  {
    if frames != [] {
      var frame, info := frames[|frames| - 1], infos[|infos| - 1];
      var outerFrames, outerInfos := frames[..|frames| - 1], infos[..|infos| - 1];
      if info.saveWasNeeded {
        LevelsAgreeLater(ops, keep, outerFrames, frame.geometry, outerInfos, info.previousRestoreIndex,
                         levels[..|levels| - 1], levels[|levels| - 1].geometry, next, later);
      } else {
        LevelsAgreeLater(ops, keep, outerFrames, frame.geometry, outerInfos, info.previousRestoreIndex,
                         levels, seen, next, later);
      }
    }
  }

  /** The marks of the kept records, in order. */
  function Select(trace: seq<Traced>, keep: set<nat>): seq<Mark> {
    if trace == [] then [] else
    var last := trace[|trace| - 1];
    Select(trace[..|trace| - 1], keep) + if last.index in keep then [last.mark] else []
  }

  lemma SelectNext(trace: seq<Traced>, keep: set<nat>, t: Traced)
    ensures Select(trace + [t], keep) == Select(trace, keep) + if t.index in keep then [t.mark] else []
  {
    assert (trace + [t])[..|trace + [t]| - 1] == trace;
  }

  lemma {:induction false} SelectNone(trace: seq<Traced>, keep: set<nat>)
    requires keep == {}
    ensures Select(trace, keep) == []
  {
    if trace != [] {
      SelectNone(trace[..|trace| - 1], keep);
    }
  }

  lemma {:induction false} SelectAll(trace: seq<Traced>, keep: set<nat>)
    requires forall t :: t in trace ==> t.index in keep
    ensures |Select(trace, keep)| == |trace|
    ensures forall i :: 0 <= i < |trace| ==> Select(trace, keep)[i] == trace[i].mark
  {
    if trace != [] {
      SelectAll(trace[..|trace| - 1], keep);
    }
  }

  ghost predicate Simulates(ops: seq<Record>, keep: set<nat>, i: nat, c: ContextValue)
    requires i <= |ops|
  {
    var full, seen := ReplayTo(ops, i), Observe(c.calls);
    && seen.paint == full.paint
    && seen.marks == Select(full.trace, keep)
    && !seen.underflow
    && LevelsAgree(ops, keep, full.frames, full.geometry, c.saveInfos, c.nextRestoreIndex,
                   seen.levels, seen.geometry, c.nextRenderIndex)
  }

  /** The context decides about record `i` as `keep` does. */
  ghost predicate Decides(ops: seq<Record>, keep: set<nat>, i: nat, c: ContextValue)
    requires i < |ops|
  {
    && (ops[i].IsSave() ==> (c.nextRenderIndex <= ops[i].restoreIndex <==> i in keep))
    && (ops[i].DrawRecord? ==> (c.curIndex >= c.nextRenderIndex <==> i in keep))
    && (ops[i].DrawRecord? && i in keep ==> c.nextRenderIndex <= i)
  }

  lemma TopDeadline(ops: seq<Record>, keep: set<nat>, i: nat, c: ContextValue)
    requires WellFormed(ops) && i <= |ops| && |ops| <= MAX_INT
    requires Simulates(ops, keep, i, c)
    ensures i <= c.nextRestoreIndex
    ensures i < |ops| && ops[i].IsSave() ==> ops[i].restoreIndex <= c.nextRestoreIndex
  {
    WellFormedNests(ops, i);
    if i < |ops| && ops[i].IsSave() {
      WellFormedNests(ops, i + 1);
      var before, after := ReplayTo(ops, i).frames, ReplayTo(ops, i + 1).frames;
      FramesNext(ops, i);
      assert after[|before|].save == i;
      assert Deadline(ops, after[|before|]) == ops[i].restoreIndex;
      if before != [] {
        assert after[|before| - 1] == before[|before| - 1];
      }
    }
  }

  /** One more frame, with a level of its own if its save is kept. */
  lemma LevelsPushed(ops: seq<Record>, keep: set<nat>, frames: seq<Frame>, geometry: Geometry, infos: seq<PendingSave>,
                     deadline: int, levels: seq<Level>, seen: Geometry, next: int, frame: Frame)
    requires LevelsAgree(ops, keep, frames, geometry, infos, deadline, levels, seen, next)
    requires frame.save < |ops| && ops[frame.save].IsSave() && frame.geometry == geometry
    requires Deadline(ops, frame) <= deadline && (next <= Deadline(ops, frame) <==> frame.save in keep)
    ensures var needed := frame.save in keep;
            LevelsAgree(ops, keep, frames + [frame], geometry, infos + [PendingSave(deadline, needed)], Deadline(ops, frame),
                        if needed then levels + [Level(seen, LayerFlag(ops, frame.save))] else levels, seen, next)
    ensures frame.save in keep ==> seen == geometry
  {
    var info := PendingSave(deadline, frame.save in keep);
    var level := Level(seen, LayerFlag(ops, frame.save));
    assert (frames + [frame])[..|frames|] == frames && (infos + [info])[..|infos|] == infos;
    assert (levels + [level])[..|levels|] == levels;
    hide Deadline, LayerFlag;
  }

  lemma SaveSimulates(ops: seq<Record>, keep: set<nat>, i: nat, c: ContextValue)
    requires WellFormed(ops) && i < |ops| <= MAX_INT && ops[i].IsSave()
    requires Simulates(ops, keep, i, c) && Decides(ops, keep, i, c)
    ensures Simulates(ops, keep, i + 1, Dispatched(c, ops[i]))
  {
    hide LevelsAgree, WellFormed, Select, Observe;
    var full, seen, op := ReplayTo(ops, i), Observe(c.calls), ops[i];
    TopDeadline(ops, keep, i, c);
    var frame := Frame(i, full.geometry, op.SaveLayerRecord?);
    assert Deadline(ops, frame) == op.restoreIndex;
    LevelsPushed(ops, keep, full.frames, full.geometry, c.saveInfos, c.nextRestoreIndex, seen.levels, seen.geometry,
                 c.nextRenderIndex, frame);
    if i in keep {
      ObserveNext(c.calls, SaveCall(op));
    }
    if op.SaveLayerRecord? {
      SelectNext(full.trace, keep, Traced(i, LayerOpened(op.layer, op.withPaint, full.paint, full.geometry)));
    }
  }

  /** The top frame, and what closing it leaves. */
  lemma LevelsPopped(ops: seq<Record>, keep: set<nat>, frames: seq<Frame>, geometry: Geometry, infos: seq<PendingSave>,
                     deadline: int, levels: seq<Level>, seen: Geometry, next: int)
    requires LevelsAgree(ops, keep, frames, geometry, infos, deadline, levels, seen, next) && frames != []
    ensures infos != []
    ensures var frame, info := frames[|frames| - 1], infos[|infos| - 1];
            var outerFrames, outerInfos := frames[..|frames| - 1], infos[..|infos| - 1];
            && (info.saveWasNeeded <==> frame.save in keep)
            && if info.saveWasNeeded then
                 && levels != [] && levels[|levels| - 1].layer == LayerFlag(ops, frame.save)
                 && LevelsAgree(ops, keep, outerFrames, frame.geometry, outerInfos, info.previousRestoreIndex,
                                levels[..|levels| - 1], levels[|levels| - 1].geometry, next)
               else LevelsAgree(ops, keep, outerFrames, frame.geometry, outerInfos, info.previousRestoreIndex,
                                levels, seen, next)
  {
  }

  lemma RestoreSimulates(ops: seq<Record>, keep: set<nat>, i: nat, c: ContextValue)
    requires WellFormed(ops) && i < |ops| && ops[i].RestoreRecord?
    requires Simulates(ops, keep, i, c)
    ensures Simulates(ops, keep, i + 1, Dispatched(c, ops[i]))
    ensures c.saveInfos != []
  {
    hide LevelsAgree, WellFormed, Select, Observe;
    var full, seen := ReplayTo(ops, i), Observe(c.calls);
    RestoreMatched(ops, i);
    var frame := full.frames[|full.frames| - 1];
    LevelsPopped(ops, keep, full.frames, full.geometry, c.saveInfos, c.nextRestoreIndex, seen.levels, seen.geometry,
                 c.nextRenderIndex);
    if frame.save in keep {
      ObserveNext(c.calls, CallRestore);
    }
    if ops[frame.save].SaveLayerRecord? {
      SelectNext(full.trace, keep, Traced(frame.save, LayerClosed(ops[frame.save].distributesOpacity)));
    } else {
      assert full.trace + [] == full.trace && seen.marks + [] == seen.marks;
    }
  }

  lemma DrawSimulates(ops: seq<Record>, keep: set<nat>, i: nat, c: ContextValue)
    requires WellFormed(ops) && i < |ops| <= MAX_INT && ops[i].DrawRecord?
    requires Simulates(ops, keep, i, c) && Decides(ops, keep, i, c)
    ensures Simulates(ops, keep, i + 1, Dispatched(c, ops[i]))
  {
    var full, d := ReplayTo(ops, i), ops[i].drawing;
    var mark := Traced(i, Drawn(d, full.paint, full.geometry));
    assert ReplayTo(ops, i + 1) == full.(trace := full.trace + [mark]);
    SelectNext(full.trace, keep, mark);
    if i in keep {
      TopDeadline(ops, keep, i, c);
      ObserveNext(c.calls, CallDraw(d));
    } else {
      assert Dispatched(c, ops[i]) == c;
    }
  }

  lemma GeometrySimulates(ops: seq<Record>, keep: set<nat>, i: nat, c: ContextValue)
    requires i < |ops| && ops[i].IsGeometry() && Simulates(ops, keep, i, c)
    ensures Simulates(ops, keep, i + 1, Dispatched(c, ops[i]))
  {
    var full := ReplayTo(ops, i);
    assert ReplayTo(ops, i + 1) == full.(geometry := ApplyGeometry(full.geometry, ops[i]));
    if c.nextRenderIndex <= c.nextRestoreIndex {
      ObserveNext(c.calls, CallGeometry(ops[i]));
    }
  }

  lemma AttributeSimulates(ops: seq<Record>, keep: set<nat>, i: nat, c: ContextValue)
    requires i < |ops| && ops[i].AttributeRecord? && Simulates(ops, keep, i, c)
    ensures Simulates(ops, keep, i + 1, Dispatched(c, ops[i]))
  {
    ObserveNext(c.calls, CallAttribute(ops[i].attribute));
  }

  lemma StepSimulates(ops: seq<Record>, keep: set<nat>, i: nat, c: ContextValue)
    requires WellFormed(ops) && i < |ops| <= MAX_INT
    requires Simulates(ops, keep, i, c) && Decides(ops, keep, i, c)
    ensures Simulates(ops, keep, i + 1, Dispatched(c, ops[i]))
    ensures ops[i].RestoreRecord? ==> c.saveInfos != []
  {
    if ops[i].AttributeRecord? {
      AttributeSimulates(ops, keep, i, c);
    } else if ops[i].RestoreRecord? {
      RestoreSimulates(ops, keep, i, c);
    } else if ops[i].DrawRecord? {
      DrawSimulates(ops, keep, i, c);
    } else if ops[i].IsSave() {
      SaveSimulates(ops, keep, i, c);
    } else {
      GeometrySimulates(ops, keep, i, c);
    }
  }

  lemma SimulatesAtStart(ops: seq<Record>, keep: set<nat>, next: int)
    ensures Simulates(ops, keep, 0, ContextValue([], 0, next, MAX_INT, []))
  {
  }

  lemma SimulatesAtEnd(ops: seq<Record>, keep: set<nat>, c: ContextValue)
    requires WellFormed(ops) && Simulates(ops, keep, |ops|, c)
    ensures var full, seen := ReplayTo(ops, |ops|), Observe(c.calls);
            && seen.marks == Select(full.trace, keep) && seen.paint == full.paint
            && seen.levels == [] && !seen.underflow
            && (c.nextRenderIndex <= MAX_INT ==> seen.geometry == full.geometry)
  {
  }

  /** Moving the render index forward keeps the simulation. */
  lemma AdvanceSimulates(ops: seq<Record>, keep: set<nat>, i: nat, c: ContextValue, cur: int, next: int)
    requires i <= |ops| && Simulates(ops, keep, i, c) && c.nextRenderIndex <= next
    ensures Simulates(ops, keep, i, c.(curIndex := cur, nextRenderIndex := next))
  {
    var full, seen := ReplayTo(ops, i), Observe(c.calls);
    LevelsAgreeLater(ops, keep, full.frames, full.geometry, c.saveInfos, c.nextRestoreIndex,
                     seen.levels, seen.geometry, c.nextRenderIndex, next);
  }

  // ----- the cullers -----

  /** Some hit lies between two indices, both included. */
  ghost predicate Hit(ids: seq<int>, from: int, to: int) {
    exists k :: 0 <= k < |ids| && from <= ids[k] <= to
  }

  ghost function LastIndex(ops: seq<Record>, i: nat): int
    requires i < |ops|
  {
    if ops[i].IsSave() then ops[i].restoreIndex else i
  }

  /** The records a hit list keeps: the draws it names and every save around a named record. */
  ghost function Kept(ops: seq<Record>, ids: seq<int>): set<nat> {
    set i: nat | i < |ops| && Hit(ids, i, LastIndex(ops, i))
  }

  /** A save is kept for any hit from it to its restore, every other record for a hit on itself alone. */
  lemma KeptExactly(ops: seq<Record>, ids: seq<int>, i: nat)
    requires i < |ops|
    ensures i in Kept(ops, ids) <==>
            match ops[i]
            case SaveRecord(end) => exists k :: 0 <= k < |ids| && i <= ids[k] <= end
            case SaveLayerRecord(_, _, end, _) => exists k :: 0 <= k < |ids| && i <= ids[k] <= end
            case _ => i in ids
    ensures forall k: nat :: k in Kept(ops, ids) ==> k < |ops|
  {
    if !ops[i].IsSave() && i in Kept(ops, ids) {
      var k :| 0 <= k < |ids| && i <= ids[k] <= i;
    }
    if i in ids {
      var k :| 0 <= k < |ids| && ids[k] == i;
      assert !ops[i].IsSave() ==> Hit(ids, i, i);
    }
  }

  /** What a search of the R-tree returns: record indices in nondecreasing order. */
  predicate HitList(ids: seq<int>) {
    && (forall k :: 0 <= k < |ids| ==> 0 <= ids[k] < MAX_INT)
    && (forall j, k :: 0 <= j < k < |ids| ==> ids[j] <= ids[k])
  }

  /** `next` is the first hit at or after `i`, or MAX_INT when there is none. */
  ghost predicate FirstHit(ids: seq<int>, i: int, next: int) {
    && i <= next
    && (next == MAX_INT || next in ids)
    && forall k :: 0 <= k < |ids| && i <= ids[k] ==> next <= ids[k]
  }

  lemma FirstHitDecides(ids: seq<int>, i: int, next: int, to: int)
    requires FirstHit(ids, i, next) && to < MAX_INT
    ensures next <= to <==> Hit(ids, i, to)
  {
    if next <= to {
      var k :| 0 <= k < |ids| && ids[k] == next;
    }
  }

  class VectorCuller {
    const ids: seq<int>
    var cur: nat

    /** The hits already passed lie before the next one, which is the first from here on. */
    ghost predicate Follows(context: DispatchContext)
      reads this, context
    {
      && cur <= |ids|
      && (forall k :: 0 <= k < cur ==> ids[k] <= context.nextRenderIndex)
      && FirstHit(ids, context.curIndex, context.nextRenderIndex)
    }

    constructor (ids: seq<int>)
      ensures this.ids == ids && cur == 0
    {
      this.ids := ids;
      cur := 0;
    }

    method Init(context: DispatchContext) returns (more: bool)
      requires cur == 0 && context.curIndex == 0
      requires HitList(ids)
      modifies `cur, context`nextRenderIndex
      ensures more <==> ids != []
      ensures Follows(context)
    {
      if cur < |ids| {
        context.nextRenderIndex := ids[cur];
        cur := cur + 1;
        return true;
      }
      context.nextRenderIndex := MAX_INT;
      return false;
    }

    method Update(context: DispatchContext)
      requires HitList(ids) && Follows(context)
      requires context.curIndex < MAX_INT
      modifies `cur, context`curIndex, context`nextRenderIndex
      ensures context.curIndex == old(context.curIndex) + 1
      ensures Follows(context)
      ensures old(context.nextRenderIndex) <= context.nextRenderIndex
    {
      context.curIndex := context.curIndex + 1;
      if context.curIndex > context.nextRenderIndex {
        while cur < |ids|
          invariant cur <= |ids| && context.curIndex == old(context.curIndex) + 1
          invariant forall k :: 0 <= k < cur ==> ids[k] < context.curIndex
        {
          context.nextRenderIndex := ids[cur];
          cur := cur + 1;
          if context.nextRenderIndex >= context.curIndex {
            return;
          }
        }
        context.nextRenderIndex := MAX_INT;
      }
    }

    /** One turn of the dispatch loop. */
    method DispatchOne(context: DispatchContext, ops: seq<Record>, i: nat)
      requires WellFormed(ops) && i < |ops| < MAX_INT
      requires HitList(ids) && context.curIndex == i && Follows(context)
      requires Simulates(ops, Kept(ops, ids), i, context.Value())
      modifies `cur, context
      ensures context.curIndex == i + 1 && Follows(context)
      ensures Simulates(ops, Kept(ops, ids), i + 1, context.Value())
    {
      hide Simulates;
      hide Decides;
      hide WellFormed;
      KeptDecides(ops, ids, i, context.Value());
      StepSimulates(ops, Kept(ops, ids), i, context.Value());
      context.Execute(ops[i]);
      ghost var dispatched := context.Value();
      Update(context);
      AdvanceSimulates(ops, Kept(ops, ids), i + 1, dispatched, context.curIndex, context.nextRenderIndex);
    }

    /** The dispatch loop. */
    method Run(context: DispatchContext, ops: seq<Record>)
      requires WellFormed(ops) && |ops| < MAX_INT
      requires HitList(ids) && context.curIndex == 0 && Follows(context)
      requires Simulates(ops, Kept(ops, ids), 0, context.Value())
      modifies `cur, context
      ensures Observe(context.calls).marks == Select(ReplayTo(ops, |ops|).trace, Kept(ops, ids))
      ensures Observe(context.calls).levels == [] && !Observe(context.calls).underflow
    {
      hide Simulates;
      hide WellFormed;
      hide Select;
      var i := 0;
      while i < |ops|
        invariant 0 <= i <= |ops| && context.curIndex == i
        invariant Follows(context)
        invariant Simulates(ops, Kept(ops, ids), i, context.Value())
      {
        DispatchOne(context, ops, i);
        i := i + 1;
      }
      SimulatesAtEnd(ops, Kept(ops, ids), context.Value());
    }
  }

  /**
   Culled playback: the receiver sees exactly the marks of the kept records, each
   under the plain player's paint and geometry, and its saves and restores balance.
   */
  method DispatchCulled(ops: seq<Record>, ids: seq<int>) returns (calls: seq<Call>)
    requires WellFormed(ops) && |ops| < MAX_INT
    requires HitList(ids)
    ensures Observe(calls).marks == Select(ReplayTo(ops, |ops|).trace, Kept(ops, ids))
    ensures Observe(calls).levels == [] && !Observe(calls).underflow
  {
    var context := new DispatchContext();
    var culler := new VectorCuller(ids);
    var more := culler.Init(context);
    if more {
      SimulatesAtStart(ops, Kept(ops, ids), context.nextRenderIndex);
      culler.Run(context, ops);
    } else {
      SelectNone(ReplayTo(ops, |ops|).trace, Kept(ops, ids));
    }
    calls := context.calls;
  }

  lemma KeptDecides(ops: seq<Record>, ids: seq<int>, i: nat, c: ContextValue)
    requires WellFormed(ops) && i < |ops| < MAX_INT
    requires c.curIndex == i && FirstHit(ids, i, c.nextRenderIndex)
    ensures Decides(ops, Kept(ops, ids), i, c)
  {
    if ops[i].IsSave() {
      WellFormedNests(ops, i + 1);
      var after := ReplayTo(ops, i + 1).frames;
      assert Deadline(ops, after[|after| - 1]) == ops[i].restoreIndex;
    }
    FirstHitDecides(ids, i, c.nextRenderIndex, LastIndex(ops, i));
  }

  /** Unculled playback: the receiver sees every mark of the plain player and ends in its state. */
  method Dispatch(ops: seq<Record>) returns (calls: seq<Call>)
    requires WellFormed(ops) && |ops| < MAX_INT
    ensures var full, seen := ReplayTo(ops, |ops|), Observe(calls);
            && |seen.marks| == |full.trace|
            && (forall i :: 0 <= i < |full.trace| ==> seen.marks[i] == full.trace[i].mark)
            && seen.paint == full.paint && seen.geometry == full.geometry
            && seen.levels == [] && !seen.underflow
  {
    hide LevelsAgree;
    hide Select;
    // The culler that culls nothing leaves both indices at zero.
    var context := new DispatchContext();
    ghost var keep := set i: nat {:trigger ops[i]} | i < |ops|;
    SimulatesAtStart(ops, keep, 0);
    var i := 0;
    while i < |ops|
      invariant 0 <= i <= |ops| && context.curIndex == 0 && context.nextRenderIndex == 0
      invariant Simulates(ops, keep, i, context.Value())
    {
      StepSimulates(ops, keep, i, context.Value());
      context.Execute(ops[i]);
      i := i + 1;
    }
    SimulatesAtEnd(ops, keep, context.Value());
    calls := context.calls;
    TracedInRange(ops, |ops|);
    SelectAll(ReplayTo(ops, |ops|).trace, keep);
  }

  lemma {:induction false} TracedInRange(ops: seq<Record>, n: nat)
    requires n <= |ops|
    ensures forall t :: t in ReplayTo(ops, n).trace ==> t.index < |ops|
  {
    if n > 0 {
      TracedInRange(ops, n - 1);
    }
  }

  /** Every save around a kept record is kept, so kept draws keep their layers. */
  lemma KeptIsClosed(ops: seq<Record>, ids: seq<int>, i: nat, k: nat)
    requires WellFormed(ops) && i < |ops| && !ops[i].RestoreRecord?
    requires k < |ReplayTo(ops, i).frames|
    ensures i in Kept(ops, ids) ==> ReplayTo(ops, i).frames[k].save in Kept(ops, ids)
  {
    hide ReplayTo, WellFormed, Kept, Hit;
    WellFormedNests(ops, i + 1);
    FramesNext(ops, i);
    OpenSaves(ops, i);
    var after, frame := ReplayTo(ops, i + 1).frames, ReplayTo(ops, i).frames[k];
    assert after[k] == frame && frame.save < i < Deadline(ops, frame);
    if ops[i].IsSave() {
      assert Deadline(ops, after[|after| - 1]) == ops[i].restoreIndex;
    }
    HitOutward(ops, ids, i, frame.save);
  }

  lemma HitOutward(ops: seq<Record>, ids: seq<int>, i: nat, outer: nat)
    requires i < |ops| && outer < i && LastIndex(ops, i) <= LastIndex(ops, outer)
    ensures i in Kept(ops, ids) ==> outer in Kept(ops, ids)
  {
    if i in Kept(ops, ids) {
      var k :| 0 <= k < |ids| && i <= ids[k] <= LastIndex(ops, i);
      assert Hit(ids, outer, LastIndex(ops, outer));
    }
  }
}
