/**
 The recorder (display_list/dl_builder.cc and display_list/dl_builder.h).

 `DisplayListBuilder` turns canvas calls into a stream.  It drops operations judged
 to have no effect, defers the record of a save until a transform or clip needs it,
 records an attribute only when it changes, and goes back to fill restore indices
 and opacity flags into records already written.  Its invariant ties the stream and
 every field to the immediate-mode reference after the same calls.
 */
module Builder {
  import Bits
  import opened Records
  import opened PaintRules
  import opened Player
  import opened Canvas

  datatype SaveInfo = SaveInfo(
    saveOffset: nat,
    isSaveLayer: bool,
    cannotInheritOpacity: bool,
    hasCompatibleOp: bool,
    hasDeferredSaveOp: bool,
    isNop: bool,
    hasAccumulator: bool)
  {
    function MarkIncompatible(): SaveInfo {
      this.(cannotInheritOpacity := true)
    }

    function AddCompatibleOp(): SaveInfo {
      if cannotInheritOpacity then this
      else if hasCompatibleOp then this.(cannotInheritOpacity := true)
      else this.(hasCompatibleOp := true)
    }

    function AddOp(compatible: bool): SaveInfo {
      if compatible then AddCompatibleOp() else MarkIncompatible()
    }
  }

  const ROOT_INFO := SaveInfo(0, false, false, false, false, false, false)

  // ----- the stream while it grows -----

  /** Records that differ only in what a restore goes back to fill in. */
  predicate SameButPatched(a: Record, b: Record) {
    a == b
    || (a.SaveRecord? && b.SaveRecord?)
    || (a.SaveLayerRecord? && b.SaveLayerRecord? && a.layer == b.layer && a.withPaint == b.withPaint)
  }

  ghost predicate OpenAt(ops: seq<Record>, n: nat, save: nat)
    requires n <= |ops|
  {
    exists k :: 0 <= k < |ReplayTo(ops, n).frames| && ReplayTo(ops, n).frames[k].save == save
  }

  /** A save open at `i + 1` and older than `i` was open at `i`, and record `i` did not close it. */
  lemma StillOpen(ops: seq<Record>, i: nat, save: nat)
    requires i < |ops| && save < i && OpenAt(ops, i + 1, save)
    ensures OpenAt(ops, i, save)
    ensures var frames := ReplayTo(ops, i).frames;
            ops[i].RestoreRecord? && frames != [] ==> frames[|frames| - 1].save != save
  {
    OpenSaves(ops, i);
    FramesNext(ops, i);
    var before, after := ReplayTo(ops, i).frames, ReplayTo(ops, i + 1).frames;
    var k :| 0 <= k < |after| && after[k].save == save;
    assert before[k] == after[k];
  }

  lemma {:induction false} OpenBefore(ops: seq<Record>, i: nat, n: nat, save: nat)
    requires i <= n <= |ops| && save < i && OpenAt(ops, n, save)
    ensures OpenAt(ops, i, save)
    decreases n - i
  {
    if i < n {
      OpenBefore(ops, i + 1, n, save);
      StillOpen(ops, i, save);
    }
  }

  /** Patching a save that is still open changes nothing that was played before. */
  lemma {:induction false} ReplayUnpatched(a: seq<Record>, b: seq<Record>, n: nat, i: nat)
    requires i <= n <= |a| && n <= |b|
    requires forall j :: 0 <= j < n ==> SameButPatched(a[j], b[j])
    requires forall j :: 0 <= j < n && a[j] != b[j] ==> OpenAt(a, n, j)
    ensures ReplayTo(a, i) == ReplayTo(b, i)
  {
    if i > 0 {
      hide Step, SameButPatched, LayerMarks, OpenAt;
      var j := i - 1;
      ReplayUnpatched(a, b, n, j);
      var s := ReplayTo(a, j);
      if a[j].RestoreRecord? && s.frames != [] {
        OpenSaves(a, j);
        ClosedNow(a, j);
        var top := s.frames[|s.frames| - 1].save;
        if a[top] != b[top] {
          OpenBefore(a, i, n, top);
        }
        assert LayerMarks(a, top) == LayerMarks(b, top) by { SameLayerMarks(a, b, top); }
      }
      StepUnpatched(a, b, j, s);
    }
  }

  lemma ClosedNow(ops: seq<Record>, i: nat)
    requires i < |ops| && ops[i].RestoreRecord? && ReplayTo(ops, i).frames != []
    ensures var frames := ReplayTo(ops, i).frames; !OpenAt(ops, i + 1, frames[|frames| - 1].save)
  {
    hide ReplayTo;
    var save := ReplayTo(ops, i).frames[|ReplayTo(ops, i).frames| - 1].save;
    OpenSaves(ops, i);
    if OpenAt(ops, i + 1, save) {
      StillOpen(ops, i, save);
    }
  }

  lemma SameLayerMarks(a: seq<Record>, b: seq<Record>, k: nat)
    requires k < |a| && k < |b| && a[k] == b[k]
    ensures LayerMarks(a, k) == LayerMarks(b, k)
  {
  }

  lemma StepUnpatched(a: seq<Record>, b: seq<Record>, j: nat, s: Replay)
    requires j < |a| && j < |b| && SameButPatched(a[j], b[j])
    requires a[j].RestoreRecord? && s.frames != [] ==>
               var top := s.frames[|s.frames| - 1].save; LayerMarks(a, top) == LayerMarks(b, top)
    ensures Step(a, j, s) == Step(b, j, s)
  {
    hide LayerMarks;
  }

  lemma MatchesUnpatched(a: seq<Record>, b: seq<Record>, n: nat, i: nat)
    requires i < n <= |a| && n <= |b|
    requires forall j :: 0 <= j < n ==> SameButPatched(a[j], b[j])
    requires forall j :: 0 <= j < n && a[j] != b[j] ==> OpenAt(a, n, j)
    requires a[i].RestoreRecord? && RestoreMatches(a, i)
    ensures RestoreMatches(b, i)
  {
    ReplayUnpatched(a, b, n, i);
    OpenSaves(a, i);
    var frames := ReplayTo(a, i).frames;
    var top := frames[|frames| - 1].save;
    if a[top] != b[top] {
      OpenBefore(a, i + 1, n, top);
      StillOpen(a, i, top);
    }
  }

  lemma Pushed(ops: seq<Record>, r: Record)
    ensures ReplayTo(ops + [r], |ops|) == ReplayTo(ops, |ops|)
    ensures ReplayTo(ops + [r], |ops| + 1) == Step(ops + [r], |ops|, ReplayTo(ops, |ops|))
    ensures Bracketed(ops) && !r.RestoreRecord? ==> Bracketed(ops + [r])
  {
    ReplayUnpatched(ops, ops + [r], |ops|, |ops|);
    if Bracketed(ops) && !r.RestoreRecord? {
      forall i | 0 <= i < |ops + [r]| && (ops + [r])[i].RestoreRecord?
        ensures RestoreMatches(ops + [r], i)
      {
        MatchesUnpatched(ops, ops + [r], |ops|, i);
      }
    }
  }

  /** `closed` is `ops` with its innermost open save patched and a restore appended. */
  ghost predicate Closes(ops: seq<Record>, save: nat, closed: seq<Record>) {
    var frames := ReplayTo(ops, |ops|).frames;
    && frames != [] && frames[|frames| - 1].save == save < |ops|
    && |closed| == |ops| + 1 && closed[|ops|] == RestoreRecord
    && (forall j :: 0 <= j < |ops| && j != save ==> closed[j] == ops[j])
    && SameButPatched(ops[save], closed[save])
    && closed[save].IsSave() && closed[save].restoreIndex == |ops|
  }

  lemma ClosedReplay(ops: seq<Record>, save: nat, closed: seq<Record>)
    requires Closes(ops, save, closed)
    ensures ReplayTo(closed, |ops|) == ReplayTo(ops, |ops|)
    ensures var s := ReplayTo(ops, |ops|);
            ReplayTo(closed, |closed|) ==
            s.(frames := s.frames[..|s.frames| - 1],
               geometry := s.frames[|s.frames| - 1].geometry,
               trace := s.trace + LayerMarks(closed, save))
  {
    assert OpenAt(ops, |ops|, save);
    ReplayUnpatched(ops, closed, |ops|, |ops|);
    assert ReplayTo(closed, |closed|) == Step(closed, |ops|, ReplayTo(ops, |ops|));
  }

  lemma ClosedBrackets(ops: seq<Record>, save: nat, closed: seq<Record>)
    requires Bracketed(ops) && Closes(ops, save, closed)
    ensures Bracketed(closed)
  {
    assert OpenAt(ops, |ops|, save);
    hide ReplayTo, OpenAt;
    ClosedReplay(ops, save, closed);
    LastMatches(ops, save, closed);
    forall i | 0 <= i < |closed| && closed[i].RestoreRecord?
      ensures RestoreMatches(closed, i)
    {
      if i < |ops| {
        assert ops[i] == closed[i];
        MatchesUnpatched(ops, closed, |ops|, i);
      }
    }
  }

  lemma LastMatches(ops: seq<Record>, save: nat, closed: seq<Record>)
    requires Closes(ops, save, closed) && ReplayTo(closed, |ops|) == ReplayTo(ops, |ops|)
    ensures RestoreMatches(closed, |ops|)
  {
    hide ReplayTo;
  }

  // ----- the invariant -----

  predicate FlagsMatch(info: SaveInfo, tally: seq<bool>) {
    && (info.cannotInheritOpacity <==> !Distributes(tally))
    && (!info.cannotInheritOpacity ==> (info.hasCompatibleOp <==> |tally| == 1))
  }

  lemma OpTallied(info: SaveInfo, tally: seq<bool>, compatible: bool)
    requires FlagsMatch(info, tally)
    ensures FlagsMatch(info.AddOp(compatible), tally + [compatible])
  {
    if |tally| > 0 {
      assert (tally + [compatible])[0] == tally[0];
    }
    assert (tally + [compatible])[|tally|] == compatible;
  }

  /** Leaving a plain save folds its operations into the enclosing level. */
  function Inherited(parent: SaveInfo, child: SaveInfo): SaveInfo {
    if child.cannotInheritOpacity then parent.MarkIncompatible()
    else if child.hasCompatibleOp then parent.AddCompatibleOp()
    else parent
  }

  lemma SaveTallied(parent: SaveInfo, child: SaveInfo, outer: seq<bool>, inner: seq<bool>)
    requires FlagsMatch(parent, outer) && FlagsMatch(child, inner)
    ensures FlagsMatch(Inherited(parent, child), outer + inner)
  {
    var all := outer + inner;
    if Distributes(all) {
      assert forall k :: 0 <= k < |outer| ==> outer[k] == all[k];
      assert forall k :: 0 <= k < |inner| ==> inner[k] == all[|outer| + k];
    }
    if inner == [] {
      assert all == outer;
    } else if |outer| == 0 {
      assert all == inner;
    }
  }

  ghost predicate LevelMatches(info: SaveInfo, track: Track, level: CanvasLevel) {
    && track == level.track
    && info.isNop == level.dead
    && (info.isSaveLayer <==> level.kind == KeptLayer)
    && (info.isSaveLayer ==> !info.hasDeferredSaveOp)
    && FlagsMatch(info, level.tally)
  }

  /** The layer tracker counts the levels from the outermost layer inwards. */
  ghost predicate InLockStep(infos: seq<SaveInfo>, layerTracker: Option<nat>) {
    match layerTracker
    case None => forall k :: 0 <= k < |infos| ==> !infos[k].hasAccumulator && !infos[k].isSaveLayer
    case Some(count) =>
      && 1 <= count < |infos|
      && infos[|infos| - count].isSaveLayer
      && (forall k :: 0 <= k < |infos| ==> (infos[k].hasAccumulator <==> |infos| - count <= k))
      && (forall k :: 0 <= k < |infos| && infos[k].isSaveLayer ==> infos[k].hasAccumulator)
  }

  /**
   The stream's open saves against the levels, innermost first.  A level whose save
   is still deferred has no frame and shares the geometry of the level around it; a
   level that can show nothing is free to differ.
   */
  ghost predicate FramesMatch(infos: seq<SaveInfo>, frames: seq<Frame>, geometry: Geometry, levels: seq<CanvasLevel>)
    decreases |infos|
  {
    && |infos| == |levels| >= 1
    && var top := infos[|infos| - 1];
       && (!top.isNop ==> geometry == levels[|levels| - 1].geometry)
       && if |infos| == 1 then frames == [] && !top.hasDeferredSaveOp
          else if top.hasDeferredSaveOp then
            FramesMatch(infos[..|infos| - 1], frames, geometry, levels[..|levels| - 1])
          else
            && frames != []
            && frames[|frames| - 1].save == top.saveOffset
            && frames[|frames| - 1].isLayer == top.isSaveLayer
            && FramesMatch(infos[..|infos| - 1], frames[..|frames| - 1], frames[|frames| - 1].geometry,
                           levels[..|levels| - 1])
  }

  /** A paint as played back against the paint in force: only a stale shader may differ, and it does. */
  predicate PaintAgrees(seen: Paint, meant: Paint, stale: bool) {
    && seen == meant.(source := seen.source)
    && (seen.source == meant.source <==> !stale)
  }

  predicate MarkAgrees(seen: Mark, meant: CanvasMark) {
    match seen
    case Drawn(d, p, g) =>
      meant.mark.Drawn? && d == meant.mark.drawing && g == meant.mark.geometry
      && PaintAgrees(p, meant.mark.paint, meant.stale)
    case LayerOpened(l, withPaint, p, g) =>
      meant.mark.LayerOpened? && l == meant.mark.layer && withPaint == meant.mark.withPaint
      && g == meant.mark.geometry && PaintAgrees(p, meant.mark.paint, meant.stale)
    case LayerClosed(_) => seen == meant.mark
  }

  function KeptMarks(marks: seq<CanvasMark>): seq<CanvasMark> {
    if marks == [] then [] else
    KeptMarks(marks[..|marks| - 1]) + if marks[|marks| - 1].kept then [marks[|marks| - 1]] else []
  }

  ghost predicate MarksAgree(trace: seq<Traced>, marks: seq<CanvasMark>) {
    var kept := KeptMarks(marks);
    |trace| == |kept| && forall i :: 0 <= i < |trace| ==> MarkAgrees(trace[i].mark, kept[i])
  }

  lemma MarksAgreeNext(trace: seq<Traced>, marks: seq<CanvasMark>, t: Traced, m: CanvasMark)
    requires MarksAgree(trace, marks)
    ensures m.kept && MarkAgrees(t.mark, m) ==> MarksAgree(trace + [t], marks + [m])
    ensures !m.kept ==> MarksAgree(trace, marks + [m])
  {
    assert (marks + [m])[..|marks + [m]| - 1] == marks;
  }

  /** The level stack, the clip tracker and the layer tracker move together. */
  ghost predicate StacksMatch(levels: seq<CanvasLevel>, infos: seq<SaveInfo>, tracks: seq<Track>,
                              layerTracker: Option<nat>)
  {
    && |infos| == |tracks| == |levels| >= 1
    && (forall k :: 0 <= k < |infos| ==> LevelMatches(infos[k], tracks[k], levels[k]))
    && InLockStep(infos, layerTracker)
  }

  /** Everything but the paint: the stream, the stacks and the marks. */
  ghost predicate Structured(c: Canvas, ops: seq<Record>, infos: seq<SaveInfo>, tracks: seq<Track>,
                             layerTracker: Option<nat>)
  {
    var s := ReplayTo(ops, |ops|);
    && Bracketed(ops)
    && StacksMatch(c.levels, infos, tracks, layerTracker)
    && FramesMatch(infos, s.frames, s.geometry, c.levels)
    && MarksAgree(s.trace, c.marks)
  }

  /** Playing the stream so far gives the paint in force, up to a stale shader. */
  ghost predicate PaintTracked(requests: seq<SourceRequest>, ops: seq<Record>, current: Paint) {
    && PaintAgrees(ReplayTo(ops, |ops|).paint, current, Stale(requests))
    && (SourceAfter(requests) == ShaderInForce <==> current.source.Some?)
    && (current.source.Some? ==> current.source.value.Shader?)
  }

  // ----- what each step keeps -----

  function Last<T>(s: seq<T>): T
    requires s != []
  {
    s[|s| - 1]
  }

  function SetLast<T>(s: seq<T>, x: T): (r: seq<T>)
    requires s != []
    ensures |r| == |s| && Last(r) == x && r[..|s| - 1] == s[..|s| - 1]
  {
    s[|s| - 1 := x]
  }

  lemma AttributePushed(c: Canvas, ops: seq<Record>, infos: seq<SaveInfo>, tracks: seq<Track>,
                        layerTracker: Option<nat>, a: Attribute)
    requires Structured(c, ops, infos, tracks, layerTracker)
    ensures Structured(c, ops + [AttributeRecord(a)], infos, tracks, layerTracker)
    ensures ReplayTo(ops + [AttributeRecord(a)], |ops| + 1).paint == ApplyAttribute(ReplayTo(ops, |ops|).paint, a)
  {
    Pushed(ops, AttributeRecord(a));
  }

  /** A new level: every level inside a layer is counted by the layer tracker. */
  lemma StacksPushed(levels: seq<CanvasLevel>, infos: seq<SaveInfo>, tracks: seq<Track>, layerTracker: Option<nat>,
                     level: CanvasLevel, info: SaveInfo, track: Track, layerTracker': Option<nat>)
    requires StacksMatch(levels, infos, tracks, layerTracker) && LevelMatches(info, track, level)
    requires info.hasAccumulator <==> layerTracker.Some? || info.isSaveLayer
    requires layerTracker' == if layerTracker.Some? then Some(layerTracker.value + 1)
                              else if info.isSaveLayer then Some(1) else None
    ensures StacksMatch(levels + [level], infos + [info], tracks + [track], layerTracker')
  {
    if layerTracker.Some? {
      assert (infos + [info])[|infos| - layerTracker.value] == infos[|infos| - layerTracker.value];
    }
  }

  lemma StacksTop(levels: seq<CanvasLevel>, infos: seq<SaveInfo>, tracks: seq<Track>, layerTracker: Option<nat>,
                  level: CanvasLevel, info: SaveInfo, track: Track)
    requires StacksMatch(levels, infos, tracks, layerTracker) && LevelMatches(info, track, level)
    requires info.hasAccumulator == Last(infos).hasAccumulator && info.isSaveLayer == Last(infos).isSaveLayer
    ensures StacksMatch(SetLast(levels, level), SetLast(infos, info), SetLast(tracks, track), layerTracker)
  {
  }

  /** A change at the innermost level that leaves its save where it is. */
  lemma FramesTop(infos: seq<SaveInfo>, frames: seq<Frame>, geometry: Geometry, levels: seq<CanvasLevel>,
                  info: SaveInfo, geometry': Geometry, level: CanvasLevel)
    requires FramesMatch(infos, frames, geometry, levels)
    requires info.hasDeferredSaveOp == Last(infos).hasDeferredSaveOp && info.isSaveLayer == Last(infos).isSaveLayer
    requires info.saveOffset == Last(infos).saveOffset
    requires info.hasDeferredSaveOp ==> geometry' == geometry
    requires !info.isNop ==> geometry' == level.geometry
    ensures FramesMatch(SetLast(infos, info), frames, geometry', SetLast(levels, level))
  {
  }

  lemma SaveKeeps(c: Canvas, ops: seq<Record>, infos: seq<SaveInfo>, tracks: seq<Track>,
                  layerTracker: Option<nat>, info: SaveInfo, layerTracker': Option<nat>)
    requires Structured(c, ops, infos, tracks, layerTracker)
    requires info == ROOT_INFO.(hasDeferredSaveOp := true, isNop := Last(infos).isNop,
                                hasAccumulator := Last(infos).hasAccumulator)
    requires layerTracker' == if layerTracker.Some? then Some(layerTracker.value + 1) else None
    ensures Structured(Saved(c), ops, infos + [info], tracks + [Last(tracks)], layerTracker')
  {
    var level := Top(c).(kind := PlainLevel, tally := []);
    hide StacksMatch, MarksAgree, Bracketed, ReplayTo;
    LevelFacts(c, ops, infos, tracks, layerTracker);
    StacksPushed(c.levels, infos, tracks, layerTracker, level, info, Last(tracks), layerTracker');
    assert (infos + [info])[..|infos|] == infos && (c.levels + [level])[..|c.levels|] == c.levels;
  }

  /** A deferred save is recorded at last. */
  lemma DeferredSaveRecorded(c: Canvas, ops: seq<Record>, infos: seq<SaveInfo>, tracks: seq<Track>,
                             layerTracker: Option<nat>)
    requires Structured(c, ops, infos, tracks, layerTracker) && Last(infos).hasDeferredSaveOp
    ensures Structured(c, ops + [SaveRecord(0)],
                       SetLast(infos, Last(infos).(saveOffset := |ops|, hasDeferredSaveOp := false)),
                       tracks, layerTracker)
  {
    var s, info := ReplayTo(ops, |ops|), Last(infos).(saveOffset := |ops|, hasDeferredSaveOp := false);
    LevelFacts(c, ops, infos, tracks, layerTracker);
    hide StacksMatch, MarksAgree, Bracketed;
    Pushed(ops, SaveRecord(0));
    StacksTop(c.levels, infos, tracks, layerTracker, Last(c.levels), info, Last(tracks));
    assert SetLast(c.levels, Last(c.levels)) == c.levels && SetLast(tracks, Last(tracks)) == tracks;
    FramesDeferred(infos, s.frames, s.geometry, c.levels, |ops|);
    hide ReplayTo, FramesMatch;
  }

  /** A deferred level gets the frame it did without. */
  lemma FramesDeferred(infos: seq<SaveInfo>, frames: seq<Frame>, geometry: Geometry, levels: seq<CanvasLevel>, save: nat)
    requires FramesMatch(infos, frames, geometry, levels) && Last(infos).hasDeferredSaveOp && !Last(infos).isSaveLayer
    ensures FramesMatch(SetLast(infos, Last(infos).(saveOffset := save, hasDeferredSaveOp := false)),
                        frames + [Frame(save, geometry, false)], geometry, levels)
  {
    assert (frames + [Frame(save, geometry, false)])[..|frames|] == frames;
  }

  /** A recorded level goes, and its frame with it. */
  lemma FramesPopped(infos: seq<SaveInfo>, frames: seq<Frame>, geometry: Geometry, levels: seq<CanvasLevel>)
    requires FramesMatch(infos, frames, geometry, levels) && |infos| > 1 && !Last(infos).hasDeferredSaveOp
    ensures frames != []
    ensures FramesMatch(infos[..|infos| - 1], frames[..|frames| - 1], frames[|frames| - 1].geometry, levels[..|infos| - 1])
  {
  }

  /** A transform or clip is recorded in a level that has its save. */
  lemma GeometryRecorded(c: Canvas, ops: seq<Record>, infos: seq<SaveInfo>, tracks: seq<Track>,
                         layerTracker: Option<nat>, r: Record, track: Track)
    requires Structured(c, ops, infos, tracks, layerTracker) && !Last(infos).hasDeferredSaveOp
    requires r.IsGeometry()
    ensures var top := Top(c);
            Structured(SetTop(c, top.(geometry := ApplyGeometry(top.geometry, r), track := track)),
                       ops + [r], infos, SetLast(tracks, track), layerTracker)
  {
    hide StacksMatch;
    hide FramesMatch;
    hide MarksAgree;
    hide Bracketed;
    LevelFacts(c, ops, infos, tracks, layerTracker);
    Pushed(ops, r);
    var s, level := ReplayTo(ops, |ops|), Top(c).(geometry := ApplyGeometry(Top(c).geometry, r), track := track);
    StacksTop(c.levels, infos, tracks, layerTracker, level, Last(infos), track);
    FramesTop(infos, s.frames, s.geometry, c.levels, Last(infos), ApplyGeometry(s.geometry, r), level);
    assert SetLast(infos, Last(infos)) == infos;
  }

  /** A clip that leaves nothing to draw is not recorded: the level becomes a nop. */
  lemma LevelEmptied(c: Canvas, ops: seq<Record>, infos: seq<SaveInfo>, tracks: seq<Track>,
                     layerTracker: Option<nat>, level: CanvasLevel)
    requires Structured(c, ops, infos, tracks, layerTracker)
    requires level == Top(c).(geometry := level.geometry, track := level.track, dead := true)
    ensures Structured(SetTop(c, level), ops, SetLast(infos, Last(infos).(isNop := true)),
                       SetLast(tracks, level.track), layerTracker)
  {
    hide StacksMatch;
    hide FramesMatch;
    hide MarksAgree;
    hide Bracketed;
    LevelFacts(c, ops, infos, tracks, layerTracker);
    var s := ReplayTo(ops, |ops|);
    StacksTop(c.levels, infos, tracks, layerTracker, level, Last(infos).(isNop := true), level.track);
    FramesTop(infos, s.frames, s.geometry, c.levels, Last(infos).(isNop := true), s.geometry, level);
  }

  lemma MarkDropped(c: Canvas, ops: seq<Record>, infos: seq<SaveInfo>, tracks: seq<Track>,
                    layerTracker: Option<nat>, mark: Mark)
    requires Structured(c, ops, infos, tracks, layerTracker)
    ensures Structured(Marked(c, mark, false), ops, infos, tracks, layerTracker)
  {
    MarksAgreeNext(ReplayTo(ops, |ops|).trace, c.marks, Traced(0, mark), CanvasMark(mark, false, Stale(c.requests)));
  }

  lemma TallyKeeps(c: Canvas, ops: seq<Record>, infos: seq<SaveInfo>, tracks: seq<Track>,
                   layerTracker: Option<nat>, compatible: bool)
    requires Structured(c, ops, infos, tracks, layerTracker)
    ensures Structured(Tally(c, compatible), ops, SetLast(infos, Last(infos).AddOp(compatible)), tracks, layerTracker)
  {
    hide StacksMatch;
    hide FramesMatch;
    hide MarksAgree;
    hide Bracketed;
    LevelFacts(c, ops, infos, tracks, layerTracker);
    OpTallied(Last(infos), Top(c).tally, compatible);
    var s, info, level := ReplayTo(ops, |ops|), Last(infos).AddOp(compatible), Top(Tally(c, compatible));
    StacksTop(c.levels, infos, tracks, layerTracker, level, info, Last(tracks));
    FramesTop(infos, s.frames, s.geometry, c.levels, info, s.geometry, level);
    assert SetLast(tracks, Last(tracks)) == tracks;
  }

  lemma DrawRecorded(c: Canvas, ops: seq<Record>, infos: seq<SaveInfo>, tracks: seq<Track>,
                     layerTracker: Option<nat>, drawing: nat)
    requires Structured(c, ops, infos, tracks, layerTracker) && !Top(c).dead
    requires PaintTracked(c.requests, ops, c.paint)
    ensures Structured(Marked(c, Drawn(drawing, c.paint, Top(c).geometry), true),
                       ops + [DrawRecord(drawing)], infos, tracks, layerTracker)
  {
    hide StacksMatch;
    hide FramesMatch;
    hide MarksAgree;
    hide Bracketed;
    var s := ReplayTo(ops, |ops|);
    Pushed(ops, DrawRecord(drawing));
    LevelFacts(c, ops, infos, tracks, layerTracker);
    MarksAgreeNext(s.trace, c.marks, Traced(|ops|, Drawn(drawing, s.paint, s.geometry)),
                   CanvasMark(Drawn(drawing, c.paint, Top(c).geometry), true, Stale(c.requests)));
  }

  lemma LayerRecorded(c: Canvas, ops: seq<Record>, infos: seq<SaveInfo>, tracks: seq<Track>,
                      layerTracker: Option<nat>, layer: nat, withPaint: bool, info: SaveInfo, level: CanvasLevel,
                      layerTracker': Option<nat>)
    requires Structured(c, ops, infos, tracks, layerTracker) && !Top(c).dead
    requires PaintTracked(c.requests, ops, c.paint)
    requires info == ROOT_INFO.(saveOffset := |ops|, isSaveLayer := true, hasAccumulator := true,
                                cannotInheritOpacity := info.cannotInheritOpacity)
    requires level == Top(c).(track := level.track, kind := KeptLayer, tally := level.tally)
    requires FlagsMatch(info, level.tally)
    requires layerTracker' == Some(if layerTracker.Some? then layerTracker.value + 1 else 1)
    ensures var marked := Marked(c, LayerOpened(layer, withPaint, c.paint, Top(c).geometry), true);
            Structured(marked.(levels := c.levels + [level]), ops + [SaveLayerRecord(layer, withPaint, 0, false)],
                       infos + [info], tracks + [level.track], layerTracker')
  {
    hide StacksMatch;
    hide FramesMatch;
    hide MarksAgree;
    hide Bracketed;
    LevelFacts(c, ops, infos, tracks, layerTracker);
    StacksPushed(c.levels, infos, tracks, layerTracker, level, info, level.track, layerTracker');
    LayerFrames(c, ops, infos, layer, withPaint, info, level);
    var s := ReplayTo(ops, |ops|);
    Pushed(ops, SaveLayerRecord(layer, withPaint, 0, false));
    MarksAgreeNext(s.trace, c.marks, Traced(|ops|, LayerOpened(layer, withPaint, s.paint, s.geometry)),
                   CanvasMark(LayerOpened(layer, withPaint, c.paint, Top(c).geometry), true, Stale(c.requests)));
  }

  lemma LayerFrames(c: Canvas, ops: seq<Record>, infos: seq<SaveInfo>, layer: nat, withPaint: bool,
                    info: SaveInfo, level: CanvasLevel)
    requires c.levels != [] && !info.hasDeferredSaveOp && info.isSaveLayer && info.saveOffset == |ops|
    requires level.geometry == Top(c).geometry
    requires var s := ReplayTo(ops, |ops|);
             FramesMatch(infos, s.frames, s.geometry, c.levels) && !Last(infos).isNop
    ensures var s := ReplayTo(ops + [SaveLayerRecord(layer, withPaint, 0, false)], |ops| + 1);
            FramesMatch(infos + [info], s.frames, s.geometry, c.levels + [level])
  {
    var s := ReplayTo(ops, |ops|);
    Pushed(ops, SaveLayerRecord(layer, withPaint, 0, false));
    var frames := s.frames + [Frame(|ops|, s.geometry, true)];
    assert frames[..|frames| - 1] == s.frames;
    assert (infos + [info])[..|infos|] == infos && (c.levels + [level])[..|c.levels|] == c.levels;
  }

  function LayerEntered(layerTracker: Option<nat>, isSaveLayer: bool): Option<nat> {
    match layerTracker
    case None => if isSaveLayer then Some(1) else None
    case Some(count) => Some(count + 1)
  }

  lemma DroppedLayerKeeps(c: Canvas, ops: seq<Record>, infos: seq<SaveInfo>, tracks: seq<Track>,
                          layerTracker: Option<nat>, layer: nat, bounds: Option<nat>, withPaint: bool, info: SaveInfo)
    requires Structured(c, ops, infos, tracks, layerTracker)
    requires PaintResult(Top(c).dead, c.paint, LayerFlags(withPaint)) == NoEffect
    requires info == ROOT_INFO.(hasDeferredSaveOp := true, isNop := true, hasAccumulator := Last(infos).hasAccumulator)
    ensures Structured(LayerSaved(c, layer, bounds, withPaint), ops, infos + [info], tracks + [Last(tracks)],
                       LayerEntered(layerTracker, false))
  {
    var level := Top(c).(dead := true, kind := DroppedLayer, tally := []);
    assert LevelMatches(Last(infos), Last(tracks), Top(c));
    StacksPushed(c.levels, infos, tracks, layerTracker, level, info, Last(tracks), LayerEntered(layerTracker, false));
    MarkDropped(c, ops, infos, tracks, layerTracker, LayerOpened(layer, withPaint, c.paint, Top(c).geometry));
    assert (infos + [info])[..|infos|] == infos && (c.levels + [level])[..|c.levels|] == c.levels;
  }

  /** The level a recorded layer opens, and what the recorder keeps about it. */
  function LayerInfo(saveOffset: nat, distributes: bool): SaveInfo {
    ROOT_INFO.(saveOffset := saveOffset, isSaveLayer := true, hasAccumulator := true,
               cannotInheritOpacity := !distributes)
  }

  lemma KeptLayerKeeps(c: Canvas, ops: seq<Record>, infos: seq<SaveInfo>, tracks: seq<Track>,
                       layerTracker: Option<nat>, layer: nat, bounds: Option<nat>, withPaint: bool,
                       compatible: bool, filtered: bool)
    requires Structured(c, ops, infos, tracks, layerTracker) && PaintTracked(c.requests, ops, c.paint)
    requires PaintResult(Top(c).dead, c.paint, LayerFlags(withPaint)) != NoEffect
    requires compatible == (!withPaint || OpacityCompatible(c.paint))
    requires filtered == (withPaint && c.paint.imageFilter.Some?)
    ensures Structured(LayerSaved(c, layer, bounds, withPaint), ops + [SaveLayerRecord(layer, withPaint, 0, false)],
                       SetLast(infos, Last(infos).AddOp(compatible)) + [LayerInfo(|ops|, compatible && !filtered)],
                       tracks + [LayerTrack(Last(tracks), bounds, filtered)],
                       LayerEntered(layerTracker, true))
  {
    hide Structured;
    hide PaintTracked;
    hide LayerTrack;
    LevelFacts(c, ops, infos, tracks, layerTracker);
    TallyKeeps(c, ops, infos, tracks, layerTracker, compatible);
    var tally := if compatible && !filtered then [] else [false];
    assert tally != [] ==> !tally[0];
    var level := Top(c).(track := LayerTrack(Top(c).track, bounds, filtered), kind := KeptLayer, tally := tally);
    LayerRecorded(Tally(c, compatible), ops, SetLast(infos, Last(infos).AddOp(compatible)), tracks, layerTracker,
                  layer, withPaint, LayerInfo(|ops|, compatible && !filtered), level, LayerEntered(layerTracker, true));
  }

  lemma LayerSavedPaint(c: Canvas, layer: nat, bounds: Option<nat>, withPaint: bool)
    requires c.levels != []
    ensures var r := LayerSaved(c, layer, bounds, withPaint); r.paint == c.paint && r.requests == c.requests
  {
  }

  lemma NonAttributePushed(ops: seq<Record>, r: Record)
    requires !r.AttributeRecord?
    ensures ReplayTo(ops + [r], |ops| + 1).paint == ReplayTo(ops, |ops|).paint
  {
    Pushed(ops, r);
  }

  /** What the layer tracker does when a level is left. */
  function TrackerLeft(info: SaveInfo, layerTracker: Option<nat>): Option<nat> {
    match layerTracker
    case None => None
    case Some(count) => if count <= 1 then None else Some(count - 1)
  }

  lemma StacksPopped(levels: seq<CanvasLevel>, infos: seq<SaveInfo>, tracks: seq<Track>, layerTracker: Option<nat>)
    requires StacksMatch(levels, infos, tracks, layerTracker) && |infos| > 1
    ensures var n := |infos| - 1;
            StacksMatch(levels[..n], infos[..n], tracks[..n], TrackerLeft(Last(infos), layerTracker))
    // The assertions of the recorder about the two trackers.
    ensures Last(infos).isSaveLayer ==> layerTracker.Some? && Last(infos).hasAccumulator
    ensures layerTracker.Some? && !Last(infos).isSaveLayer ==> layerTracker.value > 1
    ensures layerTracker.Some? ==> (infos[|infos| - 2].hasAccumulator <==> layerTracker.value > 1)
  {
  }

  /** Leaving a plain level folds its tally into the level around it. */
  lemma PlainStacksLeft(levels: seq<CanvasLevel>, infos: seq<SaveInfo>, tracks: seq<Track>, layerTracker: Option<nat>)
    requires StacksMatch(levels, infos, tracks, layerTracker) && |infos| > 1 && Last(levels).kind != KeptLayer
    ensures var n := |infos| - 1;
            var outer := levels[n - 1].(tally := levels[n - 1].tally + Last(levels).tally);
            StacksMatch(SetLast(levels[..n], outer), SetLast(infos[..n], Inherited(infos[n - 1], Last(infos))),
                        tracks[..n], TrackerLeft(Last(infos), layerTracker))
  {
    var n := |infos| - 1;
    StacksPopped(levels, infos, tracks, layerTracker);
    assert LevelMatches(infos[n], tracks[n], levels[n]) && LevelMatches(infos[n - 1], tracks[n - 1], levels[n - 1]);
    SaveTallied(infos[n - 1], infos[n], levels[n - 1].tally, levels[n].tally);
    var outer := levels[n - 1].(tally := levels[n - 1].tally + levels[n].tally);
    StacksTop(levels[..n], infos[..n], tracks[..n], TrackerLeft(Last(infos), layerTracker),
              outer, Inherited(infos[n - 1], infos[n]), tracks[n - 1]);
    assert SetLast(tracks[..n], tracks[n - 1]) == tracks[..n];
  }

  /** The geometry side does not look at tallies. */
  lemma FramesIgnoreTally(infos: seq<SaveInfo>, frames: seq<Frame>, geometry: Geometry, levels: seq<CanvasLevel>,
                          info: SaveInfo, level: CanvasLevel)
    requires FramesMatch(infos, frames, geometry, levels)
    requires level.geometry == Last(levels).geometry
    requires info == Last(infos).(cannotInheritOpacity := info.cannotInheritOpacity,
                                  hasCompatibleOp := info.hasCompatibleOp)
    ensures FramesMatch(SetLast(infos, info), frames, geometry, SetLast(levels, level))
  {
  }

  /** The reference's restore of a plain level or of a layer that is not recorded. */
  lemma RestoredPlain(c: Canvas)
    requires |c.levels| > 1 && Top(c).kind != KeptLayer
    ensures var n, r := |c.levels| - 1, Restored(c);
            var mark := LayerClosed(Distributes(Top(c).tally));
            && r.levels == SetLast(c.levels[..n], c.levels[n - 1].(tally := c.levels[n - 1].tally + Top(c).tally))
            && (r.marks == c.marks || r.marks == c.marks + [CanvasMark(mark, false, Stale(c.requests))])
            && r.paint == c.paint && r.requests == c.requests
  {
  }

  lemma PlainLevelLeft(c: Canvas, infos: seq<SaveInfo>, tracks: seq<Track>,
                       layerTracker: Option<nat>, ops': seq<Record>)
    requires |infos| > 1 && !Last(infos).isSaveLayer && |c.levels| == |infos|
    requires StacksMatch(c.levels, infos, tracks, layerTracker)
    requires Bracketed(ops')
    requires var s := ReplayTo(ops', |ops'|);
             && FramesMatch(infos[..|infos| - 1], s.frames, s.geometry, c.levels[..|infos| - 1])
             && MarksAgree(s.trace, c.marks)
    ensures var n := |infos| - 1;
            Structured(Restored(c), ops', SetLast(infos[..n], Inherited(infos[n - 1], Last(infos))),
                       tracks[..n], TrackerLeft(Last(infos), layerTracker))
  {
    hide FramesMatch;
    hide MarksAgree;
    hide Bracketed;
    hide Restored;
    hide ReplayTo;
    var n, s := |infos| - 1, ReplayTo(ops', |ops'|);
    assert LevelMatches(infos[n], tracks[n], c.levels[n]);
    PlainStacksLeft(c.levels, infos, tracks, layerTracker);
    var outer := c.levels[n - 1].(tally := c.levels[n - 1].tally + Top(c).tally);
    FramesIgnoreTally(infos[..n], s.frames, s.geometry, c.levels[..n], Inherited(infos[n - 1], infos[n]), outer);
    RestoredPlain(c);
    if Restored(c).marks != c.marks {
      var mark := LayerClosed(Distributes(Top(c).tally));
      MarksAgreeNext(s.trace, c.marks, Traced(0, mark), CanvasMark(mark, false, Stale(c.requests)));
    }
  }

  lemma LayerLeft(c: Canvas, ops: seq<Record>, infos: seq<SaveInfo>, tracks: seq<Track>,
                  layerTracker: Option<nat>, closed: seq<Record>)
    requires Structured(c, ops, infos, tracks, layerTracker)
    requires |infos| > 1 && Last(infos).isSaveLayer && Closes(ops, Last(infos).saveOffset, closed)
    requires var r := closed[Last(infos).saveOffset];
             r.SaveLayerRecord? && (r.distributesOpacity <==> !Last(infos).cannotInheritOpacity)
    ensures var n := |infos| - 1;
            Structured(Restored(c), closed, infos[..n], tracks[..n], TrackerLeft(Last(infos), layerTracker))
  {
    hide StacksMatch, MarksAgree, Bracketed, FramesMatch, ReplayTo;
    var n, s := |infos| - 1, ReplayTo(ops, |ops|);
    var save := Last(infos).saveOffset;
    StackFacts(c.levels, infos, tracks, layerTracker);
    FramesPopped(infos, s.frames, s.geometry, c.levels);
    StacksPopped(c.levels, infos, tracks, layerTracker);
    ClosedReplay(ops, save, closed);
    ClosedBrackets(ops, save, closed);
    var mark := LayerClosed(Distributes(Top(c).tally));
    MarksAgreeNext(s.trace, c.marks, Traced(save, mark), CanvasMark(mark, true, Stale(c.requests)));
  }

  function ClosedRecord(op: Record, info: SaveInfo, restoreIndex: nat): Record {
    match op
    case SaveRecord(_) => SaveRecord(restoreIndex)
    case SaveLayerRecord(layer, withPaint, _, _) =>
      SaveLayerRecord(layer, withPaint, restoreIndex, !info.cannotInheritOpacity)
    case _ => op
  }

  /** The stream after the restore of a level whose save is recorded. */
  function ClosedOps(ops: seq<Record>, info: SaveInfo): seq<Record>
    requires info.saveOffset < |ops|
  {
    ops[info.saveOffset := ClosedRecord(ops[info.saveOffset], info, |ops|)] + [RestoreRecord]
  }

  lemma TopSave(ops: seq<Record>, infos: seq<SaveInfo>, levels: seq<CanvasLevel>)
    requires var s := ReplayTo(ops, |ops|); FramesMatch(infos, s.frames, s.geometry, levels)
    requires |infos| > 1 && !Last(infos).hasDeferredSaveOp
    ensures var info := Last(infos);
            && info.saveOffset < |ops|
            && (info.isSaveLayer <==> ops[info.saveOffset].SaveLayerRecord?)
            && Closes(ops, info.saveOffset, ClosedOps(ops, info))
  {
    OpenLayers(ops, |ops|);
    OpenSaves(ops, |ops|);
  }

  function LeftInfos(infos: seq<SaveInfo>): seq<SaveInfo>
    requires |infos| > 1
  {
    var n := |infos| - 1;
    if infos[n].isSaveLayer then infos[..n] else SetLast(infos[..n], Inherited(infos[n - 1], infos[n]))
  }

  /** Leaving a level, whichever kind it is. */
  lemma LevelLeft(c: Canvas, ops: seq<Record>, infos: seq<SaveInfo>, tracks: seq<Track>,
                  layerTracker: Option<nat>, ops': seq<Record>)
    requires Structured(c, ops, infos, tracks, layerTracker) && |infos| > 1
    requires if Last(infos).hasDeferredSaveOp then ops' == ops
             else Last(infos).saveOffset < |ops| && ops' == ClosedOps(ops, Last(infos))
    ensures var n := |infos| - 1;
            Structured(Restored(c), ops', LeftInfos(infos), tracks[..n], TrackerLeft(Last(infos), layerTracker))
    ensures ReplayTo(ops', |ops'|).paint == ReplayTo(ops, |ops|).paint
  {
    var n, info := |infos| - 1, Last(infos);
    assert LevelMatches(infos[n], tracks[n], c.levels[n]);
    if info.hasDeferredSaveOp {
      PlainLevelLeft(c, infos, tracks, layerTracker, ops');
    } else {
      TopSave(ops, infos, c.levels);
      ClosedReplay(ops, info.saveOffset, ops');
      if info.isSaveLayer {
        LayerLeft(c, ops, infos, tracks, layerTracker, ops');
      } else {
        ClosedBrackets(ops, info.saveOffset, ops');
        var s := ReplayTo(ops, |ops|);
        assert s.trace + LayerMarks(ops', info.saveOffset) == s.trace;
        PlainLevelLeft(c, infos, tracks, layerTracker, ops');
      }
    }
  }

  /** The innermost level as every step reads it. */
  lemma LevelFacts(c: Canvas, ops: seq<Record>, infos: seq<SaveInfo>, tracks: seq<Track>, layerTracker: Option<nat>)
    requires Structured(c, ops, infos, tracks, layerTracker)
    ensures |infos| == |tracks| == |c.levels| >= 1
    ensures LevelMatches(Last(infos), Last(tracks), Top(c))
    ensures !Top(c).dead ==> ReplayTo(ops, |ops|).geometry == Top(c).geometry
    ensures Last(infos).hasAccumulator <==> layerTracker.Some?
  {
    hide Bracketed, MarksAgree, ReplayTo, StacksMatch, FramesMatch, LevelMatches;
    StackFacts(c.levels, infos, tracks, layerTracker);
    var s := ReplayTo(ops, |ops|);
    TopGeometry(infos, s.frames, s.geometry, c.levels);
    TopDead(Last(infos), Last(tracks), Top(c));
  }

  lemma StackFacts(levels: seq<CanvasLevel>, infos: seq<SaveInfo>, tracks: seq<Track>, layerTracker: Option<nat>)
    requires StacksMatch(levels, infos, tracks, layerTracker)
    ensures |infos| == |tracks| == |levels| >= 1
    ensures LevelMatches(Last(infos), Last(tracks), Last(levels))
    ensures Last(infos).hasAccumulator <==> layerTracker.Some?
  {
    hide LevelMatches;
  }

  lemma TopGeometry(infos: seq<SaveInfo>, frames: seq<Frame>, geometry: Geometry, levels: seq<CanvasLevel>)
    requires FramesMatch(infos, frames, geometry, levels)
    ensures |infos| == |levels| >= 1 && (!Last(infos).isNop ==> geometry == Last(levels).geometry)
  {
  }

  lemma TopDead(info: SaveInfo, track: Track, level: CanvasLevel)
    requires LevelMatches(info, track, level)
    ensures info.isNop <==> level.dead
  {
  }

  /** What the recorder asserts when it leaves a level. */
  lemma RestoreFacts(c: Canvas, ops: seq<Record>, infos: seq<SaveInfo>, tracks: seq<Track>, layerTracker: Option<nat>)
    requires Structured(c, ops, infos, tracks, layerTracker) && |infos| > 1
    ensures var top := Last(infos);
            && (!top.hasDeferredSaveOp ==> top.saveOffset < |ops|)
            && (top.isSaveLayer ==> !top.hasDeferredSaveOp && layerTracker.Some? && top.hasAccumulator)
            && (layerTracker.Some? && !top.isSaveLayer ==> layerTracker.value > 1)
            && (layerTracker.Some? ==> (infos[|infos| - 2].hasAccumulator <==> layerTracker.value > 1))
  {
    hide Bracketed;
    hide MarksAgree;
    LevelFacts(c, ops, infos, tracks, layerTracker);
    StacksPopped(c.levels, infos, tracks, layerTracker);
    if !Last(infos).hasDeferredSaveOp {
      TopSave(ops, infos, c.levels);
    }
  }

  lemma RestoredPaint(c: Canvas)
    requires c.levels != []
    ensures Restored(c).paint == c.paint && Restored(c).requests == c.requests
    ensures |c.levels| == 1 ==> Restored(c) == c
    ensures |c.levels| > 1 ==> |Restored(c).levels| == |c.levels| - 1
  {
  }

  /** The paint in force depends on the stream only through the paint played back. */
  lemma PaintStillTracked(requests: seq<SourceRequest>, ops: seq<Record>, current: Paint, ops': seq<Record>)
    requires PaintTracked(requests, ops, current)
    requires ReplayTo(ops', |ops'|).paint == ReplayTo(ops, |ops|).paint
    ensures PaintTracked(requests, ops', current)
  {
  }

  // ----- attributes -----

  /** The paint in force after one attribute is set; a plain colour source is set as a colour. */
  function Applied(p: Paint, a: Attribute): Paint {
    if a.SetColorSource? && RequestOf(a.source) == ToColor
    then p.(source := None, color := a.source.value.color)
    else ApplyAttribute(p, a)
  }

  /** The records that setting one attribute appends: none when nothing changes. */
  function Emitted(p: Paint, a: Attribute): seq<Record> {
    if a.SetColorSource? && RequestOf(a.source) == ToColor then
      if p.color == a.source.value.color then [] else [AttributeRecord(SetColor(a.source.value.color))]
    else if ApplyAttribute(p, a) == p then [] else [AttributeRecord(a)]
  }

  function AppliedAll(p: Paint, list: seq<Attribute>): Paint {
    if list == [] then p else Applied(AppliedAll(p, list[..|list| - 1]), list[|list| - 1])
  }

  function EmittedAll(p: Paint, list: seq<Attribute>): seq<Record> {
    if list == [] then [] else
    EmittedAll(p, list[..|list| - 1]) + Emitted(AppliedAll(p, list[..|list| - 1]), list[|list| - 1])
  }

  function RequestsOf(list: seq<Attribute>): seq<SourceRequest> {
    if list == [] then [] else
    var a := list[|list| - 1];
    RequestsOf(list[..|list| - 1]) + if a.SetColorSource? then [RequestOf(a.source)] else []
  }

  lemma AttributesNext(p: Paint, list: seq<Attribute>, a: Attribute)
    ensures AppliedAll(p, list + [a]) == Applied(AppliedAll(p, list), a)
    ensures EmittedAll(p, list + [a]) == EmittedAll(p, list) + Emitted(AppliedAll(p, list), a)
    ensures RequestsOf(list + [a]) == RequestsOf(list) + if a.SetColorSource? then [RequestOf(a.source)] else []
  {
    assert (list + [a])[..|list + [a]| - 1] == list;
  }

  /** What setting one attribute does to the paint and records, and that most leave the opacity answer alone. */
  lemma AttributeEffect(p: Paint, a: Attribute)
    ensures if a.SetColorSource? && a.source.Some? && a.source.value.PlainColor? then
              var color := a.source.value.color;
              && Applied(p, a) == p.(source := None, color := color)
              && Emitted(p, a) == (if p.color == color then [] else [AttributeRecord(SetColor(color))])
              && OpacityCompatible(Applied(p, a)) == OpacityCompatible(p)
            else
              && Applied(p, a) == ApplyAttribute(p, a)
              && Emitted(p, a) == (if ApplyAttribute(p, a) == p then [] else [AttributeRecord(a)])
              && (a.SetInvertColors? || a.SetBlendMode? || a.SetColorFilter?
                  || OpacityCompatible(Applied(p, a)) == OpacityCompatible(p))
  {
  }

  function Add(list: seq<Attribute>, applies: bool, a: Attribute): seq<Attribute> {
    if applies then list + [a] else list
  }

  /** The attributes a paint sets for an operation, in the order they are set. */
  function AttributeList(paint: Paint, flags: OpFlags): seq<Attribute> {
    MaskList(FilterList(SourceList(StrokeList(ColorList([], paint, flags), paint, flags), paint, flags), paint, flags),
             paint, flags)
  }

  function ColorList(l: seq<Attribute>, paint: Paint, flags: OpFlags): seq<Attribute> {
    var l := Add(l, flags.antiAlias, SetAntiAlias(paint.antiAlias));
    var l := Add(l, flags.alpha || flags.color, SetColor(paint.color));
    Add(l, flags.blend, SetBlendMode(paint.blend))
  }

  function StrokeList(l: seq<Attribute>, paint: Paint, flags: OpFlags): seq<Attribute> {
    var stroked := flags.IsStroked(paint.style);
    var l := Add(l, flags.drawnGeometry, SetStyle(paint.style));
    var l := Add(l, stroked, SetStrokeWidth(paint.strokeWidth));
    var l := Add(l, stroked, SetStrokeMiter(paint.strokeMiter));
    var l := Add(l, stroked, SetStrokeCap(paint.cap));
    Add(l, stroked, SetStrokeJoin(paint.join))
  }

  function SourceList(l: seq<Attribute>, paint: Paint, flags: OpFlags): seq<Attribute> {
    Add(l, flags.shader, SetColorSource(paint.source))
  }

  function FilterList(l: seq<Attribute>, paint: Paint, flags: OpFlags): seq<Attribute> {
    var l := Add(l, flags.colorFilter, SetInvertColors(paint.invertColors));
    var l := Add(l, flags.colorFilter, SetColorFilter(paint.colorFilter));
    Add(l, flags.imageFilter, SetImageFilter(paint.imageFilter))
  }

  function MaskList(l: seq<Attribute>, paint: Paint, flags: OpFlags): seq<Attribute> {
    var l := Add(l, flags.pathEffect, SetPathEffect(paint.pathEffect));
    Add(l, flags.maskFilter, SetMaskFilter(paint.maskFilter))
  }

  lemma Added(p: Paint, list: seq<Attribute>, applies: bool, a: Attribute) returns (r: seq<Attribute>)
    ensures r == Add(list, applies, a)
    ensures AppliedAll(p, r) == if applies then Applied(AppliedAll(p, list), a) else AppliedAll(p, list)
    ensures RequestsOf(r) ==
            if applies && a.SetColorSource? then RequestsOf(list) + [RequestOf(a.source)] else RequestsOf(list)
  {
    r := Add(list, applies, a);
    AttributesNext(p, list, a);
    assert RequestsOf(list) + [] == RequestsOf(list);
  }

  lemma ColorAdopts(p: Paint, list: seq<Attribute>, paint: Paint, flags: OpFlags)
    ensures AppliedAll(p, ColorList(list, paint, flags)) == AdoptedColor(AppliedAll(p, list), paint, flags)
    ensures RequestsOf(ColorList(list, paint, flags)) == RequestsOf(list)
  {
    hide AppliedAll;
    hide RequestsOf;
    hide Add;
    var l := Added(p, list, flags.antiAlias, SetAntiAlias(paint.antiAlias));
    l := Added(p, l, flags.alpha || flags.color, SetColor(paint.color));
    l := Added(p, l, flags.blend, SetBlendMode(paint.blend));
  }

  lemma StrokeAdopts(p: Paint, list: seq<Attribute>, paint: Paint, flags: OpFlags)
    ensures AppliedAll(p, StrokeList(list, paint, flags)) == AdoptedStroke(AppliedAll(p, list), paint, flags)
    ensures RequestsOf(StrokeList(list, paint, flags)) == RequestsOf(list)
  {
    hide AppliedAll;
    hide RequestsOf;
    hide Add;
    var stroked := flags.IsStroked(paint.style);
    var l := Added(p, list, flags.drawnGeometry, SetStyle(paint.style));
    var q := AppliedAll(p, l);
    l := Added(p, l, stroked, SetStrokeWidth(paint.strokeWidth));
    l := Added(p, l, stroked, SetStrokeMiter(paint.strokeMiter));
    assert stroked ==> AppliedAll(p, l) == q.(strokeWidth := paint.strokeWidth, strokeMiter := paint.strokeMiter);
    l := Added(p, l, stroked, SetStrokeCap(paint.cap));
    l := Added(p, l, stroked, SetStrokeJoin(paint.join));
  }

  lemma FiltersAdopt(p: Paint, list: seq<Attribute>, paint: Paint, flags: OpFlags)
    ensures AppliedAll(p, FilterList(list, paint, flags)) == AdoptedFilters(AppliedAll(p, list), paint, flags)
    ensures RequestsOf(FilterList(list, paint, flags)) == RequestsOf(list)
  {
    hide AppliedAll;
    hide RequestsOf;
    hide Add;
    var l := Added(p, list, flags.colorFilter, SetInvertColors(paint.invertColors));
    l := Added(p, l, flags.colorFilter, SetColorFilter(paint.colorFilter));
    l := Added(p, l, flags.imageFilter, SetImageFilter(paint.imageFilter));
  }

  lemma MasksAdopt(p: Paint, list: seq<Attribute>, paint: Paint, flags: OpFlags)
    ensures AppliedAll(p, MaskList(list, paint, flags)) == AdoptedMasks(AppliedAll(p, list), paint, flags)
    ensures RequestsOf(MaskList(list, paint, flags)) == RequestsOf(list)
  {
    hide AppliedAll;
    hide RequestsOf;
    hide Add;
    var l := Added(p, list, flags.pathEffect, SetPathEffect(paint.pathEffect));
    l := Added(p, l, flags.maskFilter, SetMaskFilter(paint.maskFilter));
  }

  lemma NoAttributes(p: Paint)
    ensures AppliedAll(p, []) == p && EmittedAll(p, []) == [] && RequestsOf([]) == []
  {
  }

  /** Setting the attributes one by one adopts the caller's paint. */
  lemma ListAdopts(p: Paint, paint: Paint, flags: OpFlags)
    ensures AppliedAll(p, AttributeList(paint, flags)) == Adopted(p, paint, flags)
    ensures RequestsOf(AttributeList(paint, flags)) == if flags.shader then [RequestOf(paint.source)] else []
  {
    hide AdoptedColor;
    hide AdoptedStroke;
    hide AdoptedFilters;
    hide AdoptedMasks;
    hide AppliedAll;
    hide RequestsOf;
    hide Add;
    hide ColorList;
    hide StrokeList;
    hide FilterList;
    hide MaskList;
    NoAttributes(p);
    ColorAdopts(p, [], paint, flags);
    var l := ColorList([], paint, flags);
    StrokeAdopts(p, l, paint, flags);
    l := StrokeList(l, paint, flags);
    l := Added(p, l, flags.shader, SetColorSource(paint.source));
    FiltersAdopt(p, l, paint, flags);
    l := FilterList(l, paint, flags);
    MasksAdopt(p, l, paint, flags);
  }

  lemma EmittedReplay(ops: seq<Record>, p: Paint, a: Attribute)
    ensures var before, after := ReplayTo(ops, |ops|), ReplayTo(ops + Emitted(p, a), |ops + Emitted(p, a)|);
            after.paint == if Emitted(p, a) == [] then before.paint
                           else ApplyAttribute(before.paint, Emitted(p, a)[0].attribute)
  {
    if Emitted(p, a) == [] {
      assert ops + [] == ops;
    } else {
      Pushed(ops, Emitted(p, a)[0]);
    }
  }

  lemma EmittedTracked(requests: seq<SourceRequest>, ops: seq<Record>, p: Paint, a: Attribute)
    requires PaintTracked(requests, ops, p)
    ensures PaintTracked(requests + (if a.SetColorSource? then [RequestOf(a.source)] else []),
                         ops + Emitted(p, a), Applied(p, a))
  {
    hide ReplayTo, SourceAfter, ApplyAttribute, Applied, Emitted;
    EmittedReplay(ops, p, a);
    var seen := ReplayTo(ops, |ops|).paint;
    if a.SetColorSource? {
      SourceNext(requests, RequestOf(a.source));
      SourceEffect(seen, p, a, Stale(requests));
    } else {
      assert requests + [] == requests;
      OtherEffect(seen, p, a);
    }
  }

  function SeenAfter(seen: Paint, p: Paint, a: Attribute): Paint {
    if Emitted(p, a) == [] then seen else ApplyAttribute(seen, Emitted(p, a)[0].attribute)
  }

  /** An attribute other than the colour source is set on the played paint as on the remembered one. */
  lemma OtherEffect(seen: Paint, p: Paint, a: Attribute)
    requires seen == p.(source := seen.source) && !a.SetColorSource?
    ensures Applied(p, a).source == p.source
    ensures SeenAfter(seen, p, a) == Applied(p, a).(source := seen.source)
  {
  }

  /** A colour source: none and a shader reach the stream when they are news, a plain colour only as a colour. */
  lemma SourceEffect(seen: Paint, p: Paint, a: Attribute, stale: bool)
    requires PaintAgrees(seen, p, stale) && a.SetColorSource? && (p.source.Some? ==> p.source.value.Shader?)
    ensures var after := Applied(p, a);
            && after.source == (if RequestOf(a.source) == ToColor then None else a.source)
            && SeenAfter(seen, p, a) == after.(source := SeenAfter(seen, p, a).source)
            && SeenAfter(seen, p, a).source ==
               if RequestOf(a.source) == ToColor || p.source == a.source then seen.source else a.source
  {
  }

  lemma EmittedStructured(c: Canvas, ops: seq<Record>, infos: seq<SaveInfo>, tracks: seq<Track>,
                          layerTracker: Option<nat>, p: Paint, a: Attribute)
    requires Structured(c, ops, infos, tracks, layerTracker)
    ensures Structured(c, ops + Emitted(p, a), infos, tracks, layerTracker)
  {
    if Emitted(p, a) == [] {
      assert ops + [] == ops;
    } else {
      AttributePushed(c, ops, infos, tracks, layerTracker, Emitted(p, a)[0].attribute);
    }
  }

  /** Attribute records leave everything else alone and keep the played-back paint in step. */
  lemma {:induction false} AttributesKeep(c: Canvas, ops: seq<Record>, infos: seq<SaveInfo>, tracks: seq<Track>,
                                          layerTracker: Option<nat>, p: Paint, list: seq<Attribute>)
    requires Structured(c, ops, infos, tracks, layerTracker) && PaintTracked(c.requests, ops, p)
    ensures Structured(c, ops + EmittedAll(p, list), infos, tracks, layerTracker)
    ensures PaintTracked(c.requests + RequestsOf(list), ops + EmittedAll(p, list), AppliedAll(p, list))
  {
    hide Structured;
    hide PaintTracked;
    hide Emitted;
    hide Applied;
    hide RequestOf;
    hide AppliedAll;
    hide EmittedAll;
    hide RequestsOf;
    if list == [] {
      NoAttributes(p);
      assert ops + [] == ops && c.requests + [] == c.requests;
    } else {
      var before, a := list[..|list| - 1], list[|list| - 1];
      assert before + [a] == list;
      AttributesNext(p, before, a);
      AttributesKeep(c, ops, infos, tracks, layerTracker, p, before);
      var ops', p' := ops + EmittedAll(p, before), AppliedAll(p, before);
      EmittedStructured(c, ops', infos, tracks, layerTracker, p', a);
      EmittedTracked(c.requests + RequestsOf(before), ops', p', a);
      assert ops' + Emitted(p', a) == ops + EmittedAll(p, list);
      var asked := if a.SetColorSource? then [RequestOf(a.source)] else [];
      assert c.requests + RequestsOf(before) + asked == c.requests + RequestsOf(list);
    }
  }

  lemma StructuredAdopts(c: Canvas, ops: seq<Record>, infos: seq<SaveInfo>, tracks: seq<Track>,
                         layerTracker: Option<nat>, paint: Paint, flags: OpFlags)
    requires Structured(c, ops, infos, tracks, layerTracker)
    ensures Structured(Adopt(c, paint, flags), ops, infos, tracks, layerTracker)
  {
  }

  // ----- the recorder -----

  predicate IsIdentity(t: Transform) {
    match t
    case Translate(tx, ty) => tx == 0.0 && ty == 0.0
    case Scale(sx, sy) => sx == 1.0 && sy == 1.0
    case Rotate(c, s) => c == 1.0 && s == 0.0
    case Skew(kx, ky) => kx == 0.0 && ky == 0.0
    case _ => false
  }

  lemma IdentityTransform(c: Canvas, t: Transform)
    requires c.levels != [] && IsIdentity(t)
    ensures Transforming(c, t) == c
  {
    ConcatIdentity(Top(c).geometry.ctm);
    ConcatIdentity(Top(c).track.ctm);
    assert SetLast(c.levels, Top(c)) == c.levels;
  }

  lemma BlankStructured()
    ensures Structured(BLANK, [], [ROOT_INFO], [Track(IDENTITY, [])], None)
    ensures PaintTracked([], [], DEFAULT_PAINT)
  {
  }

  class DisplayListBuilder {
    const probe: Probe
    var ops: seq<Record>
    var layerStack: seq<SaveInfo>
    var tracker: seq<Track>
    // The save count of the layer tracker, while there is one.
    var layerTracker: Option<nat>
    var current: Paint
    var currentOpacityCompatibility: bool
    ghost var canvas: Canvas

    ghost predicate Valid()
      reads this
    {
      && Structured(canvas, ops, layerStack, tracker, layerTracker)
      && PaintTracked(canvas.requests, ops, current)
      && current == canvas.paint
      && currentOpacityCompatibility == OpacityCompatible(current)
    }

    constructor (probe: Probe)
      ensures Valid() && canvas == BLANK && this.probe == probe
    {
      BlankStructured();
      this.probe := probe;
      ops, layerStack, tracker, layerTracker := [], [ROOT_INFO], [Track(IDENTITY, [])], None;
      current, currentOpacityCompatibility := DEFAULT_PAINT, true;
      canvas := BLANK;
    }

    method Push(r: Record)
      modifies `ops
      ensures ops == old(ops) + [r]
    {
      ops := ops + [r];
    }

    // ----- attributes -----

    method SetAttribute(a: Attribute, ghost list: seq<Attribute>, ghost ops0: seq<Record>, ghost p0: Paint)
      requires ops == ops0 + EmittedAll(p0, list) && current == AppliedAll(p0, list)
      requires currentOpacityCompatibility == OpacityCompatible(current)
      modifies `ops, `current, `currentOpacityCompatibility
      ensures ops == ops0 + EmittedAll(p0, list + [a]) && current == AppliedAll(p0, list + [a])
      ensures currentOpacityCompatibility == OpacityCompatible(current)
    {
      hide AppliedAll, EmittedAll, Applied, Emitted, ApplyAttribute, OpacityCompatible;
      AttributesNext(p0, list, a);
      AttributeEffect(current, a);
      Bits.Regroup(ops0, EmittedAll(p0, list), Emitted(current, a));
      if a.SetColorSource? && a.source.Some? && a.source.value.PlainColor? {
        var color := a.source.value.color;
        current := current.(source := None);
        if current.color != color {
          current := current.(color := color);
          Push(AttributeRecord(SetColor(color)));
        }
      } else if ApplyAttribute(current, a) != current {
        current := ApplyAttribute(current, a);
        Push(AttributeRecord(a));
        if a.SetInvertColors? || a.SetBlendMode? || a.SetColorFilter? {
          currentOpacityCompatibility := OpacityCompatible(current);
        }
      }
    }

    method SetAttributes(list: seq<Attribute>)
      requires currentOpacityCompatibility == OpacityCompatible(current)
      modifies `ops, `current, `currentOpacityCompatibility
      ensures ops == old(ops) + EmittedAll(old(current), list)
      ensures current == AppliedAll(old(current), list)
      ensures currentOpacityCompatibility == OpacityCompatible(current)
    {
      ghost var ops0, p0 := ops, current;
      for i := 0 to |list|
        invariant ops == ops0 + EmittedAll(p0, list[..i]) && current == AppliedAll(p0, list[..i])
        invariant currentOpacityCompatibility == OpacityCompatible(current)
      {
        SetAttribute(list[i], list[..i], ops0, p0);
        assert list[..i] + [list[i]] == list[..i + 1];
      }
      assert list[..|list|] == list;
    }

    method SetAttributesFromPaint(paint: Paint, flags: OpFlags)
      requires Valid()
      modifies `ops, `current, `currentOpacityCompatibility, `canvas
      ensures Valid() && canvas == Adopt(old(canvas), paint, flags)
      ensures Honours(current, old(current), paint, flags)
    {
      hide AttributeList, Honours;
      AdoptedHonours(current, paint, flags);
      hide Adopted;
      hide Structured;
      hide PaintTracked;
      var list := AttributeList(paint, flags);
      AttributesKeep(canvas, ops, layerStack, tracker, layerTracker, current, list);
      ListAdopts(current, paint, flags);
      assert canvas.requests + [] == canvas.requests;
      SetAttributes(list);
      StructuredAdopts(canvas, ops, layerStack, tracker, layerTracker, paint, flags);
      canvas := Adopt(canvas, paint, flags);
    }

    // ----- saves and restores -----

    method CheckForDeferredSave()
      requires Valid()
      modifies `ops, `layerStack
      ensures Valid() && !Last(layerStack).hasDeferredSaveOp
      ensures |layerStack| == |old(layerStack)| && Last(layerStack).isNop == old(Last(layerStack).isNop)
    {
      hide Structured, PaintTracked;
      LevelFacts(canvas, ops, layerStack, tracker, layerTracker);
      var top := Last(layerStack);
      if top.hasDeferredSaveOp {
        DeferredSaveRecorded(canvas, ops, layerStack, tracker, layerTracker);
        NonAttributePushed(ops, SaveRecord(0));
        PaintStillTracked(canvas.requests, ops, current, ops + [SaveRecord(0)]);
        var saveOffset := |ops|;
        Push(SaveRecord(0));
        layerStack := SetLast(layerStack, top.(saveOffset := saveOffset, hasDeferredSaveOp := false));
      }
    }

    method Save()
      requires Valid()
      modifies this
      ensures Valid() && canvas == Saved(old(canvas))
      ensures ops == old(ops)
    {
      hide Structured;
      hide PaintTracked;
      LevelFacts(canvas, ops, layerStack, tracker, layerTracker);
      var parent := Last(layerStack);
      var info := ROOT_INFO.(hasDeferredSaveOp := true, isNop := parent.isNop,
                             hasAccumulator := parent.hasAccumulator);
      var counted := layerTracker;
      if parent.hasAccumulator {
        assert layerTracker.Some?;
        counted := Some(layerTracker.value + 1);
      } else {
        assert layerTracker.None?;
      }
      SaveKeeps(canvas, ops, layerStack, tracker, layerTracker, info, counted);
      layerStack := layerStack + [info];
      layerTracker := counted;
      tracker := tracker + [Last(tracker)];
      canvas := Saved(canvas);
    }

    method Restore()
      requires Valid()
      modifies this
      ensures Valid() && canvas == Restored(old(canvas))
      ensures |layerStack| == if |old(layerStack)| > 1 then |old(layerStack)| - 1 else |old(layerStack)|
    {
      hide Structured;
      hide PaintTracked;
      hide Restored;
      hide Inherited;
      hide ClosedRecord;
      hide OpacityCompatible, LevelMatches, ReplayTo;
      LevelFacts(canvas, ops, layerStack, tracker, layerTracker);
      RestoredPaint(canvas);
      if |layerStack| <= 1 {
        return;
      }
      RestoreFacts(canvas, ops, layerStack, tracker, layerTracker);
      var n := |layerStack| - 1;
      var top, parent := layerStack[n], layerStack[n - 1];
      var closed := ops;
      if !top.hasDeferredSaveOp {
        // Fill in the save's restore index, and a layer's opacity flag, then record the restore.
        closed := ops[top.saveOffset := ClosedRecord(ops[top.saveOffset], top, |ops|)] + [RestoreRecord];
      }
      LevelLeft(canvas, ops, layerStack, tracker, layerTracker, closed);
      PaintStillTracked(canvas.requests, ops, current, closed);
      var count, left := layerTracker, layerStack[..n];
      if top.isSaveLayer {
        assert !top.hasDeferredSaveOp && top.hasAccumulator;
        if layerTracker.value > 1 {
          count := Some(layerTracker.value - 1);
        } else {
          assert !parent.hasAccumulator;
          count := None;
        }
      } else {
        if layerTracker.Some? {
          assert layerTracker.value > 1;
          count := Some(layerTracker.value - 1);
        }
        left := SetLast(left, Inherited(parent, top));
      }
      assert count == TrackerLeft(top, layerTracker) && left == LeftInfos(layerStack);
      hide TrackerLeft, LeftInfos;
      ops, layerStack, tracker, layerTracker, canvas := closed, left, tracker[..n], count, Restored(canvas);
    }

    method RestoreToCount(count: int)
      requires Valid()
      modifies this
      ensures Valid() && canvas == RestoredTo(old(canvas), count)
    {
      hide Structured;
      hide PaintTracked;
      hide Restored;
      LevelFacts(canvas, ops, layerStack, tracker, layerTracker);
      while count < |layerStack| && |layerStack| > 1
        invariant Valid() && |canvas.levels| == |layerStack| >= 1
        invariant RestoredTo(canvas, count) == RestoredTo(old(canvas), count)
        decreases |layerStack|
      {
        RestoredPaint(canvas);
        Restore();
      }
    }

    method SaveLayer(layer: nat, bounds: Option<nat>, paint: Option<Paint>)
      requires Valid()
      modifies this
      ensures Valid() && canvas == Performed(probe, old(canvas), DoSaveLayer(layer, bounds, paint))
    {
      hide Structured;
      hide PaintTracked;
      hide Adopt;
      hide LayerSaved;
      if paint.Some? {
        SetAttributesFromPaint(paint.value, SAVE_LAYER_WITH_PAINT);
      }
      OpenLayer(layer, bounds, paint.Some?);
    }

    method OpenLayer(layer: nat, bounds: Option<nat>, withPaint: bool)
      requires Valid()
      modifies this
      ensures Valid() && canvas == LayerSaved(old(canvas), layer, bounds, withPaint)
    {
      hide Structured;
      hide PaintTracked;
      hide LayerSaved;
      LevelFacts(canvas, ops, layerStack, tracker, layerTracker);
      LayerSavedPaint(canvas, layer, bounds, withPaint);
      var top := Last(layerStack);
      if PaintResult(top.isNop, current, LayerFlags(withPaint)) == NoEffect {
        var info := ROOT_INFO.(hasDeferredSaveOp := true, isNop := true, hasAccumulator := top.hasAccumulator);
        DroppedLayerKeeps(canvas, ops, layerStack, tracker, layerTracker, layer, bounds, withPaint, info);
        layerStack := layerStack + [info];
        layerTracker := LayerEntered(layerTracker, false);
        tracker := tracker + [Last(tracker)];
      } else {
        var compatible := !withPaint || currentOpacityCompatibility;
        var filtered := withPaint && current.imageFilter.Some?;
        KeptLayerKeeps(canvas, ops, layerStack, tracker, layerTracker, layer, bounds, withPaint, compatible, filtered);
        var save := SaveLayerRecord(layer, withPaint, 0, false);
        NonAttributePushed(ops, save);
        PaintStillTracked(canvas.requests, ops, current, ops + [save]);
        layerStack := SetLast(layerStack, top.AddOp(compatible)) + [LayerInfo(|ops|, compatible && !filtered)];
        layerTracker := LayerEntered(layerTracker, true);
        tracker := tracker + [LayerTrack(Last(tracker), bounds, filtered)];
        Push(save);
      }
      canvas := LayerSaved(canvas, layer, bounds, withPaint);
    }

    // ----- transforms and clips -----

    method RecordTransform(t: Transform)
      requires Valid()
      modifies this
      ensures Valid() && canvas == Transforming(old(canvas), t)
    {
      hide Structured;
      hide PaintTracked;
      hide Transformed;
      CheckForDeferredSave();
      LevelFacts(canvas, ops, layerStack, tracker, layerTracker);
      var track := Last(tracker).(ctm := Transformed(Last(tracker).ctm, t));
      GeometryRecorded(canvas, ops, layerStack, tracker, layerTracker, TransformRecord(t), track);
      NonAttributePushed(ops, TransformRecord(t));
      PaintStillTracked(canvas.requests, ops, current, ops + [TransformRecord(t)]);
      Push(TransformRecord(t));
      tracker := SetLast(tracker, track);
      canvas := Transforming(canvas, t);
    }

    method Translate(tx: real, ty: real)
      requires Valid()
      modifies this
      ensures Valid() && canvas == Transforming(old(canvas), Records.Translate(tx, ty))
    {
      if tx != 0.0 || ty != 0.0 {
        RecordTransform(Records.Translate(tx, ty));
      } else {
        IdentityTransform(canvas, Records.Translate(tx, ty));
      }
    }

    method Scale(sx: real, sy: real)
      requires Valid()
      modifies this
      ensures Valid() && canvas == Transforming(old(canvas), Records.Scale(sx, sy))
    {
      if sx != 1.0 || sy != 1.0 {
        RecordTransform(Records.Scale(sx, sy));
      } else {
        IdentityTransform(canvas, Records.Scale(sx, sy));
      }
    }

    method Rotate(cos: real, sin: real)
      requires Valid()
      modifies this
      ensures Valid() && canvas == Transforming(old(canvas), Records.Rotate(cos, sin))
    {
      // A multiple of 360 degrees is the angle with cosine one and sine zero.
      if cos != 1.0 || sin != 0.0 {
        RecordTransform(Records.Rotate(cos, sin));
      } else {
        IdentityTransform(canvas, Records.Rotate(cos, sin));
      }
    }

    method Skew(kx: real, ky: real)
      requires Valid()
      modifies this
      ensures Valid() && canvas == Transforming(old(canvas), Records.Skew(kx, ky))
    {
      if kx != 0.0 || ky != 0.0 {
        RecordTransform(Records.Skew(kx, ky));
      } else {
        IdentityTransform(canvas, Records.Skew(kx, ky));
      }
    }

    method Transform2DAffine(xx: real, xy: real, xt: real, yx: real, yy: real, yt: real)
      requires Valid()
      modifies this
      ensures Valid() && canvas == Transforming(old(canvas), Affine2D(xx, xy, xt, yx, yy, yt))
    {
      if xx == 1.0 && xy == 0.0 && yx == 0.0 && yy == 1.0 {
        Translate(xt, yt);
      } else {
        RecordTransform(Affine2D(xx, xy, xt, yx, yy, yt));
      }
    }

    method TransformFullPerspective(m: Matrix)
      requires Valid()
      modifies this
      ensures Valid() && canvas == Transforming(old(canvas), FullPerspective(m))
    {
      if m == Affine(m.xx, m.xy, m.xt, m.yx, m.yy, m.yt) {
        Transform2DAffine(m.xx, m.xy, m.xt, m.yx, m.yy, m.yt);
      } else {
        RecordTransform(FullPerspective(m));
      }
    }

    method ApplyTransform(t: Transform)
      requires Valid()
      modifies this
      ensures Valid() && canvas == Transforming(old(canvas), t)
    {
      match t {
        case Translate(tx, ty) => Translate(tx, ty);
        case Scale(sx, sy) => Scale(sx, sy);
        case Rotate(cos, sin) => Rotate(cos, sin);
        case Skew(kx, ky) => Skew(kx, ky);
        case Affine2D(xx, xy, xt, yx, yy, yt) => Transform2DAffine(xx, xy, xt, yx, yy, yt);
        case FullPerspective(m) => TransformFullPerspective(m);
        case Reset => RecordTransform(Reset);
      }
    }

    method ClipShape(clip: Clip)
      requires Valid()
      modifies this
      ensures Valid() && canvas == Clipped(probe, old(canvas), clip)
    {
      hide Structured;
      hide PaintTracked;
      LevelFacts(canvas, ops, layerStack, tracker, layerTracker);
      var track := Last(tracker).(clips := Last(tracker).clips + [ShapeClip(clip, Last(tracker).ctm)]);
      if Last(layerStack).isNop || probe.isEmpty(track) {
        LevelEmptied(canvas, ops, layerStack, tracker, layerTracker, Top(Clipped(probe, canvas, clip)));
        layerStack := SetLast(layerStack, Last(layerStack).(isNop := true));
      } else {
        CheckForDeferredSave();
        GeometryRecorded(canvas, ops, layerStack, tracker, layerTracker, ClipRecord(clip), track);
        NonAttributePushed(ops, ClipRecord(clip));
        PaintStillTracked(canvas.requests, ops, current, ops + [ClipRecord(clip)]);
        Push(ClipRecord(clip));
      }
      tracker := SetLast(tracker, track);
      canvas := Clipped(probe, canvas, clip);
    }

    // ----- draws -----

    method Draw(draw: DrawCall)
      requires Valid()
      modifies this
      ensures Valid() && canvas == Drew(probe, old(canvas), draw)
    {
      hide Structured;
      hide PaintTracked;
      hide DrawMarked;
      hide Adopted;
      match draw {
        case Painted(drawing, flags, paint, rule) =>
          SetAttributesFromPaint(paint, flags);
          LevelFacts(canvas, ops, layerStack, tracker, layerTracker);
          var result := PaintResult(Last(layerStack).isNop, current, flags);
          var compatible := match rule
            case UsesPaint => currentOpacityCompatibility
            case UsesPaintUnlessHairline =>
              currentOpacityCompatibility && (current.style == Fill || current.strokeWidth > 0.0)
            case Fixed(compatible) => compatible;
          RecordDraw(drawing, result, compatible);
        case Unpainted(drawing, judged, compatible) =>
          LevelFacts(canvas, ops, layerStack, tracker, layerTracker);
          var result := Judged(Last(layerStack).isNop, judged);
          RecordDraw(drawing, result, compatible);
      }
    }

    method RecordDraw(drawing: nat, result: OpResult, compatible: bool)
      requires Valid()
      requires Last(layerStack).isNop ==> result == NoEffect
      modifies this
      ensures Valid()
      ensures var kept := result != NoEffect && probe.isVisible(Top(old(canvas)).track, drawing, old(canvas).paint);
              canvas == DrawMarked(old(canvas), drawing, kept, compatible)
    {
      hide Structured;
      hide PaintTracked;
      LevelFacts(canvas, ops, layerStack, tracker, layerTracker);
      ghost var mark := Drawn(drawing, current, Top(canvas).geometry);
      if result != NoEffect && probe.isVisible(Last(tracker), drawing, current) {
        DrawRecorded(canvas, ops, layerStack, tracker, layerTracker, drawing);
        TallyKeeps(Marked(canvas, mark, true), ops + [DrawRecord(drawing)], layerStack, tracker, layerTracker, compatible);
        NonAttributePushed(ops, DrawRecord(drawing));
        PaintStillTracked(canvas.requests, ops, current, ops + [DrawRecord(drawing)]);
        Push(DrawRecord(drawing));
        layerStack := SetLast(layerStack, Last(layerStack).AddOp(compatible));
        canvas := DrawMarked(canvas, drawing, true, compatible);
      } else {
        MarkDropped(canvas, ops, layerStack, tracker, layerTracker, mark);
        canvas := DrawMarked(canvas, drawing, false, compatible);
      }
    }

    method Perform(call: CanvasCall)
      requires Valid()
      modifies this
      ensures Valid() && canvas == Performed(probe, old(canvas), call)
    {
      hide Structured;
      hide PaintTracked;
      hide Saved;
      hide Restored;
      hide RestoredTo;
      hide Transforming;
      hide Clipped;
      hide Drew;
      match call {
        case DoSave => Save();
        case DoSaveLayer(layer, bounds, paint) => SaveLayer(layer, bounds, paint);
        case DoRestore => Restore();
        case DoRestoreToCount(count) => RestoreToCount(count);
        case DoTransform(t) => ApplyTransform(t);
        case DoClip(clip) => ClipShape(clip);
        case DoDraw(draw) => Draw(draw);
      }
    }

    // ----- the finished list -----

    /**
     Closes every open level and hands over the stream.  What is left behind is a
     fresh recorder exactly when the paint in force takes a group opacity: the
     remembered opacity answer is the one field that is not reset.
     */
    method Build() returns (list: seq<Record>, groupOpacity: bool)
      requires Valid()
      modifies this
      ensures Faithful(list, groupOpacity, RestoredTo(old(canvas), 1))
      ensures canvas == BLANK && ops == [] && layerStack == [ROOT_INFO] && layerTracker == None
      ensures current == DEFAULT_PAINT && currentOpacityCompatibility == OpacityCompatible(old(current))
      ensures Valid() <==> OpacityCompatible(old(current))
    {
      hide Structured;
      hide PaintTracked;
      hide Faithful;
      hide Restored;
      BlankStructured();
      LevelFacts(canvas, ops, layerStack, tracker, layerTracker);
      RestoreToCount(1);
      LevelFacts(canvas, ops, layerStack, tracker, layerTracker);
      BuiltFaithful(canvas, ops, layerStack, tracker, layerTracker);
      list, groupOpacity := ops, !layerStack[0].cannotInheritOpacity;
      RestoredToPaint(old(canvas), 1);
      ops, layerStack, tracker, layerTracker := [], [ROOT_INFO], [Track(IDENTITY, [])], None;
      current := DEFAULT_PAINT;
      canvas := BLANK;
    }
  }

  lemma {:induction false} RestoredToPaint(c: Canvas, count: int)
    requires c.levels != []
    ensures RestoredTo(c, count).paint == c.paint
    decreases |c.levels|
  {
    if count < |c.levels| && |c.levels| > 1 {
      RestoredPaint(c);
      RestoredToPaint(Restored(c), count);
    }
  }

  /**
   A list records what the reference shows: its saves and restores bracket, playing
   it makes the kept marks in order, and its flag says whether the root group can
   distribute an opacity.
   */
  ghost predicate Faithful(list: seq<Record>, groupOpacity: bool, c: Canvas) {
    && WellFormed(list)
    && MarksAgree(ReplayTo(list, |list|).trace, c.marks)
    && |c.levels| == 1
    && (groupOpacity <==> Distributes(c.levels[0].tally))
  }

  lemma BuiltFaithful(c: Canvas, ops: seq<Record>, infos: seq<SaveInfo>, tracks: seq<Track>, layerTracker: Option<nat>)
    requires Structured(c, ops, infos, tracks, layerTracker) && |c.levels| == 1
    ensures Faithful(ops, !infos[0].cannotInheritOpacity, c)
  {
    assert LevelMatches(infos[0], tracks[0], c.levels[0]);
  }

  /** Any calls on a fresh recorder build a list that records what the reference shows. */
  method Record(probe: Probe, calls: seq<CanvasCall>) returns (list: seq<Record>, groupOpacity: bool)
    ensures Faithful(list, groupOpacity, RestoredTo(PerformAll(probe, calls), 1))
  {
    hide Structured;
    hide PaintTracked;
    hide Performed;
    hide Faithful;
    var builder := new DisplayListBuilder(probe);
    for i := 0 to |calls|
      invariant builder.Valid() && builder.probe == probe
      invariant builder.canvas == PerformAll(probe, calls[..i])
      invariant fresh(builder)
    {
      assert calls[..i + 1][..i] == calls[..i];
      builder.Perform(calls[i]);
    }
    assert calls[..|calls|] == calls;
    list, groupOpacity := builder.Build();
  }

  const REPLACING := DEFAULT_PAINT.(blend := Src)

  /** After drawing with such a paint and building, the recorder remembers a wrong opacity answer. */
  method RebuiltExample(probe: Probe) returns (builder: DisplayListBuilder)
    ensures builder.canvas == BLANK && builder.current == DEFAULT_PAINT
    ensures !builder.currentOpacityCompatibility && OpacityCompatible(builder.current) && !builder.Valid()
  {
    hide Structured, PaintTracked, DrawMarked, PaintResult;
    builder := new DisplayListBuilder(probe);
    builder.SetAttributesFromPaint(REPLACING, DRAW_PAINT);
    ReplacingAdopted();
    assert builder.current.blend == Src;
    var list, groupOpacity := builder.Build();
  }

  lemma ReplacingAdopted()
    ensures Adopted(DEFAULT_PAINT, REPLACING, DRAW_PAINT).blend == Src
  {
  }

  /** A mark is played back as the caller meant it exactly when no stale shader was standing. */
  lemma MarksExact(trace: seq<Traced>, marks: seq<CanvasMark>, i: nat)
    requires MarksAgree(trace, marks) && i < |trace|
    ensures i < |KeptMarks(marks)|
    ensures var meant := KeptMarks(marks)[i];
            trace[i].mark == meant.mark <==> meant.mark.LayerClosed? || !meant.stale
  {
    var meant := KeptMarks(marks)[i];
    assert MarkAgrees(trace[i].mark, meant);
  }
}
