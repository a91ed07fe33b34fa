/**
 From the caller's calls to the receiver's: recording into a list and playing the
 list back, set against the immediate canvas in marks and in pixels.
 */
module Pipeline {
  import opened Records
  import opened Player
  import opened Canvas
  import opened Builder
  import opened Blend
  import opened Pixels
  import opened Culling
  import opened Fading

  // ----- marks and pixels -----

  function MarksOf(marks: seq<CanvasMark>): (r: seq<Mark>)
    ensures |r| == |marks| && forall i :: 0 <= i < |marks| ==> r[i] == marks[i].mark
  {
    seq(|marks|, i requires 0 <= i < |marks| => marks[i].mark)
  }

  lemma {:induction false} KeptPlayed(scene: Scene, marks: seq<CanvasMark>, d: Pixel)
    ensures Played(scene, MarksOf(KeptMarks(marks)), d) == Shown(scene, marks, d, false)
  {
    hide Show;
    if marks != [] {
      var n := |marks| - 1;
      KeptPlayed(scene, marks[..n], d);
      var before := MarksOf(KeptMarks(marks[..n]));
      if marks[n].kept {
        assert MarksOf(KeptMarks(marks)) == before + [marks[n].mark];
        assert MarksOf(KeptMarks(marks))[..|before|] == before;
      } else {
        assert KeptMarks(marks) == KeptMarks(marks[..n]);
      }
    }
  }

  lemma {:induction false} KeptFaded(scene: Scene, opacity: real, marks: seq<CanvasMark>, d: Pixel)
    ensures PlayedFaded(scene, opacity, MarksOf(KeptMarks(marks)), d) == ShownFaded(scene, opacity, marks, d)
  {
    hide ShowFaded;
    if marks != [] {
      var n := |marks| - 1;
      KeptFaded(scene, opacity, marks[..n], d);
      var before := MarksOf(KeptMarks(marks[..n]));
      if marks[n].kept {
        assert MarksOf(KeptMarks(marks)) == before + [marks[n].mark];
        assert MarksOf(KeptMarks(marks))[..|before|] == before;
      } else {
        assert KeptMarks(marks) == KeptMarks(marks[..n]);
      }
    }
  }

  ghost predicate NoneStale(marks: seq<CanvasMark>) {
    forall i :: 0 <= i < |marks| ==> !marks[i].stale
  }

  /** What the receiver saw are the kept marks, but for a stale shader. */
  ghost predicate SeenAsMeant(seen: seq<Mark>, marks: seq<CanvasMark>) {
    && |seen| == |KeptMarks(marks)|
    && forall i :: 0 <= i < |seen| ==> MarkAgrees(seen[i], KeptMarks(marks)[i])
  }

  lemma {:induction false} KeptNotStale(marks: seq<CanvasMark>)
    requires NoneStale(marks)
    ensures NoneStale(KeptMarks(marks))
  {
    if marks != [] {
      KeptNotStale(marks[..|marks| - 1]);
    }
  }

  lemma SeenExactly(seen: seq<Mark>, marks: seq<CanvasMark>)
    requires SeenAsMeant(seen, marks) && NoneStale(marks)
    ensures seen == MarksOf(KeptMarks(marks))
  {
    KeptNotStale(marks);
    var kept := KeptMarks(marks);
    hide KeptMarks;
    forall i | 0 <= i < |seen| ensures seen[i] == kept[i].mark {
      assert MarkAgrees(seen[i], kept[i]) && !kept[i].stale;
    }
  }

  function Ended(probe: Probe, calls: seq<CanvasCall>): Canvas { RestoredTo(PerformAll(probe, calls), 1) }

  /** At every pixel where the paints can be judged, the receiver ends with what the canvas shows. */
  ghost predicate SamePixels(probe: Probe, calls: seq<CanvasCall>, seen: seq<Mark>) {
    forall scene, d ::
      && Sound(scene, probe) && Lawful(scene.env) && InRange(d)
      && (forall i :: 0 <= i < |calls| ==> Proper(scene, calls[i])) ==>
        Played(scene, seen, d) != [] &&
        Played(scene, seen, d)[0].pixel == PixelAfter(scene, Ended(probe, calls).marks, d, true)
  }

  lemma PlaybackShows(probe: Probe, calls: seq<CanvasCall>, seen: seq<Mark>)
    requires SeenAsMeant(seen, Ended(probe, calls).marks) && NoneStale(Ended(probe, calls).marks)
    ensures SamePixels(probe, calls, seen)
  {
    var marks := Ended(probe, calls).marks;
    SeenExactly(seen, marks);
    hide Played, Proper, Sound, Lawful, KeptMarks;
    forall scene, d |
      Sound(scene, probe) && Lawful(scene.env) && InRange(d) && (forall i :: 0 <= i < |calls| ==> Proper(scene, calls[i]))
      ensures Played(scene, seen, d) != []
      ensures Played(scene, seen, d)[0].pixel == PixelAfter(scene, marks, d, true)
    {
      KeptPlayed(scene, marks, d);
      DroppingShowsNothing(scene, probe, calls, d);
      NeverEmpty(scene, marks, d);
    }
  }

  lemma {:induction false} NeverEmpty(scene: Scene, marks: seq<CanvasMark>, d: Pixel)
    ensures Shown(scene, marks, d, false) != []
  {
    if marks != [] {
      NeverEmpty(scene, marks[..|marks| - 1], d);
    }
  }

  /** Played at an opacity, the marks show what the whole group shows through a faded layer. */
  ghost predicate FadesAlike(calls: seq<CanvasCall>, seen: seq<Mark>) {
    forall scene: Scene, opacity, d ::
      && Lawful(scene.env) && ContentInRange(scene) && InRange(d)
      && (forall i :: 0 <= i < |calls| ==> Proper(scene, calls[i]) && Fair(calls[i])) ==>
        var group, faded := Played(scene, seen, CLEAR), PlayedFaded(scene, opacity, seen, d);
        && |group| == |faded| == 1
        && faded[0].pixel == Blended(scene.env, SrcOver, Scaled(group[0].pixel, opacity), d)
  }

  lemma PlaybackFades(probe: Probe, calls: seq<CanvasCall>, seen: seq<Mark>)
    requires SeenAsMeant(seen, Ended(probe, calls).marks) && NoneStale(Ended(probe, calls).marks)
    requires Distributes(Ended(probe, calls).levels[0].tally)
    ensures FadesAlike(calls, seen)
  {
    var marks := Ended(probe, calls).marks;
    SeenExactly(seen, marks);
    hide Played, PlayedFaded, Proper, Fair, Lawful, ContentInRange, KeptMarks, Distributes, Blended, Scaled, Shown,
         ShownFaded;
    forall scene: Scene, opacity, d |
      && Lawful(scene.env) && ContentInRange(scene) && InRange(d)
      && (forall i :: 0 <= i < |calls| ==> Proper(scene, calls[i]) && Fair(calls[i]))
      ensures var group, faded := Played(scene, seen, CLEAR), PlayedFaded(scene, opacity, seen, d);
              && |group| == |faded| == 1
              && faded[0].pixel == Blended(scene.env, SrcOver, Scaled(group[0].pixel, opacity), d)
    {
      KeptPlayed(scene, marks, CLEAR);
      KeptFaded(scene, opacity, marks, d);
      GroupOpacityExact(scene, probe, calls, opacity, d);
    }
  }

  /**
   Record any calls and play the list back.  Nothing comes back when the list has
   more records than an index can count.
   */
  method RecordAndPlay(probe: Probe, calls: seq<CanvasCall>) returns (played: Option<seq<Call>>, groupOpacity: bool)
    ensures groupOpacity <==> Distributes(Ended(probe, calls).levels[0].tally)
    ensures played.Some? ==>
              var seen := Observe(played.value);
              && SeenAsMeant(seen.marks, Ended(probe, calls).marks)
              && (NoneStale(Ended(probe, calls).marks) ==> SamePixels(probe, calls, seen.marks))
              && (NoneStale(Ended(probe, calls).marks) && groupOpacity ==> FadesAlike(calls, seen.marks))
              && seen.levels == [] && !seen.underflow
  {
    hide SeenAsMeant, SamePixels, NoneStale, Observe, ReplayTo, Distributes, FadesAlike;
    var list;
    list, groupOpacity := Builder.Record(probe, calls);
    if |list| >= MAX_INT {
      return None, groupOpacity;
    }
    var sent := Dispatch(list);
    ghost var marks := Ended(probe, calls).marks;
    SeenFromTrace(ReplayTo(list, |list|).trace, Observe(sent).marks, marks);
    if NoneStale(marks) {
      PlaybackShows(probe, calls, Observe(sent).marks);
      if groupOpacity {
        PlaybackFades(probe, calls, Observe(sent).marks);
      }
    }
    return Some(sent), groupOpacity;
  }

  /** As `SamePixels`, at the pixels a hit list accounts for. */
  ghost predicate SamePixelsWhereFound(probe: Probe, calls: seq<CanvasCall>, list: seq<Records.Record>, ids: seq<int>,
                                       seen: seq<Mark>)
  {
    forall scene: Scene, d ::
      && Sound(scene, probe) && Lawful(scene.env) && InRange(d)
      && (forall i :: 0 <= i < |calls| ==> Proper(scene, calls[i]))
      && AllFound(scene, ids, ReplayTo(list, |list|).trace) ==>
        Played(scene, seen, d) != [] &&
        Played(scene, seen, d)[0].pixel == PixelAfter(scene, Ended(probe, calls).marks, d, true)
  }

  /**
   Record any calls and play the list back around some pixels only: those still
   show what the canvas shows.
   */
  method RecordAndPlayCulled(probe: Probe, calls: seq<CanvasCall>, ids: seq<int>)
    returns (list: seq<Records.Record>, played: Option<seq<Call>>)
    requires HitList(ids)
    ensures played.Some? ==>
              var seen := Observe(played.value);
              && (NoneStale(Ended(probe, calls).marks) ==> SamePixelsWhereFound(probe, calls, list, ids, seen.marks))
              && seen.levels == [] && !seen.underflow
  {
    hide NoneStale, Observe, ReplayTo, WellFormed, SamePixels, PixelsKept;
    var groupOpacity;
    list, groupOpacity := Builder.Record(probe, calls);
    if |list| >= MAX_INT {
      return list, None;
    }
    var sent := PlayCulled(list, ids);
    ghost var trace := ReplayTo(list, |list|).trace;
    TraceMarks(trace);
    SeenFromTrace(trace, MarksIn(trace), Ended(probe, calls).marks);
    if NoneStale(Ended(probe, calls).marks) {
      PlaybackShows(probe, calls, MarksIn(trace));
      FoundPixels(probe, calls, list, ids, Observe(sent).marks);
    }
    played := Some(sent);
  }

  lemma FoundPixels(probe: Probe, calls: seq<CanvasCall>, list: seq<Records.Record>, ids: seq<int>, seen: seq<Mark>)
    requires WellFormed(list) && PixelsKept(list, ids, seen)
    requires SamePixels(probe, calls, MarksIn(ReplayTo(list, |list|).trace))
    ensures SamePixelsWhereFound(probe, calls, list, ids, seen)
  {
    hide ReplayTo, WellFormed, Played, Sound, Lawful, Proper, AllFound, MarksIn, PixelAfter;
  }

  lemma {:induction false} TraceMarks(trace: seq<Traced>)
    ensures |MarksIn(trace)| == |trace| && forall i :: 0 <= i < |trace| ==> MarksIn(trace)[i] == trace[i].mark
  {
    if trace != [] {
      TraceMarks(trace[..|trace| - 1]);
    }
  }

  lemma SeenFromTrace(trace: seq<Traced>, seen: seq<Mark>, marks: seq<CanvasMark>)
    requires MarksAgree(trace, marks) && |seen| == |trace| && forall i :: 0 <= i < |trace| ==> seen[i] == trace[i].mark
    ensures SeenAsMeant(seen, marks)
  {
    hide KeptMarks;
  }

  // ----- stale shaders -----

  function PaintOf(call: CanvasCall): Option<Paint> {
    match call
    case DoSaveLayer(_, _, paint) => paint
    case DoDraw(Painted(_, _, paint, _)) => Some(paint)
    case _ => None
  }

  /** No paint names a plain colour as its colour source. */
  predicate NoPlainSources(calls: seq<CanvasCall>) {
    forall i :: 0 <= i < |calls| && PaintOf(calls[i]).Some? ==> RequestOf(PaintOf(calls[i]).value.source) != ToColor
  }

  ghost predicate Clean(c: Canvas) { ToColor !in c.requests && NoneStale(c.marks) }

  lemma MarkedClean(c: Canvas, mark: Mark, kept: bool)
    requires Clean(c)
    ensures Clean(Marked(c, mark, kept))
  {
    hide SourceAfter;
    StaleExactly(c.requests);
  }

  lemma AdoptedClean(c: Canvas, paint: Paint, flags: OpFlags)
    requires Clean(c) && RequestOf(paint.source) != ToColor
    ensures Clean(Adopt(c, paint, flags))
  {
    hide Adopted;
  }

  lemma RestoredClean(c: Canvas)
    requires Clean(c) && c.levels != []
    ensures Clean(Restored(c))
  {
    hide Clean, Distributes;
    if |c.levels| > 1 {
      var top, outer := Top(c), c.(levels := c.levels[..|c.levels| - 1]);
      LevelsDoNotMatter(c, outer);
      var summed := SetTop(outer, Top(outer).(tally := Top(outer).tally + top.tally));
      LevelsDoNotMatter(c, summed);
      MarkedClean(outer, LayerClosed(Distributes(top.tally)), true);
      MarkedClean(summed, LayerClosed(Distributes(top.tally)), false);
    }
  }

  lemma LevelsDoNotMatter(c: Canvas, c': Canvas)
    requires Clean(c) && c'.requests == c.requests && c'.marks == c.marks
    ensures Clean(c')
  {
  }

  lemma {:induction false} RestoredToClean(c: Canvas, count: int)
    requires Clean(c) && c.levels != []
    ensures Clean(RestoredTo(c, count))
    decreases |c.levels|
  {
    hide Clean;
    if count < |c.levels| && |c.levels| > 1 {
      RestoredClean(c);
      RestoredToClean(Restored(c), count);
    }
  }

  lemma LayerSavedClean(c: Canvas, layer: nat, bounds: Option<nat>, withPaint: bool)
    requires Clean(c) && c.levels != []
    ensures Clean(LayerSaved(c, layer, bounds, withPaint))
  {
    hide Clean, LayerTrack;
    var mark := LayerOpened(layer, withPaint, c.paint, Top(c).geometry);
    var t := Tally(c, !withPaint || PaintRules.OpacityCompatible(c.paint));
    LevelsDoNotMatter(c, t);
    MarkedClean(c, mark, false);
    MarkedClean(t, mark, true);
    var after := LayerSaved(c, layer, bounds, withPaint);
    var dropped, kept := Marked(c, mark, false), Marked(t, mark, true);
    LevelsDoNotMatter(if after.marks == dropped.marks then dropped else kept, after);
  }

  lemma DrawMarkedClean(c: Canvas, drawing: nat, kept: bool, compatible: bool)
    requires Clean(c) && c.levels != []
    ensures Clean(DrawMarked(c, drawing, kept, compatible))
  {
    hide Clean;
    var marked := Marked(c, Drawn(drawing, c.paint, Top(c).geometry), kept);
    MarkedClean(c, Drawn(drawing, c.paint, Top(c).geometry), kept);
    LevelsDoNotMatter(marked, DrawMarked(c, drawing, kept, compatible));
  }

  lemma PerformedClean(probe: Probe, c: Canvas, call: CanvasCall)
    requires Clean(c) && c.levels != [] && (PaintOf(call).Some? ==> RequestOf(PaintOf(call).value.source) != ToColor)
    ensures Clean(Performed(probe, c, call))
  {
    hide Clean, LayerSaved, Restored, RestoredTo, DrawMarked, Adopted, Requested, Transformed;
    match call
    case DoSaveLayer(layer, bounds, paint) =>
      if paint.Some? {
        AdoptedClean(c, paint.value, SAVE_LAYER_WITH_PAINT);
        LayerSavedClean(Adopt(c, paint.value, SAVE_LAYER_WITH_PAINT), layer, bounds, true);
      } else {
        LayerSavedClean(c, layer, bounds, false);
      }
    case DoRestore => RestoredClean(c);
    case DoRestoreToCount(count) => RestoredToClean(c, count);
    case DoDraw(Painted(drawing, flags, paint, rule)) =>
      AdoptedClean(c, paint, flags);
      var a := Adopt(c, paint, flags);
      forall kept, compatible ensures Clean(DrawMarked(a, drawing, kept, compatible)) {
        DrawMarkedClean(a, drawing, kept, compatible);
      }
    case DoDraw(Unpainted(drawing, judged, compatible)) =>
      forall kept ensures Clean(DrawMarked(c, drawing, kept, compatible)) {
        DrawMarkedClean(c, drawing, kept, compatible);
      }
    case _ => LevelsDoNotMatter(c, Performed(probe, c, call));
  }

  /** Without plain colour sources no shader is ever stale, so playback is exact in every mark. */
  lemma {:induction false} ShadersNeverStale(probe: Probe, calls: seq<CanvasCall>)
    requires NoPlainSources(calls)
    ensures Clean(PerformAll(probe, calls)) && NoneStale(Ended(probe, calls).marks)
  {
    hide Performed, RestoredTo;
    if calls == [] {
      assert Clean(BLANK);
    } else {
      var n := |calls| - 1;
      ShadersNeverStale(probe, calls[..n]);
      hide Clean;
      PerformedClean(probe, PerformAll(probe, calls[..n]), calls[n]);
    }
    RestoredToClean(PerformAll(probe, calls), 1);
    CleanNotStale(Ended(probe, calls));
  }

  lemma CleanNotStale(c: Canvas)
    requires Clean(c)
    ensures NoneStale(c.marks)
  {
  }

  const SHADED_PAINT := DEFAULT_PAINT.(source := Some(Shader(1, EffectShader)))
  const PLAIN_PAINT := DEFAULT_PAINT.(source := Some(PlainColor(WHITE)))
  const SHADED := DoDraw(Painted(0, DRAW_PAINT, SHADED_PAINT, UsesPaint))
  const PLAIN := DoDraw(Painted(1, DRAW_PAINT, PLAIN_PAINT, UsesPaint))

  function Everything(): Probe { Probe(t => false, (t, drawing, paint) => true) }

  lemma VisibleDraw(c: Canvas, drawing: nat, paint: Paint)
    requires |c.levels| == 1 && !c.levels[0].dead
    requires PaintRules.PaintResult(false, Adopted(c.paint, paint, DRAW_PAINT), DRAW_PAINT) != PaintRules.NoEffect
    ensures var a := Adopt(c, paint, DRAW_PAINT);
            var after := Performed(Everything(), c, DoDraw(Painted(drawing, DRAW_PAINT, paint, UsesPaint)));
            && after.paint == a.paint && after.requests == a.requests && |after.levels| == 1 && !after.levels[0].dead
            && after.marks == c.marks + [CanvasMark(Drawn(drawing, a.paint, c.levels[0].geometry), true, Stale(a.requests))]
  {
    hide Adopted, Stale, Requested, TakesOpacity, PaintRules.PaintResult;
  }

  lemma ShadedAdopted()
    ensures Adopted(DEFAULT_PAINT, SHADED_PAINT, DRAW_PAINT) == SHADED_PAINT
    ensures PaintRules.PaintResult(false, SHADED_PAINT, DRAW_PAINT) != PaintRules.NoEffect
  {
  }

  lemma PlainAdopted()
    ensures var a := Adopted(SHADED_PAINT, PLAIN_PAINT, DRAW_PAINT);
            a.source == None && PaintRules.PaintResult(false, a, DRAW_PAINT) != PaintRules.NoEffect
  {
  }

  lemma StaleRequests()
    ensures Stale([ToShader, ToColor])
  {
    StaleExactly([ToShader, ToColor]);
    assert ColorOverShader([ToShader, ToColor], 1);
  }

  lemma TwoKept(marks: seq<CanvasMark>)
    requires |marks| == 2 && marks[0].kept && marks[1].kept
    ensures KeptMarks(marks) == marks
  {
    assert marks[..1][..0] == [];
    assert KeptMarks(marks[..1]) == marks[..1];
  }

  lemma TwoPerformed(probe: Probe, a: CanvasCall, b: CanvasCall)
    ensures PerformAll(probe, [a, b]) == Performed(probe, Performed(probe, BLANK, a), b)
  {
    hide Performed;
    assert [a, b][..1] == [a] && [a][..0] == [];
    assert PerformAll(probe, [a]) == Performed(probe, BLANK, a);
  }

  lemma ExampleFirst()
    ensures var first := Performed(Everything(), BLANK, SHADED);
            && |first.levels| == 1 && !first.levels[0].dead && first.paint == SHADED_PAINT && first.requests == [ToShader]
            && |first.marks| == 1 && first.marks[0].kept
  {
    hide Performed, Everything, Adopted, Stale, PaintRules.PaintResult;
    ShadedAdopted();
    VisibleDraw(BLANK, 0, SHADED_PAINT);
  }

  lemma ExampleSecond(first: Canvas)
    requires |first.levels| == 1 && !first.levels[0].dead && first.paint == SHADED_PAINT && first.requests == [ToShader]
    requires |first.marks| == 1 && first.marks[0].kept
    ensures var c := Performed(Everything(), first, PLAIN);
            && |c.levels| == 1 && |c.marks| == 2 && c.marks[0].kept && c.marks[1].kept && c.marks[1].stale
            && c.marks[1].mark.Drawn? && c.marks[1].mark.drawing == 1 && c.marks[1].mark.paint.source == None
  {
    hide Performed, Everything, Adopted, Stale, PaintRules.PaintResult;
    PlainAdopted();
    VisibleDraw(first, 1, PLAIN_PAINT);
    StaleRequests();
    assert [ToShader] + [ToColor] == [ToShader, ToColor];
  }

  /** With one: a plain white drawn after a shader is recorded, and played back through the shader. */
  lemma StaleExample(seen: seq<Mark>)
    requires SeenAsMeant(seen, Ended(Everything(), [SHADED, PLAIN]).marks)
    ensures var marks := Ended(Everything(), [SHADED, PLAIN]).marks;
            && |seen| == |marks| == 2 && seen[1].Drawn? && marks[1].mark.Drawn?
            && seen[1].drawing == marks[1].mark.drawing == 1
            && marks[1].mark.paint.source == None && seen[1].paint.source.Some?
  {
    hide Performed, Everything, PerformAll, KeptMarks;
    TwoPerformed(Everything(), SHADED, PLAIN);
    ExampleFirst();
    var first := Performed(Everything(), BLANK, SHADED);
    ExampleSecond(first);
    var second := Performed(Everything(), first, PLAIN);
    TwoKept(second.marks);
    assert MarkAgrees(seen[1], second.marks[1]);
  }
}
