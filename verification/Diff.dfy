/**
 The tree diff's bookkeeping (flow/diff_context.cc, flow/paint_region.h): nested
 subtrees over one vector of rectangles that only grows, so that a paint region is
 a pair of indices.

 The context keeps a ghost log of what happened and, for every open subtree, what
 was in force when it began.  A region is shown to hold exactly the rectangles and
 marks of its own subtree, and closing a subtree to bring back what it changed.
 */
module Diff {
  import opened Rects
  import opened Damage

  type Adjustment = Rect -> Rect

  datatype State = State(
    dirty: bool,
    rectIndex: nat,
    integralTransform: bool,
    clipTrackerSaveCount: nat,
    hasFilterBoundsAdjustment: bool,
    hasTexture: bool)

  datatype PaintRegion = PaintRegion(from: nat, to: nat, hasReadback: bool, hasTexture: bool)

  // ----- the log -----

  datatype Event =
    | Painted(rects: seq<Rect>)
    | ReadBack(paint: IRect, readback: IRect)
    | Textured

  /** The rectangles some events append; a readback leaves an empty one to hold its place. */
  function RectsOf(events: seq<Event>): seq<Rect> {
    if events == [] then [] else
    RectsOf(events[..|events| - 1]) +
    match events[|events| - 1]
    case Painted(rects) => rects
    case ReadBack(_, _) => [EMPTY]
    case Textured => []
  }

  /** The readbacks, each with its position in the vector. */
  function ReadbacksOf(events: seq<Event>): seq<Readback> {
    if events == [] then [] else
    var before, e := events[..|events| - 1], events[|events| - 1];
    ReadbacksOf(before) + if e.ReadBack? then [Readback(|RectsOf(before)|, e.paint, e.readback)] else []
  }

  predicate ReadsBack(events: seq<Event>) {
    exists i :: 0 <= i < |events| && events[i].ReadBack?
  }

  lemma LogNext(events: seq<Event>, e: Event)
    ensures RectsOf(events + [e]) == RectsOf(events) + match e
                                                       case Painted(rects) => rects
                                                       case ReadBack(_, _) => [EMPTY]
                                                       case Textured => []
    ensures ReadbacksOf(events + [e]) ==
            ReadbacksOf(events) + if e.ReadBack? then [Readback(|RectsOf(events)|, e.paint, e.readback)] else []
    ensures ReadsBack(events + [e]) <==> ReadsBack(events) || e.ReadBack?
  {
    var all := events + [e];
    assert all[..|all| - 1] == events;
    assert all[|events|] == e && forall i :: 0 <= i < |events| ==> all[i] == events[i];
  }

  lemma {:induction false} RectsSplit(events: seq<Event>, k: nat)
    requires k <= |events|
    ensures RectsOf(events) == RectsOf(events[..k]) + RectsOf(events[k..])
  {
    if k == |events| {
      assert events[..k] == events && events[k..] == [];
    } else {
      var n := |events| - 1;
      RectsSplit(events[..n], k);
      assert events[..n][..k] == events[..k] && events[k..][..n - k] == events[..n][k..];
      assert events[k..][n - k] == events[n];
    }
  }

  predicate AnyFrom(readbacks: seq<Readback>, from: nat) {
    exists i :: 0 <= i < |readbacks| && readbacks[i].position >= from
  }

  lemma AnyFromNext(readbacks: seq<Readback>, r: Readback, from: nat)
    ensures AnyFrom(readbacks + [r], from) <==> AnyFrom(readbacks, from) || r.position >= from
  {
    var all := readbacks + [r];
    assert all[|readbacks|] == r && forall i :: 0 <= i < |readbacks| ==> all[i] == readbacks[i];
  }

  lemma {:induction false} ReadbacksInside(events: seq<Event>)
    ensures !AnyFrom(ReadbacksOf(events), |RectsOf(events)|)
  {
    if |events| > 0 {
      var n := |events| - 1;
      var before, e := events[..n], events[n];
      ReadbacksInside(before);
      assert before + [e] == events;
      LogNext(before, e);
      hide ReadbacksOf, RectsOf;
      if e.ReadBack? {
        AnyFromNext(ReadbacksOf(before), Readback(|RectsOf(before)|, e.paint, e.readback), |RectsOf(events)|);
      }
    }
  }

  /**
   A region is a slice of the log: it holds the rectangles appended in that slice, where
   they were appended, and reads back or holds a texture exactly if that happened in it.
   */
  ghost predicate Denotes(region: PaintRegion, rects: seq<Rect>, log: seq<Event>, start: nat, end: nat) {
    && start <= end <= |log|
    && region.from == |RectsOf(log[..start])| <= region.to == |RectsOf(log[..end])| <= |rects|
    && rects[region.from..region.to] == RectsOf(log[start..end])
    && (region.hasReadback <==> ReadsBack(log[start..end]))
    && (region.hasTexture <==> Textured in log[start..end])
  }

  /** Whatever is logged later, a region denotes the same rectangles. */
  lemma DenotesForever(region: PaintRegion, rects: seq<Rect>, log: seq<Event>, start: nat, end: nat,
                       rects': seq<Rect>, log': seq<Event>)
    requires Denotes(region, rects, log, start, end) && rects <= rects' && log <= log'
    ensures Denotes(region, rects', log', start, end)
  {
    hide RectsOf;
    assert log'[..start] == log[..start] && log'[..end] == log[..end] && log'[start..end] == log[start..end];
    assert rects'[region.from..region.to] == rects[region.from..region.to];
  }

  /** A readback lies at or after the place where a subtree began exactly if it happened inside it. */
  lemma {:induction false} ReadBackInside(events: seq<Event>, k: nat)
    requires k <= |events|
    ensures AnyFrom(ReadbacksOf(events), |RectsOf(events[..k])|) <==> ReadsBack(events[k..])
  {
    if k == |events| {
      ReadbacksInside(events);
      assert events[..k] == events;
    } else {
      hide ReadbacksOf, RectsOf, AnyFrom, ReadsBack;
      var n := |events| - 1;
      var before, e := events[..n], events[n];
      assert before + [e] == events;
      LogNext(before, e);
      ReadBackInside(before, k);
      assert before[..k] == events[..k] && events[k..] == before[k..] + [e];
      LogNext(before[k..], e);
      if e.ReadBack? {
        RectsSplit(before, k);
        AnyFromNext(ReadbacksOf(before), Readback(|RectsOf(before)|, e.paint, e.readback), |RectsOf(events[..k])|);
      } else {
        assert ReadbacksOf(events) == ReadbacksOf(before);
      }
    }
  }

  // ----- open subtrees -----

  /** What was in force when a subtree began, and where in the log it began. */
  datatype Scope = Scope(start: nat, before: State, filters: seq<Adjustment>, saves: nat)

  /** A subtree's state against its place in the log. */
  ghost predicate StateOk(s: State, start: nat, log: seq<Event>) {
    && start <= |log|
    && s.rectIndex == |RectsOf(log[..start])|
    && (s.hasTexture <==> Textured in log[start..])
  }

  ghost function StartOf(scopes: seq<Scope>, k: nat): nat
    requires k <= |scopes|
  {
    if k == 0 then 0 else scopes[k - 1].start
  }

  /** The current subtree and every one around it agree with the log. */
  ghost predicate InStep(scopes: seq<Scope>, state: State, stack: seq<State>, log: seq<Event>)
    decreases |scopes|
  {
    && |stack| == |scopes|
    && StateOk(state, StartOf(scopes, |scopes|), log)
    && (scopes != [] ==>
          var n := |scopes| - 1;
          StartOf(scopes, n) <= scopes[n].start && InStep(scopes[..n], stack[n], stack[..n], log))
  }

  /** Every scope remembers what its end has to bring back. */
  ghost predicate Brings(scopes: seq<Scope>, state: State, stack: seq<State>, filters: seq<Adjustment>, saves: nat)
    decreases |scopes|
  {
    var own := if state.hasFilterBoundsAdjustment then 1 else 0;
    && |stack| == |scopes| && saves >= 1
    && if scopes == [] then |filters| == own else
       var n := |scopes| - 1;
       var scope, outer := scopes[n], stack[n];
       && outer == scope.before.(hasTexture := outer.hasTexture)
       && (scope.before.hasTexture ==> outer.hasTexture)
       && 1 <= scope.saves == state.clipTrackerSaveCount <= saves
       && |filters| == |scope.filters| + own && scope.filters <= filters
       && Brings(scopes[..n], outer, stack[..n], scope.filters, scope.saves)
  }

  function TexturedBy(s: State, e: Event): State {
    if e == Textured then s.(hasTexture := true) else s
  }

  lemma StateOkNext(s: State, start: nat, log: seq<Event>, e: Event)
    requires StateOk(s, start, log)
    ensures StateOk(TexturedBy(s, e), start, log + [e])
  {
    assert (log + [e])[..start] == log[..start] && (log + [e])[start..] == log[start..] + [e];
  }

  ghost predicate MarkedBy(e: Event, stack: seq<State>, marked: seq<State>) {
    |marked| == |stack| && forall k :: 0 <= k < |stack| ==> marked[k] == TexturedBy(stack[k], e)
  }

  lemma {:induction false} InStepNext(scopes: seq<Scope>, state: State, stack: seq<State>, log: seq<Event>,
                                      e: Event, marked: seq<State>)
    requires InStep(scopes, state, stack, log) && MarkedBy(e, stack, marked)
    ensures InStep(scopes, TexturedBy(state, e), marked, log + [e])
    decreases |scopes|
  {
    hide StateOk;
    StateOkNext(state, StartOf(scopes, |scopes|), log, e);
    if scopes != [] {
      var n := |scopes| - 1;
      InStepNext(scopes[..n], stack[n], stack[..n], log, e, marked[..n]);
    }
  }

  lemma {:induction false} BringsMarked(scopes: seq<Scope>, state: State, stack: seq<State>, filters: seq<Adjustment>,
                                        saves: nat, e: Event, marked: seq<State>)
    requires Brings(scopes, state, stack, filters, saves) && MarkedBy(e, stack, marked)
    ensures Brings(scopes, TexturedBy(state, e), marked, filters, saves)
    decreases |scopes|
  {
    if scopes != [] {
      var n := |scopes| - 1;
      BringsMarked(scopes[..n], stack[n], stack[..n], scopes[n].filters, scopes[n].saves, e, marked[..n]);
    }
  }

  /** A texture mark inside a subtree is also inside the one around it. */
  lemma TextureOutward(scopes: seq<Scope>, state: State, stack: seq<State>, log: seq<Event>)
    requires InStep(scopes, state, stack, log) && scopes != []
    ensures state.hasTexture ==> stack[|stack| - 1].hasTexture
    ensures InStep(scopes[..|scopes| - 1], stack[|stack| - 1], stack[..|stack| - 1], log)
  {
    var n := |scopes| - 1;
    var outer, inner := StartOf(scopes, n), scopes[n].start;
    assert StartOf(scopes[..n], n) == outer;
    assert log[outer..][inner - outer..] == log[inner..];
  }

  lemma SameHeight(scopes: seq<Scope>, state: State, stack: seq<State>, filters: seq<Adjustment>, saves: nat)
    requires Brings(scopes, state, stack, filters, saves)
    ensures |stack| == |scopes|
  {
  }

  lemma SubtreeEnded(scopes: seq<Scope>, state: State, stack: seq<State>, filters: seq<Adjustment>, saves: nat)
    requires Brings(scopes, state, stack, filters, saves) && scopes != []
    ensures var n := |scopes| - 1;
            var scope := scopes[n];
            && |stack| == |scopes|
            && state.clipTrackerSaveCount == scope.saves && 1 <= scope.saves <= saves
            && (state.hasFilterBoundsAdjustment ==> filters != [])
            && scope.filters == (if state.hasFilterBoundsAdjustment then filters[..|filters| - 1] else filters)
            && stack[n] == scope.before.(hasTexture := stack[n].hasTexture)
            && (scope.before.hasTexture ==> stack[n].hasTexture)
            && Brings(scopes[..n], stack[n], stack[..n], scope.filters, scope.saves)
  {
  }

  lemma SubtreeBegun(scopes: seq<Scope>, state: State, stack: seq<State>, log: seq<Event>,
                     filters: seq<Adjustment>, saves: nat, rects: seq<Rect>)
    requires InStep(scopes, state, stack, log) && Brings(scopes, state, stack, filters, saves)
    requires rects == RectsOf(log)
    ensures var scopes' := scopes + [Scope(|log|, state, filters, saves)];
            var state' := State(state.dirty, |rects|, false, saves, false, false);
            InStep(scopes', state', stack + [state], log) && Brings(scopes', state', stack + [state], filters, saves + 1)
  {
    var scopes' := scopes + [Scope(|log|, state, filters, saves)];
    assert scopes'[..|scopes|] == scopes && (stack + [state])[..|stack|] == stack;
    assert log[..|log|] == log;
  }

  function Joined(damage: Rect, rects: seq<Rect>): Rect {
    if rects == [] then damage else Join(Joined(damage, rects[..|rects| - 1]), rects[|rects| - 1])
  }

  /** Damage is never lost: every rectangle added stays covered. */
  lemma {:induction false} JoinedCovers(damage: Rect, rects: seq<Rect>, x: int, y: int)
    ensures Touches(damage, x, y) ==> Touches(Joined(damage, rects), x, y)
    ensures forall i :: 0 <= i < |rects| && Touches(rects[i], x, y) ==> Touches(Joined(damage, rects), x, y)
  {
    if rects != [] {
      var n := |rects| - 1;
      JoinedCovers(damage, rects[..n], x, y);
      JoinTouches(Joined(damage, rects[..n]), rects[n], x, y);
      assert forall i :: 0 <= i < n ==> rects[..n][i] == rects[i];
    }
  }

  /** The adjustments of the enclosing filters, innermost first. */
  function Adjusted(filters: seq<Adjustment>, rect: Rect): Rect {
    if filters == [] then rect
    else Adjusted(filters[..|filters| - 1], filters[|filters| - 1](rect))
  }

  // ----- trees -----

  datatype Node =
    | Layer(mapped: Rect, snapped: Rect, cull: Rect)
    | Unchanged(region: seq<Rect>)
    | Changed(previous: seq<Rect>)
    | Backdrop(paint: IRect, readback: IRect)
    | Texture
    | Integral
    | Filtered(filter: Adjustment)
    | Subtree(children: seq<Node>)

  // ----- what a tree stands for -----

  /** What is in force for a layer: the filters, and the marks of the subtree it is in. */
  datatype Context = Context(filters: seq<Adjustment>, dirty: bool, integral: bool, hasFilter: bool)

  /** What some layers log and damage, in order, and what is in force after them. */
  datatype Meaning = Meaning(events: seq<Event>, damaged: seq<Rect>, after: Context)

  function InSubtree(c: Context): Context { c.(integral := false, hasFilter := false) }

  function MeantBy(node: Node, c: Context): Meaning
    decreases node
  {
    match node
    case Layer(mapped, snapped, cull) =>
      var bounds := Adjusted(c.filters, if c.integral then snapped else mapped);
      if Intersects(Adjusted(c.filters, mapped), cull) then
        Meaning([Painted([bounds])], if c.dirty then [bounds] else [], c)
      else
        Meaning([], [], c)
    case Unchanged(region) => Meaning(if c.dirty then [] else [Painted(region)], [], c)
    case Changed(previous) => Meaning([], if c.dirty then [] else previous, c.(dirty := true))
    case Backdrop(paint, readback) => Meaning([ReadBack(paint, readback)], [], c)
    case Texture => Meaning([Textured], [], c)
    case Integral => Meaning([], [], c.(integral := true))
    case Filtered(filter) =>
      Meaning([], [], if c.hasFilter then c else c.(filters := c.filters + [filter], hasFilter := true))
    case Subtree(children) => Meant(children, InSubtree(c)).(after := c)
  }

  function Meant(nodes: seq<Node>, c: Context): Meaning
    decreases nodes
  {
    if nodes == [] then Meaning([], [], c) else
    var before := Meant(nodes[..|nodes| - 1], c);
    var last := MeantBy(nodes[|nodes| - 1], before.after);
    Meaning(before.events + last.events, before.damaged + last.damaged, last.after)
  }

  /** Where in the log the subtrees below lie, inner ones first, from `at` on. */
  function SpansOf(nodes: seq<Node>, c: Context, at: nat): seq<(nat, nat)>
    decreases nodes
  {
    if nodes == [] then [] else
    var before := Meant(nodes[..|nodes| - 1], c);
    var from := at + |before.events|;
    SpansOf(nodes[..|nodes| - 1], c, at) +
    match nodes[|nodes| - 1]
    case Subtree(children) =>
      SpansOf(children, InSubtree(before.after), from) + [(from, from + |Meant(children, InSubtree(before.after)).events|)]
    case _ => []
  }

  lemma MeantNone(c: Context, at: nat)
    ensures Meant([], c) == Meaning([], [], c) && SpansOf([], c, at) == []
  {
  }

  lemma MeantNext(nodes: seq<Node>, i: nat, c: Context)
    requires i < |nodes|
    ensures var before, node := Meant(nodes[..i], c), nodes[i];
            var own := MeantBy(node, before.after);
            Meant(nodes[..i + 1], c) == Meaning(before.events + own.events, before.damaged + own.damaged, own.after)
  {
    assert nodes[..i + 1][..i] == nodes[..i];
  }

  lemma SpansNext(nodes: seq<Node>, i: nat, c: Context, at: nat)
    requires i < |nodes|
    ensures var before, node := Meant(nodes[..i], c), nodes[i];
            var from := at + |before.events|;
            SpansOf(nodes[..i + 1], c, at) == SpansOf(nodes[..i], c, at) +
                if node.Subtree? then
                  SpansOf(node.children, InSubtree(before.after), from) +
                  [(from, from + |Meant(node.children, InSubtree(before.after)).events|)]
                else []
  {
    hide MeantBy, Meant;
    assert nodes[..i + 1][..i] == nodes[..i];
  }

  lemma {:induction false} JoinedMore(damage: Rect, first: seq<Rect>, second: seq<Rect>)
    ensures Joined(Joined(damage, first), second) == Joined(damage, first + second)
  {
    if second == [] {
      assert first + second == first;
    } else {
      var n := |second| - 1;
      JoinedMore(damage, first, second[..n]);
      assert (first + second)[..|first + second| - 1] == first + second[..n];
    }
  }

  lemma JoinedNone(damage: Rect)
    ensures Joined(damage, []) == damage
  {
  }

  predicate Within(r: PaintRegion, from: nat, to: nat) { from <= r.from <= r.to <= to }

  predicate AllWithin(regions: seq<PaintRegion>, from: nat, to: nat) {
    forall i :: 0 <= i < |regions| ==> Within(regions[i], from, to)
  }

  /** Of two regions, one lies in the other or they are apart. */
  predicate NestedOrApart(r: PaintRegion, s: PaintRegion) {
    Within(r, s.from, s.to) || Within(s, r.from, r.to) || r.to <= s.from || s.to <= r.from
  }

  predicate Laminar(regions: seq<PaintRegion>) {
    forall i, j :: 0 <= i < j < |regions| ==> NestedOrApart(regions[i], regions[j])
  }

  /** How many subtrees there are among some nodes and below. */
  function SubtreesIn(nodes: seq<Node>): nat
    decreases nodes
  {
    if nodes == [] then 0 else
    var last := nodes[|nodes| - 1];
    SubtreesIn(nodes[..|nodes| - 1]) + match last
                                       case Subtree(children) => SubtreesIn(children) + 1
                                       case _ => 0
  }

  lemma NoSubtrees()
    ensures SubtreesIn([]) == 0
  {
  }

  lemma OneMoreChild(nodes: seq<Node>, i: nat)
    requires i < |nodes|
    ensures SubtreesIn(nodes[..i + 1]) ==
            SubtreesIn(nodes[..i]) + if nodes[i].Subtree? then SubtreesIn(nodes[i].children) + 1 else 0
  {
    assert nodes[..i + 1][..i] == nodes[..i];
  }

  /** Each region denotes its own span of the log, none of it from before `start`. */
  ghost predicate AllDenote(regions: seq<PaintRegion>, spans: seq<(nat, nat)>, rects: seq<Rect>, log: seq<Event>,
                            start: nat)
  {
    && |spans| == |regions|
    && forall i :: 0 <= i < |regions| ==>
         start <= spans[i].0 && Denotes(regions[i], rects, log, spans[i].0, spans[i].1)
  }

  lemma NoneDenote(rects: seq<Rect>, log: seq<Event>, start: nat)
    ensures AllDenote([], [], rects, log, start)
  {
  }

  lemma AllDenoteLater(regions: seq<PaintRegion>, spans: seq<(nat, nat)>, rects: seq<Rect>, log: seq<Event>,
                       rects': seq<Rect>, log': seq<Event>, start: nat)
    requires AllDenote(regions, spans, rects, log, start) && rects <= rects' && log <= log'
    ensures AllDenote(regions, spans, rects', log', start)
  {
    hide Denotes;
    forall i | 0 <= i < |regions| ensures Denotes(regions[i], rects', log', spans[i].0, spans[i].1) {
      DenotesForever(regions[i], rects, log, spans[i].0, spans[i].1, rects', log');
    }
  }

  lemma AllDenoteMore(before: seq<PaintRegion>, spans: seq<(nat, nat)>, below: seq<PaintRegion>, belowSpans: seq<(nat, nat)>,
                      child: PaintRegion, rects: seq<Rect>, log: seq<Event>, start: nat, mid: nat)
    requires AllDenote(before, spans, rects, log, start) && AllDenote(below, belowSpans, rects, log, mid)
    requires start <= mid && Denotes(child, rects, log, mid, |log|)
    ensures AllDenote(before + below + [child], spans + belowSpans + [(mid, |log|)], rects, log, start)
  {
    hide Denotes;
  }

  lemma DenotesWhere(region: PaintRegion, rects: seq<Rect>, log: seq<Event>, start: nat, before: seq<Event>)
    requires Denotes(region, rects, log, start, |log|) && before <= log && start == |before|
    ensures region.from == |RectsOf(before)| && region.to == |RectsOf(log)|
  {
    assert log[..start] == before && log[..|log|] == log;
  }

  lemma NoneInside(from: nat)
    ensures Laminar([]) && AllWithin([], from, from)
  {
  }

  lemma StillWithin(regions: seq<PaintRegion>, from: nat, mid: nat, to: nat)
    requires AllWithin(regions, from, mid) && mid <= to
    ensures AllWithin(regions, from, to)
  {
  }

  /** A finished subtree lies after all that came before it and around all inside it. */
  lemma LaminarGrows(before: seq<PaintRegion>, below: seq<PaintRegion>, child: PaintRegion, from: nat, mid: nat)
    requires Laminar(before) && AllWithin(before, from, mid) && from <= mid
    requires Laminar(below) && AllWithin(below, child.from, child.to) && child.from == mid <= child.to
    ensures Laminar(before + below + [child]) && AllWithin(before + below + [child], from, child.to)
  {
    var all := before + below + [child];
    forall i, j | 0 <= i < j < |all| ensures NestedOrApart(all[i], all[j]) {
      if j < |before| {
        assert NestedOrApart(before[i], before[j]);
      } else if i >= |before| && j < |before| + |below| {
        assert NestedOrApart(below[i - |before|], below[j - |before|]);
      }
    }
  }

  class DiffContext {
    const size: Size
    var rects: seq<Rect>
    var state: State
    var stateStack: seq<State>
    var filters: seq<Adjustment>
    var readbacks: seq<Readback>
    var damage: Rect
    // The save count of the clip tracker.
    var saves: nat
    ghost var log: seq<Event>
    ghost var scopes: seq<Scope>

    ghost predicate Valid()
      reads this
    {
      && rects == RectsOf(log)
      && readbacks == ReadbacksOf(log)
      && InStep(scopes, state, stateStack, log)
      && Brings(scopes, state, stateStack, filters, saves)
    }

    function InForce(): Context
      reads this
    {
      Context(filters, state.dirty, state.integralTransform, state.hasFilterBoundsAdjustment)
    }

    constructor (size: Size)
      ensures Valid() && this.size == size
      ensures log == [] && scopes == [] && damage == EMPTY && rects == []
    {
      this.size := size;
      rects, state, stateStack := [], State(false, 0, false, 0, false, false), [];
      filters, readbacks, damage, saves := [], [], EMPTY, 1;
      log, scopes := [], [];
    }

    method BeginSubtree()
      requires Valid()
      modifies this
      ensures Valid() && log == old(log) && rects == old(rects) && damage == old(damage)
      ensures scopes == old(scopes) + [Scope(|log|, old(state), old(filters), old(saves))]
      ensures filters == old(filters)
      ensures state == State(old(state).dirty, |rects|, false, old(saves), false, false)
    {
      hide InStep;
      hide Brings;
      SubtreeBegun(scopes, state, stateStack, log, filters, saves, rects);
      stateStack := stateStack + [state];
      scopes := scopes + [Scope(|log|, state, filters, saves)];
      state := State(state.dirty, |rects|, false, saves, false, false);
      saves := saves + 1;
    }

    /** All modifications of the subtree are undone; only a texture mark is passed on. */
    method EndSubtree()
      requires Valid() && stateStack != []
      modifies this
      ensures Valid() && log == old(log) && rects == old(rects) && damage == old(damage)
      ensures var scope := old(scopes)[|old(scopes)| - 1];
              && scopes == old(scopes)[..|old(scopes)| - 1]
              && filters == scope.filters && saves == scope.saves
              && state == scope.before.(hasTexture := state.hasTexture)
              && (scope.before.hasTexture || old(state).hasTexture ==> state.hasTexture)
    {
      hide InStep, Brings, RectsOf, ReadbacksOf;
      SameHeight(scopes, state, stateStack, filters, saves);
      TextureOutward(scopes, state, stateStack, log);
      SubtreeEnded(scopes, state, stateStack, filters, saves);
      var kept := if state.hasFilterBoundsAdjustment then filters[..|filters| - 1] else filters;
      var count := MaxI(state.clipTrackerSaveCount, 1);
      var top := |stateStack| - 1;
      state, stateStack, filters, saves, scopes :=
        stateStack[top], stateStack[..top], kept, if count < saves then count else saves, scopes[..top];
    }

    method WillPaintWithIntegralTransform()
      requires Valid()
      modifies `state
      ensures Valid() && state == old(state).(integralTransform := true)
    {
      hide RectsOf, ReadbacksOf;
      state := state.(integralTransform := true);
    }

    method PushFilterBoundsAdjustment(filter: Adjustment)
      requires Valid() && !state.hasFilterBoundsAdjustment
      modifies `state, `filters
      ensures Valid() && filters == old(filters) + [filter]
      ensures state == old(state).(hasFilterBoundsAdjustment := true)
    {
      hide RectsOf;
      hide ReadbacksOf;
      state := state.(hasFilterBoundsAdjustment := true);
      filters := filters + [filter];
    }

    method ApplyFilterBoundsAdjustment(rect: Rect) returns (r: Rect)
      ensures r == Adjusted(filters, rect)
    {
      r := rect;
      var i := |filters|;
      assert filters[..i] == filters;
      while i > 0
        invariant 0 <= i <= |filters|
        invariant Adjusted(filters[..i], r) == Adjusted(filters, rect)
      {
        i := i - 1;
        assert filters[..i + 1][..i] == filters[..i];
        r := filters[i](r);
      }
    }

    /** Adds an event that marks no texture to the log. */
    ghost method Log(e: Event)
      requires e != Textured && InStep(scopes, state, stateStack, log)
      modifies `log
      ensures log == old(log) + [e] && InStep(scopes, state, stateStack, log)
      ensures RectsOf(log) == RectsOf(old(log)) + if e.Painted? then e.rects else [EMPTY]
      ensures ReadbacksOf(log) ==
              ReadbacksOf(old(log)) + if e.ReadBack? then [Readback(|RectsOf(old(log))|, e.paint, e.readback)] else []
    {
      hide InStep, RectsOf, ReadbacksOf, ReadsBack;
      LogNext(log, e);
      InStepNext(scopes, state, stateStack, log, e, stateStack);
      log := log + [e];
    }

    method AddDamage(added: seq<Rect>)
      modifies `damage
      ensures damage == Joined(old(damage), added)
    {
      for i := 0 to |added|
        invariant damage == Joined(old(damage), added[..i])
      {
        assert added[..i + 1][..i] == added[..i];
        damage := Join(damage, added[i]);
      }
      assert added[..|added|] == added;
    }

    /** The bounds of a layer: `mapped` under the transform in force, `snapped` under the integral one. */
    method AddLayerBounds(mapped: Rect, snapped: Rect, cull: Rect)
      requires Valid()
      modifies `rects, `damage, `log
      ensures Valid()
      ensures var bounds := Adjusted(filters, if state.integralTransform then snapped else mapped);
              if Intersects(Adjusted(filters, mapped), cull) then
                && log == old(log) + [Painted([bounds])] && rects == old(rects) + [bounds]
                && damage == if state.dirty then Join(old(damage), bounds) else old(damage)
              else log == old(log) && rects == old(rects) && damage == old(damage)
    {
      hide InStep;
      hide Brings;
      hide RectsOf;
      hide ReadbacksOf;
      var transformed := ApplyFilterBoundsAdjustment(mapped);
      if Intersects(transformed, cull) {
        if state.integralTransform {
          transformed := ApplyFilterBoundsAdjustment(snapped);
        }
        rects := rects + [transformed];
        Log(Painted([transformed]));
        if state.dirty {
          damage := Join(damage, transformed);
        }
      }
    }

    method AddExistingPaintRegion(region: seq<Rect>)
      requires Valid() && !state.dirty
      modifies `rects, `log
      ensures Valid() && log == old(log) + [Painted(region)] && rects == old(rects) + region
    {
      hide InStep;
      hide Brings;
      hide RectsOf;
      hide ReadbacksOf;
      rects := rects + region;
      Log(Painted(region));
    }

    method AddReadbackRegion(paint: IRect, readback: IRect)
      requires Valid()
      modifies `rects, `readbacks, `log
      ensures Valid() && log == old(log) + [ReadBack(paint, readback)] && rects == old(rects) + [EMPTY]
      ensures readbacks == old(readbacks) + [Readback(|old(rects)|, paint, readback)]
    {
      hide InStep;
      hide Brings;
      hide RectsOf;
      hide ReadbacksOf;
      readbacks := readbacks + [Readback(|rects|, paint, readback)];
      rects := rects + [EMPTY];
      Log(ReadBack(paint, readback));
    }

    method MarkSubtreeDirty(previous: seq<Rect>)
      requires Valid() && !state.dirty
      modifies `state, `damage
      ensures Valid() && state == old(state).(dirty := true) && damage == Joined(old(damage), previous)
    {
      hide RectsOf;
      hide ReadbacksOf;
      AddDamage(previous);
      state := state.(dirty := true);
    }

    method MarkSubtreeHasTextureLayer()
      requires Valid()
      modifies `state, `stateStack, `log
      ensures Valid() && log == old(log) + [Textured]
      ensures state == old(state).(hasTexture := true)
    {
      hide InStep;
      hide Brings;
      hide RectsOf;
      hide ReadbacksOf;
      LogNext(log, Textured);
      for i := 0 to |stateStack|
        invariant log == old(log) && state == old(state) && |stateStack| == |old(stateStack)|
        invariant forall k :: 0 <= k < i ==> stateStack[k] == old(stateStack)[k].(hasTexture := true)
        invariant forall k :: i <= k < |stateStack| ==> stateStack[k] == old(stateStack)[k]
      {
        stateStack := stateStack[i := stateStack[i].(hasTexture := true)];
      }
      assert MarkedBy(Textured, old(stateStack), stateStack);
      InStepNext(scopes, state, old(stateStack), log, Textured, stateStack);
      BringsMarked(scopes, state, old(stateStack), filters, saves, Textured, stateStack);
      state := state.(hasTexture := true);
      log := log + [Textured];
    }

    /** The current subtree's region: its own rectangles, and whether it reads back or holds a texture. */
    method CurrentSubtreeRegion() returns (region: PaintRegion)
      requires Valid()
      ensures Denotes(region, rects, log, StartOf(scopes, |scopes|), |log|)
    {
      hide Brings, RectsOf, ReadbacksOf, ReadsBack;
      ghost var start := StartOf(scopes, |scopes|);
      assert StateOk(state, start, log);
      hide InStep;
      RectsSplit(log, start);
      ReadBackInside(log, start);
      var hasReadback := exists i :: 0 <= i < |readbacks| && readbacks[i].position >= state.rectIndex;
      region := PaintRegion(state.rectIndex, |rects|, hasReadback, state.hasTexture);
      assert log[start..|log|] == log[start..] && log[..|log|] == log;
    }

    /** One layer's own additions to the subtree it is in. */
    method Visit(node: Node)
      requires Valid() && !node.Subtree?
      modifies this
      ensures Valid() && scopes == old(scopes)
      ensures old(rects) <= rects
      ensures var meant := MeantBy(node, old(InForce()));
              && log == old(log) + meant.events
              && damage == Joined(old(damage), meant.damaged)
              && InForce() == meant.after
    {
      hide InStep, Brings, RectsOf, ReadbacksOf;
      match node
      case Layer(mapped, snapped, cull) => AddLayerBounds(mapped, snapped, cull);
      case Unchanged(region) =>
        if !state.dirty {
          AddExistingPaintRegion(region);
        }
      case Changed(previous) =>
        if !state.dirty {
          MarkSubtreeDirty(previous);
        }
      case Backdrop(paint, readback) => AddReadbackRegion(paint, readback);
      case Texture => MarkSubtreeHasTextureLayer();
      case Integral => WillPaintWithIntegralTransform();
      case Filtered(filter) =>
        if !state.hasFilterBoundsAdjustment {
          PushFilterBoundsAdjustment(filter);
        }
    }

    /**
     A whole subtree: it is begun, walked and ended, and with it every subtree
     inside.  Its region is what was logged meanwhile, no more and no less, and so is
     each region inside, one for each subtree there, with its own span of the log;
     the regions inside are nested in it and in each other or apart; and all that was
     in force before is in force again.
     */
    method Walk(node: Node) returns (region: PaintRegion, inner: seq<PaintRegion>, ghost spans: seq<(nat, nat)>)
      requires Valid() && node.Subtree?
      modifies this
      ensures Valid() && scopes == old(scopes) && filters == old(filters) && saves == old(saves)
      ensures state == old(state).(hasTexture := state.hasTexture)
      ensures var meant := Meant(node.children, InSubtree(old(InForce())));
              && log == old(log) + meant.events
              && damage == Joined(old(damage), meant.damaged)
      ensures spans == SpansOf(node.children, InSubtree(old(InForce())), |old(log)|)
      ensures old(rects) <= rects
      ensures region.from == |old(rects)| && region.to == |rects|
      ensures Denotes(region, rects, log, |old(log)|, |log|)
      ensures AllDenote(inner, spans, rects, log, |old(log)|)
      ensures |inner| == SubtreesIn(node.children)
      ensures Laminar(inner) && AllWithin(inner, region.from, region.to)
      decreases node
    {
      hide InStep, Brings, RectsOf, ReadbacksOf, Laminar, AllWithin, AllDenote, Denotes, SubtreesIn;
      hide Meant, SpansOf, Joined;
      BeginSubtree();
      ghost var inside := InForce();
      MeantNone(inside, |old(log)|);
      JoinedNone(damage);
      ghost var open, from := scopes, |rects|;
      inner, spans := [], [];
      NoneInside(from);
      NoneDenote(rects, log, |old(log)|);
      NoSubtrees();
      for i := 0 to |node.children|
        invariant Valid() && scopes == open
        invariant old(rects) <= rects
        invariant log == old(log) + Meant(node.children[..i], inside).events
        invariant damage == Joined(old(damage), Meant(node.children[..i], inside).damaged)
        invariant InForce() == Meant(node.children[..i], inside).after
        invariant spans == SpansOf(node.children[..i], inside, |old(log)|)
        invariant Laminar(inner) && AllWithin(inner, from, |rects|)
        invariant AllDenote(inner, spans, rects, log, |old(log)|)
        invariant |inner| == SubtreesIn(node.children[..i])
      {
        ghost var rects0, log0 := rects, log;
        ghost var before := Meant(node.children[..i], inside);
        OneMoreChild(node.children, i);
        MeantNext(node.children, i, inside);
        SpansNext(node.children, i, inside, |old(log)|);
        JoinedMore(old(damage), before.damaged, MeantBy(node.children[i], before.after).damaged);
        if node.children[i].Subtree? {
          var child, below, belowSpans := Walk(node.children[i]);
          LaminarGrows(inner, below, child, from, |rects0|);
          AllDenoteLater(inner, spans, rects0, log0, rects, log, |old(log)|);
          AllDenoteMore(inner, spans, below, belowSpans, child, rects, log, |old(log)|, |log0|);
          inner, spans := inner + below + [child], spans + belowSpans + [(|log0|, |log|)];
        } else {
          Visit(node.children[i]);
          StillWithin(inner, from, |rects0|, |rects|);
          AllDenoteLater(inner, spans, rects0, log0, rects, log, |old(log)|);
        }
      }
      assert node.children[..|node.children|] == node.children;
      region := CurrentSubtreeRegion();
      DenotesWhere(region, rects, log, |old(log)|, old(log));
      SameHeight(scopes, state, stateStack, filters, saves);
      EndSubtree();
    }

    method ComputeDamage(existing: IRect, horizontal: int, vertical: int) returns (result: Damage)
      requires AlignmentOk(horizontal, vertical)
      ensures result == DamageOf(damage, readbacks, existing, size, horizontal, vertical)
    {
      var buffer, frame := Join(OfInts(existing), damage), damage;
      for i := 0 to |readbacks|
        invariant frame == FrameDamageOf(damage, readbacks[..i])
        invariant buffer == BufferDamageOf(damage, readbacks[..i], existing)
      {
        assert readbacks[..i + 1][..i] == readbacks[..i];
        var r := readbacks[i];
        if Intersects(OfInts(r.paint), frame) || Intersects(OfInts(r.readback), frame) {
          frame := Join(Join(frame, OfInts(r.readback)), OfInts(r.paint));
          buffer := Join(Join(buffer, OfInts(r.readback)), OfInts(r.paint));
        }
      }
      assert readbacks[..|readbacks|] == readbacks;
      var clippedBuffer := IntersectI(RoundOut(buffer), FrameRect(size));
      var clippedFrame := IntersectI(RoundOut(frame), FrameRect(size));
      if horizontal > 1 || vertical > 1 {
        clippedBuffer := AlignRect(clippedBuffer, size, horizontal, vertical);
        clippedFrame := AlignRect(clippedFrame, size, horizontal, vertical);
      }
      result := Damage(clippedFrame, clippedBuffer);
    }
  }
}
