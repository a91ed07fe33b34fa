/**
 What the diff of a tree gathers, said about the nodes of the tree.

 `Diff.Meant` folds over the layers as they are visited.  Here the same is said
 without it: which rectangles a region holds and in what order, which of them are
 damage, and what is below that a retained region has to remember.
 */
module DiffTrees {
  import opened Rects
  import opened Diff
  import Damage

  // ----- what is in force after some layers of a subtree -----

  predicate AnyChanged(nodes: seq<Node>) { exists i :: 0 <= i < |nodes| && nodes[i].Changed? }

  predicate AnyIntegral(nodes: seq<Node>) { exists i :: 0 <= i < |nodes| && nodes[i].Integral? }

  /** A subtree has one filter, the first that is set. */
  function FirstFilter(nodes: seq<Node>): seq<Adjustment> {
    if nodes == [] then []
    else if nodes[0].Filtered? then [nodes[0].filter]
    else FirstFilter(nodes[1..])
  }

  function After(nodes: seq<Node>, c: Context): Context {
    var filter := if c.hasFilter then [] else FirstFilter(nodes);
    Context(c.filters + filter, c.dirty || AnyChanged(nodes), c.integral || AnyIntegral(nodes),
            c.hasFilter || filter != [])
  }

  lemma FirstFilterNext(nodes: seq<Node>, node: Node)
    ensures FirstFilter(nodes + [node]) ==
            if FirstFilter(nodes) == [] && node.Filtered? then [node.filter] else FirstFilter(nodes)
  {
    var all := nodes + [node];
    if nodes == [] {
      assert all[0] == node && FirstFilter(all[1..]) == [];
    } else {
      assert all[1..] == nodes[1..] + [node] && all[0] == nodes[0];
      FirstFilterNext(nodes[1..], node);
    }
  }

  lemma AnyNext(nodes: seq<Node>, node: Node)
    ensures AnyChanged(nodes + [node]) <==> AnyChanged(nodes) || node.Changed?
    ensures AnyIntegral(nodes + [node]) <==> AnyIntegral(nodes) || node.Integral?
  {
    var all := nodes + [node];
    assert all[|nodes|] == node && forall i :: 0 <= i < |nodes| ==> all[i] == nodes[i];
  }

  lemma AfterNext(nodes: seq<Node>, node: Node, c: Context)
    ensures After(nodes + [node], c) == MeantBy(node, After(nodes, c)).after
  {
    hide Meant, AnyChanged, AnyIntegral, FirstFilter;
    FirstFilterNext(nodes, node);
    AnyNext(nodes, node);
    if c.hasFilter || FirstFilter(nodes) == [] {
      assert c.filters + [] == c.filters;
    }
  }

  /** Dirt, snapping and the filter last to the end of the subtree they are set in, and no longer. */
  lemma {:induction false} InForceExactly(nodes: seq<Node>, c: Context)
    ensures Meant(nodes, c).after == After(nodes, c)
  {
    if nodes != [] {
      hide MeantBy, After;
      var n := |nodes| - 1;
      InForceExactly(nodes[..n], c);
      assert nodes[..n] + [nodes[n]] == nodes;
      AfterNext(nodes[..n], nodes[n], c);
    } else {
      assert c.filters + [] == c.filters;
    }
  }

  // ----- in what order -----

  /** What one layer adds to the rectangles and marks of its subtree, given what is in force. */
  predicate Adds(node: Node, c: Context, own: seq<Event>) {
    match node
    case Layer(mapped, snapped, cull) =>
      && (!Intersects(Adjusted(c.filters, mapped), cull) ==> own == [])
      && (Intersects(Adjusted(c.filters, mapped), cull) && !c.integral ==> own == [Painted([Adjusted(c.filters, mapped)])])
      && (Intersects(Adjusted(c.filters, mapped), cull) && c.integral ==> own == [Painted([Adjusted(c.filters, snapped)])])
    case Unchanged(region) => if c.dirty then own == [] else own == [Painted(region)]
    case Backdrop(paint, readback) => own == [ReadBack(paint, readback)]
    case Texture => own == [Textured]
    case Subtree(children) => own == Meant(children, Context(c.filters, c.dirty, false, false)).events
    case _ => own == []
  }

  predicate AddsDamage(node: Node, c: Context, own: seq<Rect>) {
    match node
    case Layer(mapped, snapped, cull) =>
      if c.dirty && Intersects(Adjusted(c.filters, mapped), cull) then
        own == [Adjusted(c.filters, if c.integral then snapped else mapped)]
      else
        own == []
    case Changed(previous) => if c.dirty then own == [] else own == previous
    case Subtree(children) => own == Meant(children, Context(c.filters, c.dirty, false, false)).damaged
    case _ => own == []
  }

  /** Each layer's own part comes right after that of the layers before it, and nothing takes it away. */
  lemma {:induction false} EachInItsPlace(nodes: seq<Node>, c: Context, i: nat)
    requires i < |nodes|
    ensures var before, upTo, all := Meant(nodes[..i], c), Meant(nodes[..i + 1], c), Meant(nodes, c);
            && before.events <= upTo.events <= all.events
            && before.damaged <= upTo.damaged <= all.damaged
            && Adds(nodes[i], After(nodes[..i], c), upTo.events[|before.events|..])
            && AddsDamage(nodes[i], After(nodes[..i], c), upTo.damaged[|before.damaged|..])
    decreases |nodes|
  {
    hide After;
    MeantNext(nodes, i, c);
    InForceExactly(nodes[..i], c);
    Placed(nodes[i], After(nodes[..i], c), Meant(nodes[..i], c));
    var n := |nodes| - 1;
    assert nodes[..n + 1] == nodes;
    if i < n {
      MeantNext(nodes, n, c);
      EachInItsPlace(nodes[..n], c, i);
      assert nodes[..n][..i] == nodes[..i] && nodes[..n][..i + 1] == nodes[..i + 1];
    }
  }

  lemma Placed(node: Node, c: Context, before: Meaning)
    ensures var own := MeantBy(node, c);
            && Adds(node, c, (before.events + own.events)[|before.events|..])
            && AddsDamage(node, c, (before.damaged + own.damaged)[|before.damaged|..])
  {
    hide Meant;
    var own := MeantBy(node, c);
    assert (before.events + own.events)[|before.events|..] == own.events;
    assert (before.damaged + own.damaged)[|before.damaged|..] == own.damaged;
  }

  // ----- which rectangles, at any depth -----

  ghost predicate PaintedBy(node: Node, c: Context, r: Rect)
    decreases node
  {
    match node
    case Layer(mapped, snapped, cull) =>
      Intersects(Adjusted(c.filters, mapped), cull) && r == Adjusted(c.filters, if c.integral then snapped else mapped)
    case Unchanged(region) => !c.dirty && r in region
    case Backdrop(_, _) => r == EMPTY
    case Subtree(children) => PaintedIn(children, Context(c.filters, c.dirty, false, false), r)
    case _ => false
  }

  /** Some layer among these or below them adds this rectangle. */
  ghost predicate PaintedIn(nodes: seq<Node>, c: Context, r: Rect)
    decreases nodes
  {
    exists i :: 0 <= i < |nodes| && PaintedBy(nodes[i], After(nodes[..i], c), r)
  }

  ghost predicate DamagedBy(node: Node, c: Context, r: Rect)
    decreases node
  {
    match node
    case Layer(mapped, snapped, cull) =>
      && c.dirty && Intersects(Adjusted(c.filters, mapped), cull)
      && r == Adjusted(c.filters, if c.integral then snapped else mapped)
    case Changed(previous) => !c.dirty && r in previous
    case Subtree(children) => DamagedIn(children, Context(c.filters, c.dirty, false, false), r)
    case _ => false
  }

  /** Some layer among these or below them damages this rectangle. */
  ghost predicate DamagedIn(nodes: seq<Node>, c: Context, r: Rect)
    decreases nodes
  {
    exists i :: 0 <= i < |nodes| && DamagedBy(nodes[i], After(nodes[..i], c), r)
  }

  lemma RectsMore(first: seq<Event>, second: seq<Event>)
    ensures RectsOf(first + second) == RectsOf(first) + RectsOf(second)
  {
    RectsSplit(first + second, |first|);
    assert (first + second)[..|first|] == first && (first + second)[|first|..] == second;
  }

  lemma PaintedNext(nodes: seq<Node>, node: Node, c: Context, r: Rect)
    ensures PaintedIn(nodes + [node], c, r) <==> PaintedIn(nodes, c, r) || PaintedBy(node, After(nodes, c), r)
  {
    hide After, PaintedBy;
    var all := nodes + [node];
    assert all[|nodes|] == node && all[..|nodes|] == nodes;
    assert forall i :: 0 <= i < |nodes| ==> all[i] == nodes[i] && all[..i] == nodes[..i];
    if i :| 0 <= i < |all| && PaintedBy(all[i], After(all[..i], c), r) {
      assert i < |nodes| ==> PaintedBy(nodes[i], After(nodes[..i], c), r);
    }
    if i :| 0 <= i < |nodes| && PaintedBy(nodes[i], After(nodes[..i], c), r) {
      assert PaintedBy(all[i], After(all[..i], c), r);
    }
  }

  lemma DamagedNext(nodes: seq<Node>, node: Node, c: Context, r: Rect)
    ensures DamagedIn(nodes + [node], c, r) <==> DamagedIn(nodes, c, r) || DamagedBy(node, After(nodes, c), r)
  {
    hide After, DamagedBy;
    var all := nodes + [node];
    assert all[|nodes|] == node && all[..|nodes|] == nodes;
    assert forall i :: 0 <= i < |nodes| ==> all[i] == nodes[i] && all[..i] == nodes[..i];
    if i :| 0 <= i < |all| && DamagedBy(all[i], After(all[..i], c), r) {
      assert i < |nodes| ==> DamagedBy(nodes[i], After(nodes[..i], c), r);
    }
    if i :| 0 <= i < |nodes| && DamagedBy(nodes[i], After(nodes[..i], c), r) {
      assert DamagedBy(all[i], After(all[..i], c), r);
    }
  }

  /** A region holds the rectangles its layers add, at whatever depth, and no others. */
  lemma {:induction false} RegionHoldsExactly(nodes: seq<Node>, c: Context, r: Rect)
    ensures r in RectsOf(Meant(nodes, c).events) <==> PaintedIn(nodes, c, r)
    decreases nodes
  {
    if nodes != [] {
      var n := |nodes| - 1;
      var before, node := nodes[..n], nodes[n];
      assert before + [node] == nodes;
      RegionHoldsExactly(before, c, r);
      InForceExactly(before, c);
      PaintedNext(before, node, c, r);
      RectsMore(Meant(before, c).events, MeantBy(node, After(before, c)).events);
      OwnHoldsExactly(node, After(before, c), r);
    }
  }

  lemma {:induction false} OwnHoldsExactly(node: Node, c: Context, r: Rect)
    ensures r in RectsOf(MeantBy(node, c).events) <==> PaintedBy(node, c, r)
    decreases node
  {
    hide RectsOf, PaintedIn, Meant, Adjusted;
    NoRects();
    if node.Subtree? {
      RegionHoldsExactly(node.children, InSubtree(c), r);
    } else if MeantBy(node, c).events != [] {
      LogNext([], MeantBy(node, c).events[0]);
    }
  }

  lemma NoRects()
    ensures RectsOf([]) == []
  {
  }

  /** The damage of a tree is the old place of what changed and the bounds in dirty subtrees, no more. */
  lemma {:induction false} DamageHoldsExactly(nodes: seq<Node>, c: Context, r: Rect)
    ensures r in Meant(nodes, c).damaged <==> DamagedIn(nodes, c, r)
    decreases nodes
  {
    if nodes != [] {
      var n := |nodes| - 1;
      var before, node := nodes[..n], nodes[n];
      assert before + [node] == nodes;
      DamageHoldsExactly(before, c, r);
      InForceExactly(before, c);
      DamagedNext(before, node, c, r);
      OwnDamageExactly(node, After(before, c), r);
    }
  }

  lemma {:induction false} OwnDamageExactly(node: Node, c: Context, r: Rect)
    ensures r in MeantBy(node, c).damaged <==> DamagedBy(node, c, r)
    decreases node
  {
    if node.Subtree? {
      DamageHoldsExactly(node.children, InSubtree(c), r);
    }
  }

  // ----- what is below -----

  predicate TextureBelow(nodes: seq<Node>)
    decreases nodes
  {
    exists i :: 0 <= i < |nodes| && (nodes[i].Texture? || (nodes[i].Subtree? && TextureBelow(nodes[i].children)))
  }

  predicate BackdropBelow(nodes: seq<Node>)
    decreases nodes
  {
    exists i :: 0 <= i < |nodes| && (nodes[i].Backdrop? || (nodes[i].Subtree? && BackdropBelow(nodes[i].children)))
  }

  lemma BelowNext(nodes: seq<Node>, node: Node)
    ensures TextureBelow(nodes + [node]) <==>
            TextureBelow(nodes) || node.Texture? || (node.Subtree? && TextureBelow(node.children))
    ensures BackdropBelow(nodes + [node]) <==>
            BackdropBelow(nodes) || node.Backdrop? || (node.Subtree? && BackdropBelow(node.children))
  {
    var all := nodes + [node];
    assert all[|nodes|] == node && forall i :: 0 <= i < |nodes| ==> all[i] == nodes[i];
  }

  lemma ReadsBackMore(first: seq<Event>, second: seq<Event>)
    ensures ReadsBack(first + second) <==> ReadsBack(first) || ReadsBack(second)
  {
    var all := first + second;
    assert forall i :: 0 <= i < |first| ==> all[i] == first[i];
    if i :| 0 <= i < |second| && second[i].ReadBack? {
      assert all[|first| + i].ReadBack?;
    }
  }

  /** A texture or a backdrop is remembered exactly if there is one below, at whatever depth. */
  lemma {:induction false} MarksExactly(nodes: seq<Node>, c: Context)
    ensures Textured in Meant(nodes, c).events <==> TextureBelow(nodes)
    ensures ReadsBack(Meant(nodes, c).events) <==> BackdropBelow(nodes)
    decreases nodes
  {
    if nodes != [] {
      hide ReadsBack, TextureBelow, BackdropBelow;
      var n := |nodes| - 1;
      var before, node := nodes[..n], nodes[n];
      assert before + [node] == nodes;
      MarksExactly(before, c);
      BelowNext(before, node);
      var outer := Meant(before, c);
      ReadsBackMore(outer.events, MeantBy(node, outer.after).events);
      OwnMarksExactly(node, outer.after);
    } else {
      assert Meant(nodes, c).events == [];
    }
  }

  lemma {:induction false} OwnMarksExactly(node: Node, c: Context)
    ensures Textured in MeantBy(node, c).events <==> node.Texture? || (node.Subtree? && TextureBelow(node.children))
    ensures ReadsBack(MeantBy(node, c).events) <==> node.Backdrop? || (node.Subtree? && BackdropBelow(node.children))
    decreases node
  {
    if node.Subtree? {
      MarksExactly(node.children, InSubtree(c));
    } else if node.Backdrop? {
      assert MeantBy(node, c).events[0].ReadBack?;
    }
  }

  // ----- the filters -----

  /** The filter of the innermost subtree applies first, that of the outermost last. */
  lemma InnermostFirst(outer: seq<Adjustment>, inner: Adjustment, r: Rect)
    ensures Adjusted([], r) == r && Adjusted(outer + [inner], r) == Adjusted(outer, inner(r))
  {
    assert (outer + [inner])[..|outer|] == outer;
  }

  // ----- regions and damage -----

  predicate Keeps(a: Rect, around: Rect) { IsEmpty(a) || Damage.WithinR(a, around) }

  lemma JoinKeeps(a: Rect, b: Rect, around: Rect)
    ensures Keeps(Join(a, b), around) <==> Keeps(a, around) && Keeps(b, around)
  {
  }

  /** The joined damage is the least rectangle around all that was added. */
  lemma {:induction false} JoinedLeast(damage: Rect, rects: seq<Rect>, around: Rect)
    ensures Keeps(Joined(damage, rects), around) <==> Keeps(damage, around) && forall r <- rects :: Keeps(r, around)
  {
    if rects != [] {
      var n := |rects| - 1;
      JoinedLeast(damage, rects[..n], around);
      hide Keeps, Join;
      JoinKeeps(Joined(damage, rects[..n]), rects[n], around);
      assert rects == rects[..n] + [rects[n]];
    }
  }

  /** A walked subtree's region says of the nodes below exactly what they paint and hold. */
  lemma WalkedRegion(region: PaintRegion, rects: seq<Rect>, before: seq<Event>, nodes: seq<Node>, c: Context)
    requires var log := before + Meant(nodes, c).events; Denotes(region, rects, log, |before|, |log|)
    ensures region.hasTexture <==> TextureBelow(nodes)
    ensures region.hasReadback <==> BackdropBelow(nodes)
    ensures region.from <= region.to <= |rects|
    ensures forall r :: r in rects[region.from..region.to] <==> PaintedIn(nodes, c, r)
  {
    var own := Meant(nodes, c).events;
    var log := before + own;
    assert log[|before|..|log|] == own;
    MarksExactly(nodes, c);
    hide Meant, PaintedIn, RectsOf;
    forall r ensures r in rects[region.from..region.to] <==> PaintedIn(nodes, c, r) {
      RegionHoldsExactly(nodes, c, r);
    }
  }

  /** After a walk the damage holds what it held and all that the nodes below damage, and is the least such. */
  lemma WalkedDamage(damage: Rect, nodes: seq<Node>, c: Context, around: Rect)
    ensures Keeps(Joined(damage, Meant(nodes, c).damaged), around) <==>
            Keeps(damage, around) && forall r :: DamagedIn(nodes, c, r) ==> Keeps(r, around)
  {
    JoinedLeast(damage, Meant(nodes, c).damaged, around);
    hide Meant, Joined, Keeps, DamagedIn;
    forall r ensures r in Meant(nodes, c).damaged <==> DamagedIn(nodes, c, r) {
      DamageHoldsExactly(nodes, c, r);
    }
  }
}
