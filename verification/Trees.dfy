/**
 The marks of a tree of drawings and layers: played one by one over a stack of
 surfaces they show what rendering the tree shows, each layer on a clear surface of
 its own and then, as one, over what lies below.
 */
module Trees {
  import opened Records
  import opened Player
  import opened Canvas
  import opened Pixels
  import Blend

  datatype Item =
    | Picture(drawing: nat, paint: Paint, geometry: Geometry)
    | Group(layer: nat, withPaint: bool, paint: Paint, geometry: Geometry, flag: bool, items: seq<Item>)

  function MarksOf(items: seq<Item>): seq<Mark>
    decreases items
  {
    if items == [] then [] else
    MarksOfOne(items[0]) + MarksOf(items[1..])
  }

  function MarksOfOne(item: Item): seq<Mark>
    decreases item
  {
    match item
    case Picture(drawing, paint, g) => [Drawn(drawing, paint, g)]
    case Group(layer, withPaint, paint, g, flag, inner) =>
      [LayerOpened(layer, withPaint, paint, g)] + MarksOf(inner) + [LayerClosed(flag)]
  }

  /** What of the tree reaches the pixel; a drawing with a paint of its own is drawn with that. */
  function NodesOf(scene: Scene, items: seq<Item>): seq<Blend.Node>
    decreases items
  {
    if items == [] then [] else
    NodesOfOne(scene, items[0]) + NodesOf(scene, items[1..])
  }

  function NodesOfOne(scene: Scene, item: Item): seq<Blend.Node>
    decreases item
  {
    match item
    case Picture(drawing, paint, g) =>
      if !scene.inside(g.clips) || !scene.touches(drawing, paint, g) then []
      else if scene.own(drawing).Some? then [Blend.Shape(scene.own(drawing).value, DRAW_PAINT, scene.content(drawing))]
      else [Blend.Shape(paint, scene.flags(drawing), scene.content(drawing))]
    case Group(_, withPaint, paint, g, _, inner) =>
      if scene.inside(g.clips) then [Blend.Layer(withPaint, paint, NodesOf(scene, inner))] else []
  }

  /** The top surface painted on, the others as they are. */
  function OnTop(scene: Scene, stack: seq<Surface>, nodes: seq<Blend.Node>): seq<Surface>
    requires stack != []
  {
    var n := |stack| - 1;
    stack[n := stack[n].(pixel := Blend.Render(scene.env, nodes, stack[n].pixel))]
  }

  lemma OnTopMore(scene: Scene, stack: seq<Surface>, first: seq<Blend.Node>, second: seq<Blend.Node>)
    requires stack != []
    ensures OnTop(scene, OnTop(scene, stack, first), second) == OnTop(scene, stack, first + second)
  {
    RenderMore(scene.env, first, second, stack[|stack| - 1].pixel);
  }

  lemma {:induction false} RenderMore(env: Blend.Renderer, first: seq<Blend.Node>, second: seq<Blend.Node>, d: Blend.Pixel)
    ensures Blend.Render(env, first + second, d) == Blend.Render(env, second, Blend.Render(env, first, d))
  {
    hide Blend.Composed;
    if first == [] {
      assert first + second == second;
    } else {
      assert (first + second)[1..] == first[1..] + second && (first + second)[0] == first[0];
      var node := first[0];
      var content := if node.Layer? then Blend.Render(env, node.children, Blend.CLEAR) else node.content;
      RenderMore(env, first[1..], second, Blend.Composed(env, node.paint, Blend.FlagsOf(node), content, d));
    }
  }

  lemma RenderOne(env: Blend.Renderer, node: Blend.Node, d: Blend.Pixel)
    ensures var content := if node.Layer? then Blend.Render(env, node.children, Blend.CLEAR) else node.content;
            Blend.Render(env, [node], d) == Blend.Composed(env, node.paint, Blend.FlagsOf(node), content, d)
  {
    hide Blend.Composed;
    assert [node][1..] == [];
  }

  /** Playing a tree's marks, whatever was played before, renders the tree over the top surface. */
  lemma {:induction false} TreeShows(scene: Scene, before: seq<Mark>, items: seq<Item>, d: Blend.Pixel)
    requires Played(scene, before, d) != []
    ensures Played(scene, before + MarksOf(items), d) == OnTop(scene, Played(scene, before, d), NodesOf(scene, items))
    decreases items
  {
    hide Played, OnTop, MarksOfOne, NodesOfOne;
    if items == [] {
      assert before + [] == before;
      NothingOnTop(scene, Played(scene, before, d));
    } else {
      var own, rest := MarksOfOne(items[0]), items[1..];
      ItemShows(scene, before, items[0], d);
      SameHeight(scene, Played(scene, before, d), NodesOfOne(scene, items[0]));
      TreeShows(scene, before + own, rest, d);
      OnTopMore(scene, Played(scene, before, d), NodesOfOne(scene, items[0]), NodesOf(scene, rest));
      assert before + (own + MarksOf(rest)) == before + own + MarksOf(rest);
    }
  }

  lemma NothingOnTop(scene: Scene, stack: seq<Surface>)
    requires stack != []
    ensures OnTop(scene, stack, []) == stack
  {
  }

  lemma SameHeight(scene: Scene, stack: seq<Surface>, nodes: seq<Blend.Node>)
    requires stack != []
    ensures |OnTop(scene, stack, nodes)| == |stack|
  {
  }

  lemma {:induction false} ItemShows(scene: Scene, before: seq<Mark>, item: Item, d: Blend.Pixel)
    requires Played(scene, before, d) != []
    ensures Played(scene, before + MarksOfOne(item), d) ==
            OnTop(scene, Played(scene, before, d), NodesOfOne(scene, item))
    decreases item
  {
    hide Show, Played, OnTop, NodesOf, NodesOfOne, MarksOf;
    var stack := Played(scene, before, d);
    match item
    case Picture(drawing, paint, g) =>
      PlayedNext(scene, before, d, Drawn(drawing, paint, g));
      PictureShows(scene, stack, item);
    case Group(layer, withPaint, paint, g, flag, inner) =>
      var start, end := LayerOpened(layer, withPaint, paint, g), LayerClosed(flag);
      PlayedNext(scene, before, d, start);
      GroupOpens(scene, stack, item);
      TreeShows(scene, before + [start], inner, d);
      PlayedNext(scene, before + [start] + MarksOf(inner), d, end);
      GroupShows(scene, stack, item);
      GroupMarks(before, item);
  }

  lemma GroupMarks(before: seq<Mark>, item: Item)
    requires item.Group?
    ensures before + MarksOfOne(item) ==
            before + [LayerOpened(item.layer, item.withPaint, item.paint, item.geometry)] + MarksOf(item.items) +
            [LayerClosed(item.flag)]
  {
    hide MarksOf;
  }

  lemma PictureShows(scene: Scene, stack: seq<Surface>, item: Item)
    requires stack != [] && item.Picture?
    ensures Show(scene, stack, Drawn(item.drawing, item.paint, item.geometry)) ==
            OnTop(scene, stack, NodesOfOne(scene, item))
  {
    hide Blend.Composed;
    var d := stack[|stack| - 1].pixel;
    if NodesOfOne(scene, item) == [] {
      NothingOnTop(scene, stack);
    } else {
      RenderOne(scene.env, NodesOfOne(scene, item)[0], d);
      hide Blend.Render;
      assert NodesOfOne(scene, item) == [NodesOfOne(scene, item)[0]];
    }
  }

  lemma GroupOpens(scene: Scene, stack: seq<Surface>, item: Item)
    requires item.Group?
    ensures Show(scene, stack, LayerOpened(item.layer, item.withPaint, item.paint, item.geometry)) ==
            stack + [Surface(Blend.CLEAR, item.withPaint, item.paint, scene.inside(item.geometry.clips))]
  {
  }

  lemma GroupShows(scene: Scene, stack: seq<Surface>, item: Item)
    requires stack != [] && item.Group?
    ensures var top := Surface(Blend.CLEAR, item.withPaint, item.paint, scene.inside(item.geometry.clips));
            Show(scene, OnTop(scene, stack + [top], NodesOf(scene, item.items)), LayerClosed(item.flag)) ==
            OnTop(scene, stack, NodesOfOne(scene, item))
  {
    hide Blend.Composed, NodesOf;
    var n := |stack| - 1;
    var nodes := NodesOf(scene, item.items);
    var top := Surface(Blend.CLEAR, item.withPaint, item.paint, scene.inside(item.geometry.clips));
    var filled := OnTop(scene, stack + [top], nodes);
    var full := top.(pixel := Blend.Render(scene.env, nodes, Blend.CLEAR));
    assert filled == stack + [full];
    assert filled[..n + 1] == stack;
    if top.inside {
      RenderOne(scene.env, Blend.Layer(item.withPaint, item.paint, nodes), stack[n].pixel);
    } else {
      NothingOnTop(scene, stack);
    }
    hide Blend.Render;
  }

  /** Over a surface of one's own: playing the marks of a tree is rendering it. */
  lemma TreePlayed(scene: Scene, items: seq<Item>, d: Blend.Pixel)
    ensures Played(scene, MarksOf(items), d) == [Root(Blend.Render(scene.env, NodesOf(scene, items), d))]
  {
    assert Played(scene, [], d) == [Root(d)];
    TreeShows(scene, [], items, d);
    hide Played, NodesOf, Blend.Render;
    assert [] + MarksOf(items) == MarksOf(items);
  }
}
