/**
 Vertices packed behind their object (display_list/dl_vertices.h,
 display_list/dl_vertices.cc): up to four arrays in one block of memory, found by
 their offsets, an offset of zero standing for an array that is not there.
 */
module Vertices {
  import opened Records
  import opened Bits

  // ----- elements as bytes -----

  /** A point, a colour or an index: so many bytes, whatever they stand for. */
  type Item = seq<Octet>

  const OBJECT := 64
  const POINT := 8
  const COLOR := 4
  const INDEX := 2

  predicate Uniform(items: seq<Item>, width: nat) {
    forall i :: 0 <= i < |items| ==> |items[i]| == width
  }

  /** An array in memory. */
  function Flat(items: seq<Item>): seq<Octet> {
    if items == [] then [] else Flat(items[..|items| - 1]) + items[|items| - 1]
  }

  /** Reading an array back. */
  function Chunks(bytes: seq<Octet>, width: nat, count: nat): (items: seq<Item>)
    requires |bytes| == count * width
    ensures |items| == count && Uniform(items, width)
  {
    if count == 0 then []
    else
      var n := (count - 1) * width;
      Product(count, width);
      Chunks(bytes[..n], width, count - 1) + [bytes[n..]]
  }

  lemma Product(count: nat, width: nat)
    requires count > 0
    ensures count * width == (count - 1) * width + width >= width
  {
  }

  lemma {:induction false} FlatLength(items: seq<Item>, width: nat)
    requires Uniform(items, width)
    ensures |Flat(items)| == |items| * width
  {
    if items != [] {
      FlatLength(items[..|items| - 1], width);
      Product(|items|, width);
    }
  }

  lemma {:induction false} ChunksOfFlat(items: seq<Item>, width: nat)
    requires Uniform(items, width)
    ensures |Flat(items)| == |items| * width && Chunks(Flat(items), width, |items|) == items
  {
    FlatLength(items, width);
    if items != [] {
      var n := |items| - 1;
      ChunksOfFlat(items[..n], width);
      Product(|items|, width);
      assert Flat(items)[..n * width] == Flat(items[..n]) && Flat(items)[n * width..] == items[n];
    }
  }

  // ----- the layout -----

  datatype Layout = Layout(vertices: nat, texture: nat, colors: nat, indices: nat, end: nat)

  /** Each array that is there starts where the one before it ends. */
  function Offsets(n: nat, texture: bool, colors: bool, k: nat): Layout {
    var t := OBJECT + n * POINT;
    var c := t + if texture then n * POINT else 0;
    var i := c + if colors then n * COLOR else 0;
    Layout(
      if n > 0 then OBJECT else 0,
      if n > 0 && texture then t else 0,
      if n > 0 && colors then c else 0,
      if k > 0 then i else 0,
      i + k * INDEX)
  }

  function BytesNeeded(n: int, texture: bool, colors: bool, k: int): int {
    OBJECT + n * POINT + (if texture then n * POINT else 0) + (if colors then n * COLOR else 0)
    + if k > 0 then k * INDEX else 0
  }

  /** The arrays that are there fill the block, in order, without overlap, each aligned for its elements. */
  lemma LayoutFits(n: nat, texture: bool, colors: bool, k: nat)
    ensures var l := Offsets(n, texture, colors, k);
            && l.end == BytesNeeded(n, texture, colors, k)
            && l.vertices % 4 == 0 && l.texture % 4 == 0 && l.colors % 4 == 0 && l.indices % 2 == 0
            && (n > 0 ==> OBJECT == l.vertices && l.vertices + n * POINT <= l.end)
            && (l.texture > 0 ==> l.vertices + n * POINT == l.texture && l.texture + n * POINT <= l.end)
            && (l.colors > 0 ==> l.colors == (if l.texture > 0 then l.texture else l.vertices) + n * POINT)
            && (l.colors > 0 ==> l.colors + n * COLOR <= l.end)
            && (l.indices > 0 ==> OBJECT + n * POINT <= l.indices && l.indices + k * INDEX == l.end)
            && (l.indices > 0 && l.texture > 0 ==> l.texture + n * POINT <= l.indices)
            && (l.indices > 0 && l.colors > 0 ==> l.colors + n * COLOR == l.indices)
  {
    MultiplesOfFour(n);
  }

  lemma MultiplesOfFour(n: nat)
    ensures (n * POINT) % 4 == 0 && (n * COLOR) % 4 == 0 && (OBJECT + n * POINT) % 4 == 0
  {
  }

  // ----- the object -----

  function Replaced(pod: seq<Octet>, offset: nat, data: seq<Octet>): (after: seq<Octet>)
    requires offset + |data| <= |pod|
    ensures |after| == |pod|
  {
    pod[..offset] + data + pod[offset + |data|..]
  }

  function ReadArray(pod: seq<Octet>, offset: nat, width: nat, count: nat): (items: Option<seq<Item>>)
    requires offset + count * width <= |pod|
    ensures items.Some? <==> offset > 0
    ensures items.Some? ==> |items.value| == count && Uniform(items.value, width)
  {
    if offset == 0 then None else Some(Chunks(pod[offset..offset + count * width], width, count))
  }

  lemma ReadPrefix(pod: seq<Octet>, longer: seq<Octet>, offset: nat, width: nat, count: nat)
    requires pod <= longer && offset + count * width <= |pod|
    ensures ReadArray(longer, offset, width, count) == ReadArray(pod, offset, width, count)
  {
    assert longer[offset..offset + count * width] == pod[offset..offset + count * width];
  }

  /** What an array given as a pointer and a count amounts to. */
  function Given(items: Option<seq<Item>>, count: int): Option<seq<Item>>
    requires items.Some? ==> count <= |items.value|
  {
    if items.Some? && count > 0 then Some(items.value[..count]) else None
  }

  predicate Supplies(items: Option<seq<Item>>, count: int, width: nat) {
    items.Some? ==> count <= |items.value| && Uniform(items.value, width)
  }

  function MaxZero(n: int): nat { if n > 0 then n else 0 }

  datatype Arrays = Arrays(
    points: Option<seq<Item>>,
    texture: Option<seq<Item>>,
    colors: Option<seq<Item>>,
    indices: Option<seq<Item>>)

  datatype Slot = PointSlot | TextureSlot | ColorSlot | IndexSlot

  function ItemWidth(slot: Slot): nat {
    match slot
    case PointSlot => POINT
    case TextureSlot => POINT
    case ColorSlot => COLOR
    case IndexSlot => INDEX
  }

  function WithArray(all: Arrays, slot: Slot, items: Option<seq<Item>>): Arrays {
    match slot
    case PointSlot => all.(points := items)
    case TextureSlot => all.(texture := items)
    case ColorSlot => all.(colors := items)
    case IndexSlot => all.(indices := items)
  }

  lemma ReplacedApart(pod: seq<Octet>, at: nat, data: seq<Octet>, from: nat, to: nat)
    requires at + |data| <= |pod| && from <= to <= |pod| && (to <= at || at + |data| <= from)
    ensures Replaced(pod, at, data)[from..to] == pod[from..to]
  {
  }

  /** All but what is stored stays. */
  lemma ReadApart(pod: seq<Octet>, at: nat, data: seq<Octet>, offset: nat, width: nat, count: nat)
    requires at + |data| <= |pod| && offset + count * width <= |pod|
    requires offset == 0 || offset + count * width <= at || at + |data| <= offset
    ensures ReadArray(Replaced(pod, at, data), offset, width, count) == ReadArray(pod, offset, width, count)
  {
    hide Chunks;
    if offset > 0 {
      ReplacedApart(pod, at, data, offset, offset + count * width);
      hide Replaced;
    }
  }

  lemma ReadStored(pod: seq<Octet>, at: nat, items: seq<Item>, width: nat)
    requires Uniform(items, width) && at > 0 && at + |items| * width <= |pod|
    ensures |Flat(items)| == |items| * width
    ensures ReadArray(Replaced(pod, at, Flat(items)), at, width, |items|) == Some(items)
  {
    ChunksOfFlat(items, width);
    hide Chunks, Flat;
    assert Replaced(pod, at, Flat(items))[at..at + |items| * width] == Flat(items);
  }

  class DlVertices {
    var mode: nat
    var vertexCount: nat
    var indexCount: nat
    var verticesOffset: nat
    var textureOffset: nat
    var colorsOffset: nat
    var indicesOffset: nat
    var pod: seq<Octet>

    ghost predicate Valid()
      reads this
    {
      && Offsets(vertexCount, textureOffset > 0, colorsOffset > 0, indexCount)
         == Layout(verticesOffset, textureOffset, colorsOffset, indicesOffset, |pod|)
    }

    function Size(): (n: int)
      requires Valid()
      reads this
      ensures n == |pod|
    {
      LayoutFits(vertexCount, textureOffset > 0, colorsOffset > 0, indexCount);
      BytesNeeded(vertexCount, textureOffset > 0, colorsOffset > 0, indexCount)
    }

    /** The arrays as their accessors give them. */
    function Contents(): Arrays
      requires Valid()
      reads this
    {
      LayoutFits(vertexCount, textureOffset > 0, colorsOffset > 0, indexCount);
      Arrays(
        ReadArray(pod, verticesOffset, POINT, vertexCount),
        ReadArray(pod, textureOffset, POINT, if textureOffset > 0 then vertexCount else 0),
        ReadArray(pod, colorsOffset, COLOR, if colorsOffset > 0 then vertexCount else 0),
        ReadArray(pod, indicesOffset, INDEX, indexCount))
    }

    /**
     Copy the arrays in, one behind the other.  The memory was taken for
     `vertexCount` points, so there must be that many.
     */
    constructor (mode: nat, uncheckedVertexCount: int, vertices: Option<seq<Item>>, texture: Option<seq<Item>>,
                 colors: Option<seq<Item>>, uncheckedIndexCount: int, indices: Option<seq<Item>>)
      requires vertices.Some? || uncheckedVertexCount <= 0
      requires Supplies(vertices, uncheckedVertexCount, POINT) && Supplies(texture, uncheckedVertexCount, POINT)
      requires Supplies(colors, uncheckedVertexCount, COLOR) && Supplies(indices, uncheckedIndexCount, INDEX)
      ensures Valid() && this.mode == mode && vertexCount == MaxZero(uncheckedVertexCount)
      ensures indexCount == if indices.Some? then MaxZero(uncheckedIndexCount) else 0
      ensures |pod| == BytesNeeded(vertexCount, texture.Some?, colors.Some?, indexCount)
      ensures Contents() == Arrays(Given(vertices, uncheckedVertexCount), Given(texture, uncheckedVertexCount),
                                   Given(colors, uncheckedVertexCount), Given(indices, uncheckedIndexCount))
    {
      hide Chunks, Flat, Uniform;
      var n := MaxZero(uncheckedVertexCount);
      var k := if indices.Some? then MaxZero(uncheckedIndexCount) else 0;
      var pod0 := seq(OBJECT, i => 0);
      var (v, pod1) := Advance(pod0, vertices, n, POINT);
      var (t, pod2) := Advance(pod1, texture, n, POINT);
      var (c, pod3) := Advance(pod2, colors, n, COLOR);
      var (i, pod4) := Advance(pod3, indices, k, INDEX);
      ReadPrefix(pod1, pod4, v, POINT, if v > 0 then n else 0);
      ReadPrefix(pod2, pod4, t, POINT, if t > 0 then n else 0);
      ReadPrefix(pod3, pod4, c, COLOR, if c > 0 then n else 0);
      this.mode, vertexCount, indexCount := mode, n, k;
      verticesOffset, textureOffset, colorsOffset, indicesOffset := v, t, c, i;
      pod := pod4;
    }

    function OffsetOf(slot: Slot): nat
      reads this
    {
      match slot
      case PointSlot => verticesOffset
      case TextureSlot => textureOffset
      case ColorSlot => colorsOffset
      case IndexSlot => indicesOffset
    }

    /** Copy an array into its place. */
    method Store(slot: Slot, items: seq<Item>)
      requires Valid() && Uniform(items, ItemWidth(slot))
      requires |items| == if slot.IndexSlot? then indexCount else vertexCount
      requires items != [] ==> OffsetOf(slot) > 0
      modifies `pod
      ensures Valid() && Contents() == WithArray(old(Contents()), slot, if items == [] then None else Some(items))
    {
      hide Uniform, Flat, Chunks, BytesNeeded;
      LayoutFits(vertexCount, textureOffset > 0, colorsOffset > 0, indexCount);
      FlatLength(items, ItemWidth(slot));
      var at, data := OffsetOf(slot), Flat(items);
      if items != [] {
        ReadStored(pod, at, items, ItemWidth(slot));
      }
      hide ReadArray, Replaced, Offsets;
      if !slot.PointSlot? { ReadApart(pod, at, data, verticesOffset, POINT, vertexCount); }
      if !slot.TextureSlot? { ReadApart(pod, at, data, textureOffset, POINT, if textureOffset > 0 then vertexCount else 0); }
      if !slot.ColorSlot? { ReadApart(pod, at, data, colorsOffset, COLOR, if colorsOffset > 0 then vertexCount else 0); }
      if !slot.IndexSlot? { ReadApart(pod, at, data, indicesOffset, INDEX, indexCount); }
      pod := Replaced(pod, at, data);
    }

    /** Room for the arrays a builder will store, cleared. */
    constructor Reserve(mode: nat, uncheckedVertexCount: int, texture: bool, colors: bool, uncheckedIndexCount: int)
      ensures Valid() && this.mode == mode
      ensures vertexCount == MaxZero(uncheckedVertexCount) && indexCount == MaxZero(uncheckedIndexCount)
      ensures |pod| == BytesNeeded(vertexCount, texture, colors, indexCount)
      // The arrays are there exactly if they were announced and are not empty.
      ensures (verticesOffset > 0 <==> vertexCount > 0) && (indicesOffset > 0 <==> indexCount > 0)
      ensures (textureOffset > 0 <==> vertexCount > 0 && texture) && (colorsOffset > 0 <==> vertexCount > 0 && colors)
    {
      var n, k := MaxZero(uncheckedVertexCount), MaxZero(uncheckedIndexCount);
      var offset := OBJECT;
      var v, t, c, i := 0, 0, 0, 0;
      if n > 0 {
        v, offset := offset, offset + n * POINT;
      }
      if texture && n > 0 {
        t, offset := offset, offset + n * POINT;
      }
      if colors && n > 0 {
        c, offset := offset, offset + n * COLOR;
      }
      if k > 0 {
        i, offset := offset, offset + k * INDEX;
      }
      this.mode, vertexCount, indexCount := mode, n, k;
      verticesOffset, textureOffset, colorsOffset, indicesOffset := v, t, c, i;
      pod := seq(offset, j => 0);
    }
  }

  /** The `advance` of the source: append an array that is there, and say where. */
  function Advance(pod: seq<Octet>, items: Option<seq<Item>>, count: nat, width: nat): (r: (nat, seq<Octet>))
    requires Supplies(items, count, width) && |pod| > 0
    ensures pod <= r.1
    ensures if items.Some? && count > 0
            then r.0 == |pod| && |r.1| == |pod| + count * width
                 && ReadArray(r.1, r.0, width, count) == Some(items.value[..count])
            else r == (0, pod)
  {
    if items.Some? && count > 0 then
      var data := Flat(items.value[..count]);
      ChunksOfFlat(items.value[..count], width);
      assert (pod + data)[|pod|..|pod| + count * width] == data;
      (|pod|, pod + data)
    else (0, pod)
  }

  /** The copy has the same arrays in the same places, and takes as many bytes. */
  method Copy(other: DlVertices) returns (copy: DlVertices)
    requires other.Valid()
    ensures fresh(copy) && copy.Valid() && copy.mode == other.mode && copy.Contents() == other.Contents()
    ensures |copy.pod| == |other.pod|
  {
    hide Uniform, Flat, Chunks;
    var all := other.Contents();
    copy := new DlVertices(other.mode, other.vertexCount, all.points, all.texture, all.colors,
                           other.indexCount, all.indices);
    Whole(all.points, other.vertexCount);
    Whole(all.texture, other.vertexCount);
    Whole(all.colors, other.vertexCount);
    Whole(all.indices, other.indexCount);
  }

  lemma Whole(items: Option<seq<Item>>, count: nat)
    requires items.Some? ==> |items.value| == count > 0
    ensures Given(items, count) == items
  {
    if items.Some? {
      assert items.value[..count] == items.value;
    }
  }

  /** Element by element, a missing array being like nothing but a missing one. */
  method ListsEqual(a: Option<seq<Item>>, b: Option<seq<Item>>, count: nat) returns (same: bool)
    requires (a.Some? ==> |a.value| == count) && (b.Some? ==> |b.value| == count)
    ensures same <==> a == b
  {
    if a.None? || b.None? {
      return a.None? && b.None?;
    }
    for i := 0 to count
      invariant a.value[..i] == b.value[..i]
    {
      if a.value[i] != b.value[i] {
        return false;
      }
      assert a.value[..i + 1] == a.value[..i] + [a.value[i]] && b.value[..i + 1] == b.value[..i] + [b.value[i]];
    }
    assert a.value[..count] == a.value && b.value[..count] == b.value;
    return true;
  }

  /** Equality is that of the mode and the arrays; counts, offsets and bytes follow. */
  method VerticesEqual(a: DlVertices, b: DlVertices) returns (same: bool)
    requires a.Valid() && b.Valid()
    ensures same <==> a.mode == b.mode && a.Contents() == b.Contents()
    ensures same ==> a.vertexCount == b.vertexCount && a.indexCount == b.indexCount && |a.pod| == |b.pod|
  {
    hide Uniform, Flat, Chunks;
    var x, y := a.Contents(), b.Contents();
    assert x == y ==> a.vertexCount == b.vertexCount && a.indexCount == b.indexCount;
    if a.mode != b.mode || a.vertexCount != b.vertexCount {
      return false;
    }
    same := ListsEqual(x.points, y.points, a.vertexCount);
    if same {
      same := ListsEqual(x.texture, y.texture, a.vertexCount);
    }
    if same {
      same := ListsEqual(x.colors, y.colors, a.vertexCount);
    }
    if same && a.indexCount == b.indexCount {
      same := ListsEqual(x.indices, y.indices, a.indexCount);
    } else {
      same := false;
    }
  }

  // ----- the builder -----

  class Builder {
    const vertices: DlVertices
    var needsVertices: bool
    var needsTexture: bool
    var needsColors: bool
    var needsIndices: bool

    ghost predicate Valid()
      reads this, vertices
    {
      && vertices.Valid()
      && (needsIndices ==> vertices.indexCount > 0)
      && (needsTexture && vertices.vertexCount > 0 ==> vertices.textureOffset > 0)
      && (needsColors && vertices.vertexCount > 0 ==> vertices.colorsOffset > 0)
    }

    constructor (mode: nat, vertexCount: int, texture: bool, colors: bool, indexCount: int)
      ensures Valid() && fresh(vertices) && vertices.mode == mode
      ensures vertices.vertexCount == MaxZero(vertexCount) && vertices.indexCount == MaxZero(indexCount)
      ensures needsVertices && needsTexture == texture && needsColors == colors && needsIndices == (indexCount > 0)
      ensures (vertices.textureOffset > 0 <==> vertexCount > 0 && texture)
              && (vertices.colorsOffset > 0 <==> vertexCount > 0 && colors)
    {
      vertices := new DlVertices.Reserve(mode, vertexCount, texture, colors, indexCount);
      needsVertices, needsTexture, needsColors, needsIndices := true, texture, colors, indexCount > 0;
    }

    /** In whatever order the arrays are stored, each lands in its own place and leaves the others alone. */
    method StoreVertices(points: seq<Item>)
      requires Valid() && needsVertices && |points| == vertices.vertexCount && Uniform(points, POINT)
      modifies this, vertices`pod
      ensures Valid() && !needsVertices
      ensures needsTexture == old(needsTexture) && needsColors == old(needsColors) && needsIndices == old(needsIndices)
      ensures vertices.Contents() == old(vertices.Contents()).(points := if points == [] then None else Some(points))
    {
      hide Uniform, Flat, Chunks, Replaced, ReadArray;
      vertices.Store(PointSlot, points);
      needsVertices := false;
    }

    method StoreTextureCoordinates(coords: seq<Item>)
      requires Valid() && needsTexture && |coords| == vertices.vertexCount && Uniform(coords, POINT)
      modifies this, vertices`pod
      ensures Valid() && !needsTexture
      ensures needsVertices == old(needsVertices) && needsColors == old(needsColors) && needsIndices == old(needsIndices)
      ensures vertices.Contents() == old(vertices.Contents()).(texture := if coords == [] then None else Some(coords))
    {
      hide Uniform, Flat, Chunks, Replaced, ReadArray;
      vertices.Store(TextureSlot, coords);
      needsTexture := false;
    }

    method StoreColors(colors: seq<Item>)
      requires Valid() && needsColors && |colors| == vertices.vertexCount && Uniform(colors, COLOR)
      modifies this, vertices`pod
      ensures Valid() && !needsColors
      ensures needsVertices == old(needsVertices) && needsTexture == old(needsTexture) && needsIndices == old(needsIndices)
      ensures vertices.Contents() == old(vertices.Contents()).(colors := if colors == [] then None else Some(colors))
    {
      hide Uniform, Flat, Chunks, Replaced, ReadArray;
      vertices.Store(ColorSlot, colors);
      needsColors := false;
    }

    method StoreIndices(indices: seq<Item>)
      requires Valid() && needsIndices && |indices| == vertices.indexCount && Uniform(indices, INDEX)
      modifies this, vertices`pod
      ensures Valid() && !needsIndices
      ensures needsVertices == old(needsVertices) && needsTexture == old(needsTexture) && needsColors == old(needsColors)
      ensures vertices.Contents() == old(vertices.Contents()).(indices := Some(indices))
    {
      hide Uniform, Flat, Chunks, Replaced, ReadArray;
      vertices.Store(IndexSlot, indices);
      needsIndices := false;
    }

    /** Everything promised must have been stored; without vertices there is nothing to store. */
    method Build() returns (v: DlVertices)
      requires Valid() && (needsVertices ==> vertices.vertexCount == 0)
      requires !needsTexture && !needsColors && !needsIndices
      ensures v == vertices && v.Valid()
    {
      v := vertices;
    }
  }

  /**
   What comes out reads back as what went in.  Without vertices the texture
   coordinates and the colours are dropped, and so are indices without a count.
   */
  method Make(mode: nat, vertexCount: int, vertices: Option<seq<Item>>, texture: Option<seq<Item>>,
              colors: Option<seq<Item>>, indexCount: int, indices: Option<seq<Item>>) returns (v: DlVertices)
    requires Supplies(vertices, vertexCount, POINT) && Supplies(texture, vertexCount, POINT)
    requires Supplies(colors, vertexCount, COLOR) && Supplies(indices, indexCount, INDEX)
    ensures fresh(v) && v.Valid() && v.mode == mode
    ensures var n := if vertices.None? then 0 else vertexCount;
            v.Contents() == Arrays(Given(vertices, n), Given(texture, n), Given(colors, n), Given(indices, indexCount))
  {
    hide Flat, Chunks, Replaced, ReadArray, Offsets, BytesNeeded;
    var n, k := vertexCount, indexCount;
    var coords, paints, order := texture, colors, indices;
    if vertices.None? || vertexCount <= 0 {
      n, coords, paints := 0, None, None;
    }
    if indices.None? || indexCount <= 0 {
      k, order := 0, None;
    }
    var builder := new Builder(mode, n, coords.Some?, paints.Some?, k);
    Absent(builder.vertices);
    var points := if n == 0 then [] else vertices.value[..n];
    builder.StoreVertices(points);
    if coords.Some? {
      builder.StoreTextureCoordinates(coords.value[..n]);
    }
    if paints.Some? {
      builder.StoreColors(paints.value[..n]);
    }
    if order.Some? {
      builder.StoreIndices(order.value[..k]);
    }
    v := builder.Build();
  }

  /** Arrays that were not announced are not there. */
  lemma Absent(v: DlVertices)
    requires v.Valid()
    ensures v.Contents().points.Some? <==> v.verticesOffset > 0
    ensures v.Contents().texture.Some? <==> v.textureOffset > 0
    ensures v.Contents().colors.Some? <==> v.colorsOffset > 0
    ensures v.Contents().indices.Some? <==> v.indexCount > 0
  {
  }
}
