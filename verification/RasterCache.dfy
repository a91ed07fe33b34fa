/**
 The raster cache over its frames (flow/raster_cache.h, flow/raster_cache.cc).

 A frame marks the entries its layers want, evicts the others, rasterises images
 into marked entries, draws them, and closes the accounts.
 */
module RasterCache {
  import opened Records
  import opened Rects
  import opened RasterBounds
  import Bits

  // ----- entries -----

  /** A rasterised image: its size in pixels and bytes, and the rectangle it was made for. */
  datatype Image = Image(width: int, height: int, bytes: nat, logicalRect: Rect)

  datatype Entry = Entry(encountered: bool, visible: bool, accesses: nat, image: Option<Image>)

  const NewEntry := Entry(false, false, 0, None)

  datatype Kind = LayerMetrics | DisplayListMetrics

  function KindOf(key: Key): Kind {
    match key.id.kind
    case DisplayList => DisplayListMetrics
    case Layer => LayerMetrics
    case LayerChildren => LayerMetrics
  }

  /** What is summed over the cache: images or their bytes, for one kind of key. */
  datatype Measure = Images(kind: Kind) | Bytes(kind: Kind)

  function Amount(w: Measure, key: Key, entry: Entry): nat {
    if KindOf(key) != w.kind || entry.image.None? then 0
    else if w.Images? then 1
    else entry.image.value.bytes
  }

  ghost function Total(cache: map<Key, Entry>, w: Measure): nat
    decreases |cache|
  {
    if cache == map[] then 0
    else
      var key :| key in cache;
      Amount(w, key, cache[key]) + Total(cache - {key}, w)
  }

  /** The total does not depend on the order of summation. */
  lemma {:induction false} TotalAt(cache: map<Key, Entry>, w: Measure, key: Key)
    requires key in cache
    ensures Total(cache, w) == Amount(w, key, cache[key]) + Total(cache - {key}, w)
    decreases |cache|
  {
    hide Amount;
    var first :| first in cache && Total(cache, w) == Amount(w, first, cache[first]) + Total(cache - {first}, w);
    if first != key {
      TotalAt(cache - {first}, w, key);
      TotalAt(cache - {key}, w, first);
      assert cache - {first} - {key} == cache - {key} - {first};
    }
  }

  lemma TotalReplaced(cache: map<Key, Entry>, w: Measure, key: Key, entry: Entry)
    ensures Total(cache[key := entry], w) + (if key in cache then Amount(w, key, cache[key]) else 0)
            == Total(cache, w) + Amount(w, key, entry)
  {
    hide Amount, Total;
    var after := cache[key := entry];
    TotalAt(after, w, key);
    assert after - {key} == cache - {key};
    if key in cache {
      TotalAt(cache, w, key);
    } else {
      assert cache - {key} == cache;
    }
  }

  function EntryOf(cache: map<Key, Entry>, key: Key): Entry { if key in cache then cache[key] else NewEntry }

  predicate HasImage(cache: map<Key, Entry>, key: Key) { key in cache && cache[key].image.Some? }

  /** A mark: the entry is made if need be, and an access counts once one was visible. */
  function Marking(cache: map<Key, Entry>, key: Key, visible: bool): map<Key, Entry> {
    var entry := EntryOf(cache, key);
    var accesses := if visible || entry.accesses > 0 then entry.accesses + 1 else entry.accesses;
    cache[key := entry.(encountered := true, visible := visible, accesses := accesses)]
  }

  function Filling(cache: map<Key, Entry>, key: Key, image: Option<Image>): map<Key, Entry> {
    cache[key := EntryOf(cache, key).(image := image)]
  }

  /** Marks that count: those from the first visible one on. */
  function SinceVisible(marks: seq<bool>): nat {
    if marks == [] then 0
    else if marks[0] then |marks|
    else SinceVisible(marks[1..])
  }

  lemma {:induction false} SinceVisibleMore(marks: seq<bool>, visible: bool)
    ensures SinceVisible(marks + [visible]) ==
            if visible || SinceVisible(marks) > 0 then SinceVisible(marks) + 1 else 0
  {
    if marks != [] {
      assert (marks + [visible])[1..] == marks[1..] + [visible];
      SinceVisibleMore(marks[1..], visible);
    }
  }

  /** Marks count from the first visible one on, visible or not. */
  lemma {:induction false} SinceVisibleExactly(hidden: seq<bool>, rest: seq<bool>)
    requires forall i :: 0 <= i < |hidden| ==> !hidden[i]
    ensures SinceVisible(hidden) == 0 && SinceVisible(hidden + [true] + rest) == 1 + |rest|
  {
    if hidden == [] {
      assert hidden + [true] + rest == [true] + rest;
    } else {
      SinceVisibleExactly(hidden[1..], rest);
      assert (hidden + [true] + rest)[1..] == hidden[1..] + [true] + rest;
    }
  }

  lemma NeverMarked()
    ensures SinceVisible([]) == 0
  {
  }

  datatype Metrics = Metrics(evictionCount: nat, evictionBytes: nat, inUseCount: nat, inUseBytes: nat)

  const NoMetrics := Metrics(0, 0, 0, 0)

  function MetricsFor(kind: Kind, layer: Metrics, picture: Metrics): Metrics {
    match kind
    case DisplayListMetrics => picture
    case LayerMetrics => layer
  }

  function EvictedIn(w: Measure, m: Metrics): nat { if w.Images? then m.evictionCount else m.evictionBytes }

  function InUseIn(w: Measure, m: Metrics): nat { if w.Images? then m.inUseCount else m.inUseBytes }

  datatype CacheInfo = CacheInfo(accessesSinceVisible: nat, hasImage: bool)

  /** An image is as large as the bounds its key gives it, for every matrix but a projective one. */
  ghost predicate Fitting(key: Key, image: Image) {
    IsAffine(key.matrix) ==>
      exists m :: MakeKey(key.id, m) == key && image.width == Width(CachedBounds(image.logicalRect, m))
               && image.height == Height(CachedBounds(image.logicalRect, m))
  }

  /**
   The size of the surface to draw on; `surfaceBytes` is none when it could not
   be had, `projected` is the size under a projective matrix.
   */
  function Rasterize(m: M33, logicalRect: Rect, projected: (int, int), surfaceBytes: Option<nat>): Option<Image> {
    if surfaceBytes.None? then None
    else if IsAffine(m) then
      var bounds := CachedBounds(logicalRect, m);
      Some(Image(Width(bounds), Height(bounds), surfaceBytes.value, logicalRect))
    else Some(Image(projected.0, projected.1, surfaceBytes.value, logicalRect))
  }

  /** An image of the right size in pixels and bytes, that remembers the rectangle it was made for. */
  ghost predicate MadeFor(image: Image, m: M33, logicalRect: Rect, projected: (int, int), bytes: nat) {
    var bounds := CachedBounds(logicalRect, m);
    && image.bytes == bytes && image.logicalRect == logicalRect
    && image.width == (if IsAffine(m) then Width(bounds) else projected.0)
    && image.height == (if IsAffine(m) then Height(bounds) else projected.1)
  }

  lemma RasterizedExactly(m: M33, logicalRect: Rect, projected: (int, int), surfaceBytes: Option<nat>)
    ensures var image := Rasterize(m, logicalRect, projected, surfaceBytes);
            && (image.Some? <==> surfaceBytes.Some?)
            && (image.Some? ==> MadeFor(image.value, m, logicalRect, projected, surfaceBytes.value))
  {
  }

  ghost predicate SameAt(before: map<Key, Entry>, after: map<Key, Entry>, k: Key) {
    (k in after <==> k in before) && (k in before ==> after[k] == before[k])
  }

  /** A display list that asks for an image, `wanted` and `parentCached` being its state in the tree. */
  datatype Item = Item(id: KeyId, matrix: M33, logicalRect: Rect, projected: (int, int), surfaceBytes: Option<nat>,
                       wanted: bool, parentCached: bool)

  function KeyOf(item: Item): Key { MakeKey(item.id, item.matrix) }

  predicate Asks(cache: map<Key, Entry>, item: Item) {
    item.wanted && !item.parentCached && item.surfaceBytes.Some? && !HasImage(cache, KeyOf(item))
  }

  /** The keys that have no image and could get one. */
  function Wanting(cache: map<Key, Entry>, items: seq<Item>): set<Key> {
    set i | 0 <= i < |items| && Asks(cache, items[i]) :: KeyOf(items[i])
  }

  lemma WantingNext(cache: map<Key, Entry>, items: seq<Item>, i: nat)
    requires i < |items|
    ensures Wanting(cache, items[..i + 1]) ==
            Wanting(cache, items[..i]) + if Asks(cache, items[i]) then {KeyOf(items[i])} else {}
  {
    hide KeyOf, Asks;
    assert forall j :: 0 <= j <= i ==> items[..i + 1][j] == items[j];
  }

  /** At every other key the two caches are the same. */
  ghost predicate ChangedOnlyAt(before: map<Key, Entry>, after: map<Key, Entry>, key: Key) {
    forall k :: k != key ==> SameAt(before, after, k)
  }

  /** The keys with an image are those that had one, which is kept, and the filled ones. */
  ghost predicate Filled(before: map<Key, Entry>, after: map<Key, Entry>, filled: set<Key>) {
    && (forall k :: HasImage(after, k) <==> HasImage(before, k) || k in filled)
    && (forall k :: HasImage(before, k) ==> k in after && after[k] == before[k])
  }

  /** `key` is filled, whether by this step, by one before, or from the start. */
  lemma FilledMore(first: map<Key, Entry>, before: map<Key, Entry>, after: map<Key, Entry>, filled: set<Key>, key: Key,
                   cached: bool)
    requires Filled(first, before, filled) && ChangedOnlyAt(before, after, key)
    requires HasImage(before, key) ==> after == before
    requires HasImage(after, key) <==> HasImage(before, key) || cached
    ensures Filled(first, after, filled + if cached then {key} else {})
  {
    forall k ensures k != key ==> SameAt(before, after, k) {
    }
    forall k | HasImage(first, k) ensures HasImage(before, k) && k in after && after[k] == first[k] {
      assert SameAt(before, after, k) || k == key;
    }
    forall k ensures HasImage(after, k) <==> HasImage(first, k) || k in filled || (cached && k == key) {
      assert SameAt(before, after, k) || k == key;
    }
  }

  lemma NothingFilled(cache: map<Key, Entry>)
    ensures Filled(cache, cache, {}) && Wanting(cache, []) == {}
  {
  }

  lemma AsksOf(first: map<Key, Entry>, cache: map<Key, Entry>, filled: set<Key>, item: Item)
    requires Filled(first, cache, filled)
    ensures HasImage(cache, KeyOf(item)) <==> HasImage(first, KeyOf(item)) || KeyOf(item) in filled
    ensures Asks(first, item) <==>
            item.wanted && !item.parentCached && item.surfaceBytes.Some? && !HasImage(first, KeyOf(item))
    ensures KeyOf(item) == MakeKey(item.id, item.matrix)
  {
  }

  lemma NoMore(a: set<Key>, b: set<Key>)
    requires a <= b
    ensures |a| <= |b|
  {
    assert b == a + (b - a);
  }

  // ----- the cache -----

  class RasterCache {
    const accessThreshold: nat
    const displayListLimit: nat
    var displayListCached: nat
    var layerMetrics: Metrics
    var pictureMetrics: Metrics
    var cache: map<Key, Entry>

    /** The visibilities an entry was marked with, since it was created. */
    ghost var marks: map<Key, seq<bool>>
    /** The keys marked since the last frame ended. */
    ghost var marked: set<Key>
    /** The totals when the frame began, and what it has rasterised. */
    ghost var start: Measure -> nat
    ghost var made: Measure -> nat

    ghost predicate Valid()
      reads this
    {
      && Entries(cache, marks, marked)
      && displayListCached == made(Images(DisplayListMetrics))
    }

    /** Nothing is in use until the frame is closed; evicted and kept is what there was and what was made. */
    ghost predicate Balanced()
      requires Valid()
      reads this
    {
      Books(cache, layerMetrics, pictureMetrics, start, made)
    }

    function Evicted(w: Measure): nat
      reads this
    {
      EvictedIn(w, MetricsFor(w.kind, layerMetrics, pictureMetrics))
    }

    function InUse(w: Measure): nat
      reads this
    {
      InUseIn(w, MetricsFor(w.kind, layerMetrics, pictureMetrics))
    }

    constructor (threshold: nat, limit: nat)
      ensures Valid() && cache == map[] && marked == {}
    {
      accessThreshold, displayListLimit := threshold, limit;
      displayListCached, layerMetrics, pictureMetrics, cache := 0, NoMetrics, NoMetrics, map[];
      marks, marked, start, made := map[], {}, Zero, Zero;
    }

    method BeginFrame()
      requires Valid()
      modifies this
      ensures Valid() && Balanced() && WithinLimit()
      ensures cache == old(cache) && marks == old(marks) && marked == old(marked)
      ensures forall w: Measure :: start(w) == Total(cache, w) && made(w) == 0
    {
      displayListCached, pictureMetrics, layerMetrics := 0, NoMetrics, NoMetrics;
      ghost var now := cache;
      start, made := (w: Measure) => Total(now, w), Zero;
    }

    method MarkSeen(id: KeyId, m: M33, visible: bool) returns (info: CacheInfo)
      requires Valid() && Balanced()
      modifies this
      ensures Valid() && Balanced() && start == old(start) && made == old(made)
      ensures var key := MakeKey(id, m);
              && marked == old(marked) + {key}
              && cache == Marking(old(cache), key, visible)
              && marks == old(marks)[key := (if key in old(marks) then old(marks)[key] else []) + [visible]]
              && info == CacheInfo(SinceVisible(marks[key]), cache[key].image.Some?)
    {
      hide Total, Amount, SinceVisible, Fitting;
      var key := MakeKey(id, m);
      var entry := if key in cache then cache[key] else NewEntry;
      ghost var before := if key in marks then marks[key] else [];
      NeverMarked();
      SinceVisibleMore(before, visible);
      var accesses := if visible || entry.accesses > 0 then entry.accesses + 1 else entry.accesses;
      var after := entry.(encountered := true, visible := visible, accesses := accesses);
      assert EntryValid(key, after, before + [visible], true);
      hide EntryValid, EvictedIn, MetricsFor, InUseIn;
      SameAmounts(cache, key, after);
      cache, marks, marked := cache[key := after], marks[key := before + [visible]], marked + {key};
      info := CacheInfo(accesses, after.image.Some?);
    }

    method UpdateCacheEntry(id: KeyId, m: M33, logicalRect: Rect, projected: (int, int), surfaceBytes: Option<nat>)
      returns (cached: bool)
      requires Valid() && Balanced()
      modifies this
      ensures Valid() && Balanced() && start == old(start) && marked == old(marked)
      ensures var key := MakeKey(id, m);
              && cached == (key in cache && cache[key].image.Some?)
              && marks == (if key in old(marks) then old(marks) else old(marks)[key := []])
              && (if HasImage(old(cache), key) then cache == old(cache) && made == old(made)
                  else cache == Filling(old(cache), key, Rasterize(m, logicalRect, projected, surfaceBytes))
                       && forall w: Measure :: made(w) == old(made)(w) + Amount(w, key, cache[key]))
    {
      hide Total, Amount, SinceVisible, Fitting, Rasterize, EntryValid;
      var key := MakeKey(id, m);
      if key !in cache || cache[key].image.None? {
        var image := Rasterize(m, logicalRect, projected, surfaceBytes);
        RasterizedFits(id, m, logicalRect, projected, surfaceBytes);
        Store(key, image);
        return image.Some?;
      }
      return true;
    }

    /** Put what was rasterised into an entry without an image, which is made if need be. */
    method Store(key: Key, image: Option<Image>)
      requires Valid() && Balanced() && (key in cache ==> cache[key].image.None?)
      requires image.Some? ==> Fitting(key, image.value)
      modifies this
      ensures Valid() && Balanced() && start == old(start) && marked == old(marked)
      ensures cache == Filling(old(cache), key, image)
      ensures marks == (if key in old(marks) then old(marks) else old(marks)[key := []])
      ensures forall w: Measure :: made(w) == old(made)(w) + Amount(w, key, cache[key])
    {
      hide Total, Amount, Fitting, Entries, Books, Filling;
      var after := EntryOf(cache, key).(image := image);
      EntriesFilled(cache, marks, marked, key, image);
      ghost var done := made;
      ghost var next := (w: Measure) => done(w) + Amount(w, key, after);
      BooksFilled(cache, layerMetrics, pictureMetrics, start, done, key, image, next);
      FilledEntry(cache, key, image);
      ImageCounted(key, after);
      cache, marks, made, displayListCached :=
        Filling(cache, key, image), (if key in marks then marks else marks[key := []]), next,
        if image.Some? && key.id.kind == DisplayList then displayListCached + 1 else displayListCached;
    }

    predicate GenerateNewCacheInThisFrame()
      reads this
    {
      accessThreshold != 0 && displayListCached < displayListLimit
    }

    /** The frame keeps within its limit of new display list images, and makes none when caching is off. */
    ghost predicate WithinLimit()
      reads this
    {
      made(Images(DisplayListMetrics)) <= if accessThreshold == 0 then 0 else displayListLimit
    }

    /**
     How a display list's item updates its entry: only if it is to be cached and no layer above it
     is, and only while the frame may still make images.
     */
    method TryToPrepareDisplayList(id: KeyId, m: M33, logicalRect: Rect, projected: (int, int), surfaceBytes: Option<nat>,
                                   wanted: bool, parentCached: bool)
      returns (cached: bool)
      requires Valid() && Balanced() && WithinLimit() && id.kind == DisplayList
      modifies this
      ensures Valid() && Balanced() && WithinLimit() && start == old(start) && marked == old(marked)
      ensures var key := MakeKey(id, m);
              var tried := wanted && !parentCached && old(GenerateNewCacheInThisFrame());
              var had := HasImage(old(cache), key);
              && (cached <==> tried && (had || surfaceBytes.Some?))
              && (HasImage(cache, key) <==> had || cached)
              && (!tried || had ==> cache == old(cache) && made == old(made))
              && ChangedOnlyAt(old(cache), cache, key)
              && (cached && !had ==> MadeFor(cache[key].image.value, m, logicalRect, projected, surfaceBytes.value))
              && made(Images(DisplayListMetrics)) ==
                 old(made)(Images(DisplayListMetrics)) + if cached && !had then 1 else 0
    {
      hide Total, Rasterize, EntryValid, Entries, Books;
      if !wanted || parentCached || !GenerateNewCacheInThisFrame() {
        return false;
      }
      RasterizedExactly(m, logicalRect, projected, surfaceBytes);
      cached := UpdateCacheEntry(id, m, logicalRect, projected, surfaceBytes);
      ImageCounted(MakeKey(id, m), EntryOf(cache, MakeKey(id, m)));
    }

    /**
     All display lists of a frame in turn: images are made until the limit is reached or none is
     wanting, whichever comes first.
     */
    method PrepareAll(items: seq<Item>)
      requires Valid() && Balanced() && WithinLimit()
      requires forall i :: 0 <= i < |items| ==> items[i].id.kind == DisplayList
      modifies this
      ensures Valid() && Balanced() && WithinLimit() && start == old(start) && marked == old(marked)
      ensures var wanting := Wanting(old(cache), items);
              made(Images(DisplayListMetrics)) ==
              if accessThreshold == 0 then 0
              else MinI(displayListLimit, old(made)(Images(DisplayListMetrics)) + |wanting|)
      ensures exists filled :: filled <= Wanting(old(cache), items) && Filled(old(cache), cache, filled)
    {
      hide Total, Rasterize, EntryValid, Entries, Books, Fitting, MadeFor, HasImage, Filled, ChangedOnlyAt, Wanting, Asks,
           KeyOf, MakeKey;
      ghost var filled: set<Key> := {};
      NothingFilled(cache);
      for i := 0 to |items|
        invariant Valid() && Balanced() && WithinLimit() && start == old(start) && marked == old(marked)
        invariant filled <= Wanting(old(cache), items[..i]) && Filled(old(cache), cache, filled)
        invariant made(Images(DisplayListMetrics)) == old(made)(Images(DisplayListMetrics)) + |filled|
        invariant GenerateNewCacheInThisFrame() ==> filled == Wanting(old(cache), items[..i])
      {
        var item := items[i];
        ghost var before := cache;
        WantingNext(old(cache), items, i);
        AsksOf(old(cache), cache, filled, item);
        var cached := TryToPrepareDisplayList(item.id, item.matrix, item.logicalRect, item.projected, item.surfaceBytes,
                                              item.wanted, item.parentCached);
        FilledMore(old(cache), before, cache, filled, KeyOf(item), cached);
        if cached && !HasImage(before, KeyOf(item)) {
          filled := filled + {KeyOf(item)};
        }
      }
      assert items[..|items|] == items;
      NoMore(filled, Wanting(old(cache), items));
    }

    /** The number of counting accesses, or -1 without an entry. */
    method GetAccessCount(id: KeyId, m: M33) returns (count: int)
      requires Valid()
      ensures var key := MakeKey(id, m);
              count == if key in marks then SinceVisible(marks[key]) else -1
    {
      var key := MakeKey(id, m);
      if key in cache {
        return cache[key].accesses;
      }
      return -1;
    }

    /** Drawing finds the image by key; where it goes is as large as the image, give or take a pixel. */
    method Draw(id: KeyId, m: M33) returns (drawn: Option<(Image, IRect)>)
      requires Valid()
      ensures var key := MakeKey(id, m);
              drawn.Some? <==> key in cache && cache[key].image.Some?
      ensures drawn.Some? && IsAffine(m) ==>
                var (image, bounds) := drawn.value;
                && bounds == CachedBounds(image.logicalRect, m)
                && -1 <= Width(bounds) - image.width <= 1
                && -1 <= Height(bounds) - image.height <= 1
                && (IsScaleTranslate(m) ==> Width(bounds) == image.width && Height(bounds) == image.height)
    {
      hide CachedBounds, SinceVisible;
      var key := MakeKey(id, m);
      if key !in cache {
        return None;
      }
      if cache[key].image.None? {
        return None;
      }
      var image := cache[key].image.value;
      if IsAffine(m) {
        ghost var made :| MakeKey(id, made) == key && image.width == Width(CachedBounds(image.logicalRect, made))
                 && image.height == Height(CachedBounds(image.logicalRect, made));
        CachedImageFits(id, m, made, image.logicalRect);
      }
      return Some((image, CachedBounds(image.logicalRect, m)));
    }

    /** The two loops over the map: find the entries nobody marked, then drop them. */
    method EvictUnusedCacheEntries()
      requires Valid() && Balanced()
      modifies this
      ensures Valid() && Balanced() && start == old(start) && made == old(made) && marked == old(marked)
      ensures cache.Keys == marked
      ensures forall k :: k in cache ==> cache[k] == old(cache[k]) && marks[k] == old(marks[k])
    {
      hide Total, Amount, SinceVisible, Fitting;
      var dead: set<Key>, todo := {}, cache.Keys;
      while todo != {}
        invariant todo <= cache.Keys
        invariant forall k :: k in dead <==> k in cache && k !in todo && !cache[k].encountered
      {
        var key :| key in todo;
        if !cache[key].encountered {
          dead := dead + {key};
        }
        todo := todo - {key};
      }
      while dead != {}
        invariant Valid() && Balanced() && start == old(start) && made == old(made) && marked == old(marked)
        invariant dead <= cache.Keys && cache.Keys - dead == marked
        invariant forall k :: k in cache ==> k in old(cache) && cache[k] == old(cache)[k] && marks[k] == old(marks)[k]
      {
        var key :| key in dead;
        EvictOne(key);
        dead := dead - {key};
      }
    }

    method EvictOne(key: Key)
      requires Valid() && Balanced() && key in cache && key !in marked
      modifies this
      ensures Valid() && Balanced() && start == old(start) && made == old(made) && marked == old(marked)
      ensures cache == old(cache) - {key} && marks == old(marks) - {key}
      ensures forall w: Measure :: Evicted(w) == old(Evicted(w)) + Amount(w, key, old(cache[key]))
    {
      hide Total, SinceVisible, Fitting;
      LessAmounts(cache, key);
      var image := cache[key].image;
      if image.Some? {
        match KindOf(key) {
          case DisplayListMetrics =>
            pictureMetrics := pictureMetrics.(evictionCount := pictureMetrics.evictionCount + 1,
              evictionBytes := pictureMetrics.evictionBytes + image.value.bytes);
          case LayerMetrics =>
            layerMetrics := layerMetrics.(evictionCount := layerMetrics.evictionCount + 1,
              evictionBytes := layerMetrics.evictionBytes + image.value.bytes);
        }
      }
      cache, marks := cache - {key}, marks - {key};
    }

    /** Close the accounts; every entry must have been marked. */
    method EndFrame()
      requires Valid() && Balanced() && cache.Keys == marked
      modifies this
      ensures Valid() && marked == {} && marks == old(marks) && start == old(start) && made == old(made)
      ensures cache.Keys == old(cache.Keys)
      ensures forall k :: k in cache ==> cache[k] == old(cache)[k].(encountered := false)
      ensures forall w: Measure :: InUse(w) == Total(cache, w)
      ensures forall w: Measure :: InUse(w) + Evicted(w) == start(w) + made(w)
    {
      hide Total, SinceVisible, Fitting, Amount;
      var todo := cache.Keys;
      ghost var rest := cache;
      while todo != {}
        invariant Valid() && rest.Keys == todo == marked
        invariant cache.Keys == old(cache.Keys) && marks == old(marks) && start == old(start) && made == old(made)
        invariant forall k :: k in cache ==>
                    cache[k] == if k in todo then old(cache)[k] else old(cache)[k].(encountered := false)
        invariant forall k :: k in rest ==> rest[k] == old(cache)[k]
        invariant forall w: Measure :: InUse(w) + Total(rest, w) == Total(old(cache), w)
        invariant forall w: Measure :: Evicted(w) == old(Evicted(w))
      {
        var key :| key in todo;
        LessAmounts(rest, key);
        CloseOne(key);
        rest := rest - {key};
        todo := todo - {key};
      }
      NothingLeft(rest);
      SameImages(cache, old(cache));
    }

    method CloseOne(key: Key)
      requires Valid() && key in marked
      modifies this
      ensures Valid() && start == old(start) && made == old(made) && marks == old(marks)
      ensures marked == old(marked) - {key}
      ensures cache == old(cache)[key := old(cache)[key].(encountered := false)]
      ensures forall w: Measure :: InUse(w) == old(InUse(w)) + Amount(w, key, old(cache)[key])
      ensures forall w: Measure :: Evicted(w) == old(Evicted(w))
    {
      hide Total, SinceVisible, Fitting, EntryValid;
      EntryClosed(key, cache[key], marks[key]);
      var image := cache[key].image;
      if image.Some? {
        match KindOf(key) {
          case DisplayListMetrics =>
            pictureMetrics := pictureMetrics.(inUseCount := pictureMetrics.inUseCount + 1,
              inUseBytes := pictureMetrics.inUseBytes + image.value.bytes);
          case LayerMetrics =>
            layerMetrics := layerMetrics.(inUseCount := layerMetrics.inUseCount + 1,
              inUseBytes := layerMetrics.inUseBytes + image.value.bytes);
        }
      }
      cache, marked := cache[key := cache[key].(encountered := false)], marked - {key};
    }

    method Clear()
      requires Valid()
      modifies this
      ensures Valid() && cache == map[] && marked == {} && layerMetrics == pictureMetrics == NoMetrics
      ensures displayListCached == old(displayListCached)
    {
      cache, marks, marked := map[], map[], {};
      pictureMetrics, layerMetrics := NoMetrics, NoMetrics;
    }

    method UseOne(u: Use)
      requires Valid() && Balanced()
      modifies this
      ensures Valid() && Balanced() && start == old(start)
      ensures marked == old(marked) + (if u.Mark? then {KeyUsed(u)} else {})
      ensures cache == OneUse(old(cache), u)
      ensures forall w: Measure :: made(w) == old(made)(w) + MadeByOne(w, old(cache), u)
      ensures marks == OneMark(old(marks), u)
    {
      hide EntryValid, Total, Amount, SinceVisible, Rasterize, MakeKey, Marking, Filling;
      match u
      case Mark(id, m, visible) =>
        var _ := MarkSeen(id, m, visible);
      case Update(id, m, logicalRect, projected, surfaceBytes) =>
        UpdateMarksNothing(marks, u);
        FilledAmount(cache, KeyUsed(u), Rasterize(m, logicalRect, projected, surfaceBytes));
        var _ := UpdateCacheEntry(id, m, logicalRect, projected, surfaceBytes);
    }

    /** Some marks and updates in a row; once the unused entries are gone, only marked ones are updated. */
    method RunUses(uses: seq<Use>, evicted: bool)
      requires Valid() && Balanced()
      requires evicted ==> cache.Keys == marked && OnlyMarked(uses, marked)
      modifies this
      ensures Valid() && Balanced() && start == old(start)
      ensures marked == old(marked) + MarkedBy(uses)
      ensures evicted ==> cache.Keys == marked
      ensures cache == CacheAfter(old(cache), uses)
      ensures forall w: Measure :: made(w) == old(made)(w) + MadeBy(w, old(cache), uses)
      ensures forall k :: k in cache ==> marks[k] == MarksBefore(old(marks), k) + VisibilityOf(uses, k)
    {
      hide EntryValid, MarkedBy, VisibilityOf, Total, Amount, KeyUsed, MarkOf, MarksAfter, OneMark, OnlyMarked;
      hide OneUse, MadeByOne, CacheAfter, MadeBy;
      MarkedNone();
      MadeNone(cache);
      for i := 0 to |uses|
        invariant Valid() && Balanced() && start == old(start)
        invariant marked == old(marked) + MarkedBy(uses[..i])
        invariant evicted ==> cache.Keys == marked
        invariant marks == MarksAfter(old(marks), uses[..i])
        invariant cache == CacheAfter(old(cache), uses[..i])
        invariant forall w: Measure :: made(w) == old(made)(w) + MadeBy(w, old(cache), uses[..i])
      {
        KeysAfterOne(cache, uses[i]);
        MadeOneMore(old(cache), uses, i);
        if evicted {
          MarkedThen(uses, old(marked), i);
        }
        OneMore(uses, i);
        AfterOneMore(old(marks), uses, i);
        UseOne(uses[i]);
      }
      assert uses[..|uses|] == uses;
      AfterAll(old(marks), uses);
    }

    /**
     A whole frame, as a function of the cache before it and of the uses.  Survivors
     are exactly the marked keys; for each kind what is in use and what was evicted is
     what there was and what the uses rasterised; and each access count stems from the
     marks of its entry's lifetime alone.
     */
    method RunFrame(before: seq<Use>, after: seq<Use>)
      requires Valid() && marked == {} && OnlyMarked(after, MarkedBy(before))
      modifies this
      ensures Valid() && marked == {}
      ensures cache.Keys == MarkedBy(before) + MarkedBy(after)
      ensures cache == Closed(CacheAfter(Survivors(old(cache), before), after))
      ensures forall w: Measure :: InUse(w) == Total(cache, w)
      ensures forall w: Measure ::
                Evicted(w) == Total(CacheAfter(old(cache), before), w) - Total(Survivors(old(cache), before), w)
      ensures forall w: Measure ::
                InUse(w) + Evicted(w) ==
                Total(old(cache), w) + MadeBy(w, old(cache), before) + MadeBy(w, Survivors(old(cache), before), after)
      ensures forall k :: k in cache ==>
                && cache[k].accesses == SinceVisible(marks[k])
                && marks[k] == (if k in MarkedBy(before) then MarksBefore(old(marks), k) + VisibilityOf(before, k) else [])
                               + VisibilityOf(after, k)
    {
      hide EntryValid, MarkedBy, VisibilityOf, Total, Amount, SinceVisible, OnlyMarked, CacheAfter, MadeBy, Survivors,
           MarksBefore;
      UseFrame(before, after);
      FrameBalance(old(cache), before, after);
      ghost var last := cache;
      EndFrame();
      assert cache == Closed(last);
      AccessesCounted();
    }

    /** The frame up to its end. */
    method UseFrame(before: seq<Use>, after: seq<Use>)
      requires Valid() && marked == {} && OnlyMarked(after, MarkedBy(before))
      modifies this
      ensures Valid() && Balanced() && cache.Keys == marked == MarkedBy(before) + MarkedBy(after)
      ensures cache == CacheAfter(Survivors(old(cache), before), after)
      ensures forall w: Measure ::
                start(w) == Total(old(cache), w)
                && made(w) == MadeBy(w, old(cache), before) + MadeBy(w, Survivors(old(cache), before), after)
      ensures forall k :: k in cache ==>
                marks[k] == (if k in MarkedBy(before) then MarksBefore(old(marks), k) + VisibilityOf(before, k) else [])
                            + VisibilityOf(after, k)
    {
      hide EntryValid, MarkedBy, VisibilityOf, Total, Amount, SinceVisible, OnlyMarked, CacheAfter, MadeBy;
      BeginFrame();
      RunUses(before, false);
      assert marked == MarkedBy(before);
      EvictUnusedCacheEntries();
      assert cache == Survivors(old(cache), before);
      RunUses(after, true);
    }

    lemma AccessesCounted()
      requires Valid()
      ensures forall k :: k in cache ==> cache[k].accesses == SinceVisible(marks[k])
    {
      hide SinceVisible;
    }

    /** Both byte estimates, by kind. */
    method EstimateCacheByteSize(kind: Kind) returns (bytes: nat)
      ensures bytes == Total(cache, Bytes(kind))
    {
      hide Total;
      bytes := 0;
      var rest := cache;
      while rest != map[]
        invariant bytes + Total(rest, Bytes(kind)) == Total(cache, Bytes(kind))
        decreases |rest|
      {
        var key :| key in rest;
        TotalAt(rest, Bytes(kind), key);
        if KindOf(key) == kind && rest[key].image.Some? {
          bytes := bytes + rest[key].image.value.bytes;
        }
        assert |rest.Keys - {key}| < |rest.Keys| && (rest - {key}).Keys == rest.Keys - {key};
        rest := rest - {key};
      }
      NothingLeft(rest);
    }
  }

  // ----- frames -----

  datatype Use =
    | Mark(id: KeyId, matrix: M33, visible: bool)
    | Update(id: KeyId, matrix: M33, logicalRect: Rect, projected: (int, int), surfaceBytes: Option<nat>)

  function KeyUsed(u: Use): Key { MakeKey(u.id, u.matrix) }

  function MarkedBy(uses: seq<Use>): set<Key> {
    set i | 0 <= i < |uses| && uses[i].Mark? :: KeyUsed(uses[i])
  }

  /** The visibilities one key is marked with, in order. */
  function VisibilityOf(uses: seq<Use>, key: Key): seq<bool> {
    if uses == [] then []
    else
      var last := uses[|uses| - 1];
      VisibilityOf(uses[..|uses| - 1], key) + MarkOf(last, key)
  }

  function MarkOf(u: Use, key: Key): seq<bool> {
    if u.Mark? && KeyUsed(u) == key then [u.visible] else []
  }

  /** Every update is of a key marked by then. */
  predicate OnlyMarked(uses: seq<Use>, marked: set<Key>) {
    forall i :: 0 <= i < |uses| && uses[i].Update? ==> KeyUsed(uses[i]) in marked + MarkedBy(uses[..i])
  }

  function MarksBefore(marks: map<Key, seq<bool>>, key: Key): seq<bool> {
    if key in marks then marks[key] else []
  }

  function OneMark(marks: map<Key, seq<bool>>, u: Use): map<Key, seq<bool>> {
    marks[KeyUsed(u) := MarksBefore(marks, KeyUsed(u)) + MarkOf(u, KeyUsed(u))]
  }

  lemma UpdateMarksNothing(marks: map<Key, seq<bool>>, u: Use)
    requires u.Update?
    ensures OneMark(marks, u) == if KeyUsed(u) in marks then marks else marks[KeyUsed(u) := []]
  {
    assert MarksBefore(marks, KeyUsed(u)) + [] == MarksBefore(marks, KeyUsed(u));
  }

  function MarksAfter(marks: map<Key, seq<bool>>, uses: seq<Use>): map<Key, seq<bool>> {
    if uses == [] then marks else OneMark(MarksAfter(marks, uses[..|uses| - 1]), uses[|uses| - 1])
  }

  // ----- what uses do to the cache, and what they rasterise -----

  function OneUse(cache: map<Key, Entry>, u: Use): map<Key, Entry> {
    match u
    case Mark(_, _, visible) => Marking(cache, KeyUsed(u), visible)
    case Update(_, m, logicalRect, projected, surfaceBytes) =>
      if HasImage(cache, KeyUsed(u)) then cache
      else Filling(cache, KeyUsed(u), Rasterize(m, logicalRect, projected, surfaceBytes))
  }

  /** An update rasterises exactly if the entry has no image yet. */
  function MadeByOne(w: Measure, cache: map<Key, Entry>, u: Use): nat {
    match u
    case Mark(_, _, _) => 0
    case Update(_, m, logicalRect, projected, surfaceBytes) =>
      if HasImage(cache, KeyUsed(u)) then 0
      else Amount(w, KeyUsed(u), NewEntry.(image := Rasterize(m, logicalRect, projected, surfaceBytes)))
  }

  function CacheAfter(cache: map<Key, Entry>, uses: seq<Use>): map<Key, Entry> {
    if uses == [] then cache else OneUse(CacheAfter(cache, uses[..|uses| - 1]), uses[|uses| - 1])
  }

  function MadeBy(w: Measure, cache: map<Key, Entry>, uses: seq<Use>): nat {
    if uses == [] then 0 else
    var rest := uses[..|uses| - 1];
    MadeBy(w, cache, rest) + MadeByOne(w, CacheAfter(cache, rest), uses[|uses| - 1])
  }

  /** The entries some uses leave and mark. */
  function Survivors(cache: map<Key, Entry>, uses: seq<Use>): map<Key, Entry> {
    var after := CacheAfter(cache, uses);
    map k | k in after && k in MarkedBy(uses) :: after[k]
  }

  function Closed(cache: map<Key, Entry>): map<Key, Entry> {
    map k | k in cache :: cache[k].(encountered := false)
  }

  lemma MadeNone(cache: map<Key, Entry>)
    ensures CacheAfter(cache, []) == cache && forall w: Measure :: MadeBy(w, cache, []) == 0
  {
  }

  lemma KeysAfterOne(cache: map<Key, Entry>, u: Use)
    ensures OneUse(cache, u).Keys == cache.Keys + {KeyUsed(u)}
  {
    hide Rasterize, KeyUsed;
  }

  lemma MadeOneMore(cache: map<Key, Entry>, uses: seq<Use>, i: nat)
    requires i < |uses|
    ensures CacheAfter(cache, uses[..i + 1]) == OneUse(CacheAfter(cache, uses[..i]), uses[i])
    ensures forall w: Measure ::
              MadeBy(w, cache, uses[..i + 1]) ==
              MadeBy(w, cache, uses[..i]) + MadeByOne(w, CacheAfter(cache, uses[..i]), uses[i])
  {
    hide OneUse, MadeByOne;
    assert uses[..i + 1][..i] == uses[..i];
  }

  /** What is rasterised is what the totals grow by: the images that appear, and their bytes. */
  lemma {:induction false} MadeIsGrowth(cache: map<Key, Entry>, uses: seq<Use>)
    ensures forall w: Measure :: Total(CacheAfter(cache, uses), w) == Total(cache, w) + MadeBy(w, cache, uses)
  {
    hide Total, OneUse, MadeByOne;
    if uses != [] {
      var rest, u := uses[..|uses| - 1], uses[|uses| - 1];
      MadeIsGrowth(cache, rest);
      OneUseGrows(CacheAfter(cache, rest), u);
    }
  }

  lemma OneUseGrows(cache: map<Key, Entry>, u: Use)
    ensures forall w: Measure :: Total(OneUse(cache, u), w) == Total(cache, w) + MadeByOne(w, cache, u)
  {
    hide Total, KeyUsed, Rasterize;
    var key := KeyUsed(u);
    match u
    case Mark(_, _, visible) => SameAmounts(cache, key, Marking(cache, key, visible)[key]);
    case Update(_, m, logicalRect, projected, surfaceBytes) =>
      if !HasImage(cache, key) {
        MoreAmounts(cache, key, EntryOf(cache, key).(image := Rasterize(m, logicalRect, projected, surfaceBytes)));
      }
  }

  lemma FilledAmount(cache: map<Key, Entry>, key: Key, image: Option<Image>)
    ensures forall w: Measure ::
              Amount(w, key, Filling(cache, key, image)[key]) == Amount(w, key, NewEntry.(image := image))
  {
  }

  /** Over a frame, what goes in and does not stay is what the first half leaves unmarked. */
  lemma FrameBalance(cache: map<Key, Entry>, before: seq<Use>, after: seq<Use>)
    ensures var kept := Survivors(cache, before);
            forall w: Measure ::
              Total(cache, w) + MadeBy(w, cache, before) + MadeBy(w, kept, after)
              - Total(Closed(CacheAfter(kept, after)), w)
              == Total(CacheAfter(cache, before), w) - Total(kept, w)
  {
    hide Total, MadeBy, CacheAfter, Survivors;
    var kept := Survivors(cache, before);
    MadeIsGrowth(cache, before);
    MadeIsGrowth(kept, after);
    SameImages(Closed(CacheAfter(kept, after)), CacheAfter(kept, after));
  }

  /** Uses without a successful update rasterise nothing. */
  lemma {:induction false} NothingMade(w: Measure, cache: map<Key, Entry>, uses: seq<Use>)
    requires forall i :: 0 <= i < |uses| && uses[i].Update? ==> uses[i].surfaceBytes.None?
    ensures MadeBy(w, cache, uses) == 0
  {
    hide CacheAfter, KeyUsed;
    if uses != [] {
      NothingMade(w, cache, uses[..|uses| - 1]);
    }
  }

  lemma MarkedNone()
    ensures MarkedBy([]) == {} && forall marks :: MarksAfter(marks, []) == marks
  {
  }

  lemma OneMore(uses: seq<Use>, i: nat)
    requires i < |uses|
    ensures MarkedBy(uses[..i + 1]) == MarkedBy(uses[..i]) + if uses[i].Mark? then {KeyUsed(uses[i])} else {}
  {
    assert forall j :: 0 <= j <= i ==> uses[..i + 1][j] == uses[j];
  }

  /** Updating what was marked already is always allowed, in whatever order. */
  lemma MarkedMayUpdate(uses: seq<Use>, marked: set<Key>)
    requires forall i :: 0 <= i < |uses| && uses[i].Update? ==> KeyUsed(uses[i]) in marked
    ensures OnlyMarked(uses, marked)
  {
  }

  lemma MarkedThen(uses: seq<Use>, marked: set<Key>, i: nat)
    requires OnlyMarked(uses, marked) && i < |uses|
    ensures uses[i].Update? ==> KeyUsed(uses[i]) in marked + MarkedBy(uses[..i])
  {
  }

  lemma AfterOneMore(marks: map<Key, seq<bool>>, uses: seq<Use>, i: nat)
    requires i < |uses|
    ensures MarksAfter(marks, uses[..i + 1]) == OneMark(MarksAfter(marks, uses[..i]), uses[i])
  {
    assert uses[..i + 1][..i] == uses[..i];
  }

  /** What a row of uses adds to each entry's marks. */
  ghost predicate Accounts(marks: map<Key, seq<bool>>, uses: seq<Use>) {
    var after := MarksAfter(marks, uses);
    && marks.Keys <= after.Keys
    && (forall k :: k in after ==> after[k] == MarksBefore(marks, k) + VisibilityOf(uses, k))
    && (forall k :: k !in after ==> VisibilityOf(uses, k) == [])
  }

  lemma {:induction false} AccountOf(marks: map<Key, seq<bool>>, uses: seq<Use>, k: Key)
    ensures var after := MarksAfter(marks, uses);
            && (k in marks ==> k in after)
            && (if k in after then after[k] == MarksBefore(marks, k) + VisibilityOf(uses, k)
                else VisibilityOf(uses, k) == [])
  {
    if uses == [] {
      assert MarksBefore(marks, k) + [] == MarksBefore(marks, k);
    } else {
      var rest, u := uses[..|uses| - 1], uses[|uses| - 1];
      AccountOf(marks, rest, k);
      assert VisibilityOf(uses, k) == VisibilityOf(rest, k) + MarkOf(u, k);
      assert MarksAfter(marks, uses) == OneMark(MarksAfter(marks, rest), u);
      hide VisibilityOf, MarksAfter, KeyUsed;
      Bits.Regroup(MarksBefore(marks, k), VisibilityOf(rest, k), MarkOf(u, k));
      assert VisibilityOf(rest, k) + [] == VisibilityOf(rest, k);
    }
  }

  lemma AfterAll(marks: map<Key, seq<bool>>, uses: seq<Use>)
    ensures Accounts(marks, uses)
  {
    hide VisibilityOf, MarksAfter, MarksBefore;
    forall k
      ensures k in marks ==> k in MarksAfter(marks, uses)
      ensures if k in MarksAfter(marks, uses)
              then MarksAfter(marks, uses)[k] == MarksBefore(marks, k) + VisibilityOf(uses, k)
              else VisibilityOf(uses, k) == []
    {
      AccountOf(marks, uses, k);
    }
  }

  // ----- facts about entries and totals -----

  function Zero(w: Measure): nat { 0 }

  ghost predicate Entries(cache: map<Key, Entry>, marks: map<Key, seq<bool>>, marked: set<Key>) {
    && marks.Keys == cache.Keys && marked <= cache.Keys
    && forall k :: k in cache ==> EntryValid(k, cache[k], marks[k], k in marked)
  }

  ghost predicate Books(cache: map<Key, Entry>, layer: Metrics, picture: Metrics, start: Measure -> nat,
                        made: Measure -> nat)
  {
    && layer.inUseCount == layer.inUseBytes == 0 && picture.inUseCount == picture.inUseBytes == 0
    && forall w: Measure ::
         Total(cache, w) + EvictedIn(w, MetricsFor(w.kind, layer, picture)) == start(w) + made(w)
  }

  ghost predicate EntryValid(key: Key, entry: Entry, marks: seq<bool>, marked: bool) {
    && entry.accesses == SinceVisible(marks)
    && entry.encountered == marked
    && entry.visible == (marks != [] && marks[|marks| - 1])
    && (entry.image.Some? ==> Fitting(key, entry.image.value))
  }

  lemma FreshEntry(key: Key)
    ensures EntryValid(key, NewEntry, [], false)
  {
  }

  lemma EntryFilled(key: Key, entry: Entry, marks: seq<bool>, marked: bool, image: Option<Image>)
    requires EntryValid(key, entry, marks, marked) && (image.Some? ==> Fitting(key, image.value))
    ensures EntryValid(key, entry.(image := image), marks, marked)
  {
  }

  lemma EntryClosed(key: Key, entry: Entry, marks: seq<bool>)
    requires EntryValid(key, entry, marks, true)
    ensures EntryValid(key, entry.(encountered := false), marks, false)
  {
  }

  lemma EntriesFilled(cache: map<Key, Entry>, marks: map<Key, seq<bool>>, marked: set<Key>, key: Key, image: Option<Image>)
    requires Entries(cache, marks, marked) && (image.Some? ==> Fitting(key, image.value))
    ensures Entries(Filling(cache, key, image), if key in marks then marks else marks[key := []], marked)
  {
    hide EntryValid, Fitting;
    FreshEntry(key);
    EntryFilled(key, EntryOf(cache, key), if key in marks then marks[key] else [], key in marked, image);
  }

  lemma BooksFilled(cache: map<Key, Entry>, layer: Metrics, picture: Metrics, start: Measure -> nat, made: Measure -> nat,
                    key: Key, image: Option<Image>, next: Measure -> nat)
    requires Books(cache, layer, picture, start, made) && !HasImage(cache, key)
    requires forall w: Measure :: next(w) == made(w) + Amount(w, key, EntryOf(cache, key).(image := image))
    ensures Books(Filling(cache, key, image), layer, picture, start, next)
  {
    hide Total, Amount, EvictedIn, MetricsFor;
    MoreAmounts(cache, key, EntryOf(cache, key).(image := image));
  }

  lemma FilledEntry(cache: map<Key, Entry>, key: Key, image: Option<Image>)
    ensures key in Filling(cache, key, image) && Filling(cache, key, image)[key] == EntryOf(cache, key).(image := image)
  {
  }

  lemma NothingLeft(rest: map<Key, Entry>)
    requires rest == map[]
    ensures forall w: Measure :: Total(rest, w) == 0
  {
  }

  /** Marking changes no amounts. */
  lemma SameAmounts(cache: map<Key, Entry>, key: Key, entry: Entry)
    requires entry.image == (if key in cache then cache[key].image else None)
    ensures forall w: Measure :: Total(cache[key := entry], w) == Total(cache, w)
  {
    hide Total;
    forall w: Measure ensures Total(cache[key := entry], w) == Total(cache, w) {
      TotalReplaced(cache, w, key, entry);
    }
  }

  lemma MoreAmounts(cache: map<Key, Entry>, key: Key, entry: Entry)
    requires key in cache ==> cache[key].image.None?
    ensures forall w: Measure :: Total(cache[key := entry], w) == Total(cache, w) + Amount(w, key, entry)
  {
    hide Total;
    forall w: Measure ensures Total(cache[key := entry], w) == Total(cache, w) + Amount(w, key, entry) {
      TotalReplaced(cache, w, key, entry);
    }
  }

  lemma LessAmounts(cache: map<Key, Entry>, key: Key)
    requires key in cache
    ensures forall w: Measure :: Total(cache, w) == Total(cache - {key}, w) + Amount(w, key, cache[key])
  {
    hide Total;
    forall w: Measure ensures Total(cache, w) == Total(cache - {key}, w) + Amount(w, key, cache[key]) {
      TotalAt(cache, w, key);
    }
  }

  lemma {:induction false} SameImages(a: map<Key, Entry>, b: map<Key, Entry>)
    requires a.Keys == b.Keys && forall k :: k in a ==> a[k].image == b[k].image
    ensures forall w: Measure :: Total(a, w) == Total(b, w)
    decreases |a|
  {
    hide Total;
    if a == map[] {
      assert b == map[];
    } else {
      var key :| key in a;
      LessAmounts(a, key);
      LessAmounts(b, key);
      assert (a - {key}).Keys == a.Keys - {key} == (b - {key}).Keys;
      assert |a.Keys - {key}| < |a.Keys|;
      SameImages(a - {key}, b - {key});
    }
  }

  lemma ImageCounted(key: Key, entry: Entry)
    ensures Amount(Images(DisplayListMetrics), key, entry) ==
            if entry.image.Some? && key.id.kind == DisplayList then 1 else 0
  {
  }

  lemma RasterizedFits(id: KeyId, m: M33, logicalRect: Rect, projected: (int, int), surfaceBytes: Option<nat>)
    ensures var image := Rasterize(m, logicalRect, projected, surfaceBytes);
            image.Some? ==> Fitting(MakeKey(id, m), image.value)
  {
  }
}
