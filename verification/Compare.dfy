/**
 Records as bytes: packing them into storage (display_list/dl_builder.cc, `Push`)
 and comparing two lists (display_list/display_list.cc, `CompareOps`, `Equals`).

 A record is a four byte header, its kind and its size, followed by its fields.
 Most kinds are compared as bytes, lazily and in bulk across neighbouring records;
 the deep kinds refer to other objects and bring their own comparison.
 */
module Compare {
  import opened Records
  import opened Bits

  // ----- the byte stream -----

  const HEADER := 4

  function SizeField(s: seq<Octet>): nat
    requires |s| >= HEADER
  {
    (s[1] as int) + 256 * (s[2] as int) + 65536 * (s[3] as int)
  }

  /** The stream splits into records, each as long as its header says. */
  predicate Tiled(s: seq<Octet>)
    decreases |s|
  {
    s == [] || (|s| >= HEADER && HEADER <= SizeField(s) <= |s| && Tiled(s[SizeField(s)..]))
  }

  function Split(s: seq<Octet>): (records: seq<seq<Octet>>)
    requires Tiled(s)
    ensures forall r :: r in records ==> |r| >= HEADER && SizeField(r) == |r|
    decreases |s|
  {
    if s == [] then [] else [s[..SizeField(s)]] + Split(s[SizeField(s)..])
  }

  // ----- the simple comparison -----

  /** What the record structures supply: the kinds with a comparison of their own, it, and how each kind counts. */
  datatype Kinds = Kinds(
    deep: Octet -> bool,
    alike: (seq<Octet>, seq<Octet>) -> bool,
    weight: Octet -> nat)

  predicate SameRecord(k: Kinds, a: seq<Octet>, b: seq<Octet>)
    requires |a| >= HEADER && |b| >= HEADER
  {
    a[0] == b[0] && |a| == |b| && if k.deep(a[0]) then k.alike(a, b) else a == b
  }

  predicate SameRecords(k: Kinds, a: seq<seq<Octet>>, b: seq<seq<Octet>>)
    requires forall r :: r in a ==> |r| >= HEADER
    requires forall r :: r in b ==> |r| >= HEADER
  {
    |a| == |b| && forall i :: 0 <= i < |a| ==> SameRecord(k, a[i], b[i])
  }

  predicate SameStream(k: Kinds, a: seq<Octet>, b: seq<Octet>)
    requires Tiled(a) && Tiled(b)
  {
    SameRecords(k, Split(a), Split(b))
  }

  /** Comparing the first records and then the rest. */
  lemma SameStreamStep(k: Kinds, a: seq<Octet>, b: seq<Octet>)
    requires Tiled(a) && Tiled(b) && a != [] && b != []
    ensures SameStream(k, a, b) <==>
            && SameRecord(k, a[..SizeField(a)], b[..SizeField(b)])
            && SameStream(k, a[SizeField(a)..], b[SizeField(b)..])
  {
    hide Tiled, SizeField, SameRecord;
    TiledFacts(a);
    TiledFacts(b);
    var n, m := SizeField(a), SizeField(b);
    SplitStep(a);
    SplitStep(b);
    hide Split;
    SameRecordsStep(k, a[..n], Split(a[n..]), b[..m], Split(b[m..]));
  }

  lemma SplitStep(s: seq<Octet>)
    requires |s| >= HEADER && HEADER <= SizeField(s) <= |s| && Tiled(s[SizeField(s)..])
    ensures Tiled(s) && Split(s) == [s[..SizeField(s)]] + Split(s[SizeField(s)..])
  {
  }

  lemma SameRecordsStep(k: Kinds, x: seq<Octet>, a: seq<seq<Octet>>, y: seq<Octet>, b: seq<seq<Octet>>)
    requires |x| >= HEADER && forall r :: r in a ==> |r| >= HEADER
    requires |y| >= HEADER && forall r :: r in b ==> |r| >= HEADER
    ensures SameRecords(k, [x] + a, [y] + b) <==> SameRecord(k, x, y) && SameRecords(k, a, b)
  {
    hide SameRecord;
    var xs, ys := [x] + a, [y] + b;
    if SameRecords(k, xs, ys) {
      assert SameRecord(k, xs[0], ys[0]);
      forall i | 0 <= i < |a| ensures SameRecord(k, a[i], b[i]) {
        assert xs[i + 1] == a[i] && ys[i + 1] == b[i];
      }
    }
  }

  lemma TiledFacts(s: seq<Octet>)
    requires Tiled(s) && s != []
    ensures |s| >= HEADER && HEADER <= SizeField(s) <= |s| && Tiled(s[SizeField(s)..])
    ensures SizeField(s[..SizeField(s)]) == SizeField(s)
    ensures s[..SizeField(s)][0] == s[0]
  {
    hide Tiled;
    assert |s| >= HEADER && HEADER <= SizeField(s) <= |s| && Tiled(s[SizeField(s)..]) by { TiledUnfold(s); }
  }

  lemma TiledUnfold(s: seq<Octet>)
    requires Tiled(s) && s != []
    ensures |s| >= HEADER && HEADER <= SizeField(s) <= |s| && Tiled(s[SizeField(s)..])
  {
  }

  lemma SameStreamEnds(k: Kinds, a: seq<Octet>, b: seq<Octet>)
    requires Tiled(a) && Tiled(b) && (a == [] || b == [])
    ensures SameStream(k, a, b) <==> a == b == []
  {
    hide SizeField, SameRecord;
    assert a != [] ==> Split(a) != [];
    assert b != [] ==> Split(b) != [];
  }

  // ----- the lazy comparison -----

  datatype Verdict = UseBulkCompare | NotEqual | Equal

  function OpEquals(k: Kinds, a: seq<Octet>, b: seq<Octet>): Verdict
    requires |a| >= HEADER
  {
    if !k.deep(a[0]) then UseBulkCompare
    else if k.alike(a, b) then Equal
    else NotEqual
  }

  /**
   Bytes are compared only when a deep record or the end is reached, over all
   the plain records passed since; the answer is that of the simple comparison.
   */
  method CompareOps(k: Kinds, a: seq<Octet>, b: seq<Octet>) returns (same: bool)
    requires Tiled(a) && Tiled(b) && |a| == |b|
    ensures same <==> SameStream(k, a, b)
  {
    hide Tiled, SizeField, SameStream, SameRecord;
    var p, q, bulk := 0, 0, 0;
    assert a[0..] == a && b[0..] == b;
    while p < |a| && q < |b|
      invariant bulk <= p == q <= |a|
      invariant Tiled(a[p..]) && Tiled(b[q..])
      invariant SameStream(k, a, b) <==> a[bulk..p] == b[bulk..q] && SameStream(k, a[p..], b[q..])
    {
      var opA, opB := p, q;
      TiledFacts(a[p..]);
      TiledFacts(b[q..]);
      SameStreamStep(k, a[p..], b[q..]);
      var size, other := SizeField(a[p..]), SizeField(b[q..]);
      var x, y := a[p..p + size], b[q..q + other];
      Recognised(k, a[p..], b[q..]);
      assert x == a[p..][..size] && y == b[q..][..other];
      if a[p] != b[q] || size != other {
        return false;
      }
      Onward(a, p, size);
      Onward(b, q, size);
      p, q := p + size, q + other;
      match OpEquals(k, x, y) {
        case NotEqual =>
          return false;
        case UseBulkCompare =>
          BulkGrows(a, b, bulk, opA, p);
        case Equal =>
          if opA > bulk && a[bulk..opA] != b[bulk..opB] {
            return false;
          }
          assert a[p..p] == b[p..p];
          bulk := p;
      }
    }
    SameStreamEnds(k, a[p..], b[q..]);
    if p != |a| || q != |b| {
      return false;
    }
    if bulk < p && a[bulk..p] != b[bulk..p] {
      return false;
    }
    return true;
  }

  lemma Onward(s: seq<Octet>, p: nat, size: nat)
    requires p + size <= |s|
    ensures s[p..][size..] == s[p + size..]
  {
  }

  /** The verdict of the first record, in terms of the simple comparison. */
  lemma Recognised(k: Kinds, a: seq<Octet>, b: seq<Octet>)
    requires Tiled(a) && Tiled(b) && a != [] && b != []
    ensures |a| >= HEADER && |b| >= HEADER && HEADER <= SizeField(a) <= |a| && HEADER <= SizeField(b) <= |b|
    ensures var x, y := a[..SizeField(a)], b[..SizeField(b)];
            SameRecord(k, x, y) <==>
            a[0] == b[0] && |x| == |y| &&
            match OpEquals(k, x, y) case NotEqual => false case Equal => true case UseBulkCompare => x == y
  {
    TiledFacts(a);
    TiledFacts(b);
  }

  lemma BulkGrows(a: seq<Octet>, b: seq<Octet>, from: nat, mid: nat, to: nat)
    requires from <= mid <= to <= |a| && to <= |b|
    ensures a[from..to] == b[from..to] <==> a[from..mid] == b[from..mid] && a[mid..to] == b[mid..to]
  {
    assert a[from..to] == a[from..mid] + a[mid..to];
    assert b[from..to] == b[from..mid] + b[mid..to];
    assert a[from..to][..mid - from] == a[from..mid] && a[from..to][mid - from..] == a[mid..to];
    assert b[from..to][..mid - from] == b[from..mid] && b[from..to][mid - from..] == b[mid..to];
  }

  // ----- whole lists -----

  datatype DisplayList = DisplayList(storage: seq<Octet>, opCount: nat)

  function Weight(k: Kinds, records: seq<seq<Octet>>): nat
    requires forall r :: r in records ==> |r| >= HEADER
  {
    if records == [] then 0 else Weight(k, records[..|records| - 1]) + k.weight(records[|records| - 1][0])
  }

  /** What a builder hands out: whole records, and their count. */
  predicate Built(k: Kinds, list: DisplayList) {
    Tiled(list.storage) && list.opCount == Weight(k, Split(list.storage))
  }

  lemma {:induction false} TotalSize(k: Kinds, a: seq<Octet>, b: seq<Octet>)
    requires Tiled(a) && Tiled(b) && SameStream(k, a, b)
    ensures |a| == |b|
    decreases |a|
  {
    if a == [] || b == [] {
      SameStreamEnds(k, a, b);
    } else {
      SameStreamStep(k, a, b);
      TotalSize(k, a[SizeField(a)..], b[SizeField(b)..]);
    }
  }

  lemma {:induction false} TotalWeight(k: Kinds, a: seq<seq<Octet>>, b: seq<seq<Octet>>)
    requires forall r :: r in a ==> |r| >= HEADER
    requires forall r :: r in b ==> |r| >= HEADER
    requires SameRecords(k, a, b)
    ensures Weight(k, a) == Weight(k, b)
  {
    if a != [] {
      var n := |a| - 1;
      assert a[n][0] == b[n][0] by { assert SameRecord(k, a[n], b[n]); }
      hide SameRecord;
      TotalWeight(k, a[..n], b[..n]);
    }
  }

  /**
   The byte and operation counts only ever rule out lists that differ anyway.
   The identity test answers for itself: a deep record need not be like itself
   (a coordinate that is not a number).  Two lists share storage only when
   neither has any.
   */
  method Equals(k: Kinds, x: DisplayList, y: DisplayList, sameList: bool, sameStorage: bool) returns (same: bool)
    requires Built(k, x) && Built(k, y)
    requires sameList ==> x == y
    requires sameStorage && !sameList ==> x.storage == y.storage == []
    ensures same <==> sameList || SameStream(k, x.storage, y.storage)
  {
    hide Tiled, Split, Weight;
    if sameList {
      return true;
    }
    if SameStream(k, x.storage, y.storage) {
      TotalSize(k, x.storage, y.storage);
      TotalWeight(k, Split(x.storage), Split(y.storage));
    }
    if |x.storage| != |y.storage| || x.opCount != y.opCount {
      return false;
    }
    if sameStorage {
      SameStreamEnds(k, x.storage, y.storage);
      return true;
    }
    same := CompareOps(k, x.storage, y.storage);
  }

  /** A kind that is never like itself, as a record with a coordinate that is not a number is not. */
  lemma NotLikeItselfExample()
    ensures var k := Kinds(kind => true, (a, b) => false, kind => 1);
            var list := DisplayList([0, 4, 0, 0], 1);
            Built(k, list) && !SameStream(k, list.storage, list.storage)
  {
    var k := Kinds(kind => true, (a, b) => false, kind => 1);
    var s: seq<Octet> := [0, 4, 0, 0];
    assert SizeField(s) == 4 && s[4..] == [] && s[..4] == s;
    assert Tiled(s) && Split(s) == [s];
    assert Weight(k, [s]) == 1 by { assert [s][..0] == []; assert Weight(k, []) == 0; }
    assert !SameRecord(k, Split(s)[0], Split(s)[0]);
  }

  ghost predicate Equivalence(k: Kinds) {
    && (forall r :: k.alike(r, r))
    && (forall r, s :: k.alike(r, s) ==> k.alike(s, r))
    && (forall r, s, t :: k.alike(r, s) && k.alike(s, t) ==> k.alike(r, t))
  }

  /** Equality of lists is an equivalence when the comparisons of the deep kinds are. */
  lemma EqualsIsEquivalence(k: Kinds, x: seq<Octet>, y: seq<Octet>, z: seq<Octet>)
    requires Tiled(x) && Tiled(y) && Tiled(z) && Equivalence(k)
    ensures SameStream(k, x, x)
    ensures SameStream(k, x, y) ==> SameStream(k, y, x)
    ensures SameStream(k, x, y) && SameStream(k, y, z) ==> SameStream(k, x, z)
  {
    hide Tiled, Split, SizeField;
    var a, b, c := Split(x), Split(y), Split(z);
    assert forall i :: 0 <= i < |a| ==> SameRecord(k, a[i], a[i]);
    if SameStream(k, x, y) {
      forall i | 0 <= i < |a| ensures SameRecord(k, b[i], a[i]) { assert SameRecord(k, a[i], b[i]); }
      if SameStream(k, y, z) {
        forall i | 0 <= i < |a| ensures SameRecord(k, a[i], c[i]) {
          assert SameRecord(k, a[i], b[i]) && SameRecord(k, b[i], c[i]);
        }
      }
    }
  }

  // ----- packing -----

  /** An operation as its constructor writes it: `None` is alignment padding, which nobody writes. */
  datatype Op = Op(kind: Octet, fields: seq<Option<Octet>>)

  function AlignPtr(n: nat): (m: nat)
    ensures n <= m < n + 8 && m % 8 == 0
  {
    (n + 7) / 8 * 8
  }

  function OpSize(op: Op): (n: nat)
    ensures n >= HEADER + |op.fields|
  {
    AlignPtr(HEADER + |op.fields|)
  }

  predicate Fits(op: Op) { OpSize(op) < 0x100_0000 }

  function FieldByte(op: Op, i: nat): Octet {
    if i < |op.fields| && op.fields[i].Some? then op.fields[i].value else 0
  }

  /** The record of an operation, padding being zero. */
  function Bytes(op: Op): (s: seq<Octet>)
    requires Fits(op)
    ensures |s| == OpSize(op) && s[0] == op.kind && SizeField(s) == OpSize(op)
  {
    var n := OpSize(op);
    SizeSplits(n);
    [op.kind, n % 256, n / 256 % 256, n / 65536] + seq(n - HEADER, i requires i >= 0 => FieldByte(op, i))
  }

  lemma SizeSplits(n: nat)
    requires n < 0x100_0000
    ensures n % 256 + 256 * (n / 256 % 256) + 65536 * (n / 65536) == n
    ensures n / 65536 < 256
  {
  }

  function Packed(ops: seq<Op>): seq<Octet>
    requires forall op :: op in ops ==> Fits(op)
  {
    if ops == [] then [] else Packed(ops[..|ops| - 1]) + Bytes(ops[|ops| - 1])
  }

  function OpWeight(k: Kinds, ops: seq<Op>): nat {
    if ops == [] then 0 else OpWeight(k, ops[..|ops| - 1]) + k.weight(ops[|ops| - 1].kind)
  }

  /** Constructing an operation in place: the header and the fields are written, the rest stays. */
  function Written(op: Op, before: seq<Octet>): (s: seq<Octet>)
    requires Fits(op) && |before| == OpSize(op)
    ensures |s| == |before|
  {
    var n := OpSize(op);
    SizeSplits(n);
    [op.kind, n % 256, n / 256 % 256, n / 65536]
    + seq(n - HEADER, i requires 0 <= i < n - HEADER =>
      if i < |op.fields| && op.fields[i].Some? then op.fields[i].value else before[HEADER + i])
  }

  lemma WrittenOverZeros(op: Op, before: seq<Octet>)
    requires Fits(op) && |before| == OpSize(op) && forall i :: 0 <= i < |before| ==> before[i] == 0
    ensures Written(op, before) == Bytes(op)
  {
    hide OpSize, SizeField;
  }

  lemma PackedMore(k: Kinds, ops: seq<Op>, op: Op)
    requires (forall o :: o in ops ==> Fits(o)) && Fits(op)
    ensures forall o :: o in ops + [op] ==> Fits(o)
    ensures Packed(ops + [op]) == Packed(ops) + Bytes(op)
    ensures OpWeight(k, ops + [op]) == OpWeight(k, ops) + k.weight(op.kind)
  {
    hide Fits, Bytes;
    assert (ops + [op])[..|ops|] == ops;
  }

  const PAGE := 4096

  lemma NextPage(need: nat)
    ensures need < (need + PAGE) / PAGE * PAGE
  {
  }

  class RecordStorage {
    var storage: seq<Octet>
    var used: nat
    var capacity: nat
    var renderOpCount: nat
    ghost var ops: seq<Op>
    ghost const kinds: Kinds

    /** The records pushed, and nothing but zeros behind them. */
    ghost predicate Valid()
      reads this
    {
      && (forall op :: op in ops ==> Fits(op))
      && |storage| == capacity && used <= capacity
      && storage[..used] == Packed(ops)
      && (forall i :: used <= i < capacity ==> storage[i] == 0)
      && renderOpCount == OpWeight(kinds, ops)
    }

    constructor (k: Kinds)
      ensures Valid() && ops == [] && kinds == k
    {
      storage, used, capacity, renderOpCount, ops, kinds := [], 0, 0, 0, [], k;
    }

    method Push(op: Op, increment: nat)
      requires Valid() && Fits(op) && increment == kinds.weight(op.kind)
      modifies this
      ensures Valid() && ops == old(ops) + [op]
    {
      hide Packed, OpWeight, SizeField, Bytes, Fits, Written, OpSize;
      var size := OpSize(op);
      var at := used;
      if used + size > capacity {
        capacity := (used + size + PAGE) / PAGE * PAGE;
        NextPage(used + size);
        // Reallocation keeps what is used; the rest is cleared.
        storage := storage[..used] + seq(capacity - used, i => 0);
      }
      var place := storage[at..at + size];
      WrittenOverZeros(op, place);
      storage := storage[..at] + Written(op, place) + storage[at + size..];
      used := used + size;
      renderOpCount := renderOpCount + increment;
      PackedMore(kinds, ops, op);
      ops := ops + [op];
    }

    /** Hand the records over and start again. */
    method Take() returns (list: DisplayList)
      requires Valid()
      modifies this
      ensures Valid() && ops == []
      ensures list.storage == Packed(old(ops)) && list.opCount == OpWeight(kinds, old(ops))
    {
      list := DisplayList(storage[..used], renderOpCount);
      storage, used, capacity, renderOpCount, ops := [], 0, 0, 0, [];
    }
  }

  function AllBytes(ops: seq<Op>): (records: seq<seq<Octet>>)
    requires forall op :: op in ops ==> Fits(op)
    ensures |records| == |ops| && forall i :: 0 <= i < |ops| ==> records[i] == Bytes(ops[i])
  {
    seq(|ops|, i requires 0 <= i < |ops| => Bytes(ops[i]))
  }

  lemma {:induction false} TiledSum(a: seq<Octet>, b: seq<Octet>)
    requires Tiled(a) && Tiled(b)
    ensures Tiled(a + b) && Split(a + b) == Split(a) + Split(b)
    decreases |a|
  {
    if a == [] {
      assert a + b == b;
    } else {
      TiledFacts(a);
      FirstOfSum(a, b);
      hide Tiled, Split, SizeField;
      var n := SizeField(a);
      TiledSum(a[n..], b);
      SplitStep(a);
      SplitStep(a + b);
      Regroup([a[..n]], Split(a[n..]), Split(b));
    }
  }

  lemma FirstOfSum(a: seq<Octet>, b: seq<Octet>)
    requires |a| >= HEADER && SizeField(a) <= |a|
    ensures var n := SizeField(a); SizeField(a + b) == n && (a + b)[..n] == a[..n] && (a + b)[n..] == a[n..] + b
  {
  }

  /** Splitting the packed operations gives them back one by one. */
  lemma {:induction false} SplitPacked(ops: seq<Op>)
    requires forall op :: op in ops ==> Fits(op)
    ensures Tiled(Packed(ops)) && Split(Packed(ops)) == AllBytes(ops)
  {
    hide Fits, Bytes, SizeField;
    if ops == [] {
      assert Packed(ops) == [];
    } else {
      hide Tiled, Split;
      var n := |ops| - 1;
      SplitPacked(ops[..n]);
      OneRecord(ops[n]);
      TiledSum(Packed(ops[..n]), Bytes(ops[n]));
      assert Packed(ops) == Packed(ops[..n]) + Bytes(ops[n]);
      AllBytesMore(ops);
    }
  }

  lemma AllBytesMore(ops: seq<Op>)
    requires ops != [] && forall op :: op in ops ==> Fits(op)
    ensures var n := |ops| - 1; AllBytes(ops) == AllBytes(ops[..n]) + [Bytes(ops[n])]
  {
    hide Fits, Bytes, SizeField;
  }

  lemma OneRecord(op: Op)
    requires Fits(op)
    ensures Tiled(Bytes(op)) && Split(Bytes(op)) == [Bytes(op)]
  {
    var s := Bytes(op);
    hide Bytes, Fits, SizeField;
    assert s[|s|..] == [] && s[..|s|] == s;
  }

  lemma {:induction false} WeightOfBytes(k: Kinds, ops: seq<Op>)
    requires forall op :: op in ops ==> Fits(op)
    ensures Weight(k, AllBytes(ops)) == OpWeight(k, ops)
  {
    hide Fits, Bytes;
    if ops != [] {
      var n := |ops| - 1;
      WeightOfBytes(k, ops[..n]);
      assert AllBytes(ops)[..n] == AllBytes(ops[..n]);
    }
  }

  /**
   What `Take` hands over can be compared by `Equals`, and the comparison is
   that of the operations pushed: the layout adds no difference and hides none.
   */
  lemma PackedCompare(k: Kinds, a: seq<Op>, b: seq<Op>)
    requires forall op :: op in a ==> Fits(op)
    requires forall op :: op in b ==> Fits(op)
    ensures Built(k, DisplayList(Packed(a), OpWeight(k, a))) && Built(k, DisplayList(Packed(b), OpWeight(k, b)))
    ensures SameStream(k, Packed(a), Packed(b)) <==>
            |a| == |b| && forall i :: 0 <= i < |a| ==> SameRecord(k, Bytes(a[i]), Bytes(b[i]))
  {
    hide Fits, Bytes, Packed, Tiled, Split, SameRecord, OpWeight, Weight;
    SplitPacked(a);
    SplitPacked(b);
    WeightOfBytes(k, a);
    WeightOfBytes(k, b);
  }

  /** Plain records have the same bytes exactly when kind, size and all written fields agree, padding read as zero. */
  lemma SameBytes(a: Op, b: Op)
    requires Fits(a) && Fits(b)
    ensures Bytes(a) == Bytes(b) <==>
            a.kind == b.kind && OpSize(a) == OpSize(b)
            && forall i :: 0 <= i < OpSize(a) - HEADER ==> FieldByte(a, i) == FieldByte(b, i)
  {
    var x, y := Bytes(a), Bytes(b);
    assert forall i :: 0 <= i < OpSize(a) - HEADER ==> x[HEADER + i] == FieldByte(a, i);
    assert forall i :: 0 <= i < OpSize(b) - HEADER ==> y[HEADER + i] == FieldByte(b, i);
    if x == y {
      forall i | 0 <= i < OpSize(a) - HEADER ensures FieldByte(a, i) == FieldByte(b, i) {
        assert x[HEADER + i] == y[HEADER + i];
      }
    }
  }

  // ----- in terms of operations and of bytes -----

  /** Two operations are like one another: of one kind and size, and alike by their own comparison or field by field. */
  predicate SameOp(k: Kinds, a: Op, b: Op)
    requires Fits(a) && Fits(b)
  {
    && a.kind == b.kind && OpSize(a) == OpSize(b)
    && if k.deep(a.kind) then k.alike(Bytes(a), Bytes(b))
       else forall i :: 0 <= i < OpSize(a) - HEADER ==> FieldByte(a, i) == FieldByte(b, i)
  }

  lemma OpExactly(k: Kinds, a: Op, b: Op)
    requires Fits(a) && Fits(b)
    ensures SameRecord(k, Bytes(a), Bytes(b)) <==> SameOp(k, a, b)
  {
    SameBytes(a, b);
    OneRecord(a);
    OneRecord(b);
    hide FieldByte, OpSize;
  }

  predicate AllFit(ops: seq<Op>) { forall op :: op in ops ==> Fits(op) }

  predicate SameOps(k: Kinds, a: seq<Op>, b: seq<Op>)
    requires AllFit(a) && AllFit(b)
  {
    |a| == |b| && forall i :: 0 <= i < |a| ==> SameOp(k, a[i], b[i])
  }

  /** What two builders were given compares as what they hand out. */
  lemma SameOperations(k: Kinds, a: seq<Op>, b: seq<Op>)
    requires AllFit(a) && AllFit(b)
    ensures Tiled(Packed(a)) && Tiled(Packed(b))
    ensures SameStream(k, Packed(a), Packed(b)) <==> SameOps(k, a, b)
  {
    PackedCompare(k, a, b);
    hide SameStream, SameRecord, SameOp, Packed, Bytes, Tiled, Fits;
    forall i | 0 <= i < |a| && i < |b| ensures SameRecord(k, Bytes(a[i]), Bytes(b[i])) <==> SameOp(k, a[i], b[i]) {
      OpExactly(k, a[i], b[i]);
    }
  }

  /** Where no kind is deep the comparison is that of the bytes, record boundaries or not. */
  lemma {:induction false} PlainStreams(k: Kinds, a: seq<Octet>, b: seq<Octet>)
    requires Tiled(a) && Tiled(b) && forall kind :: !k.deep(kind)
    ensures SameStream(k, a, b) <==> a == b
    decreases |a|
  {
    hide Split, SameStream, SizeField, Tiled;
    if a == [] || b == [] {
      SameStreamEnds(k, a, b);
    } else {
      TiledFacts(a);
      TiledFacts(b);
      SameStreamStep(k, a, b);
      var n, m := SizeField(a), SizeField(b);
      PlainStreams(k, a[n..], b[m..]);
      assert a == a[..n] + a[n..] && b == b[..m] + b[m..];
    }
  }

  /** Where every kind is deep no byte but the header's is compared: each pair of records is asked. */
  lemma DeepStreams(k: Kinds, a: seq<Octet>, b: seq<Octet>)
    requires Tiled(a) && Tiled(b) && forall kind :: k.deep(kind)
    ensures var x, y := Split(a), Split(b);
            SameStream(k, a, b) <==>
            |x| == |y| && forall i :: 0 <= i < |x| ==> x[i][0] == y[i][0] && |x[i]| == |y[i]| && k.alike(x[i], y[i])
  {
    hide Tiled, SizeField, Split;
    var x, y := Split(a), Split(b);
    if |x| == |y| {
      forall i | 0 <= i < |x|
        ensures SameRecord(k, x[i], y[i]) <==> x[i][0] == y[i][0] && |x[i]| == |y[i]| && k.alike(x[i], y[i])
      {
      }
    }
  }
}
