/**
 Bit strings, most significant bit first, and the numbers they stand for.
 */
module Bits {

  type Octet = x: int | 0 <= x < 256

  function Pow2(n: nat): (p: nat)
    ensures p > 0
  {
    if n == 0 then 1 else 2 * Pow2(n - 1)
  }

  lemma {:induction false} Pow2Sum(a: nat, b: nat)
    ensures Pow2(a + b) == Pow2(a) * Pow2(b)
  {
    if b > 0 {
      Pow2Sum(a, b - 1);
      assert Pow2(a) * Pow2(b) == 2 * (Pow2(a) * Pow2(b - 1));
    }
  }

  function ValueOf(bits: seq<bool>): nat {
    if bits == [] then 0
    else 2 * ValueOf(bits[..|bits| - 1]) + if bits[|bits| - 1] then 1 else 0
  }

  /** The lowest `k` bits of a number. */
  function BitsOf(v: nat, k: nat): (bits: seq<bool>)
    ensures |bits| == k
  {
    if k == 0 then [] else BitsOf(v / 2, k - 1) + [v % 2 == 1]
  }

  function Zeros(n: nat): (bits: seq<bool>)
    ensures |bits| == n && forall i :: 0 <= i < n ==> !bits[i]
  {
    seq(n, _ => false)
  }

  lemma {:induction false} ValueBound(bits: seq<bool>)
    ensures ValueOf(bits) < Pow2(|bits|)
  {
    if bits != [] {
      ValueBound(bits[..|bits| - 1]);
    }
  }

  lemma {:induction false} BitsOfValue(bits: seq<bool>)
    ensures BitsOf(ValueOf(bits), |bits|) == bits
  {
    if bits != [] {
      var before := bits[..|bits| - 1];
      BitsOfValue(before);
      assert ValueOf(bits) / 2 == ValueOf(before);
      assert bits == before + [bits[|bits| - 1]];
    }
  }

  lemma {:induction false} ValueOfBits(v: nat, k: nat)
    requires v < Pow2(k)
    ensures ValueOf(BitsOf(v, k)) == v
  {
    if k > 0 {
      ValueOfBits(v / 2, k - 1);
      var bits := BitsOf(v, k);
      assert bits[..k - 1] == BitsOf(v / 2, k - 1);
    }
  }

  lemma {:induction false} ValueOfSum(a: seq<bool>, b: seq<bool>)
    ensures ValueOf(a + b) == ValueOf(a) * Pow2(|b|) + ValueOf(b)
  {
    if b == [] {
      assert a + b == a;
    } else {
      var b' := b[..|b| - 1];
      ValueOfSum(a, b');
      assert (a + b)[..|a + b| - 1] == a + b';
      assert ValueOf(a) * Pow2(|b|) == 2 * (ValueOf(a) * Pow2(|b'|));
    }
  }

  lemma {:induction false} ValueOfZeros(n: nat)
    ensures ValueOf(Zeros(n)) == 0
  {
    if n > 0 {
      ValueOfZeros(n - 1);
      assert Zeros(n)[..n - 1] == Zeros(n - 1);
    }
  }

  /** A value is zero exactly when all its bits are. */
  lemma ZeroValue(bits: seq<bool>)
    ensures ValueOf(bits) == 0 <==> bits == Zeros(|bits|)
  {
    BitsOfValue(bits);
    BitsOfValue(Zeros(|bits|));
    ValueOfZeros(|bits|);
  }

  /** Dropping the low bits of a number and keeping them. */
  lemma SplitValue(a: seq<bool>, b: seq<bool>)
    ensures ValueOf(a + b) / Pow2(|b|) == ValueOf(a)
    ensures ValueOf(a + b) % Pow2(|b|) == ValueOf(b)
  {
    ValueOfSum(a, b);
    ValueBound(b);
    Divided(ValueOf(a), Pow2(|b|), ValueOf(b));
  }

  lemma Divided(q: nat, m: nat, r: nat)
    requires r < m
    ensures (q * m + r) / m == q && (q * m + r) % m == r
  {
    var d, s := (q * m + r) / m, (q * m + r) % m;
    assert (q - d) * m == s - r;
    if q - d >= 1 {
      MultiplyKeeps(1, q - d, m);
    } else if q - d <= -1 {
      MultiplyKeeps(q - d, -1, m);
    }
  }

  lemma MultiplyKeeps(i: int, j: int, m: nat)
    requires i <= j
    ensures i * m <= j * m
  {
  }

  // ----- bitwise or -----

  function Or(a: nat, b: nat): nat {
    if a == 0 then b
    else if b == 0 then a
    else 2 * Or(a / 2, b / 2) + if a % 2 == 1 || b % 2 == 1 then 1 else 0
  }

  lemma OrEven(x: nat, b: nat)
    ensures Or(2 * x, b) == 2 * Or(x, b / 2) + b % 2
  {
    assert (2 * x) / 2 == x && (2 * x) % 2 == 0;
    if b == 1 {
      assert Or(x, 0) == x;
    }
  }

  /** Numbers without a bit in common: or is addition. */
  lemma {:induction false} OrIsSum(a: nat, k: nat, b: nat)
    requires b < Pow2(k)
    ensures Or(a * Pow2(k), b) == a * Pow2(k) + b
  {
    if k == 0 {
      assert Or(a, 0) == a;
    } else {
      hide Or;
      OrIsSum(a, k - 1, b / 2);
      Doubled(a, Pow2(k - 1));
      OrEven(a * Pow2(k - 1), b);
    }
  }

  lemma Doubled(a: nat, p: nat)
    ensures a * (2 * p) == 2 * (a * p)
  {
  }

  lemma Regroup<T>(a: seq<T>, b: seq<T>, c: seq<T>)
    ensures a + (b + c) == a + b + c
  {
  }
}
