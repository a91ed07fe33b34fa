/**
 Base 32 (fml/base32.h, fml/base32.cc): section 6 of RFC 4648 without padding
 characters, with the pad bits required to be zero as in section 3.5.

 `BitConverter` is a queue of bits packed into an integer, filled from the bottom
 and drained from the top.  Its methods are tied to the queue of bits it stands
 for; the encoder and the decoder are tied to references over whole bit strings.
 */
module Base32 {
  import opened Bits

  // ----- the bit queue -----

  class BitConverter {
    const fromLength: nat
    const toLength: nat
    const bufferLength: nat
    var buffer: nat
    var lowerFreeBits: nat
    ghost var queue: seq<bool>

    ghost predicate Valid()
      reads this
    {
      && bufferLength >= 2 * fromLength && bufferLength >= 2 * toLength
      && |queue| + lowerFreeBits == bufferLength
      && buffer == ValueOf(queue + Zeros(lowerFreeBits))
    }

    constructor (from: nat, to: nat, length: nat)
      requires length >= 2 * from && length >= 2 * to
      ensures Valid() && queue == []
      ensures fromLength == from && toLength == to && bufferLength == length
    {
      fromLength, toLength, bufferLength := from, to, length;
      buffer, lowerFreeBits, queue := 0, length, [];
      new;
      ValueOfZeros(length);
      assert [] + Zeros(length) == Zeros(length);
    }

    predicate CanAppend()
      reads this
    {
      lowerFreeBits >= fromLength
    }

    function BitsAvailable(): int
      reads this
    {
      bufferLength - lowerFreeBits
    }

    predicate CanExtract()
      reads this
    {
      BitsAvailable() >= toLength
    }

    method Append(bits: nat)
      requires Valid() && bits < Pow2(fromLength) && CanAppend()
      modifies this
      ensures Valid() && queue == old(queue) + BitsOf(bits, fromLength)
    {
      ghost var q, free := queue, lowerFreeBits;
      lowerFreeBits := lowerFreeBits - fromLength;
      AppendedValue(q, free, fromLength, bits);
      buffer := Or(buffer, bits * Pow2(lowerFreeBits));
      queue := queue + BitsOf(bits, fromLength);
    }

    method Extract() returns (result: nat)
      requires Valid() && CanExtract()
      modifies this
      ensures Valid() && queue == old(queue)[toLength..]
      ensures result == ValueOf(old(queue)[..toLength])
    {
      ghost var q, free := queue, lowerFreeBits;
      result := Peek();
      ExtractedValue(q, free, toLength);
      buffer := (buffer * Pow2(toLength)) % Pow2(bufferLength);
      lowerFreeBits := lowerFreeBits + toLength;
      queue := queue[toLength..];
    }

    /** The next bits, as if zeros followed the queue. */
    method Peek() returns (result: nat)
      requires Valid()
      ensures result == ValueOf((queue + Zeros(lowerFreeBits))[..toLength])
    {
      hide Pow2, ValueOf;
      ghost var all := queue + Zeros(lowerFreeBits);
      SplitValue(all[..toLength], all[toLength..]);
      assert all[..toLength] + all[toLength..] == all;
      result := buffer / Pow2(bufferLength - toLength);
    }
  }

  lemma AppendedValue(q: seq<bool>, free: nat, from: nat, bits: nat)
    requires from <= free && bits < Pow2(from)
    ensures Or(ValueOf(q + Zeros(free)), bits * Pow2(free - from))
            == ValueOf(q + BitsOf(bits, from) + Zeros(free - from))
  {
    hide *;
    var rest := free - from;
    var v, pf, pr, p := ValueOf(q), Pow2(from), Pow2(rest), Pow2(free);
    assert ValueOf(q + Zeros(free)) == v * p by {
      ValueOfSum(q, Zeros(free));
      ValueOfZeros(free);
    }
    assert ValueOf(q + BitsOf(bits, from) + Zeros(rest)) == (v * pf + bits) * pr by {
      ValueOfSum(q + BitsOf(bits, from), Zeros(rest));
      ValueOfSum(q, BitsOf(bits, from));
      ValueOfZeros(rest);
      ValueOfBits(bits, from);
    }
    Pow2Sum(from, rest);
    Shifted(v, bits, pf, pr, p);
    OrIsSum(v, free, bits * pr);
  }

  lemma Shifted(v: nat, bits: nat, pf: nat, pr: nat, p: nat)
    requires bits < pf && pr > 0 && p == pf * pr
    ensures (v * pf + bits) * pr == v * p + bits * pr
    ensures bits * pr < p
  {
    MultiplyKeeps(bits + 1, pf, pr);
    assert (bits + 1) * pr == bits * pr + pr;
  }

  lemma ExtractedValue(q: seq<bool>, free: nat, to: nat)
    requires to <= |q|
    ensures (ValueOf(q + Zeros(free)) * Pow2(to)) % Pow2(|q| + free) == ValueOf(q[to..] + Zeros(free + to))
    ensures (q + Zeros(free))[..to] == q[..to]
  {
    var all := q + Zeros(free);
    ValueOfSum(all, Zeros(to));
    ValueOfZeros(to);
    var low := q[to..] + Zeros(free + to);
    assert all + Zeros(to) == q[..to] + low;
    SplitValue(q[..to], low);
  }

  // ----- the alphabet -----

  const ENCODING := "ABCDEFGHIJKLMNOPQRSTUVWXYZ234567"

  // Starting from the digit two.
  const DECODE_MAP: seq<int> := [
    26, 27, 28, 29, 30, 31, -1, -1, -1, -1, -1, -1, -1, -1,
    -1, 0, 1, 2, 3, 4, 5, 6, 7, 8, 9, 10, 11, 12,
    13, 14, 15, 16, 17, 18, 19, 20, 21, 22, 23, 24, 25]

  /** The table's entry for a letter, -1 outside it. */
  function Digit(c: char): int {
    var index := c as int - '2' as int;
    if index < 0 || index >= |DECODE_MAP| then -1 else DECODE_MAP[index]
  }

  function Letter(v: nat): char {
    if v < |ENCODING| then ENCODING[v] else 'A'
  }

  /** The two tables are inverse to each other. */
  lemma LetterOfDigit(c: char)
    ensures -1 <= Digit(c) < 32
    ensures Digit(c) >= 0 ==> Letter(Digit(c)) == c
  {
  }

  lemma DigitOfLetter(v: nat)
    requires v < 32
    ensures Digit(Letter(v)) == v
  {
    assert Letter(v) as int == if v < 26 then 65 + v else 24 + v by { LetterCode(v); }
    hide Letter;
    DigitOfCode(Letter(v));
  }

  lemma LetterCode(v: nat)
    requires v < 32
    ensures Letter(v) as int == if v < 26 then 65 + v else 24 + v
  {
  }

  lemma DigitOfCode(c: char)
    requires 65 <= c as int < 91 || 50 <= c as int < 56
    ensures Digit(c) == if c as int >= 65 then c as int - 65 else c as int - 24
  {
  }

  // ----- whole bit strings -----

  function OctetBits(octets: seq<Octet>): (bits: seq<bool>)
    ensures |bits| == 8 * |octets|
  {
    if octets == [] then [] else OctetBits(octets[..|octets| - 1]) + BitsOf(octets[|octets| - 1], 8)
  }

  lemma {:induction false} OctetBitsSum(a: seq<Octet>, b: seq<Octet>)
    ensures OctetBits(a + b) == OctetBits(a) + OctetBits(b)
  {
    hide BitsOf;
    if b == [] {
      assert a + b == a;
    } else {
      var b' := b[..|b| - 1];
      OctetBitsSum(a, b');
      assert (a + b)[..|a + b| - 1] == a + b';
    }
  }

  /** The letters for a bit string, five bits each, the last group filled up with zeros. */
  function Letters(bits: seq<bool>): (text: string)
    ensures |text| == (|bits| + 4) / 5
    decreases |bits|
  {
    if bits == [] then ""
    else if |bits| < 5 then [Letter(ValueOf(bits + Zeros(5 - |bits|)))]
    else [Letter(ValueOf(bits[..5]))] + Letters(bits[5..])
  }

  function Encoded(octets: seq<Octet>): string { Letters(OctetBits(octets)) }

  predicate AllDigits(text: string) { forall i :: 0 <= i < |text| ==> Digit(text[i]) >= 0 }

  function TextBits(text: string): (bits: seq<bool>)
    requires AllDigits(text)
    ensures |bits| == 5 * |text|
  {
    if text == [] then [] else TextBits(text[..|text| - 1]) + BitsOf(Digit(text[|text| - 1]), 5)
  }

  lemma TextBitsNext(text: string, c: char)
    requires AllDigits(text) && Digit(c) >= 0
    ensures AllDigits(text + [c]) && TextBits(text + [c]) == TextBits(text) + BitsOf(Digit(c), 5)
  {
    hide Digit, BitsOf;
    assert (text + [c])[..|text|] == text;
  }

  lemma {:induction false} TextBitsSum(a: string, b: string)
    requires AllDigits(a) && AllDigits(b)
    ensures AllDigits(a + b) && TextBits(a + b) == TextBits(a) + TextBits(b)
  {
    hide Digit, BitsOf;
    if b == [] {
      assert a + b == a;
    } else {
      var b', c := b[..|b| - 1], b[|b| - 1];
      assert AllDigits(b') && Digit(c) >= 0;
      hide AllDigits, TextBits;
      TextBitsSum(a, b');
      TextBitsNext(b', c);
      TextBitsNext(a + b', c);
      assert b == b' + [c];
      Regroup(a, b', [c]);
      Regroup(TextBits(a), TextBits(b'), BitsOf(Digit(c), 5));
    }
  }

  /** The octets of a bit string: as many whole ones as there are. */
  function Octets(bits: seq<bool>): (octets: seq<Octet>)
    ensures |octets| == |bits| / 8
    decreases |bits|
  {
    if |bits| < 8 then [] else
    ValueBound(bits[..8]);
    [ValueOf(bits[..8])] + Octets(bits[8..])
  }

  /** The bits left over after the whole octets. */
  function Remainder(bits: seq<bool>): seq<bool> { bits[|bits| / 8 * 8..] }

  /** Whole octets and fewer than eight more bits determine each other. */
  lemma {:induction false} OctetsSplit(octets: seq<Octet>, rest: seq<bool>)
    requires |rest| < 8
    ensures Octets(OctetBits(octets) + rest) == octets
    ensures Remainder(OctetBits(octets) + rest) == rest
  {
    hide BitsOf, ValueOf, Pow2, OctetBits;
    if octets == [] {
      assert OctetBits(octets) + rest == rest;
    } else {
      var first, tail := octets[0], octets[1..];
      FirstOctet(octets);
      ValueOfBits(first, 8);
      OctetsSplit(tail, rest);
      var bits := OctetBits(octets) + rest;
      assert bits[..8] == BitsOf(first, 8) && bits[8..] == OctetBits(tail) + rest;
      assert [first] + tail == octets;
    }
  }

  lemma FirstOctet(octets: seq<Octet>)
    requires octets != []
    ensures OctetBits(octets) == BitsOf(octets[0], 8) + OctetBits(octets[1..])
    ensures octets[0] < Pow2(8)
  {
    hide BitsOf;
    Eight();
    OctetBitsSum(octets[..1], octets[1..]);
    assert octets[..1] + octets[1..] == octets;
    assert octets[..1][..0] == [];
  }

  lemma OctetAdded(octets: seq<Octet>, bits: seq<bool>)
    requires |bits| == 8
    ensures ValueOf(bits) < 256
    ensures OctetBits(octets + [ValueOf(bits)]) == OctetBits(octets) + bits
  {
    hide BitsOf, Pow2, ValueOf;
    ValueBound(bits);
    Eight();
    BitsOfValue(bits);
    assert (octets + [ValueOf(bits)])[..|octets|] == octets;
  }

  lemma Eight()
    ensures Pow2(8) == 256
  {
    Five();
    assert Pow2(8) == 2 * Pow2(7) == 4 * Pow2(6) == 8 * Pow2(5);
  }

  lemma Five()
    ensures Pow2(5) == 32
  {
    assert Pow2(5) == 2 * Pow2(4) == 4 * Pow2(3) == 8 * Pow2(2);
  }

  // ----- the encoder -----

  const SIZE_MAX := 0xffff_ffff_ffff_ffff

  /** Five bits at the head of the queue give the next letter. */
  lemma NextLetter(queue: seq<bool>, rest: seq<bool>)
    requires |queue| >= 5
    ensures ValueOf(queue[..5]) < 32
    ensures Letters(queue + rest) == [Letter(ValueOf(queue[..5]))] + Letters(queue[5..] + rest)
  {
    hide Letter, ValueOf, Pow2;
    ValueBound(queue[..5]);
    Five();
    assert (queue + rest)[..5] == queue[..5] && (queue + rest)[5..] == queue[5..] + rest;
  }

  /** Fewer than five bits, filled up with zeros, give the last letter. */
  lemma LastLetter(queue: seq<bool>, free: nat)
    requires 0 < |queue| < 5 <= |queue| + free
    ensures ValueOf((queue + Zeros(free))[..5]) < 32
    ensures Letters(queue) == [Letter(ValueOf((queue + Zeros(free))[..5]))]
  {
    hide Letter, ValueOf, Pow2;
    assert (queue + Zeros(free))[..5] == queue + Zeros(5 - |queue|);
    ValueBound(queue + Zeros(5 - |queue|));
    Five();
  }

  lemma NextOctet(queue: seq<bool>, octets: seq<Octet>)
    requires octets != []
    ensures queue + OctetBits(octets) == queue + BitsOf(octets[0], 8) + OctetBits(octets[1..])
    ensures octets[0] < Pow2(8)
  {
    hide *;
    FirstOctet(octets);
  }

  method Base32Encode(input: seq<Octet>) returns (ok: bool, output: string)
    ensures if |input| <= SIZE_MAX / 8 then ok && output == Encoded(input) else !ok && output == ""
  {
    hide Letters, OctetBits, ValueOf, BitsOf, Pow2, Letter;
    if input == [] {
      assert Encoded(input) == "" by { assert OctetBits(input) == []; assert |Letters([])| == 0; }
      return true, "";
    }
    if |input| > SIZE_MAX / 8 {
      return false, "";
    }
    ok, output := true, "";
    var converter := new BitConverter(8, 5, 16);
    NextOctet([], input);
    converter.Append(input[0]);
    var next := 1;
    assert [] + OctetBits(input) == OctetBits(input);
    assert [] + BitsOf(input[0], 8) == BitsOf(input[0], 8);
    assert "" + Letters(OctetBits(input)) == Letters(OctetBits(input));
    while converter.CanExtract()
      invariant fresh(converter) && converter.Valid()
      invariant converter.fromLength == 8 && converter.toLength == 5 && converter.bufferLength == 16
      invariant 1 <= next <= |input|
      invariant output + Letters(converter.queue + OctetBits(input[next..])) == Encoded(input)
      // The queue runs short only when the input is used up.
      invariant |converter.queue| < 5 ==> next == |input|
      decreases |input| - next, |converter.queue|
    {
      NextLetter(converter.queue, OctetBits(input[next..]));
      ghost var text := output;
      var group := converter.Extract();
      assert group < |ENCODING| by { assert |ENCODING| == 32; }
      output := output + [Letter(group)];
      assert text + ([Letter(group)] + Letters(converter.queue + OctetBits(input[next..])))
          == output + Letters(converter.queue + OctetBits(input[next..]));
      if converter.CanAppend() && next < |input| {
        NextOctet(converter.queue, input[next..]);
        assert input[next..][1..] == input[next + 1..];
        converter.Append(input[next]);
        next := next + 1;
      }
    }
    assert converter.queue + OctetBits(input[next..]) == converter.queue;
    if converter.BitsAvailable() > 0 {
      LastLetter(converter.queue, converter.lowerFreeBits);
      var group := converter.Peek();
      assert group < |ENCODING| by { assert |ENCODING| == 32; }
      output := output + [Letter(group)];
    } else {
      assert |Letters(converter.queue)| == 0;
    }
  }

  // ----- the decoder -----

  /** The position of the first letter outside the alphabet, or the length. */
  function FirstBad(text: string): (k: nat)
    ensures k <= |text| && AllDigits(text[..k]) && (k < |text| ==> Digit(text[k]) < 0)
  {
    hide Digit;
    if text == [] then 0
    else if Digit(text[0]) < 0 then 0
    else
      var k := 1 + FirstBad(text[1..]);
      assert text[..k] == [text[0]] + text[1..][..k - 1];
      k
  }

  /** The answer of the decoder: a verdict, and the octets read up to the first bad letter. */
  function Decoded(text: string): (bool, seq<Octet>) {
    var bits := TextBits(text[..FirstBad(text)]);
    (FirstBad(text) == |text| && Remainder(bits) == Zeros(|Remainder(bits)|), Octets(bits))
  }

  lemma NextDigit(text: string, i: nat)
    requires i < |text| && AllDigits(text[..i]) && Digit(text[i]) >= 0
    ensures AllDigits(text[..i + 1])
    ensures TextBits(text[..i + 1]) == TextBits(text[..i]) + BitsOf(Digit(text[i]), 5)
    ensures Digit(text[i]) < Pow2(5)
  {
    hide BitsOf, Pow2;
    assert Digit(text[i]) < 32 by { LetterOfDigit(text[i]); }
    hide Digit;
    Five();
    assert text[..i + 1][..i] == text[..i];
  }

  /** The scan stops at the first bad letter and nowhere else. */
  lemma ScanStops(text: string, i: nat)
    requires i <= FirstBad(text)
    ensures AllDigits(text[..i])
    ensures i < |text| ==> (i == FirstBad(text) <==> Digit(text[i]) < 0)
  {
    hide FirstBad, Digit;
    var bad := FirstBad(text);
    assert text[..i] == text[..bad][..i];
    assert i < bad ==> text[..bad][i] == text[i];
  }

  method Base32Decode(input: string) returns (ok: bool, result: seq<Octet>)
    ensures (ok, result) == Decoded(input)
  {
    hide OctetBits, ValueOf, BitsOf, Pow2, TextBits, FirstBad, Octets, Remainder, AllDigits, Digit;
    ScanStops(input, 0);
    result := [];
    var converter := new BitConverter(5, 8, 16);
    ghost var bad := FirstBad(input);
    for i := 0 to |input|
      invariant fresh(converter) && converter.Valid() && i <= bad
      invariant converter.fromLength == 5 && converter.toLength == 8 && converter.bufferLength == 16
      invariant AllDigits(input[..i]) && |converter.queue| < 8
      invariant OctetBits(result) + converter.queue == TextBits(input[..i])
    {
      ScanStops(input, i);
      LetterOfDigit(input[i]);
      var digit := Digit(input[i]);
      if digit == -1 {
        OctetsSplit(result, converter.queue);
        return false, result;
      }
      NextDigit(input, i);
      ghost var queue := converter.queue;
      converter.Append(digit);
      assert OctetBits(result) + converter.queue == TextBits(input[..i + 1]);
      if converter.CanExtract() {
        OctetAdded(result, converter.queue[..8]);
        queue := converter.queue;
        var octet := converter.Extract();
        assert queue == queue[..8] + queue[8..];
        result := result + [octet];
      }
    }
    assert input[..|input|] == input;
    OctetsSplit(result, converter.queue);
    var pad := converter.Peek();
    PaddedZero(converter.queue, converter.lowerFreeBits);
    ok := pad == 0;
  }

  lemma PaddedZero(bits: seq<bool>, free: nat)
    requires |bits| < 8 <= |bits| + free
    ensures ValueOf((bits + Zeros(free))[..8]) == 0 <==> bits == Zeros(|bits|)
  {
    hide ValueOf, Pow2;
    var n := 8 - |bits|;
    assert (bits + Zeros(free))[..8] == bits + Zeros(n);
    ZeroValue(bits + Zeros(n));
    assert bits == Zeros(|bits|) ==> bits + Zeros(n) == Zeros(8);
    assert bits + Zeros(n) == Zeros(8) ==> bits == (bits + Zeros(n))[..|bits|] == Zeros(|bits|);
  }

  // ----- the two directions -----

  /** The letters of a bit string spell it out, followed by fewer than five zeros. */
  lemma {:induction false} LettersSpell(bits: seq<bool>)
    ensures AllDigits(Letters(bits))
    ensures TextBits(Letters(bits)) == bits + Zeros(5 * |Letters(bits)| - |bits|)
    decreases |bits|
  {
    hide Digit, Letter, ValueOf, BitsOf, TextBits;
    if bits == [] {
      assert TextBits([]) == [];
    } else if |bits| < 5 {
      LetterSpells(bits + Zeros(5 - |bits|));
    } else {
      var head, tail := bits[..5], bits[5..];
      LetterSpells(head);
      LettersSpell(tail);
      TextBitsSum([Letter(ValueOf(head))], Letters(tail));
      assert bits == head + tail;
    }
  }

  lemma LetterSpells(group: seq<bool>)
    requires |group| == 5
    ensures AllDigits([Letter(ValueOf(group))])
    ensures TextBits([Letter(ValueOf(group))]) == group
  {
    hide Letter, Digit, ValueOf, BitsOf, Pow2;
    ValueBound(group);
    Five();
    DigitOfLetter(ValueOf(group));
    BitsOfValue(group);
    assert [Letter(ValueOf(group))][..0] == [];
  }

  lemma NoBad(text: string)
    requires AllDigits(text)
    ensures FirstBad(text) == |text|
  {
    hide Digit, FirstBad;
  }

  /** Decoding undoes encoding. */
  lemma DecodeEncode(octets: seq<Octet>)
    ensures Decoded(Encoded(octets)) == (true, octets)
    ensures |Encoded(octets)| == (8 * |octets| + 4) / 5
  {
    hide Letters, OctetBits, TextBits, FirstBad, Octets, Remainder, AllDigits;
    var bits := OctetBits(octets);
    var text := Encoded(octets);
    LettersSpell(bits);
    NoBad(text);
    assert text[..|text|] == text;
    OctetsSplit(octets, Zeros(5 * |text| - |bits|));
  }

  /** A text is what the letters of its bits are, whatever whole number of zeros is dropped. */
  lemma {:induction false} TextIsLetters(text: string, drop: nat)
    requires AllDigits(text) && drop < 5 && drop <= 5 * |text|
    requires var n := 5 * |text| - drop; TextBits(text)[n..] == Zeros(drop)
    ensures Letters(TextBits(text)[..5 * |text| - drop]) == text
  {
    hide Digit, Letter, ValueOf, BitsOf, TextBits;
    if text != [] {
      var head, tail := text[..1], text[1..];
      assert text == head + tail;
      TextBitsSum(head, tail);
      var all, n := TextBits(text), 5 * |text| - drop;
      var group := TextBits(head);
      assert group == all[..5];
      DigitSpelt(text[0]);
      assert head == [text[0]];
      if tail == [] {
        assert all[..n] + Zeros(5 - n) == group;
        assert n == 5 ==> all[..n][..5] == group;
      } else {
        assert TextBits(tail) == all[5..];
        assert TextBits(tail)[n - 5..] == all[n..];
        TextIsLetters(tail, drop);
        assert all[..n][..5] == group;
        assert all[..n][5..] == TextBits(tail)[..n - 5];
      }
    }
  }

  lemma DigitSpelt(c: char)
    requires Digit(c) >= 0
    ensures AllDigits([c]) && |TextBits([c])| == 5
    ensures Letter(ValueOf(TextBits([c]))) == c
  {
    hide ValueOf, BitsOf, Pow2;
    LetterOfDigit(c);
    hide Digit, Letter;
    Five();
    ValueOfBits(Digit(c), 5);
    assert [c][..0] == [];
    assert TextBits([c]) == BitsOf(Digit(c), 5);
  }

  lemma {:induction false} OctetsBits(bits: seq<bool>)
    ensures OctetBits(Octets(bits)) == bits[..|bits| / 8 * 8]
    decreases |bits|
  {
    hide BitsOf, ValueOf, Pow2, OctetBits;
    if |bits| < 8 {
      assert OctetBits([]) == [];
    } else {
      var head, tail := bits[..8], bits[8..];
      OctetsBits(tail);
      ValueBound(head);
      BitsOfValue(head);
      FirstOctet(Octets(bits));
      assert Octets(bits)[1..] == Octets(tail);
      assert |bits| / 8 == |tail| / 8 + 1;
      assert bits[..|bits| / 8 * 8] == head + tail[..|tail| / 8 * 8];
    }
  }

  /** No text of one, three or six letters past a multiple of eight comes out of the encoder. */
  predicate EncodedLength(n: nat) { n % 8 in {0, 2, 4, 5, 7} }

  lemma EncodedLengthExactly(n: nat)
    ensures EncodedLength(n) <==> 5 * n % 8 < 5
    ensures EncodedLength(n) <==> (5 * n / 8 * 8 + 4) / 5 == n
  {
    var k, m := n / 8, n % 8;
    assert n == 8 * k + m && 5 * n / 8 == 5 * k + 5 * m / 8;
  }

  /**
   Encoding undoes decoding exactly for the lengths the encoder produces.  The
   other accepted texts carry a last letter that adds no octet.
   */
  lemma EncodeDecode(text: string)
    requires Decoded(text).0
    ensures Encoded(Decoded(text).1) == text <==> EncodedLength(|text|)
  {
    hide Letters, OctetBits, TextBits, FirstBad, Octets, AllDigits, EncodedLength;
    assert text[..|text|] == text;
    var bits := TextBits(text);
    OctetsBits(bits);
    EncodedLengthExactly(|text|);
    var kept := bits[..|bits| / 8 * 8];
    assert |Letters(kept)| == (|kept| + 4) / 5;
    if EncodedLength(|text|) {
      TextIsLetters(text, |bits| % 8);
    }
  }

  function Repeated(c: char, n: nat): (text: string)
    ensures |text| == n && forall i :: 0 <= i < n ==> text[i] == c
  {
    seq(n, _ => c)
  }

  lemma {:induction false} ZeroText(n: nat)
    ensures AllDigits(Repeated('A', n)) && TextBits(Repeated('A', n)) == Zeros(5 * n)
  {
    assert Digit('A') == 0;
    hide Digit;
    if n > 0 {
      ZeroText(n - 1);
      hide AllDigits, TextBits, BitsOf;
      TextBitsNext(Repeated('A', n - 1), 'A');
      assert Repeated('A', n) == Repeated('A', n - 1) + ['A'];
      BitsOfValue(Zeros(5));
      ValueOfZeros(5);
    }
  }

  /** At every other length there is a text that is accepted and not given back: zeros to the end. */
  lemma AcceptedNotGivenBack(n: nat)
    requires !EncodedLength(n)
    ensures var text := Repeated('A', n);
            Decoded(text).0 && Encoded(Decoded(text).1) != text
  {
    var text := Repeated('A', n);
    ZeroText(n);
    NoBad(text);
    assert text[..|text|] == text;
    assert Decoded(text).0 by {
      hide AllDigits, TextBits, FirstBad, Octets;
    }
    hide Decoded, Encoded, AllDigits, TextBits, FirstBad;
    EncodeDecode(text);
  }

  /** What a text must be to be accepted: letters of the alphabet, and zeros past the last octet. */
  lemma AcceptedExactly(text: string)
    ensures Decoded(text).0 <==>
            AllDigits(text) && exists octets, pad: nat :: pad < 8 && TextBits(text) == OctetBits(octets) + Zeros(pad)
  {
    hide Letters, OctetBits, TextBits, FirstBad, Octets, Digit;
    assert text[..|text|] == text;
    if Decoded(text).0 {
      var bits := TextBits(text);
      OctetsBits(bits);
      assert bits == OctetBits(Octets(bits)) + Zeros(|bits| % 8);
    }
    if AllDigits(text) {
      NoBad(text);
      if octets, pad: nat :| pad < 8 && TextBits(text) == OctetBits(octets) + Zeros(pad) {
        OctetsSplit(octets, Zeros(pad));
      }
    }
  }

  // ----- as numbers -----

  /** The octets as one number, the first the most significant. */
  function OctetNumber(octets: seq<Octet>): nat {
    if octets == [] then 0 else 256 * OctetNumber(octets[..|octets| - 1]) + octets[|octets| - 1]
  }

  /** A letter's worth: A to Z are 0 to 25, 2 to 7 are 26 to 31. */
  function Worth(c: char): int {
    if 'A' <= c <= 'Z' then c as int - 'A' as int
    else if '2' <= c <= '7' then c as int - '2' as int + 26
    else -1
  }

  function TextNumber(text: string): int {
    if text == [] then 0 else 32 * TextNumber(text[..|text| - 1]) + Worth(text[|text| - 1])
  }

  lemma DigitIsWorth(c: char)
    ensures Digit(c) == Worth(c)
  {
  }

  lemma {:induction false} OctetValue(octets: seq<Octet>)
    ensures ValueOf(OctetBits(octets)) == OctetNumber(octets)
  {
    hide ValueOf, BitsOf;
    if octets == [] {
      NoBits();
    } else {
      var n := |octets| - 1;
      OctetValue(octets[..n]);
      Eight();
      ValueOfSum(OctetBits(octets[..n]), BitsOf(octets[n], 8));
      ValueOfBits(octets[n], 8);
    }
  }

  lemma NoBits()
    ensures ValueOf([]) == 0
  {
  }

  lemma {:induction false} TextValue(text: string)
    requires AllDigits(text)
    ensures ValueOf(TextBits(text)) == TextNumber(text)
  {
    hide ValueOf, BitsOf, Digit, Worth;
    if text == [] {
      NoBits();
    } else {
      var n := |text| - 1;
      TextValue(text[..n]);
      Five();
      DigitInRange(text[n]);
      DigitIsWorth(text[n]);
      ValueOfSum(TextBits(text[..n]), BitsOf(Digit(text[n]), 5));
      ValueOfBits(Digit(text[n]), 5);
    }
  }

  lemma DigitInRange(c: char)
    ensures Digit(c) < 32
  {
    LetterOfDigit(c);
  }

  /** The text spells the octets' number in base 32, filled up with fewer than five zero bits. */
  lemma SameNumber(octets: seq<Octet>)
    ensures var text := Encoded(octets);
            && 0 <= 5 * |text| - 8 * |octets| < 5
            && TextNumber(text) == OctetNumber(octets) * Pow2(5 * |text| - 8 * |octets|)
            && forall i :: 0 <= i < |text| ==> Worth(text[i]) >= 0
  {
    var text, bits := Encoded(octets), OctetBits(octets);
    LettersSpell(bits);
    hide Letters, OctetBits, ValueOf, Pow2, Worth, Digit;
    OctetValue(octets);
    TextValue(text);
    ValueOfSum(bits, Zeros(5 * |text| - |bits|));
    ValueOfZeros(5 * |text| - |bits|);
    forall i | 0 <= i < |text| ensures Worth(text[i]) >= 0 {
      DigitIsWorth(text[i]);
    }
  }
}
