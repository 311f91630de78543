/** MSB-first bit strings and the bitstream writer of mp3/mp3enc-bits.h. */
module Bits {

  function Pow2(n: nat): (p: nat)
    ensures p >= 1
  {
    if n == 0 then 1 else 2 * Pow2(n - 1)
  }

  /** The low n bits of v, most significant first. */
  function BitsOf(v: nat, n: nat): (b: seq<bool>)
    ensures |b| == n
  {
    if n == 0 then [] else BitsOf(v / 2, n - 1) + [v % 2 == 1]
  }

  /** The number a bit string spells, most significant bit first. */
  function Value(b: seq<bool>): nat
  {
    if b == [] then 0 else 2 * Value(b[..|b| - 1]) + if b[|b| - 1] then 1 else 0
  }

  lemma {:induction false} ValueOfBits(v: nat, n: nat)
    requires v < Pow2(n)
    ensures Value(BitsOf(v, n)) == v
  {
    if n > 0 {
      ValueOfBits(v / 2, n - 1);
      assert BitsOf(v, n)[..n - 1] == BitsOf(v / 2, n - 1);
    }
  }

  /** Splitting off the first bit instead of the last. */
  lemma {:induction false} BitsOfHead(v: nat, n: nat)
    ensures BitsOf(v, n + 1) == [(v / Pow2(n)) % 2 == 1] + BitsOf(v, n)
  {
    if n > 0 {
      BitsOfHead(v / 2, n - 1);
      HalvesCompose(v, n - 1);
    }
  }

  lemma HalvesCompose(v: nat, n: nat)
    ensures (v / 2) / Pow2(n) == v / Pow2(n + 1)
  {
    var p := Pow2(n);
    var q := v / (2 * p);
    var r := v % (2 * p);
    assert v == 2 * (p * q) + r;
    assert v / 2 == p * q + r / 2;
    QuotientIs(v / 2, p, q, r / 2);
  }

  lemma QuotientIs(a: int, d: int, q: int, r: int)
    requires d > 0 && a == d * q + r && 0 <= r < d
    ensures a / d == q && a % d == r
  {
    var q', r' := a / d, a % d;
    assert a == d * q' + r';
    if q' < q {
      MulMonotone(d, q' + 1, q);
    } else if q' > q {
      MulMonotone(d, q + 1, q');
    }
  }

  lemma MulMonotone(d: int, a: int, b: int)
    requires d >= 0 && a <= b
    ensures d * a <= d * b
  {
  }

  /** The outcome of reading a prefix of a bit string. */
  datatype Read<+T> = Fail | Done(value: T, rest: seq<bool>) {
    predicate IsFailure() { Fail? }
    function PropagateFailure<U>(): Read<U> requires Fail? { Fail }
    function Extract(): (T, seq<bool>) requires Done? { (value, rest) }
  }

  function ReadBits(n: nat, s: seq<bool>): Read<nat>
  {
    if |s| < n then Fail else Done(Value(s[..n]), s[n..])
  }

  lemma ReadBitsBack(v: nat, n: nat, rest: seq<bool>)
    requires v < Pow2(n)
    ensures ReadBits(n, BitsOf(v, n) + rest) == Done(v, rest)
  {
    ValueOfBits(v, n);
    var s := BitsOf(v, n) + rest;
    assert s[..n] == BitsOf(v, n) && s[n..] == rest;
  }

  type Byte = bv8

  function Mask(j: nat): (m: Byte)
    requires j < 8
    ensures m != 0
  {
    if j == 0 then 0x80 else if j == 1 then 0x40 else if j == 2 then 0x20 else if j == 3 then 0x10
    else if j == 4 then 0x08 else if j == 5 then 0x04 else if j == 6 then 0x02 else 0x01
  }

  lemma MaskSets(b: Byte, i: nat, j: nat)
    requires i < 8 && j < 8
    ensures (b | Mask(i)) & Mask(j) != 0 <==> i == j || b & Mask(j) != 0
  {
    if i == j {
      assert (b | Mask(i)) & Mask(i) == Mask(i);
    } else {
      assert Mask(i) & Mask(j) == 0;
      assert (b | Mask(i)) & Mask(j) == (b & Mask(j)) | (Mask(i) & Mask(j));
    }
  }

  /** The bits of a byte string, each byte MSB first. */
  function BytesBits(s: seq<Byte>): (b: seq<bool>)
    ensures |b| == 8 * |s|
  {
    seq(8 * |s|, k requires 0 <= k < 8 * |s| => s[k / 8] & Mask(k % 8) != 0)
  }

  lemma BytesBitsConcat(a: seq<Byte>, b: seq<Byte>)
    ensures BytesBits(a + b) == BytesBits(a) + BytesBits(b)
  {
    var l, r := BytesBits(a + b), BytesBits(a) + BytesBits(b);
    forall k | 0 <= k < |l| ensures l[k] == r[k] {
      if k >= 8 * |a| {
        assert (a + b)[k / 8] == b[(k - 8 * |a|) / 8];
      }
    }
  }

  lemma BytesBitsSlice(s: seq<Byte>, i: nat, j: nat)
    requires i <= j <= |s|
    ensures BytesBits(s[i..j]) == BytesBits(s)[8 * i..8 * j]
  {
    BytesBitsConcat(s[..i], s[i..j]);
    BytesBitsConcat(s[..j], s[j..]);
    assert s[..i] + s[i..j] == s[..j];
    assert s[..j] + s[j..] == s;
  }

  /** Bytes needed for n bits. */
  function BytesFor(n: nat): nat { (n + 7) / 8 }

  /** The writer: n-bit fields or-ed, MSB first, into a zeroed byte buffer. */
  class Bitstream {
    const buf: array<Byte>
    var bytePos: nat
    var bitPos: nat

    ghost predicate Valid()
      reads this, buf
    {
      && bitPos < 8
      && TotalBits() <= 8 * buf.Length
      && forall k :: TotalBits() <= k < 8 * buf.Length ==> !BytesBits(buf[..])[k]
    }

    function TotalBits(): nat
      reads this
    {
      bytePos * 8 + bitPos
    }

    /** Everything put so far. */
    ghost function Written(): (b: seq<bool>)
      requires Valid()
      reads this, buf
      ensures |b| == TotalBits()
    {
      BytesBits(buf[..])[..TotalBits()]
    }

    constructor (dst: array<Byte>)
      modifies dst
      ensures Valid() && buf == dst && Written() == []
    {
      buf, bytePos, bitPos := dst, 0, 0;
      new;
      for i := 0 to dst.Length
        invariant buf == dst && bytePos == bitPos == 0
        invariant forall k :: 0 <= k < i ==> dst[k] == 0
      {
        dst[i] := 0;
      }
    }

    method PutBit(bit: bool)
      requires Valid() && TotalBits() < 8 * buf.Length
      modifies this, buf
      ensures Valid() && Written() == old(Written()) + [bit]
    {
      ghost var before := buf[..];
      if bit {
        buf[bytePos] := buf[bytePos] | Mask(bitPos);
      }
      ghost var after := buf[..];
      ghost var at := TotalBits();
      forall k | 0 <= k < 8 * |before|
        ensures BytesBits(after)[k] == if k == at then bit else BytesBits(before)[k]
      {
        if k / 8 == bytePos {
          MaskSets(before[bytePos], bitPos, k % 8);
        }
      }
      bitPos := bitPos + 1;
      if bitPos == 8 {
        bitPos := 0;
        bytePos := bytePos + 1;
      }
      assert TotalBits() == at + 1;
    }

    method Put(val: nat, n: nat)
      requires Valid() && TotalBits() + n <= 8 * buf.Length
      modifies this, buf
      ensures Valid() && Written() == old(Written()) + BitsOf(val, n)
    {
      var i := n;
      while i > 0
        invariant 0 <= i <= n
        invariant Valid() && TotalBits() + i == old(TotalBits()) + n
        invariant Written() + BitsOf(val, i) == old(Written()) + BitsOf(val, n)
      {
        i := i - 1;
        BitsOfHead(val, i);
        ghost var w := Written();
        PutBit((val / Pow2(i)) % 2 == 1);
        assert Written() + BitsOf(val, i) == w + BitsOf(val, i + 1);
      }
      assert Written() + [] == Written();
    }
  }

  lemma SliceSlice<T>(s: seq<T>, a: nat, b: nat, c: nat, d: nat)
    requires a <= b <= |s| && c <= d <= b - a
    ensures s[a..b][c..d] == s[a + c..a + d]
  {
    var x, y := s[a..b][c..d], s[a + c..a + d];
    assert forall i :: 0 <= i < d - c ==> x[i] == y[i];
  }
}
