/**
 * The Philox4x32-10 generator of src/philox.h is a permutation of its counters under every key: each round
 * has an explicit inverse, because the multipliers are odd and exclusive or undoes itself. Different draws
 * under one seed therefore never see the same words.
 */
module Philox {
  import opened Bits

  const WORDS: int := 0x1_0000_0000

  /** A 32-bit word. */
  type Word = w: int | 0 <= w < WORDS

  /** Exclusive or of the low n bits. */
  function XorBits(a: nat, b: nat, n: nat): (r: nat)
    ensures r < Pow2(n)
  {
    if n == 0 then 0 else (a + b) % 2 + 2 * XorBits(a / 2, b / 2, n - 1)
  }

  lemma {:induction false} XorTwice(a: nat, b: nat, n: nat)
    requires a < Pow2(n)
    ensures XorBits(XorBits(a, b, n), b, n) == a
  {
    if n > 0 {
      XorTwice(a / 2, b / 2, n - 1);
      Parity(a, b, XorBits(a / 2, b / 2, n - 1));
    }
  }

  lemma Parity(a: nat, b: nat, r: nat)
    ensures ((a + b) % 2 + 2 * r) / 2 == r
    ensures ((a + b) % 2 + 2 * r + b) % 2 == a % 2
  {
  }

  lemma {:induction false} XorSymmetric(a: nat, b: nat, n: nat)
    ensures XorBits(a, b, n) == XorBits(b, a, n)
  {
    if n > 0 { XorSymmetric(a / 2, b / 2, n - 1); }
  }

  lemma Pow32()
    ensures Pow2(32) == WORDS
  {
    assert Pow2(8) == 256;
    assert Pow2(16) == 65536;
    assert Pow2(24) == 16777216;
  }

  function Xor(a: Word, b: Word): Word
  {
    Pow32();
    XorBits(a, b, 32)
  }

  lemma XorCancels(a: Word, b: Word)
    ensures Xor(Xor(a, b), b) == a && Xor(a, b) == Xor(b, a)
  {
    Pow32();
    XorTwice(a, b, 32);
    XorSymmetric(a, b, 32);
  }

  /** Addition wraps around. */
  function Plus(a: Word, b: Word): Word { (a + b) % WORDS }

  const M0: int := 0xD2511F53
  const M1: int := 0xCD9E8D57
  const W0: Word := 0x9E3779B9
  const W1: Word := 0xBB67AE85

  /** Inverses of the multipliers modulo the word size. */
  const M0_INVERSE: int := 0x991A7CDB
  const M1_INVERSE: int := 0x6D7CAE67

  datatype Block = Block(x: Word, y: Word, z: Word, w: Word)

  /** High and low word of a product. */
  function MulHiLo(m: int, v: Word): (r: (Word, Word))
    requires 0 <= m < WORDS
  {
    ProductFits(m, v);
    (m * v / WORDS, m * v % WORDS)
  }

  lemma ProductFits(m: int, v: int)
    requires 0 <= m < WORDS && 0 <= v < WORDS
    ensures 0 <= m * v / WORDS < WORDS && 0 <= m * v % WORDS < WORDS
  {
    var q := m * v / WORDS;
    assert m * v == WORDS * q + m * v % WORDS;
    assert m * v <= (WORDS - 1) * v <= (WORDS - 1) * WORDS by {
      MulMonotone(v, m, WORDS - 1);
      MulMonotone(WORDS - 1, v, WORDS);
    }
    assert m * v >= 0 by { MulMonotone(v, 0, m); }
  }

  /** Multiplying the low word by the inverse gives the factor back. */
  lemma MulInverse(m: int, inverse: int, v: Word)
    requires 0 <= m < WORDS && 0 <= inverse < WORDS && m * inverse % WORDS == 1
    ensures MulHiLo(inverse, MulHiLo(m, v).1).1 == v
  {
    var lo, q, t := m * v % WORDS, m * v / WORDS, m * inverse / WORDS;
    assert lo == m * v - WORDS * q && m * inverse == WORDS * t + 1;
    Rearranged(m, inverse, v, q, t);
    RemainderIs(inverse * lo, WORDS, t * v - inverse * q, v);
  }

  lemma Rearranged(m: int, inverse: int, v: int, q: int, t: int)
    requires m * inverse == WORDS * t + 1
    ensures inverse * (m * v - WORDS * q) == WORDS * (t * v - inverse * q) + v
  {
    assert inverse * (m * v - WORDS * q) == (m * inverse) * v - WORDS * (inverse * q);
    assert (WORDS * t + 1) * v == WORDS * (t * v) + v;
  }

  lemma RemainderIs(a: int, d: int, q: int, r: int)
    requires d > 0 && a == d * q + r && 0 <= r < d
    ensures a % d == r
  {
    var e := a / d - q;
    assert a == d * (a / d) + a % d;
    assert d * e == r - a % d;
    if e > 0 { MulMonotone(d, 1, e); } else if e < 0 { MulMonotone(d, 1, -e); }
  }

  function Round(c: Block, k0: Word, k1: Word): Block
  {
    var p0, p1 := MulHiLo(M0, c.x), MulHiLo(M1, c.z);
    Block(Xor(Xor(p1.0, c.y), k0), p1.1, Xor(Xor(p0.0, c.w), k1), p0.1)
  }

  /** Bit k of a number. */
  function Bit(a: nat, k: nat): nat { a / Pow2(k) % 2 }

  /** Exclusive or, bit by bit. */
  lemma {:induction false} XorBit(a: nat, b: nat, n: nat, k: nat)
    requires k < n
    ensures Bit(XorBits(a, b, n), k) == (Bit(a, k) + Bit(b, k)) % 2
  {
    var r := XorBits(a / 2, b / 2, n - 1);
    if k == 0 {
      Parity(a, b, r);
    } else {
      XorBit(a / 2, b / 2, n - 1, k - 1);
      Parity(a, b, r);
      BitAbove(a, k);
      BitAbove(b, k);
      BitAbove(XorBits(a, b, n), k);
    }
  }

  lemma BitAbove(a: nat, k: nat)
    requires k > 0
    ensures Bit(a, k) == Bit(a / 2, k - 1)
  {
    HalvesCompose(a, k - 1);
  }

  /** A round by the generator's definition: products by the two multipliers, halves crossed over, keys mixed in. */
  lemma RoundBits(c: Block, k0: Word, k1: Word, k: nat)
    requires k < 32
    ensures var r, p, q := Round(c, k0, k1), 0xD2511F53 * c.x, 0xCD9E8D57 * c.z;
            && p >= 0 && q >= 0
            && r.y == q % 0x1_0000_0000 && r.w == p % 0x1_0000_0000
            && Bit(r.x, k) == (Bit(q / 0x1_0000_0000, k) + Bit(c.y, k) + Bit(k0, k)) % 2
            && Bit(r.z, k) == (Bit(p / 0x1_0000_0000, k) + Bit(c.w, k) + Bit(k1, k)) % 2
  {
    hide XorBits, Bit;
    var p0, p1 := MulHiLo(M0, c.x), MulHiLo(M1, c.z);
    XorBit(p1.0, c.y, 32, k);
    XorBit(Xor(p1.0, c.y), k0, 32, k);
    XorBit(p0.0, c.w, 32, k);
    XorBit(Xor(p0.0, c.w), k1, 32, k);
  }

  function Unround(c: Block, k0: Word, k1: Word): Block
  {
    var x, z := MulHiLo(M0_INVERSE, c.w).1, MulHiLo(M1_INVERSE, c.y).1;
    var p0, p1 := MulHiLo(M0, x), MulHiLo(M1, z);
    Block(x, Xor(Xor(c.x, k0), p1.0), z, Xor(Xor(c.z, k1), p0.0))
  }

  lemma Mixed(h: Word, v: Word, k: Word)
    ensures Xor(Xor(Xor(Xor(h, v), k), k), h) == v
    ensures Xor(Xor(h, Xor(Xor(v, k), h)), k) == v
  {
    hide Xor;
    XorCancels(h, v);
    XorCancels(v, h);
    XorCancels(Xor(h, v), k);
    XorCancels(Xor(v, k), h);
    XorCancels(h, Xor(Xor(v, k), h));
    XorCancels(v, k);
  }

  /** Every round can be undone, and undoing can be redone. */
  lemma RoundInverse(c: Block, k0: Word, k1: Word)
    ensures Unround(Round(c, k0, k1), k0, k1) == c
    ensures Round(Unround(c, k0, k1), k0, k1) == c
  {
    MulInverse(M0, M0_INVERSE, c.x);
    MulInverse(M1, M1_INVERSE, c.z);
    MulInverse(M0_INVERSE, M0, c.w);
    MulInverse(M1_INVERSE, M1, c.y);
    hide MulHiLo, Xor;
    Mixed(MulHiLo(M1, c.z).0, c.y, k0);
    Mixed(MulHiLo(M0, c.x).0, c.w, k1);
    Mixed(MulHiLo(M1, MulHiLo(M1_INVERSE, c.y).1).0, c.x, k0);
    Mixed(MulHiLo(M0, MulHiLo(M0_INVERSE, c.w).1).0, c.z, k1);
  }

  /** n rounds, with the keys going up by a constant each time. */
  function Rounds(c: Block, k0: Word, k1: Word, n: nat): Block
    decreases n
  {
    if n == 0 then c else Rounds(Round(c, k0, k1), Plus(k0, W0), Plus(k1, W1), n - 1)
  }

  /** Round n uses the keys after n steps, which wrap around. */
  lemma {:induction false} NextRound(c: Block, k0: Word, k1: Word, n: nat)
    ensures Rounds(c, k0, k1, n + 1)
            == Round(Rounds(c, k0, k1, n), (k0 + n * 0x9E3779B9) % WORDS, (k1 + n * 0xBB67AE85) % WORDS)
    decreases n
  {
    hide Round;
    if n > 0 {
      NextRound(Round(c, k0, k1), Plus(k0, W0), Plus(k1, W1), n - 1);
      Stepped(k0, W0, n);
      Stepped(k1, W1, n);
    } else {
      var d := Round(c, k0, k1);
      assert Rounds(c, k0, k1, 1) == Rounds(d, Plus(k0, W0), Plus(k1, W1), 0) == d;
    }
  }

  lemma Stepped(k: Word, w: Word, n: nat)
    requires n > 0
    ensures (Plus(k, w) + (n - 1) * w) % WORDS == (k + n * w) % WORDS
  {
    var q := (k + w) / WORDS;
    assert Plus(k, w) == k + w - WORDS * q;
    assert n * w == w + (n - 1) * w;
    var t := (k + n * w) / WORDS;
    RemainderIs(k + n * w - WORDS * q, WORDS, t - q, (k + n * w) % WORDS);
  }

  function Unrounds(c: Block, k0: Word, k1: Word, n: nat): Block
    decreases n
  {
    if n == 0 then c else Unround(Unrounds(c, Plus(k0, W0), Plus(k1, W1), n - 1), k0, k1)
  }

  lemma {:induction false} RoundsInverse(c: Block, k0: Word, k1: Word, n: nat)
    ensures Unrounds(Rounds(c, k0, k1, n), k0, k1, n) == c
    ensures Rounds(Unrounds(c, k0, k1, n), k0, k1, n) == c
    decreases n
  {
    hide Round, Unround;
    if n > 0 {
      RoundsInverse(Round(c, k0, k1), Plus(k0, W0), Plus(k1, W1), n - 1);
      RoundsInverse(c, Plus(k0, W0), Plus(k1, W1), n - 1);
      RoundInverse(c, k0, k1);
      RoundInverse(Unrounds(c, Plus(k0, W0), Plus(k1, W1), n - 1), k0, k1);
    }
  }

  /** For every key, ten rounds map different counters to different blocks and reach every block. */
  lemma Permutation(k0: Word, k1: Word)
    ensures forall a, b :: Rounds(a, k0, k1, 10) == Rounds(b, k0, k1, 10) ==> a == b
    ensures forall b :: Rounds(Unrounds(b, k0, k1, 10), k0, k1, 10) == b
  {
    hide Rounds, Unrounds;
    forall a
      ensures Unrounds(Rounds(a, k0, k1, 10), k0, k1, 10) == a && Rounds(Unrounds(a, k0, k1, 10), k0, k1, 10) == a
    {
      RoundsInverse(a, k0, k1, 10);
    }
  }

  /** philox4x32_10. */
  method Philox10(ctr: Block, seedLo: Word, seedHi: Word) returns (c: Block)
    ensures c == Rounds(ctr, seedLo, seedHi, 10)
  {
    hide Round, Plus;
    var k0, k1 := seedLo, seedHi;
    c := Round(ctr, k0, k1);
    k0, k1 := Plus(k0, W0), Plus(k1, W1);
    c := Round(c, k0, k1);
    k0, k1 := Plus(k0, W0), Plus(k1, W1);
    assert Rounds(ctr, seedLo, seedHi, 10) == Rounds(c, k0, k1, 8);
    c := Round(c, k0, k1);
    k0, k1 := Plus(k0, W0), Plus(k1, W1);
    c := Round(c, k0, k1);
    k0, k1 := Plus(k0, W0), Plus(k1, W1);
    assert Rounds(ctr, seedLo, seedHi, 10) == Rounds(c, k0, k1, 6);
    c := Round(c, k0, k1);
    k0, k1 := Plus(k0, W0), Plus(k1, W1);
    c := Round(c, k0, k1);
    k0, k1 := Plus(k0, W0), Plus(k1, W1);
    assert Rounds(ctr, seedLo, seedHi, 10) == Rounds(c, k0, k1, 4);
    c := Round(c, k0, k1);
    k0, k1 := Plus(k0, W0), Plus(k1, W1);
    c := Round(c, k0, k1);
    k0, k1 := Plus(k0, W0), Plus(k1, W1);
    assert Rounds(ctr, seedLo, seedHi, 10) == Rounds(c, k0, k1, 2);
    c := Round(c, k0, k1);
    k0, k1 := Plus(k0, W0), Plus(k1, W1);
    c := Round(c, k0, k1);
  }

  /** A 64-bit integer in two's complement. */
  type Long = v: int | -0x8000_0000_0000_0000 <= v < 0x8000_0000_0000_0000

  function Low(v: Long): Word { v % WORDS }

  function High(v: Long): Word { v / WORDS % WORDS }

  lemma HalvesUnique(a: Long, b: Long)
    requires Low(a) == Low(b) && High(a) == High(b)
    ensures a == b
  {
    assert a == WORDS * (a / WORDS) + a % WORDS && b == WORDS * (b / WORDS) + b % WORDS;
  }

  function Counter(subsequence: Long, offset: Long): Block
  {
    Block(Low(offset), High(offset), Low(subsequence), High(subsequence))
  }

  /** The words philox_normal4 draws from. */
  function Drawn(seed: Long, subsequence: Long, offset: Long): Block
  {
    Rounds(Counter(subsequence, offset), Low(seed), High(seed), 10)
  }

  /** The counter is offset and subsequence, the key the seed, each as two words, the low one first. */
  lemma DrawnFrom(seed: Long, subsequence: Long, offset: Long, c: Block, k0: Word, k1: Word)
    requires (offset - c.x) % WORDS == 0 && ((offset - c.x) / WORDS - c.y) % WORDS == 0
    requires (subsequence - c.z) % WORDS == 0 && ((subsequence - c.z) / WORDS - c.w) % WORDS == 0
    requires (seed - k0) % WORDS == 0 && ((seed - k0) / WORDS - k1) % WORDS == 0
    ensures Drawn(seed, subsequence, offset) == Rounds(c, k0, k1, 10)
  {
    hide Rounds;
    Halves(offset, c.x, c.y);
    Halves(subsequence, c.z, c.w);
    Halves(seed, k0, k1);
  }

  lemma Halves(v: Long, lo: Word, hi: Word)
    requires (v - lo) % WORDS == 0 && ((v - lo) / WORDS - hi) % WORDS == 0
    ensures lo == Low(v) && hi == High(v)
  {
  }

  /** Under one seed no two draws see the same words. */
  lemma DrawsDiffer(seed: Long, s: Long, o: Long, s': Long, o': Long)
    requires Drawn(seed, s, o) == Drawn(seed, s', o')
    ensures s == s' && o == o'
  {
    hide Rounds, Low, High;
    Permutation(Low(seed), High(seed));
    HalvesUnique(s, s');
    HalvesUnique(o, o');
  }

  /** philox_randn: element k comes from the first two words of subsequence k. */
  method Randn(seed: Long, out: array<real>, normal: (Word, Word) -> real, rounded: real -> real, bf16: bool)
    requires out.Length < 0x8000_0000
    modifies out
    ensures forall k :: 0 <= k < out.Length ==>
              var b := Drawn(seed, k, 0); out[k] == if bf16 then rounded(normal(b.x, b.y)) else normal(b.x, b.y)
  {
    hide Rounds;
    for k := 0 to out.Length
      invariant forall j :: 0 <= j < k ==>
                  var b := Drawn(seed, j, 0); out[j] == if bf16 then rounded(normal(b.x, b.y)) else normal(b.x, b.y)
    {
      var b := Philox10(Counter(k, 0), Low(seed), High(seed));
      var n := normal(b.x, b.y);
      out[k] := if bf16 then rounded(n) else n;
    }
  }
}
