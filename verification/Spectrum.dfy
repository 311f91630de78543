/**
 * The Huffman-coded part of a granule: what the writer of mp3/mp3enc.h emits for a spectrum under a
 * layout (big_values, regions, tables, count1), and the decoder that needs only that layout.
 */
module Spectrum {
  import opened Bits
  import opened PrefixCode
  import opened Huff

  /** Regions of big_values pairs: every value of the region is codable by its table. */
  predicate AllCodable(t: int, v: seq<int>)
  {
    (t == 0 || PairTable(t)) && forall k :: 0 <= k < |v| ==> Codable(t, v[k])
  }

  function RegionCode(t: int, v: seq<int>): seq<bool>
    requires AllCodable(t, v)
  {
    if |v| < 2 then [] else PairCode(t, v[0], v[1]) + RegionCode(t, v[2..])
  }

  function RegionBits(t: int, v: seq<int>): nat
    requires AllCodable(t, v)
  {
    if |v| < 2 then 0 else PairBits(t, v[0], v[1]) + RegionBits(t, v[2..])
  }

  lemma {:induction false} RegionSize(t: int, v: seq<int>)
    requires AllCodable(t, v)
    ensures |RegionCode(t, v)| == RegionBits(t, v)
  {
    hide PairCode, PairBits, Codable;
    if |v| >= 2 {
      PairSize(t, v[0], v[1]);
      RegionSize(t, v[2..]);
    }
  }

  ghost function DecodeRegion(t: int, pairs: nat, s: seq<bool>): Read<seq<int>>
    requires t == 0 || PairTable(t)
  {
    if pairs == 0 then Done([], s)
    else
      var (p, s1) :- DecodePair(t, s);
      var (rest, s2) :- DecodeRegion(t, pairs - 1, s1);
      Done([p.0, p.1] + rest, s2)
  }

  lemma {:induction false} RegionRoundTrip(t: int, v: seq<int>, rest: seq<bool>)
    requires AllCodable(t, v) && |v| % 2 == 0
    ensures DecodeRegion(t, |v| / 2, RegionCode(t, v) + rest) == Done(v, rest)
  {
    hide PairCode, DecodePair, Codable;
    if v == [] {
      assert RegionCode(t, v) + rest == rest;
    } else {
      var head, tail := PairCode(t, v[0], v[1]), RegionCode(t, v[2..]);
      assert RegionCode(t, v) + rest == head + (tail + rest);
      PairRoundTrip(t, v[0], v[1], tail + rest);
      RegionRoundTrip(t, v[2..], rest);
      assert [v[0], v[1]] + v[2..] == v;
    }
  }

  /** Values of the count1 region: quadruples of -1, 0 and 1. */
  predicate Small(v: seq<int>)
  {
    forall k :: 0 <= k < |v| ==> -1 <= v[k] <= 1
  }

  function QuadIndex(q: seq<int>): (i: nat)
    requires |q| == 4 && Small(q)
    ensures i < 16
  {
    Abs(q[0]) * 8 + Abs(q[1]) * 4 + Abs(q[2]) * 2 + Abs(q[3])
  }

  /** Sign bits of the nonzero values, in order. */
  function SignsCode(v: seq<int>): seq<bool>
  {
    if v == [] then [] else SignCode(v[0]) + SignsCode(v[1..])
  }

  function QuadCode(sel: nat, q: seq<int>): seq<bool>
    requires sel < 2 && |q| == 4 && Small(q)
  {
    Word(32 + sel, QuadIndex(q), 0) + SignsCode(q)
  }

  function QuadBits(sel: nat, q: seq<int>): nat
    requires sel < 2 && |q| == 4 && Small(q)
  {
    WordLen(32 + sel, QuadIndex(q), 0) + Abs(q[0]) + Abs(q[1]) + Abs(q[2]) + Abs(q[3])
  }

  function QuadsCode(sel: nat, v: seq<int>): seq<bool>
    requires sel < 2 && Small(v)
  {
    if |v| < 4 then [] else QuadCode(sel, v[..4]) + QuadsCode(sel, v[4..])
  }

  function QuadsBits(sel: nat, v: seq<int>): nat
    requires sel < 2 && Small(v)
  {
    if |v| < 4 then 0 else QuadBits(sel, v[..4]) + QuadsBits(sel, v[4..])
  }

  lemma {:induction false} SignsSize(v: seq<int>)
    requires Small(v)
    ensures v != [] ==> |SignsCode(v)| == Abs(v[0]) + |SignsCode(v[1..])|
  {
  }

  lemma QuadSize(sel: nat, q: seq<int>)
    requires sel < 2 && |q| == 4 && Small(q)
    ensures |QuadCode(sel, q)| == QuadBits(sel, q)
  {
    hide Word, WordLen, SignsCode;
    SignsSize(q);
    SignsSize(q[1..]);
    SignsSize(q[2..]);
    SignsSize(q[3..]);
    assert q[1..][1..] == q[2..] && q[2..][1..] == q[3..] && q[3..][1..] == [];
    NoSigns();
  }

  lemma NoSigns()
    ensures SignsCode([]) == []
  {
  }

  lemma {:induction false} QuadsSize(sel: nat, v: seq<int>)
    requires sel < 2 && Small(v)
    ensures |QuadsCode(sel, v)| == QuadsBits(sel, v)
  {
    hide QuadCode, QuadBits;
    if |v| >= 4 {
      QuadSize(sel, v[..4]);
      QuadsSize(sel, v[4..]);
    }
  }

  /** Give the magnitudes m their signs. */
  function ReadSigns(m: seq<nat>, s: seq<bool>): Read<seq<int>>
  {
    if m == [] then Done([], s)
    else
      var (x, s1) :- ReadSign(m[0], s);
      var (xs, s2) :- ReadSigns(m[1..], s1);
      Done([x] + xs, s2)
  }

  function Magnitudes(v: seq<int>): (m: seq<nat>)
    ensures |m| == |v|
  {
    if v == [] then [] else [Abs(v[0])] + Magnitudes(v[1..])
  }

  lemma {:induction false} SignsBack(v: seq<int>, rest: seq<bool>)
    ensures ReadSigns(Magnitudes(v), SignsCode(v) + rest) == Done(v, rest)
  {
    hide SignCode, ReadSign;
    if v == [] {
      assert SignsCode(v) + rest == rest;
    } else {
      assert SignsCode(v) + rest == SignCode(v[0]) + (SignsCode(v[1..]) + rest);
      SignBack(v[0], SignsCode(v[1..]) + rest);
      SignsBack(v[1..], rest);
      assert [v[0]] + v[1..] == v;
      assert Magnitudes(v)[1..] == Magnitudes(v[1..]);
    }
  }

  ghost function DecodeQuad(sel: nat, s: seq<bool>): Read<seq<int>>
    requires sel < 2
  {
    var (c, s1) :- Walk(TreeOf(32 + sel), s);
    if c.0 < 0 then Fail else ReadSigns([c.0 / 8 % 2, c.0 / 4 % 2, c.0 / 2 % 2, c.0 % 2], s1)
  }

  lemma QuadRoundTrip(sel: nat, q: seq<int>, rest: seq<bool>)
    requires sel < 2 && |q| == 4 && Small(q)
    ensures DecodeQuad(sel, QuadCode(sel, q) + rest) == Done(q, rest)
    ensures |QuadCode(sel, q)| > 0
  {
    hide Word, WordLen, Walk, Decodes, SignsCode, Magnitudes, ReadSigns;
    var i := QuadIndex(q);
    var word, signs := Word(32 + sel, i, 0), SignsCode(q);
    assert QuadCode(sel, q) + rest == word + (signs + rest);
    WordDecodes(32 + sel, i, 0, signs + rest);
    SignsBack(q, rest);
    IndexBits(q);
    WordNotEmpty(32 + sel, i, 0);
  }

  lemma {:induction false} MagnitudesOf(v: seq<int>, k: nat)
    requires k < |v|
    ensures Magnitudes(v)[k] == Abs(v[k])
  {
    if k > 0 {
      MagnitudesOf(v[1..], k - 1);
    }
  }

  lemma IndexBits(q: seq<int>)
    requires |q| == 4 && Small(q)
    ensures var i := QuadIndex(q); [i / 8 % 2, i / 4 % 2, i / 2 % 2, i % 2] == Magnitudes(q)
  {
    hide Magnitudes;
    MagnitudesOf(q, 0);
    MagnitudesOf(q, 1);
    MagnitudesOf(q, 2);
    MagnitudesOf(q, 3);
    FourBits(Abs(q[0]), Abs(q[1]), Abs(q[2]), Abs(q[3]));
  }

  lemma FourBits(a: nat, b: nat, c: nat, d: nat)
    requires a < 2 && b < 2 && c < 2 && d < 2
    ensures var i := a * 8 + b * 4 + c * 2 + d;
            i / 8 % 2 == a && i / 4 % 2 == b && i / 2 % 2 == c && i % 2 == d
  {
  }

  lemma WordNotEmpty(t: int, x: nat, y: nat)
    requires PairTable(t) || QuadTable(t)
    requires x < Width(t) && y < Height(t)
    ensures |Word(t, x, y)| > 0
  {
    hide Word, WordLen, Decodes;
    WordDecodes(t, x, y, []);
    if |Word(t, x, y)| == 0 {
      var other := if x == 0 then 1 else 0;
      WordDecodes(t, other, y, []);
    }
  }

  /** Quads are read until the granule's bits run out; room is the number of lines left. */
  ghost function DecodeQuads(sel: nat, room: nat, s: seq<bool>): Read<seq<int>>
    requires sel < 2
    decreases room
  {
    if s == [] then Done([], s)
    else if room < 4 then Fail
    else
      var (q, s1) :- DecodeQuad(sel, s);
      var (rest, s2) :- DecodeQuads(sel, room - 4, s1);
      Done(q + rest, s2)
  }

  lemma {:induction false} QuadsRoundTrip(sel: nat, v: seq<int>, room: nat)
    requires sel < 2 && Small(v) && |v| % 4 == 0 && |v| <= room
    ensures DecodeQuads(sel, room, QuadsCode(sel, v)) == Done(v, [])
    decreases |v|
  {
    hide QuadCode, DecodeQuad;
    if v != [] {
      QuadRoundTrip(sel, v[..4], QuadsCode(sel, v[4..]));
      QuadsRoundTrip(sel, v[4..], room - 4);
      assert v[..4] + v[4..] == v;
    }
  }

  const LINES: nat := 576

  /** Scalefactor band widths: 22 bands and a terminator. */
  ghost predicate BandTable(sfb: seq<nat>)
  {
    |sfb| == 23 && forall b :: 0 <= b < 23 ==> sfb[b] % 2 == 0
  }

  /** End of the first n bands. */
  function BandEnd(sfb: seq<nat>, n: nat): nat
    requires n <= |sfb|
  {
    if n == 0 then 0 else BandEnd(sfb, n - 1) + sfb[n - 1]
  }

  lemma {:induction false} BandEndEven(sfb: seq<nat>, n: nat)
    requires BandTable(sfb) && n <= 23
    ensures BandEnd(sfb, n) % 2 == 0
  {
    if n > 0 {
      BandEndEven(sfb, n - 1);
    }
  }

  lemma {:induction false} BandEndGrows(sfb: seq<nat>, m: nat, n: nat)
    requires m <= n <= |sfb|
    ensures BandEnd(sfb, m) <= BandEnd(sfb, n)
  {
    if m < n {
      BandEndGrows(sfb, m, n - 1);
    }
  }

  /** The side information that fixes how the Huffman bits of a granule are laid out. */
  datatype Layout = Layout(bigValues: nat, region0: nat, region1: nat,
                           table0: nat, table1: nat, table2: nat, count1: nat) {

    predicate InRange()
    {
      && 2 * bigValues <= LINES && region0 < 16 && region1 < 8 && region0 + region1 + 2 <= 22
      && table0 < 32 && table1 < 32 && table2 < 32 && count1 < 2
      && (table0 == 0 || PairTable(table0))
      && (table1 == 0 || PairTable(table1))
      && (table2 == 0 || PairTable(table2))
    }

    /** Where the first and the second region end; the third ends with big_values. */
    function End0(sfb: seq<nat>): (e: nat)
      requires InRange() && |sfb| == 23
      ensures e <= 2 * bigValues
    {
      Min(BandEnd(sfb, region0 + 1), 2 * bigValues)
    }

    function End1(sfb: seq<nat>): (e: nat)
      requires InRange() && |sfb| == 23
      ensures End0(sfb) <= e <= 2 * bigValues
    {
      BandEndGrows(sfb, region0 + 1, region0 + region1 + 2);
      Min(BandEnd(sfb, region0 + region1 + 2), 2 * bigValues)
    }

    lemma EndsEven(sfb: seq<nat>)
      requires InRange() && BandTable(sfb)
      ensures End0(sfb) % 2 == End1(sfb) % 2 == 0
    {
      BandEndEven(sfb, region0 + 1);
      BandEndEven(sfb, region0 + region1 + 2);
    }
  }

  /** End of the nonzero pairs at or before line e. */
  function NonzeroEnd(ix: seq<int>, e: nat): (r: nat)
    requires e <= |ix|
    ensures r <= e && (e - r) % 2 == 0
    ensures forall k :: r <= k < e ==> ix[k] == 0
  {
    if e >= 2 && ix[e - 2] == 0 && ix[e - 1] == 0 then NonzeroEnd(ix, e - 2) else e
  }

  /** The layout is right for the spectrum: every value is codable where it is coded. */
  ghost predicate Describes(l: Layout, ix: seq<int>, sfb: seq<nat>)
  {
    && l.InRange() && |ix| == LINES && BandTable(sfb)
    && AllCodable(l.table0, ix[..l.End0(sfb)])
    && AllCodable(l.table1, ix[l.End0(sfb)..l.End1(sfb)])
    && AllCodable(l.table2, ix[l.End1(sfb)..2 * l.bigValues])
    && 2 * l.bigValues <= NonzeroEnd(ix, LINES)
    && (NonzeroEnd(ix, LINES) - 2 * l.bigValues) % 4 == 0
    && Small(ix[2 * l.bigValues..NonzeroEnd(ix, LINES)])
  }

  /** What the frame writer emits for a granule's spectrum. */
  ghost function SpectrumCode(l: Layout, ix: seq<int>, sfb: seq<nat>): seq<bool>
    requires Describes(l, ix, sfb)
  {
    RegionCode(l.table0, ix[..l.End0(sfb)])
    + RegionCode(l.table1, ix[l.End0(sfb)..l.End1(sfb)])
    + RegionCode(l.table2, ix[l.End1(sfb)..2 * l.bigValues])
    + QuadsCode(l.count1, ix[2 * l.bigValues..NonzeroEnd(ix, LINES)])
  }

  /** The size of SpectrumCode, region by region. */
  ghost function SpectrumBits(l: Layout, ix: seq<int>, sfb: seq<nat>): nat
    requires Describes(l, ix, sfb)
  {
    RegionBits(l.table0, ix[..l.End0(sfb)])
    + RegionBits(l.table1, ix[l.End0(sfb)..l.End1(sfb)])
    + RegionBits(l.table2, ix[l.End1(sfb)..2 * l.bigValues])
    + QuadsBits(l.count1, ix[2 * l.bigValues..NonzeroEnd(ix, LINES)])
  }

  /** The size oracle agrees with the writer. */
  lemma SpectrumSize(l: Layout, ix: seq<int>, sfb: seq<nat>)
    requires Describes(l, ix, sfb)
    ensures |SpectrumCode(l, ix, sfb)| == SpectrumBits(l, ix, sfb)
  {
    hide RegionCode, RegionBits, QuadsCode, QuadsBits, AllCodable, Small;
    RegionSize(l.table0, ix[..l.End0(sfb)]);
    RegionSize(l.table1, ix[l.End0(sfb)..l.End1(sfb)]);
    RegionSize(l.table2, ix[l.End1(sfb)..2 * l.bigValues]);
    QuadsSize(l.count1, ix[2 * l.bigValues..NonzeroEnd(ix, LINES)]);
  }

  function Zeros(n: nat): (z: seq<int>)
    ensures |z| == n && forall k :: 0 <= k < n ==> z[k] == 0
  {
    seq(n, _ => 0)
  }

  /** Read a spectrum from exactly the Huffman bits of a granule. */
  ghost function DecodeSpectrum(l: Layout, sfb: seq<nat>, s: seq<bool>): Read<seq<int>>
    requires l.InRange() && |sfb| == 23
  {
    var (v0, s0) :- DecodeRegion(l.table0, l.End0(sfb) / 2, s);
    var (v1, s1) :- DecodeRegion(l.table1, (l.End1(sfb) - l.End0(sfb)) / 2, s0);
    var (v2, s2) :- DecodeRegion(l.table2, (2 * l.bigValues - l.End1(sfb)) / 2, s1);
    var (v3, s3) :- DecodeQuads(l.count1, LINES - 2 * l.bigValues, s2);
    var v := v0 + v1 + v2 + v3;
    if |v| > LINES then Fail else Done(v + Zeros(LINES - |v|), s3)
  }

  /**
   * The decoder recovers the spectrum from the bits written for it, given only the layout and the
   * end of the granule's bits.
   */
  lemma SpectrumRoundTrip(l: Layout, ix: seq<int>, sfb: seq<nat>)
    requires Describes(l, ix, sfb)
    ensures DecodeSpectrum(l, sfb, SpectrumCode(l, ix, sfb)) == Done(ix, [])
  {
    hide RegionCode, QuadsCode, DecodeRegion, DecodeQuads, Codable, Small;
    var e0, e1, e2, e3 := l.End0(sfb), l.End1(sfb), 2 * l.bigValues, NonzeroEnd(ix, LINES);
    l.EndsEven(sfb);
    var c3 := QuadsCode(l.count1, ix[e2..e3]);
    var c2 := RegionCode(l.table2, ix[e1..e2]) + c3;
    var c1 := RegionCode(l.table1, ix[e0..e1]) + c2;
    assert SpectrumCode(l, ix, sfb) == RegionCode(l.table0, ix[..e0]) + c1;
    RegionRoundTrip(l.table0, ix[..e0], c1);
    RegionRoundTrip(l.table1, ix[e0..e1], c2);
    RegionRoundTrip(l.table2, ix[e1..e2], c3);
    QuadsRoundTrip(l.count1, ix[e2..e3], LINES - e2);
    assert ix[..e0] + ix[e0..e1] + ix[e1..e2] + ix[e2..e3] == ix[..e3];
    assert ix[..e3] + Zeros(LINES - e3) == ix;
  }
}
