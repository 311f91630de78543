/**
 * One granule of one channel: scalefactors (mp3enc_part2_length, mp3enc_best_scalefac_compress,
 * mp3enc_write_scalefactors) and main data, with the decoder that reads them back.
 */
module Granules {
  import opened Bits
  import opened Huff
  import opened Spectrum
  import Count

  const SLEN1: seq<nat> := [0, 0, 0, 0, 3, 1, 1, 1, 2, 2, 2, 3, 3, 3, 4, 4]
  const SLEN2: seq<nat> := [0, 1, 2, 3, 0, 1, 2, 3, 1, 2, 3, 1, 2, 3, 2, 3]

  /** Long-block bands that carry a scalefactor. */
  const BANDS: nat := 21

  datatype Granule = Granule(part23: nat, layout: Layout, globalGain: nat, compress: nat,
                             preflag: bool, scale: bool, scalefac: seq<nat>)

  /** Four groups of bands share a scfsi flag; the first two use slen1, the others slen2. */
  function GroupStart(b: nat): (s: nat)
    requires b <= 4
    ensures s <= BANDS
  {
    if b == 0 then 0 else if b == 1 then 6 else if b == 2 then 11 else if b == 3 then 16 else 21
  }

  function Slen(compress: nat, b: nat): nat
    requires compress < 16
  {
    if b < 2 then SLEN1[compress] else SLEN2[compress]
  }

  /** Whether a group is written: always in granule 0, in granule 1 unless scfsi shares it. */
  predicate Sent(gr: nat, scfsi: seq<bool>, b: nat)
    requires |scfsi| == 4 && b < 4
  {
    gr == 0 || !scfsi[b]
  }

  /** Fixed-width fields, in order. */
  function FieldsCode(vs: seq<nat>, n: nat): (c: seq<bool>)
    ensures |c| == |vs| * n
  {
    if vs == [] then [] else
      assert |vs| * n == n + |vs[1..]| * n;
      BitsOf(vs[0], n) + FieldsCode(vs[1..], n)
  }

  function ReadFields(n: nat, count: nat, s: seq<bool>): Read<seq<nat>>
  {
    if count == 0 then Done([], s)
    else
      var (v, s1) :- ReadBits(n, s);
      var (vs, s2) :- ReadFields(n, count - 1, s1);
      Done([v] + vs, s2)
  }

  lemma {:induction false} FieldsRoundTrip(vs: seq<nat>, n: nat, rest: seq<bool>)
    requires forall k :: 0 <= k < |vs| ==> vs[k] < Pow2(n)
    ensures ReadFields(n, |vs|, FieldsCode(vs, n) + rest) == Done(vs, rest)
  {
    if vs == [] {
      assert FieldsCode(vs, n) + rest == rest;
    } else {
      assert FieldsCode(vs, n) + rest == BitsOf(vs[0], n) + (FieldsCode(vs[1..], n) + rest);
      ReadBitsBack(vs[0], n, FieldsCode(vs[1..], n) + rest);
      FieldsRoundTrip(vs[1..], n, rest);
      assert [vs[0]] + vs[1..] == vs;
    }
  }

  /** The bits of one group. */
  function GroupCode(g: Granule, gr: nat, scfsi: seq<bool>, b: nat): seq<bool>
    requires g.compress < 16 && |g.scalefac| == BANDS && |scfsi| == 4 && b < 4
  {
    if Sent(gr, scfsi, b) then FieldsCode(g.scalefac[GroupStart(b)..GroupStart(b + 1)], Slen(g.compress, b)) else []
  }

  /** What the writer emits for the scalefactors of groups b, b + 1, .. 3. */
  function ScalefacCode(g: Granule, gr: nat, scfsi: seq<bool>, b: nat): seq<bool>
    requires g.compress < 16 && |g.scalefac| == BANDS && |scfsi| == 4 && b <= 4
    decreases 4 - b
  {
    if b == 4 then [] else GroupCode(g, gr, scfsi, b) + ScalefacCode(g, gr, scfsi, b + 1)
  }

  lemma {:induction false} FieldsConcat(a: seq<nat>, b: seq<nat>, n: nat)
    ensures FieldsCode(a + b, n) == FieldsCode(a, n) + FieldsCode(b, n)
  {
    if a == [] {
      assert a + b == b;
    } else {
      assert (a + b)[1..] == a[1..] + b;
      FieldsConcat(a[1..], b, n);
    }
  }

  /**
   * Granule 0 sends bands 0 to 10 with slen1, then bands 11 to 20 with slen2; granule 1 leaves out bands 0 to 5,
   * 6 to 10, 11 to 15 and 16 to 20 where their flag shares them (section 2.4.2.7 of ISO 11172-3).
   */
  lemma ScalefacOrder(g: Granule, scfsi: seq<bool>)
    requires g.compress < 16 && |g.scalefac| == 21 && |scfsi| == 4
    ensures ScalefacCode(g, 0, scfsi, 0)
            == FieldsCode(g.scalefac[..11], SLEN1[g.compress]) + FieldsCode(g.scalefac[11..], SLEN2[g.compress])
    ensures ScalefacCode(g, 1, scfsi, 0)
            == (if scfsi[0] then [] else FieldsCode(g.scalefac[..6], SLEN1[g.compress]))
               + ((if scfsi[1] then [] else FieldsCode(g.scalefac[6..11], SLEN1[g.compress]))
                  + ((if scfsi[2] then [] else FieldsCode(g.scalefac[11..16], SLEN2[g.compress]))
                     + (if scfsi[3] then [] else FieldsCode(g.scalefac[16..], SLEN2[g.compress]))))
  {
    var sf, n, m := g.scalefac, SLEN1[g.compress], SLEN2[g.compress];
    FourGroups(g, 0, scfsi);
    FourGroups(g, 1, scfsi);
    assert sf[..11] == sf[..6] + sf[6..11] && sf[11..] == sf[11..16] + sf[16..];
    assert sf[0..6] == sf[..6] && sf[16..21] == sf[16..];
    FieldsConcat(sf[..6], sf[6..11], n);
    FieldsConcat(sf[11..16], sf[16..], m);
    hide FieldsCode;
    Joined(FieldsCode(sf[..6], n), FieldsCode(sf[6..11], n), FieldsCode(sf[11..16], m) + FieldsCode(sf[16..], m));
  }

  lemma Joined(a: seq<bool>, b: seq<bool>, c: seq<bool>)
    ensures a + (b + c) == a + b + c
  {
  }

  lemma FourGroups(g: Granule, gr: nat, scfsi: seq<bool>)
    requires g.compress < 16 && |g.scalefac| == BANDS && |scfsi| == 4
    ensures ScalefacCode(g, gr, scfsi, 0)
            == GroupCode(g, gr, scfsi, 0)
               + (GroupCode(g, gr, scfsi, 1) + (GroupCode(g, gr, scfsi, 2) + GroupCode(g, gr, scfsi, 3)))
  {
    hide GroupCode;
    assert ScalefacCode(g, gr, scfsi, 4) == [];
    assert ScalefacCode(g, gr, scfsi, 3) == GroupCode(g, gr, scfsi, 3);
    assert ScalefacCode(g, gr, scfsi, 2) == GroupCode(g, gr, scfsi, 2) + ScalefacCode(g, gr, scfsi, 3);
    assert ScalefacCode(g, gr, scfsi, 1) == GroupCode(g, gr, scfsi, 1) + ScalefacCode(g, gr, scfsi, 2);
  }

  /** mp3enc_part2_length over groups b .. 3. */
  function Part2Length(compress: nat, gr: nat, scfsi: seq<bool>, b: nat): nat
    requires compress < 16 && |scfsi| == 4 && b <= 4
    decreases 4 - b
  {
    if b == 4 then 0
    else
      (if Sent(gr, scfsi, b) then (GroupStart(b + 1) - GroupStart(b)) * Slen(compress, b) else 0)
      + Part2Length(compress, gr, scfsi, b + 1)
  }

  lemma {:induction false} ScalefacSize(g: Granule, gr: nat, scfsi: seq<bool>, b: nat)
    requires g.compress < 16 && |g.scalefac| == BANDS && |scfsi| == 4 && b <= 4
    ensures |ScalefacCode(g, gr, scfsi, b)| == Part2Length(g.compress, gr, scfsi, b)
    decreases 4 - b
  {
    hide Slen, FieldsCode, Sent;
    if b < 4 {
      ScalefacSize(g, gr, scfsi, b + 1);
      GroupSize(g, gr, scfsi, b);
      hide GroupCode, GroupStart;
    }
  }

  lemma GroupSize(g: Granule, gr: nat, scfsi: seq<bool>, b: nat)
    requires g.compress < 16 && |g.scalefac| == BANDS && |scfsi| == 4 && b < 4
    ensures |GroupCode(g, gr, scfsi, b)|
            == if Sent(gr, scfsi, b) then (GroupStart(b + 1) - GroupStart(b)) * Slen(g.compress, b) else 0
  {
    hide Slen, FieldsCode, Sent;
  }

  /** Every scalefactor fits the width its group is written in; a group of width 0 writes nothing. */
  ghost predicate Representable(compress: nat, scalefac: seq<nat>)
    requires compress < 16 && |scalefac| == BANDS
  {
    && (SLEN1[compress] > 0 ==> forall k :: 0 <= k < 11 ==> scalefac[k] < Pow2(SLEN1[compress]))
    && (SLEN2[compress] > 0 ==> forall k :: 11 <= k < 21 ==> scalefac[k] < Pow2(SLEN2[compress]))
  }

  /** The scalefactors a decoder sees: those of a group of width 0 read as zero. */
  function Received(g: Granule): (sf: seq<nat>)
    requires g.compress < 16 && |g.scalefac| == BANDS
    ensures |sf| == BANDS
  {
    seq(BANDS, k requires 0 <= k < BANDS =>
      if (if k < 11 then SLEN1[g.compress] else SLEN2[g.compress]) == 0 then 0 else g.scalefac[k])
  }

  /** Read one group; a group that is not sent is copied from the previous granule. */
  function ReadGroup(compress: nat, gr: nat, scfsi: seq<bool>, prev: seq<nat>, b: nat, s: seq<bool>): Read<seq<nat>>
    requires compress < 16 && |scfsi| == 4 && |prev| == BANDS && b < 4
  {
    if Sent(gr, scfsi, b) then ReadFields(Slen(compress, b), GroupStart(b + 1) - GroupStart(b), s)
    else Done(prev[GroupStart(b)..GroupStart(b + 1)], s)
  }

  /** Read groups b .. 3. */
  function ReadScalefacs(compress: nat, gr: nat, scfsi: seq<bool>, prev: seq<nat>, b: nat, s: seq<bool>): Read<seq<nat>>
    requires compress < 16 && |scfsi| == 4 && |prev| == BANDS && b <= 4
    decreases 4 - b
  {
    if b == 4 then Done([], s)
    else
      var (vs, s1) :- ReadGroup(compress, gr, scfsi, prev, b, s);
      var (rest, s2) :- ReadScalefacs(compress, gr, scfsi, prev, b + 1, s1);
      Done(vs + rest, s2)
  }

  /** What a decoder must have for groups b .. 3: received where sent, copied elsewhere. */
  function Merged(g: Granule, gr: nat, scfsi: seq<bool>, prev: seq<nat>, b: nat): (sf: seq<nat>)
    requires g.compress < 16 && |g.scalefac| == BANDS && |scfsi| == 4 && |prev| == BANDS && b <= 4
    ensures |sf| == BANDS - GroupStart(b)
    decreases 4 - b
  {
    if b == 4 then []
    else
      (if Sent(gr, scfsi, b) then Received(g) else prev)[GroupStart(b)..GroupStart(b + 1)]
      + Merged(g, gr, scfsi, prev, b + 1)
  }

  lemma {:induction false} ZeroFields(vs: seq<nat>, rest: seq<bool>)
    ensures ReadFields(0, |vs|, FieldsCode(vs, 0) + rest) == Done(seq(|vs|, _ => 0), rest)
  {
    if vs == [] {
      assert FieldsCode(vs, 0) + rest == rest;
    } else {
      ZeroFields(vs[1..], rest);
      var s := FieldsCode(vs, 0) + rest;
      assert s == FieldsCode(vs[1..], 0) + rest;
      assert s[..0] == [] && s[0..] == s;
      assert [0] + seq(|vs[1..]|, _ => 0) == seq(|vs|, _ => 0);
    }
  }

  lemma GroupRoundTrip(g: Granule, gr: nat, scfsi: seq<bool>, prev: seq<nat>, b: nat, rest: seq<bool>)
    requires g.compress < 16 && |g.scalefac| == BANDS && |scfsi| == 4 && |prev| == BANDS && b < 4
    requires Representable(g.compress, g.scalefac)
    ensures ReadGroup(g.compress, gr, scfsi, prev, b, GroupCode(g, gr, scfsi, b) + rest)
            == Done((if Sent(gr, scfsi, b) then Received(g) else prev)[GroupStart(b)..GroupStart(b + 1)], rest)
  {
    hide Representable, Received, Slen;
    var i, j := GroupStart(b), GroupStart(b + 1);
    var vs := g.scalefac[i..j];
    var n := Slen(g.compress, b);
    ReceivedGroup(g, b);
    if !Sent(gr, scfsi, b) {
      assert [] + rest == rest;
    } else if n == 0 {
      ZeroFields(vs, rest);
    } else {
      FieldsRoundTrip(vs, n, rest);
    }
  }

  /** A group of width 0 is received as zeros, any other as it is. */
  lemma ReceivedGroup(g: Granule, b: nat)
    requires g.compress < 16 && |g.scalefac| == BANDS && b < 4 && Representable(g.compress, g.scalefac)
    ensures var i, j, n := GroupStart(b), GroupStart(b + 1), Slen(g.compress, b);
            if n == 0 then Received(g)[i..j] == seq(j - i, _ => 0)
            else Received(g)[i..j] == g.scalefac[i..j] && forall k :: 0 <= k < j - i ==> g.scalefac[i..j][k] < Pow2(n)
  {
    hide Pow2;
    var i, j, n := GroupStart(b), GroupStart(b + 1), Slen(g.compress, b);
    forall k | i <= k < j
      ensures Received(g)[k] == if n == 0 then 0 else g.scalefac[k]
      ensures n > 0 ==> g.scalefac[k] < Pow2(n)
    {
    }
    hide Received, Slen, GroupStart, Representable;
    var got, sent := Received(g)[i..j], g.scalefac[i..j];
    assert forall k :: 0 <= k < j - i ==> got[k] == Received(g)[i + k] && sent[k] == g.scalefac[i + k];
    if n == 0 { assert got == seq(j - i, _ => 0); } else { assert got == sent; }
  }

  lemma {:induction false} ScalefacRoundTrip(g: Granule, gr: nat, scfsi: seq<bool>, prev: seq<nat>, b: nat,
                                             rest: seq<bool>)
    requires g.compress < 16 && |g.scalefac| == BANDS && |scfsi| == 4 && |prev| == BANDS && b <= 4
    requires Representable(g.compress, g.scalefac)
    ensures ReadScalefacs(g.compress, gr, scfsi, prev, b, ScalefacCode(g, gr, scfsi, b) + rest)
            == Done(Merged(g, gr, scfsi, prev, b), rest)
    decreases 4 - b
  {
    hide GroupCode, ReadGroup, Representable, Received, Slen;
    var code := ScalefacCode(g, gr, scfsi, b);
    if b == 4 {
      assert code + rest == rest;
    } else {
      var tail := ScalefacCode(g, gr, scfsi, b + 1) + rest;
      ScalefacRoundTrip(g, gr, scfsi, prev, b + 1, rest);
      GroupRoundTrip(g, gr, scfsi, prev, b, tail);
      assert code + rest == GroupCode(g, gr, scfsi, b) + tail;
    }
  }

  /** With nothing shared the decoder has exactly the received scalefactors. */
  lemma AllSent(g: Granule, gr: nat, scfsi: seq<bool>, prev: seq<nat>)
    requires g.compress < 16 && |g.scalefac| == BANDS && |scfsi| == 4 && |prev| == BANDS
    requires forall b :: 0 <= b < 4 ==> Sent(gr, scfsi, b)
    ensures Merged(g, gr, scfsi, prev, 0) == Received(g)
  {
    hide Received;
    var r := Received(g);
    assert Merged(g, gr, scfsi, prev, 3) == r[16..21];
    assert Merged(g, gr, scfsi, prev, 2) == r[11..21];
    assert Merged(g, gr, scfsi, prev, 1) == r[6..21];
    assert Merged(g, gr, scfsi, prev, 0) == r[0..21];
  }

  function MaxOf(v: seq<nat>): nat
  {
    if v == [] then 0 else var m := MaxOf(v[..|v| - 1]); if v[|v| - 1] > m then v[|v| - 1] else m
  }

  lemma {:induction false} MaxOfBounds(v: seq<nat>, k: nat)
    requires k < |v|
    ensures v[k] <= MaxOf(v)
  {
    if k < |v| - 1 {
      MaxOfBounds(v[..|v| - 1], k);
    }
  }

  /** Largest value a field of n bits holds; a missing field holds only 0. */
  function FieldMax(n: nat): nat { if n > 0 then Pow2(n) - 1 else 0 }

  /** Compress value c has room for the scalefactor maxima of the two halves. */
  predicate Holds(c: nat, max1: nat, max2: nat)
    requires c < 16
  {
    max1 <= FieldMax(SLEN1[c]) && max2 <= FieldMax(SLEN2[c])
  }

  function CompressCost(c: nat): nat
    requires c < 16
  {
    11 * SLEN1[c] + 10 * SLEN2[c]
  }

  /** The cost compared is what the scalefactors of granule 0 take. */
  lemma CostIsLength(c: nat, scfsi: seq<bool>)
    requires c < 16 && |scfsi| == 4
    ensures CompressCost(c) == Part2Length(c, 0, scfsi, 0)
  {
    var n, m := SLEN1[c], SLEN2[c];
    hide SLEN1, SLEN2;
    assert Part2Length(c, 0, scfsi, 3) == 5 * m;
    assert Part2Length(c, 0, scfsi, 2) == 10 * m;
    assert Part2Length(c, 0, scfsi, 1) == 5 * n + 10 * m;
  }

  /**
   * The cheapest compress value that holds the scalefactors. One exists exactly when the low bands need
   * at most 4 bits and the high bands at most 3; otherwise it is 0 and nothing will be written.
   */
  ghost predicate CheapestFor(best: nat, max1: nat, max2: nat)
    requires best < 16
  {
    if max1 <= 15 && max2 <= 7 then
      Holds(best, max1, max2)
      && forall c :: 0 <= c < 16 && Holds(c, max1, max2) ==> CompressCost(best) <= CompressCost(c)
    else
      best == 0 && forall c :: 0 <= c < 16 ==> !Holds(c, max1, max2)
  }

  ghost predicate Cheapest(best: nat, scalefac: seq<nat>)
    requires best < 16 && |scalefac| == BANDS
  {
    CheapestFor(best, MaxOf(scalefac[..11]), MaxOf(scalefac[11..]))
  }

  /** mp3enc_best_scalefac_compress. */
  method BestCompress(scalefac: seq<nat>) returns (best: nat)
    requires |scalefac| == BANDS
    ensures best < 16 && Cheapest(best, scalefac)
  {
    var max1: nat, max2: nat := 0, 0;
    for b := 0 to 11
      invariant max1 == MaxOf(scalefac[..b])
    {
      assert scalefac[..b + 1][..b] == scalefac[..b];
      if scalefac[b] > max1 {
        max1 := scalefac[b];
      }
    }
    for b := 11 to BANDS
      invariant max2 == MaxOf(scalefac[11..b])
    {
      assert scalefac[11..b + 1][..b - 11] == scalefac[11..b];
      if scalefac[b] > max2 {
        max2 := scalefac[b];
      }
    }
    assert scalefac[11..BANDS] == scalefac[11..];
    best := 0;
    var bestBits := 999;
    for c := 0 to 16
      invariant best < 16
      invariant bestBits == 999 ==> best == 0 && forall k :: 0 <= k < c ==> !Holds(k, max1, max2)
      invariant bestBits < 999 ==> Holds(best, max1, max2) && bestBits == CompressCost(best)
      invariant bestBits <= 999 && forall k :: 0 <= k < c && Holds(k, max1, max2) ==> bestBits <= CompressCost(k)
    {
      CostBelow(c);
      if Holds(c, max1, max2) && CompressCost(c) < bestBits {
        bestBits, best := CompressCost(c), c;
      }
    }
    WhenHeld(max1, max2);
  }

  lemma CostBelow(c: nat)
    requires c < 16
    ensures CompressCost(c) < 999
  {
  }

  lemma WhenHeld(m1: nat, m2: nat)
    ensures (exists c :: 0 <= c < 16 && Holds(c, m1, m2)) <==> m1 <= 15 && m2 <= 7
  {
    assert Pow2(1) == 2 && Pow2(2) == 4 && Pow2(3) == 8 && Pow2(4) == 16;
    if m1 <= 15 && m2 <= 7 {
      assert Holds(15, m1, m2);
    }
  }

  /** What BestCompress promises is what the scalefactor writer needs. */
  lemma BestIsRepresentable(scalefac: seq<nat>, c: nat)
    requires |scalefac| == BANDS && c < 16
    requires c == 0 || Holds(c, MaxOf(scalefac[..11]), MaxOf(scalefac[11..]))
    ensures Representable(c, scalefac)
  {
    forall k | 0 <= k < 11 ensures scalefac[k] <= MaxOf(scalefac[..11]) { MaxOfBounds(scalefac[..11], k); }
    forall k | 11 <= k < 21 ensures scalefac[k] <= MaxOf(scalefac[11..]) { MaxOfBounds(scalefac[11..], k - 11); }
  }

  /** The granule's fields are consistent with each other and with its spectrum. */
  ghost predicate Sound(g: Granule, ix: seq<int>, sfb: seq<nat>, gr: nat, scfsi: seq<bool>)
  {
    && |scfsi| == 4 && g.compress < 16 && |g.scalefac| == BANDS && g.globalGain < 256
    && Representable(g.compress, g.scalefac)
    && Describes(g.layout, ix, sfb)
    && g.part23 == Part2Length(g.compress, gr, scfsi, 0) + SpectrumBits(g.layout, ix, sfb)
  }

  /** The main data of a granule. */
  ghost function GranuleCode(g: Granule, ix: seq<int>, sfb: seq<nat>, gr: nat, scfsi: seq<bool>): (c: seq<bool>)
    requires Sound(g, ix, sfb, gr, scfsi)
    ensures |c| == g.part23
  {
    ScalefacSize(g, gr, scfsi, 0);
    SpectrumSize(g.layout, ix, sfb);
    ScalefacCode(g, gr, scfsi, 0) + SpectrumCode(g.layout, ix, sfb)
  }

  /** Read a granule's main data given its side information h, whose scalefactors are ignored. */
  ghost function ReadGranule(h: Granule, sfb: seq<nat>, gr: nat, scfsi: seq<bool>, prev: seq<nat>, s: seq<bool>)
    : Read<(Granule, seq<int>)>
    requires h.compress < 16 && h.layout.InRange() && |sfb| == 23 && |scfsi| == 4 && |prev| == BANDS
  {
    if |s| < h.part23 then Fail
    else
      var (sf, s1) :- ReadScalefacs(h.compress, gr, scfsi, prev, 0, s[..h.part23]);
      var (ix, s2) :- DecodeSpectrum(h.layout, sfb, s1);
      Done((h.(scalefac := sf), ix), s[h.part23..])
  }

  /** The side information of a granule. */
  function SideOf(g: Granule): Granule { g.(scalefac := []) }

  /** The decoder gets back the spectrum, every side field and the scalefactors it was sent. */
  lemma GranuleRoundTrip(g: Granule, ix: seq<int>, sfb: seq<nat>, gr: nat, scfsi: seq<bool>, prev: seq<nat>,
                         rest: seq<bool>)
    requires Sound(g, ix, sfb, gr, scfsi) && |prev| == BANDS
    ensures ReadGranule(SideOf(g), sfb, gr, scfsi, prev, GranuleCode(g, ix, sfb, gr, scfsi) + rest)
            == Done((g.(scalefac := Merged(g, gr, scfsi, prev, 0)), ix), rest)
  {
    hide ScalefacCode, SpectrumCode, ReadScalefacs, DecodeSpectrum, Merged, Representable, Part2Length,
         SpectrumBits, Describes;
    var code := GranuleCode(g, ix, sfb, gr, scfsi);
    assert (code + rest)[..g.part23] == code && (code + rest)[g.part23..] == rest;
    ScalefacRoundTrip(g, gr, scfsi, prev, 0, SpectrumCode(g.layout, ix, sfb));
    SpectrumRoundTrip(g.layout, ix, sfb);
  }

  method WriteGroup(bs: Bitstream, g: Granule, gr: nat, scfsi: seq<bool>, b: nat) returns (bits: nat)
    requires g.compress < 16 && |g.scalefac| == BANDS && |scfsi| == 4 && b < 4
    requires bs.Valid() && bs.TotalBits() + |GroupCode(g, gr, scfsi, b)| <= 8 * bs.buf.Length
    modifies bs, bs.buf
    ensures bs.Valid() && bs.Written() == old(bs.Written()) + GroupCode(g, gr, scfsi, b)
    ensures bits == |GroupCode(g, gr, scfsi, b)|
  {
    hide FieldsCode;
    bits := 0;
    if Sent(gr, scfsi, b) {
      WriteFields(bs, g.scalefac[GroupStart(b)..GroupStart(b + 1)], Slen(g.compress, b));
      bits := (GroupStart(b + 1) - GroupStart(b)) * Slen(g.compress, b);
    }
  }

  method WriteScalefactors(bs: Bitstream, g: Granule, gr: nat, scfsi: seq<bool>) returns (bits: nat)
    requires bs.Valid() && g.compress < 16 && |g.scalefac| == BANDS && |scfsi| == 4
    requires bs.TotalBits() + Part2Length(g.compress, gr, scfsi, 0) <= 8 * bs.buf.Length
    modifies bs, bs.buf
    ensures bs.Valid() && bs.Written() == old(bs.Written()) + ScalefacCode(g, gr, scfsi, 0)
    ensures bits == Part2Length(g.compress, gr, scfsi, 0)
  {
    hide GroupCode, Part2Length;
    bits := 0;
    ghost var w0, code := bs.Written(), ScalefacCode(g, gr, scfsi, 0);
    ScalefacSize(g, gr, scfsi, 0);
    for b := 0 to 4
      invariant bs.Valid()
      invariant bs.Written() + ScalefacCode(g, gr, scfsi, b) == w0 + code
      invariant bits + |ScalefacCode(g, gr, scfsi, b)| == |code|
    {
      ghost var w, tail := bs.Written(), ScalefacCode(g, gr, scfsi, b + 1);
      assert |w| + |ScalefacCode(g, gr, scfsi, b)| == |w0| + |code|;
      var n := WriteGroup(bs, g, gr, scfsi, b);
      bits := bits + n;
      assert bs.Written() + tail == w + (GroupCode(g, gr, scfsi, b) + tail);
    }
    assert bs.Written() + [] == bs.Written();
  }

  method WriteFields(bs: Bitstream, vs: seq<nat>, n: nat)
    requires bs.Valid() && bs.TotalBits() + |vs| * n <= 8 * bs.buf.Length
    modifies bs, bs.buf
    ensures bs.Valid() && bs.Written() == old(bs.Written()) + FieldsCode(vs, n)
  {
    hide BitsOf;
    ghost var w0 := bs.Written();
    for k := 0 to |vs|
      invariant bs.Valid()
      invariant bs.Written() + FieldsCode(vs[k..], n) == w0 + FieldsCode(vs, n)
    {
      ghost var w := bs.Written();
      assert vs[k..][1..] == vs[k + 1..];
      assert |bs.Written()| + |FieldsCode(vs[k..], n)| == |w0| + |FieldsCode(vs, n)|;
      bs.Put(vs[k], n);
      assert bs.Written() + FieldsCode(vs[k + 1..], n) == w + (BitsOf(vs[k], n) + FieldsCode(vs[k + 1..], n));
    }
    assert bs.Written() + [] == bs.Written();
  }

  method WriteRegion(bs: Bitstream, t: nat, ix: seq<int>, start: nat, end: nat)
    requires start <= end <= |ix| && (end - start) % 2 == 0 && AllCodable(t, ix[start..end])
    requires bs.Valid() && bs.TotalBits() + RegionBits(t, ix[start..end]) <= 8 * bs.buf.Length
    modifies bs, bs.buf
    ensures bs.Valid() && bs.Written() == old(bs.Written()) + RegionCode(t, ix[start..end])
  {
    hide Codable, PairCode, PairBits;
    ghost var w0, v := bs.Written(), ix[start..end];
    var pairs := (end - start) / 2;
    for p := 0 to pairs
      invariant bs.Valid() && AllCodable(t, v[2 * p..])
      invariant bs.Written() + RegionCode(t, v[2 * p..]) == w0 + RegionCode(t, v)
      invariant bs.TotalBits() + RegionBits(t, v[2 * p..]) <= 8 * bs.buf.Length
    {
      var i := start + p * 2;
      ghost var w := bs.Written();
      assert v[2 * p..][0] == ix[i] && v[2 * p..][1] == ix[i + 1];
      assert v[2 * p..][2..] == v[2 * (p + 1)..];
      PairSize(t, ix[i], ix[i + 1]);
      WritePair(bs, t, ix[i], ix[i + 1]);
      assert bs.Written() + RegionCode(t, v[2 * (p + 1)..])
             == w + (PairCode(t, ix[i], ix[i + 1]) + RegionCode(t, v[2 * (p + 1)..]));
    }
    assert bs.Written() + [] == bs.Written();
  }

  method WriteCount1(bs: Bitstream, ix: seq<int>, start: nat, count: nat, sel: nat)
    requires start + 4 * count <= |ix| && sel < 2 && Small(ix[start..start + 4 * count])
    requires bs.Valid()
    requires bs.TotalBits() + QuadsBits(sel, ix[start..start + 4 * count]) <= 8 * bs.buf.Length
    modifies bs, bs.buf
    ensures bs.Valid() && bs.Written() == old(bs.Written()) + QuadsCode(sel, ix[start..start + 4 * count])
  {
    hide QuadCode, QuadBits, QuadsCode, QuadsBits;
    ghost var w0, v := bs.Written(), ix[start..start + 4 * count];
    QuadsSize(sel, v);
    assert v[0..] == v;
    for q := 0 to count
      invariant bs.Valid()
      invariant bs.Written() + QuadsCode(sel, v[4 * q..]) == w0 + QuadsCode(sel, v)
    {
      var i := start + q * 4;
      ghost var w, tail := bs.Written(), QuadsCode(sel, v[4 * (q + 1)..]);
      NextQuad(sel, v, 4 * q);
      SliceSlice(ix, start, start + 4 * count, 4 * q, 4 * q + 4);
      SmallSlice(v, 4 * q, 4 * q + 4);
      assert |w| + |QuadsCode(sel, v[4 * q..])| == |w0| + |QuadsCode(sel, v)|;
      QuadSize(sel, ix[i..i + 4]);
      WriteQuad(bs, ix[i..i + 4], sel);
      assert bs.Written() + tail == w + (QuadCode(sel, ix[i..i + 4]) + tail);
    }
    NoQuads(sel);
    assert bs.Written() + [] == bs.Written();
  }

  lemma SmallSlice(v: seq<int>, a: nat, b: nat)
    requires a <= b <= |v| && Small(v)
    ensures Small(v[a..b])
  {
  }

  lemma NextQuad(sel: nat, v: seq<int>, i: nat)
    requires sel < 2 && Small(v) && i + 4 <= |v|
    ensures QuadsCode(sel, v[i..]) == QuadCode(sel, v[i..i + 4]) + QuadsCode(sel, v[i + 4..])
  {
    hide QuadCode;
    assert v[i..][..4] == v[i..i + 4] && v[i..][4..] == v[i + 4..];
  }

  lemma NoQuads(sel: nat)
    requires sel < 2
    ensures QuadsCode(sel, []) == []
  {
  }

  method WriteQuad(bs: Bitstream, q: seq<int>, sel: nat)
    requires |q| == 4 && sel < 2 && Small(q)
    requires bs.Valid() && bs.TotalBits() + QuadBits(sel, q) <= 8 * bs.buf.Length
    modifies bs, bs.buf
    ensures bs.Valid() && bs.Written() == old(bs.Written()) + QuadCode(sel, q)
  {
    hide Word, WordLen, SignsCode;
    ghost var w0 := bs.Written();
    QuadSize(sel, q);
    WriteWord(bs, 32 + sel, QuadIndex(q), 0);
    WriteSigns(bs, q);
    assert bs.Written() == w0 + QuadCode(sel, q);
  }

  method WriteSigns(bs: Bitstream, v: seq<int>)
    requires bs.Valid() && bs.TotalBits() + |SignsCode(v)| <= 8 * bs.buf.Length
    modifies bs, bs.buf
    ensures bs.Valid() && bs.Written() == old(bs.Written()) + SignsCode(v)
  {
    ghost var w0 := bs.Written();
    for k := 0 to |v|
      invariant bs.Valid()
      invariant bs.Written() + SignsCode(v[k..]) == w0 + SignsCode(v)
    {
      ghost var w, tail := bs.Written(), SignsCode(v[k + 1..]);
      assert |w| + |SignsCode(v[k..])| == |w0| + |SignsCode(v)|;
      assert v[k..][1..] == v[k + 1..];
      if v[k] != 0 {
        bs.PutBit(v[k] < 0);
      }
      assert bs.Written() + tail == w + (SignCode(v[k]) + tail);
    }
    assert bs.Written() + [] == bs.Written();
  }

  /** The Huffman part of a granule, region ends recomputed from the side information. */
  method WriteSpectrum(bs: Bitstream, l: Layout, ix: seq<int>, sfb: seq<nat>)
    requires Describes(l, ix, sfb)
    requires bs.Valid() && bs.TotalBits() + SpectrumBits(l, ix, sfb) <= 8 * bs.buf.Length
    modifies bs, bs.buf
    ensures bs.Valid() && bs.Written() == old(bs.Written()) + SpectrumCode(l, ix, sfb)
  {
    hide RegionCode, RegionBits, QuadsCode, QuadsBits, AllCodable, Small;
    var bv := 2 * l.bigValues;
    var acc0 := Count.SumBands(sfb, l.region0 + 1);
    var acc1 := Count.SumBands(sfb, l.region0 + l.region1 + 2);
    l.EndsEven(sfb);
    var e0, e1 := Min(acc0, bv), Min(acc1, bv);
    assert e0 == l.End0(sfb) && e1 == l.End1(sfb);
    var rzero := Count.CountRzero(ix);
    var nzEnd := LINES - rzero * 2;
    assert ix[0..e0] == ix[..e0];
    WriteParts(bs, l, ix, e0, e1, bv, nzEnd);
  }

  lemma InOrder(w: seq<bool>, a: seq<bool>, b: seq<bool>, c: seq<bool>, d: seq<bool>)
    ensures w + a + b + c + d == w + (a + b + c + d)
  {
  }

  method WriteParts(bs: Bitstream, l: Layout, ix: seq<int>, e0: nat, e1: nat, bv: nat, nzEnd: nat)
    requires e0 <= e1 <= bv <= nzEnd <= |ix|
    requires e0 % 2 == e1 % 2 == bv % 2 == 0 && (nzEnd - bv) % 4 == 0
    requires AllCodable(l.table0, ix[0..e0]) && AllCodable(l.table1, ix[e0..e1]) && AllCodable(l.table2, ix[e1..bv])
    requires Small(ix[bv..nzEnd]) && l.count1 < 2
    requires bs.Valid()
    requires bs.TotalBits() + RegionBits(l.table0, ix[0..e0]) + RegionBits(l.table1, ix[e0..e1])
             + RegionBits(l.table2, ix[e1..bv]) + QuadsBits(l.count1, ix[bv..nzEnd]) <= 8 * bs.buf.Length
    modifies bs, bs.buf
    ensures bs.Valid()
    ensures bs.Written() == old(bs.Written())
                            + (RegionCode(l.table0, ix[0..e0]) + RegionCode(l.table1, ix[e0..e1])
                               + RegionCode(l.table2, ix[e1..bv]) + QuadsCode(l.count1, ix[bv..nzEnd]))
  {
    hide RegionCode, RegionBits, QuadsCode, QuadsBits, AllCodable, Small;
    ghost var w0 := bs.Written();
    RegionSize(l.table0, ix[0..e0]);
    RegionSize(l.table1, ix[e0..e1]);
    RegionSize(l.table2, ix[e1..bv]);
    WriteRegion(bs, l.table0, ix, 0, e0);
    WriteRegion(bs, l.table1, ix, e0, e1);
    WriteRegion(bs, l.table2, ix, e1, bv);
    WriteCount1(bs, ix, bv, (nzEnd - bv) / 4, l.count1);
    InOrder(w0, RegionCode(l.table0, ix[0..e0]), RegionCode(l.table1, ix[e0..e1]), RegionCode(l.table2, ix[e1..bv]),
            QuadsCode(l.count1, ix[bv..nzEnd]));
  }

  /** Everything the frame writer emits for one granule of one channel. */
  method WriteGranule(bs: Bitstream, g: Granule, ix: seq<int>, sfb: seq<nat>, gr: nat, scfsi: seq<bool>)
    requires Sound(g, ix, sfb, gr, scfsi)
    requires bs.Valid() && bs.TotalBits() + g.part23 <= 8 * bs.buf.Length
    modifies bs, bs.buf
    ensures bs.Valid() && bs.Written() == old(bs.Written()) + GranuleCode(g, ix, sfb, gr, scfsi)
  {
    hide ScalefacCode, SpectrumCode, Part2Length, SpectrumBits, Describes, Representable;
    ghost var w0 := bs.Written();
    ScalefacSize(g, gr, scfsi, 0);
    var bits := WriteScalefactors(bs, g, gr, scfsi);
    WriteSpectrum(bs, g.layout, ix, sfb);
    assert bs.Written() == w0 + GranuleCode(g, ix, sfb, gr, scfsi);
  }
}
