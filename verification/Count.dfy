/**
 * Region layout and bit counting: mp3enc_count_rzero and mp3enc_choose_table of mp3/mp3enc-huff.h and
 * mp3enc_count_bits of mp3/mp3enc-quant.h.
 */
module Count {
  import opened Bits
  import opened Huff
  import opened Spectrum

  function MaxAbs(v: seq<int>): nat
  {
    if v == [] then 0 else Max(MaxAbs(v[..|v| - 1]), Abs(v[|v| - 1]))
  }

  function Max(a: nat, b: nat): nat { if a > b then a else b }

  lemma {:induction false} MaxAbsBounds(v: seq<int>, k: nat)
    requires k < |v|
    ensures Abs(v[k]) <= MaxAbs(v)
  {
    if k < |v| - 1 {
      MaxAbsBounds(v[..|v| - 1], k);
    }
  }

  lemma {:induction false} MaxAbsWithin(v: seq<int>, m: nat)
    requires forall k :: 0 <= k < |v| ==> Abs(v[k]) <= m
    ensures MaxAbs(v) <= m
  {
    if v != [] {
      MaxAbsWithin(v[..|v| - 1], m);
    }
  }

  /** Candidate tables for a region whose largest magnitude is m > 0. */
  function Candidates(m: nat): (c: seq<nat>)
    ensures |c| > 0 && forall t :: t in c ==> PairTable(t)
  {
    if m <= 1 then [1]
    else if m <= 2 then [2, 3]
    else if m <= 3 then [5, 6]
    else if m <= 5 then [7, 8, 9]
    else if m <= 7 then [10, 11, 12]
    else if m <= 15 then [13, 15]
    else [16, 17, 18, 19, 20, 21, 22, 23, 24, 25, 26, 27, 28, 29, 30, 31]
  }

  /** A linbits table whose escape is too short for magnitude m is passed over. */
  predicate TooShort(t: nat, m: nat)
    requires PairTable(t)
  {
    m > 15 && Linbits(t) > 0 && m > 15 + Pow2(Linbits(t)) - 1
  }

  lemma CandidateCodes(t: nat, v: seq<int>)
    requires MaxAbs(v) > 0 && t in Candidates(MaxAbs(v)) && !TooShort(t, MaxAbs(v))
    ensures AllCodable(t, v)
  {
    var m := MaxAbs(v);
    forall k | 0 <= k < |v|
      ensures Codable(t, v[k])
    {
      MaxAbsBounds(v, k);
    }
  }

  /** Leading value of the search for the smallest size; no region reaches it. */
  const TOO_MANY: nat := 999999

  /** The first candidate of least size, starting from the best seen so far. */
  function Pick(cands: seq<nat>, v: seq<int>, best: nat, bits: nat): nat
    requires MaxAbs(v) > 0 && forall t :: t in cands ==> t in Candidates(MaxAbs(v))
  {
    if cands == [] then best
    else
      assert cands[0] in Candidates(MaxAbs(v));
      if TooShort(cands[0], MaxAbs(v)) then Pick(cands[1..], v, best, bits)
    else
      CandidateCodes(cands[0], v);
      var b := RegionBits(cands[0], v);
      if b < bits then Pick(cands[1..], v, cands[0], b) else Pick(cands[1..], v, best, bits)
  }

  /** mp3enc_choose_table for the pairs of v. */
  function RegionTable(v: seq<int>): nat
  {
    var m := MaxAbs(v);
    if m == 0 then 0 else Pick(Candidates(m), v, Candidates(m)[0], TOO_MANY)
  }

  /** A table the choice may end with. */
  ghost predicate Usable(t: nat, v: seq<int>)
  {
    MaxAbs(v) > 0 && t in Candidates(MaxAbs(v)) && !TooShort(t, MaxAbs(v))
  }

  lemma {:induction false} PickIsLeast(cands: seq<nat>, v: seq<int>, best: nat, bits: nat)
    requires MaxAbs(v) > 0 && forall t :: t in cands ==> t in Candidates(MaxAbs(v))
    requires forall t: nat | Usable(t, v) :: AllCodable(t, v) && RegionBits(t, v) < TOO_MANY
    requires bits == TOO_MANY || (Usable(best, v) && bits == RegionBits(best, v))
    requires bits < TOO_MANY || exists t: nat :: t in cands && Usable(t, v)
    ensures var r := Pick(cands, v, best, bits);
            && Usable(r, v)
            && RegionBits(r, v) <= bits
            && forall t: nat | t in cands && Usable(t, v) :: RegionBits(r, v) <= RegionBits(t, v)
    decreases |cands|
  {
    hide RegionBits, TooShort, Candidates, AllCodable, MaxAbs;
    if cands != [] {
      var t := cands[0];
      assert forall u :: u in cands <==> u == t || u in cands[1..];
      if TooShort(t, MaxAbs(v)) || RegionBits(t, v) >= bits {
        PickIsLeast(cands[1..], v, best, bits);
      } else {
        PickIsLeast(cands[1..], v, t, RegionBits(t, v));
      }
    }
  }

  lemma {:induction false} RegionBitsBound(t: int, v: seq<int>)
    requires AllCodable(t, v)
    ensures RegionBits(t, v) <= 150 * |v|
  {
    hide PairBits, Codable;
    if |v| >= 2 {
      PairBitsBound(t, v[0], v[1]);
      RegionBitsBound(t, v[2..]);
    }
  }

  /** Largest magnitude the quantizer produces. */
  const MAX_LEVEL: nat := 8191

  ghost predicate Quantized(v: seq<int>)
  {
    forall k :: 0 <= k < |v| ==> Abs(v[k]) <= MAX_LEVEL
  }

  lemma UsableSizes(v: seq<int>)
    requires |v| <= LINES
    ensures forall t: nat | Usable(t, v) :: AllCodable(t, v) && RegionBits(t, v) < TOO_MANY
  {
    hide RegionBits, Candidates, AllCodable, MaxAbs, TooShort;
    forall t: nat | Usable(t, v)
      ensures AllCodable(t, v) && RegionBits(t, v) < TOO_MANY
    {
      CandidateCodes(t, v);
      RegionBitsBound(t, v);
    }
  }

  lemma NoMagnitude(v: seq<int>)
    requires MaxAbs(v) == 0
    ensures AllCodable(0, v)
  {
    forall k | 0 <= k < |v| ensures v[k] == 0 { MaxAbsBounds(v, k); }
  }

  /** The chosen table codes the whole region, in no more bits than any other usable candidate. */
  lemma RegionTableBest(v: seq<int>)
    requires |v| <= LINES && Quantized(v)
    ensures AllCodable(RegionTable(v), v)
    ensures RegionTable(v) == 0 || Usable(RegionTable(v), v)
    ensures forall t: nat | Usable(t, v) :: AllCodable(t, v) && RegionBits(RegionTable(v), v) <= RegionBits(t, v)
  {
    hide RegionBits, Candidates, AllCodable, MaxAbs, TooShort, Pick;
    UsableSizes(v);
    var m := MaxAbs(v);
    if m == 0 {
      NoMagnitude(v);
    } else {
      SomeUsable(v);
      PickIsLeast(Candidates(m), v, Candidates(m)[0], TOO_MANY);
    }
  }

  lemma SomeUsable(v: seq<int>)
    requires Quantized(v) && MaxAbs(v) > 0
    ensures exists t: nat :: t in Candidates(MaxAbs(v)) && Usable(t, v)
  {
    var m := MaxAbs(v);
    MaxAbsWithin(v, MAX_LEVEL);
    var t := if m > 15 then 31 else Candidates(m)[0];
    assert t in Candidates(m) by {
      if m > 15 { assert Candidates(m)[15] == 31; }
    }
    assert Pow2(13) == 8192 by { assert Pow2(7) == 128; }
    assert Linbits(31) == 13;
  }

  method ChooseTable(ix: seq<int>, start: nat, count: nat) returns (best: nat)
    requires start + 2 * count <= |ix| <= LINES && Quantized(ix)
    ensures best == RegionTable(ix[start..start + 2 * count])
  {
    hide RegionBits, Candidates, AllCodable, TooShort, PairBits;
    ghost var v := ix[start..start + 2 * count];
    if count == 0 {
      assert MaxAbs(v) == 0;
      return 0;
    }
    var maxval := 0;
    for i := start to start + 2 * count
      invariant maxval == MaxAbs(ix[start..i])
    {
      assert ix[start..i + 1][..i - start] == ix[start..i];
      maxval := Max(maxval, Abs(ix[i]));
    }
    assert ix[start..start + 2 * count] == v;
    if maxval == 0 {
      return 0;
    }
    UsableSizes(v);
    var cands := Candidates(maxval);
    best := cands[0];
    var bestBits := TOO_MANY;
    for c := 0 to |cands|
      invariant forall t :: t in cands[c..] ==> t in Candidates(MaxAbs(v))
      invariant RegionTable(v) == Pick(cands[c..], v, best, bestBits)
    {
      var t := cands[c];
      assert t in cands[c..];
      assert cands[c..][1..] == cands[c + 1..];
      if !TooShort(t, maxval) {
        CandidateCodes(t, v);
        var total := RegionSum(t, ix, start, count);
        if total < bestBits {
          best, bestBits := t, total;
        }
      }
    }
    assert cands[|cands|..] == [];
  }

  method RegionSum(t: nat, ix: seq<int>, start: nat, count: nat) returns (total: nat)
    requires start + 2 * count <= |ix| && AllCodable(t, ix[start..start + 2 * count])
    ensures total == RegionBits(t, ix[start..start + 2 * count])
  {
    hide PairBits, Codable;
    total := 0;
    ghost var v := ix[start..start + 2 * count];
    for p := 0 to count
      invariant AllCodable(t, v[2 * p..])
      invariant total + RegionBits(t, v[2 * p..]) == RegionBits(t, v)
    {
      var i := start + p * 2;
      assert v[2 * p..][0] == ix[i] && v[2 * p..][1] == ix[i + 1];
      assert v[2 * p..][2..] == v[2 * (p + 1)..];
      total := total + PairBits(t, ix[i], ix[i + 1]);
    }
  }

  /** mp3enc_count_rzero: trailing pairs of zeros. */
  method CountRzero(ix: seq<int>) returns (pairs: nat)
    requires |ix| == LINES
    ensures LINES - 2 * pairs == NonzeroEnd(ix, LINES)
  {
    var i: int := LINES - 2;
    while i >= 0 && ix[i] == 0 && ix[i + 1] == 0
      invariant -2 <= i <= LINES - 2 && i % 2 == 0
      invariant NonzeroEnd(ix, LINES) == NonzeroEnd(ix, i + 2)
      decreases i + 2
    {
      i := i - 2;
    }
    pairs := (LINES - i - 2) / 2;
  }

  /** Start of the quadruples of small values that end at line e. */
  function Count1Start(ix: seq<int>, e: nat): (r: nat)
    requires e <= |ix|
    ensures r <= e && (e - r) % 4 == 0 && Small(ix[r..e])
  {
    if e >= 4 && Small(ix[e - 4..e]) then
      assert forall r | 0 <= r <= e - 4 :: ix[r..e] == ix[r..e - 4] + ix[e - 4..e];
      Count1Start(ix, e - 4)
    else e
  }

  /** Bands that lie wholly inside the first bvEnd lines. */
  function WholeBands(sfb: seq<nat>, bvEnd: nat, n: nat): (t: nat)
    requires n <= |sfb|
    ensures t <= n
  {
    if n == 0 then 0 else if BandEnd(sfb, n) <= bvEnd then n else WholeBands(sfb, bvEnd, n - 1)
  }

  /** Size of a region under the table chosen for it. */
  function RegionCost(v: seq<int>): nat
    requires |v| <= LINES && Quantized(v)
  {
    RegionTableBest(v);
    RegionBits(RegionTable(v), v)
  }

  /** Size of the big_values lines when the regions end at e0 and e1. */
  function SplitCost(ix: seq<int>, e0: nat, e1: nat, bvEnd: nat): nat
    requires e0 <= e1 <= bvEnd <= |ix| <= LINES && Quantized(ix)
  {
    RegionCost(ix[..e0]) + RegionCost(ix[e0..e1]) + RegionCost(ix[e1..bvEnd])
  }

  /** region1_count tried with a region0_count. */
  function Region1(total: nat, r0: nat): (r1: nat)
    ensures r1 <= 7
  {
    if total < r0 + 1 then 0 else Min(total - r0 - 1, 7)
  }

  function CutAt(sfb: seq<nat>, n: nat, bvEnd: nat): nat
    requires n <= |sfb|
  {
    Min(BandEnd(sfb, n), bvEnd)
  }

  function TrySplit(ix: seq<int>, sfb: seq<nat>, bvEnd: nat, r0: nat, r1: nat): nat
    requires r0 + r1 + 2 <= |sfb| && bvEnd <= |ix| <= LINES && Quantized(ix)
  {
    BandEndGrows(sfb, r0 + 1, r0 + r1 + 2);
    SplitCost(ix, CutAt(sfb, r0 + 1, bvEnd), CutAt(sfb, r0 + r1 + 2, bvEnd), bvEnd)
  }

  /** The region counts with the smallest size among region0_count r0, r0 + 1, .. 10. */
  function BestSplit(ix: seq<int>, sfb: seq<nat>, bvEnd: nat, total: nat, r0: nat, best: (nat, nat),
                     bits: nat): (r: (nat, nat))
    requires bvEnd <= |ix| <= LINES && Quantized(ix) && |sfb| == 23
    requires best.0 <= 10 && best.1 <= 7
    ensures r.0 <= 10 && r.1 <= 7
    decreases 11 - r0
  {
    if r0 < 11 && r0 < total then
      var r1 := Region1(total, r0);
      var b := TrySplit(ix, sfb, bvEnd, r0, r1);
      if b < bits then BestSplit(ix, sfb, bvEnd, total, r0 + 1, (r0, r1), b)
      else BestSplit(ix, sfb, bvEnd, total, r0 + 1, best, bits)
    else best
  }

  /** mp3enc_count_bits: the layout chosen for a spectrum. */
  function CountLayout(ix: seq<int>, sfb: seq<nat>): Layout
    requires |ix| == LINES && Quantized(ix) && |sfb| == 23
  {
    var nzEnd := NonzeroEnd(ix, LINES);
    var bvEnd := Count1Start(ix, nzEnd);
    var r := BestSplit(ix, sfb, bvEnd, WholeBands(sfb, bvEnd, 22), 5, (7, 0), TOO_MANY);
    BandEndGrows(sfb, r.0 + 1, r.0 + r.1 + 2);
    var e0, e1 := CutAt(sfb, r.0 + 1, bvEnd), CutAt(sfb, r.0 + r.1 + 2, bvEnd);
    var quads := ix[bvEnd..nzEnd];
    Layout(bvEnd / 2, r.0, r.1, RegionTable(ix[..e0]), RegionTable(ix[e0..e1]), RegionTable(ix[e1..bvEnd]),
           if QuadsBits(0, quads) <= QuadsBits(1, quads) then 0 else 1)
  }

  lemma {:induction false} NonzeroEven(ix: seq<int>, e: nat)
    requires e <= |ix| && e % 2 == 0
    ensures NonzeroEnd(ix, e) % 2 == 0
  {
    if NonzeroEnd(ix, e) != e { NonzeroEven(ix, e - 2); }
  }

  lemma {:induction false} Count1Even(ix: seq<int>, e: nat)
    requires e <= |ix| && e % 2 == 0
    ensures Count1Start(ix, e) % 2 == 0
  {
    if Count1Start(ix, e) != e { Count1Even(ix, e - 4); }
  }

  lemma LinesEven(ix: seq<int>)
    requires |ix| == LINES
    ensures NonzeroEnd(ix, LINES) % 2 == 0
    ensures Count1Start(ix, NonzeroEnd(ix, LINES)) % 2 == 0
  {
    NonzeroEven(ix, LINES);
    Count1Even(ix, NonzeroEnd(ix, LINES));
  }

  lemma TableInRange(v: seq<int>)
    requires |v| <= LINES && Quantized(v)
    ensures RegionTable(v) == 0 || PairTable(RegionTable(v))
    ensures RegionTable(v) < 32
  {
    hide RegionBits, AllCodable, Pick, RegionTable;
    RegionTableBest(v);
  }

  /** The chosen layout is right for the spectrum it was chosen for. */
  lemma CountDescribes(ix: seq<int>, sfb: seq<nat>)
    requires |ix| == LINES && Quantized(ix) && BandTable(sfb)
    ensures Describes(CountLayout(ix, sfb), ix, sfb)
  {
    hide RegionBits, AllCodable, RegionTable, BestSplit, WholeBands, QuadsBits, Small;
    var l := CountLayout(ix, sfb);
    LinesEven(ix);
    var bvEnd := Count1Start(ix, NonzeroEnd(ix, LINES));
    var r := BestSplit(ix, sfb, bvEnd, WholeBands(sfb, bvEnd, 22), 5, (7, 0), TOO_MANY);
    BandEndGrows(sfb, r.0 + 1, r.0 + r.1 + 2);
    var e0, e1 := CutAt(sfb, r.0 + 1, bvEnd), CutAt(sfb, r.0 + r.1 + 2, bvEnd);
    TableInRange(ix[..e0]);
    TableInRange(ix[e0..e1]);
    TableInRange(ix[e1..bvEnd]);
    assert l.InRange();
    assert l.End0(sfb) == e0 && l.End1(sfb) == e1 && 2 * l.bigValues == bvEnd;
    RegionTableBest(ix[..e0]);
    RegionTableBest(ix[e0..e1]);
    RegionTableBest(ix[e1..bvEnd]);
  }

  /** No region split that was tried is smaller than the chosen one. */
  lemma {:induction false} BestSplitIsLeast(ix: seq<int>, sfb: seq<nat>, bvEnd: nat, total: nat, r0: nat,
                                            best: (nat, nat), bits: nat)
    requires bvEnd <= |ix| <= LINES && Quantized(ix) && |sfb| == 23
    requires best.0 <= 10 && best.1 <= 7
    requires bits == TOO_MANY || bits == TrySplit(ix, sfb, bvEnd, best.0, best.1)
    ensures var r := BestSplit(ix, sfb, bvEnd, total, r0, best, bits);
            && (bits < TOO_MANY ==> TrySplit(ix, sfb, bvEnd, r.0, r.1) <= bits)
            && forall k | r0 <= k < 11 && k < total ::
                 TrySplit(ix, sfb, bvEnd, r.0, r.1) <= TrySplit(ix, sfb, bvEnd, k, Region1(total, k))
    decreases 11 - r0
  {
    hide SplitCost, RegionCost;
    if r0 < 11 && r0 < total {
      var r1 := Region1(total, r0);
      var b := TrySplit(ix, sfb, bvEnd, r0, r1);
      SplitBound(ix, sfb, bvEnd, r0, r1);
      if b < bits {
        BestSplitIsLeast(ix, sfb, bvEnd, total, r0 + 1, (r0, r1), b);
      } else {
        BestSplitIsLeast(ix, sfb, bvEnd, total, r0 + 1, best, bits);
      }
    }
  }

  lemma SplitBound(ix: seq<int>, sfb: seq<nat>, bvEnd: nat, r0: nat, r1: nat)
    requires r0 + r1 + 2 <= |sfb| && bvEnd <= |ix| <= LINES && Quantized(ix)
    ensures TrySplit(ix, sfb, bvEnd, r0, r1) < TOO_MANY
  {
    hide RegionBits, RegionTable, AllCodable;
    BandEndGrows(sfb, r0 + 1, r0 + r1 + 2);
    var e0, e1 := CutAt(sfb, r0 + 1, bvEnd), CutAt(sfb, r0 + r1 + 2, bvEnd);
    CostBound(ix[..e0]);
    CostBound(ix[e0..e1]);
    CostBound(ix[e1..bvEnd]);
  }

  lemma CostBound(v: seq<int>)
    requires |v| <= LINES && Quantized(v)
    ensures RegionCost(v) <= 150 * |v|
  {
    hide RegionBits, RegionTable, AllCodable;
    RegionTableBest(v);
    RegionBitsBound(RegionTable(v), v);
  }

  method CountRegion(ix: seq<int>, start: nat, end: nat) returns (table: nat, bits: nat)
    requires start <= end <= |ix| <= LINES && (end - start) % 2 == 0 && Quantized(ix)
    ensures table == RegionTable(ix[start..end]) && bits == RegionCost(ix[start..end])
  {
    hide RegionBits, RegionTable, AllCodable;
    table := ChooseTable(ix, start, (end - start) / 2);
    RegionTableBest(ix[start..end]);
    bits := RegionSum(table, ix, start, (end - start) / 2);
  }

  method QuadsSum(ix: seq<int>, start: nat, count: nat) returns (a: nat, b: nat)
    requires start + 4 * count <= |ix| && Small(ix[start..start + 4 * count])
    ensures a == QuadsBits(0, ix[start..start + 4 * count])
    ensures b == QuadsBits(1, ix[start..start + 4 * count])
  {
    hide QuadBits;
    ghost var v := ix[start..start + 4 * count];
    a, b := 0, 0;
    for q := 0 to count
      invariant a + QuadsBits(0, v[4 * q..]) == QuadsBits(0, v)
      invariant b + QuadsBits(1, v[4 * q..]) == QuadsBits(1, v)
    {
      var i := start + q * 4;
      assert v[4 * q..][..4] == ix[i..i + 4];
      assert v[4 * q..][4..] == v[4 * (q + 1)..];
      a := a + QuadBits(0, ix[i..i + 4]);
      b := b + QuadBits(1, ix[i..i + 4]);
    }
  }

  /** Tables and size for one choice of region counts. */
  method SplitRegions(ix: seq<int>, sfb: seq<nat>, bvEnd: nat, r0: nat, r1: nat)
    returns (t0: nat, t1: nat, t2: nat, cost: nat)
    requires bvEnd <= |ix| == LINES && bvEnd % 2 == 0 && Quantized(ix) && BandTable(sfb)
    requires r0 <= 10 && r1 <= 7
    ensures var e0, e1 := CutAt(sfb, r0 + 1, bvEnd), CutAt(sfb, r0 + r1 + 2, bvEnd);
            && e0 <= e1
            && t0 == RegionTable(ix[..e0]) && t1 == RegionTable(ix[e0..e1]) && t2 == RegionTable(ix[e1..bvEnd])
    ensures cost == TrySplit(ix, sfb, bvEnd, r0, r1)
  {
    hide RegionCost, RegionTable;
    BandEndGrows(sfb, r0 + 1, r0 + r1 + 2);
    CutEven(sfb, r0 + 1, bvEnd);
    CutEven(sfb, r0 + r1 + 2, bvEnd);
    var acc0 := SumBands(sfb, r0 + 1);
    var acc1 := SumBands(sfb, r0 + r1 + 2);
    var e0, e1 := Min(acc0, bvEnd), Min(acc1, bvEnd);
    var b0, b1, b2;
    t0, b0 := CountRegion(ix, 0, e0);
    t1, b1 := CountRegion(ix, e0, e1);
    t2, b2 := CountRegion(ix, e1, bvEnd);
    assert ix[0..e0] == ix[..e0];
    cost := b0 + b1 + b2;
  }

  lemma CountSize(ix: seq<int>, sfb: seq<nat>)
    requires |ix| == LINES && Quantized(ix) && BandTable(sfb)
    ensures var l := CountLayout(ix, sfb);
            var bvEnd, nzEnd := Count1Start(ix, NonzeroEnd(ix, LINES)), NonzeroEnd(ix, LINES);
            && Describes(l, ix, sfb)
            && SpectrumBits(l, ix, sfb)
               == TrySplit(ix, sfb, bvEnd, l.region0, l.region1) + QuadsBits(l.count1, ix[bvEnd..nzEnd])
  {
    hide RegionBits, RegionTable, AllCodable, QuadsBits, BestSplit, Small, WholeBands;
    CountDescribes(ix, sfb);
    LinesEven(ix);
  }

  /** Count the bits of a spectrum and fill in the layout they need. */
  method CountBits(ix: seq<int>, sfb: seq<nat>) returns (l: Layout, bits: nat)
    requires |ix| == LINES && Quantized(ix) && BandTable(sfb)
    ensures l == CountLayout(ix, sfb)
    ensures Describes(l, ix, sfb) && bits == SpectrumBits(l, ix, sfb)
  {
    hide RegionTable, QuadsBits, TrySplit, BestSplit, WholeBands, SpectrumBits, Describes;
    LinesEven(ix);
    var rzero := CountRzero(ix);
    var nzEnd := LINES - 2 * rzero;
    var c1Start: nat, c1Count: nat := nzEnd, 0;
    while c1Start >= 4 && Small(ix[c1Start - 4..c1Start])
      invariant c1Start <= nzEnd && nzEnd - c1Start == 4 * c1Count
      invariant Count1Start(ix, c1Start) == Count1Start(ix, nzEnd)
    {
      c1Start, c1Count := c1Start - 4, c1Count + 1;
    }
    var total := LastWhole(sfb, c1Start);
    var r0, r1 := FindSplit(ix, sfb, c1Start, total);
    var t0, t1, t2, cost := SplitRegions(ix, sfb, c1Start, r0, r1);
    var qa, qb := QuadsSum(ix, c1Start, c1Count);
    l := Layout(c1Start / 2, r0, r1, t0, t1, t2, if qa <= qb then 0 else 1);
    bits := cost + if qa <= qb then qa else qb;
    CountSize(ix, sfb);
  }

  lemma CutEven(sfb: seq<nat>, n: nat, bvEnd: nat)
    requires BandTable(sfb) && n <= 23 && bvEnd % 2 == 0
    ensures CutAt(sfb, n, bvEnd) % 2 == 0
  {
    BandEndEven(sfb, n);
  }

  method SumBands(sfb: seq<nat>, n: nat) returns (acc: nat)
    requires n <= |sfb|
    ensures acc == BandEnd(sfb, n)
  {
    acc := 0;
    for b := 0 to n
      invariant acc == BandEnd(sfb, b)
    {
      acc := acc + sfb[b];
    }
  }

  method LastWhole(sfb: seq<nat>, bvEnd: nat) returns (total: nat)
    requires |sfb| == 23
    ensures total == WholeBands(sfb, bvEnd, 22)
  {
    var acc := 0;
    total := 0;
    for b := 0 to 22
      invariant acc == BandEnd(sfb, b)
      invariant total == WholeBands(sfb, bvEnd, b)
    {
      acc := acc + sfb[b];
      if acc <= bvEnd {
        total := b + 1;
      }
    }
  }

  method FindSplit(ix: seq<int>, sfb: seq<nat>, bvEnd: nat, total: nat) returns (best0: nat, best1: nat)
    requires bvEnd <= |ix| == LINES && bvEnd % 2 == 0 && Quantized(ix) && BandTable(sfb)
    ensures best0 <= 10 && best1 <= 7
    ensures (best0, best1) == BestSplit(ix, sfb, bvEnd, total, 5, (7, 0), TOO_MANY)
  {
    hide RegionTable, SplitCost, TrySplit;
    var best: (nat, nat), bits: nat := (7, 0), TOO_MANY;
    var r0 := 5;
    while r0 < 11 && r0 < total
      invariant 5 <= r0 <= 11 && best.0 <= 10 && best.1 <= 7
      invariant BestSplit(ix, sfb, bvEnd, total, r0, best, bits)
                == BestSplit(ix, sfb, bvEnd, total, 5, (7, 0), TOO_MANY)
    {
      var r1 := Region1(total, r0);
      var t0, t1, t2, b := SplitRegions(ix, sfb, bvEnd, r0, r1);
      if b < bits {
        best, bits := (r0, r1), b;
      }
      r0 := r0 + 1;
    }
    best0, best1 := best.0, best.1;
  }
}
