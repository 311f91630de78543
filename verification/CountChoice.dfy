/**
 * What the region layout chosen by mp3enc_count_bits is good for: which tables compete, where the regions
 * of quadruples and zeros start, and that no layout of the searched kind is smaller.
 */
module CountChoice {
  import opened Bits
  import opened Huff
  import opened Spectrum
  import opened Count

  /** Largest value a table holds without escape. */
  function Largest(t: nat): nat
    requires PairTable(t)
  {
    Width(t) - 1
  }

  /**
   * Up to 15, the tables that compete for a region are those with the least sufficient largest value; above,
   * all tables with escapes.
   */
  lemma CandidatesAre(m: nat, t: nat)
    requires m > 0
    ensures t in Candidates(m) <==>
              PairTable(t) && if m > 15 then t >= 16
                              else t < 16 && m <= Largest(t)
                                   && forall u: nat ::
                                        u < 16 && PairTable(u) && m <= Largest(u) ==> Largest(t) <= Largest(u)
  {
    Widths();
    hide Width;
    if m > 15 {
      LinbitCandidates(m, t);
    } else {
      SmallCandidates(m, t);
    }
  }

  lemma LinbitCandidates(m: nat, t: nat)
    requires m > 15
    ensures t in Candidates(m) <==> 16 <= t <= 31
  {
    if 16 <= t <= 31 {
      assert Candidates(m)[t - 16] == t;
    }
  }

  lemma SmallCandidates(m: nat, t: nat)
    requires 0 < m <= 15
    requires forall u: nat :: PairTable(u) && u < 16 ==> Largest(u) == ValueLimit(u)
    ensures t in Candidates(m) <==>
              PairTable(t) && t < 16 && m <= Largest(t)
              && forall u: nat :: u < 16 && PairTable(u) && m <= Largest(u) ==> Largest(t) <= Largest(u)
  {
    hide Largest;
    assert PairTable(1) && PairTable(2) && PairTable(5) && PairTable(7) && PairTable(10) && PairTable(13);
  }

  function ValueLimit(t: nat): nat
  {
    if t <= 1 then 1 else if t <= 3 then 2 else if t <= 6 then 3 else if t <= 9 then 5 else if t <= 12 then 7 else 15
  }

  lemma Widths()
    ensures forall u: nat :: PairTable(u) && u < 16 ==> Largest(u) == ValueLimit(u)
  {
  }

  /** A table with escapes is passed over exactly when its escapes are too short for the region. */
  lemma TooShortExactly(t: nat, v: seq<int>)
    requires 16 <= t <= 31 && MaxAbs(v) > 15
    ensures TooShort(t, MaxAbs(v)) <==> !AllCodable(t, v)
  {
    LinbitCandidates(MaxAbs(v), t);
    if TooShort(t, MaxAbs(v)) {
      MaxReached(v);
    } else {
      CandidateCodes(t, v);
    }
  }

  lemma {:induction false} MaxReached(v: seq<int>)
    requires MaxAbs(v) > 0
    ensures exists k :: 0 <= k < |v| && Abs(v[k]) == MaxAbs(v)
  {
    if MaxAbs(v) == Abs(v[|v| - 1]) {
      assert Abs(v[|v| - 1]) == MaxAbs(v);
    } else {
      var front := v[..|v| - 1];
      MaxReached(front);
      var k :| 0 <= k < |front| && Abs(front[k]) == MaxAbs(front);
      assert Abs(v[k]) == MaxAbs(v);
    }
  }

  /** The zeros at the end are all taken, pair by pair, and the quadruples of small values before them too. */
  lemma RegionsMaximal(ix: seq<int>, sfb: seq<nat>)
    requires |ix| == LINES && Quantized(ix) && |sfb| == 23
    ensures var nz, bv := NonzeroEnd(ix, LINES), 2 * CountLayout(ix, sfb).bigValues;
            && nz <= LINES && bv <= nz
            && (nz >= 2 ==> ix[nz - 1] != 0 || ix[nz - 2] != 0)
            && (nz - bv) % 4 == 0 && Small(ix[bv..nz])
            && (bv >= 4 ==> !Small(ix[bv - 4..bv]))
  {
    hide RegionTable, BestSplit, WholeBands, QuadsBits, Small;
    LastNonzero(ix, LINES);
    LinesEven(ix);
    LastBig(ix, NonzeroEnd(ix, LINES));
  }

  lemma {:induction false} LastNonzero(ix: seq<int>, e: nat)
    requires e <= |ix|
    ensures var nz := NonzeroEnd(ix, e); nz >= 2 ==> ix[nz - 1] != 0 || ix[nz - 2] != 0
  {
    if e >= 2 && ix[e - 2] == 0 && ix[e - 1] == 0 {
      LastNonzero(ix, e - 2);
    }
  }

  lemma {:induction false} LastBig(ix: seq<int>, e: nat)
    requires e <= |ix|
    ensures var bv := Count1Start(ix, e); bv >= 4 ==> !Small(ix[bv - 4..bv])
  {
    hide Small;
    if e >= 4 && Small(ix[e - 4..e]) {
      LastBig(ix, e - 4);
    }
  }

  /** The count1 table is the one with fewer bits; of equals, A. */
  lemma Count1Cheaper(ix: seq<int>, sfb: seq<nat>)
    requires |ix| == LINES && Quantized(ix) && |sfb| == 23
    ensures var l := CountLayout(ix, sfb);
            var quads := ix[Count1Start(ix, NonzeroEnd(ix, LINES))..NonzeroEnd(ix, LINES)];
            && l.count1 < 2
            && QuadsBits(l.count1, quads) <= QuadsBits(1 - l.count1, quads)
            && (QuadsBits(0, quads) == QuadsBits(1, quads) ==> l.count1 == 0)
  {
    hide RegionTable, BestSplit, WholeBands, QuadsBits, Small;
  }

  /** A region's table is one the search considers. */
  ghost predicate Considered(t: nat, v: seq<int>) { MaxAbs(v) == 0 || Usable(t, v) }

  /** A layout the search could have ended with. */
  ghost predicate Searched(l: Layout, ix: seq<int>, sfb: seq<nat>)
    requires |ix| == LINES && Describes(l, ix, sfb)
  {
    var bv := 2 * l.bigValues;
    var whole := WholeBands(sfb, bv, 22);
    && bv == Count1Start(ix, NonzeroEnd(ix, LINES))
    && 5 <= l.region0 < 11 && l.region0 < whole
    && l.region1 == (if whole - l.region0 > 8 then 7 else whole - l.region0 - 1)
    && Considered(l.table0, ix[..l.End0(sfb)]) && Considered(l.table1, ix[l.End0(sfb)..l.End1(sfb)])
    && Considered(l.table2, ix[l.End1(sfb)..bv])
  }

  lemma ConsideredCost(t: nat, v: seq<int>)
    requires |v| <= LINES && Quantized(v) && AllCodable(t, v) && Considered(t, v)
    ensures RegionCost(v) <= RegionBits(t, v)
  {
    hide RegionBits, AllCodable, RegionTable, Usable;
    RegionTableBest(v);
    if MaxAbs(v) == 0 {
      NothingToCode(v);
    }
  }

  lemma NothingToCode(v: seq<int>)
    requires |v| <= LINES && Quantized(v) && MaxAbs(v) == 0
    ensures AllCodable(0, v) && RegionTable(v) == 0 && RegionBits(0, v) == 0
  {
    hide RegionBits;
    NoMagnitude(v);
    ZeroBits(v);
  }

  lemma {:induction false} ZeroBits(v: seq<int>)
    requires AllCodable(0, v)
    ensures RegionBits(0, v) == 0
  {
    if |v| >= 2 {
      ZeroBits(v[2..]);
    }
  }

  /** What the search computed for the regions of such a layout is at most what the layout costs. */
  lemma SplitAtMost(ix: seq<int>, sfb: seq<nat>, l: Layout)
    requires |ix| == LINES && Quantized(ix) && BandTable(sfb) && Describes(l, ix, sfb) && Searched(l, ix, sfb)
    ensures TrySplit(ix, sfb, 2 * l.bigValues, l.region0, l.region1)
            + QuadsBits(l.count1, ix[2 * l.bigValues..NonzeroEnd(ix, LINES)]) <= SpectrumBits(l, ix, sfb)
  {
    hide RegionBits, RegionTable, RegionCost, AllCodable, QuadsBits, Small, WholeBands, Considered;
    var bv := 2 * l.bigValues;
    var e0, e1 := l.End0(sfb), l.End1(sfb);
    ConsideredCost(l.table0, ix[..e0]);
    ConsideredCost(l.table1, ix[e0..e1]);
    ConsideredCost(l.table2, ix[e1..bv]);
  }

  /** No layout the search could have ended with is smaller than the one it ends with. */
  lemma LayoutLeast(ix: seq<int>, sfb: seq<nat>, l: Layout)
    requires |ix| == LINES && Quantized(ix) && BandTable(sfb) && Describes(l, ix, sfb) && Searched(l, ix, sfb)
    ensures Describes(CountLayout(ix, sfb), ix, sfb)
    ensures SpectrumBits(CountLayout(ix, sfb), ix, sfb) <= SpectrumBits(l, ix, sfb)
  {
    hide RegionTable, QuadsBits, Small, WholeBands, BestSplit, Considered, SpectrumBits, TrySplit;
    var bv := 2 * l.bigValues;
    CountSize(ix, sfb);
    Count1Cheaper(ix, sfb);
    assert l.region1 == Region1(WholeBands(sfb, bv, 22), l.region0);
    BestSplitIsLeast(ix, sfb, bv, WholeBands(sfb, bv, 22), 5, (7, 0), TOO_MANY);
    SplitAtMost(ix, sfb, l);
  }

  /** The bands that lie wholly inside the big_values region. */
  lemma {:induction false} WholeBandsAre(sfb: seq<nat>, bv: nat, n: nat)
    requires n <= |sfb|
    ensures var t := WholeBands(sfb, bv, n);
            BandEnd(sfb, t) <= bv && forall k: nat :: t < k <= n ==> BandEnd(sfb, k) > bv
  {
    if n > 0 && BandEnd(sfb, n) > bv {
      WholeBandsAre(sfb, bv, n - 1);
    }
  }
}
