/**
 * Bits per frame: CBR padding, the split of a frame's main-data bits between its two granules, and the
 * quantization of all granules within that split (mp3enc_get_padding and the middle of
 * mp3enc_encode_frame in mp3/mp3enc.h).
 */
module Budget {
  import opened Bits
  import opened Huff
  import opened Spectrum
  import opened Granules
  import opened Quant
  import opened Frames

  /** Bytes per frame times the sampling rate. */
  function FrameShare(kbps: nat): nat { 144 * kbps * 1000 }

  /** mp3enc_get_padding: the new remainder and the padding bit. */
  function Pad(remainder: int, share: nat, rate: nat): (int, nat)
    requires rate > 0
  {
    var r := remainder - share % rate;
    if r < 0 then (r + rate, 1) else (r, 0)
  }

  /** Remainder and total bytes after n frames of a fresh encoder. */
  function PadRun(n: nat, share: nat, rate: nat): (int, nat)
    requires rate > 0
  {
    if n == 0 then (0, 0)
    else
      var s := PadRun(n - 1, share, rate);
      var p := Pad(s.0, share, rate);
      (p.0, s.1 + share / rate + p.1)
  }

  function Ceil(a: nat, d: nat): nat
    requires d > 0
  {
    (a + d - 1) / d
  }

  /** One frame keeps the remainder in range and accounts for exactly its share of the bitrate. */
  lemma PadStep(remainder: int, share: nat, rate: nat)
    requires rate > 0 && 0 <= remainder < rate
    ensures var p := Pad(remainder, share, rate);
            && 0 <= p.0 < rate && p.1 <= 1
            && (share / rate + p.1) * rate == share + p.0 - remainder
  {
    assert share == rate * (share / rate) + share % rate;
    var p := Pad(remainder, share, rate);
    assert (share / rate + p.1) * rate == rate * (share / rate) + p.1 * rate;
    assert p.1 == 0 || p.1 == 1;
  }

  lemma {:induction false} PadRunExact(n: nat, share: nat, rate: nat)
    requires rate > 0
    ensures var s := PadRun(n, share, rate);
            0 <= s.0 < rate && s.1 * rate == n * share + s.0
  {
    if n > 0 {
      PadRunExact(n - 1, share, rate);
      var s := PadRun(n - 1, share, rate);
      PadStep(s.0, share, rate);
      var size := share / rate + Pad(s.0, share, rate).1;
      Distribute(s.1, size, rate);
      Distribute(n - 1, 1, share);
    }
  }

  lemma Distribute(a: int, b: int, c: int)
    ensures (a + b) * c == a * c + b * c
  {
  }

  /** After n frames the stream has exactly the bytes the bitrate calls for, rounded up. */
  lemma CbrExact(n: nat, kbps: nat, rate: nat)
    requires rate > 0
    ensures PadRun(n, FrameShare(kbps), rate).1 == Ceil(n * FrameShare(kbps), rate)
  {
    hide FrameShare;
    PadRunExact(n, FrameShare(kbps), rate);
    var s := PadRun(n, FrameShare(kbps), rate);
    CeilIs(n * FrameShare(kbps), rate, s.1, s.0);
  }

  lemma CeilIs(a: nat, d: nat, q: nat, r: nat)
    requires 0 <= r < d && q * d == a + r
    ensures Ceil(a, d) == q
  {
    QuotientIs(a + d - 1, d, q, d - 1 - r);
  }

  /** Halving as C does it: toward zero. */
  function HalfTowardZero(x: int): int
  {
    if x >= 0 then x / 2 else -((-x) / 2)
  }

  function Clamp(x: int, lo: int, hi: int): int
  {
    var y := if x < lo then lo else x;
    if y > hi then hi else y
  }

  /**
   * Split of the frame's bits between its granules. share is granule 0's part by perceptual entropy, any
   * integer; even is the branch taken when there is no entropy to weigh.
   */
  method SplitBudget(total: nat, share: int, even: bool) returns (b0: int, b1: int)
    ensures b0 == FirstShare(total, share, even) && b0 + b1 == total
    ensures total / 5 - 1 <= b0 <= total - total / 5 + 1
    ensures total / 5 - 1 <= b1 <= total - total / 5 + 1
  {
    if even {
      b0 := total / 2;
      b1 := total - b0;
    } else {
      var lo, hi := total / 5, total * 4 / 5;
      b0 := Clamp(share, lo, hi);
      b1 := Clamp(total - share, lo, hi);
      var spread := total - (b0 + b1);
      b0 := b0 + HalfTowardZero(spread);
      b1 := b1 + (spread - HalfTowardZero(spread));
    }
  }

  /** Granule 0's bits by perceptual entropy, held between a fifth and four fifths. */
  function FirstShare(total: int, share: int, even: bool): int
  {
    if even then total / 2 else Clamp(share, total / 5, total * 4 / 5)
  }

  /** Granule 0's bits are half the frame's, or the number between a fifth and four fifths nearest to its share. */
  lemma NearestShare(total: nat, share: int, v: int)
    requires total / 5 <= v <= total * 4 / 5
    ensures FirstShare(total, share, true) == total / 2
    ensures var first := FirstShare(total, share, false);
            && total / 5 <= first <= total * 4 / 5
            && Abs(share - first) <= Abs(share - v)
  {
  }

  /** Everything the float stages decide for a frame: two granules of nch channels. */
  datatype Plan = Plan(share: int -> int, even: bool, useMs: bool, quantizers: seq<Quantizer>, judges: seq<Judge>)

  /** Bits every granule and channel is sure to get when the frame has total bits. */
  function Floor(total: nat, nch: nat): int
    requires nch == 1 || nch == 2
  {
    Min((total / 5 - 1) / nch, 4095)
  }

  /** The flat quantizer at gain 255 fits the smallest budget a granule can be given. */
  ghost predicate Affordable(plan: Plan, total: nat, sfb: seq<nat>, nch: nat)
    requires BandTable(sfb)
  {
    && (nch == 1 || nch == 2) && |plan.quantizers| == |plan.judges| == 2 * nch
    && total >= 10
    && forall k :: 0 <= k < 2 * nch ==> Fits(plan.quantizers[k].flat, Floor(total, nch), sfb, TOP_GAIN)
  }

  lemma FitsMore(q: nat -> Levels, avail: int, more: int, sfb: seq<nat>, g: nat)
    requires BandTable(sfb) && avail <= more && Fits(q, avail, sfb, g)
    ensures Fits(q, more, sfb, g)
  {
  }

  function NotShared(): seq<bool> { [false, false, false, false] }

  /** A granule is ready to be written: within its 12-bit length, its spectrum the quantizer's at its gain. */
  ghost predicate Ready(qz: Quantizer, g: Granule, ix: seq<int>, sfb: seq<nat>, gr: nat)
  {
    Sound(g, ix, sfb, gr, NotShared()) && SideInRange(g) && ix == qz.At(g)(g.globalGain)
  }

  /** All granules so far are ready. */
  ghost predicate AllReady(plan: Plan, gs: seq<Granule>, ixs: seq<seq<int>>, sfb: seq<nat>, nch: nat)
  {
    && nch > 0 && |gs| == |ixs| <= |plan.quantizers|
    && forall k :: 0 <= k < |gs| ==> Ready(plan.quantizers[k], gs[k], ixs[k], sfb, k / nch)
  }

  /** One granule's share: its budget with what was left over, within what the frame has and a length field can say. */
  function Share(total: int, nch: nat, budget: int, intra: int, used: int): int
  {
    Min(Min(budget + intra, total - used), 4095 * nch)
  }

  /** Bits for each channel of a granule when granule 0 used used0; what it left over goes to granule 1. */
  function ChannelBits(plan: Plan, total: int, nch: nat, gr: nat, used0: nat): int
    requires nch > 0
  {
    var b0 := FirstShare(total, plan.share(total), plan.even);
    var left := if used0 < b0 then b0 - used0 else 0;
    (if gr == 0 then Share(total, nch, b0, 0, 0) else Share(total, nch, total - b0, left, used0)) / nch
  }

  /** Granule 1 may use every bit of the frame that granule 0 did not, up to what a length field can say. */
  lemma CarriedOver(plan: Plan, total: nat, nch: nat, used0: nat)
    requires nch == 1 || nch == 2
    requires used0 <= FirstShare(total, plan.share(total), plan.even)
    ensures ChannelBits(plan, total, nch, 0, 0)
            == Min(FirstShare(total, plan.share(total), plan.even), 4095 * nch) / nch
    ensures ChannelBits(plan, total, nch, 1, used0) == Min(total - used0, 4095 * nch) / nch
  {
  }

  /** Granule k of the frame is what the outer loop yields within its bits. */
  ghost predicate Allotted(plan: Plan, total: int, nch: nat, used0: nat, g: Granule, ix: seq<int>, sfb: seq<nat>,
                           k: nat)
    requires nch > 0 && k < |plan.quantizers| && |plan.judges| == |plan.quantizers| && BandTable(sfb)
  {
    Setting(plan.quantizers[k], plan.judges[k], ChannelBits(plan, total, nch, k / nch, used0), sfb, k / nch,
            NotShared()).Yields(g, ix)
  }

  function BitsUsed(gs: seq<Granule>): nat
  {
    if gs == [] then 0 else BitsUsed(gs[..|gs| - 1]) + gs[|gs| - 1].part23
  }

  /**
   * Quantize the channels of one granule, each within bitsPerCh; gs and ixs are the granules so far.
   */
  method QuantizeGranule(plan: Plan, gr: nat, nch: nat, bitsPerCh: int, sfb: seq<nat>,
                         gs0: seq<Granule>, ixs0: seq<seq<int>>)
    returns (gs: seq<Granule>, ixs: seq<seq<int>>, used: nat)
    requires (nch == 1 || nch == 2) && gr < 2 && |plan.quantizers| == |plan.judges| == 2 * nch && BandTable(sfb)
    requires 0 <= bitsPerCh <= 4095
    requires forall k :: 0 <= k < 2 * nch ==> Fits(plan.quantizers[k].flat, bitsPerCh, sfb, TOP_GAIN)
    requires |gs0| == |ixs0| == gr * nch && AllReady(plan, gs0, ixs0, sfb, nch)
    ensures |gs| == |ixs| == (gr + 1) * nch && AllReady(plan, gs, ixs, sfb, nch)
    ensures AllYield(plan, sfb, bitsPerCh, gr, gr * nch, gs, ixs)
    ensures gs0 <= gs && ixs0 <= ixs && used <= nch * bitsPerCh && BitsUsed(gs) == BitsUsed(gs0) + used
  {
    hide Fits, Ready, Coherent, AllReady, Setting.Leaves, Setting.Yields;
    assert AllYield(plan, sfb, bitsPerCh, gr, gr * nch, gs0, ixs0);
    hide AllYield;
    gs, ixs, used := gs0, ixs0, 0;
    for ch := 0 to nch
      invariant |gs| == |ixs| == gr * nch + ch && gs0 <= gs && ixs0 <= ixs
      invariant AllYield(plan, sfb, bitsPerCh, gr, gr * nch, gs, ixs)
      invariant AllReady(plan, gs, ixs, sfb, nch)
      invariant used <= ch * bitsPerCh && BitsUsed(gs) == BitsUsed(gs0) + used
    {
      var k := gr * nch + ch;
      var g, ix;
      ghost var trace;
      g, ix, trace := OuterLoop(plan.quantizers[k], plan.judges[k], bitsPerCh, sfb, gr, NotShared());
      YieldMore(plan, sfb, bitsPerCh, gr, gr * nch, gs, ixs, trace, g, ix);
      CoherentReady(plan.quantizers[k], g, ix, sfb, gr);
      ChannelOf(gr, nch, ch);
      assert (gs + [g])[..|gs|] == gs;
      ReadyMore(plan, gs, ixs, g, ix, sfb, nch);
      gs, ixs, used := gs + [g], ixs + [ix], used + g.part23;
    }
  }

  /** From granule lo on, every granule is what the outer loop yields within these bits. */
  ghost predicate AllYield(plan: Plan, sfb: seq<nat>, bits: int, gr: nat, lo: nat, gs: seq<Granule>, ixs: seq<seq<int>>)
    requires BandTable(sfb)
  {
    && |gs| == |ixs| <= |plan.quantizers| == |plan.judges|
    && forall k :: lo <= k < |gs| ==>
         Setting(plan.quantizers[k], plan.judges[k], bits, sfb, gr, NotShared()).Yields(gs[k], ixs[k])
  }

  lemma YieldMore(plan: Plan, sfb: seq<nat>, bits: int, gr: nat, lo: nat, gs: seq<Granule>, ixs: seq<seq<int>>,
                  trace: seq<Snapshot>, g: Granule, ix: seq<int>)
    requires BandTable(sfb) && AllYield(plan, sfb, bits, gr, lo, gs, ixs) && |gs| < |plan.quantizers|
    requires Setting(plan.quantizers[|gs|], plan.judges[|gs|], bits, sfb, gr, NotShared()).Leaves(trace, g, ix)
    ensures AllYield(plan, sfb, bits, gr, lo, gs + [g], ixs + [ix])
  {
    hide Setting.Leaves;
    assert Setting(plan.quantizers[|gs|], plan.judges[|gs|], bits, sfb, gr, NotShared()).Yields(g, ix);
    hide Setting.Yields;
  }

  /** Both granules quantized within their bits make an allotted frame. */
  lemma BothAllotted(plan: Plan, total: nat, nch: nat, sfb: seq<nat>, gs0: seq<Granule>, ixs0: seq<seq<int>>,
                     gs: seq<Granule>, ixs: seq<seq<int>>)
    requires BandTable(sfb) && (nch == 1 || nch == 2) && |gs0| == nch && |gs| == 2 * nch == |plan.quantizers|
    requires gs0 <= gs && ixs0 <= ixs
    requires AllYield(plan, sfb, ChannelBits(plan, total, nch, 0, 0), 0, 0, gs0, ixs0)
    requires AllYield(plan, sfb, ChannelBits(plan, total, nch, 1, BitsUsed(gs0)), 1, nch, gs, ixs)
    ensures forall k :: 0 <= k < 2 * nch ==> Allotted(plan, total, nch, BitsUsed(gs[..nch]), gs[k], ixs[k], sfb, k)
  {
    hide Setting.Yields, BitsUsed;
    assert gs[..nch] == gs0;
    forall k | 0 <= k < 2 * nch
      ensures Allotted(plan, total, nch, BitsUsed(gs0), gs[k], ixs[k], sfb, k)
    {
      ChannelOf(k / nch, nch, k % nch);
      assert k < nch ==> gs[k] == gs0[k] && ixs[k] == ixs0[k];
    }
  }

  lemma ReadyMore(plan: Plan, gs: seq<Granule>, ixs: seq<seq<int>>, g: Granule, ix: seq<int>, sfb: seq<nat>, nch: nat)
    requires AllReady(plan, gs, ixs, sfb, nch) && |gs| < |plan.quantizers|
    requires Ready(plan.quantizers[|gs|], g, ix, sfb, |gs| / nch)
    ensures AllReady(plan, gs + [g], ixs + [ix], sfb, nch)
  {
    hide Ready;
  }

  lemma ChannelOf(gr: nat, nch: nat, ch: nat)
    requires ch < nch <= 2
    ensures (gr * nch + ch) / nch == gr && (gr * nch + ch) % nch == ch
  {
    assert nch == 1 || nch == 2;
  }

  lemma CoherentReady(qz: Quantizer, g: Granule, ix: Levels, sfb: seq<nat>, gr: nat)
    requires BandTable(sfb) && Coherent(qz, g, ix, sfb, gr, NotShared()) && g.part23 < 4096
    ensures Ready(qz, g, ix, sfb, gr)
  {
    hide Count.CountLayout, SpectrumBits, Part2Length, Representable, AllCodable, Small;
  }

  /** Quantize one granule within its share and carry what it leaves over. */
  method QuantizeShare(plan: Plan, total: nat, nch: nat, gr: nat, budget: int, intra0: int, used0: int, sfb: seq<nat>,
                       gs0: seq<Granule>, ixs0: seq<seq<int>>)
    returns (gs: seq<Granule>, ixs: seq<seq<int>>, intra: int, used: int)
    requires BandTable(sfb) && Affordable(plan, total, sfb, nch) && gr < 2
    requires Min(total / 5 - 1, 4095 * nch) <= Share(total, nch, budget, intra0, used0)
    requires |gs0| == |ixs0| == gr * nch && AllReady(plan, gs0, ixs0, sfb, nch) && BitsUsed(gs0) == used0
    ensures |gs| == |ixs| == (gr + 1) * nch && AllReady(plan, gs, ixs, sfb, nch)
    ensures gs0 <= gs && ixs0 <= ixs && BitsUsed(gs) == used
    ensures used0 <= used <= used0 + Share(total, nch, budget, intra0, used0)
    ensures intra == if intra0 + budget - (used - used0) < 0 then 0 else intra0 + budget - (used - used0)
    ensures AllYield(plan, sfb, Share(total, nch, budget, intra0, used0) / nch, gr, gr * nch, gs, ixs)
  {
    var maxBits := Share(total, nch, budget, intra0, used0);
    var bitsPerCh := maxBits / nch;
    EnoughEach(total, nch, maxBits);
    FitEach(plan, total, sfb, nch, bitsPerCh);
    hide Fits, Ready, AllReady, AllYield, Affordable, Share;
    var n;
    gs, ixs, n := QuantizeGranule(plan, gr, nch, bitsPerCh, sfb, gs0, ixs0);
    intra := intra0 + budget - n;
    if intra < 0 {
      intra := 0;
    }
    used := used0 + n;
  }

  lemma FitEach(plan: Plan, total: nat, sfb: seq<nat>, nch: nat, bits: int)
    requires BandTable(sfb) && Affordable(plan, total, sfb, nch) && Floor(total, nch) <= bits
    ensures (nch == 1 || nch == 2) && |plan.quantizers| == |plan.judges| == 2 * nch
    ensures forall k :: 0 <= k < 2 * nch ==> Fits(plan.quantizers[k].flat, bits, sfb, TOP_GAIN)
  {
    hide Fits;
    forall k | 0 <= k < 2 * nch
      ensures Fits(plan.quantizers[k].flat, bits, sfb, TOP_GAIN)
    {
      FitsMore(plan.quantizers[k].flat, Floor(total, nch), bits, sfb, TOP_GAIN);
    }
  }

  lemma AffordableShape(plan: Plan, total: nat, sfb: seq<nat>, nch: nat)
    requires BandTable(sfb) && Affordable(plan, total, sfb, nch)
    ensures (nch == 1 || nch == 2) && |plan.quantizers| == |plan.judges| == 2 * nch && total >= 10
  {
  }

  lemma NoneReady(plan: Plan, sfb: seq<nat>, nch: nat)
    requires nch > 0
    ensures AllReady(plan, [], [], sfb, nch) && BitsUsed([]) == 0
  {
  }

  /**
   * Quantize both granules. Unused bits of the first go to the second, and the frame never uses more than
   * its main-data area plus what it borrows.
   */
  method QuantizeFrame(plan: Plan, total: nat, sfb: seq<nat>, nch: nat)
    returns (gs: seq<Granule>, ixs: seq<seq<int>>)
    requires BandTable(sfb) && Affordable(plan, total, sfb, nch)
    ensures |gs| == |ixs| == 2 * nch && AllReady(plan, gs, ixs, sfb, nch)
    ensures BitsUsed(gs) <= total
    ensures forall k :: 0 <= k < 2 * nch ==> Allotted(plan, total, nch, BitsUsed(gs[..nch]), gs[k], ixs[k], sfb, k)
  {
    hide Affordable, Ready, AllReady, AllYield, Allotted, BitsUsed;
    AffordableShape(plan, total, sfb, nch);
    var b0, b1 := SplitBudget(total, plan.share(total), plan.even);
    var intra: int, used: int := 0, 0;
    gs, ixs := [], [];
    NoneReady(plan, sfb, nch);
    for gr := 0 to 2
      invariant |gs| == |ixs| == gr * nch && AllReady(plan, gs, ixs, sfb, nch)
      invariant BitsUsed(gs) == used <= total && 0 <= intra
      invariant gr == 0 ==> used == 0 && intra == 0
      invariant gr == 1 ==> used <= b0 && intra == b0 - used
      invariant gr == 1 ==> AllYield(plan, sfb, ChannelBits(plan, total, nch, 0, 0), 0, 0, gs, ixs)
      invariant gr == 2 ==>
                  forall k :: 0 <= k < 2 * nch ==>
                    Allotted(plan, total, nch, BitsUsed(gs[..nch]), gs[k], ixs[k], sfb, k)
    {
      ghost var gs0, ixs0 := gs, ixs;
      var budget := if gr == 0 then b0 else b1;
      assert Share(total, nch, budget, intra, used) / nch == ChannelBits(plan, total, nch, gr, used);
      gs, ixs, intra, used := QuantizeShare(plan, total, nch, gr, budget, intra, used, sfb, gs, ixs);
      if gr == 1 { BothAllotted(plan, total, nch, sfb, gs0, ixs0, gs, ixs); }
    }
  }

  lemma EnoughEach(total: nat, nch: nat, maxBits: int)
    requires (nch == 1 || nch == 2) && total >= 10
    requires Min(total / 5 - 1, 4095 * nch) <= maxBits <= 4095 * nch
    ensures Floor(total, nch) <= maxBits / nch && 0 <= maxBits / nch <= 4095
    ensures nch * (maxBits / nch) <= maxBits
  {
  }
}
