/**
 * The gain search (mp3enc_inner_loop) and the scalefactor loop (mp3enc_outer_loop) of
 * mp3/mp3enc-quant.h. The float quantizer and noise measure are arbitrary functions.
 */
module Quant {
  import opened Bits
  import opened Huff
  import opened Spectrum
  import opened Granules
  import Count

  /** A quantized spectrum. */
  type Levels = v: seq<int> | |v| == LINES && Count.Quantized(v) witness Zeros(LINES)

  ghost function CountedBits(ix: Levels, sfb: seq<nat>): nat
    requires BandTable(sfb)
  {
    Count.CountDescribes(ix, sfb);
    SpectrumBits(Count.CountLayout(ix, sfb), ix, sfb)
  }

  predicate Saturated(ix: seq<int>)
  {
    exists k :: 0 <= k < |ix| && Abs(ix[k]) >= Count.MAX_LEVEL
  }

  /** Gain g is acceptable: nothing is clipped and the bits fit. */
  ghost predicate Fits(q: nat -> Levels, avail: int, sfb: seq<nat>, g: nat)
    requires BandTable(sfb)
  {
    !Saturated(q(g)) && CountedBits(q(g), sfb) <= avail
  }

  /** Bits that a spectrum takes when it is written. */
  ghost function WrittenBits(ix: Levels, sfb: seq<nat>): nat
    requires BandTable(sfb)
  {
    Count.CountDescribes(ix, sfb);
    hide Describes, SpectrumCode, Count.CountLayout;
    |SpectrumCode(Count.CountLayout(ix, sfb), ix, sfb)|
  }

  /** A gain is acceptable exactly if every level stays below the largest and the code that would be written fits. */
  lemma FitsMeans(q: nat -> Levels, avail: int, sfb: seq<nat>, g: nat)
    requires BandTable(sfb)
    ensures Fits(q, avail, sfb, g) <==>
            (forall k :: 0 <= k < 576 ==> -8191 < q(g)[k] < 8191) && WrittenBits(q(g), sfb) <= avail
  {
    hide Count.CountLayout, Describes, SpectrumBits, SpectrumCode;
    Count.CountDescribes(q(g), sfb);
    SpectrumSize(Count.CountLayout(q(g), sfb), q(g), sfb);
  }

  method TryGain(q: nat -> Levels, avail: int, sfb: seq<nat>, g: nat) returns (bits: int)
    requires BandTable(sfb)
    ensures bits <= avail <==> Fits(q, avail, sfb, g)
  {
    hide Count.CountLayout, Describes, SpectrumBits;
    var ix := q(g);
    for i := 0 to LINES
      invariant forall k :: 0 <= k < i ==> Abs(ix[k]) < Count.MAX_LEVEL
    {
      if Abs(ix[i]) >= Count.MAX_LEVEL {
        return avail + 1;
      }
    }
    var l, n := Count.CountBits(ix, sfb);
    bits := n;
  }

  /** The gain to fall back on when no gain tried is acceptable. */
  const UNIT_GAIN: nat := 210
  const TOP_GAIN: nat := 255

  /** Binary search over lo .. 255; acceptance need not be monotone. */
  method Bisect(q: nat -> Levels, avail: int, sfb: seq<nat>, from: nat) returns (found: bool, gain: nat)
    requires BandTable(sfb)
    ensures found ==> from <= gain <= TOP_GAIN && Fits(q, avail, sfb, gain)
    ensures found && gain > from ==> !Fits(q, avail, sfb, gain - 1)
    ensures !found ==> gain == UNIT_GAIN && (from <= TOP_GAIN ==> !Fits(q, avail, sfb, TOP_GAIN))
  {
    hide Fits;
    var lo: int, hi: int := from, TOP_GAIN;
    found, gain := false, UNIT_GAIN;
    while lo <= hi
      invariant from <= lo && hi <= TOP_GAIN && (from <= TOP_GAIN ==> lo <= hi + 1)
      invariant from < lo ==> !Fits(q, avail, sfb, lo - 1)
      invariant found ==> gain == hi + 1 && from <= gain <= TOP_GAIN && Fits(q, avail, sfb, gain)
      invariant !found ==> gain == UNIT_GAIN && hi == TOP_GAIN
      decreases hi - lo
    {
      var mid := (lo + hi) / 2;
      var bits := TryGain(q, avail, sfb, mid);
      if bits <= avail {
        found, gain, hi := true, mid, mid - 1;
      } else {
        lo := mid + 1;
      }
    }
  }

  /** The gain just below the result was rejected, or the scan ran out: at 0, or ten below the hint. */
  ghost predicate Edge(q: nat -> Levels, avail: int, sfb: seq<nat>, hint: int, gain: nat)
    requires BandTable(sfb)
  {
    gain == 0 || !Fits(q, avail, sfb, gain - 1) || gain == hint - 10
  }

  method ScanDown(q: nat -> Levels, avail: int, sfb: seq<nat>, hint: nat) returns (gain: nat)
    requires BandTable(sfb) && Fits(q, avail, sfb, hint)
    ensures gain <= hint && Fits(q, avail, sfb, gain) && Edge(q, avail, sfb, hint, gain)
  {
    hide Fits;
    gain := hint;
    var g: int := hint - 1;
    while g >= 0 && g >= hint - 10
      invariant -1 <= g && gain == g + 1 && hint - 10 <= gain <= hint
      invariant Fits(q, avail, sfb, gain)
      decreases g + 1
    {
      var bits := TryGain(q, avail, sfb, g);
      if bits > avail {
        break;
      }
      gain := g;
      g := g - 1;
    }
  }

  method ScanUp(q: nat -> Levels, avail: int, sfb: seq<nat>, hint: nat) returns (found: bool, gain: nat)
    requires BandTable(sfb) && !Fits(q, avail, sfb, hint) && hint <= TOP_GAIN
    ensures found ==> hint < gain <= TOP_GAIN && Fits(q, avail, sfb, gain) && !Fits(q, avail, sfb, gain - 1)
    ensures !found ==> gain == UNIT_GAIN
    ensures !found ==> forall g :: hint <= g <= hint + 20 && g <= TOP_GAIN ==> !Fits(q, avail, sfb, g)
  {
    hide Fits;
    found, gain := false, UNIT_GAIN;
    var g := hint + 1;
    while g <= TOP_GAIN && g <= hint + 20
      invariant hint < g <= hint + 21 && g <= TOP_GAIN + 1
      invariant forall k :: hint <= k < g ==> !Fits(q, avail, sfb, k)
    {
      var bits := TryGain(q, avail, sfb, g);
      if bits <= avail {
        return true, g;
      }
      g := g + 1;
    }
  }

  /**
   * mp3enc_inner_loop. With a hint (0..255) the gain is scanned linearly from there, with a binary search
   * as fallback; with hint -1 the whole range is searched.
   */
  method InnerLoop(q: nat -> Levels, avail: int, sfb: seq<nat>, hint: int)
    returns (gain: nat, ix: Levels, l: Layout, bits: nat)
    requires BandTable(sfb) && -1 <= hint <= TOP_GAIN
    ensures gain <= TOP_GAIN && ix == q(gain)
    ensures l == Count.CountLayout(ix, sfb) && Describes(l, ix, sfb) && bits == SpectrumBits(l, ix, sfb)
    ensures Fits(q, avail, sfb, gain) ==> bits <= avail
    ensures Fits(q, avail, sfb, TOP_GAIN) ==> Fits(q, avail, sfb, gain) && Edge(q, avail, sfb, hint, gain)
    ensures Fits(q, avail, sfb, gain) || gain == 210
  {
    hide Count.CountLayout, Describes, SpectrumBits, Saturated;
    var found;
    if hint >= 0 {
      var first := TryGain(q, avail, sfb, hint);
      if first <= avail {
        gain := ScanDown(q, avail, sfb, hint);
      } else {
        found, gain := ScanUp(q, avail, sfb, hint);
        if !found {
          found, gain := Bisect(q, avail, sfb, hint + 21);
        }
      }
    } else {
      found, gain := Bisect(q, avail, sfb, 0);
    }
    ix := q(gain);
    l, bits := Count.CountBits(ix, sfb);
  }

  /**
   * Where acceptance is monotone in the gain, a search result that did not stop short is the least
   * acceptable gain.
   */
  lemma LeastAcceptable(q: nat -> Levels, avail: int, sfb: seq<nat>, hint: int, gain: nat)
    requires BandTable(sfb)
    requires forall a: nat, b: nat :: a <= b <= TOP_GAIN && Fits(q, avail, sfb, a) ==> Fits(q, avail, sfb, b)
    requires gain <= TOP_GAIN && Fits(q, avail, sfb, gain) && Edge(q, avail, sfb, hint, gain) && gain != hint - 10
    ensures forall g: nat :: g <= TOP_GAIN ==> (Fits(q, avail, sfb, g) <==> gain <= g)
  {
    hide Fits;
  }

  /** The uninterpreted quantizer: flat, or with scalefactors, their step and the preflag. */
  datatype Quantizer = Quantizer(flat: nat -> Levels, scaled: (nat, seq<nat>, bool, bool) -> Levels) {

    /** The quantizer the search uses for a granule: flat until scalefactors are sent. */
    function At(g: Granule): nat -> Levels
    {
      if g.compress == 0 then flat else (gain: nat) => scaled(gain, g.scalefac, g.scale, g.preflag)
    }
  }

  /** The uninterpreted psychoacoustics: which bands are noisy, and by how much. */
  datatype Judge = Judge(active: bool, noisy: (Levels, Granule, nat) -> bool, excess: (Levels, Granule, nat) -> real)

  const PRETAB: seq<nat> := [0, 0, 0, 0, 0, 0, 0, 0, 0, 0, 0, 1, 1, 1, 1, 2, 2, 3, 3, 3, 2, 0]

  /** A granule state whose every part belongs to the same quantization. */
  ghost predicate Coherent(qz: Quantizer, g: Granule, ix: Levels, sfb: seq<nat>, gr: nat, scfsi: seq<bool>)
    requires BandTable(sfb) && |scfsi| == 4
  {
    && Sound(g, ix, sfb, gr, scfsi)
    && g.layout == Count.CountLayout(ix, sfb)
    && ix == qz.At(g)(g.globalGain)
    && (g.compress == 0 || Holds(g.compress, MaxOf(g.scalefac[..11]), MaxOf(g.scalefac[11..])))
  }

  /** Scalefactors after every noisy band is amplified by one step. */
  function Bumped(judge: Judge, g: Granule, ix: Levels): (sf: seq<nat>)
    requires |g.scalefac| == BANDS
    ensures |sf| == BANDS
  {
    seq(BANDS, k requires 0 <= k < BANDS => g.scalefac[k] + if judge.noisy(ix, g, k) then 1 else 0)
  }

  /** High bands below n that the preflag would help. */
  function HighNeed(sf: seq<nat>, n: nat): nat
    requires 11 <= n <= BANDS == |sf|
  {
    if n == 11 then 0 else HighNeed(sf, n - 1) + if sf[n - 1] >= 2 && PRETAB[n - 1] > 0 then 1 else 0
  }

  function LessPretab(sf: seq<nat>): (r: seq<nat>)
    requires |sf| == BANDS
    ensures |r| == BANDS
  {
    seq(BANDS, k requires 0 <= k < BANDS => if sf[k] < PRETAB[k] then 0 else sf[k] - PRETAB[k])
  }

  function Halved(sf: seq<nat>): (r: seq<nat>)
    ensures |r| == |sf|
  {
    seq(|sf|, k requires 0 <= k < |sf| => (sf[k] + 1) / 2)
  }

  function Clamped(sf: seq<nat>): (r: seq<nat>)
    ensures |r| == |sf|
  {
    seq(|sf|, k requires 0 <= k < |sf| => if sf[k] > 15 then 15 else sf[k])
  }

  /** The next scalefactors: amplify, move into the preflag, move into the doubled step, clamp. */
  function Amplified(judge: Judge, g: Granule, ix: Levels): (h: Granule)
    requires |g.scalefac| == BANDS
    ensures |h.scalefac| == BANDS
  {
    var sf1 := Bumped(judge, g, ix);
    var raise := !g.preflag && HighNeed(sf1, BANDS) >= 3;
    var sf2 := if raise then LessPretab(sf1) else sf1;
    var widen := !g.scale && MaxOf(sf2) > 15;
    var sf3 := if widen then Halved(sf2) else sf2;
    g.(scalefac := Clamped(sf3), preflag := g.preflag || raise, scale := g.scale || widen)
  }

  /** Every noisy band one step up. */
  method Bump(judge: Judge, g: Granule, ix: Levels) returns (sf: seq<nat>)
    requires |g.scalefac| == BANDS
    ensures sf == Bumped(judge, g, ix)
  {
    sf := g.scalefac;
    for k := 0 to BANDS
      invariant |sf| == BANDS
      invariant forall j :: 0 <= j < BANDS ==> sf[j] == if j < k then Bumped(judge, g, ix)[j] else g.scalefac[j]
    {
      if judge.noisy(ix, g, k) {
        sf := sf[k := sf[k] + 1];
      }
    }
  }

  method CountHighNeed(sf: seq<nat>) returns (need: nat)
    requires |sf| == BANDS
    ensures need == HighNeed(sf, BANDS)
  {
    need := 0;
    for k := 11 to BANDS
      invariant need == HighNeed(sf, k)
    {
      if sf[k] >= 2 && PRETAB[k] > 0 {
        need := need + 1;
      }
    }
  }

  method SubtractPretab(sf0: seq<nat>) returns (sf: seq<nat>)
    requires |sf0| == BANDS
    ensures sf == LessPretab(sf0)
  {
    sf := sf0;
    for k := 0 to BANDS
      invariant |sf| == BANDS
      invariant forall j :: 0 <= j < BANDS ==> sf[j] == if j < k then LessPretab(sf0)[j] else sf0[j]
    {
      sf := sf[k := if sf[k] < PRETAB[k] then 0 else sf[k] - PRETAB[k]];
    }
  }

  method HalveAll(sf0: seq<nat>) returns (sf: seq<nat>)
    ensures sf == Halved(sf0)
  {
    sf := sf0;
    for k := 0 to |sf0|
      invariant |sf| == |sf0|
      invariant forall j :: 0 <= j < |sf| ==> sf[j] == if j < k then Halved(sf0)[j] else sf0[j]
    {
      sf := sf[k := (sf[k] + 1) / 2];
    }
  }

  method ClampAll(sf0: seq<nat>) returns (sf: seq<nat>)
    ensures sf == Clamped(sf0)
  {
    sf := sf0;
    for k := 0 to |sf0|
      invariant |sf| == |sf0|
      invariant forall j :: 0 <= j < |sf| ==> sf[j] == if j < k then Clamped(sf0)[j] else sf0[j]
    {
      if sf[k] > 15 {
        sf := sf[k := 15];
      }
    }
  }

  method Amplify(judge: Judge, g: Granule, ix: Levels) returns (h: Granule)
    requires |g.scalefac| == BANDS
    ensures h == Amplified(judge, g, ix)
  {
    hide Bumped, HighNeed, LessPretab, Halved, Clamped, MaxOf;
    var preflag, scale := g.preflag, g.scale;
    var sf := Bump(judge, g, ix);
    if !preflag {
      var need := CountHighNeed(sf);
      if need >= 3 {
        preflag := true;
        sf := SubtractPretab(sf);
      }
    }
    if MaxOf(sf) > 15 && !scale {
      scale := true;
      sf := HalveAll(sf);
    }
    sf := ClampAll(sf);
    h := g.(scalefac := sf, preflag := preflag, scale := scale);
  }

  /** Amplification of a band in half steps, as the decoder will undo it. */
  function Boost(g: Granule, k: nat): nat
    requires |g.scalefac| == BANDS && k < BANDS
  {
    (if g.scale then 2 else 1) * (g.scalefac[k] + if g.preflag then PRETAB[k] else 0)
  }

  /** Moving scalefactors into the preflag or the doubled step loses no amplification; only the clamp can. */
  lemma AmplifyKeepsBoost(judge: Judge, g: Granule, ix: Levels, k: nat)
    requires |g.scalefac| == BANDS && k < BANDS
    ensures var h := Amplified(judge, g, ix);
            && h.scalefac[k] <= 15
            && (h.scalefac[k] == 15 || Boost(h, k) >= Boost(g, k) + if judge.noisy(ix, g, k) then 1 else 0)
  {
    hide HighNeed, MaxOf;
  }

  /** Without scalefactors and preflag the quantizer is flat. */
  ghost predicate FlatAtZero(qz: Quantizer)
  {
    forall gain: nat, scale: bool {:trigger qz.scaled(gain, NO_BOOST, scale, false)} ::
      qz.scaled(gain, NO_BOOST, scale, false) == qz.flat(gain)
  }

  /**
   * Where the preflag makes a difference, the decoder dequantizes with what the encoder quantized with if and
   * only if scalefactors are sent or the preflag is clear: with the preflag alone the encoder quantizes flat
   * and the decoder applies the preflag.
   */
  lemma DecoderAgrees(qz: Quantizer, g: Granule, ix: Levels, sfb: seq<nat>, gr: nat, scfsi: seq<bool>)
    requires BandTable(sfb) && |scfsi| == 4 && Coherent(qz, g, ix, sfb, gr, scfsi) && FlatAtZero(qz)
    requires qz.scaled(g.globalGain, NO_BOOST, g.scale, true) != qz.flat(g.globalGain)
    ensures ix == qz.scaled(g.globalGain, Received(g), g.scale, g.preflag) <==> g.compress != 0 || !g.preflag
  {
    hide Describes, SpectrumBits, Part2Length, Representable, Count.CountLayout;
    if g.compress != 0 {
      forall k | 0 <= k < BANDS
        ensures Received(g)[k] == g.scalefac[k]
      {
        if k < 11 { MaxOfBounds(g.scalefac[..11], k); } else { MaxOfBounds(g.scalefac[11..], k - 11); }
      }
      assert Received(g) == g.scalefac;
    } else {
      assert Received(g) == NO_BOOST;
    }
  }

  const ONES: seq<nat> := [0, 0, 0, 0, 0, 0, 0, 0, 0, 0, 0, 0, 0, 0, 0, 1, 1, 1, 1, 1, 0]
  const TWOS: seq<nat> := [0, 0, 0, 0, 0, 0, 0, 0, 0, 0, 0, 0, 0, 0, 0, 2, 2, 2, 2, 2, 0]

  /** Bands 15 to 19 are noisy: their first step is a scalefactor of 1. */
  lemma OneStep(judge: Judge, g: Granule, ix: Levels)
    requires g.scalefac == NO_BOOST && !g.preflag && !g.scale
    requires forall k: nat :: judge.noisy(ix, g, k) <==> 15 <= k < 20
    ensures Amplified(judge, g, ix) == g.(scalefac := ONES)
  {
    assert Bumped(judge, g, ix) == ONES;
    AtMost(ONES, 1);
    NoHighNeed(ONES, BANDS);
    assert Clamped(ONES) == ONES;
  }

  /** Their second step is absorbed by the preflag, which leaves no scalefactor. */
  lemma TwoSteps(judge: Judge, g: Granule, ix: Levels)
    requires g.scalefac == ONES && !g.preflag && !g.scale
    requires forall k: nat :: judge.noisy(ix, g, k) <==> 15 <= k < 20
    ensures Amplified(judge, g, ix) == g.(scalefac := NO_BOOST, preflag := true)
  {
    assert Bumped(judge, g, ix) == TWOS;
    assert HighNeed(TWOS, 16) >= 1;
    assert HighNeed(TWOS, 17) >= 2;
    assert HighNeed(TWOS, 18) >= 3;
    assert HighNeed(TWOS, 19) >= 3;
    assert HighNeed(TWOS, BANDS) >= 3;
    assert LessPretab(TWOS) == NO_BOOST;
    AtMost(NO_BOOST, 0);
    assert Clamped(NO_BOOST) == NO_BOOST;
  }

  lemma {:induction false} AtMost(v: seq<nat>, m: nat)
    requires forall k :: 0 <= k < |v| ==> v[k] <= m
    ensures MaxOf(v) <= m
  {
    if v != [] {
      AtMost(v[..|v| - 1], m);
    }
  }

  lemma {:induction false} NoHighNeed(sf: seq<nat>, n: nat)
    requires 11 <= n <= BANDS == |sf| && forall k :: 0 <= k < BANDS ==> sf[k] < 2
    ensures HighNeed(sf, n) == 0
  {
    if n > 11 {
      NoHighNeed(sf, n - 1);
    }
  }

  const NO_BOOST: seq<nat> := [0, 0, 0, 0, 0, 0, 0, 0, 0, 0, 0, 0, 0, 0, 0, 0, 0, 0, 0, 0, 0]

  const FLAT: Granule := Granule(0, Layout(0, 0, 0, 0, 0, 0, 0), 0, 0, false, false, NO_BOOST)

  /** A state the outer loop passes through. */
  datatype Snapshot = Snapshot(g: Granule, ix: Levels)

  /** What the outer loop compares: noisy bands, their worst and total excess, and the size. */
  datatype Mark = Mark(over: nat, peak: real, total: real, size: nat) {

    /** The running mark after one more band. */
    function Add(noisy: bool, excess: real): Mark
    {
      if noisy then Mark(over + 1, if excess > peak then excess else peak, total + excess, size) else this
    }

    /** Clean beats dirty, then size; among dirty ones the peak, the average and the count decide, with slack. */
    predicate Better(best: Mark)
    {
      if over == 0 then best.over > 0 || size < best.size
      else best.over > 0 && (peak < best.peak - 0.5 || (peak < best.peak + 0.5 && Milder(best)))
    }

    predicate Milder(best: Mark)
      requires over > 0 && best.over > 0
    {
      var avg, bestAvg := total / over as real, best.total / best.over as real;
      avg < bestAvg - 0.3 || (avg < bestAvg + 0.3 && over < best.over)
    }
  }

  /** The mark of a state over its first n bands. */
  function MarkOf(judge: Judge, s: Snapshot, n: nat): (m: Mark)
    ensures m.size == s.g.part23
  {
    if n == 0 then Mark(0, 0.0, 0.0, s.g.part23)
    else MarkOf(judge, s, n - 1).Add(judge.noisy(s.ix, s.g, n - 1), judge.excess(s.ix, s.g, n - 1))
  }

  /** The mark the outer loop starts from: worse than almost anything. */
  function Unmeasured(size: nat): Mark { Mark(21, 999.0, 999.0, size) }

  method Measure(judge: Judge, g: Granule, ix: Levels) returns (m: Mark)
    ensures m == MarkOf(judge, Snapshot(g, ix), BANDS)
  {
    m := Mark(0, 0.0, 0.0, g.part23);
    for k := 0 to BANDS
      invariant m == MarkOf(judge, Snapshot(g, ix), k)
    {
      m := m.Add(judge.noisy(ix, g, k), judge.excess(ix, g, k));
    }
  }

  lemma {:induction false} OverCounts(judge: Judge, s: Snapshot, n: nat)
    ensures MarkOf(judge, s, n).over == 0 <==> forall k: nat :: k < n ==> !judge.noisy(s.ix, s.g, k)
  {
    if n > 0 {
      OverCounts(judge, s, n - 1);
    }
  }

  /** What the gain search promises about a gain. */
  ghost predicate Searched(q: nat -> Levels, avail: int, sfb: seq<nat>, hint: int, gain: nat)
    requires BandTable(sfb)
  {
    && (Fits(q, avail, sfb, TOP_GAIN) ==> Fits(q, avail, sfb, gain) && Edge(q, avail, sfb, hint, gain))
    && (Fits(q, avail, sfb, gain) || gain == UNIT_GAIN)
  }

  /** The surroundings of one run of the outer loop. */
  datatype Setting = Setting(qz: Quantizer, judge: Judge, avail: int, sfb: seq<nat>, gr: nat, scfsi: seq<bool>) {

    ghost predicate Valid() { BandTable(sfb) && |scfsi| == 4 }

    ghost predicate Sound(s: Snapshot)
      requires Valid()
    {
      Coherent(qz, s.g, s.ix, sfb, gr, scfsi)
    }

    ghost predicate Clean(s: Snapshot) { forall k: nat :: k < BANDS ==> !judge.noisy(s.ix, s.g, k) }

    /** The first state: no scalefactors. */
    ghost predicate Start(s: Snapshot)
      requires Valid()
    {
      && Sound(s) && s.g.compress == 0 && !s.g.preflag && !s.g.scale && s.g.scalefac == NO_BOOST
      && Searched(qz.flat, avail, sfb, -1, s.g.globalGain)
    }

    /** The granule an iteration would quantize next: noisy bands amplified, scalefactors coded cheapest. */
    ghost predicate Tries(s: Snapshot, next: Granule)
      requires Valid()
    {
      && |s.g.scalefac| == BANDS
      && var a := Amplified(judge, s.g, s.ix);
      && next.compress < 16 && Cheapest(next.compress, a.scalefac)
      && next.scalefac == a.scalefac && next.preflag == a.preflag && next.scale == a.scale
    }

    /** One iteration: t comes from s and is within the available bits. */
    ghost predicate Advances(s: Snapshot, t: Snapshot)
      requires Valid()
    {
      && !Clean(s) && Sound(t) && t.g.part23 <= avail && Tries(s, t.g)
      && Searched(qz.At(t.g), avail - Part2Length(t.g.compress, gr, scfsi, 0), sfb, s.g.globalGain, t.g.globalGain)
    }

    /** Quantizing next at this gain, or sending its scalefactors alone, takes more than the available bits. */
    ghost predicate Refused(next: Granule, hint: int, gain: nat)
      requires Valid() && next.compress < 16
    {
      var part2 := Part2Length(next.compress, gr, scfsi, 0);
      part2 > avail || (Searched(qz.At(next), avail - part2, sfb, hint, gain)
                        && part2 + CountedBits(qz.At(next)(gain), sfb) > avail)
    }

    /** The iteration after s was refused. */
    ghost predicate Blocked(s: Snapshot)
      requires Valid()
    {
      exists next: Granule, gain: nat :: Tries(s, next) && Refused(next, s.g.globalGain, gain)
    }

    /** The states of a run, in order. */
    ghost predicate Run(trace: seq<Snapshot>)
      requires Valid()
    {
      && |trace| > 0 && Start(trace[0])
      && (forall i :: 0 <= i < |trace| - 1 ==> Advances(trace[i], trace[i + 1]))
    }

    /** The state kept and its mark once the first n states of a run are judged. */
    ghost function Kept(trace: seq<Snapshot>, n: nat): (r: (nat, Mark))
      requires n <= |trace| && |trace| > 0
      ensures r.0 < |trace|
    {
      if n == 0 then (0, Unmeasured(trace[0].g.part23))
      else
        var before, m := Kept(trace, n - 1), MarkOf(judge, trace[n - 1], BANDS);
        if m.Better(before.1) then (n - 1, m) else before
    }

    /** Why a run ends: nothing to improve, nothing left to spend, or 25 iterations. */
    ghost predicate Ends(trace: seq<Snapshot>)
      requires Valid() && Run(trace)
    {
      var last := trace[|trace| - 1];
      if !judge.active then |trace| == 1
      else |trace| <= 26 && (|trace| == 26 || Clean(last) || Blocked(last))
    }

    /** The state a finished run leaves behind. */
    ghost predicate Leaves(trace: seq<Snapshot>, g: Granule, ix: seq<int>)
      requires Valid()
    {
      && Run(trace) && Ends(trace)
      && var best := trace[Kept(trace, Min(|trace|, 25)).0]; best.g == g && best.ix == ix
    }

    /** What the outer loop may return. */
    ghost predicate Yields(g: Granule, ix: seq<int>)
      requires Valid()
    {
      exists trace :: Leaves(trace, g, ix)
    }
  }

  /** The flat quantization mp3enc_outer_loop starts from. */
  method Begin(st: Setting) returns (s: Snapshot)
    requires st.Valid()
    ensures st.Start(s) && st.Sound(s) && (Fits(st.qz.flat, st.avail, st.sfb, TOP_GAIN) ==> s.g.part23 <= st.avail)
  {
    hide Count.CountLayout, Describes, SpectrumBits, Fits, Part2Length, Representable, Edge;
    var gain, ix, l, bits := InnerLoop(st.qz.flat, st.avail, st.sfb, -1);
    FlatIsSound(st.gr, st.scfsi);
    s := Snapshot(FLAT.(part23 := bits, globalGain := gain, layout := l), ix);
  }

  /** One iteration of mp3enc_outer_loop, from the granule amplified to the test of its size. */
  method Iterate(st: Setting, s: Snapshot) returns (more: bool, t: Snapshot)
    requires st.Valid() && st.Sound(s) && !st.Clean(s)
    ensures if more then st.Advances(s, t) && st.Sound(t) && t.g.part23 <= st.avail else st.Blocked(s)
  {
    hide Count.CountLayout, Describes, SpectrumBits, Fits, Part2Length, Representable, Setting.Clean, Amplified, Edge,
         Cheapest, Setting.Tries;
    var next := Amplify(st.judge, s.g, s.ix);
    var c := BestCompress(next.scalefac);
    CheapestFits(c, next.scalefac);
    next := next.(compress := c);
    Tried(st, s, next);
    var part2 := Part2Length(c, st.gr, st.scfsi, 0);
    if st.avail - part2 < 0 {
      assert st.Refused(next, s.g.globalGain, 0);
      return false, s;
    }
    var gain, ix, l, huff := InnerLoop(st.qz.At(next), st.avail - part2, st.sfb, s.g.globalGain);
    if part2 + huff > st.avail {
      assert st.Refused(next, s.g.globalGain, gain);
      return false, s;
    }
    t := Snapshot(next.(globalGain := gain, layout := l, part23 := part2 + huff), ix);
    Tried(st, s, t.g);
    assert st.qz.At(t.g) == st.qz.At(next);
    assert Searched(st.qz.At(t.g), st.avail - part2, st.sfb, s.g.globalGain, gain);
    return true, t;
  }

  lemma Tried(st: Setting, s: Snapshot, next: Granule)
    requires st.Valid() && |s.g.scalefac| == BANDS && next.compress < 16
    requires var a := Amplified(st.judge, s.g, s.ix);
             && next.scalefac == a.scalefac && next.preflag == a.preflag && next.scale == a.scale
             && Cheapest(next.compress, a.scalefac)
    ensures st.Tries(s, next)
  {
    hide Amplified, Cheapest;
  }

  /**
   * mp3enc_outer_loop. The result is a snapshot in which gain, scalefactors, layout, size and spectrum
   * belong together, and it stays within the available bits whenever the flat quantizer fits at gain 255.
   * It is a state of the iteration, and the clean one when there is one.
   */
  method OuterLoop(qz: Quantizer, judge: Judge, avail: int, sfb: seq<nat>, gr: nat, scfsi: seq<bool>)
    returns (g: Granule, ix: Levels, ghost trace: seq<Snapshot>)
    requires BandTable(sfb) && |scfsi| == 4
    ensures Coherent(qz, g, ix, sfb, gr, scfsi)
    ensures Fits(qz.flat, avail, sfb, TOP_GAIN) ==> g.part23 <= avail
    ensures Setting(qz, judge, avail, sfb, gr, scfsi).Leaves(trace, g, ix)
  {
    hide Count.CountLayout, Describes, SpectrumBits, Fits, Part2Length, Representable, Setting.Clean, Amplified, Edge,
         Setting.Run, Setting.Ends, Setting.Advances, Cheapest, Coherent, MarkOf, Mark.Better, Searched;
    var st := Setting(qz, judge, avail, sfb, gr, scfsi);
    var start := Begin(st);
    var gi, cur := start.g, start.ix;
    g, ix, trace := gi, cur, [Snapshot(gi, cur)];
    RunStarts(st, Snapshot(gi, cur));
    if !judge.active {
      RunEnds(st, trace);
      return;
    }
    ghost var limit := Count.Max(gi.part23, if avail < 0 then 0 else avail);
    var best := Unmeasured(gi.part23);
    var iter := 0;
    while iter < 25
      invariant 0 <= iter <= 25
      invariant st.Sound(Snapshot(gi, cur)) && st.Sound(Snapshot(g, ix))
      invariant g.part23 <= limit && gi.part23 <= limit
      invariant st.Run(trace) && |trace| == iter + 1 && trace[iter] == Snapshot(gi, cur)
      invariant var kept := st.Kept(trace, iter); trace[kept.0] == Snapshot(g, ix) && kept.1 == best
    {
      var m := Measure(judge, gi, cur);
      CleanIsZero(st, Snapshot(gi, cur));
      if m.Better(best) {
        g, ix, best := gi, cur, m;
      }
      if m.over == 0 {
        RunEnds(st, trace);
        return;
      }
      var more, t := Iterate(st, Snapshot(gi, cur));
      if !more {
        RunEnds(st, trace);
        return;
      }
      RunMore(st, trace, t);
      KeptStable(st, trace, t, iter + 1);
      gi, cur := t.g, t.ix;
      trace := trace + [t];
      iter := iter + 1;
    }
    RunEnds(st, trace);
  }

  lemma CleanIsZero(st: Setting, s: Snapshot)
    ensures MarkOf(st.judge, s, BANDS).over == 0 <==> st.Clean(s)
  {
    OverCounts(st.judge, s, BANDS);
  }

  lemma {:induction false} KeptStable(st: Setting, trace: seq<Snapshot>, t: Snapshot, n: nat)
    requires n <= |trace| && |trace| > 0
    ensures st.Kept(trace + [t], n) == st.Kept(trace, n)
  {
    hide Mark.Better;
    if n > 0 {
      KeptStable(st, trace, t, n - 1);
    }
  }

  /**
   * What is kept: no state judged after it is better, and when the last state judged is the only clean
   * one, that one.
   */
  lemma {:induction false} KeptIsBest(st: Setting, trace: seq<Snapshot>, n: nat)
    requires 0 < n <= |trace|
    ensures var kept := st.Kept(trace, n);
            && (kept.1 == MarkOf(st.judge, trace[kept.0], BANDS) || kept == (0, Unmeasured(trace[0].g.part23)))
            && (forall j :: kept.0 < j < n ==> !MarkOf(st.judge, trace[j], BANDS).Better(kept.1))
            && (kept.1.over == 0 ==> st.Clean(trace[kept.0]))
            && ((exists j :: 0 <= j < n && st.Clean(trace[j])) ==> kept.1.over == 0)
  {
    hide MarkOf, Mark.Milder, Setting.Clean;
    var m := MarkOf(st.judge, trace[n - 1], BANDS);
    CleanIsZero(st, trace[n - 1]);
    if n > 1 {
      KeptIsBest(st, trace, n - 1);
    }
  }

  lemma FlatIsSound(gr: nat, scfsi: seq<bool>)
    requires |scfsi| == 4
    ensures Representable(0, FLAT.scalefac) && Part2Length(0, gr, scfsi, 0) == 0
  {
    assert Part2Length(0, gr, scfsi, 3) == 0;
    assert Part2Length(0, gr, scfsi, 1) == 0;
  }

  lemma CheapestFits(c: nat, scalefac: seq<nat>)
    requires c < 16 && |scalefac| == BANDS && Cheapest(c, scalefac)
    ensures c == 0 || Holds(c, MaxOf(scalefac[..11]), MaxOf(scalefac[11..]))
    ensures Representable(c, scalefac)
  {
    hide Representable;
    BestIsRepresentable(scalefac, c);
  }

  lemma RunStarts(st: Setting, s: Snapshot)
    requires st.Valid() && st.Start(s)
    ensures st.Run([s])
  {
    hide Fits, Edge;
  }

  lemma RunEnds(st: Setting, trace: seq<Snapshot>)
    requires st.Valid() && st.Run(trace) && |trace| <= 26
    requires |trace| == 26 || st.Clean(trace[|trace| - 1]) || st.Blocked(trace[|trace| - 1]) || !st.judge.active
    requires !st.judge.active ==> |trace| == 1
    ensures st.Ends(trace)
  {
    hide Coherent, Fits, Edge, Setting.Clean;
  }

  lemma RunMore(st: Setting, trace: seq<Snapshot>, t: Snapshot)
    requires st.Valid() && st.Run(trace)
    requires st.Advances(trace[|trace| - 1], t)
    ensures st.Run(trace + [t])
  {
    hide Coherent, Fits, Edge, Setting.Advances, Searched, Setting.Clean, Part2Length, Setting.Tries, Setting.Start;
    var more := trace + [t];
    forall i | 0 <= i < |more| - 1
      ensures st.Advances(more[i], more[i + 1])
    {
      if i < |trace| - 1 { assert st.Advances(trace[i], trace[i + 1]); }
    }
  }
}
