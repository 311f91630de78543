/**
 * Two runs of the scalefactor loop of mp3/mp3enc-quant.h that end badly: one returns a granule whose preflag
 * the decoder applies and the encoder did not, the other needs a scalefactor no compress value has room for.
 */
module QuantRuns {
  import opened Bits
  import opened Huff
  import opened Spectrum
  import opened Granules
  import opened Quant
  import Count

  const NONE_SHARED: seq<bool> := [false, false, false, false]

  /** Silence at every gain, except that the preflag turns it into a click. */
  function Click(preflag: bool): (ix: Levels)
  {
    if preflag then Zeros(LINES)[0 := 1] else Zeros(LINES)
  }

  function Silent(): Quantizer
  {
    Quantizer((gain: nat) => Click(false), (gain: nat, sf: seq<nat>, scale: bool, preflag: bool) => Click(preflag))
  }

  /** A run over silence with bits enough; excess is the same in every noisy band. */
  ghost function RunOver(noisy: (Levels, Granule, nat) -> bool, sfb: seq<nat>): (st: Setting)
    requires BandTable(sfb)
    ensures st.Valid()
  {
    Setting(Silent(), Judge(true, noisy, (v, g, k) => 1.0), CountedBits(Click(false), sfb) + 100, sfb, 0, NONE_SHARED)
  }

  /** A state of such a run. */
  ghost function At(sfb: seq<nat>, compress: nat, preflag: bool, sf: seq<nat>): Snapshot
    requires BandTable(sfb) && compress < 16
  {
    Snapshot(Granule(Part2Length(compress, 0, NONE_SHARED, 0) + CountedBits(Click(false), sfb),
                     Count.CountLayout(Click(false), sfb), 0, compress, preflag, false, sf), Click(false))
  }

  lemma Part2Small(compress: nat)
    requires compress < 16
    ensures Part2Length(compress, 0, NONE_SHARED, 0) <= 100
    ensures Part2Length(0, 0, NONE_SHARED, 0) == 0
  {
    assert Part2Length(compress, 0, NONE_SHARED, 3) == 5 * SLEN2[compress];
    assert Part2Length(compress, 0, NONE_SHARED, 2) == 10 * SLEN2[compress];
    assert Part2Length(compress, 0, NONE_SHARED, 1) == 5 * SLEN1[compress] + 10 * SLEN2[compress];
    assert Part2Length(0, 0, NONE_SHARED, 1) == 0;
  }

  /** Silence fits at gain 0 whatever scalefactors are sent. */
  lemma FitsAtZero(sfb: seq<nat>, avail: int, q: nat -> Levels, hint: int)
    requires BandTable(sfb) && avail >= CountedBits(Click(false), sfb) && q(0) == Click(false)
    ensures Searched(q, avail, sfb, hint, 0)
  {
    hide CountedBits;
  }

  lemma AtSound(st: Setting, noisy: (Levels, Granule, nat) -> bool, sfb: seq<nat>, compress: nat, preflag: bool,
                sf: seq<nat>)
    requires BandTable(sfb) && st == RunOver(noisy, sfb) && compress < 16 && |sf| == BANDS
    requires Cheapest(compress, sf) && (compress != 0 ==> !preflag)
    ensures st.Sound(At(sfb, compress, preflag, sf)) && At(sfb, compress, preflag, sf).g.part23 <= st.avail
  {
    hide SpectrumBits, Part2Length, Count.CountLayout, Describes, Representable, Cheapest;
    CheapestFits(compress, sf);
    Part2Small(compress);
    Count.CountDescribes(Click(false), sfb);
  }

  lemma Starts(st: Setting, noisy: (Levels, Granule, nat) -> bool, sfb: seq<nat>)
    requires BandTable(sfb) && st == RunOver(noisy, sfb)
    ensures st.Start(At(sfb, 0, false, NO_BOOST))
  {
    hide CountedBits, Cheapest, Coherent, Searched;
    NoneCheapest();
    AtSound(st, noisy, sfb, 0, false, NO_BOOST);
    FitsAtZero(sfb, st.avail, st.qz.flat, -1);
  }

  /** One iteration between two such states. */
  lemma Steps(st: Setting, noisy: (Levels, Granule, nat) -> bool, sfb: seq<nat>, s: Snapshot, compress: nat,
              preflag: bool, sf: seq<nat>)
    requires BandTable(sfb) && st == RunOver(noisy, sfb) && compress < 16 && |sf| == |s.g.scalefac| == BANDS
    requires Cheapest(compress, sf) && (compress != 0 ==> !preflag) && !st.Clean(s) && s.g.globalGain == 0
    requires var a := Amplified(st.judge, s.g, s.ix); a.scalefac == sf && a.preflag == preflag && !a.scale
    ensures st.Advances(s, At(sfb, compress, preflag, sf))
  {
    hide CountedBits, Cheapest, Coherent, Searched, Amplified, Part2Length, Setting.Clean, Setting.Sound, Setting.Tries,
         Count.CountLayout, Click;
    var t := At(sfb, compress, preflag, sf);
    AtSound(st, noisy, sfb, compress, preflag, sf);
    Part2Small(compress);
    Tried(st, s, t.g);
    FitsAtZero(sfb, st.avail - Part2Length(compress, 0, NONE_SHARED, 0), st.qz.At(t.g), s.g.globalGain);
  }

  lemma NoneCheapest()
    ensures Cheapest(0, NO_BOOST)
  {
    AtMost(NO_BOOST[..11], 0);
    AtMost(NO_BOOST[11..], 0);
  }

  /** Of a run of dirty states and then a clean one the clean one is kept. */
  lemma CleanKept(st: Setting, trace: seq<Snapshot>)
    requires st.Valid() && st.Run(trace) && st.judge.active && 1 < |trace| <= 25
    requires st.Clean(trace[|trace| - 1])
    ensures st.Leaves(trace, trace[|trace| - 1].g, trace[|trace| - 1].ix)
  {
    hide Setting.Clean, Coherent, Fits, Edge, Setting.Tries, Part2Length, Setting.Sound, Setting.Start;
    RunEnds(st, trace);
    KeptIsBest(st, trace, |trace|);
    forall i | 0 <= i < |trace| - 1 ensures !st.Clean(trace[i]) { assert st.Advances(trace[i], trace[i + 1]); }
  }

  /** Bands 15 to 19 stay noisy until the preflag is set. */
  function Stubborn(): (Levels, Granule, nat) -> bool { (v: Levels, g: Granule, k: nat) => 15 <= k < 20 && !g.preflag }

  lemma OnesCheapest()
    ensures Cheapest(1, ONES)
  {
    AtMost(ONES[..11], 0);
    AtMost(ONES[11..], 1);
    MaxOfBounds(ONES[11..], 4);
  }

  /**
   * The scalefactor loop can return a granule with the preflag but no scalefactors, and a decoder then
   * dequantizes something else than what the encoder quantized.
   */
  lemma PreflagReached(sfb: seq<nat>)
    requires BandTable(sfb)
    ensures exists st: Setting, g: Granule, ix: Levels ::
              && st.Valid() && st.sfb == sfb && FlatAtZero(st.qz) && st.Yields(g, ix)
              && g.preflag && g.compress == 0 && |g.scalefac| == BANDS
              && ix != st.qz.scaled(g.globalGain, Received(g), g.scale, g.preflag)
  {
    hide CountedBits, Cheapest, Coherent, Searched, Amplified, Part2Length, Setting.Advances, Setting.Start,
         Setting.Leaves, Count.CountLayout;
    var st := RunOver(Stubborn(), sfb);
    var s0, s1, s2 := At(sfb, 0, false, NO_BOOST), At(sfb, 1, false, ONES), At(sfb, 0, true, NO_BOOST);
    Starts(st, Stubborn(), sfb);
    NoneCheapest();
    OnesCheapest();
    OneStep(st.judge, s0.g, s0.ix);
    assert st.judge.noisy(s0.ix, s0.g, 15) && st.judge.noisy(s1.ix, s1.g, 15);
    Steps(st, Stubborn(), sfb, s0, 1, false, ONES);
    TwoSteps(st.judge, s1.g, s1.ix);
    Steps(st, Stubborn(), sfb, s1, 0, true, NO_BOOST);
    var trace := [s0, s1, s2];
    assert st.Run(trace);
    CleanKept(st, trace);
    assert st.Yields(s2.g, s2.ix);
    assert Click(false)[0] == 0 && Click(true)[0] == 1;
  }

  /** Band 20 stays noisy until its scalefactor is 8. */
  function Greedy(): (Levels, Granule, nat) -> bool
  {
    (v: Levels, g: Granule, k: nat) => k == 20 && |g.scalefac| == BANDS && g.scalefac[20] < 8
  }

  function Compress(n: nat): (c: nat)
    ensures c < 16
  {
    if n == 0 || n > 7 then 0 else if n == 1 then 1 else if n < 4 then 2 else 3
  }

  lemma HighCheapest(n: nat)
    requires n <= 8
    ensures Cheapest(Compress(n), NO_BOOST[20 := n])
  {
    var sf := NO_BOOST[20 := n];
    AtMost(sf[..11], 0);
    AtMost(sf[11..], n);
    MaxOfBounds(sf[11..], 9);
    assert Pow2(1) == 2 && Pow2(2) == 4 && Pow2(3) == 8;
    WhenHeld(0, n);
  }

  /** One more step in band 20: neither the preflag nor the doubled step is called for. */
  lemma HighStep(judge: Judge, g: Granule, ix: Levels, n: nat)
    requires n < 8 && g.scalefac == NO_BOOST[20 := n] && !g.preflag && !g.scale && judge.noisy == Greedy()
    ensures Amplified(judge, g, ix) == g.(scalefac := NO_BOOST[20 := n + 1])
  {
    var sf := NO_BOOST[20 := n + 1];
    assert Bumped(judge, g, ix) == sf;
    LowNeed(sf, 20);
    AtMost(sf, n + 1);
    assert Clamped(sf) == sf;
  }

  lemma {:induction false} LowNeed(sf: seq<nat>, n: nat)
    requires 11 <= n <= 20 && |sf| == BANDS && forall k :: 0 <= k < 20 ==> sf[k] < 2
    ensures HighNeed(sf, n) == 0
  {
    if n > 11 {
      LowNeed(sf, n - 1);
    }
  }

  ghost function High(sfb: seq<nat>, n: nat): Snapshot
    requires BandTable(sfb)
  {
    At(sfb, Compress(n), false, NO_BOOST[20 := n])
  }

  lemma {:induction false} HighRun(st: Setting, sfb: seq<nat>, n: nat) returns (trace: seq<Snapshot>)
    requires BandTable(sfb) && st == RunOver(Greedy(), sfb) && n <= 8
    ensures |trace| == n + 1 && st.Run(trace) && trace[n] == High(sfb, n)
  {
    hide CountedBits, Cheapest, Coherent, Searched, Amplified, Part2Length, Setting.Advances, Setting.Start,
         Count.CountLayout;
    if n == 0 {
      Starts(st, Greedy(), sfb);
      assert NO_BOOST[20 := 0] == NO_BOOST;
      trace := [High(sfb, 0)];
    } else {
      var before := HighRun(st, sfb, n - 1);
      var s := High(sfb, n - 1);
      HighCheapest(n);
      assert st.judge.noisy(s.ix, s.g, 20);
      HighStep(st.judge, s.g, s.ix, n - 1);
      Steps(st, Greedy(), sfb, s, Compress(n), false, NO_BOOST[20 := n]);
      trace := before + [High(sfb, n)];
      RunMore(st, before, High(sfb, n));
    }
  }

  /**
   * The scalefactor loop can return a granule in which a high band needs a scalefactor above 7. No compress
   * value has room for it, so no scalefactor at all is sent and the spectrum is quantized flat.
   */
  lemma HighScalefactorReached(sfb: seq<nat>)
    requires BandTable(sfb)
    ensures exists st: Setting, g: Granule, ix: Levels ::
              && st.Valid() && st.sfb == sfb && st.Yields(g, ix) && |g.scalefac| == BANDS
              && g.scalefac[20] == 8 && g.compress == 0 && Received(g) == NO_BOOST
              && ix == st.qz.flat(g.globalGain)
  {
    hide CountedBits, Cheapest, Coherent, Searched, Amplified, Part2Length, Setting.Run, Setting.Leaves,
         Count.CountLayout;
    var st := RunOver(Greedy(), sfb);
    var trace := HighRun(st, sfb, 8);
    var s := trace[8];
    CleanKept(st, trace);
    assert st.Yields(s.g, s.ix);
    assert Received(s.g) == NO_BOOST;
  }
}
