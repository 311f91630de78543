/**
 * Which state the scalefactor loop of mp3/mp3enc-quant.h keeps, said of the noise alone: which bands are over
 * their threshold and by how much.
 */
module QuantChoice {
  import opened Huff
  import opened Granules
  import opened Quant

  predicate Over(judge: Judge, s: Snapshot, k: nat) { k < BANDS && judge.noisy(s.ix, s.g, k) }

  /** The bands over their threshold. */
  function NoisyBands(judge: Judge, s: Snapshot): set<nat> { set k: nat | k < BANDS && Over(judge, s, k) }

  /** w is the worst excess of a noisy band, or 0 when none is above. */
  ghost predicate Worst(judge: Judge, s: Snapshot, w: real)
  {
    && w >= 0.0
    && (forall k: nat :: Over(judge, s, k) ==> judge.excess(s.ix, s.g, k) <= w)
    && (w == 0.0 || exists k: nat :: Over(judge, s, k) && judge.excess(s.ix, s.g, k) == w)
  }

  /** Sum of the excesses of the first n bands that are noisy. */
  function Sum(judge: Judge, s: Snapshot, n: nat): real
  {
    if n == 0 then 0.0 else Sum(judge, s, n - 1) + if Over(judge, s, n - 1) then judge.excess(s.ix, s.g, n - 1) else 0.0
  }

  /** Average excess of a noisy state. */
  function Average(judge: Judge, s: Snapshot): real
    requires NoisyBands(judge, s) != {}
  {
    Sum(judge, s, BANDS) / |NoisyBands(judge, s)| as real
  }

  function FirstBands(judge: Judge, s: Snapshot, n: nat): set<nat> { set k: nat | k < n && Over(judge, s, k) }

  /** What a mark over the first n bands counts. */
  lemma {:induction false} MarkCounts(judge: Judge, s: Snapshot, n: nat)
    requires n <= BANDS
    ensures var m := MarkOf(judge, s, n);
            && m.over == |FirstBands(judge, s, n)| && m.total == Sum(judge, s, n) && m.peak >= 0.0
            && (forall k: nat :: k < n && Over(judge, s, k) ==> judge.excess(s.ix, s.g, k) <= m.peak)
            && (m.peak == 0.0 || exists k: nat :: k < n && Over(judge, s, k) && judge.excess(s.ix, s.g, k) == m.peak)
  {
    if n == 0 {
      assert FirstBands(judge, s, 0) == {};
    } else {
      MarkCounts(judge, s, n - 1);
      if Over(judge, s, n - 1) {
        assert FirstBands(judge, s, n) == FirstBands(judge, s, n - 1) + {n - 1};
      } else {
        assert FirstBands(judge, s, n) == FirstBands(judge, s, n - 1);
      }
      var m, b := MarkOf(judge, s, n), MarkOf(judge, s, n - 1);
      if m.peak != b.peak {
        assert Over(judge, s, n - 1) && judge.excess(s.ix, s.g, n - 1) == m.peak;
      }
    }
  }

  /** A state's mark is its noisy bands, their worst excess and the sum. */
  lemma MarkIs(judge: Judge, s: Snapshot, w: real)
    requires Worst(judge, s, w)
    ensures var m := MarkOf(judge, s, BANDS);
            && m.over == |NoisyBands(judge, s)| && m.total == Sum(judge, s, BANDS) && m.peak == w
            && m.size == s.g.part23
  {
    hide MarkOf;
    MarkCounts(judge, s, BANDS);
    assert FirstBands(judge, s, BANDS) == NoisyBands(judge, s);
  }

  lemma DirtyNoisy(st: Setting, s: Snapshot)
    ensures st.Clean(s) <==> NoisyBands(st.judge, s) == {}
  {
    if !st.Clean(s) {
      var k: nat :| k < BANDS && st.judge.noisy(s.ix, s.g, k);
      assert Over(st.judge, s, k) && k in NoisyBands(st.judge, s);
    } else {
      assert forall k: nat :: !Over(st.judge, s, k);
    }
  }

  /** The first n states were judged, all dirty, with these worst excesses; none absurdly large. */
  ghost predicate Judged(st: Setting, trace: seq<Snapshot>, n: nat, w: seq<real>)
  {
    && 0 < n <= |trace| && |w| == n
    && forall i :: 0 <= i < n ==> Worst(st.judge, trace[i], w[i]) && !st.Clean(trace[i]) && w[i] < 998.5
  }

  /** The kept state and its mark, once something was judged. */
  lemma {:induction false} KeptMark(st: Setting, trace: seq<Snapshot>, n: nat, w: seq<real>)
    requires Judged(st, trace, n, w)
    ensures var kept := st.Kept(trace, n); kept.0 < n && kept.1 == MarkOf(st.judge, trace[kept.0], BANDS)
  {
    hide MarkOf, Setting.Clean, Worst, Mark.Milder;
    MarkIs(st.judge, trace[n - 1], w[n - 1]);
    OverOne(st, trace[n - 1], w[n - 1]);
    if n > 1 {
      KeptMark(st, trace, n - 1, w[..n - 1]);
    } else {
      assert st.Kept(trace, 0) == (0, Unmeasured(trace[0].g.part23));
    }
  }

  lemma OverOne(st: Setting, s: Snapshot, w: real)
    requires Worst(st.judge, s, w) && !st.Clean(s)
    ensures MarkOf(st.judge, s, BANDS).over > 0 && MarkOf(st.judge, s, BANDS).peak == w
  {
    hide MarkOf, Worst, Setting.Clean;
    MarkIs(st.judge, s, w);
    DirtyNoisy(st, s);
  }

  /** One more dirty state: far below in its worst excess it is taken, far above not. */
  lemma FarApart(st: Setting, trace: seq<Snapshot>, n: nat, w: seq<real>)
    requires Judged(st, trace, n + 1, w) && n > 0
    ensures var k := st.Kept(trace, n).0;
            && k < n
            && (w[n] < w[k] - 0.5 ==> st.Kept(trace, n + 1).0 == n)
            && (w[n] >= w[k] + 0.5 ==> st.Kept(trace, n + 1).0 == k)
  {
    hide MarkOf, Setting.Clean, Worst, Mark.Milder;
    KeptMark(st, trace, n, w[..n]);
    OverOne(st, trace[n], w[n]);
    var k := st.Kept(trace, n).0;
    OverOne(st, trace[k], w[k]);
  }

  /** Among worst excesses within half a decibel the average decides, with a slack of 0.3, then the number of bands. */
  lemma CloseCall(st: Setting, trace: seq<Snapshot>, n: nat, w: seq<real>)
    requires Judged(st, trace, n + 1, w) && n > 0
    requires (KeptMark(st, trace, n, w[..n]); var k := st.Kept(trace, n).0; w[k] - 0.5 <= w[n] < w[k] + 0.5)
    ensures var k := st.Kept(trace, n).0;
            && k < n && NoisyBands(st.judge, trace[k]) != {} && NoisyBands(st.judge, trace[n]) != {}
            && var a, b := Average(st.judge, trace[n]), Average(st.judge, trace[k]);
            st.Kept(trace, n + 1).0
            == if || a < b - 0.3
                  || (a < b + 0.3 && |NoisyBands(st.judge, trace[n])| < |NoisyBands(st.judge, trace[k])|) then n
               else k
  {
    hide MarkOf, Setting.Clean, Worst;
    KeptMark(st, trace, n, w[..n]);
    var k := st.Kept(trace, n).0;
    DirtyNoisy(st, trace[n]);
    DirtyNoisy(st, trace[k]);
    MarkIs(st.judge, trace[n], w[n]);
    MarkIs(st.judge, trace[k], w[k]);
    hide NoisyBands, Sum;
  }

  /** A dirty state whose worst excess is more than half a decibel below all others' is the one kept. */
  lemma {:induction false} MildestKept(st: Setting, trace: seq<Snapshot>, n: nat, w: seq<real>, j: nat)
    requires Judged(st, trace, n, w) && j < n && forall i :: 0 <= i < n && i != j ==> w[j] < w[i] - 0.5
    ensures st.Kept(trace, n).0 == j
  {
    hide Setting.Clean, Setting.Kept, Worst;
    KeptMark(st, trace, n, w);
    if n > 1 {
      var v := w[..n - 1];
      FarApart(st, trace, n - 1, w);
      if j < n - 1 {
        MildestKept(st, trace, n - 1, v, j);
      }
    }
  }

  /** No dirty state judged after the kept one is more than half a decibel below it. */
  lemma {:induction false} NoneMilderLater(st: Setting, trace: seq<Snapshot>, n: nat, w: seq<real>)
    requires Judged(st, trace, n, w)
    ensures st.Kept(trace, n).0 < n
    ensures forall i :: st.Kept(trace, n).0 < i < n ==> w[i] >= w[st.Kept(trace, n).0] - 0.5
  {
    hide Setting.Clean, Worst, MarkOf, Mark.Better;
    KeptMark(st, trace, n, w);
    if n > 1 {
      NoneMilderLater(st, trace, n - 1, w[..n - 1]);
      FarApart(st, trace, n - 1, w);
    }
  }

  /** What the loop returns when it never gets clean and one state's worst excess is well below all others'. */
  lemma MildestReturned(st: Setting, trace: seq<Snapshot>, g: Granule, ix: Levels, w: seq<real>, j: nat)
    requires st.Valid() && st.Leaves(trace, g, ix)
    requires Judged(st, trace, Min(|trace|, 25), w) && j < |w|
    requires forall i :: 0 <= i < |w| && i != j ==> w[j] < w[i] - 0.5
    ensures Snapshot(g, ix) == trace[j]
  {
    hide Setting.Run, Setting.Ends, Setting.Kept, Setting.Clean, Worst;
    MildestKept(st, trace, Min(|trace|, 25), w, j);
  }

  /** A clean state is returned whenever the loop judges one. */
  lemma CleanReturned(st: Setting, trace: seq<Snapshot>, g: Granule, ix: Levels, j: nat)
    requires st.Valid() && st.Leaves(trace, g, ix) && j < Min(|trace|, 25) && st.Clean(trace[j])
    ensures Snapshot(g, ix) == trace[j]
  {
    hide Setting.Ends, Setting.Clean, Setting.Kept, Setting.Sound, Setting.Tries, Setting.Start, Fits, Edge,
         Part2Length;
    var n := Min(|trace|, 25);
    KeptIsBest(st, trace, n);
    forall i | 0 <= i < |trace| - 1 ensures !st.Clean(trace[i]) { assert st.Advances(trace[i], trace[i + 1]); }
  }

  /** A band's scalefactor after one step of amplification. */
  function Raised(judge: Judge, s: Snapshot, k: nat): nat
    requires k < BANDS == |s.g.scalefac|
  {
    s.g.scalefac[k] + if Over(judge, s, k) then 1 else 0
  }

  /** High bands that the preflag would amplify and that have come to 2 or more. */
  function HighBands(judge: Judge, s: Snapshot): set<nat>
    requires |s.g.scalefac| == BANDS
  {
    set k: nat | 11 <= k < BANDS && Raised(judge, s, k) >= 2 && PRETAB[k] > 0
  }

  /** A band's scalefactor once the preflag has taken over its share. */
  function Eased(judge: Judge, s: Snapshot, k: nat): nat
    requires k < BANDS == |s.g.scalefac|
  {
    var v := Raised(judge, s, k);
    if s.g.preflag || |HighBands(judge, s)| < 3 then v else if v < PRETAB[k] then 0 else v - PRETAB[k]
  }

  lemma {:induction false} NeedCounts(sf: seq<nat>, n: nat)
    requires 11 <= n <= BANDS == |sf|
    ensures HighNeed(sf, n) == |set k: nat | 11 <= k < n && sf[k] >= 2 && PRETAB[k] > 0|
  {
    var all := set k: nat | 11 <= k < n && sf[k] >= 2 && PRETAB[k] > 0;
    if n == 11 {
      assert all == {};
    } else {
      NeedCounts(sf, n - 1);
      var before := set k: nat | 11 <= k < n - 1 && sf[k] >= 2 && PRETAB[k] > 0;
      assert all == if sf[n - 1] >= 2 && PRETAB[n - 1] > 0 then before + {n - 1} else before;
    }
  }

  lemma {:induction false} MaxAbove(v: seq<nat>, m: nat)
    ensures MaxOf(v) > m <==> exists k :: 0 <= k < |v| && v[k] > m
  {
    if v != [] {
      var front := v[..|v| - 1];
      MaxAbove(front, m);
      assert forall k :: 0 <= k < |front| ==> front[k] == v[k];
    }
  }

  /** The granule one iteration tries, band by band: who is raised, when the preflag and the doubled step come in. */
  lemma AmplifiedBands(judge: Judge, s: Snapshot)
    requires |s.g.scalefac| == BANDS
    ensures var a := Amplified(judge, s.g, s.ix);
            var wide := exists k :: 0 <= k < BANDS && Eased(judge, s, k) > 15;
            && (a.preflag <==> s.g.preflag || |HighBands(judge, s)| >= 3)
            && (a.scale <==> s.g.scale || wide)
            && forall k :: 0 <= k < BANDS ==>
                 var v := if !s.g.scale && wide then (Eased(judge, s, k) + 1) / 2 else Eased(judge, s, k);
                 a.scalefac[k] == if v > 15 then 15 else v
  {
    hide HighNeed, MaxOf;
    var sf := Bumped(judge, s.g, s.ix);
    NeedCounts(sf, BANDS);
    assert forall k :: 0 <= k < BANDS ==> sf[k] == Raised(judge, s, k);
    assert HighBands(judge, s) == set k: nat | 11 <= k < BANDS && sf[k] >= 2 && PRETAB[k] > 0;
    var eased := if !s.g.preflag && HighNeed(sf, BANDS) >= 3 then LessPretab(sf) else sf;
    forall k | 0 <= k < BANDS ensures eased[k] == Eased(judge, s, k) { }
    MaxAbove(eased, 15);
  }
}
