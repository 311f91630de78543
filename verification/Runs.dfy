/**
 * Runs of the constrained decoder of src/metadata-fsm.h: one mask and one update per token, and the order of
 * the fields.
 */
module Runs {
  import opened Utf8
  import opened Fsm

  /** One mask and one update. */
  function Step(cfg: Config, m: Machine, t: int): Machine { Updated(cfg, Loaded(cfg, m), t) }

  /** The machine after some tokens, from m on. */
  function Run(cfg: Config, m: Machine, toks: seq<int>): Machine
  {
    if toks == [] then m else Step(cfg, Run(cfg, m, toks[..|toks| - 1]), toks[|toks| - 1])
  }

  /** Every token was left unmasked when it was chosen. */
  predicate AllLet(cfg: Config, m: Machine, toks: seq<int>)
  {
    toks == [] ||
    (AllLet(cfg, m, toks[..|toks| - 1]) && Lets(cfg, Run(cfg, m, toks[..|toks| - 1]), toks[|toks| - 1]))
  }

  /** The machine after some tokens. */
  function After(cfg: Config, toks: seq<int>): Machine { Run(cfg, START, toks) }

  predicate Permitted(cfg: Config, toks: seq<int>) { AllLet(cfg, START, toks) }

  lemma RunMore(cfg: Config, m: Machine, toks: seq<int>, t: int)
    ensures Run(cfg, m, toks + [t]) == Step(cfg, Run(cfg, m, toks), t)
    ensures AllLet(cfg, m, toks + [t]) <==> AllLet(cfg, m, toks) && Lets(cfg, Run(cfg, m, toks), t)
  {
    assert (toks + [t])[..|toks|] == toks;
    hide Step, Lets;
  }

  lemma RunNone(cfg: Config, m: Machine)
    ensures Run(cfg, m, []) == m && AllLet(cfg, m, [])
  {
  }

  lemma {:induction false} RunConcat(cfg: Config, m: Machine, a: seq<int>, b: seq<int>)
    ensures Run(cfg, m, a + b) == Run(cfg, Run(cfg, m, a), b)
    ensures AllLet(cfg, m, a + b) <==> AllLet(cfg, m, a) && AllLet(cfg, Run(cfg, m, a), b)
  {
    hide Run, AllLet;
    if b == [] {
      assert a + b == a;
      RunNone(cfg, Run(cfg, m, a));
    } else {
      var n := |b| - 1;
      assert a + b == (a + b[..n]) + [b[n]] && b == b[..n] + [b[n]];
      RunConcat(cfg, m, a, b[..n]);
      RunMore(cfg, m, a + b[..n], b[n]);
      RunMore(cfg, Run(cfg, m, a), b[..n], b[n]);
    }
  }

  /** Caption flags are up only in the caption, and only listed values are queued. */
  predicate Orderly(m: Machine)
  {
    && (m.pendingNewline || m.ending ==> m.state == CAPTION_VALUE && m.queue == [])
    && (m.queue != [] ==> Listed(m.state))
    && m.state != DISABLED
  }

  lemma StepForward(cfg: Config, m: Machine, t: int)
    requires Orderly(m)
    ensures Orderly(Step(cfg, m, t)) && Rank(m.state) <= Rank(Step(cfg, m, t).state)
  {
  }

  /** Whatever tokens are fed, masked or not, captions or not, the machine never returns to an earlier field. */
  lemma {:induction false} NeverBack(cfg: Config, toks: seq<int>, k: nat)
    requires k <= |toks|
    ensures Orderly(After(cfg, toks)) && Rank(After(cfg, toks[..k]).state) <= Rank(After(cfg, toks).state)
  {
    hide Step;
    var n := |toks| - 1;
    if k == |toks| {
      assert toks[..k] == toks;
      if n >= 0 {
        NeverBack(cfg, toks[..n], n);
        StepForward(cfg, After(cfg, toks[..n]), toks[n]);
      }
    } else {
      assert toks[..n][..k] == toks[..k];
      NeverBack(cfg, toks[..n], k);
      StepForward(cfg, After(cfg, toks[..n]), toks[n]);
    }
  }

  /** The fields that are switched on. */
  predicate Present(cfg: Config, s: State)
  {
    NamesField(s) && (s == CAPTION_NAME ==> !cfg.skipCaption) && (s == GENRES_NAME ==> cfg.genres)
  }

  /** n is the next field after s that is switched on, or the end of thinking. */
  ghost predicate NextInLine(cfg: Config, s: State, n: State)
  {
    && Rank(s) < Rank(n) && (Present(cfg, n) || n == THINK_END)
    && forall o: State :: Present(cfg, o) && Rank(s) < Rank(o) ==> Rank(n) <= Rank(o)
  }

  /** Behind a value comes the next field in line. */
  lemma NextIs(cfg: Config, s: State)
    requires Present(cfg, s)
    ensures NextInLine(cfg, s, NextName(cfg, ValueOf(s)))
    ensures forall n: State :: NextInLine(cfg, s, n) ==> n == NextName(cfg, ValueOf(s))
  {
    forall n: State | NextInLine(cfg, s, n)
      ensures n == NextName(cfg, ValueOf(s))
    {
      RankApart(n, NextName(cfg, ValueOf(s)));
    }
  }

  lemma RankApart(a: State, b: State)
    requires Rank(a) == Rank(b)
    ensures a == b
  {
  }

  /** Fields a caption can be followed by. */
  predicate Follows(cfg: Config, s: State) { Present(cfg, s) && Rank(CAPTION_NAME) < Rank(s) }

  /** At the start of a state: nothing accumulated, queued or pending. */
  predicate Fresh(s: State, m: Machine)
  {
    m.state == s && m.acc == [] && m.queue == [] && !m.pendingNewline && !m.ending && m.genre == []
  }

  /** At the start of a field. */
  predicate Ready(s: State, m: Machine) { Fresh(s, m) && m.namePos == 0 }
}
