/**
 * The values and the length of the constrained decoder's runs (src/metadata-fsm.h): the trees offer exactly
 * the listed values, and without a caption every run ends.
 */
module Listings {
  import Bits
  import opened Utf8
  import opened Fsm
  import opened Runs
  import opened Captions
  import opened Grammar

  /** Position of a field among those switched on. */
  function Position(cfg: Config, s: State): nat
  {
    var caption, genres := if cfg.skipCaption then 0 else 1, if cfg.genres then 1 else 0;
    match s
    case BPM_NAME => 0
    case CAPTION_NAME => 1
    case DURATION_NAME => 1 + caption
    case GENRES_NAME => 2 + caption
    case KEYSCALE_NAME => 2 + caption + genres
    case LANGUAGE_NAME => 3 + caption + genres
    case TIMESIG_NAME => 4 + caption + genres
    case _ => 5 + caption + genres
  }

  /** Names, forced values and ways through the trees and the genres have at most so many tokens. */
  ghost predicate Short(cfg: Config, most: nat)
  {
    && (forall s: State :: |cfg.names(s)| <= most && |cfg.forced(s)| <= most)
    && (forall s: State, w :: Path(cfg.trees(s), cfg.newline, w) ==> |w| < most)
    && (forall w :: GenrePath(cfg, w) ==> |w| < most)
  }

  lemma ValueLength(cfg: Config, most: nat, f: State, v: seq<int>)
    requires Short(cfg, most) && ValueFor(cfg, f, v)
    ensures |v| <= most
  {
    hide Path, GenrePath, ValueOf, Next;
    if v != [] {
      assert |v[..|v| - 1]| == |v| - 1;
    }
  }

  lemma BlockLength(cfg: Config, most: nat, p: State, s: State, g: seq<int>)
    requires Short(cfg, most) && cfg.skipCaption && Block(cfg, p, s, g)
    ensures |g| <= 2 * most && Position(cfg, s) == Position(cfg, p) + 1
  {
    hide Short, ValueFor;
    ValueLength(cfg, most, p, g[|cfg.names(p)|..]);
    NextIs(cfg, p);
    NameLength(cfg, most, p);
  }

  lemma NameLength(cfg: Config, most: nat, p: State)
    requires Short(cfg, most)
    ensures |cfg.names(p)| <= most && |cfg.forced(ValueOf(p))| <= most
  {
  }

  lemma {:induction false} BlocksLength(cfg: Config, most: nat, s: State, e: seq<int>)
    requires Short(cfg, most) && cfg.skipCaption && Blocks(cfg, s, e)
    ensures |e| <= 2 * Position(cfg, s) * most
    decreases |e|
  {
    hide Block, Short, Position;
    if e != [] {
      var p, a :| 0 <= a < |e| && Blocks(cfg, p, e[..a]) && Block(cfg, p, s, e[a..]);
      BlocksLength(cfg, most, p, e[..a]);
      BlockLength(cfg, most, p, s, e[a..]);
    }
  }

  lemma PartialLength(cfg: Config, most: nat, p: State, m: Machine, r: seq<int>)
    requires Short(cfg, most) && cfg.skipCaption && Partial(cfg, p, m, r)
    ensures p == THINK_END ==> r == []
    ensures p != THINK_END ==> |r| <= 2 * most && Position(cfg, p) + 1 <= Position(cfg, THINK_END)
  {
    hide Path, GenrePath, Next;
    NameLength(cfg, most, p);
    if p != THINK_END && cfg.names(p) <= r && InValue(cfg, p, m, r[|cfg.names(p)|..]) {
      var v := r[|cfg.names(p)|..];
      if m.queue != [] { assert |v + m.queue| == |v| + |m.queue|; }
    }
  }

  /** Without a caption the audio codes are reached within a fixed number of tokens. */
  lemma Terminates(cfg: Config, most: nat, e: seq<int>)
    requires Proper(cfg) && cfg.skipCaption && Short(cfg, most) && Permitted(cfg, e)
    requires |e| > 2 * (if cfg.genres then 6 else 5) * most
    ensures After(cfg, e).state == CODES
  {
    hide Partial, Blocks, Permitted, Short, After;
    if After(cfg, e).state != CODES {
      var p, a := RunBetween(cfg, e);
      BlocksLength(cfg, most, p, e[..a]);
      PartialLength(cfg, most, p, After(cfg, e), e[a..]);
      Doubled(Position(cfg, p), Position(cfg, THINK_END), most);
    }
  }

  lemma Doubled(k: nat, n: nat, most: nat)
    requires k <= n
    ensures 2 * k * most <= 2 * n * most
    ensures k < n ==> 2 * k * most + 2 * most <= 2 * n * most
  {
    Bits.MulMonotone(most, k, n);
    if k < n { Bits.MulMonotone(most, k + 1, n); }
  }

  /** Listed values end in their only newline. */
  ghost predicate LineValues(values: set<seq<int>>, newline: int)
  {
    values != {} && forall v :: v in values ==> v != [] && forall k :: 0 <= k < |v| ==>
          (v[k] == newline <==> k == |v| - 1)
  }

  lemma {:induction false} PathInValues(tree: Tree, values: set<seq<int>>, newline: int, w: seq<int>)
    returns (u: seq<int>)
    requires Indexes(tree, values) && values != {} && Path(tree, newline, w)
    ensures u in values && w <= u
  {
    if w == [] {
      u :| u in values;
    } else {
      var n := |w| - 1;
      assert w == w[..n] + [w[n]];
      u :| u in values && w[..n] + [w[n]] <= u;
    }
  }

  lemma Offered(tree: Tree, values: set<seq<int>>, p: seq<int>, t: int, u: seq<int>)
    requires Indexes(tree, values) && u in values && p + [t] <= u
    ensures t in Next(tree, p)
  {
  }

  /** For a field that is not forced, the values of the grammar are exactly the listed ones. */
  lemma ListedValues(cfg: Config, s: State, values: set<seq<int>>, v: seq<int>)
    requires cfg.forced(s) == [] && Indexes(cfg.trees(s), values) && LineValues(values, cfg.newline)
    ensures Value(cfg, s, v) <==> v in values
  {
    hide Path, Indexes, Next;
    var tree, nl := cfg.trees(s), cfg.newline;
    if Value(cfg, s, v) {
      PathIsValue(tree, values, nl, v[..|v| - 1]);
      assert v == v[..|v| - 1] + [nl];
    }
    if v in values {
      ValuePath(tree, values, nl, v, |v| - 1);
      assert v[..|v| - 1] + [nl] == v;
      Offered(tree, values, v[..|v| - 1], nl, v);
    }
  }

  /** A way through the tree that may end here is a listed value without its newline. */
  lemma PathIsValue(tree: Tree, values: set<seq<int>>, newline: int, w: seq<int>)
    requires Indexes(tree, values) && LineValues(values, newline) && Path(tree, newline, w)
    requires newline in Next(tree, w) || Next(tree, w) == []
    ensures w + [newline] in values
  {
    hide Path;
    if newline in Next(tree, w) {
      var u :| u in values && w + [newline] <= u;
      assert u[|w|] == newline;
      assert u == w + [newline];
    } else {
      var u := PathInValues(tree, values, newline, w);
      EndOfPath(tree, values, newline, w, u);
    }
  }

  lemma EndOfPath(tree: Tree, values: set<seq<int>>, newline: int, w: seq<int>, u: seq<int>)
    requires Indexes(tree, values) && LineValues(values, newline) && Path(tree, newline, w) && u in values && w <= u
    ensures Next(tree, w) != []
  {
    if w != [] {
      PathAt(tree, newline, w, |w| - 1);
    }
    assert w + [u[|w|]] <= u;
    Offered(tree, values, w, u[|w|], u);
  }

  lemma {:induction false} ValuePath(tree: Tree, values: set<seq<int>>, newline: int, v: seq<int>, k: nat)
    requires Indexes(tree, values) && LineValues(values, newline) && v in values && k < |v|
    ensures Path(tree, newline, v[..k])
  {
    hide Indexes, Next;
    if k > 0 {
      ValuePath(tree, values, newline, v, k - 1);
      var w := v[..k];
      assert w[..k - 1] == v[..k - 1] && w[..k - 1] + [w[k - 1]] == w;
      Offered(tree, values, w[..k - 1], w[k - 1], v);
    }
  }
}
