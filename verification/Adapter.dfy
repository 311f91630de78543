/**
 * Functional LoRA and DoRA of src/adapter-functional.h against the merged weights of src/adapter-merge.h,
 * over the reals, one output row at a time: the norm of the updated row without forming the update, and
 * equal outputs for every input.
 */
module Adapter {

  type Vector = nat -> real

  function Sum(f: Vector, n: nat): real
  {
    if n == 0 then 0.0 else Sum(f, n - 1) + f(n - 1)
  }

  lemma {:induction false} SumEqual(f: Vector, g: Vector, n: nat)
    requires forall i: nat :: i < n ==> f(i) == g(i)
    ensures Sum(f, n) == Sum(g, n)
  {
    if n > 0 { SumEqual(f, g, n - 1); }
  }

  /** Sums are linear. */
  lemma {:induction false} SumLinear(f: Vector, g: Vector, c: real, h: Vector, n: nat)
    requires forall i: nat :: i < n ==> h(i) == f(i) + c * g(i)
    ensures Sum(h, n) == Sum(f, n) + c * Sum(g, n)
  {
    if n > 0 { SumLinear(f, g, c, h, n - 1); }
  }

  lemma {:induction false} SumScaled(g: Vector, c: real, h: Vector, n: nat)
    requires forall i: nat :: i < n ==> h(i) == c * g(i)
    ensures Sum(h, n) == c * Sum(g, n)
  {
    if n > 0 { SumScaled(g, c, h, n - 1); }
  }

  /** Summing a table by rows or by columns gives the same. */
  lemma {:induction false} SumSwap(f: (nat, nat) -> real, m: nat, n: nat)
    ensures Sum((i: nat) => Sum((k: nat) => f(i, k), n), m) == Sum((k: nat) => Sum((i: nat) => f(i, k), m), n)
  {
    var columns, fewer, last := (k: nat) => Sum((i: nat) => f(i, k), m),
      (k: nat) => Sum((i: nat) => f(i, k), if m == 0 then 0 else m - 1), (k: nat) => f(if m == 0 then 0 else m - 1, k);
    if m == 0 {
      SumScaled((k: nat) => 0.0, 0.0, columns, n);
    } else {
      SumSwap(f, m - 1, n);
      SumLinear(fewer, last, 1.0, columns, n);
      SumEqual(last, (k: nat) => f(m - 1, k), n);
    }
  }

  function Dot(u: Vector, v: Vector, n: nat): real { Sum((i: nat) => u(i) * v(i), n) }

  lemma DotSymmetric(u: Vector, v: Vector, n: nat)
    ensures Dot(u, v, n) == Dot(v, u, n)
  {
    SumEqual((i: nat) => u(i) * v(i), (i: nat) => v(i) * u(i), n);
  }

  /** One output row: base weights, its row of B, all of A, its magnitude. */
  datatype Row = Row(w: Vector, b: Vector, a: (nat, nat) -> real, columns: nat, rank: nat, magnitude: real) {

    function ARow(k: nat): Vector { (i: nat) => a(k, i) }

    /** The row of the product of B and A. */
    function Update(): Vector { (i: nat) => Sum((k: nat) => b(k) * a(k, i), rank) }

    /** Base weights plus a multiple of the update. */
    function Updated(c: real): Vector { (i: nat) => w(i) + c * Update()(i) }
  }

  /** Entry (i, k) of the table summed up when the update is applied to x. */
  function Term(r: Row, x: Vector, i: nat, k: nat): real { r.b(k) * r.a(k, i) * x(i) }

  lemma TermRow(r: Row, x: Vector, i: nat)
    ensures r.Update()(i) * x(i) == Sum((k: nat) => Term(r, x, i, k), r.rank)
  {
    SumScaled((k: nat) => r.b(k) * r.a(k, i), x(i), (k: nat) => Term(r, x, i, k), r.rank);
  }

  lemma TermColumn(r: Row, x: Vector, k: nat)
    ensures Sum((i: nat) => Term(r, x, i, k), r.columns) == r.b(k) * Dot(r.ARow(k), x, r.columns)
  {
    var u: Vector := (i: nat) => r.ARow(k)(i) * x(i);
    forall i: nat ensures Term(r, x, i, k) == r.b(k) * u(i) { Associative(r.b(k), r.a(k, i), x(i)); }
    SumScaled(u, r.b(k), (i: nat) => Term(r, x, i, k), r.columns);
  }

  lemma Associative(a: real, b: real, c: real)
    ensures a * b * c == a * (b * c)
  {
  }

  /** The update applied to an input, without forming the update: B(Ax). */
  lemma UpdateApplied(r: Row, x: Vector)
    ensures Dot(r.Update(), x, r.columns) == Sum((k: nat) => r.b(k) * Dot(r.ARow(k), x, r.columns), r.rank)
  {
    hide Term, Dot;
    var rows: Vector := (i: nat) => Sum((k: nat) => Term(r, x, i, k), r.rank);
    var columns: Vector := (k: nat) => Sum((i: nat) => Term(r, x, i, k), r.columns);
    forall i: nat ensures r.Update()(i) * x(i) == rows(i) { TermRow(r, x, i); }
    forall k: nat ensures columns(k) == r.b(k) * Dot(r.ARow(k), x, r.columns) { TermColumn(r, x, k); }
    DotIs(r.Update(), x, rows, r.columns);
    TermSwap(r, x);
    SumEqual(columns, (k: nat) => r.b(k) * Dot(r.ARow(k), x, r.columns), r.rank);
  }

  lemma DotIs(u: Vector, v: Vector, f: Vector, n: nat)
    requires forall i: nat :: u(i) * v(i) == f(i)
    ensures Dot(u, v, n) == Sum(f, n)
  {
    SumEqual((i: nat) => u(i) * v(i), f, n);
  }

  lemma TermSwap(r: Row, x: Vector)
    ensures Sum((i: nat) => Sum((k: nat) => Term(r, x, i, k), r.rank), r.columns)
            == Sum((k: nat) => Sum((i: nat) => Term(r, x, i, k), r.columns), r.rank)
  {
    hide Term;
    var f := (i: nat, k: nat) => Term(r, x, i, k);
    SumSwap(f, r.columns, r.rank);
    var rows: Vector := (i: nat) => Sum((k: nat) => f(i, k), r.rank);
    var rows': Vector := (i: nat) => Sum((k: nat) => Term(r, x, i, k), r.rank);
    forall i: nat ensures rows(i) == rows'(i) {
      SumEqual((k: nat) => f(i, k), (k: nat) => Term(r, x, i, k), r.rank);
    }
    SumEqual(rows, rows', r.columns);
    var cols: Vector := (k: nat) => Sum((i: nat) => f(i, k), r.columns);
    var cols': Vector := (k: nat) => Sum((i: nat) => Term(r, x, i, k), r.columns);
    forall k: nat ensures cols(k) == cols'(k) {
      SumEqual((i: nat) => f(i, k), (i: nat) => Term(r, x, i, k), r.columns);
    }
    SumEqual(cols, cols', r.rank);
  }

  /** The three terms adapter_functional_prepare adds up. */
  function NormSq(r: Row): real { Dot(r.w, r.w, r.columns) }

  function Cross(r: Row): real { Sum((k: nat) => Dot(r.w, r.ARow(k), r.columns) * r.b(k), r.rank) }

  function Gram(r: Row, k: nat): real { Sum((l: nat) => Dot(r.ARow(k), r.ARow(l), r.columns) * r.b(l), r.rank) }

  function UpdateSq(r: Row): real { Sum((k: nat) => r.b(k) * Gram(r, k), r.rank) }

  function Expanded(r: Row, c: real): real { NormSq(r) + 2.0 * c * Cross(r) + c * c * UpdateSq(r) }

  lemma CrossIs(r: Row)
    ensures Cross(r) == Dot(r.w, r.Update(), r.columns)
  {
    UpdateApplied(r, r.w);
    DotSymmetric(r.w, r.Update(), r.columns);
    forall k: nat ensures Dot(r.w, r.ARow(k), r.columns) == Dot(r.ARow(k), r.w, r.columns) {
      DotSymmetric(r.w, r.ARow(k), r.columns);
    }
    SumEqual((k: nat) => Dot(r.w, r.ARow(k), r.columns) * r.b(k), (k: nat) => r.b(k) * Dot(r.ARow(k), r.w, r.columns),
             r.rank);
  }

  lemma UpdateSqIs(r: Row)
    ensures UpdateSq(r) == Dot(r.Update(), r.Update(), r.columns)
  {
    UpdateApplied(r, r.Update());
    forall k: nat
      ensures Gram(r, k) == Dot(r.ARow(k), r.Update(), r.columns)
    {
      UpdateApplied(r, r.ARow(k));
      DotSymmetric(r.ARow(k), r.Update(), r.columns);
      forall l: nat ensures Dot(r.ARow(k), r.ARow(l), r.columns) == Dot(r.ARow(l), r.ARow(k), r.columns) {
        DotSymmetric(r.ARow(k), r.ARow(l), r.columns);
      }
      SumEqual((l: nat) => Dot(r.ARow(k), r.ARow(l), r.columns) * r.b(l),
               (l: nat) => r.b(l) * Dot(r.ARow(l), r.ARow(k), r.columns), r.rank);
    }
    SumEqual((k: nat) => r.b(k) * Gram(r, k), (k: nat) => r.b(k) * Dot(r.ARow(k), r.Update(), r.columns), r.rank);
  }

  /** The squared norm of the updated row is the expansion: no dense update is needed for it. */
  lemma NormExpands(r: Row, c: real)
    ensures Dot(r.Updated(c), r.Updated(c), r.columns) == Expanded(r, c)
  {
    CrossIs(r);
    UpdateSqIs(r);
    hide Row.Update, Cross, UpdateSq;
    SquareSum(r.w, r.Update(), c, r.Updated(c), r.columns);
  }

  lemma {:induction false} SquareSum(w: Vector, u: Vector, c: real, v: Vector, n: nat)
    requires forall i: nat :: v(i) == w(i) + c * u(i)
    ensures Dot(v, v, n) == Dot(w, w, n) + 2.0 * c * Dot(w, u, n) + c * c * Dot(u, u, n)
  {
    if n > 0 {
      SquareSum(w, u, c, v, n - 1);
      Binomial(w(n - 1), c, u(n - 1));
      DotStep(v, v, n);
      DotStep(w, w, n);
      DotStep(w, u, n);
      DotStep(u, u, n);
      hide Dot;
    }
  }

  lemma DotStep(u: Vector, v: Vector, n: nat)
    requires n > 0
    ensures Dot(u, v, n) == Dot(u, v, n - 1) + u(n - 1) * v(n - 1)
  {
  }

  lemma Binomial(a: real, c: real, u: real)
    ensures (a + c * u) * (a + c * u) == a * a + 2.0 * c * (a * u) + c * c * (u * u)
  {
  }

  predicate Root(n: real, r: real) { r >= 0.0 && r * r == n }

  lemma RootUnique(n: real, r: real, q: real)
    requires Root(n, r) && Root(n, q)
    ensures r == q
  {
    if r < q { Smaller(r, q); } else if q < r { Smaller(q, r); }
  }

  lemma Smaller(a: real, b: real)
    requires 0.0 <= a < b
    ensures a * a < b * b
  {
    assert (b - a) * (b + a) == b * b - a * a;
    Positive(b - a, b + a);
  }

  lemma Positive(a: real, b: real)
    requires a > 0.0 && b > 0.0
    ensures a * b > 0.0
  {
  }

  const LEAST_NORM_SQ: real := 0.00000000000000000001

  function ClampLow(n: real): real { if n < LEAST_NORM_SQ then LEAST_NORM_SQ else n }

  /** What adapter_functional_prepare stores for a row: a gain for the base output, factors for B. */
  datatype Prepared = Prepared(gain: real, factor: real)

  /** scale is alpha over rank; root is the square root of the clamped norm. */
  function Prepare(r: Row, scale: real, strength: real, normalizedMode: bool, root: real): Prepared
    requires root > 0.0
  {
    var normalized := normalizedMode && strength != 1.0;
    var row := r.magnitude / root;
    Prepared(if normalized then row else strength * row + (1.0 - strength), row * (scale * strength))
  }

  function NormScale(scale: real, strength: real, normalizedMode: bool): real
  {
    if normalizedMode && strength != 1.0 then scale * strength else scale
  }

  /** adapter_functional_linear: gain times the base output, plus the scaled B applied to Ax. */
  function Linear(r: Row, p: Prepared, strength: real, x: Vector): real
  {
    if strength == 0.0 then Dot(r.w, x, r.columns)
    else p.gain * Dot(r.w, x, r.columns)
         + Sum((k: nat) => r.b(k) * p.factor * Dot(r.ARow(k), x, r.columns), r.rank)
  }

  lemma LinearIs(r: Row, p: Prepared, strength: real, x: Vector)
    requires strength != 0.0
    ensures Linear(r, p, strength, x)
            == p.gain * Dot(r.w, x, r.columns) + p.factor * Dot(r.Update(), x, r.columns)
  {
    UpdateApplied(r, x);
    var plain: Vector := (k: nat) => r.b(k) * Dot(r.ARow(k), x, r.columns);
    var scaled: Vector := (k: nat) => r.b(k) * p.factor * Dot(r.ARow(k), x, r.columns);
    forall k: nat ensures scaled(k) == p.factor * plain(k) { Pulled(r.b(k), p.factor, Dot(r.ARow(k), x, r.columns)); }
    hide Dot;
    SumScaled(plain, p.factor, scaled, r.rank);
  }

  lemma Pulled(b: real, f: real, d: real)
    ensures b * f * d == f * (b * d)
  {
  }

  lemma UpdatedApplied(r: Row, c: real, x: Vector)
    ensures Dot(r.Updated(c), x, r.columns) == Dot(r.w, x, r.columns) + c * Dot(r.Update(), x, r.columns)
  {
    hide Row.Update;
    LinearSum(r.w, r.Update(), c, r.Updated(c), x, r.columns);
  }

  lemma {:induction false} LinearSum(w: Vector, u: Vector, c: real, v: Vector, x: Vector, n: nat)
    requires forall i: nat :: v(i) == w(i) + c * u(i)
    ensures Dot(v, x, n) == Dot(w, x, n) + c * Dot(u, x, n)
  {
    if n > 0 {
      LinearSum(w, u, c, v, x, n - 1);
      Distributed(w(n - 1), c, u(n - 1), x(n - 1));
      DotStep(v, x, n);
      DotStep(w, x, n);
      DotStep(u, x, n);
      hide Dot;
    }
  }

  lemma Distributed(w: real, c: real, u: real, x: real)
    ensures (w + c * u) * x == w * x + c * (u * x)
  {
  }

  /** Merged DoRA row of adapter_merge_on_backend: interpolation towards the renormalized row. */
  function MergedDora(r: Row, scale: real, strength: real, norm: real): Vector
    requires norm > 0.0
  {
    (i: nat) =>
      var full := r.Updated(scale)(i) * (r.magnitude / norm);
      if strength == 1.0 then full else r.w(i) + strength * (full - r.w(i))
  }

  /** Functional DoRA and the merged row give the same output for every input. */
  lemma DoraAgrees(r: Row, scale: real, strength: real, root: real, norm: real, x: Vector)
    requires norm > 0.0 && Root(Dot(r.Updated(scale), r.Updated(scale), r.columns), norm)
    requires Expanded(r, scale) >= LEAST_NORM_SQ && root > 0.0 && Root(ClampLow(Expanded(r, scale)), root)
    ensures Linear(r, Prepare(r, scale, strength, false, root), strength, x)
            == Dot(MergedDora(r, scale, strength, norm), x, r.columns)
  {
    NormExpands(r, scale);
    RootUnique(Expanded(r, scale), root, norm);
    MergedApplied(r, scale, strength, norm, x);
    UpdatedApplied(r, scale, x);
    var t, wx, ux := r.magnitude / norm, Dot(r.w, x, r.columns), Dot(r.Update(), x, r.columns);
    hide Dot, Row.Update, Row.Updated, MergedDora, Expanded;
    if strength != 0.0 { LinearIs(r, Prepare(r, scale, strength, false, root), strength, x); }
    Regrouped(wx, ux, strength, t, scale);
  }

  lemma MergedApplied(r: Row, scale: real, strength: real, norm: real, x: Vector)
    requires norm > 0.0
    ensures Dot(MergedDora(r, scale, strength, norm), x, r.columns)
            == (1.0 - strength) * Dot(r.w, x, r.columns)
               + strength * (r.magnitude / norm) * Dot(r.Updated(scale), x, r.columns)
  {
    hide Row.Updated;
    InterpolatedSum(r.w, r.Updated(scale), r.magnitude / norm, strength, MergedDora(r, scale, strength, norm), x,
                    r.columns);
  }

  lemma {:induction false} InterpolatedSum(w: Vector, u: Vector, t: real, s: real, v: Vector, x: Vector, n: nat)
    requires forall i: nat :: v(i) == if s == 1.0 then u(i) * t else w(i) + s * (u(i) * t - w(i))
    ensures Dot(v, x, n) == (1.0 - s) * Dot(w, x, n) + s * t * Dot(u, x, n)
  {
    if n > 0 {
      InterpolatedSum(w, u, t, s, v, x, n - 1);
      Interpolated(w(n - 1), u(n - 1), t, s, x(n - 1));
      DotStep(v, x, n);
      DotStep(w, x, n);
      DotStep(u, x, n);
      hide Dot;
    }
  }

  lemma Interpolated(w: real, m: real, t: real, s: real, x: real)
    ensures (w + s * (m * t - w)) * x == (1.0 - s) * (w * x) + s * t * (m * x)
    ensures s == 1.0 ==> m * t * x == (1.0 - s) * (w * x) + s * t * (m * x)
  {
  }

  lemma Regrouped(wx: real, ux: real, s: real, t: real, c: real)
    ensures (s * t + (1.0 - s)) * wx + t * (c * s) * ux == (1.0 - s) * wx + s * t * (wx + c * ux)
  {
  }

  /** In normalized mode the output is that of the row with the scaled update, renormalized. */
  lemma NormalizedAgrees(r: Row, scale: real, strength: real, root: real, norm: real, x: Vector)
    requires strength != 0.0
    requires norm > 0.0 && Root(Dot(r.Updated(scale * strength), r.Updated(scale * strength), r.columns), norm)
    requires Expanded(r, scale * strength) >= LEAST_NORM_SQ && root > 0.0
    requires Root(ClampLow(Expanded(r, NormScale(scale, strength, true))), root)
    ensures Linear(r, Prepare(r, scale, strength, true, root), strength, x)
            == r.magnitude / norm * Dot(r.Updated(scale * strength), x, r.columns)
  {
    NormExpands(r, scale * strength);
    RootUnique(Expanded(r, scale * strength), root, norm);
    UpdatedApplied(r, scale * strength, x);
    LinearIs(r, Prepare(r, scale, strength, true, root), strength, x);
  }

  /** Plain LoRA: B is scaled once at load time, and there is no gain. */
  lemma LoraAgrees(r: Row, scale: real, strength: real, x: Vector)
    ensures Linear(r, Prepared(1.0, scale * strength), strength, x)
            == Dot((i: nat) => r.w(i) + strength * (scale * r.Update()(i)), x, r.columns)
  {
    UpdatedApplied(r, scale * strength, x);
    var merged: Vector := (i: nat) => r.w(i) + strength * (scale * r.Update()(i));
    SumEqual((i: nat) => r.Updated(scale * strength)(i) * x(i), (i: nat) => merged(i) * x(i), r.columns);
    if strength != 0.0 { LinearIs(r, Prepared(1.0, scale * strength), strength, x); }
  }

  /** The row norm accumulated while loading. */
  method LoadNormSq(row: array<real>, ghost r: Row) returns (norm: real)
    requires r.columns == row.Length && forall i: nat :: i < row.Length ==> row[i] == r.w(i)
    ensures norm == NormSq(r)
  {
    norm := 0.0;
    for i := 0 to row.Length
      invariant norm == Sum((j: nat) => r.w(j) * r.w(j), i)
    {
      norm := norm + row[i] * row[i];
    }
  }
}
