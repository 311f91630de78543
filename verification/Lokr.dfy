/**
 * The Kronecker product of adapter_merge_lokr in src/adapter-merge.h, built from reshapes, one outer
 * product and one permutation of axes. Tensors are modelled as they are stored: flat data, a shape and
 * strides, so that a reshape changes no data.
 */
module Lokr {
  import opened Bits
  import opened Adapter

  /** A tensor of up to four axes over flat storage; strides count elements. */
  datatype Tensor = Tensor(ne: seq<nat>, nb: seq<nat>, data: Vector)

  predicate Shaped(t: Tensor) { |t.ne| == 4 && |t.nb| == 4 }

  function Strides(ne: seq<nat>): seq<nat>
    requires |ne| == 4
  {
    [1, ne[0], ne[0] * ne[1], ne[0] * ne[1] * ne[2]]
  }

  predicate Contiguous(t: Tensor) { Shaped(t) && t.nb == Strides(t.ne) }

  function Dense(ne: seq<nat>, data: Vector): (t: Tensor)
    requires |ne| == 4
    ensures Contiguous(t)
  {
    Tensor(ne, Strides(ne), data)
  }

  function Element(t: Tensor, i0: nat, i1: nat, i2: nat, i3: nat): real
    requires Shaped(t)
  {
    t.data(i0 * t.nb[0] + i1 * t.nb[1] + i2 * t.nb[2] + i3 * t.nb[3])
  }

  /** ggml_reshape: the same storage under another shape. */
  function Reshape(t: Tensor, ne: seq<nat>): (r: Tensor)
    requires Contiguous(t) && |ne| == 4
    ensures Contiguous(r) && r.ne == ne && r.data == t.data
  {
    Dense(ne, t.data)
  }

  /** Which source axis lands on axis j. */
  function SourceAxis(axes: seq<nat>, j: nat): (k: nat)
    requires |axes| == 4
    ensures k < 4
  {
    if axes[0] == j then 0 else if axes[1] == j then 1 else if axes[2] == j then 2 else 3
  }

  /** ggml_permute: source axis k becomes axis axes[k]; nothing is moved. */
  function Permute(t: Tensor, axes: seq<nat>): (r: Tensor)
    requires Shaped(t) && |axes| == 4
    ensures Shaped(r)
  {
    var a0, a1, a2, a3 := SourceAxis(axes, 0), SourceAxis(axes, 1), SourceAxis(axes, 2), SourceAxis(axes, 3);
    Tensor([t.ne[a0], t.ne[a1], t.ne[a2], t.ne[a3]], [t.nb[a0], t.nb[a1], t.nb[a2], t.nb[a3]], t.data)
  }

  function Quot(a: nat, d: nat): nat
    requires d > 0
  {
    a / d
  }

  function Rem(a: nat, d: nat): nat
    requires d > 0
  {
    a % d
  }

  /** ggml_cont: copy the elements into dense storage in order of the axes. */
  function Cont(t: Tensor): (r: Tensor)
    requires Shaped(t) && forall k :: 0 <= k < 3 ==> t.ne[k] > 0
    ensures Contiguous(r) && r.ne == t.ne
  {
    var n0, n1, n2 := t.ne[0], t.ne[1], t.ne[2];
    Dense(t.ne, (f: nat) =>
      Element(t, Rem(f, n0), Rem(Quot(f, n0), n1), Rem(Quot(Quot(f, n0), n1), n2), Quot(Quot(Quot(f, n0), n1), n2)))
  }

  /** ggml_mul_mat of two matrices: rows of x against rows of y along their first axis. */
  function MulMat(x: Tensor, y: Tensor): (r: Tensor)
    requires Shaped(x) && Shaped(y) && x.ne[1] > 0
    ensures Contiguous(r) && r.ne == [x.ne[1], y.ne[1], 1, 1]
  {
    var m := x.ne[1];
    Dense([m, y.ne[1], 1, 1], (f: nat) =>
      Sum((k: nat) => Element(x, k, Rem(f, m), 0, 0) * Element(y, k, Quot(f, m), 0, 0), x.ne[0]))
  }

  function Scale(t: Tensor, s: real): (r: Tensor)
    requires Contiguous(t)
    ensures Contiguous(r) && r.ne == t.ne
  {
    Dense(t.ne, (f: nat) => t.data(f) * s)
  }

  /** The build closure: scale W1, outer product with W2, swap axes, flatten. */
  function Delta(w1: Tensor, w2: Tensor, scaling: real, a: nat, b: nat, c: nat, d: nat): (t: Tensor)
    requires a > 0 && b > 0 && c > 0 && d > 0 && Contiguous(w1) && Contiguous(w2)
    ensures Contiguous(t) && t.ne == [b * d, a * c, 1, 1]
  {
    Positive(a, b);
    var swapped := Permute(Outer(w1, w2, scaling, a, b, c, d), [1, 3, 0, 2]);
    Reshape(Cont(swapped), [b * d, a * c, 1, 1])
  }

  /** Position of (i, j) when i runs over n places fastest. */
  function Pack(n: nat, i: nat, j: nat): nat { i + n * j }

  lemma Unpack(n: nat, i: nat, j: nat)
    requires i < n
    ensures Quot(Pack(n, i, j), n) == j && Rem(Pack(n, i, j), n) == i
  {
    var f := i + n * j;
    QuotientIs(f, n, j, i);
    assert f == n * (f / n) + f % n;
  }

  lemma PackAssociative(n: nat, m: nat, i: nat, j: nat, k: nat)
    ensures Pack(n * m, Pack(n, i, j), k) == Pack(n, i, Pack(m, j, k))
  {
  }

  lemma PackFits(n: nat, m: nat, i: nat, j: nat)
    requires i < n && j < m
    ensures Pack(n, i, j) < m * n
  {
    MulMonotone(n, j + 1, m);
    assert n * (j + 1) == n * j + n;
  }

  lemma MatrixAt(t: Tensor, column: nat, row: nat)
    requires Contiguous(t)
    ensures Element(t, column, row, 0, 0) == t.data(Pack(t.ne[0], column, row))
  {
  }

  lemma FourAt(t: Tensor, i0: nat, i1: nat, i2: nat, i3: nat)
    requires Contiguous(t)
    ensures Element(t, i0, i1, i2, i3) == t.data(Pack(t.ne[0] * t.ne[1], Pack(t.ne[0], i0, i1), Pack(t.ne[2], i2, i3)))
  {
    FlatFour(t.ne[0], t.ne[1], t.ne[2], i0, i1, i2, i3);
    hide Pack;
  }

  lemma FlatFour(n0: nat, n1: nat, n2: nat, i0: nat, i1: nat, i2: nat, i3: nat)
    ensures i0 * 1 + i1 * n0 + i2 * (n0 * n1) + i3 * (n0 * n1 * n2) == Pack(n0 * n1, Pack(n0, i0, i1), Pack(n2, i2, i3))
  {
    var n := n0 * n1;
    assert n * (i2 + n2 * i3) == n * i2 + n * (n2 * i3);
    Commute(n, n2, i3);
  }

  lemma Commute(a: nat, b: nat, c: nat)
    ensures a * (b * c) == c * (a * b)
  {
  }

  /** An element of the outer product. */
  lemma OuterAt(w1: Tensor, w2: Tensor, s: real, a: nat, b: nat, c: nat, d: nat, m: nat, n: nat)
    requires a * b > 0 && Contiguous(w1) && Contiguous(w2) && m < a * b
    ensures MulMat(Reshape(Scale(w1, s), [1, a * b, 1, 1]), Reshape(w2, [1, c * d, 1, 1])).data(Pack(a * b, m, n))
            == w1.data(m) * s * w2.data(n)
  {
    var x, y := Reshape(Scale(w1, s), [1, a * b, 1, 1]), Reshape(w2, [1, c * d, 1, 1]);
    Unpack(a * b, m, n);
    hide Pack, Quot, Rem;
    var terms: Vector := (k: nat) => Element(x, k, m, 0, 0) * Element(y, k, n, 0, 0);
    assert Sum(terms, 1) == Sum(terms, 0) + terms(0);
    assert Element(x, 0, m, 0, 0) == w1.data(m) * s;
    assert Element(y, 0, n, 0, 0) == w2.data(n);
    assert MulMat(x, y).data(Pack(a * b, m, n)) == Sum(terms, 1);
  }

  /** The outer product before its axes are swapped. */
  function Outer(w1: Tensor, w2: Tensor, s: real, a: nat, b: nat, c: nat, d: nat): (t: Tensor)
    requires a * b > 0 && Contiguous(w1) && Contiguous(w2)
    ensures Contiguous(t) && t.ne == [b, a, d, c]
  {
    Reshape(MulMat(Reshape(Scale(w1, s), [1, a * b, 1, 1]), Reshape(w2, [1, c * d, 1, 1])), [b, a, d, c])
  }

  lemma OuterElement(w1: Tensor, w2: Tensor, s: real, a: nat, b: nat, c: nat, d: nat, aa: nat, bb: nat, cc: nat,
                     dd: nat)
    requires Contiguous(w1) && Contiguous(w2) && w1.ne == [b, a, 1, 1] && w2.ne == [d, c, 1, 1]
    requires aa < a && bb < b && cc < c && dd < d && a * b > 0
    ensures Element(Outer(w1, w2, s, a, b, c, d), bb, aa, dd, cc)
            == Element(w1, bb, aa, 0, 0) * s * Element(w2, dd, cc, 0, 0)
  {
    hide MulMat, Pack;
    PackFits(b, a, bb, aa);
    OuterAt(w1, w2, s, a, b, c, d, Pack(b, bb, aa), Pack(d, dd, cc));
    FourAt(Outer(w1, w2, s, a, b, c, d), bb, aa, dd, cc);
    MatrixAt(w1, bb, aa);
    MatrixAt(w2, dd, cc);
    assert a * b == b * a;
    hide Element;
  }

  /** Position of an element in dense storage, and back. */
  lemma Unflatten(n0: nat, n1: nat, n2: nat, i0: nat, i1: nat, i2: nat, i3: nat)
    requires i0 < n0 && i1 < n1 && i2 < n2
    ensures var f := Pack(n0, i0, Pack(n1, i1, Pack(n2, i2, i3)));
            && Rem(f, n0) == i0 && Rem(Quot(f, n0), n1) == i1 && Rem(Quot(Quot(f, n0), n1), n2) == i2
            && Quot(Quot(Quot(f, n0), n1), n2) == i3
  {
    hide Quot, Rem, Pack;
    Unpack(n0, i0, Pack(n1, i1, Pack(n2, i2, i3)));
    Unpack(n1, i1, Pack(n2, i2, i3));
    Unpack(n2, i2, i3);
  }

  lemma ContAt(t: Tensor, i0: nat, i1: nat, i2: nat, i3: nat)
    requires Shaped(t) && i0 < t.ne[0] && i1 < t.ne[1] && i2 < t.ne[2]
    ensures Cont(t).data(Pack(t.ne[0], i0, Pack(t.ne[1], i1, Pack(t.ne[2], i2, i3)))) == Element(t, i0, i1, i2, i3)
  {
    hide Element, Quot, Rem, Pack;
    Unflatten(t.ne[0], t.ne[1], t.ne[2], i0, i1, i2, i3);
  }

  lemma Positive(a: nat, b: nat)
    requires a > 0 && b > 0
    ensures a * b > 0
  {
  }

  /** Row aa*c + cc, column bb*d + dd of the delta is scaling * W1[aa, bb] * W2[cc, dd]. */
  lemma Kronecker(w1: Tensor, w2: Tensor, s: real, a: nat, b: nat, c: nat, d: nat, aa: nat, bb: nat, cc: nat, dd: nat)
    requires a > 0 && b > 0 && c > 0 && d > 0
    requires Contiguous(w1) && Contiguous(w2) && w1.ne == [b, a, 1, 1] && w2.ne == [d, c, 1, 1]
    requires aa < a && bb < b && cc < c && dd < d
    ensures Element(Delta(w1, w2, s, a, b, c, d), Pack(d, dd, bb), Pack(c, cc, aa), 0, 0)
            == Element(w1, bb, aa, 0, 0) * s * Element(w2, dd, cc, 0, 0)
  {
    hide MulMat, Cont, Pack, Quot, Rem;
    Positive(a, b);
    OuterElement(w1, w2, s, a, b, c, d, aa, bb, cc, dd);
    var outer, delta := Outer(w1, w2, s, a, b, c, d), Delta(w1, w2, s, a, b, c, d);
    SwappedAt(outer, a, b, c, d, aa, bb, cc, dd);
    MatrixAt(delta, Pack(d, dd, bb), Pack(c, cc, aa));
    assert b * d == d * b;
    PackAssociative(d, b, dd, bb, Pack(c, cc, aa));
    ContAt(Permute(outer, [1, 3, 0, 2]), dd, bb, cc, aa);
    hide Element, Permute;
  }

  lemma SwappedAt(t: Tensor, a: nat, b: nat, c: nat, d: nat, aa: nat, bb: nat, cc: nat, dd: nat)
    requires Contiguous(t) && t.ne == [b, a, d, c]
    ensures Permute(t, [1, 3, 0, 2]).ne == [d, b, c, a]
    ensures Element(Permute(t, [1, 3, 0, 2]), dd, bb, cc, aa) == Element(t, bb, aa, dd, cc)
  {
  }

  /** W2 from its factors: the rank axis is brought to the front of the second, then they are multiplied. */
  function FromFactors(w2a: Tensor, w2b: Tensor): (t: Tensor)
    requires Contiguous(w2a) && Contiguous(w2b) && forall k :: 0 <= k < 4 ==> w2b.ne[k] > 0
  {
    MulMat(Cont(Permute(w2b, [1, 0, 2, 3])), w2a)
  }

  /** Element (cc, dd) of the product of the factors. */
  lemma FactorsMultiply(w2a: Tensor, w2b: Tensor, rank: nat, c: nat, d: nat, cc: nat, dd: nat)
    requires Contiguous(w2a) && Contiguous(w2b) && rank > 0 && cc < c && dd < d
    requires w2a.ne == [rank, c, 1, 1] && w2b.ne == [d, rank, 1, 1]
    ensures FromFactors(w2a, w2b).ne == [d, c, 1, 1] && Contiguous(FromFactors(w2a, w2b))
    ensures Element(FromFactors(w2a, w2b), dd, cc, 0, 0)
            == Sum((k: nat) => Element(w2a, k, cc, 0, 0) * Element(w2b, dd, k, 0, 0), rank)
  {
    hide Cont, Pack, Quot, Rem;
    var turned := Cont(Permute(w2b, [1, 0, 2, 3]));
    assert turned.ne == [rank, d, 1, 1];
    MatrixAt(FromFactors(w2a, w2b), dd, cc);
    Unpack(d, dd, cc);
    hide Element;
    var terms: Vector := (k: nat) => Element(turned, k, dd, 0, 0) * Element(w2a, k, cc, 0, 0);
    var wanted: Vector := (k: nat) => Element(w2a, k, cc, 0, 0) * Element(w2b, dd, k, 0, 0);
    forall k: nat | k < rank ensures terms(k) == wanted(k) { TurnedAt(w2b, rank, d, k, dd); }
    SumEqual(terms, wanted, rank);
    assert Element(FromFactors(w2a, w2b), dd, cc, 0, 0) == Sum(terms, rank);
  }

  lemma TurnedAt(w2b: Tensor, rank: nat, d: nat, k: nat, dd: nat)
    requires Contiguous(w2b) && w2b.ne == [d, rank, 1, 1] && k < rank && dd < d
    ensures Element(Cont(Permute(w2b, [1, 0, 2, 3])), k, dd, 0, 0) == Element(w2b, dd, k, 0, 0)
  {
    var p := Permute(w2b, [1, 0, 2, 3]);
    ContAt(p, k, dd, 0, 0);
    MatrixAt(Cont(p), k, dd);
    assert Pack(1, 0, 0) == 0 && Pack(d, dd, 0) == dd;
    hide Cont, Pack;
  }
}
