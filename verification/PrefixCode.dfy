/** Decoding trees, and when a code table and a tree describe the same complete prefix code. */
module PrefixCode {
  import opened Bits

  /** A decoding tree whose leaves are the (x, y) symbols of a table. */
  datatype Tree = Leaf(x: int, y: int) | Node(zero: Tree, one: Tree)

  function LeafCount(t: Tree): int
  {
    match t
    case Leaf(_, _) => 1
    case Node(a, b) => LeafCount(a) + LeafCount(b)
  }

  /** Code words of a width by height grid: the word of (x, y) is the low len[y][x] bits of code[y][x]. */
  datatype Table = Table(width: nat, height: nat, code: seq<seq<nat>>, len: seq<seq<nat>>) {

    predicate Has(x: int, y: int)
    {
      At(code, y, x) >= 0 && At(len, y, x) >= 0
    }

    function Word(x: int, y: int): seq<bool>
      requires Has(x, y)
    {
      BitsOf(At(code, y, x), At(len, y, x))
    }
  }

  /** The entry in row y, column x, or -1 where there is none. */
  function At(rows: seq<seq<nat>>, y: int, x: int): int
  {
    if 0 <= y < |rows| && 0 <= x < |rows[y]| then rows[y][x] else -1
  }

  /** Every leaf of t carries a symbol whose table entry is the path to that leaf from (code, len). */
  predicate Agrees(t: Tree, tab: Table, code: nat, len: nat)
    decreases t
  {
    match t
    case Leaf(x, y) => At(tab.code, y, x) == code && At(tab.len, y, x) == len
    case Node(a, b) =>
      && Agrees(a, tab, 2 * code, len + 1)
      && Agrees(b, tab, 2 * code + 1, len + 1)
  }

  /** Follow the tree from its root until a leaf is reached. */
  function Walk(t: Tree, s: seq<bool>): Read<(int, int)>
    decreases t
  {
    match t
    case Leaf(x, y) => Done((x, y), s)
    case Node(a, b) => if s == [] then Fail else Walk(if s[0] then b else a, s[1..])
  }

  /** Two agreeing subtrees make an agreeing tree. */
  lemma Join(a: Tree, b: Tree, tab: Table, code: nat, len: nat) returns (t: Tree)
    requires Agrees(a, tab, 2 * code, len + 1) && Agrees(b, tab, 2 * code + 1, len + 1)
    ensures Agrees(t, tab, code, len)
    ensures LeafCount(t) == LeafCount(a) + LeafCount(b)
  {
    t := Node(a, b);
  }

  ghost function Leaves(t: Tree): set<(int, int)>
  {
    match t
    case Leaf(x, y) => {(x, y)}
    case Node(a, b) => Leaves(a) + Leaves(b)
  }

  /** Below (code, len) every word extends the path that leads there. */
  lemma {:induction false} LeafPath(t: Tree, tab: Table, code: nat, len: nat, x: int, y: int)
    requires Agrees(t, tab, code, len) && (x, y) in Leaves(t)
    ensures tab.Has(x, y) && At(tab.len, y, x) >= len
    ensures At(tab.code, y, x) / Pow2(At(tab.len, y, x) - len) == code
    decreases t
  {
    match t
    case Leaf(_, _) =>
    case Node(a, b) =>
      var bit := if (x, y) in Leaves(a) then 0 else 1;
      LeafPath(if bit == 0 then a else b, tab, 2 * code + bit, len + 1, x, y);
      var c, n := At(tab.code, y, x), At(tab.len, y, x) - len - 1;
      HalvesComposeOuter(c, n);
  }

  lemma HalvesComposeOuter(v: nat, n: nat)
    ensures (v / Pow2(n)) / 2 == v / Pow2(n + 1)
  {
    var p := Pow2(n);
    var q := v / (2 * p);
    var r := v % (2 * p);
    assert v == 2 * (p * q) + r;
    if r < p {
      QuotientIs(v, p, 2 * q, r);
    } else {
      QuotientIs(v, p, 2 * q + 1, r - p);
    }
  }

  lemma LeavesApart(a: Tree, b: Tree, tab: Table, code: nat, len: nat, x: int, y: int)
    requires Agrees(a, tab, 2 * code, len + 1) && Agrees(b, tab, 2 * code + 1, len + 1)
    requires (x, y) in Leaves(a)
    ensures (x, y) !in Leaves(b)
  {
    LeafPath(a, tab, 2 * code, len + 1, x, y);
    if (x, y) in Leaves(b) {
      LeafPath(b, tab, 2 * code + 1, len + 1, x, y);
    }
  }

  lemma {:induction false} LeavesCounted(t: Tree, tab: Table, code: nat, len: nat)
    requires Agrees(t, tab, code, len)
    ensures |Leaves(t)| == LeafCount(t)
    decreases t
  {
    match t
    case Leaf(_, _) =>
    case Node(a, b) =>
      LeavesCounted(a, tab, 2 * code, len + 1);
      LeavesCounted(b, tab, 2 * code + 1, len + 1);
      forall p | p in Leaves(a)
        ensures p !in Leaves(b)
      {
        LeavesApart(a, b, tab, code, len, p.0, p.1);
      }
      assert Leaves(a) !! Leaves(b);
  }

  ghost function Row(w: nat, y: int): set<(int, int)>
  {
    if w == 0 then {} else Row(w - 1, y) + {(w - 1, y)}
  }

  ghost function Grid(w: nat, h: nat): set<(int, int)>
  {
    if h == 0 then {} else Grid(w, h - 1) + Row(w, h - 1)
  }

  lemma {:induction false} RowHas(w: nat, y: int, p: (int, int))
    ensures p in Row(w, y) <==> 0 <= p.0 < w && p.1 == y
  {
    if w > 0 {
      RowHas(w - 1, y, p);
    }
  }

  lemma {:induction false} GridHas(w: nat, h: nat, p: (int, int))
    ensures p in Grid(w, h) <==> 0 <= p.0 < w && 0 <= p.1 < h
  {
    if h > 0 {
      GridHas(w, h - 1, p);
      RowHas(w, h - 1, p);
    }
  }

  lemma {:induction false} RowSize(w: nat, y: int)
    ensures |Row(w, y)| == w
  {
    if w > 0 {
      RowSize(w - 1, y);
      RowHas(w - 1, y, (w - 1, y));
    }
  }

  lemma {:induction false} GridSize(w: nat, h: nat)
    ensures |Grid(w, h)| == w * h
  {
    if h > 0 {
      GridSize(w, h - 1);
      RowSize(w, h - 1);
      var g, r := Grid(w, h - 1), Row(w, h - 1);
      forall p | p in r
        ensures p !in g
      {
        RowHas(w, h - 1, p);
        GridHas(w, h - 1, p);
      }
      DisjointUnionSize(g, r);
      assert w * h == w * (h - 1) + w;
    }
  }

  lemma DisjointUnionSize<T>(a: set<T>, b: set<T>)
    requires a !! b
    ensures |a + b| == |a| + |b|
  {
  }

  /** The first n rows are w wide. */
  predicate AllWide(rows: seq<seq<nat>>, w: nat, n: nat)
  {
    n == 0 || (n <= |rows| && |rows[n - 1]| == w && AllWide(rows, w, n - 1))
  }

  /** The code array fills its grid and has nothing outside it. */
  predicate Shaped(tab: Table)
  {
    |tab.code| == tab.height && AllWide(tab.code, tab.width, tab.height)
  }

  lemma {:induction false} AllWideAt(rows: seq<seq<nat>>, w: nat, n: nat, y: int)
    requires AllWide(rows, w, n) && 0 <= y < n
    ensures y < |rows| && |rows[y]| == w
  {
    if y < n - 1 {
      AllWideAt(rows, w, n - 1, y);
    }
  }

  /** A tree that agrees with a table and has one leaf per entry decodes every word of it. */
  lemma EveryWordDecodes(t: Tree, tab: Table, x: int, y: int, rest: seq<bool>)
    requires Agrees(t, tab, 0, 0) && LeafCount(t) == tab.width * tab.height && Shaped(tab)
    requires 0 <= x < tab.width && 0 <= y < tab.height
    ensures tab.Has(x, y) && At(tab.len, y, x) < tab.width * tab.height
    ensures Walk(t, tab.Word(x, y) + rest) == Done((x, y), rest)
  {
    LeavesCounted(t, tab, 0, 0);
    GridSize(tab.width, tab.height);
    forall p | p in Leaves(t)
      ensures p in Grid(tab.width, tab.height)
    {
      LeafPath(t, tab, 0, 0, p.0, p.1);
      AllWideAt(tab.code, tab.width, tab.height, p.1);
      GridHas(tab.width, tab.height, p);
    }
    assert Leaves(t) <= Grid(tab.width, tab.height);
    SubsetOfSameSize(Leaves(t), Grid(tab.width, tab.height));
    GridHas(tab.width, tab.height, (x, y));
    LeafWalk(t, tab, 0, 0, x, y, rest);
    PathBound(t, tab, 0, 0, x, y);
  }

  lemma SubsetOfSameSize<T>(a: set<T>, b: set<T>)
    requires a <= b && |a| == |b|
    ensures a == b
  {
    assert b == a + (b - a);
    assert |b| == |a| + |b - a|;
  }

  lemma NextBit(c: nat, n: nat, bit: nat, rest: seq<bool>)
    requires (c / Pow2(n)) % 2 == bit
    ensures (BitsOf(c, n + 1) + rest)[0] == (bit == 1)
    ensures (BitsOf(c, n + 1) + rest)[1..] == BitsOf(c, n) + rest
  {
    BitsOfHead(c, n);
  }

  lemma NoBits(c: nat)
    ensures BitsOf(c, 0) == []
  {
  }

  lemma {:induction false} LeafWalk(t: Tree, tab: Table, code: nat, len: nat, x: int, y: int, rest: seq<bool>)
    requires Agrees(t, tab, code, len) && (x, y) in Leaves(t)
    ensures tab.Has(x, y) && At(tab.len, y, x) >= len
    ensures Walk(t, BitsOf(At(tab.code, y, x), At(tab.len, y, x) - len) + rest) == Done((x, y), rest)
    decreases t
  {
    hide BitsOf;
    match t
    case Leaf(_, _) =>
      NoBits(At(tab.code, y, x));
      assert [] + rest == rest;
    case Node(a, b) =>
      var bit := if (x, y) in Leaves(a) then 0 else 1;
      var sub := if bit == 0 then a else b;
      LeafPath(sub, tab, 2 * code + bit, len + 1, x, y);
      LeafWalk(sub, tab, 2 * code + bit, len + 1, x, y, rest);
      var c, n := At(tab.code, y, x), At(tab.len, y, x) - len - 1;
      assert (c / Pow2(n)) % 2 == bit;
      NextBit(c, n, bit, rest);
      WalkStep(a, b, bit == 1, BitsOf(c, n + 1) + rest);
  }

  lemma WalkStep(a: Tree, b: Tree, bit: bool, s: seq<bool>)
    requires s != [] && s[0] == bit
    ensures Walk(Node(a, b), s) == Walk(if bit then b else a, s[1..])
  {
  }

  /** A path is no longer than the number of leaves. */
  lemma {:induction false} PathBound(t: Tree, tab: Table, code: nat, len: nat, x: int, y: int)
    requires Agrees(t, tab, code, len) && (x, y) in Leaves(t)
    ensures At(tab.len, y, x) < len + LeafCount(t)
    decreases t
  {
    match t
    case Leaf(_, _) =>
    case Node(a, b) =>
      LeafCountPositive(a);
      LeafCountPositive(b);
      var bit := if (x, y) in Leaves(a) then 0 else 1;
      PathBound(if bit == 0 then a else b, tab, 2 * code + bit, len + 1, x, y);
  }

  lemma {:induction false} LeafCountPositive(t: Tree)
    ensures LeafCount(t) >= 1
  {
    match t
    case Leaf(_, _) =>
    case Node(a, b) =>
      LeafCountPositive(a);
      LeafCountPositive(b);
  }
}
