/** Huffman coding of quantized values: mp3/mp3enc-huff.h. */
module Huff {
  import opened Bits
  import opened PrefixCode
  import opened HuffTables
  import opened HuffTrees

  function Abs(v: int): nat { if v < 0 then -v else v }

  function Min(a: int, b: int): int { if a < b then a else b }

  /** Table numbers that have a pair code; 0 codes an all-zero region in no bits. */
  predicate PairTable(t: int)
  {
    t == 1 || t == 2 || t == 3 || 5 <= t <= 13 || 15 <= t <= 31
  }

  /** The count1 tables A and B. */
  predicate QuadTable(t: int) { t == 32 || t == 33 }

  /** The code of a table number; 16..23 and 24..31 share a tree. */
  function TableOf(t: int): Table
    requires PairTable(t) || QuadTable(t)
  {
    if t == 1 then TABLE_1 else if t == 2 then TABLE_2 else if t == 3 then TABLE_3
    else if t == 5 then TABLE_5 else if t == 6 then TABLE_6 else if t == 7 then TABLE_7
    else if t == 8 then TABLE_8 else if t == 9 then TABLE_9 else if t == 10 then TABLE_10
    else if t == 11 then TABLE_11 else if t == 12 then TABLE_12 else if t == 13 then TABLE_13
    else if t == 15 then TABLE_15 else if t <= 23 then TABLE_16 else if t <= 31 then TABLE_24
    else if t == 32 then TABLE_32 else TABLE_33
  }

  ghost predicate Decodes(tree: Tree, t: int)
    requires PairTable(t) || QuadTable(t)
  {
    && Agrees(tree, TableOf(t), 0, 0)
    && LeafCount(tree) == TableOf(t).width * TableOf(t).height
    && Shaped(TableOf(t))
  }

  lemma TreeExists(t: int) returns (tree: Tree)
    requires PairTable(t) || QuadTable(t)
    ensures Decodes(tree, t)
  {
    hide Agrees, LeafCount, Shaped;
    if t == 1 { tree := Tree1(); } else if t == 2 { tree := Tree2(); } else if t == 3 { tree := Tree3(); }
    else if t == 5 { tree := Tree5(); } else if t == 6 { tree := Tree6(); } else if t == 7 { tree := Tree7(); }
    else if t == 8 { tree := Tree8(); } else if t == 9 { tree := Tree9(); } else if t == 10 { tree := Tree10(); }
    else if t == 11 { tree := Tree11(); } else if t == 12 { tree := Tree12(); } else if t == 13 { tree := Tree13(); }
    else if t == 15 { tree := Tree15(); } else if t <= 23 { tree := Tree16(); } else if t <= 31 { tree := Tree24(); }
    else if t == 32 { tree := Tree32(); } else { tree := Tree33(); }
  }

  /** The tree a decoder walks for table t. */
  ghost function TreeOf(t: int): (tree: Tree)
    requires PairTable(t) || QuadTable(t)
    ensures Decodes(tree, t)
  {
    SomeTree(t);
    var tree :| Decodes(tree, t);
    tree
  }

  lemma SomeTree(t: int)
    requires PairTable(t) || QuadTable(t)
    ensures exists tree :: Decodes(tree, t)
  {
    var tree := TreeExists(t);
  }

  /** Symbols of table t are the (x, y) with x below Width and y below Height. */
  function Width(t: int): nat
    requires PairTable(t) || QuadTable(t)
  {
    if t == 1 then 2 else if t <= 3 then 3 else if t <= 6 then 4 else if t <= 9 then 6 else if t <= 12 then 8 else 16
  }

  function Height(t: int): nat
    requires PairTable(t) || QuadTable(t)
  {
    if QuadTable(t) then 1 else Width(t)
  }

  /** Code length and code word of a symbol, as the length and code arrays give them. */
  function WordLen(t: int, x: nat, y: nat): nat
    requires PairTable(t) || QuadTable(t)
    requires x < Width(t) && y < Height(t)
  {
    SymbolsPresent(t, x, y);
    TableOf(t).len[y][x]
  }

  function Word(t: int, x: nat, y: nat): (w: seq<bool>)
    requires PairTable(t) || QuadTable(t)
    requires x < Width(t) && y < Height(t)
    ensures |w| == WordLen(t, x, y)
  {
    SymbolsPresent(t, x, y);
    TableOf(t).Word(x, y)
  }

  lemma SymbolsPresent(t: int, x: nat, y: nat)
    requires PairTable(t) || QuadTable(t)
    requires x < Width(t) && y < Height(t)
    ensures TableOf(t).Has(x, y)
  {
    GridOf(t);
    hide *;
    EveryWordDecodes(TreeOf(t), TableOf(t), x, y, []);
  }

  lemma GridOf(t: int)
    requires PairTable(t) || QuadTable(t)
    ensures TableOf(t).width == Width(t) && TableOf(t).height == Height(t)
  {
  }

  lemma WordLenBound(t: int, x: nat, y: nat)
    requires PairTable(t) || QuadTable(t)
    requires x < Width(t) && y < Height(t)
    ensures WordLen(t, x, y) < 256
  {
    GridOf(t);
    EveryWordDecodes(TreeOf(t), TableOf(t), x, y, []);
    MulMonotone(Width(t), Height(t), 16);
  }

  lemma WordDecodes(t: int, x: nat, y: nat, rest: seq<bool>)
    requires PairTable(t) || QuadTable(t)
    requires x < Width(t) && y < Height(t)
    ensures Walk(TreeOf(t), Word(t, x, y) + rest) == Done((x, y), rest)
  {
    GridOf(t);
    EveryWordDecodes(TreeOf(t), TableOf(t), x, y, rest);
  }

  /** Bits appended for each escaped value (magnitude 15 or more) of table t. */
  function Linbits(t: int): nat
    requires PairTable(t)
  {
    LINBITS[t]
  }

  /** Table t can code value v without loss. */
  predicate Codable(t: int, v: int)
  {
    if t == 0 then v == 0
    else PairTable(t) && Min(Abs(v), 15) < Width(t) && Abs(v) < 15 + Pow2(Linbits(t))
  }

  /** The excess over 15 of an escaped value. */
  function EscapeCode(lb: nat, a: nat): seq<bool>
  {
    if a >= 15 && lb > 0 then BitsOf(a - 15, lb) else []
  }

  function SignCode(v: int): seq<bool>
  {
    if v == 0 then [] else [v < 0]
  }

  /** Linbits and sign of one value. */
  function TailCode(lb: nat, v: int): seq<bool>
  {
    EscapeCode(lb, Abs(v)) + SignCode(v)
  }

  /** The bits of a coded pair. */
  function PairCode(t: int, x: int, y: int): seq<bool>
    requires Codable(t, x) && Codable(t, y)
  {
    if t == 0 then []
    else Word(t, Min(Abs(x), 15), Min(Abs(y), 15)) + TailCode(Linbits(t), x) + TailCode(Linbits(t), y)
  }

  /** The size of a coded pair, as the encoder counts it without writing. */
  function PairBits(t: int, x: int, y: int): nat
    requires Codable(t, x) && Codable(t, y)
  {
    if t == 0 then 0
    else
      WordLen(t, Min(Abs(x), 15), Min(Abs(y), 15))
      + (if Abs(x) >= 15 then Linbits(t) else 0) + (if Abs(y) >= 15 then Linbits(t) else 0)
      + (if Abs(x) > 0 then 1 else 0) + if Abs(y) > 0 then 1 else 0
  }

  lemma PairSize(t: int, x: int, y: int)
    requires Codable(t, x) && Codable(t, y)
    ensures |PairCode(t, x, y)| == PairBits(t, x, y)
  {
    hide TableOf;
  }

  function ReadEscape(lb: nat, c: nat, s: seq<bool>): Read<nat>
  {
    if c == 15 && lb > 0 then
      var (e, rest) :- ReadBits(lb, s);
      Done(15 + e, rest)
    else Done(c, s)
  }

  function ReadSign(a: nat, s: seq<bool>): Read<int>
  {
    if a == 0 then Done(0, s)
    else if s == [] then Fail
    else Done(if s[0] then 0 - a else a, s[1..])
  }

  lemma PairBitsBound(t: int, x: int, y: int)
    requires Codable(t, x) && Codable(t, y)
    ensures PairBits(t, x, y) < 300
  {
    hide WordLen, TableOf, Pow2;
    if t != 0 {
      WordLenBound(t, Min(Abs(x), 15), Min(Abs(y), 15));
    }
  }

  function DecodeTail(lb: nat, c: nat, s: seq<bool>): Read<int>
  {
    var (a, rest) :- ReadEscape(lb, c, s);
    ReadSign(a, rest)
  }

  ghost function DecodePair(t: int, s: seq<bool>): Read<(int, int)>
    requires t == 0 || PairTable(t)
  {
    if t == 0 then Done((0, 0), s)
    else
      var (c, s1) :- Walk(TreeOf(t), s);
      if c.0 < 0 || c.1 < 0 then Fail
      else
        var (x, s2) :- DecodeTail(Linbits(t), c.0, s1);
        var (y, s3) :- DecodeTail(Linbits(t), c.1, s2);
        Done((x, y), s3)
  }

  lemma EscapeBack(lb: nat, a: nat, rest: seq<bool>)
    requires a < 15 + Pow2(lb)
    ensures ReadEscape(lb, Min(a, 15), EscapeCode(lb, a) + rest) == Done(a, rest)
  {
    if a >= 15 && lb > 0 {
      ReadBitsBack(a - 15, lb, rest);
    } else {
      assert [] + rest == rest;
      assert lb == 0 ==> Pow2(lb) == 1;
    }
  }

  lemma SignBack(v: int, rest: seq<bool>)
    ensures ReadSign(Abs(v), SignCode(v) + rest) == Done(v, rest)
  {
    assert v != 0 ==> (SignCode(v) + rest)[1..] == rest;
    assert v == 0 ==> SignCode(v) + rest == rest;
  }

  lemma TailBack(lb: nat, v: int, rest: seq<bool>)
    requires Abs(v) < 15 + Pow2(lb)
    ensures DecodeTail(lb, Min(Abs(v), 15), TailCode(lb, v) + rest) == Done(v, rest)
  {
    hide EscapeCode, SignCode, ReadEscape, ReadSign, Pow2;
    var e, sign := EscapeCode(lb, Abs(v)), SignCode(v);
    assert TailCode(lb, v) + rest == e + (sign + rest);
    EscapeBack(lb, Abs(v), sign + rest);
    SignBack(v, rest);
  }

  /** A coded pair is read back whatever follows it. */
  lemma PairRoundTrip(t: int, x: int, y: int, rest: seq<bool>)
    requires Codable(t, x) && Codable(t, y)
    ensures DecodePair(t, PairCode(t, x, y) + rest) == Done((x, y), rest)
  {
    hide Word, WordLen, TailCode, DecodeTail, Walk, Decodes, Pow2;
    if t == 0 {
      assert PairCode(t, x, y) + rest == rest;
    } else {
      var lb := Linbits(t);
      var word, tx, ty := Word(t, Min(Abs(x), 15), Min(Abs(y), 15)), TailCode(lb, x), TailCode(lb, y);
      assert PairCode(t, x, y) + rest == word + (tx + (ty + rest));
      WordDecodes(t, Min(Abs(x), 15), Min(Abs(y), 15), tx + (ty + rest));
      assert Walk(TreeOf(t), PairCode(t, x, y) + rest) == Done((Min(Abs(x), 15), Min(Abs(y), 15)), tx + (ty + rest));
      TailBack(lb, x, ty + rest);
      TailBack(lb, y, rest);
    }
  }

  lemma CellInRange(t: int, x: int, y: int)
    requires Codable(t, x) && Codable(t, y)
    ensures t == 0 || (PairTable(t) && Min(Abs(x), 15) < Width(t) && Min(Abs(y), 15) < Height(t))
    ensures t != 0 ==>
              PairBits(t, x, y) == WordLen(t, Min(Abs(x), 15), Min(Abs(y), 15)) + |TailCode(Linbits(t), x)|
                  + |TailCode(Linbits(t), y)|
  {
    PairSize(t, x, y);
    hide Word, WordLen, TailCode;
  }

  method WritePair(bs: Bitstream, t: int, x: int, y: int)
    requires bs.Valid() && Codable(t, x) && Codable(t, y)
    requires bs.TotalBits() + PairBits(t, x, y) <= 8 * bs.buf.Length
    modifies bs, bs.buf
    ensures bs.Valid() && bs.Written() == old(bs.Written()) + PairCode(t, x, y)
  {
    hide Word, WordLen, Pow2, BitsOf, TailCode, Linbits, Width, Height;
    ghost var w0 := bs.Written();
    CellInRange(t, x, y);
    if t == 0 {
      assert w0 + [] == w0;
      return;
    }
    var ax, ay := Abs(x), Abs(y);
    var cx, cy := Min(ax, 15), Min(ay, 15);
    var lb := Linbits(t);
    WriteWord(bs, t, cx, cy);
    WriteTail(bs, lb, cx, x);
    WriteTail(bs, lb, cy, y);
    ghost var word, tx, ty := Word(t, cx, cy), TailCode(lb, x), TailCode(lb, y);
    assert w0 + word + tx + ty == w0 + (word + tx + ty);
  }

  method WriteTail(bs: Bitstream, lb: nat, c: nat, v: int)
    requires bs.Valid() && c == Min(Abs(v), 15)
    requires bs.TotalBits() + |TailCode(lb, v)| <= 8 * bs.buf.Length
    modifies bs, bs.buf
    ensures bs.Valid() && bs.Written() == old(bs.Written()) + TailCode(lb, v)
  {
    hide BitsOf;
    ghost var w0 := bs.Written();
    var a := Abs(v);
    if c == 15 && lb > 0 {
      bs.Put(a - 15, lb);
    }
    assert bs.Written() == w0 + EscapeCode(lb, a);
    if a > 0 {
      bs.PutBit(v < 0);
    }
    assert bs.Written() == w0 + TailCode(lb, v);
  }

  method WriteWord(bs: Bitstream, t: int, x: nat, y: nat)
    requires bs.Valid() && (PairTable(t) || QuadTable(t)) && x < Width(t) && y < Height(t)
    requires bs.TotalBits() + WordLen(t, x, y) <= 8 * bs.buf.Length
    modifies bs, bs.buf
    ensures bs.Valid() && bs.Written() == old(bs.Written()) + Word(t, x, y)
  {
    SymbolsPresent(t, x, y);
    bs.Put(TableOf(t).code[y][x], TableOf(t).len[y][x]);
  }
}
