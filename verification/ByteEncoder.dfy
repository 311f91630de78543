/**
 * The byte-level alphabet of src/bpe.h: every byte has its own printable character, and decode_token of
 * src/metadata-fsm.h turns characters back into bytes.
 */
module ByteEncoder {
  import opened Utf8

  predicate Printable(b: int) { 33 <= b <= 126 || 161 <= b <= 172 || 174 <= b <= 255 }

  /** Bytes below b that need a stand-in. */
  function Unprintable(b: nat): (n: nat)
    ensures n <= b
  {
    if b == 0 then 0 else Unprintable(b - 1) + if Printable(b - 1) then 0 else 1
  }

  /** The code point that stands for a byte: itself, or 256 and up in order. */
  function CodeOf(b: Octet): nat
  {
    if Printable(b) then b else 256 + Unprintable(b)
  }

  /** The code points: 256 and up for control bytes and space, DEL and the bytes behind it, and the soft hyphen. */
  lemma CodeValues(b: Octet)
    ensures CodeOf(b) == if b <= 32 then b + 256 else if 127 <= b <= 160 then b + 162 else if b == 173 then 323 else b
  {
    UnprintableCount(b);
  }

  lemma {:induction false} UnprintableCount(b: nat)
    requires b <= 256
    ensures Unprintable(b)
            == if b <= 33 then b else if b <= 127 then 33 else if b <= 161 then b - 94 else if b <= 173 then 67 else 68
  {
    if b > 0 { UnprintableCount(b - 1); }
  }

  lemma {:induction false} UnprintableGrows(a: nat, b: nat)
    requires a < b && !Printable(a)
    ensures Unprintable(a) < Unprintable(b)
  {
    if b > a + 1 {
      UnprintableGrows(a, b - 1);
    }
  }

  /** No two bytes share a character. */
  lemma CodeInjective(a: Octet, b: Octet)
    requires CodeOf(a) == CodeOf(b)
    ensures a == b
  {
    if !Printable(a) && !Printable(b) {
      if a < b { UnprintableGrows(a, b); } else if b < a { UnprintableGrows(b, a); }
    }
  }

  /** A code point as UTF-8, for the code points that occur. */
  function Encoded(cp: nat): (s: Text)
    requires cp < 0x10000
    ensures 1 <= |s| <= 3
  {
    if cp < 0x80 then [cp]
    else if cp < 0x800 then [0xC0 + cp / 64, 0x80 + cp % 64]
    else [0xE0 + cp / 4096, 0x80 + cp / 64 % 64, 0x80 + cp % 64]
  }

  /** Reading a code point from the front of a text undoes writing it. */
  lemma EncodedReads(cp: nat, rest: Text)
    requires cp < 0x10000
    ensures var s := Encoded(cp) + rest; Codepoint(s, 0) == cp && Advance(s[0]) == |Encoded(cp)|
  {
    if cp >= 0x800 {
      ThreeBytes(cp, rest);
    } else {
      var s := Encoded(cp) + rest;
      assert At(s, 0) == s[0] == Encoded(cp)[0];
      if cp >= 0x80 { assert At(s, 1) == s[1] == Encoded(cp)[1]; }
    }
  }

  lemma ThreeBytes(cp: nat, rest: Text)
    requires 0x800 <= cp < 0x10000
    ensures var s := Encoded(cp) + rest; Codepoint(s, 0) == cp && Advance(s[0]) == 3
  {
    var s := Encoded(cp) + rest;
    var hi, mid, lo := cp / 4096, cp / 64 % 64, cp % 64;
    assert hi < 16;
    assert s[0] == 0xE0 + hi && s[1] == 0x80 + mid && s[2] == 0x80 + lo;
    assert Codepoint(s, 0) == (0xE0 + hi) % 16 * 4096 + (0x80 + mid) % 64 * 64 + (0x80 + lo) % 64;
    assert (0xE0 + hi) % 16 == hi && (0x80 + mid) % 64 == mid && (0x80 + lo) % 64 == lo;
    assert cp == hi * 4096 + mid * 64 + lo;
  }

  lemma CodeBound(b: Octet)
    ensures CodeOf(b) < 0x200 && CodeOf(b) != 32 && CodeOf(b) != 0
  {
  }

  /** The character for a byte. */
  function Symbol(b: Octet): (s: Text)
    ensures 1 <= |s| <= 3
  {
    CodeBound(b);
    Encoded(CodeOf(b))
  }

  /** No character of the alphabet holds a space or a zero byte. */
  lemma SymbolBytes(b: Octet)
    ensures 32 !in Symbol(b) && 0 !in Symbol(b)
  {
    CodeBound(b);
  }

  /** build_byte_encoder. */
  method BuildByteEncoder() returns (table: array<Text>)
    ensures fresh(table) && table.Length == 256 && forall b: Octet :: table[b] == Symbol(b)
  {
    hide Symbol, Unprintable;
    var bs, cs: seq<nat> := [], [];
    bs, cs := AddRange(bs, cs, 33, 126);
    bs, cs := AddRange(bs, cs, 161, 172);
    bs, cs := AddRange(bs, cs, 174, 255);
    bs, cs := AddRest(bs, cs);
    table := new Text[256](_ => []);
    for i := 0 to |bs|
      invariant forall j :: 0 <= j < i ==> table[bs[j]] == Symbol(bs[j])
    {
      SymbolIs(bs[i]);
      table[bs[i]] := Encoded(cs[i]);
    }
    forall b: Octet
      ensures table[b] == Symbol(b)
    {
      assert b in bs;
    }
  }

  lemma SymbolIs(b: Octet)
    ensures CodeOf(b) < 0x200 && Symbol(b) == Encoded(CodeOf(b))
  {
    CodeBound(b);
  }

  /** The bytes not used so far get the code points from 256 on. */
  method AddRest(bs0: seq<nat>, cs0: seq<nat>) returns (bs: seq<nat>, cs: seq<nat>)
    requires Paired(bs0, cs0) && forall b: nat :: b in bs0 <==> Printable(b)
    ensures Paired(bs, cs) && forall b: Octet :: b in bs
  {
    bs, cs := bs0, cs0;
    var used := MarkUsed(bs);
    var n := 0;
    for b := 0 to 256
      invariant Paired(bs, cs) && n == Unprintable(b)
      invariant forall k: Octet :: Printable(k) || k < b ==> k in bs
    {
      if !used[b] {
        bs, cs, n := bs + [b], cs + [256 + n], n + 1;
      }
    }
  }

  method MarkUsed(bs: seq<nat>) returns (used: array<bool>)
    requires forall i :: 0 <= i < |bs| ==> bs[i] < 256
    ensures fresh(used) && used.Length == 256 && forall b: Octet :: used[b] <==> b in bs
  {
    used := new bool[256](_ => false);
    for i := 0 to |bs|
      invariant forall b: Octet :: used[b] <==> b in bs[..i]
    {
      used[bs[i]] := true;
      assert bs[..i + 1] == bs[..i] + [bs[i]];
    }
    assert bs[..|bs|] == bs;
  }

  /** Each byte stands beside its code point. */
  ghost predicate Paired(bs: seq<nat>, cs: seq<nat>)
  {
    |bs| == |cs| && forall i :: 0 <= i < |bs| ==> bs[i] < 256 && cs[i] == CodeOf(bs[i])
  }

  method AddRange(bs0: seq<nat>, cs0: seq<nat>, first: Octet, last: Octet) returns (bs: seq<nat>, cs: seq<nat>)
    requires first <= last && Paired(bs0, cs0) && forall b :: first <= b <= last ==> Printable(b)
    ensures Paired(bs, cs)
    ensures forall b: nat :: b in bs <==> b in bs0 || first <= b <= last
  {
    bs, cs := bs0, cs0;
    for b := first to last + 1
      invariant Paired(bs, cs)
      invariant forall k: nat :: k in bs <==> k in bs0 || first <= k < b
    {
      bs, cs := bs + [b], cs + [b];
    }
  }

  /** Bytes in the alphabet. */
  function Spelled(s: Text): Text
  {
    if s == [] then [] else Spelled(s[..|s| - 1]) + Symbol(s[|s| - 1])
  }

  lemma {:induction false} SpelledConcat(a: Text, b: Text)
    ensures Spelled(a + b) == Spelled(a) + Spelled(b)
  {
    if b == [] {
      assert a + b == a;
    } else {
      assert (a + b)[..|a + b| - 1] == a + b[..|b| - 1];
      SpelledConcat(a, b[..|b| - 1]);
    }
  }

  lemma SpelledOne(b: Octet)
    ensures Spelled([b]) == Symbol(b)
  {
    assert [b][..0] == [];
  }

  /** Code points to bytes, as the decoder's reverse map. */
  ghost predicate Reverses(dec: map<nat, Octet>)
  {
    forall b: Octet :: CodeOf(b) in dec && dec[CodeOf(b)] == b
  }

  /** The reverse map made from the table. */
  method BuildDecoder(table: array<Text>) returns (dec: map<nat, Octet>)
    requires table.Length == 256 && forall b: Octet :: table[b] == Symbol(b)
    ensures Reverses(dec)
  {
    dec := map[];
    for b := 0 to 256
      invariant forall k: Octet :: k < b ==> CodeOf(k) in dec && dec[CodeOf(k)] == k
    {
      CodeBound(b);
      EncodedReads(CodeOf(b), []);
      assert Encoded(CodeOf(b)) + [] == table[b];
      forall k: Octet | k < b && CodeOf(k) == CodeOf(b) ensures false { CodeInjective(k, b); }
      dec := dec[Codepoint(table[b], 0) := b];
    }
  }

  /** decode_token from position p on: stops at a zero byte, drops unknown characters. */
  function Decoded(dec: map<nat, Octet>, s: Text, p: nat): Text
    decreases |s| - p
  {
    if p >= |s| || s[p] == 0 then []
    else
      var cp := Codepoint(s, p);
      (if cp in dec then [dec[cp]] else []) + Decoded(dec, s, p + Advance(s[p]))
  }

  method DecodeToken(dec: map<nat, Octet>, s: Text) returns (out: Text)
    ensures out == Decoded(dec, s, 0)
  {
    out := [];
    var p := 0;
    while p < |s| && s[p] != 0
      invariant out + Decoded(dec, s, p) == Decoded(dec, s, 0)
      decreases |s| - p
    {
      var cp := Codepoint(s, p);
      if cp in dec {
        out := out + [dec[cp]];
      }
      p := p + Advance(s[p]);
    }
  }

  /** Decoding reads back what was spelled. */
  lemma {:induction false} DecodeSpelled(dec: map<nat, Octet>, bytes: Text, k: nat)
    requires Reverses(dec) && k <= |bytes|
    ensures Decoded(dec, Spelled(bytes), |Spelled(bytes[..k])|) == bytes[k..]
    decreases |bytes| - k
  {
    hide Spelled, Codepoint, CodeOf, Advance;
    if k == |bytes| {
      assert bytes[..k] == bytes;
    } else {
      DecodeSpelled(dec, bytes, k + 1);
      SymbolAt(bytes, k);
      var s, p := Spelled(bytes), |Spelled(bytes[..k])|;
      assert Decoded(dec, s, p) == [bytes[k]] + Decoded(dec, s, p + Advance(s[p]));
      assert bytes[k..] == [bytes[k]] + bytes[k + 1..];
    }
  }

  /** In the spelled text, byte k's character stands after those before it. */
  lemma SymbolAt(bytes: Text, k: nat)
    requires k < |bytes|
    ensures var s, p := Spelled(bytes), |Spelled(bytes[..k])|;
            && p < |s| && s[p] != 0 && Codepoint(s, p) == CodeOf(bytes[k])
            && p + Advance(s[p]) == |Spelled(bytes[..k + 1])| <= |s|
            && s[p..p + Advance(s[p])] == Symbol(bytes[k])
  {
    hide Spelled, Codepoint, CodeOf, Advance;
    var b := bytes[k];
    assert bytes[..k + 1] == bytes[..k] + [b] && bytes == bytes[..k + 1] + bytes[k + 1..];
    SpelledConcat(bytes[..k], [b]);
    SpelledConcat(bytes[..k + 1], bytes[k + 1..]);
    SpelledOne(b);
    SymbolFound(Spelled(bytes[..k]), b, Spelled(bytes[k + 1..]));
  }

  lemma SymbolFound(before: Text, b: Octet, rest: Text)
    ensures var s, p := before + Symbol(b) + rest, |before|;
            && s[p] != 0 && Codepoint(s, p) == CodeOf(b) && Advance(s[p]) == |Symbol(b)|
            && s[p..p + Advance(s[p])] == Symbol(b)
  {
    hide Codepoint, CodeOf, Advance, Encoded;
    SymbolIs(b);
    EncodedReads(CodeOf(b), rest);
    SymbolBytes(b);
    var t := Symbol(b) + rest;
    SameCodepoint(before, t);
    assert before + Symbol(b) + rest == before + t;
    assert t[0] == Symbol(b)[0];
  }

  lemma SameCodepoint(a: Text, b: Text)
    requires b != []
    ensures Codepoint(a + b, |a|) == Codepoint(b, 0) && (a + b)[|a|] == b[0]
  {
    assert At(a + b, |a| + 0) == At(b, 0) && At(a + b, |a| + 1) == At(b, 1)
        && At(a + b, |a| + 2) == At(b, 2) && At(a + b, |a| + 3) == At(b, 3);
  }
}
