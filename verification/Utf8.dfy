/** Byte strings and the reading of code points from them (utf8_codepoint in src/bpe.h). */
module Utf8 {

  type Octet = b: int | 0 <= b < 256

  type Text = seq<Octet>

  /** Bytes a code point takes, from its first byte; bytes that start none count as one. */
  function Advance(c: Octet): (n: nat)
    ensures 1 <= n <= 4
  {
    if 0xC0 <= c < 0xE0 then 2 else if 0xE0 <= c < 0xF0 then 3 else if 0xF0 <= c < 0xF8 then 4 else 1
  }

  /** The byte at i, or the terminating zero. */
  function At(s: Text, i: nat): Octet { if i < |s| then s[i] else 0 }

  /** utf8_codepoint at i. */
  function Codepoint(s: Text, i: nat): (cp: nat)
  {
    var c := At(s, i);
    if 0xC0 <= c < 0xE0 then c % 32 * 64 + At(s, i + 1) % 64
    else if 0xE0 <= c < 0xF0 then c % 16 * 4096 + At(s, i + 1) % 64 * 64 + At(s, i + 2) % 64
    else if 0xF0 <= c < 0xF8 then
      c % 8 * 262144 + At(s, i + 1) % 64 * 4096 + At(s, i + 2) % 64 * 64 + At(s, i + 3) % 64
    else c
  }

  /** A code point of four bytes is read from its groups of 3, 6, 6 and 6 bits (section 3 of RFC 3629). */
  lemma FourRead(a: nat, b: nat, c: nat, d: nat, rest: Text)
    requires a < 8 && b < 64 && c < 64 && d < 64
    ensures var s := [0xF0 + a, 0x80 + b, 0x80 + c, 0x80 + d] + rest;
            Codepoint(s, 0) == a * 262144 + b * 4096 + c * 64 + d && Advance(s[0]) == 4
  {
    var s := [0xF0 + a, 0x80 + b, 0x80 + c, 0x80 + d] + rest;
    assert s[0] == 0xF0 + a && s[1] == 0x80 + b && s[2] == 0x80 + c && s[3] == 0x80 + d;
    assert (0x80 + b) % 64 == b && (0x80 + c) % 64 == c && (0x80 + d) % 64 == d && (0xF0 + a) % 8 == a;
  }

  predicate Continuation(c: Octet) { 0x80 <= c < 0xC0 }

  /** The continuation bytes of the code point at i are there, and it is no overlong form of an ASCII character. */
  predicate WholeAt(s: Text, i: nat)
    requires i < |s|
  {
    var n := Advance(s[i]);
    && i + n <= |s|
    && (n >= 2 ==> Codepoint(s, i) >= 0x80)
    && (n >= 2 ==> Continuation(s[i + 1])) && (n >= 3 ==> Continuation(s[i + 2])) && (n >= 4 ==> Continuation(s[i + 3]))
  }

  /** No code point is cut off or overlong: all that the tokenizer needs of valid UTF-8. */
  predicate Whole(s: Text)
  {
    forall i :: 0 <= i < |s| ==> WholeAt(s, i)
  }

  /** Length of the UTF-8 sequence starting at the front of s, 0 if there is none (section 4 of RFC 3629). */
  function Sequence(s: Text): (n: nat)
    ensures n <= |s|
  {
    if s == [] then 0
    else if s[0] < 0x80 then 1
    else if |s| >= 2 && 0xC2 <= s[0] < 0xE0 && Continuation(s[1]) then 2
    else if |s| >= 3 && 0xE0 <= s[0] < 0xF0 && Continuation(s[1]) && Continuation(s[2])
            && (s[0] == 0xE0 ==> s[1] >= 0xA0) && (s[0] == 0xED ==> s[1] < 0xA0) then 3
    else if |s| >= 4 && 0xF0 <= s[0] < 0xF5 && Continuation(s[1]) && Continuation(s[2]) && Continuation(s[3])
            && (s[0] == 0xF0 ==> s[1] >= 0x90) && (s[0] == 0xF4 ==> s[1] < 0x90) then 4
    else 0
  }

  /** Valid UTF-8. */
  predicate Valid(s: Text)
  {
    s == [] || (Sequence(s) > 0 && Valid(s[Sequence(s)..]))
  }

  lemma {:induction false} ValidWhole(s: Text)
    requires Valid(s)
    ensures Whole(s)
  {
    if s != [] {
      var n := Sequence(s);
      var t := s[n..];
      ValidWhole(t);
      forall i | 0 <= i < |s|
        ensures WholeAt(s, i)
      {
        if i >= n {
          assert WholeAt(t, i - n) && s[i] == t[i - n];
        }
      }
    }
  }

  /** Cutting a whole text before a byte that continues nothing leaves whole texts. */
  lemma WholeSplit(s: Text, from: nat, end: nat)
    requires Whole(s) && from <= end <= |s| && (end < |s| ==> !Continuation(s[end]))
    ensures Whole(s[from..end])
  {
    var t := s[from..end];
    forall i | 0 <= i < |t|
      ensures WholeAt(t, i)
    {
      assert WholeAt(s, from + i) && t[i] == s[from + i];
    }
  }

  function Flat(parts: seq<Text>): (s: Text)
  {
    if parts == [] then [] else Flat(parts[..|parts| - 1]) + parts[|parts| - 1]
  }

  lemma FlatMore(parts: seq<Text>, p: Text)
    ensures Flat(parts + [p]) == Flat(parts) + p
  {
    assert (parts + [p])[..|parts|] == parts;
  }

  lemma {:induction false} FlatConcat(a: seq<Text>, b: seq<Text>)
    ensures Flat(a + b) == Flat(a) + Flat(b)
  {
    if b == [] {
      assert a + b == a;
    } else {
      assert (a + b)[..|a + b| - 1] == a + b[..|b| - 1];
      FlatConcat(a, b[..|b| - 1]);
    }
  }

  /** One group per byte. */
  function Singles(bytes: Text): (g: seq<Text>)
    ensures |g| == |bytes| && forall i :: 0 <= i < |g| ==> g[i] == [bytes[i]]
  {
    seq(|bytes|, i requires 0 <= i < |bytes| => [bytes[i]])
  }

  lemma {:induction false} FlatSingles(bytes: Text)
    ensures Flat(Singles(bytes)) == bytes
  {
    if bytes != [] {
      FlatSingles(bytes[..|bytes| - 1]);
      assert Singles(bytes)[..|bytes| - 1] == Singles(bytes[..|bytes| - 1]);
    }
  }
}
