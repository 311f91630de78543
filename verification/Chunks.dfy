/** The pre-tokenizer of src/bpe.h: what it cuts a text into, and exactly when it terminates. */
module Chunks {
  import opened Utf8

  predicate IsLetter(cp: nat)
  {
    || 65 <= cp <= 90 || 97 <= cp <= 122
    || (0xC0 <= cp <= 0x024F && cp != 0xD7 && cp != 0xF7)
    || 0x0370 <= cp <= 0x1FFF || 0x2C00 <= cp <= 0x2DFF || 0x3040 <= cp <= 0x9FFF || 0xAC00 <= cp <= 0xD7AF
    || 0xF900 <= cp <= 0xFAFF || 0x10000 <= cp
  }

  predicate IsDigit(cp: nat) { 48 <= cp <= 57 }

  predicate IsWhitespace(cp: nat)
  {
    cp == 32 || 9 <= cp <= 13 || cp == 0xA0 || 0x2000 <= cp <= 0x2002 || cp == 0x200B
  }

  predicate IsNewline(cp: nat) { cp == 10 || cp == 13 }

  /** Neither space, letter nor digit. */
  predicate IsSymbol(cp: nat) { !IsWhitespace(cp) && !IsLetter(cp) && !IsDigit(cp) }

  const SUFFIXES: seq<Text> := [[108, 108], [114, 101], [118, 101], [115], [116], [109], [100]]

  function Lower(c: Octet): Octet { if 65 <= c <= 90 then c + 32 else c }

  /** The suffix stands at i in either case, and no letter follows it. */
  predicate Matches(s: Text, i: nat, suffix: Text)
  {
    && i + |suffix| <= |s|
    && (forall k :: 0 <= k < |suffix| ==> Lower(s[i + k]) == suffix[k])
    && (i + |suffix| < |s| ==> !IsLetter(Codepoint(s, i + |suffix|)))
  }

  /** No code point is cut off by the end of the text. */
  predicate Uncut(s: Text)
  {
    forall i :: 0 <= i < |s| ==> i + Advance(s[i]) <= |s|
  }

  /** End of the code points of one kind from i on. */
  function RunEnd(s: Text, i: nat, kind: nat -> bool): (end: nat)
    requires Uncut(s) && i <= |s|
    ensures i <= end <= |s|
    decreases |s| - i
  {
    if i < |s| && kind(Codepoint(s, i)) then RunEnd(s, i + Advance(s[i]), kind) else i
  }

  /** End of the bytes of one kind from i on. */
  function BytesEnd(s: Text, i: nat, kind: nat -> bool): (end: nat)
    requires i <= |s|
    ensures i <= end <= |s|
    decreases |s| - i
  {
    if i < |s| && kind(s[i]) then BytesEnd(s, i + 1, kind) else i
  }

  /** Length of the first suffix that matches at i, from the k-th on, or 0. */
  function SuffixAt(s: Text, i: nat, k: nat): (n: nat)
    requires k <= |SUFFIXES|
    ensures n > 0 ==> i + n <= |s|
    decreases |SUFFIXES| - k
  {
    if k == |SUFFIXES| then 0
    else if Matches(s, i, SUFFIXES[k]) then |SUFFIXES[k]|
    else SuffixAt(s, i, k + 1)
  }

  /** End of the contraction at i, or i. */
  function ContractionEnd(s: Text, i: nat): (end: nat)
    requires Uncut(s) && i < |s|
    ensures i <= end <= |s|
  {
    var cp, after := Codepoint(s, i), i + Advance(s[i]);
    if (cp == 39 || cp == 0x2019) && after < |s| && SuffixAt(s, after, 0) > 0 then after + SuffixAt(s, after, 0) else i
  }

  function PlainSpace(c: nat): bool { IsWhitespace(c) && !IsNewline(c) }

  /** Symbols from i, then newlines. */
  function SymbolsEnd(s: Text, i: nat): (end: nat)
    requires Uncut(s) && i <= |s|
    ensures i <= end <= |s|
  {
    BytesEnd(s, RunEnd(s, i, IsSymbol), IsNewline)
  }

  /** End of the chunk that starts with a space that is no newline. */
  function SpaceEnd(s: Text, i: nat): (end: nat)
    requires Uncut(s) && i < |s|
    ensures i < end <= |s|
  {
    var after := i + Advance(s[i]);
    var wsEnd := BytesEnd(s, after, PlainSpace);
    if wsEnd < |s| && !IsWhitespace(s[wsEnd]) && !IsNewline(s[wsEnd]) && wsEnd - i > 1 then wsEnd - 1
    else if after == |s| then RunEnd(s, wsEnd, IsWhitespace)
    else
      var cp := Codepoint(s, after);
      if IsLetter(cp) then RunEnd(s, after, IsLetter)
      else if IsDigit(cp) then after
      else if !IsWhitespace(cp) && !IsNewline(cp) then SymbolsEnd(s, after)
      else RunEnd(s, wsEnd, IsWhitespace)
  }

  /** Where one pass of the outer loop that starts at i leaves the cursor: the first rule that applies decides. */
  function PassEnd(s: Text, i: nat): (end: nat)
    requires Uncut(s) && i < |s|
    ensures i <= end <= |s|
  {
    var cp, after := Codepoint(s, i), i + Advance(s[i]);
    if ContractionEnd(s, i) > i then ContractionEnd(s, i)
    else if IsLetter(cp) then RunEnd(s, after, IsLetter)
    else if !IsNewline(cp) && IsSymbol(cp) && after < |s| && IsLetter(Codepoint(s, after)) then
      RunEnd(s, after, IsLetter)
    else if IsDigit(cp) then BytesEnd(s, i, IsDigit)
    else if IsNewline(cp) then BytesEnd(s, i, IsNewline)
    else if IsWhitespace(cp) then SpaceEnd(s, i)
    else SymbolsEnd(s, after)
  }

  /** An overlong newline or digit: one that takes more than one byte. */
  predicate Overlong(s: Text, i: nat)
    requires i < |s|
  {
    Advance(s[i]) > 1 && (IsNewline(Codepoint(s, i)) || IsDigit(Codepoint(s, i)))
  }

  /** A pass gets nowhere exactly at an overlong newline or digit. */
  lemma StuckExactly(s: Text, i: nat)
    requires Uncut(s) && i < |s|
    ensures PassEnd(s, i) == i <==> Overlong(s, i)
  {
    hide SpaceEnd, SymbolsEnd, SuffixAt, RunEnd;
  }

  /** The cursor after n passes. */
  function Cursor(s: Text, n: nat): (i: nat)
    requires Uncut(s)
    ensures i <= |s|
  {
    if n == 0 then 0
    else
      var i := Cursor(s, n - 1);
      if i < |s| then PassEnd(s, i) else i
  }

  /** No pass starts at an overlong newline or digit. */
  ghost predicate Unstuck(s: Text)
    requires Uncut(s)
  {
    forall n: nat :: Cursor(s, n) < |s| ==> !Overlong(s, Cursor(s, n))
  }

  lemma {:induction false} StaysPut(s: Text, n: nat, m: nat)
    requires Uncut(s) && n <= m && Cursor(s, n) < |s| && Overlong(s, Cursor(s, n))
    ensures Cursor(s, m) == Cursor(s, n)
  {
    hide PassEnd, Overlong;
    if n < m {
      StaysPut(s, n, m - 1);
      StuckExactly(s, Cursor(s, n));
    }
  }

  lemma {:induction false} Advances(s: Text, n: nat)
    requires Uncut(s) && Unstuck(s)
    ensures Cursor(s, n) >= n || Cursor(s, n) == |s|
  {
    hide PassEnd, Overlong;
    if n > 0 {
      Advances(s, n - 1);
      if Cursor(s, n - 1) < |s| { StuckExactly(s, Cursor(s, n - 1)); }
    }
  }

  lemma {:induction false} CursorGrows(s: Text, n: nat, m: nat)
    requires Uncut(s) && n <= m
    ensures Cursor(s, n) <= Cursor(s, m)
  {
    hide PassEnd;
    if n < m {
      CursorGrows(s, n, m - 1);
    }
  }

  /** The pre-tokenizer terminates exactly when no pass starts at an overlong newline or digit. */
  lemma TerminatesExactly(s: Text)
    requires Uncut(s)
    ensures (exists n: nat :: Cursor(s, n) == |s|) <==> Unstuck(s)
  {
    hide PassEnd, Overlong, Cursor;
    if Unstuck(s) {
      Advances(s, |s|);
    } else {
      var n: nat :| Cursor(s, n) < |s| && Overlong(s, Cursor(s, n));
      forall m: nat ensures Cursor(s, m) != |s| {
        if n <= m { StaysPut(s, n, m); } else { CursorGrows(s, m, n); }
      }
    }
  }

  /** An overlong newline: the two bytes C0 8A keep the cursor at 0 for ever. */
  lemma EndlessNewline()
    ensures var s: Text := [0xC0, 0x8A];
            Uncut(s) && forall n: nat :: Cursor(s, n) == 0
  {
    var s: Text := [0xC0, 0x8A];
    assert s[0] == 0xC0 && s[1] == 0x8A;
    assert Cursor(s, 0) == 0 && Codepoint(s, 0) == 10 && Overlong(s, 0);
    forall n: nat ensures Cursor(s, n) == 0 { StaysPut(s, 0, n); }
  }

  /** Texts without cut-off or overlong code points are never stuck. */
  lemma WholeUnstuck(s: Text)
    requires Whole(s)
    ensures Uncut(s) && Unstuck(s)
  {
    forall i | 0 <= i < |s| ensures i + Advance(s[i]) <= |s| { assert WholeAt(s, i); }
    forall n: nat | Cursor(s, n) < |s| ensures !Overlong(s, Cursor(s, n)) { assert WholeAt(s, Cursor(s, n)); }
  }

  /** The chunks of one pass: digits are chunks of their own. */
  function PassChunks(s: Text, i: nat, end: nat): (chunks: seq<Text>)
    requires i <= end <= |s| && i < |s|
  {
    if IsDigit(Codepoint(s, i)) then Singles(s[i..end]) else [s[i..end]]
  }

  /** The chunks of s from i on; nothing more once a pass is stuck. */
  function ChunksFrom(s: Text, i: nat): (chunks: seq<Text>)
    requires Uncut(s) && i <= |s|
    decreases |s| - i
  {
    if i == |s| || PassEnd(s, i) == i then []
    else PassChunks(s, i, PassEnd(s, i)) + ChunksFrom(s, PassEnd(s, i))
  }

  /** The cursor's loop over code points of one kind. */
  method SkipRun(s: Text, i: nat, kind: nat -> bool) returns (end: nat)
    requires Uncut(s) && i <= |s|
    ensures end == RunEnd(s, i, kind)
  {
    end := i;
    while end < |s|
      invariant i <= end <= |s| && RunEnd(s, end, kind) == RunEnd(s, i, kind)
    {
      if !kind(Codepoint(s, end)) {
        break;
      }
      end := end + Advance(s[end]);
    }
  }

  /** The cursor's loop over bytes of one kind. */
  method SkipBytes(s: Text, i: nat, kind: nat -> bool) returns (end: nat)
    requires i <= |s|
    ensures end == BytesEnd(s, i, kind)
  {
    end := i;
    while end < |s| && kind(s[end])
      invariant i <= end <= |s| && BytesEnd(s, end, kind) == BytesEnd(s, i, kind)
    {
      end := end + 1;
    }
  }

  method TryMatch(s: Text, i: nat, suffix: Text) returns (ok: bool)
    requires i <= |s|
    ensures ok <==> Matches(s, i, suffix)
  {
    if |s| - i < |suffix| {
      return false;
    }
    for k := 0 to |suffix|
      invariant forall j :: 0 <= j < k ==> Lower(s[i + j]) == suffix[j]
    {
      if Lower(s[i + k]) != suffix[k] {
        return false;
      }
    }
    ok := |s| - i == |suffix| || !IsLetter(Codepoint(s, i + |suffix|));
  }

  method TryContraction(s: Text, i: nat) returns (end: nat)
    requires Uncut(s) && i < |s|
    ensures end == ContractionEnd(s, i)
  {
    hide Matches;
    var cp, after := Codepoint(s, i), i + Advance(s[i]);
    if (cp == 39 || cp == 0x2019) && after < |s| {
      for k := 0 to |SUFFIXES|
        invariant SuffixAt(s, after, k) == SuffixAt(s, after, 0)
      {
        var ok := TryMatch(s, after, SUFFIXES[k]);
        if ok {
          return after + |SUFFIXES[k]|;
        }
      }
    }
    end := i;
  }

  method SpaceChunk(s: Text, start: nat) returns (end: nat)
    requires Uncut(s) && start < |s|
    ensures end == SpaceEnd(s, start)
  {
    hide RunEnd, BytesEnd;
    var after := start + Advance(s[start]);
    var wsEnd := SkipBytes(s, after, PlainSpace);
    if wsEnd < |s| && !IsWhitespace(s[wsEnd]) && !IsNewline(s[wsEnd]) && wsEnd - start > 1 {
      return wsEnd - 1;
    }
    if after < |s| {
      var cp := Codepoint(s, after);
      if IsLetter(cp) {
        end := SkipRun(s, after, IsLetter);
        return;
      }
      if IsDigit(cp) {
        return after;
      }
      if !IsWhitespace(cp) && !IsNewline(cp) {
        end := SkipRun(s, after, IsSymbol);
        end := SkipBytes(s, end, IsNewline);
        return;
      }
    }
    end := SkipRun(s, wsEnd, IsWhitespace);
  }

  /** One pass that starts with anything but a digit. */
  method NextChunk(s: Text, i: nat) returns (end: nat)
    requires Uncut(s) && i < |s| && !IsDigit(Codepoint(s, i))
    ensures end == PassEnd(s, i)
  {
    hide RunEnd, BytesEnd, ContractionEnd, SpaceEnd;
    var cp, after := Codepoint(s, i), i + Advance(s[i]);
    end := TryContraction(s, i);
    if end > i {
      return;
    }
    if IsLetter(cp) {
      end := SkipRun(s, after, IsLetter);
      return;
    }
    if !IsNewline(cp) && !IsWhitespace(cp) && after < |s| && IsLetter(Codepoint(s, after)) {
      end := SkipRun(s, after, IsLetter);
      return;
    }
    if IsNewline(cp) {
      end := SkipBytes(s, i, IsNewline);
      return;
    }
    if IsWhitespace(cp) {
      end := SpaceChunk(s, i);
      return;
    }
    end := SkipRun(s, after, IsSymbol);
    end := SkipBytes(s, end, IsNewline);
  }

  /** A run of digits, each a chunk of its own. */
  method DigitChunks(s: Text, start: nat, before: seq<Text>) returns (i: nat, chunks: seq<Text>)
    requires Uncut(s) && start < |s| && IsDigit(Codepoint(s, start))
    ensures i == PassEnd(s, start) && chunks == before + PassChunks(s, start, i)
  {
    i := SkipBytes(s, start, IsDigit);
    chunks := before;
    for j := start to i
      invariant chunks == before + Singles(s[start..j])
    {
      assert s[j..j + 1] == [s[j]];
      assert Singles(s[start..j + 1]) == Singles(s[start..j]) + [[s[j]]];
      chunks := chunks + [s[j..j + 1]];
    }
  }

  /** gpt2_pre_tokenize, for every text on which it terminates: its chunks join to the text. */
  method PreTokenize(s: Text) returns (chunks: seq<Text>)
    requires Uncut(s) && Unstuck(s)
    ensures chunks == ChunksFrom(s, 0) && Flat(chunks) == s
  {
    hide PassEnd, Overlong, PassChunks, Codepoint, IsDigit, Flat;
    chunks := [];
    var i := 0;
    ghost var n: nat := 0;
    while i < |s|
      invariant i <= |s| && i == Cursor(s, n)
      invariant ChunksFrom(s, 0) == chunks + ChunksFrom(s, i)
    {
      StuckExactly(s, i);
      ghost var before, rest := chunks, ChunksFrom(s, PassEnd(s, i));
      if IsDigit(Codepoint(s, i)) {
        i, chunks := DigitChunks(s, i, chunks);
      } else {
        NoDigit(s, i);
        var end := NextChunk(s, i);
        chunks, i := chunks + [s[i..end]], end;
      }
      n := n + 1;
    }
    ChunksJoin(s, 0, 0);
    assert s[0..] == s;
  }

  lemma NoDigit(s: Text, i: nat)
    requires Uncut(s) && i < |s| && !IsDigit(Codepoint(s, i))
    ensures PassChunks(s, i, PassEnd(s, i)) == [s[i..PassEnd(s, i)]]
  {
    hide PassEnd;
  }

  lemma PassJoins(s: Text, i: nat, end: nat)
    requires i <= end <= |s| && i < |s|
    ensures Flat(PassChunks(s, i, end)) == s[i..end]
  {
    FlatSingles(s[i..end]);
    FlatMore([], s[i..end]);
    assert [] + [s[i..end]] == [s[i..end]];
  }

  lemma NothingFlat()
    ensures Flat([]) == []
  {
  }

  /** The chunks from the n-th pass on join to the rest of the text. */
  lemma {:induction false} ChunksJoin(s: Text, i: nat, n: nat)
    requires Uncut(s) && Unstuck(s) && i == Cursor(s, n)
    ensures Flat(ChunksFrom(s, i)) == s[i..]
    decreases |s| - i
  {
    hide PassEnd, Overlong, PassChunks, Flat;
    if i == |s| {
      NothingFlat();
    } else {
      StuckExactly(s, i);
      var end := PassEnd(s, i);
      ChunksJoin(s, end, n + 1);
      FlatConcat(PassChunks(s, i, end), ChunksFrom(s, end));
      PassJoins(s, i, end);
      assert s[i..] == s[i..end] + s[end..];
    }
  }
}
