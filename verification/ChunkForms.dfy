/**
 * The forms of the documented pattern of src/bpe.h, said without reference to how the pre-tokenizer looks for
 * them: every chunk has the first form that fits, at its longest, and that decides the chunks.
 */
module ChunkForms {
  import opened Utf8
  import opened Chunks

  /** From i, code points of one kind follow each other up to exactly end. */
  ghost predicate Run(s: Text, i: nat, end: nat, kind: nat -> bool)
    decreases end - i
  {
    i == end || (i < end <= |s| && kind(Codepoint(s, i)) && Run(s, i + Advance(s[i]), end, kind))
  }

  lemma {:induction false} RunMore(s: Text, i: nat, end: nat, kind: nat -> bool)
    requires i <= end < |s| && end + Advance(s[end]) <= |s| && Run(s, i, end, kind) && kind(Codepoint(s, end))
    ensures Run(s, i, end + Advance(s[end]), kind)
    decreases end - i
  {
    if i < end {
      RunMore(s, i + Advance(s[i]), end, kind);
    }
  }

  ghost predicate Stops(s: Text, end: nat, kind: nat -> bool)
  {
    end >= |s| || !kind(Codepoint(s, end))
  }

  ghost predicate Contraction(s: Text, i: nat, end: nat)
    requires i < |s|
  {
    && (Codepoint(s, i) == 39 || Codepoint(s, i) == 0x2019)
    && exists suffix ::
         suffix in SUFFIXES && Matches(s, i + Advance(s[i]), suffix) && end == i + Advance(s[i]) + |suffix|
  }

  function InLowerCase(t: Text): Text { seq(|t|, k requires 0 <= k < |t| => Lower(t[k])) }

  /** A contraction is an apostrophe, one of seven endings in either case, and no letter behind. */
  lemma ContractionMeans(s: Text, i: nat, end: nat)
    requires i < |s|
    ensures var j := i + Advance(s[i]);
            Contraction(s, i, end) <==>
            && (Codepoint(s, i) == 39 || Codepoint(s, i) == 0x2019)
            && j <= end <= |s| && InLowerCase(s[j..end]) in SUFFIXES
            && (end < |s| ==> !IsLetter(Codepoint(s, end)))
  {
    hide Codepoint, IsLetter, Lower, SUFFIXES;
    var j := i + Advance(s[i]);
    if suffix :| suffix in SUFFIXES && Matches(s, j, suffix) && end == j + |suffix| {
      assert InLowerCase(s[j..end]) == suffix;
    }
    if j <= end <= |s| && InLowerCase(s[j..end]) in SUFFIXES && (end < |s| ==> !IsLetter(Codepoint(s, end))) {
      var suffix := InLowerCase(s[j..end]);
      forall k | 0 <= k < |suffix| ensures Lower(s[j + k]) == suffix[k] { assert s[j..end][k] == s[j + k]; }
      assert Matches(s, j, suffix);
    }
  }

  /** No letter, digit or newline: a character that may stand before a word. */
  predicate Leads(cp: nat) { !IsLetter(cp) && !IsDigit(cp) && !IsNewline(cp) }

  /** All letters up to the next other character, after at most one character that is no letter, digit or newline. */
  ghost predicate Word(s: Text, i: nat, end: nat)
    requires i < |s|
  {
    && Stops(s, end, IsLetter)
    && ((i < end && Run(s, i, end, IsLetter))
        || (var j := i + Advance(s[i]);
            j < end && Run(s, j, end, IsLetter) && Leads(Codepoint(s, i))))
  }

  /** All newlines. */
  ghost predicate Newlines(s: Text, i: nat, end: nat)
  {
    i < end && Run(s, i, end, IsNewline) && Stops(s, end, IsNewline)
  }

  /** All symbols from j on and all newlines after them. */
  ghost predicate SymbolRun(s: Text, j: nat, mid: nat, end: nat)
  {
    && j < mid <= end && Run(s, j, mid, IsSymbol) && Stops(s, mid, IsSymbol)
    && Run(s, mid, end, IsNewline) && Stops(s, end, IsNewline)
  }

  ghost predicate SymbolsFrom(s: Text, j: nat, end: nat) { exists mid :: SymbolRun(s, j, mid, end) }

  /** The same, after at most one space that is no newline. */
  ghost predicate Symbols(s: Text, i: nat, end: nat)
    requires i < |s|
  {
    SymbolsFrom(s, i, end) || (PlainSpace(Codepoint(s, i)) && SymbolsFrom(s, i + Advance(s[i]), end))
  }

  /** A space of more than one byte. */
  predicate Wide(s: Text, i: nat)
    requires i < |s|
  {
    IsWhitespace(Codepoint(s, i)) && Advance(s[i]) > 1
  }

  /** Bytes that are spaces follow the first space up to exactly b. */
  ghost predicate SpaceBytes(s: Text, i: nat, b: nat)
    requires i < |s|
  {
    && i + Advance(s[i]) <= b <= |s|
    && (forall k :: i + Advance(s[i]) <= k < b ==> PlainSpace(s[k]))
    && (b < |s| ==> !PlainSpace(s[b]))
  }

  predicate Visible(s: Text, b: nat) { b < |s| && !IsWhitespace(s[b]) }

  /**
   * White space: before a visible byte, two or more bytes of space without the last of them; a single space
   * before a digit; otherwise all white space.
   */
  ghost predicate Spaces(s: Text, i: nat, end: nat)
    requires i < |s|
  {
    exists b :: SpaceBytes(s, i, b) && SpacesUpTo(s, i, b, end)
  }

  ghost predicate SpacesUpTo(s: Text, i: nat, b: nat, end: nat)
  {
    if Visible(s, b) && b - i >= 2 then end == b - 1
    else if b < |s| && IsDigit(Codepoint(s, b)) then end == b
    else Run(s, b, end, IsWhitespace) && Stops(s, end, IsWhitespace)
  }

  ghost predicate HasContraction(s: Text, i: nat) requires i < |s| { exists e: nat :: Contraction(s, i, e) }

  ghost predicate HasWord(s: Text, i: nat) requires i < |s| { !Wide(s, i) && exists e: nat :: Word(s, i, e) }

  ghost predicate HasSymbols(s: Text, i: nat) requires i < |s| { !Wide(s, i) && exists e: nat :: Symbols(s, i, e) }

  /** A chunk of the text: the first form that fits, where a multi-byte space starts no word or symbols. */
  ghost predicate Chunk(s: Text, i: nat, end: nat)
    requires i < |s|
  {
    if HasContraction(s, i) then Contraction(s, i, end)
    else if HasWord(s, i) then Word(s, i, end)
    else if IsDigit(Codepoint(s, i)) then end == i + 1
    else if IsNewline(Codepoint(s, i)) then Newlines(s, i, end)
    else if HasSymbols(s, i) then Symbols(s, i, end)
    else Spaces(s, i, end)
  }

  lemma {:induction false} RunUnique(s: Text, i: nat, a: nat, b: nat, kind: nat -> bool)
    requires Run(s, i, a, kind) && Stops(s, a, kind) && Run(s, i, b, kind) && Stops(s, b, kind)
    ensures a == b
    decreases |s| - i
  {
    if i < |s| && i != a && i != b {
      RunUnique(s, i + Advance(s[i]), a, b, kind);
    }
  }

  lemma StartsRun(s: Text, i: nat, end: nat, kind: nat -> bool)
    requires i < end && Run(s, i, end, kind)
    ensures kind(Codepoint(s, i)) && end <= |s|
  {
  }

  lemma ContractionUnique(s: Text, i: nat, a: nat, b: nat)
    requires i < |s| && Contraction(s, i, a) && Contraction(s, i, b)
    ensures a == b
  {
    hide Matches;
    var j := i + Advance(s[i]);
    var x :| x in SUFFIXES && Matches(s, j, x) && a == j + |x|;
    var y :| y in SUFFIXES && Matches(s, j, y) && b == j + |y|;
    SuffixHead(s, j, x);
    SuffixHead(s, j, y);
    hide Codepoint;
    HeadsApart(x, y);
  }

  lemma SuffixHead(s: Text, j: nat, x: Text)
    requires x in SUFFIXES && Matches(s, j, x)
    ensures |x| > 0 && j < |s| && Lower(s[j]) == x[0]
  {
    hide Codepoint, IsLetter;
    assert |x| > 0;
    assert Lower(s[j + 0]) == x[0];
  }

  lemma HeadsApart(x: Text, y: Text)
    requires x in SUFFIXES && y in SUFFIXES && |x| > 0 && |y| > 0 && x[0] == y[0]
    ensures x == y
  {
  }

  lemma WordUnique(s: Text, i: nat, a: nat, b: nat)
    requires i < |s| && Word(s, i, a) && Word(s, i, b)
    ensures a == b
  {
    var j := i + Advance(s[i]);
    if IsLetter(Codepoint(s, i)) {
      RunUnique(s, i, a, b, IsLetter);
    } else {
      RunUnique(s, j, a, b, IsLetter);
    }
  }

  lemma SymbolRunUnique(s: Text, j: nat, m: nat, a: nat, n: nat, b: nat)
    requires SymbolRun(s, j, m, a) && SymbolRun(s, j, n, b)
    ensures a == b
  {
    RunUnique(s, j, m, n, IsSymbol);
    RunUnique(s, m, a, b, IsNewline);
  }

  lemma SymbolsUnique(s: Text, i: nat, a: nat, b: nat)
    requires i < |s| && Symbols(s, i, a) && Symbols(s, i, b)
    ensures a == b
  {
    hide Run, Codepoint;
    var j := if IsSymbol(Codepoint(s, i)) then i else i + Advance(s[i]);
    SymbolsStart(s, i, a);
    SymbolsStart(s, i, b);
    var m: nat :| SymbolRun(s, j, m, a);
    var n: nat :| SymbolRun(s, j, n, b);
    SymbolRunUnique(s, j, m, a, n, b);
  }

  /** Symbols start at a symbol, at i or behind the space there. */
  lemma SymbolsStart(s: Text, i: nat, a: nat)
    requires i < |s| && Symbols(s, i, a)
    ensures var j := if IsSymbol(Codepoint(s, i)) then i else i + Advance(s[i]);
            SymbolsFrom(s, j, a) && j < |s| && IsSymbol(Codepoint(s, j))
    ensures IsSymbol(Codepoint(s, i)) || PlainSpace(Codepoint(s, i))
  {
    hide Codepoint;
    if SymbolsFrom(s, i, a) {
      var m: nat :| SymbolRun(s, i, m, a);
      StartsRun(s, i, m, IsSymbol);
    } else {
      var j := i + Advance(s[i]);
      var m: nat :| SymbolRun(s, j, m, a);
      StartsRun(s, j, m, IsSymbol);
    }
    hide Run;
  }

  lemma SpacesUnique(s: Text, i: nat, a: nat, b: nat)
    requires i < |s| && Spaces(s, i, a) && Spaces(s, i, b)
    ensures a == b
  {
    hide Run, Codepoint;
    var c: nat :| SpaceBytes(s, i, c) && SpacesUpTo(s, i, c, a);
    var d: nat :| SpaceBytes(s, i, d) && SpacesUpTo(s, i, d, b);
    assert c == d;
    if !(Visible(s, c) && c - i >= 2) && !(c < |s| && IsDigit(Codepoint(s, c))) {
      RunUnique(s, c, a, b, IsWhitespace);
    }
  }

  /** The forms decide where a chunk ends. */
  lemma ChunkUnique(s: Text, i: nat, a: nat, b: nat)
    requires i < |s| && Chunk(s, i, a) && Chunk(s, i, b)
    ensures a == b
  {
    hide Contraction, Word, Symbols, Spaces, Run, Codepoint;
    if HasContraction(s, i) {
      ContractionUnique(s, i, a, b);
    } else if HasWord(s, i) {
      WordUnique(s, i, a, b);
    } else if IsDigit(Codepoint(s, i)) {
    } else if IsNewline(Codepoint(s, i)) {
      RunUnique(s, i, a, b, IsNewline);
    } else if HasSymbols(s, i) {
      SymbolsUnique(s, i, a, b);
    } else {
      SpacesUnique(s, i, a, b);
    }
  }

  lemma {:induction false} SuffixMatches(s: Text, i: nat, k: nat)
    requires k <= |SUFFIXES| && SuffixAt(s, i, k) > 0
    ensures exists suffix :: suffix in SUFFIXES && Matches(s, i, suffix) && SuffixAt(s, i, k) == |suffix|
    decreases |SUFFIXES| - k
  {
    hide Matches;
    if Matches(s, i, SUFFIXES[k]) {
      assert SUFFIXES[k] in SUFFIXES;
    } else {
      SuffixMatches(s, i, k + 1);
    }
  }

  lemma ContractionFits(s: Text, i: nat)
    requires Uncut(s) && i < |s| && ContractionEnd(s, i) > i
    ensures Contraction(s, i, ContractionEnd(s, i))
  {
    hide Matches;
    SuffixMatches(s, i + Advance(s[i]), 0);
  }

  lemma {:induction false} NoSuffix(s: Text, i: nat, k: nat, suffix: Text)
    requires k <= |SUFFIXES| && suffix in SUFFIXES[k..] && Matches(s, i, suffix)
    ensures SuffixAt(s, i, k) > 0
    decreases |SUFFIXES| - k
  {
    hide Matches;
    if suffix != SUFFIXES[k] && !Matches(s, i, SUFFIXES[k]) {
      assert SUFFIXES[k..] == [SUFFIXES[k]] + SUFFIXES[k + 1..];
      NoSuffix(s, i, k + 1, suffix);
    }
    assert forall t :: t in SUFFIXES ==> |t| > 0;
  }

  /** A contraction fits exactly if the code finds one. */
  lemma ContractionFound(s: Text, i: nat)
    requires Uncut(s) && i < |s|
    ensures HasContraction(s, i) <==> ContractionEnd(s, i) > i
    ensures HasContraction(s, i) ==> Leads(Codepoint(s, i))
  {
    hide ContractionEnd, Matches;
    if ContractionEnd(s, i) > i {
      ContractionFits(s, i);
    }
    if HasContraction(s, i) {
      var e: nat :| Contraction(s, i, e);
      ContractionTried(s, i, e);
    }
  }

  lemma ContractionTried(s: Text, i: nat, e: nat)
    requires Uncut(s) && i < |s| && Contraction(s, i, e)
    ensures ContractionEnd(s, i) > i
  {
    hide Matches, SuffixAt;
    var j := i + Advance(s[i]);
    var suffix :| suffix in SUFFIXES && Matches(s, j, suffix) && e == j + |suffix|;
    SuffixHead(s, j, suffix);
    assert SUFFIXES[0..] == SUFFIXES;
    NoSuffix(s, j, 0, suffix);
  }

  lemma {:induction false} RunReaches(s: Text, i: nat, kind: nat -> bool)
    requires Uncut(s) && i <= |s|
    ensures Run(s, i, RunEnd(s, i, kind), kind) && Stops(s, RunEnd(s, i, kind), kind)
    decreases |s| - i
  {
    if i < |s| && kind(Codepoint(s, i)) {
      RunReaches(s, i + Advance(s[i]), kind);
    }
  }

  lemma FirstOf(s: Text, i: nat, kind: nat -> bool)
    requires Uncut(s) && i < |s| && kind(Codepoint(s, i))
    ensures i < RunEnd(s, i, kind) && RunEnd(s, i, kind) == RunEnd(s, i + Advance(s[i]), kind)
  {
  }

  /** In a whole text a byte that is a newline is a code point, and the other way round. */
  lemma {:induction false} NewlineRun(s: Text, i: nat)
    requires Whole(s) && Uncut(s) && i <= |s|
    ensures BytesEnd(s, i, IsNewline) == RunEnd(s, i, IsNewline)
    decreases |s| - i
  {
    if i < |s| {
      assert WholeAt(s, i);
      NewlineRun(s, i + Advance(s[i]));
    }
  }

  lemma LetterWord(s: Text, i: nat)
    requires Uncut(s) && i < |s| && IsLetter(Codepoint(s, i))
    ensures HasWord(s, i) && Word(s, i, RunEnd(s, i + Advance(s[i]), IsLetter))
  {
    FirstOf(s, i, IsLetter);
    RunReaches(s, i, IsLetter);
    hide Run, RunEnd;
    assert Word(s, i, RunEnd(s, i + Advance(s[i]), IsLetter));
  }

  /** A character that is no letter, digit or newline before letters. */
  lemma LedWord(s: Text, i: nat)
    requires Uncut(s) && i < |s| && Leads(Codepoint(s, i))
    ensures var j := i + Advance(s[i]);
            (exists e: nat :: Word(s, i, e)) <==> j < |s| && IsLetter(Codepoint(s, j))
    ensures var j := i + Advance(s[i]);
            j < |s| && IsLetter(Codepoint(s, j)) ==> Word(s, i, RunEnd(s, j, IsLetter))
  {
    var j := i + Advance(s[i]);
    if j < |s| && IsLetter(Codepoint(s, j)) {
      FirstOf(s, j, IsLetter);
      RunReaches(s, j, IsLetter);
      hide Run, RunEnd;
      assert Word(s, i, RunEnd(s, j, IsLetter));
    }
  }

  /** Neither digits nor newlines start a word. */
  lemma NoWord(s: Text, i: nat)
    requires i < |s| && (IsDigit(Codepoint(s, i)) || IsNewline(Codepoint(s, i)))
    ensures !HasWord(s, i)
  {
  }

  lemma SymbolsReach(s: Text, j: nat)
    requires Whole(s) && Uncut(s) && j < |s| && IsSymbol(Codepoint(s, j))
    ensures SymbolRun(s, j, RunEnd(s, j, IsSymbol), SymbolsEnd(s, j))
    ensures SymbolsEnd(s, j) == SymbolsEnd(s, j + Advance(s[j]))
  {
    FirstOf(s, j, IsSymbol);
    RunReaches(s, j, IsSymbol);
    NewlineRun(s, RunEnd(s, j, IsSymbol));
    RunReaches(s, RunEnd(s, j, IsSymbol), IsNewline);
    hide Run, RunEnd;
  }

  /** Symbols fit exactly at a symbol or at a space before one. */
  lemma SymbolsFit(s: Text, i: nat)
    requires Whole(s) && Uncut(s) && i < |s|
    ensures IsSymbol(Codepoint(s, i)) ==> Symbols(s, i, SymbolsEnd(s, i + Advance(s[i])))
    ensures var j := i + Advance(s[i]);
            PlainSpace(Codepoint(s, i)) ==>
              ((exists e: nat :: Symbols(s, i, e)) <==> j < |s| && IsSymbol(Codepoint(s, j)))
              && (j < |s| && IsSymbol(Codepoint(s, j)) ==> Symbols(s, i, SymbolsEnd(s, j)))
  {
    hide Codepoint, SymbolsEnd, RunEnd;
    var j := i + Advance(s[i]);
    if IsSymbol(Codepoint(s, i)) {
      SymbolsReach(s, i);
    } else if PlainSpace(Codepoint(s, i)) {
      if j < |s| && IsSymbol(Codepoint(s, j)) {
        SymbolsReach(s, j);
        assert SymbolsFrom(s, j, SymbolsEnd(s, j));
        assert Symbols(s, i, SymbolsEnd(s, j));
      }
      if e: nat :| Symbols(s, i, e) {
        SymbolsStart(s, i, e);
      }
    }
    hide SymbolRun;
  }

  lemma {:induction false} BytesReach(s: Text, i: nat, k: nat)
    requires i <= k <= |s| && forall m :: i <= m < k ==> PlainSpace(s[m])
    ensures var b := BytesEnd(s, k, PlainSpace);
            (forall m :: i <= m < b ==> PlainSpace(s[m])) && (b < |s| ==> !PlainSpace(s[b]))
    decreases |s| - k
  {
    if k < |s| && PlainSpace(s[k]) {
      BytesReach(s, i, k + 1);
    }
  }

  /** A byte that starts a character that is no space is no space itself. */
  lemma NoSpaceByte(s: Text, j: nat)
    requires j < |s| && !IsWhitespace(Codepoint(s, j))
    ensures !IsWhitespace(s[j]) && BytesEnd(s, j, PlainSpace) == j
  {
  }

  /** What the code does at a space is what the forms say. */
  lemma SpaceChosen(s: Text, i: nat)
    requires Whole(s) && Uncut(s) && i < |s| && PlainSpace(Codepoint(s, i)) && !HasContraction(s, i)
    ensures Chunk(s, i, SpaceEnd(s, i))
  {
    hide Run, RunEnd, BytesEnd, Codepoint, Symbols, SymbolsEnd, Word, Contraction;
    var after, end := i + Advance(s[i]), SpaceEnd(s, i);
    var b := BytesEnd(s, after, PlainSpace);
    BytesReach(s, after, after);
    LedWord(s, i);
    SymbolsFit(s, i);
    RunReaches(s, b, IsWhitespace);
    assert SpaceBytes(s, i, b);
    if after < |s| && !IsWhitespace(Codepoint(s, after)) {
      NoSpaceByte(s, after);
    }
    if HasWord(s, i) || HasSymbols(s, i) {
    } else {
      if b < |s| && IsDigit(Codepoint(s, b)) { NoDigitSpace(s, i, b); }
      assert SpacesUpTo(s, i, b, end);
    }
  }

  lemma NoDigitSpace(s: Text, i: nat, b: nat)
    requires i < |s| && SpaceBytes(s, i, b) && b < |s| && IsDigit(Codepoint(s, b))
    ensures Visible(s, b)
  {
  }

  /** Every pass of the code over a whole text that starts at no digit makes the chunk the forms call for. */
  lemma PassChosen(s: Text, i: nat)
    requires Whole(s) && Uncut(s) && i < |s| && !IsDigit(Codepoint(s, i))
    ensures Chunk(s, i, PassEnd(s, i))
  {
    hide Run, RunEnd, BytesEnd, Codepoint, Symbols, SymbolsEnd, Word, Contraction, ContractionEnd, SpaceEnd, Spaces;
    var cp := Codepoint(s, i);
    ContractionFound(s, i);
    if HasContraction(s, i) {
      ContractionFits(s, i);
    } else if IsLetter(cp) {
      LetterWord(s, i);
    } else if IsNewline(cp) {
      NoWord(s, i);
      NewlineRun(s, i);
      FirstOf(s, i, IsNewline);
      RunReaches(s, i, IsNewline);
    } else if IsWhitespace(cp) {
      SpaceChosen(s, i);
    } else {
      LedWord(s, i);
      SymbolsFit(s, i);
    }
  }

  /** Where letters fit, the chunk is all of them, unless a multi-byte space comes before. */
  lemma WordTaken(s: Text, i: nat, e: nat)
    requires Whole(s) && Uncut(s) && i < |s| && !HasContraction(s, i) && !Wide(s, i) && Word(s, i, e)
    ensures PassEnd(s, i) == e
  {
    hide Word, PassEnd, Codepoint;
    assert HasWord(s, i);
    if IsDigit(Codepoint(s, i)) { NoWord(s, i); }
    PassChosen(s, i);
    WordUnique(s, i, e, PassEnd(s, i));
  }

  /** The same for symbols where no letters fit. */
  lemma SymbolsTaken(s: Text, i: nat, e: nat)
    requires Whole(s) && Uncut(s) && i < |s| && !HasContraction(s, i) && !Wide(s, i) && !HasWord(s, i)
    requires Symbols(s, i, e)
    ensures PassEnd(s, i) == e
  {
    hide PassEnd, Codepoint, Run;
    NoDigitSymbols(s, i, e);
    assert HasSymbols(s, i);
    hide Symbols;
    PassChosen(s, i);
    SymbolsUnique(s, i, e, PassEnd(s, i));
  }

  lemma NoDigitSymbols(s: Text, i: nat, e: nat)
    requires i < |s| && Symbols(s, i, e)
    ensures !IsDigit(Codepoint(s, i)) && !IsNewline(Codepoint(s, i))
  {
    hide Codepoint, SymbolsFrom;
    SymbolsStart(s, i, e);
  }

  /** The chunks cover the first n bytes, each as the forms call for. */
  ghost predicate Cut(s: Text, n: nat, chunks: seq<Text>)
    requires n <= |s|
    decreases n
  {
    if n == 0 then chunks == []
    else chunks != [] &&
         (var c := chunks[|chunks| - 1];
          && 0 < |c| <= n && c == s[n - |c|..n] && Chunk(s, n - |c|, n)
          && Cut(s, n - |c|, chunks[..|chunks| - 1]))
  }

  lemma CutMore(s: Text, n: nat, end: nat, chunks: seq<Text>)
    requires n < end <= |s| && Cut(s, n, chunks) && Chunk(s, n, end)
    ensures Cut(s, end, chunks + [s[n..end]])
  {
    hide Chunk;
    assert (chunks + [s[n..end]])[..|chunks|] == chunks;
  }

  /** The chunks of a whole text are what the forms call for. */
  lemma {:induction false} ChunksFit(s: Text, i: nat, before: seq<Text>)
    requires Whole(s) && Uncut(s) && i <= |s| && Cut(s, i, before)
    ensures Cut(s, |s|, before + ChunksFrom(s, i))
    decreases |s| - i
  {
    hide Chunk, Cut, PassEnd, Codepoint, IsDigit, IsNewline;
    if i == |s| {
      assert before + [] == before;
    } else {
      var end := PassEnd(s, i);
      WholeProgress(s, i);
      if IsDigit(Codepoint(s, i)) {
        DigitsFit(s, i, end, before);
      } else {
        PassChosen(s, i);
        CutMore(s, i, end, before);
      }
      ChunksFit(s, end, before + PassChunks(s, i, end));
      assert before + PassChunks(s, i, end) + ChunksFrom(s, end) == before + ChunksFrom(s, i);
    }
  }

  lemma WholeProgress(s: Text, i: nat)
    requires Whole(s) && Uncut(s) && i < |s|
    ensures i < PassEnd(s, i)
  {
    hide PassEnd;
    assert WholeAt(s, i);
    StuckExactly(s, i);
  }

  lemma DigitsFit(s: Text, i: nat, end: nat, before: seq<Text>)
    requires Whole(s) && Uncut(s) && i < |s| && IsDigit(Codepoint(s, i)) && end == PassEnd(s, i) && Cut(s, i, before)
    ensures Cut(s, end, before + Singles(s[i..end]))
  {
    assert end == BytesEnd(s, i, IsDigit);
    hide PassEnd, Cut;
    DigitCuts(s, i, end, before);
  }

  lemma DigitChunk(s: Text, i: nat)
    requires Uncut(s) && i < |s| && IsDigit(s[i])
    ensures Chunk(s, i, i + 1)
  {
    hide Run;
    ContractionFound(s, i);
    NoWord(s, i);
    hide HasContraction, HasWord;
  }

  lemma {:induction false} DigitCuts(s: Text, i: nat, end: nat, before: seq<Text>)
    requires Uncut(s) && i <= end <= |s| && Cut(s, i, before)
    requires end == BytesEnd(s, i, IsDigit)
    ensures Cut(s, end, before + Singles(s[i..end]))
    decreases end - i
  {
    hide Cut, Chunk;
    if i < end {
      DigitChunk(s, i);
      CutMore(s, i, i + 1, before);
      DigitCuts(s, i + 1, end, before + [s[i..i + 1]]);
      assert s[i..i + 1] == [s[i]];
      assert Singles(s[i..end]) == [[s[i]]] + Singles(s[i + 1..end]);
      assert before + [s[i..i + 1]] + Singles(s[i + 1..end]) == before + Singles(s[i..end]);
    } else {
      assert before + Singles(s[i..end]) == before;
    }
  }
}
