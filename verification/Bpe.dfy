/** Byte-pair encoding of src/bpe.h: merging, vocabulary lookup and the lossless round trip. */
module Bpe {
  import opened Utf8
  import opened ByteEncoder
  import opened Chunks

  const INT_MAX: int := 0x7FFF_FFFF

  type Ranks = map<Text, int>

  /** Merge rules are looked up by the two symbols with a space between them. */
  function Key(a: Text, b: Text): Text { a + [32] + b }

  predicate Ranked(merges: Ranks, work: seq<Text>, i: int)
  {
    0 <= i < |work| - 1 && Key(work[i], work[i + 1]) in merges && merges[Key(work[i], work[i + 1])] < INT_MAX
  }

  function RankAt(merges: Ranks, work: seq<Text>, i: int): int
    requires Ranked(merges, work, i)
  {
    merges[Key(work[i], work[i + 1])]
  }

  /** The first pair of lowest rank, or -1. */
  ghost predicate Best(merges: Ranks, work: seq<Text>, p: int)
  {
    if p < 0 then p == -1 && forall i :: !Ranked(merges, work, i)
    else
      && Ranked(merges, work, p)
      && (forall i :: Ranked(merges, work, i) ==> RankAt(merges, work, p) <= RankAt(merges, work, i))
      && (forall i :: i < p && Ranked(merges, work, i) ==> RankAt(merges, work, p) < RankAt(merges, work, i))
  }

  lemma BestUnique(merges: Ranks, work: seq<Text>, p: int, q: int)
    requires Best(merges, work, p) && Best(merges, work, q)
    ensures p == q
  {
  }

  method FindBest(merges: Ranks, work: seq<Text>) returns (p: int)
    ensures Best(merges, work, p)
  {
    p := -1;
    var best := INT_MAX;
    for i := 0 to if |work| == 0 then 0 else |work| - 1
      invariant p < 0 ==> p == -1 && best == INT_MAX && forall k :: k < i ==> !Ranked(merges, work, k)
      invariant p >= 0 ==> Ranked(merges, work, p) && best == RankAt(merges, work, p)
      invariant p >= 0 ==> forall k :: k < i && Ranked(merges, work, k) ==> best <= RankAt(merges, work, k)
      invariant p >= 0 ==> forall k :: k < p && Ranked(merges, work, k) ==> best < RankAt(merges, work, k)
    {
      var key := Key(work[i], work[i + 1]);
      if key in merges && merges[key] < best {
        p, best := i, merges[key];
      }
    }
  }

  function Joined(work: seq<Text>, p: nat): (r: seq<Text>)
    requires p + 1 < |work|
    ensures |r| == |work| - 1
  {
    work[..p] + [work[p] + work[p + 1]] + work[p + 2..]
  }

  /** The result of merging the best pair again and again. */
  ghost predicate Merges(merges: Ranks, work: seq<Text>, r: seq<Text>)
    decreases |work|
  {
    exists p :: Best(merges, work, p) && if p < 0 then r == work else Merges(merges, Joined(work, p), r)
  }

  /** Merging is a function of the symbols. */
  lemma {:induction false} MergesUnique(merges: Ranks, work: seq<Text>, r: seq<Text>, q: seq<Text>)
    requires Merges(merges, work, r) && Merges(merges, work, q)
    ensures r == q
    decreases |work|
  {
    var i :| Best(merges, work, i) && if i < 0 then r == work else Merges(merges, Joined(work, i), r);
    var j :| Best(merges, work, j) && if j < 0 then q == work else Merges(merges, Joined(work, j), q);
    BestUnique(merges, work, i, j);
    if i >= 0 {
      MergesUnique(merges, Joined(work, i), r, q);
    }
  }

  /** Of three symbols, the pair whose rule is listed first is joined first; the left one if the rules are the same. */
  lemma ThreeSymbols(merges: Ranks, x: Text, y: Text, z: Text, r: seq<Text>)
    requires x + [32] + y in merges && merges[x + [32] + y] < INT_MAX
    requires y + [32] + z in merges && merges[y + [32] + z] < INT_MAX
    ensures Merges(merges, [x, y, z], r) <==>
            Merges(merges, if merges[x + [32] + y] <= merges[y + [32] + z] then [x + y, z] else [x, y + z], r)
  {
    var work := [x, y, z];
    var p := if merges[x + [32] + y] <= merges[y + [32] + z] then 0 else 1;
    assert Ranked(merges, work, 0) && Ranked(merges, work, 1);
    assert Best(merges, work, p);
    forall q | Best(merges, work, q) ensures q == p { BestUnique(merges, work, p, q); }
    assert Joined(work, 0) == [x + y, z] && Joined(work, 1) == [x, y + z];
  }

  /** bpe_merge. */
  method BpeMerge(merges: Ranks, symbols: seq<Text>) returns (work: seq<Text>)
    ensures Merges(merges, symbols, work)
  {
    hide Best;
    work := symbols;
    if |symbols| <= 1 {
      TooFew(merges, symbols);
      return;
    }
    while |work| > 1
      invariant forall r :: Merges(merges, work, r) ==> Merges(merges, symbols, r)
      decreases |work|
    {
      var p := FindBest(merges, work);
      BestRange(merges, work, p);
      if p < 0 {
        return;
      }
      work := work[..p] + [work[p] + work[p + 1]] + work[p + 2..];
    }
    TooFew(merges, work);
  }

  lemma BestRange(merges: Ranks, work: seq<Text>, p: int)
    requires Best(merges, work, p)
    ensures -1 <= p < |work| - 1 || p == -1
  {
  }

  lemma TooFew(merges: Ranks, work: seq<Text>)
    requires |work| <= 1
    ensures Merges(merges, work, work)
  {
    assert Best(merges, work, -1);
  }

  /** Merging stops only when no adjacent pair has a rule. */
  lemma {:induction false} MergesDone(merges: Ranks, work: seq<Text>, r: seq<Text>)
    requires Merges(merges, work, r)
    ensures forall i :: !Ranked(merges, r, i)
    decreases |work|
  {
    var p :| Best(merges, work, p) && if p < 0 then r == work else Merges(merges, Joined(work, p), r);
    if p >= 0 {
      MergesDone(merges, Joined(work, p), r);
    }
  }

  lemma {:induction false} FlatJoined(work: seq<Text>, p: nat)
    requires p + 1 < |work|
    ensures Flat(Joined(work, p)) == Flat(work)
  {
    hide Flat;
    var n := |work| - 1;
    var front := work[..n];
    JoinedFront(work, p);
    assert work == front + [work[n]];
    FlatMore(front, work[n]);
    if p + 1 < n {
      FlatJoined(front, p);
      FlatMore(Joined(front, p), work[n]);
    } else {
      assert front == work[..p] + [work[p]];
      FlatMore(work[..p], work[p]);
      FlatMore(work[..p], work[p] + work[n]);
    }
  }

  /** Joining a pair inside leaves the last element alone; joining the last pair leaves the rest. */
  lemma JoinedFront(work: seq<Text>, p: nat)
    requires p + 1 < |work|
    ensures var n := |work| - 1;
            if p + 1 < n then Joined(work, p) == Joined(work[..n], p) + [work[n]]
            else Joined(work, p) == work[..p] + [work[p] + work[n]]
  {
    var n := |work| - 1;
    if p + 1 < n {
      assert work[p + 2..] == work[..n][p + 2..] + [work[n]];
    } else {
      assert work[p + 2..] == [];
    }
  }

  /** Merging moves no byte. */
  lemma {:induction false} MergesFlat(merges: Ranks, work: seq<Text>, r: seq<Text>)
    requires Merges(merges, work, r)
    ensures Flat(r) == Flat(work)
    decreases |work|
  {
    var p :| Best(merges, work, p) && if p < 0 then r == work else Merges(merges, Joined(work, p), r);
    if p >= 0 {
      FlatJoined(work, p);
      MergesFlat(merges, Joined(work, p), r);
    }
  }

  datatype Tokenizer = Tokenizer(vocab: map<Text, int>, merges: Ranks, eosId: int, idToStr: seq<Text>)

  /** Every byte's character is a token, and merging two tokens gives a token. */
  ghost predicate Closed(tok: Tokenizer)
  {
    && (forall b: Octet :: Symbol(b) in tok.vocab)
    && (forall x, y {:trigger Key(x, y)} :: x in tok.vocab && y in tok.vocab && Key(x, y) in tok.merges ==>
         x + y in tok.vocab)
  }

  /** The table from ids to strings inverts the vocabulary. */
  ghost predicate Invertible(tok: Tokenizer)
  {
    forall t :: t in tok.vocab ==> 0 <= tok.vocab[t] < |tok.idToStr| && tok.idToStr[tok.vocab[t]] == t
  }

  /** Pieces that are tokens and spell groups of bytes. */
  ghost predicate Spells(vocab: map<Text, int>, pieces: seq<Text>, groups: seq<Text>)
  {
    && |pieces| == |groups|
    && forall i :: 0 <= i < |pieces| ==> pieces[i] in vocab && pieces[i] == Spelled(groups[i])
  }

  /** Merging keeps every piece a token that spells whole bytes. */
  lemma {:induction false} MergesSpell(tok: Tokenizer, work: seq<Text>, groups: seq<Text>, r: seq<Text>)
    returns (out: seq<Text>)
    requires Closed(tok) && Merges(tok.merges, work, r) && Spells(tok.vocab, work, groups)
    ensures Spells(tok.vocab, r, out) && Flat(out) == Flat(groups)
    decreases |work|
  {
    var p :| Best(tok.merges, work, p) && if p < 0 then r == work else Merges(tok.merges, Joined(work, p), r);
    if p < 0 {
      return groups;
    }
    hide Spells, Closed, Joined;
    SpellsJoined(tok, work, groups, p);
    FlatJoined(groups, p);
    out := MergesSpell(tok, Joined(work, p), Joined(groups, p), r);
  }

  lemma SpellsJoined(tok: Tokenizer, work: seq<Text>, groups: seq<Text>, p: nat)
    requires Closed(tok) && Spells(tok.vocab, work, groups) && Ranked(tok.merges, work, p)
    ensures |groups| == |work| && Spells(tok.vocab, Joined(work, p), Joined(groups, p))
  {
    SpelledConcat(groups[p], groups[p + 1]);
    assert Key(work[p], work[p + 1]) in tok.merges;
    hide Spelled, Symbol;
  }

  /** byte_level_encode. */
  method ByteLevelEncode(table: array<Text>, text: Text) returns (out: Text)
    requires table.Length == 256 && forall b: Octet :: table[b] == Symbol(b)
    ensures out == Spelled(text)
  {
    out := [];
    for i := 0 to |text|
      invariant out == Spelled(text[..i])
    {
      assert text[..i + 1][..i] == text[..i];
      out := out + table[text[i]];
    }
    assert text[..|text|] == text;
  }

  /** The encoded chunk cut into its characters. */
  method SplitSymbols(encoded: Text, ghost bytes: Text) returns (symbols: seq<Text>)
    requires encoded == Spelled(bytes)
    ensures |symbols| == |bytes| && forall k :: 0 <= k < |bytes| ==> symbols[k] == Symbol(bytes[k])
  {
    hide Spelled, Symbol, Codepoint;
    symbols := [];
    var i := 0;
    ghost var k := 0;
    NoneSpelled(bytes);
    while i < |encoded|
      invariant k == |symbols| <= |bytes| && i == |Spelled(bytes[..k])|
      invariant forall j :: 0 <= j < k ==> symbols[j] == Symbol(bytes[j])
      invariant k == |bytes| ==> i == |encoded|
      decreases |bytes| - k
    {
      SymbolAt(bytes, k);
      if k + 1 == |bytes| { assert bytes[..k + 1] == bytes; }
      var adv := Advance(encoded[i]);
      symbols, i, k := symbols + [encoded[i..i + adv]], i + adv, k + 1;
    }
    if k < |bytes| { SymbolAt(bytes, k); }
  }

  lemma NoneSpelled(bytes: Text)
    ensures Spelled(bytes[..0]) == [] && (bytes == [] ==> Spelled(bytes) == [])
  {
  }

  /** What ids decode to, joined. */
  function DecodeAll(dec: map<nat, Octet>, tok: Tokenizer, ids: seq<int>): Text
  {
    if ids == [] then []
    else
      var id := ids[|ids| - 1];
      DecodeAll(dec, tok, ids[..|ids| - 1]) + if 0 <= id < |tok.idToStr| then Decoded(dec, tok.idToStr[id], 0) else []
  }

  lemma DecodeMore(dec: map<nat, Octet>, tok: Tokenizer, ids: seq<int>, id: int, bytes: Text)
    requires Reverses(dec) && 0 <= id < |tok.idToStr| && tok.idToStr[id] == Spelled(bytes)
    ensures DecodeAll(dec, tok, ids + [id]) == DecodeAll(dec, tok, ids) + bytes
  {
    assert (ids + [id])[..|ids|] == ids;
    DecodeSpelled(dec, bytes, 0);
    NoneSpelled(bytes);
    assert bytes[0..] == bytes;
  }

  /** The tokenizer can write and read back every byte. */
  ghost predicate Lossless(tok: Tokenizer)
  {
    && Closed(tok) && Invertible(tok)
    && 0 <= tok.eosId < |tok.idToStr| && tok.idToStr[tok.eosId] == SPECIAL
  }

  /** Pieces to ids: a token's own id, otherwise those of its bytes. */
  function IdsOf(vocab: map<Text, int>, pieces: seq<Text>): seq<int>
  {
    if pieces == [] then []
    else
      var p := pieces[|pieces| - 1];
      IdsOf(vocab, pieces[..|pieces| - 1]) + if p in vocab then [vocab[p]] else ByteIds(vocab, p)
  }

  function SymbolsOf(bytes: Text): seq<Text> { seq(|bytes|, i requires 0 <= i < |bytes| => Symbol(bytes[i])) }

  /** The ids of a chunk are those of its fully merged symbols. */
  ghost predicate ChunkIds(tok: Tokenizer, chunk: Text, ids: seq<int>)
  {
    exists pieces :: Merges(tok.merges, SymbolsOf(chunk), pieces) && ids == IdsOf(tok.vocab, pieces)
  }

  /** Ids of a chunk decode to it. */
  lemma ChunkLossless(tok: Tokenizer, chunk: Text, ids: seq<int>, dec: map<nat, Octet>)
    requires Lossless(tok) && Reverses(dec) && ChunkIds(tok, chunk, ids)
    ensures DecodeAll(dec, tok, ids) == chunk
  {
    hide Merges, Symbol;
    var pieces :| Merges(tok.merges, SymbolsOf(chunk), pieces) && ids == IdsOf(tok.vocab, pieces);
    SymbolsSpell(tok, chunk, SymbolsOf(chunk));
    var groups := MergesSpell(tok, SymbolsOf(chunk), Singles(chunk), pieces);
    FlatSingles(chunk);
    PiecesLossless(tok, pieces, groups, dec);
  }

  lemma {:induction false} PiecesLossless(tok: Tokenizer, pieces: seq<Text>, groups: seq<Text>, dec: map<nat, Octet>)
    requires Invertible(tok) && Reverses(dec) && Spells(tok.vocab, pieces, groups)
    ensures DecodeAll(dec, tok, IdsOf(tok.vocab, pieces)) == Flat(groups)
  {
    hide DecodeAll, Spelled;
    if pieces == [] {
      NoneDecoded(dec, tok);
    } else {
      var n := |pieces| - 1;
      PiecesLossless(tok, pieces[..n], groups[..n], dec);
      DecodeMore(dec, tok, IdsOf(tok.vocab, pieces[..n]), tok.vocab[pieces[n]], groups[n]);
    }
  }

  lemma {:induction false} DecodeConcat(dec: map<nat, Octet>, tok: Tokenizer, a: seq<int>, b: seq<int>)
    ensures DecodeAll(dec, tok, a + b) == DecodeAll(dec, tok, a) + DecodeAll(dec, tok, b)
  {
    if b == [] {
      assert a + b == a;
    } else {
      assert (a + b)[..|a + b| - 1] == a + b[..|b| - 1];
      DecodeConcat(dec, tok, a, b[..|b| - 1]);
    }
  }

  /** encode_chunk: the ids of one chunk, appended. */
  method EncodeChunk(tok: Tokenizer, table: array<Text>, chunk: Text, ids0: seq<int>) returns (ids: seq<int>)
    requires table.Length == 256 && forall b: Octet :: table[b] == Symbol(b)
    ensures ids0 <= ids && ChunkIds(tok, chunk, ids[|ids0|..])
  {
    hide Symbol, Merges;
    var encoded := ByteLevelEncode(table, chunk);
    var symbols := SplitSymbols(encoded, chunk);
    assert symbols == SymbolsOf(chunk);
    var merged := BpeMerge(tok.merges, symbols);
    ids := ids0;
    for k := 0 to |merged|
      invariant ids == ids0 + IdsOf(tok.vocab, merged[..k])
    {
      assert merged[..k + 1][..k] == merged[..k];
      if merged[k] in tok.vocab {
        ids := ids + [tok.vocab[merged[k]]];
      } else {
        ids := AddBytes(tok, merged[k], ids);
      }
    }
    assert merged[..|merged|] == merged;
  }

  /** The ids of a chunk sequence, chunk by chunk. */
  ghost predicate SegmentIds(tok: Tokenizer, chunks: seq<Text>, ids: seq<int>)
    decreases |chunks|
  {
    if chunks == [] then ids == []
    else exists n ::
           && 0 <= n <= |ids|
           && SegmentIds(tok, chunks[..|chunks| - 1], ids[..n])
           && ChunkIds(tok, chunks[|chunks| - 1], ids[n..])
  }

  lemma {:induction false} SegmentLossless(tok: Tokenizer, chunks: seq<Text>, ids: seq<int>, dec: map<nat, Octet>)
    requires Lossless(tok) && Reverses(dec) && SegmentIds(tok, chunks, ids)
    ensures DecodeAll(dec, tok, ids) == Flat(chunks)
    decreases |chunks|
  {
    hide Lossless, ChunkIds, DecodeAll, Reverses;
    if chunks == [] {
      NoneDecoded(dec, tok);
    } else {
      var m := |chunks| - 1;
      var n :| 0 <= n <= |ids| && SegmentIds(tok, chunks[..m], ids[..n]) && ChunkIds(tok, chunks[m], ids[n..]);
      SegmentLossless(tok, chunks[..m], ids[..n], dec);
      ChunkLossless(tok, chunks[m], ids[n..], dec);
      DecodeConcat(dec, tok, ids[..n], ids[n..]);
      assert ids == ids[..n] + ids[n..];
    }
  }

  lemma SymbolsSpell(tok: Tokenizer, bytes: Text, symbols: seq<Text>)
    requires Closed(tok) && |symbols| == |bytes| && forall k :: 0 <= k < |bytes| ==> symbols[k] == Symbol(bytes[k])
    ensures Spells(tok.vocab, symbols, Singles(bytes))
  {
    forall k | 0 <= k < |bytes|
      ensures symbols[k] == Spelled(Singles(bytes)[k])
    {
      SpelledOne(bytes[k]);
    }
  }

  /** The bytes of a piece that are tokens on their own. */
  function ByteIds(vocab: map<Text, int>, piece: Text): seq<int>
  {
    if piece == [] then []
    else
      var b := [piece[|piece| - 1]];
      ByteIds(vocab, piece[..|piece| - 1]) + if b in vocab then [vocab[b]] else []
  }

  /** A piece that is no token gives the ids of its bytes in order, without those of bytes that are no tokens. */
  lemma {:induction false} Fallback(vocab: map<Text, int>, piece: Text) returns (at: seq<nat>)
    requires piece !in vocab
    ensures forall i :: 0 <= i < |at| ==> at[i] < |piece| && [piece[at[i]]] in vocab
    ensures forall i, j :: 0 <= i < j < |at| ==> at[i] < at[j]
    ensures forall k :: 0 <= k < |piece| && [piece[k]] in vocab ==> k in at
    ensures |IdsOf(vocab, [piece])| == |at|
    ensures forall i :: 0 <= i < |at| ==> IdsOf(vocab, [piece])[i] == vocab[[piece[at[i]]]]
  {
    at := BytePlaces(vocab, piece);
    assert [piece][..0] == [];
    assert IdsOf(vocab, [piece]) == [] + ByteIds(vocab, piece);
  }

  lemma {:induction false} BytePlaces(vocab: map<Text, int>, piece: Text) returns (at: seq<nat>)
    ensures forall i :: 0 <= i < |at| ==> at[i] < |piece| && [piece[at[i]]] in vocab
    ensures forall i, j :: 0 <= i < j < |at| ==> at[i] < at[j]
    ensures forall k :: 0 <= k < |piece| && [piece[k]] in vocab ==> k in at
    ensures |ByteIds(vocab, piece)| == |at|
    ensures forall i :: 0 <= i < |at| ==> ByteIds(vocab, piece)[i] == vocab[[piece[at[i]]]]
  {
    at := [];
    if piece != [] {
      var n := |piece| - 1;
      at := BytePlaces(vocab, piece[..n]);
      if [piece[n]] in vocab {
        at := at + [n];
      }
    }
  }

  /** The fallback for a piece that is no token. */
  method AddBytes(tok: Tokenizer, piece: Text, ids0: seq<int>) returns (ids: seq<int>)
    ensures ids == ids0 + ByteIds(tok.vocab, piece)
  {
    ids := ids0;
    for i := 0 to |piece|
      invariant ids == ids0 + ByteIds(tok.vocab, piece[..i])
    {
      assert piece[..i + 1][..i] == piece[..i];
      if [piece[i]] in tok.vocab {
        ids := ids + [tok.vocab[[piece[i]]]];
      }
    }
    assert piece[..|piece|] == piece;
  }

  /** The end-of-text marker. */
  const SPECIAL: Text := [60, 124, 101, 110, 100, 111, 102, 116, 101, 120, 116, 124, 62]

  predicate SpecialAt(text: Text, i: nat)
  {
    i + |SPECIAL| <= |text| && text[i..i + |SPECIAL|] == SPECIAL
  }

  /** First marker from pos on, or the end of the text. */
  function NextSpecial(text: Text, pos: nat): (at: nat)
    requires pos <= |text|
    ensures pos <= at <= |text| && (at < |text| ==> SpecialAt(text, at))
    ensures forall i :: pos <= i < at ==> !SpecialAt(text, i)
    decreases |text| - pos
  {
    if pos == |text| || SpecialAt(text, pos) then pos else NextSpecial(text, pos + 1)
  }

  method FindSpecial(text: Text, pos: nat) returns (found: bool, at: nat)
    requires pos <= |text|
    ensures at == NextSpecial(text, pos) && (found <==> at < |text|)
  {
    at := pos;
    while at < |text|
      invariant pos <= at <= |text| && NextSpecial(text, at) == NextSpecial(text, pos)
    {
      if SpecialAt(text, at) {
        return true, at;
      }
      at := at + 1;
    }
    found := false;
  }

  lemma SpecialSpelled()
    ensures Spelled(SPECIAL) == SPECIAL
  {
    var s := SPECIAL;
    SpelledPlain(s, |s|);
    assert s[..|s|] == s;
  }

  lemma {:induction false} SpelledPlain(s: Text, k: nat)
    requires k <= |s| && forall i :: 0 <= i < |s| ==> 33 <= s[i] <= 126
    ensures Spelled(s[..k]) == s[..k]
  {
    if k > 0 {
      SpelledPlain(s, k - 1);
      assert s[..k][..k - 1] == s[..k - 1];
    }
  }

  /** The ids of a text without markers: its chunks are tokenized one by one. */
  ghost predicate PlainIds(tok: Tokenizer, text: Text, ids: seq<int>)
  {
    Uncut(text) && Unstuck(text) && SegmentIds(tok, ChunksFrom(text, 0), ids)
  }

  /** The ids of text[pos..]: plain text up to the next marker, the marker's id, and so on. */
  ghost predicate TextIds(tok: Tokenizer, text: Text, pos: nat, ids: seq<int>)
    decreases |text| - pos
  {
    if pos >= |text| then ids == []
    else
      var at := NextSpecial(text, pos);
      exists n ::
        && Segment(tok, text, pos, ids, at, n)
        && (at < |text| ==> TextIds(tok, text, at + |SPECIAL|, ids[n + 1..]))
  }

  /** The first n ids are those of the text up to the first marker, at position at. */
  ghost predicate Segment(tok: Tokenizer, text: Text, pos: nat, ids: seq<int>, at: int, n: int)
  {
    && pos <= at <= |text| && 0 <= n <= |ids|
    && PlainIds(tok, text[pos..at], ids[..n])
    && if at == |text| then n == |ids| else n < |ids| && ids[n] == tok.eosId
  }

  lemma ChunkIdsUnique(tok: Tokenizer, chunk: Text, a: seq<int>, b: seq<int>)
    requires ChunkIds(tok, chunk, a) && ChunkIds(tok, chunk, b)
    ensures a == b
  {
    hide Merges;
    var p :| Merges(tok.merges, SymbolsOf(chunk), p) && a == IdsOf(tok.vocab, p);
    var q :| Merges(tok.merges, SymbolsOf(chunk), q) && b == IdsOf(tok.vocab, q);
    MergesUnique(tok.merges, SymbolsOf(chunk), p, q);
  }

  lemma {:induction false} SegmentIdsUnique(tok: Tokenizer, chunks: seq<Text>, a: seq<int>, b: seq<int>)
    requires SegmentIds(tok, chunks, a) && SegmentIds(tok, chunks, b)
    ensures a == b
    decreases |chunks|
  {
    hide ChunkIds;
    if chunks != [] {
      var m := |chunks| - 1;
      var i :| 0 <= i <= |a| && SegmentIds(tok, chunks[..m], a[..i]) && ChunkIds(tok, chunks[m], a[i..]);
      var j :| 0 <= j <= |b| && SegmentIds(tok, chunks[..m], b[..j]) && ChunkIds(tok, chunks[m], b[j..]);
      SegmentIdsUnique(tok, chunks[..m], a[..i], b[..j]);
      ChunkIdsUnique(tok, chunks[m], a[i..], b[j..]);
      assert a == a[..i] + a[i..] && b == b[..j] + b[j..];
    }
  }

  lemma SegmentUnique(tok: Tokenizer, text: Text, pos: nat, a: seq<int>, b: seq<int>, at: int, i: int, j: int)
    requires Segment(tok, text, pos, a, at, i) && Segment(tok, text, pos, b, at, j)
    ensures 0 <= i == j <= |a| && j <= |b|
    ensures if at == |text| then a == b else i < |a| && j < |b| && a[..i + 1] == b[..j + 1]
  {
    hide SegmentIds, ChunksFrom, Uncut, Unstuck;
    SegmentIdsUnique(tok, ChunksFrom(text[pos..at], 0), a[..i], b[..j]);
    if at == |text| {
      assert a == a[..i] && b == b[..j];
    } else {
      assert a[..i + 1] == a[..i] + [a[i]] && b[..j + 1] == b[..j] + [b[j]];
    }
  }

  /** The ids are a function of the text. */
  lemma {:induction false} TextIdsUnique(tok: Tokenizer, text: Text, pos: nat, a: seq<int>, b: seq<int>)
    requires TextIds(tok, text, pos, a) && TextIds(tok, text, pos, b)
    ensures a == b
    decreases |text| - pos
  {
    hide PlainIds, SPECIAL, SpecialAt;
    if pos < |text| {
      MarkerLength();
      var at := NextSpecial(text, pos);
      var i :| Segment(tok, text, pos, a, at, i) && (at < |text| ==> TextIds(tok, text, at + |SPECIAL|, a[i + 1..]));
      var j :| Segment(tok, text, pos, b, at, j) && (at < |text| ==> TextIds(tok, text, at + |SPECIAL|, b[j + 1..]));
      SegmentUnique(tok, text, pos, a, b, at, i, j);
      if at < |text| {
        TextIdsUnique(tok, text, at + |SPECIAL|, a[i + 1..], b[j + 1..]);
        assert a == a[..i + 1] + a[i + 1..] && b == b[..j + 1] + b[j + 1..];
      }
    }
  }

  /**
   * The texts the tokenizer finishes: between markers nothing is cut off, and no pass starts at an overlong
   * newline or digit.
   */
  ghost predicate Tokenizable(text: Text, pos: nat)
    decreases |text| - pos
  {
    if pos >= |text| then true
    else
      var at := NextSpecial(text, pos);
      Uncut(text[pos..at]) && Unstuck(text[pos..at]) && Tokenizable(text, at + |SPECIAL|)
  }

  /** Valid UTF-8 is among them. */
  lemma {:induction false} WholeTokenizable(text: Text, pos: nat)
    requires Whole(text) && (pos < |text| ==> Whole(text[pos..]))
    ensures Tokenizable(text, pos)
    decreases |text| - pos
  {
    hide SPECIAL, Whole, Uncut, Unstuck;
    if pos < |text| {
      MarkerLength();
      var at := NextSpecial(text, pos);
      SegmentWhole(text, pos, at, at < |text|);
      WholeUnstuck(text[pos..at]);
      WholeTokenizable(text, at + |SPECIAL|);
    }
  }

  /** Decoding the ids of a text gives the text back. */
  lemma {:induction false} TextLossless(tok: Tokenizer, text: Text, pos: nat, ids: seq<int>, dec: map<nat, Octet>)
    requires Lossless(tok) && Reverses(dec) && pos <= |text| && TextIds(tok, text, pos, ids)
    ensures DecodeAll(dec, tok, ids) == text[pos..]
    decreases |text| - pos
  {
    hide PlainIds, DecodeAll, Lossless, SPECIAL, Reverses, SpecialAt;
    if pos == |text| {
      NoneDecoded(dec, tok);
    } else {
      var at := NextSpecial(text, pos);
      var n :| Segment(tok, text, pos, ids, at, n)
          && (at < |text| ==> TextIds(tok, text, at + |SPECIAL|, ids[n + 1..]));
      PlainLossless(tok, text[pos..at], ids[..n], dec);
      MarkerLength();
      if at < |text| {
        AroundMarker(text, pos, at);
        TextLossless(tok, text, at + |SPECIAL|, ids[n + 1..], dec);
        MarkerBetween(dec, tok, ids, n);
      } else {
        assert ids[..n] == ids && text[pos..at] == text[pos..];
      }
    }
  }

  lemma AroundMarker(text: Text, pos: nat, at: nat)
    requires pos <= at && SpecialAt(text, at)
    ensures at + |SPECIAL| <= |text|
    ensures text[pos..] == text[pos..at] + SPECIAL + text[at + |SPECIAL|..]
  {
    assert text[pos..] == text[pos..at] + text[at..at + |SPECIAL|] + text[at + |SPECIAL|..];
  }

  lemma MarkerLength()
    ensures |SPECIAL| > 0
  {
  }

  lemma MarkerText()
    ensures |SPECIAL| == |"<|endoftext|>"| && forall k :: 0 <= k < |SPECIAL| ==> SPECIAL[k] == "<|endoftext|>"[k] as int
  {
  }

  lemma MarkerBetween(dec: map<nat, Octet>, tok: Tokenizer, ids: seq<int>, n: nat)
    requires Lossless(tok) && Reverses(dec) && n < |ids| && ids[n] == tok.eosId
    ensures DecodeAll(dec, tok, ids) == DecodeAll(dec, tok, ids[..n]) + SPECIAL + DecodeAll(dec, tok, ids[n + 1..])
  {
    hide DecodeAll, Closed, Invertible, Spelled, SPECIAL;
    SpecialSpelled();
    DecodeMore(dec, tok, ids[..n], tok.eosId, SPECIAL);
    DecodeConcat(dec, tok, ids[..n] + [tok.eosId], ids[n + 1..]);
    assert ids == ids[..n] + [tok.eosId] + ids[n + 1..];
  }

  lemma PlainLossless(tok: Tokenizer, text: Text, ids: seq<int>, dec: map<nat, Octet>)
    requires Lossless(tok) && Reverses(dec) && PlainIds(tok, text, ids)
    ensures DecodeAll(dec, tok, ids) == text
  {
    hide SegmentIds, ChunksFrom;
    SegmentLossless(tok, ChunksFrom(text, 0), ids, dec);
    ChunksJoin(text, 0, 0);
    assert text[0..] == text;
  }

  lemma NoneDecoded(dec: map<nat, Octet>, tok: Tokenizer)
    ensures DecodeAll(dec, tok, []) == []
  {
  }

  /** Segments between markers are whole texts. */
  lemma SegmentWhole(text: Text, pos: nat, at: nat, found: bool)
    requires Whole(text) && pos <= at <= |text| && (if found then SpecialAt(text, at) else at == |text|)
    ensures Whole(text[pos..at])
    ensures found ==> Whole(text[at + |SPECIAL|..])
  {
    if found {
      assert text[at..at + |SPECIAL|][0] == text[at];
      WholeSplit(text, at + |SPECIAL|, |text|);
      assert text[at + |SPECIAL|..|text|] == text[at + |SPECIAL|..];
    }
    WholeSplit(text, pos, at);
  }

  method EncodeSegment(tok: Tokenizer, table: array<Text>, segment: Text, ids0: seq<int>) returns (ids: seq<int>)
    requires table.Length == 256 && forall b: Octet :: table[b] == Symbol(b)
    requires Uncut(segment) && Unstuck(segment)
    ensures ids0 <= ids && PlainIds(tok, segment, ids[|ids0|..])
  {
    hide ChunkIds, Symbol, PassEnd, PassChunks, Uncut, Unstuck;
    ids := ids0;
    if segment == [] {
      assert ChunksFrom(segment, 0) == [];
      assert SegmentIds(tok, [], ids[|ids0|..]);
      return;
    }
    var chunks := PreTokenize(segment);
    for k := 0 to |chunks|
      invariant ids0 <= ids && SegmentIds(tok, chunks[..k], ids[|ids0|..])
    {
      ghost var before := ids;
      ids := EncodeChunk(tok, table, chunks[k], ids);
      ghost var n, all := |before| - |ids0|, ids[|ids0|..];
      assert chunks[..k + 1][..k] == chunks[..k];
      assert all[..n] == before[|ids0|..] && all[n..] == ids[|before|..];
    }
    assert chunks[..|chunks|] == chunks;
  }

  /**
   * bpe_encode: markers become the end-of-text id, everything between them is tokenized. Decoding the ids
   * gives the text back.
   */
  method BpeEncode(tok: Tokenizer, table: array<Text>, text: Text, addEos: bool, ghost dec: map<nat, Octet>)
    returns (ids: seq<int>)
    requires table.Length == 256 && forall b: Octet :: table[b] == Symbol(b)
    requires Tokenizable(text, 0) && Reverses(dec)
    ensures var n := if addEos then |ids| - 1 else |ids|;
            && 0 <= n && TextIds(tok, text, 0, ids[..n]) && (addEos ==> ids[n] == tok.eosId)
            && (Lossless(tok) ==> DecodeAll(dec, tok, ids[..n]) == text)
  {
    hide DecodeAll, Lossless, Symbol, PlainIds, TextIds, SpecialAt;
    ids := [];
    var pos := 0;
    assert forall rest: seq<int> :: [] + rest == rest;
    while pos < |text|
      invariant pos <= |text| && Tokenizable(text, pos)
      invariant forall rest :: TextIds(tok, text, pos, rest) ==> TextIds(tok, text, 0, ids + rest)
      decreases |text| - pos
    {
      var found, at := FindSpecial(text, pos);
      ghost var before := ids;
      ids := EncodeSegment(tok, table, text[pos..at], ids);
      ghost var part := ids[|before|..];
      assert ids == before + part;
      if !found {
        LastSegment(tok, text, pos, part);
        ids := Finished(tok, text, ids, addEos, dec);
        return;
      }
      MarkedSegment(tok, text, pos, at, before, part);
      ids := ids + [tok.eosId];
      pos := at + |SPECIAL|;
    }
    NoIds(tok, text, pos);
    assert ids + [] == ids;
    ids := Finished(tok, text, ids, addEos, dec);
  }

  lemma NoIds(tok: Tokenizer, text: Text, pos: nat)
    requires pos >= |text|
    ensures TextIds(tok, text, pos, [])
  {
  }

  method Finished(tok: Tokenizer, text: Text, ids0: seq<int>, addEos: bool, ghost dec: map<nat, Octet>)
    returns (ids: seq<int>)
    requires TextIds(tok, text, 0, ids0) && Reverses(dec)
    ensures ids == ids0 + if addEos then [tok.eosId] else []
    ensures ids[..|ids0|] == ids0
    ensures Lossless(tok) ==> DecodeAll(dec, tok, ids0) == text
  {
    hide DecodeAll, Lossless, TextIds;
    ids := ids0;
    if Lossless(tok) {
      TextLossless(tok, text, 0, ids, dec);
    }
    if addEos {
      ids := ids + [tok.eosId];
    }
  }

  lemma LastSegment(tok: Tokenizer, text: Text, pos: nat, ids: seq<int>)
    requires pos < |text| == NextSpecial(text, pos) && PlainIds(tok, text[pos..|text|], ids)
    ensures TextIds(tok, text, pos, ids)
  {
    hide PlainIds, SpecialAt;
    assert ids[..|ids|] == ids;
    assert Segment(tok, text, pos, ids, |text|, |ids|);
  }

  lemma MarkerFits(text: Text, pos: nat)
    requires pos <= |text| && NextSpecial(text, pos) < |text|
    ensures NextSpecial(text, pos) + |SPECIAL| <= |text|
  {
  }

  lemma MarkedSegment(tok: Tokenizer, text: Text, pos: nat, at: nat, before: seq<int>, part: seq<int>)
    requires pos <= at < |text| && at == NextSpecial(text, pos) && PlainIds(tok, text[pos..at], part)
    requires forall rest :: TextIds(tok, text, pos, rest) ==> TextIds(tok, text, 0, before + rest)
    ensures at + |SPECIAL| <= |text|
    ensures forall rest :: TextIds(tok, text, at + |SPECIAL|, rest)
              ==> TextIds(tok, text, 0, before + part + [tok.eosId] + rest)
  {
    hide PlainIds, SpecialAt, SPECIAL, NextSpecial;
    MarkerFits(text, pos);
    forall rest | TextIds(tok, text, at + |SPECIAL|, rest)
      ensures TextIds(tok, text, 0, before + part + [tok.eosId] + rest)
    {
      var ids, n := part + [tok.eosId] + rest, |part|;
      assert ids[..n] == part && ids[n + 1..] == rest && ids[n] == tok.eosId;
      assert Segment(tok, text, pos, ids, at, n);
      assert before + ids == before + part + [tok.eosId] + rest;
    }
  }

  /** Token strings to ids: the last of equal tokens wins. */
  function VocabOf(tokens: seq<Text>): map<Text, int>
  {
    if tokens == [] then map[] else VocabOf(tokens[..|tokens| - 1])[tokens[|tokens| - 1] := |tokens| - 1]
  }

  /** The id of a token is the last index where it is listed. */
  lemma {:induction false} LastListed(tokens: seq<Text>, i: nat)
    requires i < |tokens| && tokens[i] !in tokens[i + 1..]
    ensures tokens[i] in VocabOf(tokens) && VocabOf(tokens)[tokens[i]] == i
  {
    var n := |tokens| - 1;
    if i < n {
      assert tokens[n] == tokens[i + 1..][n - i - 1];
      assert tokens[i + 1..] == tokens[..n][i + 1..] + [tokens[n]];
      LastListed(tokens[..n], i);
    }
  }

  lemma {:induction false} VocabKeys(tokens: seq<Text>)
    ensures forall t :: t in VocabOf(tokens) <==> t in tokens
    ensures |VocabOf(tokens)| <= |tokens|
  {
    if tokens != [] {
      var n := |tokens| - 1;
      VocabKeys(tokens[..n]);
      assert tokens == tokens[..n] + [tokens[n]];
      MapCount(VocabOf(tokens[..n]), tokens[n], n);
    }
  }

  lemma {:induction false} VocabIds(tokens: seq<Text>)
    ensures forall t :: t in VocabOf(tokens) ==> 0 <= VocabOf(tokens)[t] < |tokens| && tokens[VocabOf(tokens)[t]] == t
  {
    if tokens != [] {
      VocabIds(tokens[..|tokens| - 1]);
    }
  }

  predicate Distinct(tokens: seq<Text>)
  {
    forall i, j :: 0 <= i < j < |tokens| ==> tokens[i] != tokens[j]
  }

  lemma DistinctMore(front: seq<Text>, t: Text)
    ensures Distinct(front + [t]) <==> Distinct(front) && t !in front
  {
    var all := front + [t];
    if Distinct(all) {
      forall i, j | 0 <= i < j < |front| ensures front[i] != front[j] { assert all[i] != all[j]; }
      forall i | 0 <= i < |front| ensures front[i] != t { assert all[i] != all[|front|]; }
    }
  }

  lemma VocabStep(tokens: seq<Text>)
    requires tokens != []
    ensures var n := |tokens| - 1;
            && tokens == tokens[..n] + [tokens[n]]
            && |VocabOf(tokens)| == |VocabOf(tokens[..n])| + if tokens[n] in tokens[..n] then 0 else 1
  {
    var n := |tokens| - 1;
    VocabKeys(tokens[..n]);
    MapCount(VocabOf(tokens[..n]), tokens[n], n);
  }

  lemma MapCount<K, V>(m: map<K, V>, k: K, v: V)
    ensures |m[k := v]| == |m| + if k in m then 0 else 1
  {
  }

  lemma {:induction false} VocabCount(tokens: seq<Text>)
    ensures |VocabOf(tokens)| == |tokens| <==> Distinct(tokens)
  {
    hide Distinct, VocabOf;
    if tokens == [] {
      NoTokens();
    } else {
      var n := |tokens| - 1;
      VocabCount(tokens[..n]);
      VocabKeys(tokens[..n]);
      VocabStep(tokens);
      DistinctMore(tokens[..n], tokens[n]);
    }
  }

  lemma NoTokens()
    ensures VocabOf([]) == map[] && Distinct([])
  {
  }

  const EOS: int := 151643

  /**
   * load_bpe_from_gguf: the table from ids to strings has one slot per different token, so it inverts the
   * vocabulary exactly when no token is listed twice.
   */
  method Load(tokens: seq<Text>, rules: seq<Text>) returns (tok: Tokenizer)
    ensures tok.vocab == VocabOf(tokens) && tok.merges == VocabOf(rules) && tok.eosId == EOS
    ensures |tok.idToStr| == |tok.vocab| <= |tokens|
    ensures forall i :: 0 <= i < |tok.vocab| ==> tok.idToStr[i] == Slot(tokens, i)
    ensures Invertible(tok) <==> Distinct(tokens)
  {
    hide VocabOf, Distinct;
    var vocab := ReadList(tokens);
    var merges := ReadList(rules);
    VocabKeys(tokens);
    VocabIds(tokens);
    var idToStr: seq<Text> := seq(|vocab|, _ => []);
    var left := vocab.Keys;
    while left != {}
      invariant left <= vocab.Keys && |idToStr| == |vocab|
      invariant forall i :: 0 <= i < |vocab| ==> idToStr[i] == if tokens[i] in left then [] else Slot(tokens, i)
    {
      var t :| t in left;
      if vocab[t] < |idToStr| {
        idToStr := idToStr[vocab[t] := t];
      }
      left := left - {t};
    }
    tok := Tokenizer(vocab, merges, EOS, idToStr);
    SlotsInvert(tokens, tok);
  }

  /** The string of an id: the token, where it is listed last. */
  function Slot(tokens: seq<Text>, i: nat): Text
    requires i < |tokens|
  {
    VocabKeys(tokens);
    if VocabOf(tokens)[tokens[i]] == i then tokens[i] else []
  }

  lemma SlotsInvert(tokens: seq<Text>, tok: Tokenizer)
    requires tok.vocab == VocabOf(tokens) && |tok.idToStr| == |tok.vocab| <= |tokens|
    requires forall i :: 0 <= i < |tok.vocab| ==> tok.idToStr[i] == Slot(tokens, i)
    ensures Invertible(tok) <==> Distinct(tokens)
  {
    hide VocabOf, Distinct;
    VocabKeys(tokens);
    VocabIds(tokens);
    VocabCount(tokens);
    if |tok.vocab| < |tokens| {
      LastId(tokens);
    }
  }

  lemma LastId(tokens: seq<Text>)
    requires tokens != []
    ensures tokens[|tokens| - 1] in VocabOf(tokens) && VocabOf(tokens)[tokens[|tokens| - 1]] == |tokens| - 1
  {
  }

  method ReadList(tokens: seq<Text>) returns (m: map<Text, int>)
    ensures m == VocabOf(tokens)
  {
    m := map[];
    for i := 0 to |tokens|
      invariant m == VocabOf(tokens[..i])
    {
      assert tokens[..i + 1][..i] == tokens[..i];
      m := m[tokens[i] := i];
    }
    assert tokens[..|tokens|] == tokens;
  }
}
