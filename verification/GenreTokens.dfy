/**
 * The genre value of src/metadata-fsm.h: tokens are indexed by first byte, and the index loses none of the
 * tokens that keep the value a prefix of some vocabulary entry.
 */
module GenreTokens {
  import opened Utf8
  import opened Genre

  predicate IsBlank(c: Octet) { c == 32 || c == 9 || c == 13 || c == 10 }

  /** First byte that is not white space. */
  function Content(raw: Text): (k: nat)
    ensures k <= |raw| && (forall i :: 0 <= i < k ==> IsBlank(raw[i])) && (k < |raw| ==> !IsBlank(raw[k]))
  {
    if raw == [] || !IsBlank(raw[0]) then 0 else 1 + Content(raw[1..])
  }

  /** The text without its trailing white space. */
  function Trimmed(raw: Text): (t: Text)
    ensures t <= raw && (t != [] ==> !IsBlank(t[|t| - 1]))
    ensures forall i :: |t| <= i < |raw| ==> IsBlank(raw[i])
  {
    if raw != [] && IsBlank(raw[|raw| - 1]) then Trimmed(raw[..|raw| - 1]) else raw
  }

  function TextOf(raw: Text): Text
  {
    if raw == [] then [] else if Content(raw) == |raw| then [32] else Trimmed(raw)
  }

  /** A token is listed under its first byte and under its first byte that is not white space. */
  predicate Listed(raw: Text, b: Octet)
  {
    raw != [] && (raw[0] == b || (Content(raw) < |raw| && raw[Content(raw)] == b))
  }

  ghost predicate Under(byFirst: seq<seq<int>>, b: Octet, id: int)
    requires |byFirst| == 256
  {
    id in byFirst[b]
  }

  /** The first n tokens are filed under their bytes, and nothing else is. */
  ghost predicate Filed(byFirst: seq<seq<int>>, raws: seq<Text>, n: nat)
    requires |byFirst| == 256 && n <= |raws|
  {
    forall b: Octet, id: int :: Under(byFirst, b, id) <==> 0 <= id < n && Listed(raws[id], b)
  }

  datatype Index = Index(text: seq<Text>, hasNewline: seq<bool>, byFirst: seq<seq<int>>) {

    /** The index of the tokens spelled raws. */
    ghost predicate Of(raws: seq<Text>)
    {
      && |text| == |hasNewline| == |raws| && |byFirst| == 256
      && (forall id :: 0 <= id < |raws| ==> text[id] == TextOf(raws[id]) && (hasNewline[id] <==> 10 in raws[id]))
      && Filed(byFirst, raws, |raws|)
    }
  }

  function LowerByte(c: Octet): Octet { if 65 <= c <= 90 then c + 32 else c }

  /** genre_lower. */
  function Lowered(s: Text): Text { seq(|s|, i requires 0 <= i < |s| => LowerByte(s[i])) }

  function LoweredAll(toks: seq<Text>): seq<Text> { seq(|toks|, i requires 0 <= i < |toks| => Lowered(toks[i])) }

  method Lower(s: Text) returns (t: Text)
    ensures t == Lowered(s)
  {
    t := s;
    for k := 0 to |s|
      invariant |t| == |s|
      invariant forall i :: 0 <= i < |s| ==> t[i] == if i < k then Lowered(s)[i] else s[i]
    {
      t := t[k := LowerByte(t[k])];
    }
  }

  /** The tokens are indexed in lower case. */
  method BuildIndex(toks: seq<Text>) returns (t: Index)
    ensures t.Of(LoweredAll(toks))
  {
    hide TextOf, Listed, Lowered;
    ghost var raws := LoweredAll(toks);
    var text: seq<Text>, hasNewline, byFirst: seq<seq<int>> := [], [], seq(256, _ => []);
    for id := 0 to |toks|
      invariant |text| == |hasNewline| == id && |byFirst| == 256
      invariant forall k :: 0 <= k < id ==> text[k] == TextOf(raws[k]) && (hasNewline[k] <==> 10 in raws[k])
      invariant Filed(byFirst, raws, id)
    {
      var raw := Lower(toks[id]);
      text, hasNewline := text + [TextOf(raw)], hasNewline + [10 in raw];
      var more := File(byFirst, raw, id);
      FiledMore(byFirst, more, raws, id);
      byFirst := more;
    }
    t := Index(text, hasNewline, byFirst);
  }

  lemma FiledMore(a: seq<seq<int>>, b: seq<seq<int>>, raws: seq<Text>, n: nat)
    requires |a| == |b| == 256 && n < |raws| && Filed(a, raws, n)
    requires forall c: Octet, k: int :: Under(b, c, k) <==> Under(a, c, k) || (k == n && Listed(raws[n], c))
    ensures Filed(b, raws, n + 1)
  {
    hide Under, Listed;
  }

  /** File a token under its first bytes. */
  method File(byFirst: seq<seq<int>>, raw: Text, id: int) returns (r: seq<seq<int>>)
    requires |byFirst| == 256
    ensures |r| == 256
    ensures forall b: Octet, k: int :: Under(r, b, k) <==> Under(byFirst, b, k) || (k == id && Listed(raw, b))
  {
    r := byFirst;
    if raw == [] {
      return;
    }
    var first, content := raw[0], Content(raw);
    r := r[first := r[first] + [id]];
    if 0 < content < |raw| && raw[content] != first {
      r := r[raw[content] := r[raw[content]] + [id]];
    }
  }

  function SkipSpaces(s: Text): (t: Text)
    ensures |t| <= |s| && t == s[|s| - |t|..] && (t != [] ==> t[0] != 32)
    ensures forall i :: 0 <= i < |s| - |t| ==> s[i] == 32
  {
    if s != [] && s[0] == 32 then SkipSpaces(s[1..]) else s
  }

  /** The value if a token's text is appended. */
  function Candidate(prefix: Text, text: Text): Text
  {
    if prefix == [] then SkipSpaces(text) else prefix + text
  }

  ghost predicate StartsSome(entries: seq<Text>, p: Text)
  {
    exists e :: e in entries && p <= e
  }

  /** A token of visible text without a newline that keeps the value a prefix of an entry. */
  ghost predicate Continues(entries: seq<Text>, prefix: Text, raw: Text)
  {
    Content(raw) < |raw| && 10 !in raw && StartsSome(entries, Candidate(prefix, TextOf(raw)))
  }

  /** A white-space token without a newline where an entry goes on with that byte, and a word or item ends. */
  ghost predicate Separates(entries: seq<Text>, prefix: Text, raw: Text)
  {
    && raw != [] && Content(raw) == |raw| && 10 !in raw && Follows(entries, prefix, raw[0])
    && (Follows(entries, prefix, 32) || Follows(entries, prefix, 44))
  }

  lemma {:induction false} ContentAt(lead: Text, rest: Text)
    requires (forall i :: 0 <= i < |lead| ==> IsBlank(lead[i])) && rest != [] && !IsBlank(rest[0])
    ensures Content(lead + rest) == |lead|
  {
    if lead == [] {
      assert lead + rest == rest;
    } else {
      assert (lead + rest)[1..] == lead[1..] + rest;
      ContentAt(lead[1..], rest);
    }
  }

  lemma {:induction false} TrimmedAt(s: Text, trail: Text)
    requires (forall i :: 0 <= i < |trail| ==> IsBlank(trail[i])) && s != [] && !IsBlank(s[|s| - 1])
    ensures Trimmed(s + trail) == s
  {
    if trail == [] {
      assert s + trail == s;
    } else {
      assert (s + trail)[..|s + trail| - 1] == s + trail[..|trail| - 1];
      TrimmedAt(s, trail[..|trail| - 1]);
    }
  }

  lemma {:induction false} SpacesSkipped(lead: Text, rest: Text)
    requires (forall i :: 0 <= i < |lead| ==> lead[i] == 32) && rest != [] && rest[0] != 32
    ensures SkipSpaces(lead + rest) == rest
  {
    if lead == [] {
      assert lead + rest == rest;
    } else {
      assert (lead + rest)[1..] == lead[1..] + rest;
      SpacesSkipped(lead[1..], rest);
    }
  }

  /**
   * A token with visible text goes on with the value if an entry does so with the token up to its last visible
   * byte; at the start of the value, spaces before the token do not count.
   */
  lemma ContinuesMeans(entries: seq<Text>, prefix: Text, lead: Text, body: Text, trail: Text)
    requires body != [] && !IsBlank(body[0]) && !IsBlank(body[|body| - 1])
    requires forall i :: 0 <= i < |lead| ==> IsBlank(lead[i])
    requires forall i :: 0 <= i < |trail| ==> IsBlank(trail[i])
    ensures prefix != [] ==>
              (Continues(entries, prefix, lead + body + trail) <==>
               10 !in lead + body + trail && exists e :: e in entries && prefix + lead + body <= e)
    ensures prefix == [] && (forall i :: 0 <= i < |lead| ==> lead[i] == 32) ==>
              (Continues(entries, prefix, lead + body + trail) <==>
               10 !in lead + body + trail && exists e :: e in entries && body <= e)
  {
    var raw := lead + body + trail;
    assert raw == lead + (body + trail) == (lead + body) + trail;
    ContentAt(lead, body + trail);
    TrimmedAt(lead + body, trail);
    if prefix == [] {
      if forall i :: 0 <= i < |lead| ==> lead[i] == 32 { SpacesSkipped(lead, body); }
    } else {
      assert prefix + (lead + body) == prefix + lead + body;
    }
    hide Trimmed, Content, SkipSpaces;
  }

  /** Entries start with a visible byte, as they are trimmed when loaded. */
  ghost predicate Clean(entries: seq<Text>)
  {
    forall e :: e in entries ==> e != [] && !IsBlank(e[0])
  }

  /** The index misses no token: one that continues the value is listed under a byte that can follow. */
  lemma IndexComplete(entries: seq<Text>, prefix: Text, raw: Text)
    requires Clean(entries) && Continues(entries, prefix, raw)
    ensures exists b: Octet :: Follows(entries, prefix, b) && Listed(raw, b)
  {
    var text := Trimmed(raw);
    assert text != [];
    var e :| e in entries && Candidate(prefix, text) <= e;
    if prefix != [] {
      assert prefix + [raw[0]] <= e;
      assert Follows(entries, prefix, raw[0]);
    } else {
      var c := SkipSpaces(text);
      assert c != [];
      assert [] + [c[0]] <= e;
      assert raw[|text| - |c|] == c[0];
      assert Content(raw) == |text| - |c|;
      assert Follows(entries, prefix, c[0]);
    }
  }

  /** std::sort and std::unique. */
  method SortedUnique(s: seq<int>) returns (r: seq<int>)
    ensures (forall i, j :: 0 <= i < j < |r| ==> r[i] < r[j]) && forall x :: x in r <==> x in s
  {
    r := [];
    for k := 0 to |s|
      invariant forall i, j :: 0 <= i < j < |r| ==> r[i] < r[j]
      invariant forall x :: x in r <==> x in s[..k]
    {
      var at := 0;
      while at < |r| && r[at] < s[k]
        invariant at <= |r| && forall i :: 0 <= i < at ==> r[i] < s[k]
      {
        at := at + 1;
      }
      assert s[..k + 1] == s[..k] + [s[k]];
      if at == |r| || r[at] != s[k] {
        assert r == r[..at] + r[at..];
        r := r[..at] + [s[k]] + r[at..];
      }
    }
    assert s[..|s|] == s;
  }

  ghost predicate Offered(raw: Text, next: seq<Octet>)
  {
    exists b :: b in next && Listed(raw, b)
  }

  /** The tokens listed under some byte that can follow, in order. */
  method Candidates(index: Index, next: seq<Octet>, ghost raws: seq<Text>) returns (ids: seq<int>)
    requires index.Of(raws)
    ensures forall i, j :: 0 <= i < j < |ids| ==> ids[i] < ids[j]
    ensures forall id :: id in ids <==> 0 <= id < |raws| && Offered(raws[id], next)
  {
    ids := [];
    for k := 0 to |next|
      invariant forall id :: id in ids <==> 0 <= id < |raws| && Offered(raws[id], next[..k])
    {
      forall raw ensures Offered(raw, next[..k + 1]) <==> Offered(raw, next[..k]) || Listed(raw, next[k])
      {
        OfferedMore(raw, next, k);
      }
      assert forall id :: id in index.byFirst[next[k]] <==> Under(index.byFirst, next[k], id);
      ids := ids + index.byFirst[next[k]];
    }
    assert next[..|next|] == next;
    ids := SortedUnique(ids);
  }

  lemma OfferedMore(raw: Text, next: seq<Octet>, k: nat)
    requires k < |next|
    ensures Offered(raw, next[..k + 1]) <==> Offered(raw, next[..k]) || Listed(raw, next[k])
  {
    assert next[..k + 1] == next[..k] + [next[k]];
    if Listed(raw, next[k]) { assert next[k] in next[..k + 1]; }
  }

  ghost predicate Good(entries: seq<Text>, prefix: Text, raw: Text)
  {
    Continues(entries, prefix, raw) || Separates(entries, prefix, raw)
  }

  /** A token among the candidates is let through. */
  method Passes(entries: seq<Text>, prefix: Text, index: Index, id: int, spaceOk: bool, ghost raws: seq<Text>)
    returns (ok: bool)
    requires Sorted(entries) && index.Of(raws) && 0 <= id < |raws| && raws[id] != []
    ensures ok <==> 10 !in raws[id] &&
                    (if Content(raws[id]) == |raws[id]| then spaceOk else Continues(entries, prefix, raws[id]))
  {
    var text := index.text[id];
    if text == [] || index.hasNewline[id] {
      return false;
    }
    if text == [32] {
      return spaceOk;
    }
    ok := HasPrefix(entries, Candidate(prefix, text));
  }

  /**
   * allowed_genre_tokens once the value is lowercased and trimmed: exactly the tokens that a search over all
   * tokens would allow.
   */
  method AllowedTokens(entries: seq<Text>, index: Index, prefix: Text, newline: int, ghost raws: seq<Text>)
    returns (allowed: seq<int>)
    requires Sorted(entries) && Clean(entries) && index.Of(raws)
    ensures !StartsSome(entries, prefix) ==> allowed == if newline >= 0 then [newline] else []
    ensures StartsSome(entries, prefix) ==> forall id :: id in allowed <==>
              || (0 <= id < |raws| && (Continues(entries, prefix, raws[id]) || Separates(entries, prefix, raws[id])))
              || (id == newline >= 0 && prefix in entries)
  {
    hide Follows, Listed, Good;
    allowed := [];
    var known := HasPrefix(entries, prefix);
    if !known {
      if newline >= 0 { allowed := [newline]; }
      return;
    }
    var next, complete := NextBytes(entries, prefix);
    var spaceOk := 32 in next || 44 in next;
    var ids := Candidates(index, next, raws);
    for k := 0 to |ids|
      invariant forall id :: id in allowed <==> id in ids[..k] && 0 <= id < |raws| && Good(entries, prefix, raws[id])
    {
      assert ids[k] in ids;
      GoodCandidate(entries, prefix, raws[ids[k]], next);
      var ok := Passes(entries, prefix, index, ids[k], spaceOk, raws);
      if ok {
        allowed := allowed + [ids[k]];
      }
      assert ids[..k + 1] == ids[..k] + [ids[k]];
    }
    assert ids[..|ids|] == ids;
    forall id | 0 <= id < |raws|
      ensures Good(entries, prefix, raws[id]) <==>
                Continues(entries, prefix, raws[id]) || Separates(entries, prefix, raws[id])
      ensures Good(entries, prefix, raws[id]) ==> id in ids
    {
      GoodOffered(entries, prefix, raws[id], next);
    }
    if complete && newline >= 0 {
      allowed := allowed + [newline];
    }
  }

  /** For a candidate, the checks decide whether it is good. */
  lemma GoodCandidate(entries: seq<Text>, prefix: Text, raw: Text, next: seq<Octet>)
    requires Offered(raw, next) && forall b: Octet :: b in next <==> Follows(entries, prefix, b)
    ensures raw != []
    ensures Good(entries, prefix, raw) <==>
            10 !in raw && (if Content(raw) == |raw| then 32 in next || 44 in next else Continues(entries, prefix, raw))
  {
    hide Follows;
  }

  lemma GoodOffered(entries: seq<Text>, prefix: Text, raw: Text, next: seq<Octet>)
    requires Clean(entries) && forall b: Octet :: b in next <==> Follows(entries, prefix, b)
    ensures Good(entries, prefix, raw) <==> Continues(entries, prefix, raw) || Separates(entries, prefix, raw)
    ensures Good(entries, prefix, raw) ==> Offered(raw, next)
  {
    hide Follows, StartsSome, Content, TextOf;
    if Continues(entries, prefix, raw) {
      IndexComplete(entries, prefix, raw);
    } else if Separates(entries, prefix, raw) {
      assert raw[0] in next && Listed(raw, raw[0]);
    }
  }

  predicate Gap(c: Octet) { c == 32 || c == 9 }

  function SkipGaps(s: Text): Text { if s != [] && Gap(s[0]) then SkipGaps(s[1..]) else s }

  function DropGaps(s: Text): Text { if s != [] && Gap(s[|s| - 1]) then DropGaps(s[..|s| - 1]) else s }

  /** The value so far as it is looked up: in lower case, without spaces and tabs at either end. */
  function Looked(value: Text): Text { DropGaps(SkipGaps(Lowered(value))) }

  /** The value is looked up as what stands between the spaces and tabs at its ends, in lower case. */
  lemma LookedBetween(value: Text)
    ensures exists a: nat, b: nat :: Between(value, a, b)
  {
    var s := Lowered(value);
    var a := GapsAhead(s);
    var b := GapsBehind(s[a..]);
    forall i | 0 <= i < a || a + b <= i < |value|
      ensures Gap(LowerByte(value[i]))
    {
      assert s[i] == if i < a then s[i] else s[a..][i - a];
    }
    assert Between(value, a, a + b);
  }

  /** Looked(value) is value[a..b] in lower case, with nothing but gaps around and none at its ends. */
  ghost predicate Between(value: Text, a: nat, b: nat)
  {
    && a <= b <= |value| && |Looked(value)| == b - a
    && (forall i :: 0 <= i < a || b <= i < |value| ==> value[i] == 32 || value[i] == 9)
    && (a < b ==> value[a] != 32 && value[a] != 9 && value[b - 1] != 32 && value[b - 1] != 9)
    && (forall i :: a <= i < b && !(65 <= value[i] <= 90) ==> Looked(value)[i - a] == value[i])
    && (forall i :: a <= i < b && 65 <= value[i] <= 90 ==> Looked(value)[i - a] == 97 + (value[i] - 65))
  }

  lemma {:induction false} GapsAhead(s: Text) returns (n: nat)
    ensures n <= |s| && SkipGaps(s) == s[n..] && (n < |s| ==> !Gap(s[n])) && forall i :: 0 <= i < n ==> Gap(s[i])
  {
    n := 0;
    if s != [] && Gap(s[0]) {
      n := GapsAhead(s[1..]);
      n := n + 1;
      assert s[1..][n - 1..] == s[n..];
      assert forall i :: 1 <= i < n ==> s[i] == s[1..][i - 1];
    }
  }

  lemma {:induction false} GapsBehind(s: Text) returns (n: nat)
    ensures n <= |s| && DropGaps(s) == s[..n] && (n > 0 ==> !Gap(s[n - 1]))
    ensures forall i :: n <= i < |s| ==> Gap(s[i])
  {
    n := |s|;
    if s != [] && Gap(s[|s| - 1]) {
      n := GapsBehind(s[..|s| - 1]);
    }
  }

  method LookUp(value: Text) returns (prefix: Text)
    ensures prefix == Looked(value)
  {
    prefix := Lower(value);
    var first := 0;
    while first < |prefix| && Gap(prefix[first])
      invariant first <= |prefix| && SkipGaps(prefix[first..]) == SkipGaps(prefix)
    {
      assert prefix[first..][1..] == prefix[first + 1..];
      first := first + 1;
    }
    prefix := prefix[first..];
    while prefix != [] && Gap(prefix[|prefix| - 1])
      invariant DropGaps(prefix) == Looked(value)
      decreases |prefix|
    {
      prefix := prefix[..|prefix| - 1];
    }
  }

  /** allowed_genre_tokens, from the value generated so far. */
  method AllowedGenreTokens(entries: seq<Text>, index: Index, value: Text, newline: int, ghost raws: seq<Text>)
    returns (allowed: seq<int>)
    requires Sorted(entries) && Clean(entries) && index.Of(raws)
    ensures var prefix := Looked(value);
            if !StartsSome(entries, prefix) then allowed == if newline >= 0 then [newline] else []
            else
              forall id :: id in allowed <==>
                || (0 <= id < |raws| && (Continues(entries, prefix, raws[id]) || Separates(entries, prefix, raws[id])))
                || (id == newline >= 0 && prefix in entries)
  {
    hide Looked, Continues, Separates, StartsSome;
    var prefix := LookUp(value);
    allowed := AllowedTokens(entries, index, prefix, newline, raws);
  }
}
