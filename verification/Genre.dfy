/**
 * The genre vocabulary of src/genre-vocab.h: sorted entries answer prefix questions by binary search, and
 * the answers are those of a scan over all entries.
 */
module Genre {
  import opened Utf8

  /** Byte-wise lexicographic order. */
  predicate Less(a: Text, b: Text)
  {
    b != [] && (a == [] || a[0] < b[0] || (a[0] == b[0] && Less(a[1..], b[1..])))
  }

  lemma {:induction false} LessTotal(a: Text, b: Text)
    ensures !(Less(a, b) && Less(b, a)) && (!Less(a, b) && !Less(b, a) ==> a == b) && !Less(a, a)
  {
    if a != [] && b != [] {
      LessTotal(a[1..], b[1..]);
      if a[0] == b[0] && a[1..] == b[1..] { assert a == [a[0]] + a[1..] == b; }
    }
    if a != [] { LessTotal(a[1..], a[1..]); }
  }

  lemma {:induction false} LessTransitive(a: Text, b: Text, c: Text)
    requires Less(a, b) && !Less(c, b)
    ensures Less(a, c)
  {
    if a != [] && c != [] && a[0] == b[0] == c[0] {
      LessTransitive(a[1..], b[1..], c[1..]);
    }
  }

  /** What follows a shared prefix decides. */
  lemma {:induction false} LessAfter(p: Text, u: Text, v: Text)
    ensures Less(p + u, p + v) <==> Less(u, v)
  {
    if p == [] {
      assert p + u == u && p + v == v;
    } else {
      assert (p + u)[1..] == p[1..] + u && (p + v)[1..] == p[1..] + v;
      LessAfter(p[1..], u, v);
    }
  }

  lemma {:induction false} PrefixNotLess(p: Text, e: Text)
    requires p <= e
    ensures !Less(e, p)
  {
    if p != [] {
      PrefixNotLess(p[1..], e[1..]);
    }
  }

  /** Past the entries that start with p, none starts with p. */
  lemma {:induction false} PastPrefix(p: Text, e: Text, f: Text)
    requires !Less(e, p) && !(p <= e) && !Less(f, e)
    ensures !(p <= f)
  {
    if p != [] && e != [] && f != [] && p[0] == e[0] == f[0] {
      assert p[1..] <= e[1..] ==> p <= e;
      PastPrefix(p[1..], e[1..], f[1..]);
    }
  }

  /** An entry that starts with p comes before p and c exactly when it is p or its next byte is below c. */
  lemma BeforeNext(p: Text, e: Text, c: Octet)
    requires p <= e
    ensures Less(e, p + [c]) <==> |e| == |p| || e[|p|] < c
  {
    var u := e[|p|..];
    assert e == p + u;
    LessAfter(p, u, [c]);
    if u != [] { assert u[0] == e[|p|]; }
  }

  ghost predicate Sorted(entries: seq<Text>)
  {
    forall i, j :: 0 <= i < j < |entries| ==> Less(entries[i], entries[j])
  }

  /** Where p would be inserted: everything before is less, nothing after is. */
  ghost predicate Bound(entries: seq<Text>, p: Text, k: int)
  {
    && 0 <= k <= |entries|
    && (forall i :: 0 <= i < k ==> Less(entries[i], p))
    && (forall i :: k <= i < |entries| ==> !Less(entries[i], p))
  }

  method LowerBound(entries: seq<Text>, from: nat, p: Text) returns (k: nat)
    requires Sorted(entries) && from <= |entries| && forall i :: 0 <= i < from ==> Less(entries[i], p)
    ensures Bound(entries, p, k) && from <= k
  {
    k := from;
    var hi := |entries|;
    while k < hi
      invariant from <= k <= hi <= |entries|
      invariant forall i :: 0 <= i < k ==> Less(entries[i], p)
      invariant forall i :: hi <= i < |entries| ==> !Less(entries[i], p)
    {
      var mid := (k + hi) / 2;
      if Less(entries[mid], p) {
        forall i | 0 <= i < mid ensures Less(entries[i], p) { Ordered(entries[i], entries[mid], p); }
        k := mid + 1;
      } else {
        forall i | mid < i < |entries| ensures !Less(entries[i], p) {
          if Less(entries[i], p) { Ordered(entries[mid], entries[i], p); }
        }
        hi := mid;
      }
    }
  }

  lemma Ordered(a: Text, b: Text, c: Text)
    requires Less(a, b) && Less(b, c)
    ensures Less(a, c)
  {
    LessTotal(b, c);
    LessTransitive(a, b, c);
  }

  /** The first entry not less than p starts with p, or none does. */
  lemma BoundPrefix(entries: seq<Text>, p: Text, k: nat, from: nat)
    requires Sorted(entries) && from <= k <= |entries|
    requires forall i :: k <= i < |entries| ==> !Less(entries[i], p)
    requires k < |entries| ==> !(p <= entries[k])
    ensures forall i :: k <= i < |entries| ==> !(p <= entries[i])
  {
    forall i | k <= i < |entries|
      ensures !(p <= entries[i])
    {
      if k < i { LessTotal(entries[k], entries[i]); PastPrefix(p, entries[k], entries[i]); }
    }
  }

  method HasPrefix(entries: seq<Text>, p: Text) returns (found: bool)
    requires Sorted(entries)
    ensures found <==> exists e :: e in entries && p <= e
  {
    var k := LowerBound(entries, 0, p);
    found := k < |entries| && p <= entries[k];
    if found {
      assert entries[k] in entries;
    } else {
      BoundPrefix(entries, p, k, 0);
      forall i | 0 <= i < |entries| ensures !(p <= entries[i]) {
        if p <= entries[i] { PrefixNotLess(p, entries[i]); }
      }
    }
  }

  method Contains(entries: seq<Text>, genre: Text) returns (found: bool)
    requires Sorted(entries)
    ensures found <==> genre in entries
  {
    var k := LowerBound(entries, 0, genre);
    found := k < |entries| && entries[k] == genre;
    if genre in entries {
      var i :| 0 <= i < |entries| && entries[i] == genre;
      LessTotal(genre, genre);
      assert k <= i;
      if k < i { assert Less(entries[k], entries[i]); }
    }
  }

  /** Some entry continues p with byte b. */
  ghost predicate Follows(entries: seq<Text>, p: Text, b: Octet)
  {
    exists e :: e in entries && p + [b] <= e
  }

  ghost predicate Ascending(s: seq<Octet>)
  {
    forall i, j :: 0 <= i < j < |s| ==> s[i] < s[j]
  }

  /** next_bytes: exactly the bytes that a scan over all entries finds, ascending. */
  method NextBytes(entries: seq<Text>, p: Text) returns (out: seq<Octet>, complete: bool)
    requires Sorted(entries)
    ensures Ascending(out) && forall b: Octet :: b in out <==> Follows(entries, p, b)
    ensures complete <==> p in entries
  {
    hide Less;
    out, complete := [], false;
    var it := LowerBound(entries, 0, p);
    NoneBefore(entries, p, it);
    while it < |entries| && p <= entries[it]
      invariant Covered(entries, p, it, out, complete)
      decreases |entries| - it
    {
      if |entries[it]| == |p| {
        assert entries[it] == p;
        Complete(entries, p, it, out, complete);
        complete := true;
        it := it + 1;
      } else {
        var next := entries[it][|p|];
        if next == 0xff {
          LastByte(entries, p, it, out, complete);
          out := out + [next];
          it := |entries|;
          break;
        }
        var bound := p + [next + 1];
        BeforeBound(entries, p, it, next + 1);
        var k := LowerBound(entries, it, bound);
        Jumped(entries, p, it, k, out, complete);
        out := out + [next];
        it := k;
      }
    }
    if it < |entries| {
      BoundPrefix(entries, p, it, 0);
    }
    Done(entries, p, it, out, complete);
  }

  /** What the entries before it say about the answer, and why those from it on add only larger bytes. */
  ghost predicate Covered(entries: seq<Text>, p: Text, it: nat, out: seq<Octet>, complete: bool)
  {
    && it <= |entries| && Ascending(out)
    && (forall b :: b in out ==> Follows(entries, p, b))
    && (forall i :: it <= i < |entries| ==> !Less(entries[i], p))
    && (complete <==> exists i :: 0 <= i < it && entries[i] == p)
    && (forall i :: 0 <= i < it && p <= entries[i] && |entries[i]| > |p| ==> entries[i][|p|] in out)
    && (forall i, b :: it <= i < |entries| && p <= entries[i] && |entries[i]| > |p| && b in out ==> b < entries[i][|p|])
  }

  lemma NoneBefore(entries: seq<Text>, p: Text, it: nat)
    requires Bound(entries, p, it)
    ensures Covered(entries, p, it, [], false)
  {
    forall i | 0 <= i < it
      ensures !(p <= entries[i])
    {
      if p <= entries[i] { PrefixNotLess(p, entries[i]); }
    }
  }

  lemma Complete(entries: seq<Text>, p: Text, it: nat, out: seq<Octet>, complete: bool)
    requires Covered(entries, p, it, out, complete) && it < |entries| && entries[it] == p
    ensures Covered(entries, p, it + 1, out, true)
  {
  }

  /** Of two entries that start with p, the later has no smaller next byte, and p itself comes first. */
  lemma ByteOrder(p: Text, e: Text, f: Text)
    requires p <= e && |e| > |p| && p <= f && Less(e, f)
    ensures |f| > |p| && e[|p|] <= f[|p|]
  {
    var u, v := e[|p|..], f[|p|..];
    assert e == p + u && f == p + v;
    LessAfter(p, u, v);
    assert u[0] == e[|p|];
    assert v[0] == f[|p|];
  }

  lemma BeforeBound(entries: seq<Text>, p: Text, it: nat, c: Octet)
    requires Sorted(entries) && it < |entries| && p <= entries[it] && |entries[it]| > |p| && entries[it][|p|] == c - 1
    ensures forall i :: 0 <= i <= it ==> Less(entries[i], p + [c])
  {
    BeforeNext(p, entries[it], c);
    forall i | 0 <= i < it ensures Less(entries[i], p + [c]) { Ordered(entries[i], entries[it], p + [c]); }
  }

  /** The entries from it up to k all continue p with the byte of the entry at it. */
  lemma Jumped(entries: seq<Text>, p: Text, it: nat, k: nat, out: seq<Octet>, complete: bool)
    requires Sorted(entries) && Covered(entries, p, it, out, complete) && it < k <= |entries|
    requires p <= entries[it] && |entries[it]| > |p| && entries[it][|p|] < 0xff
    requires Bound(entries, p + [entries[it][|p|] + 1], k)
    ensures Covered(entries, p, k, out + [entries[it][|p|]], complete)
  {
    hide Less, Follows;
    var next := entries[it][|p|];
    FollowsAt(entries, p, it);
    forall i | it <= i < |entries|
      ensures i < k && entries[i] == p ==> false
      ensures p <= entries[i] && |entries[i]| > |p| ==>
                if i < k then entries[i][|p|] == next else entries[i][|p|] > next
    {
      if p <= entries[i] {
        BeforeNext(p, entries[i], next + 1);
        if i > it { ByteOrder(p, entries[it], entries[i]); }
      }
    }
    var more := out + [next];
    AscendingMore(out, next);
    assert forall b :: b in more ==> Follows(entries, p, b);
    assert complete <==> exists i :: 0 <= i < k && entries[i] == p;
    assert forall i :: 0 <= i < k && p <= entries[i] && |entries[i]| > |p| ==> entries[i][|p|] in more;
    assert forall i, b :: k <= i < |entries| && p <= entries[i] && |entries[i]| > |p| && b in more ==>
             b < entries[i][|p|];
    assert forall i :: k <= i < |entries| ==> !Less(entries[i], p);
  }

  lemma FollowsAt(entries: seq<Text>, p: Text, i: nat)
    requires i < |entries| && p <= entries[i] && |entries[i]| > |p|
    ensures Follows(entries, p, entries[i][|p|])
  {
    assert p + [entries[i][|p|]] <= entries[i] && entries[i] in entries;
  }

  lemma LastByte(entries: seq<Text>, p: Text, it: nat, out: seq<Octet>, complete: bool)
    requires Sorted(entries) && Covered(entries, p, it, out, complete) && it < |entries|
    requires p <= entries[it] && |entries[it]| > |p| && entries[it][|p|] == 0xff
    ensures Covered(entries, p, |entries|, out + [0xff], complete)
  {
    hide Less, Follows;
    FollowsAt(entries, p, it);
    forall i | it <= i < |entries|
      ensures entries[i] != p
      ensures p <= entries[i] && |entries[i]| > |p| ==> entries[i][|p|] == 0xff
    {
      if p <= entries[i] && i > it { ByteOrder(p, entries[it], entries[i]); }
    }
    AscendingMore(out, 0xff);
    var more: seq<Octet> := out + [0xff];
    assert forall b :: b in more ==> Follows(entries, p, b);
    assert complete <==> exists i :: 0 <= i < |entries| && entries[i] == p;
    assert forall i :: 0 <= i < |entries| && p <= entries[i] && |entries[i]| > |p| ==> entries[i][|p|] in more;
  }

  lemma AscendingMore(out: seq<Octet>, next: Octet)
    requires Ascending(out) && forall b :: b in out ==> b < next
    ensures Ascending(out + [next])
  {
    forall i | 0 <= i < |out| ensures out[i] < next { assert out[i] in out; }
  }

  lemma Done(entries: seq<Text>, p: Text, it: nat, out: seq<Octet>, complete: bool)
    requires Covered(entries, p, it, out, complete)
    requires forall i :: it <= i < |entries| ==> !(p <= entries[i])
    ensures forall b: Octet :: b in out <==> Follows(entries, p, b)
    ensures complete <==> p in entries
  {
    forall b: Octet | Follows(entries, p, b)
      ensures b in out
    {
      var e :| e in entries && p + [b] <= e;
      var i :| 0 <= i < |entries| && entries[i] == e;
      assert e[..|p|] == p && e[|p|] == b;
    }
  }
}
