/**
 * PCM buffering of mp3enc_encode and mp3enc_flush in mp3/mp3enc.h: planar input of any length is cut into
 * frames of 1152 samples per channel, whatever the sizes of the calls.
 */
module Pcm {
  import opened Bits

  const FRAME: nat := 1152

  /** One sample of every channel. */
  type Tick = seq<real>

  /** The k-th frame's samples: 1152k up to 1152(k + 1) of every channel. */
  function Block(s: seq<Tick>, k: nat): (b: seq<Tick>)
    requires FRAME * (k + 1) <= |s|
    ensures |b| == FRAME
  {
    s[FRAME * k..FRAME * (k + 1)]
  }

  /** All whole frames, and the samples after them. */
  function Blocks(s: seq<Tick>): (bs: seq<seq<Tick>>)
    ensures |bs| == |s| / FRAME
    ensures forall k :: 0 <= k < |bs| ==> bs[k] == s[FRAME * k..FRAME * (k + 1)]
  {
    seq(|s| / FRAME, k requires 0 <= k < |s| / FRAME => s[FRAME * k..FRAME * (k + 1)])
  }

  function Rest(s: seq<Tick>): (r: seq<Tick>)
    ensures |r| == |s| % FRAME
  {
    s[FRAME * (|s| / FRAME)..]
  }

  lemma BlocksConcat(a: seq<Tick>, b: seq<Tick>)
    ensures Blocks(a + b) == Blocks(a) + Blocks(Rest(a) + b)
    ensures Rest(a + b) == Rest(Rest(a) + b)
  {
    var n, c := |a| / FRAME, Rest(a) + b;
    assert a + b == a[..FRAME * n] + c;
    assert |a + b| / FRAME == n + |c| / FRAME;
    forall k | 0 <= k < |Blocks(a + b)|
      ensures Blocks(a + b)[k] == (Blocks(a) + Blocks(c))[k]
    {
      if k >= n {
        assert (a + b)[FRAME * k..FRAME * (k + 1)] == c[FRAME * (k - n)..FRAME * (k - n + 1)];
      }
    }
  }

  /** Less than two frames: the block is complete or not. */
  lemma BlocksShort(s: seq<Tick>)
    requires |s| <= FRAME
    ensures |s| < FRAME ==> Blocks(s) == [] && Rest(s) == s
    ensures |s| == FRAME ==> Blocks(s) == [s] && Rest(s) == []
  {
    if |s| == FRAME {
      assert s[0..FRAME] == s;
    }
  }

  /** Encode frames one after another with a frame encoder that maps its state and a block to state and bytes. */
  function Fold<E>(frame: (E, seq<Tick>) -> (E, seq<Byte>), e: E, bs: seq<seq<Tick>>): (E, seq<Byte>)
  {
    if bs == [] then (e, [])
    else
      var p := Fold(frame, e, bs[..|bs| - 1]);
      var q := frame(p.0, bs[|bs| - 1]);
      (q.0, p.1 + q.1)
  }

  lemma {:induction false} FoldConcat<E>(frame: (E, seq<Tick>) -> (E, seq<Byte>), e: E, a: seq<seq<Tick>>,
                                         b: seq<seq<Tick>>)
    ensures var p := Fold(frame, e, a);
            var q := Fold(frame, p.0, b);
            Fold(frame, e, a + b) == (q.0, p.1 + q.1)
  {
    if b == [] {
      assert a + b == a;
      assert Fold(frame, e, a).1 + [] == Fold(frame, e, a).1;
    } else {
      assert (a + b)[..|a + b| - 1] == a + b[..|b| - 1];
      FoldConcat(frame, e, a, b[..|b| - 1]);
      var p := Fold(frame, e, a);
      var q := Fold(frame, p.0, b[..|b| - 1]);
      Associative(p.1, q.1, frame(q.0, b[|b| - 1]).1);
    }
  }

  lemma Associative(a: seq<Byte>, b: seq<Byte>, c: seq<Byte>)
    ensures a + b + c == a + (b + c)
  {
  }

  /** What is left in the encoder between calls, and what the calls so far returned. */
  datatype Session<E> = Session(enc: E, held: seq<Tick>, out: seq<Byte>)

  /** One mp3enc_encode. */
  function Feed<E>(frame: (E, seq<Tick>) -> (E, seq<Byte>), s: Session<E>, input: seq<Tick>): Session<E>
  {
    var all := s.held + input;
    var r := Fold(frame, s.enc, Blocks(all));
    Session(r.0, Rest(all), s.out + r.1)
  }

  function FeedAll<E>(frame: (E, seq<Tick>) -> (E, seq<Byte>), s: Session<E>, chunks: seq<seq<Tick>>): Session<E>
  {
    if chunks == [] then s
    else Feed(frame, FeedAll(frame, s, chunks[..|chunks| - 1]), chunks[|chunks| - 1])
  }

  function Flat(chunks: seq<seq<Tick>>): seq<Tick>
  {
    if chunks == [] then [] else Flat(chunks[..|chunks| - 1]) + chunks[|chunks| - 1]
  }

  lemma FeedTwice<E>(frame: (E, seq<Tick>) -> (E, seq<Byte>), s: Session<E>, a: seq<Tick>, b: seq<Tick>)
    ensures Feed(frame, Feed(frame, s, a), b) == Feed(frame, s, a + b)
  {
    hide Blocks, Rest, Fold;
    var all := s.held + a;
    assert s.held + (a + b) == all + b;
    BlocksConcat(all, b);
    FoldConcat(frame, s.enc, Blocks(all), Blocks(Rest(all) + b));
    var p := Fold(frame, s.enc, Blocks(all));
    Associative(s.out, p.1, Fold(frame, p.0, Blocks(Rest(all) + b)).1);
  }

  /** A call that reaches the end of a frame at most. */
  lemma FeedShort<E>(frame: (E, seq<Tick>) -> (E, seq<Byte>), s: Session<E>, input: seq<Tick>)
    requires |s.held + input| <= FRAME
    ensures Feed(frame, s, input)
            == var all := s.held + input;
               if |all| < FRAME then s.(held := all)
               else Session(frame(s.enc, all).0, [], s.out + frame(s.enc, all).1)
  {
    var all := s.held + input;
    BlocksShort(all);
    if |all| == FRAME { FoldOne(frame, s.enc, all); } else { assert s.out + [] == s.out; }
  }

  /**
   * However the input is split into calls, the encoder's state, the samples held back and the joined
   * output are those of a single call.
   */
  lemma {:induction false} ChunkingInvariant<E>(frame: (E, seq<Tick>) -> (E, seq<Byte>), s: Session<E>,
                                                chunks: seq<seq<Tick>>)
    requires |s.held| < FRAME
    ensures FeedAll(frame, s, chunks) == Feed(frame, s, Flat(chunks))
  {
    if chunks == [] {
      assert s.held + [] == s.held;
      BlocksShort(s.held);
    } else {
      ChunkingInvariant(frame, s, chunks[..|chunks| - 1]);
      FeedTwice(frame, s, Flat(chunks[..|chunks| - 1]), chunks[|chunks| - 1]);
    }
  }

  function Silence(n: nat, nch: nat): seq<Tick> { seq(n, _ => seq(nch, _ => 0.0)) }

  /** mp3enc_flush: complete the last frame with silence, then output what the frame encoder holds back. */
  function Finish<E>(frame: (E, seq<Tick>) -> (E, seq<Byte>), finish: E -> (E, seq<Byte>), nch: nat,
                     e: E, held: seq<Tick>): (E, seq<Byte>)
    requires |held| < FRAME
  {
    var p := if held == [] then (e, []) else frame(e, held + Silence(FRAME - |held|, nch));
    var q := finish(p.0);
    (q.0, p.1 + q.1)
  }

  /** Samples 0 up to |s| rounded up to whole frames. */
  function Padded(s: seq<Tick>, nch: nat): (p: seq<Tick>)
    ensures s <= p && |p| % FRAME == 0 && |s| <= |p| < |s| + FRAME
  {
    s + Silence((FRAME - |s| % FRAME) % FRAME, nch)
  }

  lemma PaddedBlocks(s: seq<Tick>, nch: nat)
    ensures Blocks(Padded(s, nch))
            == Blocks(s) + if Rest(s) == [] then [] else [Rest(s) + Silence(FRAME - |Rest(s)|, nch)]
  {
    var z := Silence((FRAME - |s| % FRAME) % FRAME, nch);
    BlocksConcat(s, z);
    BlocksShort(Rest(s) + z);
  }

  /** Encoding then flushing encodes exactly the frames of the padded input: the k-th gets samples 1152k on. */
  lemma WholeRun<E>(frame: (E, seq<Tick>) -> (E, seq<Byte>), finish: E -> (E, seq<Byte>), nch: nat, e: E, s: seq<Tick>)
    ensures var t := Feed(frame, Session(e, [], []), s);
            var f := Finish(frame, finish, nch, t.enc, t.held);
            var r := Fold(frame, e, Blocks(Padded(s, nch)));
            (f.0, t.out + f.1) == (finish(r.0).0, r.1 + finish(r.0).1)
  {
    hide Blocks, Rest, Padded;
    assert [] + s == s;
    PaddedBlocks(s, nch);
    var p := Fold(frame, e, Blocks(s));
    assert [] + p.1 == p.1;
    if Rest(s) != [] {
      var last := Rest(s) + Silence(FRAME - |Rest(s)|, nch);
      FoldConcat(frame, e, Blocks(s), [last]);
      FoldOne(frame, p.0, last);
      Associative(p.1, frame(p.0, last).1, finish(frame(p.0, last).0).1);
    } else {
      assert Blocks(s) + [] == Blocks(s);
      assert [] + finish(p.0).1 == finish(p.0).1;
    }
  }

  lemma FoldOne<E>(frame: (E, seq<Tick>) -> (E, seq<Byte>), e: E, b: seq<Tick>)
    ensures Fold(frame, e, [b]) == frame(e, b)
  {
    assert [b][..0] == [];
    assert [] + frame(e, b).1 == frame(e, b).1;
  }

  /** Start of a channel in a planar buffer. */
  function Row(stride: nat, ch: nat): nat { ch * stride }

  lemma RowsApart(stride: nat, c: nat, d: nat)
    requires c < d
    ensures Row(stride, c) + stride <= Row(stride, d)
  {
    MulMonotone(stride, c + 1, d);
  }

  lemma RowFits(stride: nat, nch: nat)
    ensures forall ch: nat :: ch < nch ==> Row(stride, ch) + stride <= Row(stride, nch)
  {
    forall ch: nat | ch < nch ensures Row(stride, ch) + stride <= Row(stride, nch) { RowsApart(stride, ch, nch); }
  }

  /** Sample i of a channel of a planar buffer. */
  function Sample(buf: seq<real>, stride: nat, ch: nat, i: nat): real
  {
    var at := Row(stride, ch) + i;
    if at < |buf| then buf[at] else 0.0
  }

  /** Samples of all channels in a planar buffer. */
  function Ticks(buf: seq<real>, stride: nat, nch: nat, from: nat, n: nat): (t: seq<Tick>)
    ensures |t| == n
    ensures forall i :: 0 <= i < n ==> |t[i]| == nch
    ensures forall i, ch :: 0 <= i < n && 0 <= ch < nch ==> t[i][ch] == Sample(buf, stride, ch, from + i)
  {
    seq(n, i requires 0 <= i < n => seq(nch, ch requires 0 <= ch < nch => Sample(buf, stride, ch, from + i)))
  }

  lemma TicksSplit(buf: seq<real>, stride: nat, nch: nat, from: nat, m: nat, n: nat)
    ensures Ticks(buf, stride, nch, from, m + n)
            == Ticks(buf, stride, nch, from, m) + Ticks(buf, stride, nch, from + m, n)
  {
  }

  lemma TicksSame(a: seq<real>, sa: nat, fa: nat, b: seq<real>, sb: nat, fb: nat, nch: nat, n: nat)
    requires forall c: nat, i: nat :: c < nch && fa <= i < fa + n ==>
               Sample(a, sa, c, i) == Sample(b, sb, c, fb + i - fa)
    ensures Ticks(a, sa, nch, fa, n) == Ticks(b, sb, nch, fb, n)
  {
    forall i | 0 <= i < n
      ensures Ticks(a, sa, nch, fa, n)[i] == Ticks(b, sb, nch, fb, n)[i]
    {
    }
  }

  lemma SilentTicks(zeros: seq<real>, n: nat, nch: nat)
    requires forall k :: 0 <= k < |zeros| ==> zeros[k] == 0.0
    ensures Ticks(zeros, n, nch, 0, n) == Silence(n, nch)
  {
    forall i | 0 <= i < n
      ensures Ticks(zeros, n, nch, 0, n)[i] == Silence(n, nch)[i]
    {
    }
  }

  class PcmEncoder<E> {
    const nch: nat
    const frame: (E, seq<Tick>) -> (E, seq<Byte>)
    const finish: E -> (E, seq<Byte>)
    var enc: E
    const pcm: array<real>
    var fill: nat
    var outBuf: seq<Byte>

    ghost predicate Valid()
      reads this
    {
      pcm.Length == Row(FRAME, nch) && fill < FRAME
    }

    /** Samples waiting for a complete frame. */
    ghost function Held(): seq<Tick>
      reads this, pcm
    {
      Ticks(pcm[..], FRAME, nch, 0, fill)
    }

    ghost function Now(): Session<E>
      reads this, pcm
    {
      Session(enc, Held(), outBuf)
    }

    constructor (nch: nat, frame: (E, seq<Tick>) -> (E, seq<Byte>), finish: E -> (E, seq<Byte>), start: E)
      ensures Valid() && fresh(pcm) && Now() == Session(start, [], [])
      ensures this.nch == nch && this.frame == frame && this.finish == finish
    {
      this.nch, this.frame, this.finish, enc, fill, outBuf := nch, frame, finish, start, 0, [];
      pcm := new real[Row(FRAME, nch)];
    }

    /** Append count samples of every channel, from position at of the input on. */
    method CopyPlanes(audio: seq<real>, n: nat, at: nat, count: nat)
      requires Valid() && |audio| == Row(n, nch) && at + count <= n && fill + count <= FRAME
      modifies pcm
      ensures Ticks(pcm[..], FRAME, nch, 0, fill + count) == old(Held()) + Ticks(audio, n, nch, at, count)
    {
      hide Row;
      RowFits(FRAME, nch);
      RowFits(n, nch);
      for ch := 0 to nch
        invariant forall c: nat, i: nat :: c < nch && i < fill ==>
                    Sample(pcm[..], FRAME, c, i) == old(Sample(pcm[..], FRAME, c, i))
        invariant forall c: nat, i: nat :: c < ch && fill <= i < fill + count ==>
                    Sample(pcm[..], FRAME, c, i) == Sample(audio, n, c, at + i - fill)
      {
        CopyPlane(audio, n, at, count, ch);
      }
      TicksSame(pcm[..], FRAME, 0, old(pcm[..]), FRAME, 0, nch, fill);
      TicksSplit(pcm[..], FRAME, nch, 0, fill, count);
      TicksSame(pcm[..], FRAME, fill, audio, n, at, nch, count);
    }

    method CopyPlane(audio: seq<real>, n: nat, at: nat, count: nat, ch: nat)
      requires Valid() && |audio| == Row(n, nch) && at + count <= n && fill + count <= FRAME && ch < nch
      modifies pcm
      ensures forall c: nat, i: nat :: c < nch && i < FRAME && !(c == ch && fill <= i < fill + count) ==>
                Sample(pcm[..], FRAME, c, i) == old(Sample(pcm[..], FRAME, c, i))
      ensures forall i: nat :: fill <= i < fill + count ==>
                Sample(pcm[..], FRAME, ch, i) == Sample(audio, n, ch, at + i - fill)
    {
      hide Row;
      RowFits(FRAME, nch);
      RowFits(n, nch);
      forall c: nat | c < nch && c != ch
        ensures Row(FRAME, c) + FRAME <= Row(FRAME, ch) || Row(FRAME, ch) + FRAME <= Row(FRAME, c)
      {
        if c < ch { RowsApart(FRAME, c, ch); } else { RowsApart(FRAME, ch, c); }
      }
      var to, from := Row(FRAME, ch) + fill, Row(n, ch) + at;
      for i := 0 to count
        invariant forall k: nat :: k < pcm.Length && !(to <= k < to + i) ==> pcm[k] == old(pcm[k])
        invariant forall k: nat :: to <= k < to + i ==> pcm[k] == audio[from + k - to]
      {
        pcm[to + i] := audio[from + i];
      }
    }

    /** Buffer some samples and encode the frame if that completes it. */
    method Take(audio: seq<real>, n: nat, at: nat, count: nat)
      requires Valid() && |audio| == Row(n, nch) && at + count <= n && fill + count <= FRAME
      modifies this, pcm
      ensures Valid()
      ensures Now() == Feed(frame, old(Now()), Ticks(audio, n, nch, at, count))
    {
      hide Feed, Row;
      FeedShort(frame, Now(), Ticks(audio, n, nch, at, count));
      CopyPlanes(audio, n, at, count);
      fill := fill + count;
      if fill == FRAME {
        var r := frame(enc, Ticks(pcm[..], FRAME, nch, 0, FRAME));
        enc, outBuf, fill := r.0, outBuf + r.1, 0;
      }
    }

    /** mp3enc_encode on n samples of every channel. */
    method Encode(audio: seq<real>, n: nat) returns (out: seq<Byte>)
      requires Valid() && |audio| == Row(n, nch)
      modifies this, pcm
      ensures Valid() && out == outBuf
      ensures Now() == Feed(frame, Session(old(enc), old(Held()), []), Ticks(audio, n, nch, 0, n))
    {
      ghost var start := Session(enc, Held(), []);
      outBuf := [];
      var consumed := 0;
      hide Feed, Row, Ticks;
      FeedShort(frame, start, []);
      assert Held() + [] == Held();
      while consumed < n
        invariant Valid() && consumed <= n
        invariant Now() == Feed(frame, start, Ticks(audio, n, nch, 0, consumed))
      {
        var space, avail := FRAME - fill, n - consumed;
        var count := if avail < space then avail else space;
        TicksSplit(audio, n, nch, 0, consumed, count);
        FeedTwice(frame, start, Ticks(audio, n, nch, 0, consumed), Ticks(audio, n, nch, consumed, count));
        Take(audio, n, consumed, count);
        consumed := consumed + count;
      }
      out := outBuf;
    }

    /** mp3enc_flush. */
    method Flush() returns (out: seq<Byte>)
      requires Valid()
      modifies this, pcm
      ensures Valid() && out == outBuf && Held() == []
      ensures (enc, out) == Finish(frame, finish, nch, old(enc), old(Held()))
    {
      outBuf := [];
      if fill > 0 {
        var zeros := seq(Row(FRAME - fill, nch), _ => 0.0);
        hide Row;
        RowFits(FRAME - fill, nch);
        CopyPlanes(zeros, FRAME - fill, 0, FRAME - fill);
        SilentTicks(zeros, FRAME - fill, nch);
        var r := frame(enc, Ticks(pcm[..], FRAME, nch, 0, FRAME));
        enc, outBuf, fill := r.0, r.1, 0;
      }
      var r := finish(enc);
      enc, outBuf := r.0, outBuf + r.1;
      out := outBuf;
    }
  }
}
