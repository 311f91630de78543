/**
 * Parallel encoding of src/audio-io.h: every worker encodes its own frame-aligned range with its own
 * encoder, primed with the frames before it, and the outputs are joined.
 */
module Parallel {
  import opened Bits
  import opened Pcm
  import opened Frames
  import opened Reservoir
  import opened Decoder
  import opened Budget
  import opened Encoder

  const WARMUP_FRAMES: nat := 3

  function FramesOf(n: nat): nat { (n + 1151) / 1152 }

  /** As many threads as the machine has, but each with about two seconds of work. */
  predicate Fitting(n: nat, hardware: int, samples: nat, rate: nat)
  {
    && (n == 1 || (1 < n <= hardware && n * FramesOf(2 * rate) <= FramesOf(samples)))
    && (n + 1 > hardware || (n + 1) * FramesOf(2 * rate) > FramesOf(samples))
  }

  method ThreadCount(hardware: int, samples: nat, rate: nat) returns (n: nat)
    requires rate > 0
    ensures Fitting(n, hardware, samples, rate)
    ensures n == 1 || 1 < n <= FramesOf(samples)
  {
    var threads := if hardware < 1 then 1 else hardware;
    var total, least := FramesOf(samples), FramesOf(2 * rate);
    var most := total / least;
    if most < 1 { most := 1; }
    n := if threads > most then most else threads;
    Share(total, least, n);
  }

  /** n shares of size d fit in a exactly when n is at most a / d. */
  lemma Share(a: nat, d: nat, n: nat)
    requires d > 0
    ensures n <= a / d <==> n * d <= a
    ensures n <= a / d ==> n <= a
    ensures n >= a / d ==> (n + 1) * d > a
  {
    assert a == d * (a / d) + a % d;
    if n <= a / d {
      MulMonotone(d, n, a / d);
      MulMonotone(n, 1, d);
    } else {
      MulMonotone(d, a / d + 1, n);
    }
    if n >= a / d { MulMonotone(d, a / d + 1, n + 1); }
  }

  /** Frames before worker t: the first total % n workers get one more. */
  function FramesBefore(total: nat, n: nat, t: nat): nat
    requires n > 0
  {
    t * (total / n) + if t < total % n then t else total % n
  }

  lemma FramesGrowing(total: nat, n: nat, t: nat)
    requires n > 0 && t < n
    ensures FramesBefore(total, n, 0) == 0
    ensures FramesBefore(total, n, n) == total
    ensures FramesBefore(total, n, t + 1)
            == FramesBefore(total, n, t) + total / n + if t < total % n then 1 else 0
    ensures n <= total ==> FramesBefore(total, n, t) < total
  {
    var base := total / n;
    assert total == n * base + total % n;
    assert (t + 1) * base == t * base + base;
    if n <= total {
      assert base >= 1;
      MulMonotone(base, t + 1, n);
      if t > 0 { MulMonotone(base, 1, t); }
    }
  }

  /** The ranges tile the samples, and all but the end of the last are frame boundaries. */
  ghost predicate Tiles(starts: seq<nat>, ends: seq<nat>, samples: nat)
  {
    && |starts| == |ends| > 0
    && starts[0] == 0 && ends[|ends| - 1] == samples
    && (forall t :: 0 <= t < |starts| ==> starts[t] % FRAME == 0 && starts[t] <= ends[t] <= samples)
    && (forall t :: 0 <= t < |starts| - 1 ==> ends[t] == starts[t + 1])
  }

  function Boundary(samples: nat, n: nat, t: nat): nat
    requires n > 0
  {
    if t == n then samples else FRAME * FramesBefore(FramesOf(samples), n, t)
  }

  lemma Boundaries(samples: nat, n: nat, t: nat)
    requires n >= 1 && (n == 1 || n <= FramesOf(samples)) && t < n
    ensures Boundary(samples, n, t) % FRAME == 0
    ensures Boundary(samples, n, t) <= Boundary(samples, n, t + 1) <= samples
    ensures Boundary(samples, n, 0) == 0
  {
    FramesGrowing(FramesOf(samples), n, t);
    if t + 1 < n { FramesGrowing(FramesOf(samples), n, t + 1); }
  }

  method Ranges(samples: nat, n: nat) returns (starts: seq<nat>, ends: seq<nat>)
    requires n >= 1 && (n == 1 || n <= FramesOf(samples))
    ensures Tiles(starts, ends, samples) && |starts| == n
    ensures forall t :: 0 <= t < n ==> starts[t] == Boundary(samples, n, t) && ends[t] == Boundary(samples, n, t + 1)
  {
    hide FramesBefore, Boundary, Tiles, FramesOf;
    var total := FramesOf(samples);
    var base, rem := total / n, total % n;
    var f: nat := 0;
    starts, ends := [], [];
    FramesGrowing(total, n, 0);
    for t := 0 to n
      invariant |starts| == |ends| == t && f == FramesBefore(total, n, t)
      invariant forall k :: 0 <= k < t ==>
                  starts[k] == Boundary(samples, n, k) && ends[k] == Boundary(samples, n, k + 1)
    {
      FramesGrowing(total, n, t);
      AtBoundary(samples, n, t);
      AtBoundary(samples, n, t + 1);
      var nf := base + if t < rem then 1 else 0;
      starts := starts + [f * FRAME];
      f := f + nf;
      ends := ends + [if t == n - 1 then samples else f * FRAME];
    }
    BoundariesTile(starts, ends, samples, n);
  }

  lemma AtBoundary(samples: nat, n: nat, t: nat)
    requires n > 0
    ensures Boundary(samples, n, t) == if t == n then samples else FramesBefore(FramesOf(samples), n, t) * FRAME
  {
  }

  lemma BoundariesTile(starts: seq<nat>, ends: seq<nat>, samples: nat, n: nat)
    requires n >= 1 && (n == 1 || n <= FramesOf(samples)) && |starts| == |ends| == n
    requires forall t :: 0 <= t < n ==> starts[t] == Boundary(samples, n, t) && ends[t] == Boundary(samples, n, t + 1)
    ensures Tiles(starts, ends, samples)
  {
    hide FramesBefore, FramesOf;
    AtBoundary(samples, n, n);
    hide Boundary;
    Boundaries(samples, n, 0);
    forall t | 0 <= t < n
      ensures starts[t] % FRAME == 0 && starts[t] <= ends[t] <= samples
    {
      Boundaries(samples, n, t);
    }
  }

  /** The float stages: the plan for the last block, given all blocks this encoder was fed. */
  type Analysis = seq<seq<Tick>> -> Plan

  /** At gain 255 the flat quantizer fits, whatever the input. */
  ghost predicate Willing(analyse: Analysis, rate: nat, kbps: nat)
  {
    Supported(rate, kbps, 2) && forall h :: Accepts(rate, kbps, 2, analyse(h))
  }

  /** Frame j of the run encodes the j-th block fed after the first n. */
  ghost predicate Encoded(analyse: Analysis, fed: seq<seq<Tick>>, n: nat, ps: seq<Part>, cs: seq<Contents>,
                          rate: nat, kbps: nat)
    requires rate > 0
  {
    && |ps| == |cs| && |fed| == n + |cs|
    && (forall j {:trigger cs[j]} :: 0 <= j < |cs| ==> Follows(cs[j], analyse(fed[..n + j + 1]), rate, kbps, 2))
    && (forall j :: 0 <= j < |ps| ==> ps[j].area <= BaseArea(rate, kbps, 2) + 1)
  }

  lemma EncodedMore(analyse: Analysis, fed: seq<seq<Tick>>, n: nat, ps: seq<Part>, cs: seq<Contents>,
                    rate: nat, kbps: nat, block: seq<Tick>, ps': seq<Part>, cs': seq<Contents>)
    requires rate > 0 && Encoded(analyse, fed, n, ps, cs, rate, kbps)
    requires |ps'| == |ps| + 1 && |cs'| == |cs| + 1 && ps <= ps' && cs <= cs'
    requires Follows(cs'[|cs|], analyse(fed + [block]), rate, kbps, 2)
    requires ps'[|ps|].area <= BaseArea(rate, kbps, 2) + 1
    ensures Encoded(analyse, fed + [block], n, ps', cs', rate, kbps)
  {
    hide Follows, BaseArea;
    var fed' := fed + [block];
    forall j | 0 <= j < |cs'|
      ensures Follows(cs'[j], analyse(fed'[..n + j + 1]), rate, kbps, 2)
    {
      if j < |cs| {
        assert cs'[j] == cs[j] && fed'[..n + j + 1] == fed[..n + j + 1];
      } else {
        assert fed'[..n + j + 1] == fed';
      }
    }
  }

  /** The encoder's run so far encodes the blocks fed after the first n. */
  ghost predicate Tracks(enc: FrameEncoder, analyse: Analysis, fed: seq<seq<Tick>>, n: nat)
    reads enc, enc.pendingFrame
  {
    && enc.Valid() && enc.nch == 2 && Willing(analyse, enc.rate, enc.kbps)
    && Encoded(analyse, fed, n, enc.parts, enc.contents, enc.rate, enc.kbps)
  }

  /** Each call of the public API starts with an empty output buffer. */
  method ResetOutput(enc: FrameEncoder, ghost analyse: Analysis, ghost fed: seq<seq<Tick>>, ghost n: nat)
    requires Tracks(enc, analyse, fed, n)
    modifies enc`outBuf
    ensures Tracks(enc, analyse, fed, n) && enc.outBuf == []
  {
    hide Follows, BaseArea, Accepts, Encodes, WellFed, After, Encoded;
    enc.outBuf := [];
  }

  method EncodeBlock(enc: FrameEncoder, analyse: Analysis, fed: seq<seq<Tick>>, block: seq<Tick>, ghost n: nat)
    requires Tracks(enc, analyse, fed, n)
    modifies enc, enc.frameBuf, enc.mdScratch, enc.pendingFrame
    ensures Tracks(enc, analyse, fed + [block], n)
    ensures old(enc.sent) <= enc.sent && enc.outBuf == old(enc.outBuf) + enc.sent[|old(enc.sent)|..]
  {
    hide Follows, BaseArea, Accepts, Encodes, WellFed, After, Encoded;
    enc.EncodeFrame(analyse(fed + [block]));
    EncodedMore(analyse, fed, n, old(enc.parts), old(enc.contents), enc.rate, enc.kbps, block, enc.parts, enc.contents);
  }

  /** The blocks completed by some more samples; cf. Pcm.PcmEncoder.Encode. */
  method EncodeSamples(enc: FrameEncoder, analyse: Analysis, fed0: seq<seq<Tick>>, held0: seq<Tick>, s: seq<Tick>,
                       ghost n: nat)
    returns (fed: seq<seq<Tick>>, held: seq<Tick>, out: seq<Byte>)
    requires Tracks(enc, analyse, fed0, n)
    modifies enc, enc.frameBuf, enc.mdScratch, enc.pendingFrame
    ensures Tracks(enc, analyse, fed, n)
    ensures fed == fed0 + Blocks(held0 + s) && held == Rest(held0 + s)
    ensures enc.sent == old(enc.sent) + out
  {
    hide Blocks, Rest, Tracks;
    ResetOutput(enc, analyse, fed0, n);
    fed, held := fed0, held0 + s;
    ghost var done := [];
    while |held| >= FRAME
      invariant Tracks(enc, analyse, fed, n)
      invariant fed == fed0 + done && Blocks(held0 + s) == done + Blocks(held) && Rest(held) == Rest(held0 + s)
      invariant enc.sent == old(enc.sent) + enc.outBuf
    {
      var block := held[..FRAME];
      FirstBlock(held);
      EncodeBlock(enc, analyse, fed, block, n);
      fed, held := fed + [block], held[FRAME..];
      done := done + [block];
    }
    BlocksShort(held);
    out := enc.outBuf;
  }

  lemma FirstBlock(s: seq<Tick>)
    requires |s| >= FRAME
    ensures Blocks(s) == [s[..FRAME]] + Blocks(s[FRAME..]) && Rest(s) == Rest(s[FRAME..])
  {
    assert s == s[..FRAME] + s[FRAME..];
    BlocksConcat(s[..FRAME], s[FRAME..]);
    BlocksShort(s[..FRAME]);
    assert [] + s[FRAME..] == s[FRAME..];
  }

  /** mp3enc_flush at the end of a run. */
  method FinishRun(enc: FrameEncoder, analyse: Analysis, fed0: seq<seq<Tick>>, held: seq<Tick>, ghost n: nat)
    returns (fed: seq<seq<Tick>>, out: seq<Byte>, ghost ps: seq<Part>, ghost cs: seq<Contents>)
    requires Tracks(enc, analyse, fed0, n) && |held| < FRAME
    modifies enc, enc.frameBuf, enc.mdScratch, enc.pendingFrame
    ensures fed == fed0 + if held == [] then [] else [held + Silence(FRAME - |held|, 2)]
    ensures Tracks(enc, analyse, fed, |fed|) && enc.sent == []
    ensures WellFed(ps, HeadBytes(2)) && Encodes(ps, cs, HeadBytes(2))
    ensures Encoded(analyse, fed, n, ps, cs, enc.rate, enc.kbps)
    ensures old(enc.sent) + out == Join(Flushed(After(ps, HeadBytes(2))))
  {
    hide Encodes, WellFed, After, Follows, BaseArea, Accepts;
    ResetOutput(enc, analyse, fed0, n);
    fed := fed0;
    if held != [] {
      var block := held + Silence(FRAME - |held|, 2);
      EncodeBlock(enc, analyse, fed, block, n);
      fed := fed + [block];
    }
    ps, cs := enc.parts, enc.contents;
    ghost var sent, early := enc.sent, enc.outBuf;
    enc.FlushPending();
    out := enc.outBuf;
    assert old(enc.sent) + out == sent + out[|early|..];
  }

  /** A worker's output is a run of its own that encodes exactly the blocks of its range. */
  ghost predicate RunOf(bytes: seq<Byte>, ps: seq<Part>, cs: seq<Contents>, blocks: seq<seq<Tick>>,
                        warm: seq<seq<Tick>>,
                        analyse: Analysis, rate: nat, kbps: nat)
    requires rate > 0
  {
    && WellFed(ps, HeadBytes(2)) && Encodes(ps, cs, HeadBytes(2))
    && bytes == Join(Flushed(After(ps, HeadBytes(2))))
    && Encoded(analyse, warm + blocks, |warm|, ps, cs, rate, kbps)
  }

  /** The blocks a worker encodes: its range, the last one completed with silence. */
  function BlocksOf(audio: seq<Tick>, from: nat, end: nat): seq<seq<Tick>>
    requires from <= end <= |audio|
  {
    Blocks(Padded(audio[from..end], 2))
  }

  /** What an encoder is primed with: the frames just before its range, at most three. */
  function WarmBlocks(audio: seq<Tick>, tid: nat, from: nat): seq<seq<Tick>>
    requires from <= |audio|
  {
    if tid == 0 then []
    else
      var frames := if WARMUP_FRAMES > from / FRAME then from / FRAME else WARMUP_FRAMES;
      Blocks(audio[from - frames * FRAME..from])
  }

  lemma Warm(audio: seq<Tick>, tid: nat, from: nat, frames: nat)
    requires from <= |audio| && from % FRAME == 0
    requires frames == if WARMUP_FRAMES > from / FRAME then from / FRAME else WARMUP_FRAMES
    ensures tid == 0 || from == 0 ==> WarmBlocks(audio, tid, from) == []
    ensures frames * FRAME <= from
    ensures tid > 0 ==> WarmBlocks(audio, tid, from) == Blocks(audio[from - frames * FRAME..from])
    ensures |audio[from - frames * FRAME..from]| % FRAME == 0
  {
    BlocksShort(audio[from..from]);
  }

  /** Feed up to three frames from before the range and drop their output. */
  method Prime(enc: FrameEncoder, analyse: Analysis, audio: seq<Tick>, tid: nat, from: nat)
    returns (fed: seq<seq<Tick>>)
    requires Tracks(enc, analyse, [], 0) && enc.sent == [] && from % FRAME == 0 && from <= |audio|
    modifies enc, enc.frameBuf, enc.mdScratch, enc.pendingFrame
    ensures Tracks(enc, analyse, fed, |fed|) && enc.sent == [] && fed == WarmBlocks(audio, tid, from)
  {
    hide Tracks, Encoded, Willing, Blocks, Rest, Padded, Encodes, WellFed, After, Flushed, Join, WarmBlocks;
    fed := [];
    Warm(audio, tid, from, if WARMUP_FRAMES > from / FRAME then from / FRAME else WARMUP_FRAMES);
    if tid > 0 && from > 0 {
      var frames := if WARMUP_FRAMES > from / FRAME then from / FRAME else WARMUP_FRAMES;
      var primer := audio[from - frames * FRAME..from];
      var held, out;
      fed, held, out := EncodeSamples(enc, analyse, fed, [], primer, 0);
      assert [] + primer == primer;
      WholeFrames(primer);
      ghost var ps, cs;
      fed, out, ps, cs := FinishRun(enc, analyse, fed, held, 0);
    }
  }

  /** One worker: prime the encoder with up to three frames, drop their output, then encode the range. */
  method Worker(rate: nat, kbps: nat, analyse: Analysis, audio: seq<Tick>, tid: nat, from: nat, end: nat)
    returns (bytes: seq<Byte>, ghost ps: seq<Part>, ghost cs: seq<Contents>, ghost warm: seq<seq<Tick>>)
    requires Willing(analyse, rate, kbps) && from % FRAME == 0 && from <= end <= |audio|
    ensures RunOf(bytes, ps, cs, BlocksOf(audio, from, end), warm, analyse, rate, kbps)
    ensures warm == if from == end then [] else WarmBlocks(audio, tid, from)
  {
    hide Tracks, Encoded, Willing, Blocks, Rest, Padded, Encodes, WellFed, After, Flushed, Join, WarmBlocks;
    RatePositive(analyse, rate, kbps);
    if end <= from {
      bytes, ps, cs, warm := [], [], [], [];
      EmptyRun(analyse, audio, from, rate, kbps);
      return;
    }
    var enc := NewEncoder(rate, kbps, analyse);
    var fed := Prime(enc, analyse, audio, tid, from);
    warm := fed;
    var held;
    fed, held, bytes := EncodeRange(enc, analyse, audio, fed, from, end);
    var out;
    fed, out, ps, cs := FinishRun(enc, analyse, fed, held, |warm|);
    PaddedBlocks(audio[from..end], 2);
    bytes := bytes + out;
    assert fed == warm + BlocksOf(audio, from, end);
  }

  /** The worker's loop: a second of samples at a time. */
  method EncodeRange(enc: FrameEncoder, analyse: Analysis, audio: seq<Tick>, warm: seq<seq<Tick>>, from: nat, end: nat)
    returns (fed: seq<seq<Tick>>, held: seq<Tick>, bytes: seq<Byte>)
    requires Tracks(enc, analyse, warm, |warm|) && enc.sent == [] && from <= end <= |audio|
    modifies enc, enc.frameBuf, enc.mdScratch, enc.pendingFrame
    ensures Tracks(enc, analyse, fed, |warm|) && enc.sent == bytes && |held| < FRAME
    ensures fed == warm + Blocks(audio[from..end]) && held == Rest(audio[from..end])
  {
    hide Tracks, Encoded, Willing, Blocks, Rest, Padded, Encodes, WellFed, After, Flushed, Join;
    TrackedRate(enc, analyse, warm, |warm|);
    bytes, fed, held := [], warm, [];
    var p := from;
    BlocksShort(audio[from..from]);
    assert fed == warm + [];
    while p < end
      invariant from <= p <= end && |held| < FRAME
      invariant Tracks(enc, analyse, fed, |warm|) && enc.sent == bytes
      invariant fed == warm + Blocks(audio[from..p]) && held == Rest(audio[from..p])
      decreases end - p
    {
      var len := if p + enc.rate <= end then enc.rate else end - p;
      var sub, out := audio[p..p + len], [];
      NextSamples(audio, from, p, p + len);
      fed, held, out := EncodeSamples(enc, analyse, fed, held, sub, |warm|);
      bytes := bytes + out;
      p := p + len;
    }
  }

  lemma TrackedRate(enc: FrameEncoder, analyse: Analysis, fed: seq<seq<Tick>>, n: nat)
    requires Tracks(enc, analyse, fed, n)
    ensures enc.rate > 0
  {
    hide Encoded;
  }

  /** Blocks and rest of a range grow with it. */
  lemma NextSamples(audio: seq<Tick>, from: nat, p: nat, q: nat)
    requires from <= p <= q <= |audio|
    ensures Blocks(audio[from..q]) == Blocks(audio[from..p]) + Blocks(Rest(audio[from..p]) + audio[p..q])
    ensures Rest(audio[from..q]) == Rest(Rest(audio[from..p]) + audio[p..q])
  {
    hide Blocks, Rest;
    assert audio[from..q] == audio[from..p] + audio[p..q];
    BlocksConcat(audio[from..p], audio[p..q]);
  }

  lemma RatePositive(analyse: Analysis, rate: nat, kbps: nat)
    requires Willing(analyse, rate, kbps)
    ensures rate > 0
  {
  }

  lemma WholeFrames(s: seq<Tick>)
    requires |s| % FRAME == 0
    ensures Rest(s) == []
  {
  }

  lemma EmptyRun(analyse: Analysis, audio: seq<Tick>, at: nat, rate: nat, kbps: nat)
    requires rate > 0 && at <= |audio|
    ensures RunOf([], [], [], BlocksOf(audio, at, at), [], analyse, rate, kbps)
  {
    assert Padded(audio[at..at], 2) == [];
    NoFrames(HeadBytes(2));
  }

  method NewEncoder(rate: nat, kbps: nat, ghost analyse: Analysis) returns (enc: FrameEncoder)
    requires Willing(analyse, rate, kbps)
    ensures fresh(enc) && fresh(enc.frameBuf) && fresh(enc.mdScratch) && fresh(enc.pendingFrame)
    ensures Tracks(enc, analyse, [], 0) && enc.sent == [] && enc.rate == rate && enc.kbps == kbps
  {
    hide Follows, BaseArea, Accepts, Encodes, WellFed, After;
    enc := new FrameEncoder(rate, kbps, 2);
  }

  /** One worker's run: its parts, their contents, the blocks encoded and the blocks fed before them. */
  datatype Run = Run(parts: seq<Part>, contents: seq<Contents>, blocks: seq<seq<Tick>>, warm: seq<seq<Tick>>) {

    ghost predicate Valid(analyse: Analysis, rate: nat, kbps: nat)
      requires rate > 0
    {
      && WellFed(parts, HeadBytes(2)) && Encodes(parts, contents, HeadBytes(2))
      && Encoded(analyse, warm + blocks, |warm|, parts, contents, rate, kbps)
    }

    ghost function Bytes(): seq<Byte>
      requires WellFed(parts, HeadBytes(2))
    {
      Join(Flushed(After(parts, HeadBytes(2))))
    }
  }

  ghost predicate SoundRuns(runs: seq<Run>, analyse: Analysis, rate: nat, kbps: nat)
    requires rate > 0
  {
    forall t :: 0 <= t < |runs| ==> runs[t].Valid(analyse, rate, kbps)
  }

  /** The joined outputs of the runs from t on. */
  ghost function Stream(runs: seq<Run>, t: nat): seq<Byte>
    requires t <= |runs| && forall j :: 0 <= j < |runs| ==> WellFed(runs[j].parts, HeadBytes(2))
    decreases |runs| - t
  {
    if t == |runs| then [] else runs[t].Bytes() + Stream(runs, t + 1)
  }

  lemma {:induction false} StreamMore(runs: seq<Run>, r: Run, t: nat)
    requires t <= |runs| && forall j :: 0 <= j < |runs| ==> WellFed(runs[j].parts, HeadBytes(2))
    requires WellFed(r.parts, HeadBytes(2))
    ensures Stream(runs + [r], t) == Stream(runs, t) + r.Bytes()
    decreases |runs| - t
  {
    hide WellFed, Run.Bytes;
    if t < |runs| {
      StreamMore(runs, r, t + 1);
    } else {
      assert Stream(runs + [r], t + 1) == [];
    }
  }

  /** The blocks encoded by the runs from t on. */
  function BlocksFrom(runs: seq<Run>, t: nat): seq<seq<Tick>>
    requires t <= |runs|
    decreases |runs| - t
  {
    if t == |runs| then [] else runs[t].blocks + BlocksFrom(runs, t + 1)
  }

  lemma {:induction false} BlocksMore(runs: seq<Run>, r: Run, t: nat)
    requires t <= |runs|
    ensures BlocksFrom(runs + [r], t) == BlocksFrom(runs, t) + r.blocks
    decreases |runs| - t
  {
    if t < |runs| {
      BlocksMore(runs, r, t + 1);
    } else {
      assert BlocksFrom(runs + [r], t + 1) == [];
    }
  }

  /** What the runs from t on decode to. */
  ghost function Heard(runs: seq<Run>, t: nat): seq<Decoded>
    requires t <= |runs|
    requires forall j, k :: 0 <= j < |runs| && 0 <= k < |runs[j].contents| ==> runs[j].contents[k].Valid()
    decreases |runs| - t
  {
    if t == |runs| then [] else ExpectedFrom(runs[t].contents, 0) + Heard(runs, t + 1)
  }

  /** Every run is primed with the last blocks, at most three, of what the runs before it encode. */
  ghost predicate Primed(runs: seq<Run>, t: nat)
    requires t < |runs|
  {
    var before := BlocksFrom(runs[..t], 0);
    runs[t].blocks != [] ==>
      runs[t].warm == if |before| < 3 then before else before[|before| - 3..]
  }

  /** The frames are divided evenly, and the first runs get what is left over. */
  predicate Even(runs: seq<Run>, n: nat, total: nat)
    requires n > 0
  {
    forall t :: 0 <= t < |runs| ==> |runs[t].blocks| == total / n + if t < total % n then 1 else 0
  }

  /** The blocks before a frame boundary do not depend on what follows. */
  lemma WarmLast(audio: seq<Tick>, tid: nat, from: nat)
    requires from <= |audio| && from % FRAME == 0 && (tid == 0 ==> from == 0)
    ensures var before := BlocksOf(audio, 0, from);
            WarmBlocks(audio, tid, from) == if |before| < 3 then before else before[|before| - 3..]
  {
    assert Padded(audio[0..from], 2) == audio[0..from];
    if tid > 0 {
      var frames := if WARMUP_FRAMES > from / FRAME then from / FRAME else WARMUP_FRAMES;
      var start := from - frames * FRAME;
      assert audio[0..from] == audio[0..start] + audio[start..from];
      WholeFrames(audio[0..start]);
      BlocksConcat(audio[0..start], audio[start..from]);
      assert [] + audio[start..from] == audio[start..from];
    }
  }

  lemma PrimedMore(runs: seq<Run>, r: Run, audio: seq<Tick>, from: nat, end: nat)
    requires from <= end <= |audio| && from % FRAME == 0 && (runs == [] ==> from == 0)
    requires forall t :: 0 <= t < |runs| ==> Primed(runs, t)
    requires BlocksFrom(runs, 0) == BlocksOf(audio, 0, from) && r.blocks == BlocksOf(audio, from, end)
    requires r.warm == if from == end then [] else WarmBlocks(audio, |runs|, from)
    ensures forall t :: 0 <= t <= |runs| ==> Primed(runs + [r], t)
  {
    hide BlocksFrom, WarmBlocks;
    WarmLast(audio, |runs|, from);
    if from == end { NoneLeft(audio, from); }
    hide BlocksOf;
    forall t | 0 <= t <= |runs|
      ensures Primed(runs + [r], t)
    {
      assert (runs + [r])[..t] == runs[..t] && runs[..|runs|] == runs;
      assert t < |runs| ==> Primed(runs, t);
    }
  }

  lemma NoneLeft(audio: seq<Tick>, at: nat)
    requires at <= |audio|
    ensures BlocksOf(audio, at, at) == []
  {
    assert Padded(audio[at..at], 2) == [];
  }

  lemma RangeBlocks(audio: seq<Tick>, n: nat, t: nat)
    requires n >= 1 && (n == 1 || n <= FramesOf(|audio|)) && t < n
    ensures Boundary(|audio|, n, t) <= Boundary(|audio|, n, t + 1) <= |audio|
    ensures |BlocksOf(audio, Boundary(|audio|, n, t), Boundary(|audio|, n, t + 1))|
            == FramesOf(|audio|) / n + if t < FramesOf(|audio|) % n then 1 else 0
  {
    var total := FramesOf(|audio|);
    Boundaries(|audio|, n, t);
    FramesGrowing(total, n, t);
    var from, end := Boundary(|audio|, n, t), Boundary(|audio|, n, t + 1);
    assert end == if t + 1 == n then |audio| else FRAME * FramesBefore(total, n, t + 1);
    hide FramesBefore, Boundary;
    assert |BlocksOf(audio, from, end)| == FramesOf(end - from);
    if t + 1 == n {
      assert FramesOf(|audio| - FRAME * FramesBefore(total, n, t)) == total - FramesBefore(total, n, t);
    }
  }

  /** mp3enc for a whole recording, with any number of hardware threads. */
  method EncodeMp3(rate: nat, kbps: nat, analyse: Analysis, audio: seq<Tick>, hardware: int)
    returns (out: seq<Byte>, ghost runs: seq<Run>)
    requires rate > 0 && Willing(analyse, rate, kbps)
    ensures SoundRuns(runs, analyse, rate, kbps)
    ensures forall j :: 0 <= j < |runs| ==> WellFed(runs[j].parts, HeadBytes(2))
    ensures out == Stream(runs, 0)
    ensures BlocksFrom(runs, 0) == BlocksOf(audio, 0, |audio|)
    ensures |runs| > 0 && Fitting(|runs|, hardware, |audio|, rate) && Even(runs, |runs|, FramesOf(|audio|))
    ensures forall t :: 0 <= t < |runs| ==> Primed(runs, t)
    ensures Walk(out).Some? && |Walk(out).value| == FramesOf(|audio|)
    ensures Walk(out) == Some(Seen(runs, 0))
    ensures forall t :: 0 <= t < |runs| ==> SelfContained(runs[t])
    ensures forall j, k :: 0 <= j < |runs| && 0 <= k < |runs[j].contents| ==> runs[j].contents[k].Valid()
    ensures BaseArea(rate, kbps, 2) < 511 ==>
              DecodeStream(out, []) == Some(Heard(runs, 0)) && |Heard(runs, 0)| == FramesOf(|audio|)
  {
    hide Encoded, Willing, Blocks, Rest, Padded, Encodes, WellFed, After, Flushed, Join, BlocksOf, DecodeStream,
         BaseArea, Walk, Seen, SelfContained, Heard, Stream, SoundRuns, Run.Valid, Contents.Valid, FramesOf, BlocksFrom,
         Tiles, Boundary, Primed, WarmBlocks, Fitting;
    RatePositive(analyse, rate, kbps);
    var n := ThreadCount(hardware, |audio|, rate);
    var starts, ends := Ranges(|audio|, n);
    out, runs := [], [];
    NoRuns(analyse, rate, kbps, audio);
    TileBounds(starts, ends, |audio|);
    for t := 0 to n
      invariant |runs| == t && SoundRuns(runs, analyse, rate, kbps)
      invariant forall j :: 0 <= j < |runs| ==> WellFed(runs[j].parts, HeadBytes(2))
      invariant out == Stream(runs, 0)
      invariant BlocksFrom(runs, 0) == BlocksOf(audio, 0, if t == 0 then 0 else ends[t - 1])
      invariant Even(runs, n, FramesOf(|audio|)) && forall k :: 0 <= k < t ==> Primed(runs, k)
    {
      var bytes;
      ghost var ps, cs, warm;
      bytes, ps, cs, warm := Worker(rate, kbps, analyse, audio, t, starts[t], ends[t]);
      ghost var r := Run(ps, cs, BlocksOf(audio, starts[t], ends[t]), warm);
      RunMade(r, bytes, analyse, rate, kbps);
      RangeBlocks(audio, n, t);
      PrimedMore(runs, r, audio, starts[t], ends[t]);
      StreamMore(runs, r, 0);
      BlocksJoin(audio, starts[t], ends[t]);
      BlocksMore(runs, r, 0);
      SoundMore(runs, r, analyse, rate, kbps);
      out, runs := out + bytes, runs + [r];
    }
    JoinedWalks(runs, analyse, rate, kbps, audio);
    if BaseArea(rate, kbps, 2) < 511 {
      JoinedDecodes(runs, analyse, rate, kbps, audio);
    }
  }

  lemma RunMade(r: Run, bytes: seq<Byte>, analyse: Analysis, rate: nat, kbps: nat)
    requires rate > 0 && RunOf(bytes, r.parts, r.contents, r.blocks, r.warm, analyse, rate, kbps)
    ensures r.Valid(analyse, rate, kbps) && WellFed(r.parts, HeadBytes(2)) && bytes == r.Bytes()
  {
    hide Encoded, Encodes, WellFed, After, Flushed, Join;
  }

  lemma SoundMore(runs: seq<Run>, r: Run, analyse: Analysis, rate: nat, kbps: nat)
    requires rate > 0 && SoundRuns(runs, analyse, rate, kbps) && r.Valid(analyse, rate, kbps)
    ensures SoundRuns(runs + [r], analyse, rate, kbps)
  {
    hide Run.Valid;
  }

  lemma NoRuns(analyse: Analysis, rate: nat, kbps: nat, audio: seq<Tick>)
    requires rate > 0
    ensures SoundRuns([], analyse, rate, kbps) && Stream([], 0) == [] && BlocksFrom([], 0) == []
    ensures BlocksOf(audio, 0, 0) == []
  {
    NoBlocks(audio);
  }

  lemma TileBounds(starts: seq<nat>, ends: seq<nat>, samples: nat)
    requires Tiles(starts, ends, samples)
    ensures |starts| == |ends| > 0 && starts[0] == 0 && ends[|ends| - 1] == samples
    ensures forall t :: 0 <= t < |starts| ==> starts[t] % FRAME == 0 && starts[t] <= ends[t] <= samples
    ensures forall t :: 0 < t < |starts| ==> ends[t - 1] == starts[t]
  {
    forall t | 0 < t < |starts| ensures ends[t - 1] == starts[t] { assert ends[t - 1] == starts[(t - 1) + 1]; }
  }

  lemma BlocksJoin(audio: seq<Tick>, mid: nat, end: nat)
    requires mid <= end <= |audio| && mid % FRAME == 0
    ensures BlocksOf(audio, 0, end) == BlocksOf(audio, 0, mid) + BlocksOf(audio, mid, end)
  {
    hide Blocks, Rest;
    var a, b := audio[0..mid], audio[mid..end];
    assert audio[0..end] == a + b;
    assert Padded(a, 2) == a;
    PaddedJoin(a, b);
    WholeFrames(a);
    BlocksConcat(a, Padded(b, 2));
    assert [] + Padded(b, 2) == Padded(b, 2);
  }

  lemma PaddedJoin(a: seq<Tick>, b: seq<Tick>)
    requires |a| % FRAME == 0
    ensures Padded(a + b, 2) == a + Padded(b, 2)
  {
    var n := (FRAME - |b| % FRAME) % FRAME;
    assert |a + b| % FRAME == |b| % FRAME;
    assert Padded(a + b, 2) == a + b + Silence(n, 2);
    assert a + b + Silence(n, 2) == a + (b + Silence(n, 2));
  }

  lemma NoBlocks(audio: seq<Tick>)
    ensures BlocksOf(audio, 0, 0) == []
  {
    assert Padded(audio[0..0], 2) == [];
  }

  lemma FrameCount(audio: seq<Tick>)
    ensures |BlocksOf(audio, 0, |audio|)| == FramesOf(|audio|)
  {
  }

  lemma ValidRun(r: Run, analyse: Analysis, rate: nat, kbps: nat)
    requires rate > 0 && r.Valid(analyse, rate, kbps)
    ensures WellFed(r.parts, HeadBytes(2)) && Encodes(r.parts, r.contents, HeadBytes(2))
    ensures |r.contents| == |r.blocks|
    ensures forall k :: 0 <= k < |r.contents| ==> r.contents[k].Valid()
    ensures BaseArea(rate, kbps, 2) < 511 ==> Snug(r.parts, HeadBytes(2))
  {
    hide WellFed, Encodes, After, Follows, BaseArea, Contents.Valid;
    AllValid(r.parts, r.contents, HeadBytes(2));
    if BaseArea(rate, kbps, 2) < 511 { NarrowSnug(r.parts, HeadBytes(2)); }
  }

  /** A run borrows nothing from before it: its back pointers stay within its own main-data areas. */
  ghost predicate SelfContained(r: Run)
  {
    && |r.parts| == |r.contents|
    && (forall k :: 0 <= k < |r.parts| ==> r.contents[k].side.mdBegin <= AreaEnd(r.parts, k))
    && (r.contents != [] ==> r.contents[0].side.mdBegin == 0)
  }

  lemma WithinRun(r: Run, analyse: Analysis, rate: nat, kbps: nat)
    requires rate > 0 && r.Valid(analyse, rate, kbps)
    ensures SelfContained(r)
  {
    hide WellFed, Follows, BaseArea, Carries, MainStream;
    forall k | 0 <= k < |r.parts|
      ensures r.contents[k].side.mdBegin <= AreaEnd(r.parts, k)
    {
      DataWithin(r.parts, HeadBytes(2), k);
    }
  }

  /** The frames of the runs from t on, as headers and back pointers. */
  function Seen(runs: seq<Run>, t: nat): seq<Sighting>
    requires t <= |runs|
    decreases |runs| - t
  {
    if t == |runs| then [] else SightingsFrom(runs[t].contents, 0) + Seen(runs, t + 1)
  }

  /** Walking over the joined outputs shows every frame of every run, for any bitrate. */
  lemma {:induction false} RunsWalk(runs: seq<Run>, analyse: Analysis, rate: nat, kbps: nat, t: nat)
    requires rate > 0 && t <= |runs| && SoundRuns(runs, analyse, rate, kbps)
    requires forall j :: 0 <= j < |runs| ==> WellFed(runs[j].parts, HeadBytes(2))
    ensures Walk(Stream(runs, t)) == Some(Seen(runs, t)) && |Seen(runs, t)| == |BlocksFrom(runs, t)|
    decreases |runs| - t
  {
    hide WellFed, Encodes, Walk, Run.Valid, Flushed, After, Join, Contents.Valid;
    if t == |runs| {
      NothingToWalk();
    } else {
      var r := runs[t];
      ValidRun(r, analyse, rate, kbps);
      RunsWalk(runs, analyse, rate, kbps, t + 1);
      WalkRun(r.parts, r.contents, HeadBytes(2), 0, Stream(runs, t + 1));
      assert Flushed(After(r.parts, HeadBytes(2)))[0..] == Flushed(After(r.parts, HeadBytes(2)));
    }
  }

  lemma NothingToWalk()
    ensures Walk([]) == Some([])
  {
  }

  /** One frame for every block of the padded input, for every bitrate and however the work was divided. */
  lemma JoinedWalks(runs: seq<Run>, analyse: Analysis, rate: nat, kbps: nat, audio: seq<Tick>)
    requires rate > 0 && SoundRuns(runs, analyse, rate, kbps) && BlocksFrom(runs, 0) == BlocksOf(audio, 0, |audio|)
    ensures forall j :: 0 <= j < |runs| ==> WellFed(runs[j].parts, HeadBytes(2))
    ensures Walk(Stream(runs, 0)) == Some(Seen(runs, 0)) && |Seen(runs, 0)| == FramesOf(|audio|)
    ensures forall t :: 0 <= t < |runs| ==> SelfContained(runs[t])
    ensures forall j, k :: 0 <= j < |runs| && 0 <= k < |runs[j].contents| ==> runs[j].contents[k].Valid()
  {
    hide WellFed, Encodes, Walk, Contents.Valid, Run.Valid, BaseArea, SelfContained;
    forall j | 0 <= j < |runs|
      ensures WellFed(runs[j].parts, HeadBytes(2)) && SelfContained(runs[j])
      ensures forall k :: 0 <= k < |runs[j].contents| ==> runs[j].contents[k].Valid()
    {
      ValidRun(runs[j], analyse, rate, kbps);
      WithinRun(runs[j], analyse, rate, kbps);
    }
    RunsWalk(runs, analyse, rate, kbps, 0);
    FrameCount(audio);
  }

  /**
   * Decoding the joined outputs of the workers gives the contents of all runs, whatever stream came before:
   * each run is self-contained.
   */
  lemma {:induction false} RunsDecode(runs: seq<Run>, analyse: Analysis, rate: nat, kbps: nat, t: nat,
                                      before: seq<Byte>)
    requires rate > 0 && t <= |runs| && SoundRuns(runs, analyse, rate, kbps)
    requires forall j :: 0 <= j < |runs| ==> WellFed(runs[j].parts, HeadBytes(2)) && Snug(runs[j].parts, HeadBytes(2))
    ensures forall j, k :: 0 <= j < |runs| && 0 <= k < |runs[j].contents| ==> runs[j].contents[k].Valid()
    ensures DecodeStream(Stream(runs, t), before) == Some(Heard(runs, t))
    ensures |Heard(runs, t)| == |BlocksFrom(runs, t)|
    decreases |runs| - t
  {
    hide WellFed, Encodes, Snug, DecodeStream, Contents.Valid, Run.Valid, MainStream, Flushed, After;
    forall j | 0 <= j < |runs|
      ensures forall k :: 0 <= k < |runs[j].contents| ==> runs[j].contents[k].Valid()
    {
      ValidRun(runs[j], analyse, rate, kbps);
    }
    if t == |runs| {
      NothingLeft(before);
    } else {
      var r := runs[t];
      ValidRun(r, analyse, rate, kbps);
      var after := before + MainStream(Flushed(After(r.parts, HeadBytes(2))), HeadBytes(2));
      RunsDecode(runs, analyse, rate, kbps, t + 1, after);
      RunThenStream(r.parts, r.contents, HeadBytes(2), before, Stream(runs, t + 1), Heard(runs, t + 1));
      ExpectedCount(r.contents, 0);
    }
  }

  lemma {:induction false} ExpectedCount(cs: seq<Contents>, k: nat)
    requires k <= |cs| && forall j :: 0 <= j < |cs| ==> cs[j].Valid()
    ensures |ExpectedFrom(cs, k)| == |cs| - k
    decreases |cs| - k
  {
    hide Contents.Valid, Contents.Expected;
    if k < |cs| {
      ExpectedCount(cs, k + 1);
    }
  }

  /** One frame for every block of the padded input, however the work was divided. */
  lemma JoinedDecodes(runs: seq<Run>, analyse: Analysis, rate: nat, kbps: nat, audio: seq<Tick>)
    requires rate > 0 && SoundRuns(runs, analyse, rate, kbps) && BaseArea(rate, kbps, 2) < 511
    requires BlocksFrom(runs, 0) == BlocksOf(audio, 0, |audio|)
    ensures forall j :: 0 <= j < |runs| ==> WellFed(runs[j].parts, HeadBytes(2))
    ensures forall j, k :: 0 <= j < |runs| && 0 <= k < |runs[j].contents| ==> runs[j].contents[k].Valid()
    ensures DecodeStream(Stream(runs, 0), []) == Some(Heard(runs, 0)) && |Heard(runs, 0)| == FramesOf(|audio|)
  {
    hide WellFed, Encodes, Snug, DecodeStream, Contents.Valid, Run.Valid, BaseArea;
    forall j | 0 <= j < |runs|
      ensures WellFed(runs[j].parts, HeadBytes(2)) && Snug(runs[j].parts, HeadBytes(2))
    {
      ValidRun(runs[j], analyse, rate, kbps);
    }
    RunsDecode(runs, analyse, rate, kbps, 0, []);
    FrameCount(audio);
  }
}
