/** The frame encoder of mp3/mp3enc.h: header, budget, main data and reservoir of one frame after another. */
module Encoder {
  import opened Bits
  import opened Huff
  import opened Spectrum
  import opened Granules
  import opened Frames
  import opened Quant
  import opened Budget
  import opened Reservoir
  import opened Decoder

  /** Room for the largest frame and for its main data before splicing. */
  const SCRATCH: nat := 2048

  method CopyBytes(dst: array<Byte>, at: nat, src: seq<Byte>)
    requires at + |src| <= dst.Length
    modifies dst
    ensures dst[..] == Overwrite(old(dst[..]), at, src)
  {
    assert Overwrite(dst[..], at, []) == dst[..];
    hide Overwrite;
    for i := 0 to |src|
      invariant dst[..] == Overwrite(old(dst[..]), at, src[..i])
    {
      OverwriteNext(old(dst[..]), at, src, i);
      ghost var before := dst[..];
      dst[at + i] := src[i];
      assert dst[..] == before[at + i := src[i]];
    }
    assert src[..|src|] == src;
  }

  lemma OverwriteNext(s: seq<Byte>, at: nat, d: seq<Byte>, i: nat)
    requires at + |d| <= |s| && i < |d|
    ensures Overwrite(s, at, d[..i])[at + i := d[i]] == Overwrite(s, at, d[..i + 1])
  {
    assert d[..i + 1] == d[..i] + [d[i]];
  }

  lemma OverwritePrefix(s: seq<Byte>, n: nat, at: nat, d: seq<Byte>)
    requires at + |d| <= n <= |s|
    ensures Overwrite(s, at, d)[..n] == Overwrite(s[..n], at, d)
  {
  }

  /** The bytes written to a bitstream, the last one padded with zeros. */
  lemma WrittenBytes(buf: seq<Byte>, w: seq<bool>, n: nat)
    requires n <= 8 * |buf| && |w| == n && BytesBits(buf)[..n] == w
    ensures BytesFor(n) <= |buf|
    ensures BytesBits(buf[..BytesFor(n)])[..n] == w
  {
    var b := BytesFor(n);
    BytesBitsSlice(buf, 0, b);
    assert buf[0..b] == buf[..b];
  }

  /** Settings an encoder can be created with and a decoder can recognize. */
  predicate Supported(rate: nat, kbps: nat, nch: nat)
  {
    rate in RATES && kbps in BITRATES && kbps > 0 && (nch == 1 || nch == 2)
  }

  function RateOf(rate: nat): nat { if rate == 44100 then 0 else if rate == 48000 then 1 else 2 }

  /** Main-data area of an unpadded frame. */
  function BaseArea(rate: nat, kbps: nat, nch: nat): int
    requires rate > 0
  {
    144 * kbps * 1000 / rate - HeadBytes(nch)
  }

  lemma FrameSizes(rate: nat, kbps: nat, nch: nat)
    requires Supported(rate, kbps, nch)
    ensures 60 <= BaseArea(rate, kbps, nch) <= 1500
  {
    var i :| 0 <= i < |BITRATES| && BITRATES[i] == kbps;
    assert 32 <= kbps <= 320;
    if rate == 44100 { DivBounds(144 * kbps * 1000, 44100, 104, 1500); }
    else if rate == 48000 { DivBounds(144 * kbps * 1000, 48000, 96, 1500); }
    else { DivBounds(144 * kbps * 1000, 32000, 144, 1500); }
  }

  lemma DivBounds(a: nat, d: nat, lo: nat, hi: nat)
    requires d > 0 && lo * d <= a <= hi * d
    ensures lo <= a / d <= hi
  {
    assert a == d * (a / d) + a % d;
    if a / d < lo {
      MulMonotone(d, a / d + 1, lo);
    } else if a / d > hi {
      MulMonotone(d, hi + 1, a / d);
    }
  }

  /** The flat quantizer at gain 255 fits a fifth of an unpadded frame's main-data area. */
  ghost predicate Accepts(rate: nat, kbps: nat, nch: nat, plan: Plan)
    requires Supported(rate, kbps, nch)
  {
    FrameSizes(rate, kbps, nch);
    SfbTables(RateOf(rate));
    Affordable(plan, 8 * BaseArea(rate, kbps, nch), SFB_LONG[RateOf(rate)], nch)
  }

  /**
   * Every spectrum is the quantizer's at the gain and scalefactors of its granule, and every granule is what
   * the outer loop yields within its part of the frame's bits.
   */
  ghost predicate Chosen(plan: Plan, total: int, rate: nat, nch: nat, gs: seq<Granule>, ixs: seq<seq<int>>)
  {
    SfbTables(RateOf(rate));
    && |gs| == |ixs| == |plan.quantizers| == |plan.judges| == 2 * nch && nch > 0
    && (forall k :: 0 <= k < 2 * nch ==> ixs[k] == plan.quantizers[k].At(gs[k])(gs[k].globalGain))
    && forall k :: 0 <= k < 2 * nch ==>
         Allotted(plan, total, nch, BitsUsed(gs[..nch]), gs[k], ixs[k], SFB_LONG[RateOf(rate)], k)
  }

  /** How the frame is to be played: M/S exactly when the encoder chose it for two channels. */
  function Wanted(nch: nat, useMs: bool): Stereo
  {
    if nch == 1 then Mono else if useMs then Joint(true, false) else LeftRight
  }

  /** The frame's contents are what the plan asks for. */
  ghost predicate Follows(c: Contents, plan: Plan, rate: nat, kbps: nat, nch: nat)
  {
    && c.header.rate == rate && c.header.kbps == kbps && Channels(c.header) == nch
    && c.header.mode == (if nch == 1 then 3 else 1) && StereoOf(c.header) == Wanted(nch, plan.useMs)
    && rate > 0
    && var total := 8 * (c.header.FrameBytes() - HeadBytes(nch) + c.side.mdBegin);
    Chosen(plan, total, rate, nch, c.side.granules, c.spectra)
  }

  class FrameEncoder {
    const rate: nat
    const kbps: nat
    const nch: nat
    var padRemainder: int
    const frameBuf: array<Byte>
    const mdScratch: array<Byte>
    const pendingFrame: array<Byte>
    var pendingBytes: nat
    var pendingMdEnd: nat
    var outBuf: seq<Byte>

    /** The frames of the current run (since the last flush), as parts and as contents. */
    ghost var parts: seq<Part>
    ghost var contents: seq<Contents>
    /** Bytes output by the current run. */
    ghost var sent: seq<Byte>
    /** Frames encoded and their bytes, over the encoder's whole life. */
    ghost var count: nat
    ghost var bytes: nat

    ghost predicate Shape()
      reads this
    {
      && Supported(rate, kbps, nch)
      && frameBuf.Length == mdScratch.Length == pendingFrame.Length == SCRATCH
      && frameBuf != mdScratch && frameBuf != pendingFrame && mdScratch != pendingFrame
      && 0 <= padRemainder < rate && pendingBytes <= SCRATCH
      && (pendingBytes > 0 ==> pendingMdEnd <= pendingBytes)
    }

    /** The reservoir as the buffers hold it, without the frames already output. */
    ghost function Current(): (s: State)
      requires Shape()
      reads this, pendingFrame
      ensures s.mdEnd <= |s.pending|
    {
      if pendingBytes == 0 then START else State([], pendingFrame[..pendingBytes], pendingMdEnd)
    }

    ghost predicate Valid()
      reads this, pendingFrame
    {
      && Shape()
      && |parts| == |contents| && WellFed(parts, HeadBytes(nch))
      && Encodes(parts, contents, HeadBytes(nch))
      && Current() == After(parts, HeadBytes(nch)).(frames := [])
      && sent == Join(After(parts, HeadBytes(nch)).frames)
      && PadRun(count, FrameShare(kbps), rate) == (padRemainder, bytes)
    }

    constructor (rate: nat, kbps: nat, nch: nat)
      requires Supported(rate, kbps, nch)
      ensures Valid() && fresh(frameBuf) && fresh(mdScratch) && fresh(pendingFrame)
      ensures parts == [] && contents == [] && count == 0 && outBuf == sent == []
      ensures this.rate == rate && this.kbps == kbps && this.nch == nch
    {
      this.rate, this.kbps, this.nch := rate, kbps, nch;
      padRemainder, pendingBytes, pendingMdEnd, outBuf := 0, 0, 0, [];
      frameBuf, mdScratch, pendingFrame := new Byte[SCRATCH], new Byte[SCRATCH], new Byte[SCRATCH];
      parts, contents, sent, count, bytes := [], [], [], 0, 0;
    }

    method GetPadding() returns (padding: nat)
      requires rate > 0
      modifies this`padRemainder
      ensures (padRemainder, padding) == Pad(old(padRemainder), FrameShare(kbps), rate)
    {
      padRemainder := padRemainder - FrameShare(kbps) % rate;
      padding := 0;
      if padRemainder < 0 {
        padRemainder := padRemainder + rate;
        padding := 1;
      }
    }

    /** Header and side information into the frame buffer. */
    method WriteHead(h: Header, si: SideInfo) returns (size: nat)
      requires frameBuf.Length == SCRATCH && si.InRange(nch)
      modifies frameBuf
      ensures size == HeadBytes(nch)
      ensures BytesBits(frameBuf[..size]) == ListCode(h.Fields()) + SideInfoCode(si, nch)
    {
      hide ListCode, SideInfoCode;
      HeaderSize(h);
      SideInfoRoundTrip(si, nch, []);
      var bs := new Bitstream(frameBuf);
      WriteList(bs, h.Fields());
      WriteSideInfo(bs, si, nch);
      size := (bs.TotalBits() + 7) / 8;
      WrittenBytes(frameBuf[..], bs.Written(), bs.TotalBits());
      assert BytesBits(frameBuf[..size])[..8 * size] == BytesBits(frameBuf[..size]);
    }

    /** Main data of all granules into the scratch buffer. */
    method WriteMainData(si: SideInfo, ixs: seq<seq<int>>, sfb: seq<nat>) returns (size: nat)
      requires mdScratch.Length == SCRATCH && SoundFrame(si, ixs, sfb, nch) && MainBits(si.granules, 0) <= 8 * SCRATCH
      modifies mdScratch
      ensures size == BytesFor(MainBits(si.granules, 0)) <= SCRATCH
      ensures BytesBits(mdScratch[..size])[..MainBits(si.granules, 0)] == MainCode(si, ixs, sfb, nch, 0)
    {
      hide MainCode, SoundFrame;
      MainSize(si, ixs, sfb, nch, 0);
      var bs := new Bitstream(mdScratch);
      WriteMain(bs, si, ixs, sfb, nch);
      size := (bs.TotalBits() + 7) / 8;
      WrittenBytes(mdScratch[..], bs.Written(), bs.TotalBits());
    }

    /** Write what was borrowed into the pending frame's tail and output it. */
    method OutputPending(mdBytes: nat, back: nat)
      requires Shape() && mdBytes <= SCRATCH
      requires back == Current().Backlog()
      modifies this`outBuf, pendingFrame
      ensures var p := Part([], mdScratch[..mdBytes], 0);
              outBuf == old(outBuf) + if pendingBytes == 0 then [] else
                old(Overwrite(Current().pending, pendingMdEnd, Borrowed(p, back)))
    {
      hide Overwrite;
      if pendingBytes > 0 {
        var overflow := mdScratch[..Min(mdBytes, back)];
        assert overflow == Borrowed(Part([], mdScratch[..mdBytes], 0), back);
        ghost var was := pendingFrame[..];
        CopyBytes(pendingFrame, pendingMdEnd, overflow);
        OverwritePrefix(was, pendingBytes, pendingMdEnd, overflow);
        assert was[..pendingBytes] == old(pendingFrame[..pendingBytes]);
        assert pendingFrame[..pendingBytes] == pendingFrame[..][..pendingBytes];
        outBuf := outBuf + pendingFrame[..pendingBytes];
      }
    }

    /** Complete the current frame with its share of main data and zeros, and keep it pending. */
    method KeepPending(headBytes: nat, mdBytes: nat, frameBytes: nat, back: nat)
      requires Shape() && headBytes <= frameBytes <= SCRATCH && mdBytes <= SCRATCH
      requires mdBytes <= back + frameBytes - headBytes
      modifies this`pendingBytes, this`pendingMdEnd, pendingFrame, frameBuf
      ensures Shape()
      ensures var p := Part(old(frameBuf[..headBytes]), mdScratch[..mdBytes], frameBytes - headBytes);
              var own := OwnPart(p, back);
              && pendingBytes == frameBytes && pendingMdEnd == headBytes + |own|
              && pendingFrame[..pendingBytes] == p.head + own + ZeroBytes(p.area - |own|)
    {
      ghost var p := Part(frameBuf[..headBytes], mdScratch[..mdBytes], frameBytes - headBytes);
      var inFrame := if mdBytes < back then 0 else mdBytes - back;
      var area := frameBytes - headBytes;
      var own := if mdBytes < back then [] else mdScratch[back..mdBytes];
      assert own == OwnPart(p, back);
      if inFrame > 0 {
        CopyBytes(frameBuf, headBytes, own);
      }
      assert frameBuf[..headBytes + inFrame] == p.head + own;
      CopyBytes(frameBuf, headBytes + inFrame, seq(area - inFrame, _ => 0));
      assert frameBuf[..frameBytes] == p.head + own + ZeroBytes(area - inFrame);
      CopyBytes(pendingFrame, 0, frameBuf[..frameBytes]);
      pendingBytes := frameBytes;
      pendingMdEnd := headBytes + inFrame;
      assert pendingFrame[..pendingBytes] == frameBuf[..frameBytes];
    }

    /** Finish and output the pending frame, then make the current one pending. */
    method Splice(headBytes: nat, mdBytes: nat, frameBytes: nat, back: nat)
      requires Shape() && headBytes <= frameBytes <= SCRATCH && mdBytes <= SCRATCH
      requires back == Current().Backlog()
      requires mdBytes <= back + frameBytes - headBytes
      modifies this`pendingBytes, this`pendingMdEnd, this`outBuf, pendingFrame, frameBuf
      ensures Shape()
      ensures var p := Part(old(frameBuf[..headBytes]), mdScratch[..mdBytes], frameBytes - headBytes);
              var t := Accept(old(Current()), p);
              && Current() == t.(frames := [])
              && outBuf == old(outBuf) + Join(t.frames)
    {
      hide Overwrite, ZeroBytes;
      OutputPending(mdBytes, back);
      KeepPending(headBytes, mdBytes, frameBytes, back);
      ghost var s := old(Current());
      ghost var p := Part(old(frameBuf[..headBytes]), mdScratch[..mdBytes], frameBytes - headBytes);
      ghost var t := Accept(s, p);
      if s.pending != [] {
        JoinOne(t.frames[0]);
      }
    }

    /** Padding and header of the next frame. */
    method PrepareHeader(useMs: bool) returns (h: Header)
      requires Shape()
      modifies this`padRemainder
      ensures Shape()
      ensures h.Standard() && Channels(h) == nch && h.RateIndex() == RateOf(rate)
      ensures h.rate == rate && h.kbps == kbps
      ensures h.mode == (if nch == 1 then 3 else 1) && StereoOf(h) == Wanted(nch, useMs)
      ensures padRemainder == Pad(old(padRemainder), FrameShare(kbps), rate).0
      ensures h.FrameBytes() == FrameShare(kbps) / rate + Pad(old(padRemainder), FrameShare(kbps), rate).1
      ensures h.FrameBytes() - HeadBytes(nch) in {BaseArea(rate, kbps, nch), BaseArea(rate, kbps, nch) + 1}
    {
      hide FrameShare;
      PadStep(padRemainder, FrameShare(kbps), rate);
      var padding := GetPadding();
      h := Header(kbps, rate, if nch == 1 then 3 else 1, if nch == 2 && useMs then 2 else 0, padding);
      HeaderSizes(h, padding);
      assert BaseArea(rate, kbps, nch) == FrameShare(kbps) / rate - HeadBytes(nch) by { ShareIs(kbps); }
    }

    /** Bytes of the pending frame's tail that the next frame may use. */
    method Reserve() returns (back: nat)
      requires Shape()
      ensures back == Current().Backlog()
    {
      back := 0;
      if pendingBytes > 0 {
        back := pendingBytes - pendingMdEnd;
        if back > 511 {
          back := 511;
        }
      }
    }

    /** Side information and spectra of a frame that fits its area and what it borrows. */
    method Quantize(area: nat, plan: Plan, back: nat) returns (si: SideInfo, ixs: seq<seq<int>>)
      requires Supported(rate, kbps, nch) && Accepts(rate, kbps, nch, plan) && back <= MAX_BACK
      requires area in {BaseArea(rate, kbps, nch), BaseArea(rate, kbps, nch) + 1}
      ensures (SfbTables(RateOf(rate)); SoundFrame(si, ixs, SFB_LONG[RateOf(rate)], nch))
      ensures Chosen(plan, 8 * (area + back), rate, nch, si.granules, ixs)
      ensures si.mdBegin == back && MainBits(si.granules, 0) <= 8 * (area + back)
    {
      hide Affordable, SoundFrame, BaseArea, Ready, TableOf, Word, WordLen, Fits, MainBits, BitsUsed, Allotted,
           SideInRange;
      FrameSizes(rate, kbps, nch);
      SfbTables(RateOf(rate));
      var sfb, total := SFB_LONG[RateOf(rate)], 8 * (area + back);
      AffordMore(plan, 8 * BaseArea(rate, kbps, nch), total, sfb, nch);
      Sizes(plan, total, sfb, nch);
      var gs;
      gs, ixs := QuantizeFrame(plan, total, sfb, nch);
      si := SideInfo(back, seq(nch, _ => NotShared()), gs);
      FrameReady(plan, si, ixs, sfb, nch);
    }

    /** Quantize a frame and write its header, side information and main data to the buffers. */
    method BuildFrame(h: Header, plan: Plan)
      returns (mdBytes: nat, back: nat, ghost c: Contents)
      requires Shape() && Accepts(rate, kbps, nch, plan)
      requires h.Standard() && Channels(h) == nch && h.RateIndex() == RateOf(rate)
      requires h.rate == rate && h.kbps == kbps
      requires h.mode == (if nch == 1 then 3 else 1) && StereoOf(h) == Wanted(nch, plan.useMs)
      requires h.FrameBytes() - HeadBytes(nch) in {BaseArea(rate, kbps, nch), BaseArea(rate, kbps, nch) + 1}
      modifies frameBuf, mdScratch
      ensures mdBytes <= SCRATCH
      ensures back == Current().Backlog()
      ensures mdBytes <= back + h.FrameBytes() - HeadBytes(nch)
      ensures c.header == h && c.side.mdBegin == back && Follows(c, plan, rate, kbps, nch)
      ensures Carries(Part(frameBuf[..HeadBytes(nch)], mdScratch[..mdBytes], h.FrameBytes() - HeadBytes(nch)), c)
    {
      hide Chosen, Follows, Carries, SoundFrame, MainCode, ListCode, SideInfoCode, BaseArea, MainBits, Accepts,
           Sound, Ready, Affordable, Fits, TableOf, Word, WordLen, Codable, PairBits, PairCode, SpectrumBits,
           Overwrite, Merged, Received, Representable, Pad, PadRun, Join, Encodes, WellFed;
      FrameSizes(rate, kbps, nch);
      SfbTables(RateOf(rate));
      back := Reserve();
      var si, ixs := Quantize(h.FrameBytes() - HeadBytes(nch), plan, back);
      var sfb := SFB_LONG[RateOf(rate)];
      InRangeOf(si, ixs, sfb, nch);
      var size := WriteHead(h, si);
      mdBytes := WriteMainData(si, ixs, sfb);
      c := Contents(h, si, ixs);
      FollowsPlan(c, plan, rate, kbps, nch);
      PartCarries(Part(frameBuf[..size], mdScratch[..mdBytes], h.FrameBytes() - size), c);
    }

    /**
     * mp3enc_encode_frame. The run grows by one frame whose bytes spell its contents; the pending frame is
     * completed and output. Needs only that the flat quantizer at gain 255 fits.
     */
    method EncodeFrame(plan: Plan)
      requires Valid() && Accepts(rate, kbps, nch, plan)
      modifies this, frameBuf, mdScratch, pendingFrame
      ensures Valid() && count == old(count) + 1
      ensures |parts| == |old(parts)| + 1 && old(parts) <= parts && old(contents) <= contents
      ensures old(sent) <= sent && outBuf == old(outBuf) + sent[|old(sent)|..]
      ensures Follows(contents[|old(contents)|], plan, rate, kbps, nch)
      ensures parts[|old(parts)|].area in {BaseArea(rate, kbps, nch), BaseArea(rate, kbps, nch) + 1}
    {
      hide Follows, Carries, Encodes, Accept, FrameShare, Join, PadRun, Accepts, BaseArea, Pad, After, WellFed, Wanted,
           StereoOf, Supported, Header.Standard, Header.RateIndex;
      ghost var hs, ps, cs := HeadBytes(nch), parts, contents;
      PadRunNext(count, FrameShare(kbps), rate);
      FrameSizes(rate, kbps, nch);
      var h := PrepareHeader(plan.useMs);
      ghost var c;
      var mdBytes, back;
      mdBytes, back, c := BuildFrame(h, plan);
      var headBytes, frameBytes := HeadBytes(nch), h.FrameBytes();
      ghost var p := Part(frameBuf[..headBytes], mdScratch[..mdBytes], frameBytes - headBytes);
      Splice(headBytes, mdBytes, frameBytes, back);
      EncodesMore(ps, cs, p, c, hs);
      RunGrows(ps, ps + [p], p, hs);
      parts, contents := ps + [p], cs + [c];
      assert contents[|cs|] == c;
      sent := Join(After(parts, hs).frames);
      count, bytes := count + 1, bytes + frameBytes;
    }

    /** Output the last frame and start a new run. What the finished run output decodes to its contents. */
    method FlushPending()
      requires Valid()
      modifies this
      ensures Valid() && parts == [] && contents == [] && sent == [] && count == old(count)
      ensures padRemainder == old(padRemainder) && old(outBuf) <= outBuf
      ensures old(sent) + outBuf[|old(outBuf)|..] == old(Join(Flushed(After(parts, HeadBytes(nch)))))
    {
      hide Encodes, After, WellFed, PadRun, FrameShare, Carries, Join, Flushed;
      ghost var hs := HeadBytes(nch);
      FlushedBytes(After(parts, hs));
      if pendingBytes > 0 {
        outBuf := outBuf + pendingFrame[..pendingBytes];
        pendingBytes := 0;
      }
      parts, contents, sent := [], [], [];
      NoFrames(hs);
    }
  }

  lemma FlushedBytes(s: State)
    ensures Join(Flushed(s)) == Join(s.frames) + s.pending
  {
    if s.pending == [] {
      assert Flushed(s) == s.frames;
    } else {
      JoinConcat(s.frames, [s.pending]);
      JoinOne(s.pending);
    }
  }

  lemma FollowsPlan(c: Contents, plan: Plan, rate: nat, kbps: nat, nch: nat)
    requires rate > 0 && c.header.rate == rate && c.header.kbps == kbps && Channels(c.header) == nch
    requires c.header.mode == (if nch == 1 then 3 else 1) && StereoOf(c.header) == Wanted(nch, plan.useMs)
    requires Chosen(plan, 8 * (c.header.FrameBytes() - HeadBytes(nch) + c.side.mdBegin), rate, nch,
                    c.side.granules, c.spectra)
    ensures Follows(c, plan, rate, kbps, nch)
  {
    hide Chosen;
  }

  lemma ShareIs(kbps: nat)
    ensures FrameShare(kbps) == 144 * kbps * 1000
  {
  }

  lemma NoFrames(hs: nat)
    ensures Encodes([], [], hs) && WellFed([], hs) && After([], hs) == START && Join([]) == []
  {
  }

  /** Frames output by one step are added to those output before. */
  lemma AcceptFrames(s: State, p: Part)
    requires s.mdEnd <= |s.pending| && |p.main| <= s.Backlog() + p.area
    ensures var t, u := Accept(s, p), Accept(State([], s.pending, s.mdEnd), p);
            && t.pending == u.pending && t.mdEnd == u.mdEnd
            && Join(t.frames) == Join(s.frames) + Join(u.frames)
  {
    var t, u := Accept(s, p), Accept(State([], s.pending, s.mdEnd), p);
    assert t.frames == s.frames + u.frames;
    JoinConcat(s.frames, u.frames);
  }

  lemma {:induction false} JoinConcat(a: seq<seq<Byte>>, b: seq<seq<Byte>>)
    ensures Join(a + b) == Join(a) + Join(b)
  {
    if a == [] {
      assert a + b == b;
    } else {
      assert (a + b)[0] == a[0] && (a + b)[1..] == a[1..] + b;
      JoinConcat(a[1..], b);
    }
  }

  lemma PadRunNext(n: nat, share: nat, rate: nat)
    requires rate > 0
    ensures var s := PadRun(n, share, rate);
            PadRun(n + 1, share, rate) == (Pad(s.0, share, rate).0, s.1 + share / rate + Pad(s.0, share, rate).1)
  {
  }

  lemma InRangeOf(si: SideInfo, ixs: seq<seq<int>>, sfb: seq<nat>, nch: nat)
    requires SoundFrame(si, ixs, sfb, nch)
    ensures si.InRange(nch)
  {
  }

  lemma HeaderSizes(h: Header, padding: nat)
    requires h.rate in RATES && h.padding == padding <= 1 && h.kbps in BITRATES && h.kbps > 0
    requires h.mode < 4 && h.modeExt < 4
    ensures h.Standard() && h.FrameBytes() == FrameShare(h.kbps) / h.rate + padding
    ensures RateOf(h.rate) == h.RateIndex()
  {
  }

  lemma Sizes(plan: Plan, total: nat, sfb: seq<nat>, nch: nat)
    requires BandTable(sfb) && Affordable(plan, total, sfb, nch)
    ensures |plan.quantizers| == |plan.judges| == 2 * nch
  {
  }

  lemma AffordMore(plan: Plan, total: nat, more: nat, sfb: seq<nat>, nch: nat)
    requires BandTable(sfb) && total <= more && Affordable(plan, total, sfb, nch)
    ensures Affordable(plan, more, sfb, nch)
  {
    hide Fits;
    assert Floor(total, nch) <= Floor(more, nch);
    forall k | 0 <= k < 2 * nch
      ensures Fits(plan.quantizers[k].flat, Floor(more, nch), sfb, TOP_GAIN)
    {
      FitsMore(plan.quantizers[k].flat, Floor(total, nch), Floor(more, nch), sfb, TOP_GAIN);
    }
  }

  lemma {:induction false} SameTotal(gs: seq<Granule>, k: nat)
    requires k <= |gs|
    ensures BitsUsed(gs) == BitsUsed(gs[..k]) + MainBits(gs, k)
    decreases |gs| - k
  {
    if k == |gs| {
      assert gs[..k] == gs;
    } else {
      SameTotal(gs, k + 1);
      assert gs[..k + 1][..k] == gs[..k];
    }
  }

  lemma FrameReady(plan: Plan, si: SideInfo, ixs: seq<seq<int>>, sfb: seq<nat>, nch: nat)
    requires (nch == 1 || nch == 2) && BandTable(sfb) && si.mdBegin <= MAX_BACK
    requires si.scfsi == seq(nch, _ => NotShared()) && |si.granules| == |ixs| == 2 * nch
    requires |plan.quantizers| == 2 * nch
    requires AllReady(plan, si.granules, ixs, sfb, nch)
    ensures SoundFrame(si, ixs, sfb, nch)
    ensures forall k :: 0 <= k < 2 * nch ==> ixs[k] == plan.quantizers[k].At(si.granules[k])(si.granules[k].globalGain)
    ensures MainBits(si.granules, 0) == BitsUsed(si.granules)
  {
    hide Sound, SideInRange, MainBits, BitsUsed;
    SameTotal(si.granules, 0);
    NoneUsed(si.granules);
  }

  lemma NoneUsed(gs: seq<Granule>)
    ensures BitsUsed(gs[..0]) == 0
  {
  }

  lemma PartCarries(p: Part, c: Contents)
    requires c.Valid() && c.side.InRange(Channels(c.header))
    requires BytesBits(p.head) == c.HeadCode()
    requires |p.main| == BytesFor(c.BodyBits()) && BytesBits(p.main)[..c.BodyBits()] == c.BodyCode()
    requires c.header.FrameBytes() == |p.head| + p.area
    ensures Carries(p, c)
  {
    hide SoundFrame, MainCode, ListCode, SideInfoCode;
  }

  lemma EncodesMore(ps: seq<Part>, cs: seq<Contents>, p: Part, c: Contents, hs: nat)
    requires Encodes(ps, cs, hs) && Carries(p, c) && |p.head| == hs
    requires c.side.mdBegin == After(ps, hs).Backlog() && |p.main| <= After(ps, hs).Backlog() + p.area
    ensures WellFed(ps + [p], hs) && Encodes(ps + [p], cs + [c], hs)
    ensures After(ps + [p], hs) == Accept(After(ps, hs), p)
  {
    hide Carries;
    var qs, ds := ps + [p], cs + [c];
    assert qs[..|ps|] == ps;
    assert WellFed(qs, hs);
    forall k | 0 <= k < |qs|
      ensures (FedPrefix(qs, hs, k); Carries(qs[k], ds[k]) && ds[k].side.mdBegin == After(qs[..k], hs).Backlog())
    {
      FedPrefix(qs, hs, k);
      if k < |ps| {
        assert qs[..k] == ps[..k];
      }
    }
  }

  /** What one more frame does to a run, seen from the buffers, which keep only the pending frame. */
  lemma RunGrows(ps: seq<Part>, qs: seq<Part>, p: Part, hs: nat)
    requires WellFed(ps, hs) && WellFed(qs, hs) && |p.main| <= After(ps, hs).Backlog() + p.area
    requires After(qs, hs) == Accept(After(ps, hs), p)
    ensures var s, t := After(ps, hs), After(qs, hs);
            var u := Accept(State([], s.pending, s.mdEnd), p);
            t.(frames := []) == u.(frames := []) && Join(t.frames) == Join(s.frames) + Join(u.frames)
  {
    hide Accept, Join;
    AcceptFrames(After(ps, hs), p);
  }

  lemma JoinOne(f: seq<Byte>)
    ensures Join([f]) == f
  {
    assert Join([f]) == f + Join([]);
  }
}
