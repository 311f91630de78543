/**
 * Frame header, side information and main data of one frame: mp3/mp3enc-bits.h and the writers in
 * mp3/mp3enc.h, with the decoder for the same formats (sections 2.4.1 and 2.4.2 of ISO 11172-3).
 */
module Frames {
  import opened Bits
  import opened Huff
  import opened Spectrum
  import opened Granules

  /** A list of (value, width) fields. */
  type FieldList = seq<(nat, nat)>

  function ListCode(fs: FieldList): seq<bool>
  {
    if fs == [] then [] else BitsOf(fs[0].0, fs[0].1) + ListCode(fs[1..])
  }

  function Values(fs: FieldList): (v: seq<nat>)
    ensures |v| == |fs|
  {
    if fs == [] then [] else [fs[0].0] + Values(fs[1..])
  }

  function Widths(fs: FieldList): (w: seq<nat>)
    ensures |w| == |fs|
  {
    if fs == [] then [] else [fs[0].1] + Widths(fs[1..])
  }

  function ReadList(ws: seq<nat>, s: seq<bool>): (r: Read<seq<nat>>)
    ensures r.Done? ==> |r.value| == |ws|
  {
    if ws == [] then Done([], s)
    else
      var (v, s1) :- ReadBits(ws[0], s);
      var (vs, s2) :- ReadList(ws[1..], s1);
      Done([v] + vs, s2)
  }

  predicate InWidth(fs: FieldList)
  {
    forall k :: 0 <= k < |fs| ==> fs[k].0 < Pow2(fs[k].1)
  }

  lemma {:induction false} ListRoundTrip(fs: FieldList, rest: seq<bool>)
    requires InWidth(fs)
    ensures ReadList(Widths(fs), ListCode(fs) + rest) == Done(Values(fs), rest)
  {
    if fs == [] {
      assert ListCode(fs) + rest == rest;
    } else {
      assert ListCode(fs) + rest == BitsOf(fs[0].0, fs[0].1) + (ListCode(fs[1..]) + rest);
      ReadBitsBack(fs[0].0, fs[0].1, ListCode(fs[1..]) + rest);
      ListRoundTrip(fs[1..], rest);
      assert Widths(fs)[1..] == Widths(fs[1..]);
    }
  }

  method WriteList(bs: Bitstream, fs: FieldList)
    requires bs.Valid() && bs.TotalBits() + |ListCode(fs)| <= 8 * bs.buf.Length
    modifies bs, bs.buf
    ensures bs.Valid() && bs.Written() == old(bs.Written()) + ListCode(fs)
  {
    ghost var w0 := bs.Written();
    for k := 0 to |fs|
      invariant bs.Valid()
      invariant bs.Written() + ListCode(fs[k..]) == w0 + ListCode(fs)
    {
      ghost var w, tail := bs.Written(), ListCode(fs[k + 1..]);
      assert |w| + |ListCode(fs[k..])| == |w0| + |ListCode(fs)|;
      assert fs[k..][1..] == fs[k + 1..];
      bs.Put(fs[k].0, fs[k].1);
      assert bs.Written() + tail == w + (BitsOf(fs[k].0, fs[k].1) + tail);
    }
    assert bs.Written() + [] == bs.Written();
  }

  const BITRATES: seq<nat> := [0, 32, 40, 48, 56, 64, 80, 96, 112, 128, 160, 192, 224, 256, 320]
  const RATES: seq<nat> := [44100, 48000, 32000]

  /** Widths of the long-block bands, by sampling_frequency. */
  const SFB_LONG: seq<seq<nat>> := [
    [4, 4, 4, 4, 4, 4, 6, 6, 8, 8, 10, 12, 16, 20, 24, 28, 34, 42, 50, 54, 76, 158, 0],
    [4, 4, 4, 4, 4, 4, 6, 6, 6, 8, 10, 12, 16, 18, 22, 28, 34, 40, 46, 54, 54, 192, 0],
    [4, 4, 4, 4, 4, 4, 6, 6, 8, 10, 12, 16, 20, 24, 30, 38, 46, 56, 68, 84, 102, 26, 0]]

  lemma SfbTables(sr: nat)
    requires sr < 3
    ensures BandTable(SFB_LONG[sr])
  {
  }

  /** Where the long-block bands begin and end (table B.8 of ISO 11172-3). */
  const EDGES: seq<seq<nat>> := [
    [0, 4, 8, 12, 16, 20, 24, 30, 36, 44, 52, 62, 74, 90, 110, 134, 162, 196, 238, 288, 342, 418, 576],
    [0, 4, 8, 12, 16, 20, 24, 30, 36, 42, 50, 60, 72, 88, 106, 128, 156, 190, 230, 276, 330, 384, 576],
    [0, 4, 8, 12, 16, 20, 24, 30, 36, 44, 54, 66, 82, 102, 126, 156, 194, 240, 296, 364, 448, 550, 576]]

  lemma {:induction false} BandEdges(sr: nat, n: nat)
    requires sr < 3 && n <= 22
    ensures BandEnd(SFB_LONG[sr], n) == EDGES[sr][n]
  {
    EdgeSteps();
    hide SFB_LONG, EDGES;
    if n > 0 {
      BandEdges(sr, n - 1);
    }
  }

  lemma EdgeSteps()
    ensures |EDGES| == 3 && forall sr :: 0 <= sr < 3 ==> |EDGES[sr]| == |SFB_LONG[sr]| == 23 && EDGES[sr][0] == 0
    ensures forall n: nat :: n < 22 ==> EDGES[0][n] + SFB_LONG[0][n] == EDGES[0][n + 1]
    ensures forall n: nat :: n < 22 ==> EDGES[1][n] + SFB_LONG[1][n] == EDGES[1][n + 1]
    ensures forall n: nat :: n < 22 ==> EDGES[2][n] + SFB_LONG[2][n] == EDGES[2][n + 1]
  {
  }

  /** The regions of big values end at the band edges that region0_count and region1_count name. */
  lemma RegionEdges(l: Layout, sr: nat)
    requires sr < 3 && l.InRange()
    ensures l.End0(SFB_LONG[sr]) == Min(EDGES[sr][l.region0 + 1], 2 * l.bigValues)
    ensures l.End1(SFB_LONG[sr]) == Min(EDGES[sr][l.region0 + l.region1 + 2], 2 * l.bigValues)
  {
    BandEdges(sr, l.region0 + 1);
    BandEdges(sr, l.region0 + l.region1 + 2);
    hide BandEnd;
  }

  datatype Header = Header(kbps: nat, rate: nat, mode: nat, modeExt: nat, padding: nat) {

    /** Index of the bitrate, or 0 (free format) for a rate outside the table. */
    function BitrateIndex(): nat { IndexFrom(1) }

    function IndexFrom(i: nat): (r: nat)
      requires 1 <= i <= 15
      ensures r < 15 && (r > 0 ==> BITRATES[r] == kbps)
      decreases 15 - i
    {
      if i == 15 then 0 else if BITRATES[i] == kbps then i else IndexFrom(i + 1)
    }

    function RateIndex(): nat
    {
      if rate == 44100 then 0 else if rate == 48000 then 1 else if rate == 32000 then 2 else 0
    }

    function FrameBytes(): nat
      requires rate > 0
    {
      144 * kbps * 1000 / rate + padding
    }

    function Fields(): FieldList
    {
      [(0xFFF, 12), (1, 1), (1, 2), (1, 1), (BitrateIndex(), 4), (RateIndex(), 2), (padding, 1), (0, 1),
       (mode, 2), (modeExt, 2), (0, 1), (1, 1), (0, 2)]
    }

    /** What this encoder can be set up with and a decoder can recover. */
    predicate Standard()
    {
      kbps > 0 && kbps in BITRATES && rate > 0 && rate in RATES && mode < 4 && modeExt < 4 && padding < 2
    }
  }

  const HEADER_WIDTHS: seq<nat> := [12, 1, 2, 1, 4, 2, 1, 1, 2, 2, 1, 1, 2]

  /** A header, and the bytes of error check between it and the side information: two when protection_bit is 0. */
  function ReadHeader(s: seq<bool>): (r: Read<(Header, nat)>)
    ensures r.Done? ==> r.value.0.rate in RATES
  {
    var (v, rest) :- ReadList(HEADER_WIDTHS, s);
    var crc := if v[3] == 0 then 2 else 0;
    if v[0] != 0xFFF || v[1] != 1 || v[2] != 1 || v[4] == 0 || v[4] >= 15 || v[5] >= 3 || |rest| < 8 * crc then Fail
    else Done((Header(BITRATES[v[4]], RATES[v[5]], v[8], v[9], v[6]), crc), rest[8 * crc..])
  }

  /** What a decoder plays: mode 1 is joint stereo, where bit 1 of mode_extension means M/S, bit 0 intensity. */
  datatype Stereo = Mono | LeftRight | Joint(midSide: bool, intensity: bool)

  function StereoOf(h: Header): Stereo
  {
    if h.mode == 3 then Mono
    else if h.mode != 1 then LeftRight
    else if h.modeExt == 0 then LeftRight
    else Joint(h.modeExt / 2 % 2 == 1, h.modeExt % 2 == 1)
  }

  lemma IndexFound(h: Header, i: nat, k: nat)
    requires 1 <= i <= k < 15 && BITRATES[k] == h.kbps
    ensures h.IndexFrom(i) > 0
    decreases k - i
  {
    if BITRATES[i] != h.kbps {
      IndexFound(h, i + 1, k);
    }
  }

  lemma SmallPowers()
    ensures Pow2(1) == 2 && Pow2(2) == 4 && Pow2(3) == 8 && Pow2(4) == 16 && Pow2(5) == 32
    ensures Pow2(8) == 256 && Pow2(9) == 512 && Pow2(12) == 4096
  {
    assert Pow2(5) == 32;
    assert Pow2(8) == 256;
    assert Pow2(12) == 4096;
  }

  /** The header is 32 bits, a decoder recovers every field of it and expects no error check. */
  lemma HeaderRoundTrip(h: Header, rest: seq<bool>)
    requires h.Standard()
    ensures ReadHeader(ListCode(h.Fields()) + rest) == Done((h, 0), rest)
  {
    hide ListCode, ReadList;
    HeaderFits(h);
    var fs := h.Fields();
    ListRoundTrip(fs, rest);
    ListParts13(fs);
    assert Widths(fs) == HEADER_WIDTHS;
    hide InWidth, Header.BitrateIndex, Values, Widths;
    assert rest[0..] == rest;
  }

  /** Every field fits, and the two indices name the bitrate and the rate. */
  lemma HeaderFits(h: Header)
    requires h.Standard()
    ensures InWidth(h.Fields())
    ensures 0 < h.BitrateIndex() < 15 && BITRATES[h.BitrateIndex()] == h.kbps
    ensures h.RateIndex() < 3 && RATES[h.RateIndex()] == h.rate
  {
    hide Pow2;
    var k :| 0 <= k < |BITRATES| && BITRATES[k] == h.kbps;
    IndexFound(h, 1, k);
    SmallPowers();
  }

  lemma {:induction false} ListAt(fs: FieldList, k: nat)
    requires k < |fs|
    ensures Values(fs)[k] == fs[k].0 && Widths(fs)[k] == fs[k].1
  {
    if k > 0 {
      ListAt(fs[1..], k - 1);
    }
  }

  lemma ListParts13(fs: FieldList)
    requires |fs| == 13
    ensures forall k :: 0 <= k < 13 ==> Values(fs)[k] == fs[k].0 && Widths(fs)[k] == fs[k].1
  {
    hide Values, Widths;
    forall k | 0 <= k < 13
      ensures Values(fs)[k] == fs[k].0 && Widths(fs)[k] == fs[k].1
    {
      ListAt(fs, k);
    }
  }

  /** Bits of the fields from number k on. */
  function SizeFrom(fs: FieldList, k: nat): nat
    requires k <= |fs|
    decreases |fs| - k
  {
    if k == |fs| then 0 else fs[k].1 + SizeFrom(fs, k + 1)
  }

  /** The number that fields k and on spell together. */
  function WordFrom(fs: FieldList, k: nat): nat
    requires k <= |fs|
    decreases |fs| - k
  {
    if k == |fs| then 0 else fs[k].0 * Pow2(SizeFrom(fs, k + 1)) + WordFrom(fs, k + 1)
  }

  lemma {:induction false} ValueConcat(a: seq<bool>, b: seq<bool>)
    ensures Value(a + b) == Value(a) * Pow2(|b|) + Value(b)
  {
    if b == [] {
      assert a + b == a;
    } else {
      var c := b[..|b| - 1];
      assert (a + b)[..|a + b| - 1] == a + c;
      ValueConcat(a, c);
      Doubled(Value(a), Pow2(|c|));
    }
  }

  lemma Doubled(a: nat, p: nat)
    ensures a * (2 * p) == 2 * (a * p)
  {
  }

  lemma {:induction false} ListWord(fs: FieldList, k: nat)
    requires k <= |fs| && InWidth(fs)
    ensures Value(ListCode(fs[k..])) == WordFrom(fs, k)
    decreases |fs| - k
  {
    hide Value, Pow2, BitsOf;
    if k < |fs| {
      ListWord(fs, k + 1);
      ListSize(fs, k + 1);
      assert fs[k..][1..] == fs[k + 1..];
      ValueConcat(BitsOf(fs[k].0, fs[k].1), ListCode(fs[k + 1..]));
      ValueOfBits(fs[k].0, fs[k].1);
    } else {
      NoBits();
    }
  }

  lemma NoBits()
    ensures Value([]) == 0
  {
  }

  lemma HeaderPowers()
    ensures Pow2(0) == 1 && Pow2(2) == 4 && Pow2(3) == 8 && Pow2(4) == 16 && Pow2(6) == 64 && Pow2(8) == 0x100
    ensures Pow2(9) == 0x200 && Pow2(10) == 0x400 && Pow2(12) == 0x1000 && Pow2(16) == 0x1_0000
    ensures Pow2(17) == 0x2_0000 && Pow2(19) == 0x8_0000 && Pow2(20) == 0x10_0000
  {
    SmallPowers();
    assert Pow2(16) == 16 * Pow2(12);
    assert Pow2(20) == 16 * Pow2(16);
  }

  /**
   * The whole 32-bit word: sync, MPEG-1, Layer III, no error check; bitrate, rate and padding; mode and its
   * extension; original, neither private nor copyrighted, no emphasis.
   */
  lemma HeaderWord(h: Header)
    requires h.Standard()
    ensures 0 < h.BitrateIndex() < 15 && BITRATES[h.BitrateIndex()] == h.kbps && RATES[h.RateIndex()] == h.rate
    ensures Value(ListCode(h.Fields()))
            == 0xFFFB_0000 + h.BitrateIndex() * 0x1000 + h.RateIndex() * 0x400 + h.padding * 0x200
               + h.mode * 0x40 + h.modeExt * 0x10 + 4
  {
    hide ListCode, Value, InWidth;
    HeaderFits(h);
    var fs := h.Fields();
    assert fs[0..] == fs;
    ListWord(fs, 0);
    LowWord(fs);
    HighWord(fs);
    hide WordFrom, Header.BitrateIndex, Header.RateIndex;
  }

  /** Fields 6 to 12: padding, private bit, mode, extension, copyright, original, emphasis. */
  lemma LowWord(fs: FieldList)
    requires |fs| == 13 && fs[6].1 == 1 && fs[7] == (0, 1) && fs[8].1 == 2 && fs[9].1 == 2
    requires fs[10] == (0, 1) && fs[11] == (1, 1) && fs[12] == (0, 2)
    ensures SizeFrom(fs, 6) == 10
    ensures WordFrom(fs, 6) == fs[6].0 * 0x200 + fs[8].0 * 0x40 + fs[9].0 * 0x10 + 4
  {
    HeaderPowers();
    hide Pow2;
    assert SizeFrom(fs, 12) == 2 && WordFrom(fs, 12) == 0;
    assert SizeFrom(fs, 11) == 3 && WordFrom(fs, 11) == 4;
    assert SizeFrom(fs, 10) == 4 && WordFrom(fs, 10) == 4;
    assert SizeFrom(fs, 9) == 6 && WordFrom(fs, 9) == fs[9].0 * 0x10 + 4;
    assert SizeFrom(fs, 8) == 8 && WordFrom(fs, 8) == fs[8].0 * 0x40 + WordFrom(fs, 9);
    assert SizeFrom(fs, 7) == 9 && WordFrom(fs, 7) == WordFrom(fs, 8);
  }

  /** Fields 0 to 5: sync, identification, layer, protection, bitrate, rate. */
  lemma HighWord(fs: FieldList)
    requires |fs| == 13 && SizeFrom(fs, 6) == 10 && fs[0] == (0xFFF, 12) && fs[1] == (1, 1) && fs[2] == (1, 2)
    requires fs[3] == (1, 1) && fs[4].1 == 4 && fs[5].1 == 2
    ensures WordFrom(fs, 0) == 0xFFFB_0000 + fs[4].0 * 0x1000 + fs[5].0 * 0x400 + WordFrom(fs, 6)
  {
    HeaderPowers();
    hide Pow2;
    assert SizeFrom(fs, 5) == 12 && WordFrom(fs, 5) == fs[5].0 * 0x400 + WordFrom(fs, 6);
    assert SizeFrom(fs, 4) == 16 && WordFrom(fs, 4) == fs[4].0 * 0x1000 + WordFrom(fs, 5);
    assert SizeFrom(fs, 3) == 17 && WordFrom(fs, 3) == 0x1_0000 + WordFrom(fs, 4);
    assert SizeFrom(fs, 2) == 19 && WordFrom(fs, 2) == 0x2_0000 + WordFrom(fs, 3);
    assert SizeFrom(fs, 1) == 20 && WordFrom(fs, 1) == 0x8_0000 + WordFrom(fs, 2);
  }

  lemma {:induction false} ListSize(fs: FieldList, k: nat)
    requires k <= |fs|
    ensures |ListCode(fs[k..])| == SizeFrom(fs, k)
    decreases |fs| - k
  {
    if k < |fs| {
      ListSize(fs, k + 1);
      assert fs[k..][1..] == fs[k + 1..];
    }
  }

  /** Side information fields of one granule of one channel; this encoder only produces long blocks. */
  function SideFields(g: Granule): FieldList
  {
    [(g.part23, 12), (g.layout.bigValues, 9), (g.globalGain, 8), (g.compress, 4), (0, 1),
     (g.layout.table0, 5), (g.layout.table1, 5), (g.layout.table2, 5), (g.layout.region0, 4), (g.layout.region1, 3),
     (if g.preflag then 1 else 0, 1), (if g.scale then 1 else 0, 1), (g.layout.count1, 1)]
  }

  const SIDE_WIDTHS: seq<nat> := [12, 9, 8, 4, 1, 5, 5, 5, 4, 3, 1, 1, 1]

  /** The values fit their fields. */
  predicate SideInRange(g: Granule)
  {
    g.part23 < 4096 && g.layout.InRange() && g.globalGain < 256 && g.compress < 16
  }

  function ReadSide(s: seq<bool>): Read<Granule>
  {
    var (v, rest) :- ReadList(SIDE_WIDTHS, s);
    var l := Layout(v[1], v[8], v[9], v[5], v[6], v[7], v[12]);
    if v[4] != 0 || v[3] >= 16 || !l.InRange() then Fail
    else Done(Granule(v[0], l, v[2], v[3], v[10] == 1, v[11] == 1, []), rest)
  }

  lemma SideRoundTrip(g: Granule, rest: seq<bool>)
    requires SideInRange(g)
    ensures ReadSide(ListCode(SideFields(g)) + rest) == Done(SideOf(g), rest)
  {
    hide ListCode, ReadList, Pow2;
    SmallPowers();
    var fs := SideFields(g);
    assert InWidth(fs);
    ListRoundTrip(fs, rest);
    ListParts13(fs);
    assert Widths(fs) == SIDE_WIDTHS;
  }

  lemma SideSize(g: Granule)
    ensures |ListCode(SideFields(g))| == 59
  {
    hide ListCode;
    var fs := SideFields(g);
    assert fs[0..] == fs;
    ListSize(fs, 0);
    assert SizeFrom(fs, 12) == 1;
    assert SizeFrom(fs, 11) == 2;
    assert SizeFrom(fs, 9) == 6;
    assert SizeFrom(fs, 7) == 15;
    assert SizeFrom(fs, 5) == 25;
    assert SizeFrom(fs, 3) == 30;
    assert SizeFrom(fs, 1) == 47;
  }

  lemma HeaderSize(h: Header)
    ensures |ListCode(h.Fields())| == 32
  {
    hide ListCode;
    var fs := h.Fields();
    assert fs[0..] == fs;
    ListSize(fs, 0);
    assert SizeFrom(fs, 12) == 2;
    assert SizeFrom(fs, 11) == 3;
    assert SizeFrom(fs, 9) == 6;
    assert SizeFrom(fs, 7) == 9;
    assert SizeFrom(fs, 5) == 12;
    assert SizeFrom(fs, 3) == 17;
    assert SizeFrom(fs, 1) == 20;
  }

  /** One frame's side information; granules are ordered by granule, then channel. */
  datatype SideInfo = SideInfo(mdBegin: nat, scfsi: seq<seq<bool>>, granules: seq<Granule>) {

    predicate InRange(nch: nat)
    {
      && 1 <= nch <= 2 && mdBegin < 512
      && |scfsi| == nch && (forall c :: 0 <= c < nch ==> |scfsi[c]| == 4)
      && |granules| == 2 * nch && forall k :: 0 <= k < 2 * nch ==> SideInRange(granules[k])
    }

    /** The shape a decoder has after reading side information. */
    predicate Shaped(nch: nat)
    {
      1 <= nch && |granules| == 2 * nch && |scfsi| == nch && forall c :: 0 <= c < nch ==> |scfsi[c]| == 4
    }

    /** Nothing is shared between granules: the encoder never sets scfsi. */
    predicate Unshared()
    {
      forall c, b :: 0 <= c < |scfsi| && 0 <= b < |scfsi[c]| ==> !scfsi[c][b]
    }
  }

  function PrivateBits(nch: nat): nat { if nch == 1 then 5 else 3 }

  function FlagsCode(flags: seq<seq<bool>>): seq<bool>
  {
    if flags == [] then [] else flags[0] + FlagsCode(flags[1..])
  }

  function SidesCode(gs: seq<Granule>): seq<bool>
  {
    if gs == [] then [] else ListCode(SideFields(gs[0])) + SidesCode(gs[1..])
  }

  function SideInfoCode(si: SideInfo, nch: nat): seq<bool>
  {
    ListCode([(si.mdBegin, 9), (0, PrivateBits(nch))]) + FlagsCode(si.scfsi) + SidesCode(si.granules)
  }

  function ReadFlags(nch: nat, s: seq<bool>): (r: Read<seq<seq<bool>>>)
    ensures r.Done? ==> |r.value| == nch && forall c :: 0 <= c < nch ==> |r.value[c]| == 4
  {
    if nch == 0 then Done([], s)
    else if |s| < 4 then Fail
    else
      var (rest, s1) :- ReadFlags(nch - 1, s[4..]);
      Done([s[..4]] + rest, s1)
  }

  function ReadSides(n: nat, s: seq<bool>): (r: Read<seq<Granule>>)
    ensures r.Done? ==> |r.value| == n
  {
    if n == 0 then Done([], s)
    else
      var (g, s1) :- ReadSide(s);
      var (gs, s2) :- ReadSides(n - 1, s1);
      Done([g] + gs, s2)
  }

  function ReadSideInfo(nch: nat, s: seq<bool>): (r: Read<SideInfo>)
    requires nch >= 1
    ensures r.Done? ==> r.value.Shaped(nch)
  {
    var (v, s1) :- ReadList([9, PrivateBits(nch)], s);
    var (flags, s2) :- ReadFlags(nch, s1);
    var (gs, s3) :- ReadSides(2 * nch, s2);
    Done(SideInfo(v[0], flags, gs), s3)
  }

  /** What a decoder knows of the granules before it reads main data. */
  function SidesOf(gs: seq<Granule>): (r: seq<Granule>)
    ensures |r| == |gs|
  {
    if gs == [] then [] else [SideOf(gs[0])] + SidesOf(gs[1..])
  }

  lemma {:induction false} FlagsRoundTrip(flags: seq<seq<bool>>, rest: seq<bool>)
    requires forall c :: 0 <= c < |flags| ==> |flags[c]| == 4
    ensures |FlagsCode(flags)| == 4 * |flags|
    ensures ReadFlags(|flags|, FlagsCode(flags) + rest) == Done(flags, rest)
  {
    if flags == [] {
      assert FlagsCode(flags) + rest == rest;
    } else {
      FlagsRoundTrip(flags[1..], rest);
      var s := FlagsCode(flags) + rest;
      assert s == flags[0] + (FlagsCode(flags[1..]) + rest);
      assert s[..4] == flags[0] && s[4..] == FlagsCode(flags[1..]) + rest;
      assert [flags[0]] + flags[1..] == flags;
    }
  }

  lemma {:induction false} SidesRoundTrip(gs: seq<Granule>, rest: seq<bool>)
    requires forall k :: 0 <= k < |gs| ==> SideInRange(gs[k])
    ensures |SidesCode(gs)| == 59 * |gs|
    ensures ReadSides(|gs|, SidesCode(gs) + rest) == Done(SidesOf(gs), rest)
  {
    hide SideFields, SideInRange, ReadSide;
    if gs == [] {
      assert SidesCode(gs) + rest == rest;
    } else {
      SideSize(gs[0]);
      SideRoundTrip(gs[0], SidesCode(gs[1..]) + rest);
      SidesRoundTrip(gs[1..], rest);
      assert SidesCode(gs) + rest == ListCode(SideFields(gs[0])) + (SidesCode(gs[1..]) + rest);
    }
  }

  /** Side information is 17 or 32 bytes, and every field reads back. */
  lemma SideInfoRoundTrip(si: SideInfo, nch: nat, rest: seq<bool>)
    requires si.InRange(nch)
    ensures |SideInfoCode(si, nch)| == 8 * (if nch == 1 then 17 else 32)
    ensures ReadSideInfo(nch, SideInfoCode(si, nch) + rest) == Done(si.(granules := SidesOf(si.granules)), rest)
  {
    hide SideInRange, FlagsCode, SidesCode, ReadFlags, ReadSides, ReadList, ListCode;
    var fs := [(si.mdBegin, 9), (0, PrivateBits(nch))];
    SmallPowers();
    ListSize(fs, 0);
    assert fs[0..] == fs && SizeFrom(fs, 1) == PrivateBits(nch);
    var flags, sides := FlagsCode(si.scfsi), SidesCode(si.granules);
    FlagsRoundTrip(si.scfsi, sides + rest);
    SidesRoundTrip(si.granules, rest);
    ListRoundTrip(fs, flags + (sides + rest));
    ListAt(fs, 0);
    ListAt(fs, 1);
    assert Widths(fs) == [9, PrivateBits(nch)];
    assert SideInfoCode(si, nch) + rest == ListCode(fs) + (flags + (sides + rest));
  }

  method WriteSideInfo(bs: Bitstream, si: SideInfo, nch: nat)
    requires bs.Valid() && si.InRange(nch)
    requires bs.TotalBits() + |SideInfoCode(si, nch)| <= 8 * bs.buf.Length
    modifies bs, bs.buf
    ensures bs.Valid() && bs.Written() == old(bs.Written()) + SideInfoCode(si, nch)
  {
    hide ListCode, SideFields, SideInRange;
    ghost var w0 := bs.Written();
    WriteList(bs, [(si.mdBegin, 9), (0, PrivateBits(nch))]);
    WriteFlags(bs, si.scfsi);
    WriteSides(bs, si.granules);
    assert bs.Written() == w0 + SideInfoCode(si, nch);
  }

  method WriteFlags(bs: Bitstream, flags: seq<seq<bool>>)
    requires bs.Valid() && bs.TotalBits() + |FlagsCode(flags)| <= 8 * bs.buf.Length
    modifies bs, bs.buf
    ensures bs.Valid() && bs.Written() == old(bs.Written()) + FlagsCode(flags)
  {
    ghost var w0 := bs.Written();
    for c := 0 to |flags|
      invariant bs.Valid()
      invariant bs.Written() + FlagsCode(flags[c..]) == w0 + FlagsCode(flags)
    {
      ghost var w, tail := bs.Written(), FlagsCode(flags[c + 1..]);
      assert |w| + |FlagsCode(flags[c..])| == |w0| + |FlagsCode(flags)|;
      assert flags[c..][1..] == flags[c + 1..];
      for b := 0 to |flags[c]|
        invariant bs.Valid() && bs.Written() == w + flags[c][..b]
      {
        assert w + flags[c][..b] + [flags[c][b]] == w + flags[c][..b + 1];
        bs.PutBit(flags[c][b]);
      }
      assert bs.Written() + tail == w + (flags[c] + tail);
    }
    assert bs.Written() + [] == bs.Written();
  }

  method WriteSides(bs: Bitstream, gs: seq<Granule>)
    requires bs.Valid() && bs.TotalBits() + |SidesCode(gs)| <= 8 * bs.buf.Length
    modifies bs, bs.buf
    ensures bs.Valid() && bs.Written() == old(bs.Written()) + SidesCode(gs)
  {
    hide ListCode, SideFields;
    ghost var w0 := bs.Written();
    for k := 0 to |gs|
      invariant bs.Valid()
      invariant bs.Written() + SidesCode(gs[k..]) == w0 + SidesCode(gs)
    {
      ghost var w, tail := bs.Written(), SidesCode(gs[k + 1..]);
      assert |w| + |SidesCode(gs[k..])| == |w0| + |SidesCode(gs)|;
      assert gs[k..][1..] == gs[k + 1..];
      WriteList(bs, SideFields(gs[k]));
      assert bs.Written() + tail == w + (ListCode(SideFields(gs[k])) + tail);
    }
    assert bs.Written() + [] == bs.Written();
  }

  /** Side information and spectra of a frame belong together. */
  ghost predicate SoundFrame(si: SideInfo, ixs: seq<seq<int>>, sfb: seq<nat>, nch: nat)
  {
    && si.InRange(nch) && si.Unshared() && |ixs| == 2 * nch && BandTable(sfb)
    && forall k :: 0 <= k < 2 * nch ==> Sound(si.granules[k], ixs[k], sfb, k / nch, si.scfsi[k % nch])
  }

  /** The main data of granule k. */
  ghost function CodeOf(si: SideInfo, ixs: seq<seq<int>>, sfb: seq<nat>, nch: nat, k: nat): seq<bool>
    requires SoundFrame(si, ixs, sfb, nch) && k < 2 * nch
  {
    hide Describes, Representable, Part2Length, SpectrumBits, SideInRange;
    assert Sound(si.granules[k], ixs[k], sfb, k / nch, si.scfsi[k % nch]);
    GranuleCode(si.granules[k], ixs[k], sfb, k / nch, si.scfsi[k % nch])
  }

  /** The main data of granules k, k + 1, .. of a frame. */
  ghost function MainCode(si: SideInfo, ixs: seq<seq<int>>, sfb: seq<nat>, nch: nat, k: nat): seq<bool>
    requires SoundFrame(si, ixs, sfb, nch) && k <= 2 * nch
    decreases 2 * nch - k
  {
    if k == 2 * nch then []
    else CodeOf(si, ixs, sfb, nch, k) + MainCode(si, ixs, sfb, nch, k + 1)
  }

  /** Sum of part2_3_length from granule k on. */
  function MainBits(gs: seq<Granule>, k: nat): nat
    requires k <= |gs|
    decreases |gs| - k
  {
    if k == |gs| then 0 else gs[k].part23 + MainBits(gs, k + 1)
  }

  lemma {:induction false} MainSize(si: SideInfo, ixs: seq<seq<int>>, sfb: seq<nat>, nch: nat, k: nat)
    requires SoundFrame(si, ixs, sfb, nch) && k <= 2 * nch
    ensures |MainCode(si, ixs, sfb, nch, k)| == MainBits(si.granules, k)
    decreases 2 * nch - k
  {
    hide Sound, SideInRange, GranuleCode;
    if k < 2 * nch {
      MainSize(si, ixs, sfb, nch, k + 1);
    }
  }

  function NoScalefacs(): (z: seq<nat>)
    ensures |z| == BANDS
  {
    seq(BANDS, _ => 0)
  }

  /** Scalefactors of the same channel in the granule before number k. */
  function Before(read: seq<(Granule, seq<int>)>, k: nat, nch: nat): (p: seq<nat>)
    ensures |p| == BANDS
  {
    if nch <= k && k - nch < |read| && |read[k - nch].0.scalefac| == BANDS then read[k - nch].0.scalefac
    else NoScalefacs()
  }

  /** Read the next granule given the ones already read. */
  ghost function ReadOne(si: SideInfo, sfb: seq<nat>, nch: nat, read: seq<(Granule, seq<int>)>, s: seq<bool>)
    : Read<(Granule, seq<int>)>
    requires si.Shaped(nch) && |sfb| == 23 && |read| < 2 * nch
  {
    var k := |read|;
    var h := si.granules[k];
    if h.compress >= 16 || !h.layout.InRange() then Fail
    else ReadGranule(h, sfb, k / nch, si.scfsi[k % nch], Before(read, k, nch), s)
  }

  /** Read granules |read|, |read| + 1, .. given the ones already read. */
  ghost function ReadMain(si: SideInfo, sfb: seq<nat>, nch: nat, read: seq<(Granule, seq<int>)>, s: seq<bool>)
    : Read<seq<(Granule, seq<int>)>>
    requires si.Shaped(nch) && |sfb| == 23 && |read| <= 2 * nch
    decreases 2 * nch - |read|
  {
    if |read| == 2 * nch then Done(read, s)
    else
      var (g, s1) :- ReadOne(si, sfb, nch, read, s);
      ReadMain(si, sfb, nch, read + [g], s1)
  }

  /** What a decoder gets out of a granule: all of it, with the scalefactors as received. */
  function Heard(g: Granule, ix: seq<int>): (Granule, seq<int>)
    requires g.compress < 16 && |g.scalefac| == BANDS
  {
    (g.(scalefac := Received(g)), ix)
  }

  /** The first n granules of a frame as a decoder has them. */
  function HeardAll(si: SideInfo, ixs: seq<seq<int>>, n: nat): (r: seq<(Granule, seq<int>)>)
    requires n <= |si.granules| && n <= |ixs|
    requires forall k :: 0 <= k < n ==> si.granules[k].compress < 16 && |si.granules[k].scalefac| == BANDS
    ensures |r| == n && forall k :: 0 <= k < n ==> r[k] == Heard(si.granules[k], ixs[k])
  {
    if n == 0 then [] else HeardAll(si, ixs, n - 1) + [Heard(si.granules[n - 1], ixs[n - 1])]
  }

  ghost function HeardFrame(si: SideInfo, ixs: seq<seq<int>>, sfb: seq<nat>, nch: nat): (r: seq<(Granule, seq<int>)>)
    requires SoundFrame(si, ixs, sfb, nch)
    ensures |r| == 2 * nch
  {
    HeardAll(si, ixs, 2 * nch)
  }

  lemma {:induction false} SidesAt(gs: seq<Granule>, k: nat)
    requires k < |gs|
    ensures SidesOf(gs)[k] == SideOf(gs[k])
  {
    if k > 0 {
      SidesAt(gs[1..], k - 1);
    }
  }

  lemma {:induction false} MainRoundTripFrom(si: SideInfo, ixs: seq<seq<int>>, sfb: seq<nat>, nch: nat, k: nat,
                                             rest: seq<bool>)
    requires SoundFrame(si, ixs, sfb, nch) && k <= 2 * nch
    ensures var all := HeardFrame(si, ixs, sfb, nch);
            ReadMain(si.(granules := SidesOf(si.granules)), sfb, nch, all[..k], MainCode(si, ixs, sfb, nch, k) + rest)
            == Done(all, rest)
    decreases 2 * nch - k
  {
    hide Sound, SideInRange, CodeOf, ReadOne, Received, SidesOf;
    var all := HeardFrame(si, ixs, sfb, nch);
    var code := MainCode(si, ixs, sfb, nch, k);
    if k == 2 * nch {
      assert code + rest == rest && all[..k] == all;
    } else {
      var tail := MainCode(si, ixs, sfb, nch, k + 1) + rest;
      MainRoundTripFrom(si, ixs, sfb, nch, k + 1, rest);
      GranuleHeard(si, ixs, sfb, nch, all[..k], tail);
      assert code + rest == CodeOf(si, ixs, sfb, nch, k) + tail;
      assert all[..k] + [all[k]] == all[..k + 1];
    }
  }

  /** The next granule is read back from its main data, whatever bits follow. */
  lemma GranuleHeard(si: SideInfo, ixs: seq<seq<int>>, sfb: seq<nat>, nch: nat, read: seq<(Granule, seq<int>)>,
                     rest: seq<bool>)
    requires SoundFrame(si, ixs, sfb, nch) && |read| < 2 * nch
    ensures var k, sides := |read|, si.(granules := SidesOf(si.granules));
            ReadOne(sides, sfb, nch, read, CodeOf(si, ixs, sfb, nch, k) + rest)
            == Done(HeardFrame(si, ixs, sfb, nch)[k], rest)
  {
    hide GranuleCode, ReadGranule, Received, Describes, SpectrumBits, Part2Length, Representable, Merged, SidesOf;
    var k := |read|;
    var g, gr, shared := si.granules[k], k / nch, si.scfsi[k % nch];
    assert Sound(g, ixs[k], sfb, gr, shared);
    SidesAt(si.granules, k);
    GranuleRoundTrip(g, ixs[k], sfb, gr, shared, Before(read, k, nch), rest);
    AllSent(g, gr, shared, Before(read, k, nch));
  }

  /** All granules of a frame are read back from its main data, whatever bits follow. */
  lemma MainRoundTrip(si: SideInfo, ixs: seq<seq<int>>, sfb: seq<nat>, nch: nat, rest: seq<bool>)
    requires SoundFrame(si, ixs, sfb, nch)
    ensures ReadMain(si.(granules := SidesOf(si.granules)), sfb, nch, [], MainCode(si, ixs, sfb, nch, 0) + rest)
            == Done(HeardFrame(si, ixs, sfb, nch), rest)
  {
    hide Sound, SideInRange, MainCode, ReadMain;
    MainRoundTripFrom(si, ixs, sfb, nch, 0, rest);
    assert HeardFrame(si, ixs, sfb, nch)[..0] == [];
  }

  method WriteMain(bs: Bitstream, si: SideInfo, ixs: seq<seq<int>>, sfb: seq<nat>, nch: nat)
    requires SoundFrame(si, ixs, sfb, nch)
    requires bs.Valid() && bs.TotalBits() + MainBits(si.granules, 0) <= 8 * bs.buf.Length
    modifies bs, bs.buf
    ensures bs.Valid() && bs.Written() == old(bs.Written()) + MainCode(si, ixs, sfb, nch, 0)
  {
    hide Sound, SideInRange, GranuleCode;
    ghost var w0, code := bs.Written(), MainCode(si, ixs, sfb, nch, 0);
    MainSize(si, ixs, sfb, nch, 0);
    for k := 0 to 2 * nch
      invariant bs.Valid()
      invariant bs.Written() + MainCode(si, ixs, sfb, nch, k) == w0 + code
    {
      ghost var w, tail := bs.Written(), MainCode(si, ixs, sfb, nch, k + 1);
      assert |w| + |MainCode(si, ixs, sfb, nch, k)| == |w0| + |code|;
      WriteGranule(bs, si.granules[k], ixs[k], sfb, k / nch, si.scfsi[k % nch]);
      assert bs.Written() + tail == w + (CodeOf(si, ixs, sfb, nch, k) + tail);
    }
    assert bs.Written() + [] == bs.Written();
  }
}
