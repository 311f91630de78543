/**
 * A decoder for the whole output stream, and the proof that it recovers every spectrum the encoder wrote:
 * headers, side information, the bit reservoir, scalefactors and Huffman data together.
 */
module Decoder {
  import opened Bits
  import opened Spectrum
  import opened Granules
  import opened Frames
  import opened Reservoir

  datatype Option<+T> = None | Some(value: T)

  /** A decoded frame, and how its channels are played. */
  datatype Decoded = Decoded(header: Header, stereo: Stereo, granules: seq<(Granule, seq<int>)>)

  /** Channels of a header: mode 3 is mono. */
  function Channels(h: Header): (nch: nat)
    ensures nch == 1 || nch == 2
  {
    if h.mode == 3 then 1 else 2
  }

  /** Bytes of header and side information. */
  function HeadBytes(nch: nat): nat { 4 + if nch == 1 then 17 else 32 }

  /** A frame cut from the front of a stream: what it decodes to, its main-data area, its size. */
  datatype Cut = Cut(frame: Decoded, area: seq<Byte>, size: nat)

  /** Decode the frame at the front of s; acc is the joined main-data areas of the frames before. */
  ghost function ReadFrame(s: seq<Byte>, acc: seq<Byte>): (r: Option<Cut>)
    ensures r.Some? ==> 0 < r.value.size <= |s|
  {
    match ReadHeader(BytesBits(s))
    case Fail => None
    case Done((h, crc), bits) =>
      match ReadSideInfo(Channels(h), bits)
      case Fail => None
      case Done(si, _) =>
        var hs, fb := HeadBytes(Channels(h)) + crc, h.FrameBytes();
        if fb < hs || |s| < fb || |acc| < si.mdBegin then None
        else
          var all := acc + s[hs..fb];
          match ReadMain(si, SFB_LONG[h.RateIndex()], Channels(h), [], BytesBits(all[|acc| - si.mdBegin..]))
          case Fail => None
          case Done(granules, _) => Some(Cut(Decoded(h, StereoOf(h), granules), s[hs..fb], fb))
  }

  ghost function DecodeStream(s: seq<Byte>, acc: seq<Byte>): Option<seq<Decoded>>
    decreases |s|
  {
    if s == [] then Some([])
    else
      match ReadFrame(s, acc)
      case None => None
      case Some(c) =>
        match DecodeStream(s[c.size..], acc + c.area)
        case None => None
        case Some(rest) => Some([c.frame] + rest)
  }

  /** One frame's contents before it is turned into bytes. */
  datatype Contents = Contents(header: Header, side: SideInfo, spectra: seq<seq<int>>) {

    function Sfb(): (sfb: seq<nat>)
      ensures |sfb| == 23
    {
      SFB_LONG[header.RateIndex()]
    }

    ghost predicate Valid()
    {
      && header.Standard()
      && SoundFrame(side, spectra, Sfb(), Channels(header))
    }

    /** What a decoder should make of it. */
    ghost function Expected(): Decoded
      requires Valid()
    {
      Decoded(header, StereoOf(header), HeardFrame(side, spectra, Sfb(), Channels(header)))
    }

    /** Header and side information as bits. */
    function HeadCode(): seq<bool>
      requires header.Standard() && side.InRange(Channels(header))
    {
      ListCode(header.Fields()) + SideInfoCode(side, Channels(header))
    }

    function BodyBits(): nat { MainBits(side.granules, 0) }

    /** Main data as bits. */
    ghost function BodyCode(): seq<bool>
      requires Valid()
    {
      MainCode(side, spectra, Sfb(), Channels(header), 0)
    }
  }

  /** The bytes of a part spell the contents. */
  ghost predicate Carries(p: Part, c: Contents)
  {
    && c.Valid()
    && BytesBits(p.head) == c.HeadCode()
    && |p.main| == BytesFor(c.BodyBits())
    && BytesBits(p.main)[..c.BodyBits()] == c.BodyCode()
    && c.header.FrameBytes() == |p.head| + p.area
  }

  /** Frames cs encoded as parts ps in order, each announcing what it borrows. */
  ghost predicate Encodes(ps: seq<Part>, cs: seq<Contents>, hs: nat)
  {
    && |ps| == |cs|
    && WellFed(ps, hs)
    && forall k :: 0 <= k < |ps| ==>
         (FedPrefix(ps, hs, k);
          Carries(ps[k], cs[k]) && cs[k].side.mdBegin == After(ps[..k], hs).Backlog())
  }

  lemma EncodesFed(ps: seq<Part>, cs: seq<Contents>, hs: nat)
    requires Encodes(ps, cs, hs)
    ensures |ps| == |cs| && WellFed(ps, hs)
  {
  }

  function Join(frames: seq<seq<Byte>>): seq<Byte>
  {
    if frames == [] then [] else frames[0] + Join(frames[1..])
  }

  ghost function ExpectedFrom(cs: seq<Contents>, k: nat): seq<Decoded>
    requires k <= |cs| && forall j :: 0 <= j < |cs| ==> cs[j].Valid()
    decreases |cs| - k
  {
    if k == |cs| then [] else [cs[k].Expected()] + ExpectedFrom(cs, k + 1)
  }

  /** Header and side information take exactly HeadBytes. */
  lemma CarriedHead(p: Part, c: Contents, rest: seq<Byte>)
    requires Carries(p, c)
    ensures |p.head| == HeadBytes(Channels(c.header))
    ensures var r := ReadHeader(BytesBits(p.head + rest));
            && r.Done? && r.value == (c.header, 0)
            && var q := ReadSideInfo(Channels(c.header), r.rest);
            q.Done? && q.value == c.side.(granules := SidesOf(c.side.granules))
  {
    hide ListCode, SideInfoCode, ReadHeader, ReadSideInfo, SoundFrame, MainCode;
    CarriedInRange(p, c);
    var nch := Channels(c.header);
    var h, side, tail := ListCode(c.header.Fields()), SideInfoCode(c.side, nch), BytesBits(rest);
    BytesBitsConcat(p.head, rest);
    HeaderSize(c.header);
    assert BytesBits(p.head + rest) == h + (side + tail);
    HeaderRoundTrip(c.header, side + tail);
    SideInfoRoundTrip(c.side, nch, tail);
  }

  lemma CarriedInRange(p: Part, c: Contents)
    requires Carries(p, c)
    ensures c.header.Standard() && c.side.InRange(Channels(c.header))
  {
  }

  /** Main data found at the start of a byte string decodes, whatever follows it. */
  lemma CarriedMain(p: Part, c: Contents, s: seq<Byte>)
    requires Carries(p, c) && p.main <= s
    ensures var si := c.side.(granules := SidesOf(c.side.granules));
            && si.Shaped(Channels(c.header))
            && var r := ReadMain(si, c.Sfb(), Channels(c.header), [], BytesBits(s));
            r.Done? && r.value == c.Expected().granules
  {
    hide SoundFrame, MainCode, ReadMain, SidesOf, ListCode, SideInfoCode;
    CarriedInRange(p, c);
    var nch, n := Channels(c.header), MainBits(c.side.granules, 0);
    var code := MainCode(c.side, c.spectra, c.Sfb(), nch, 0);
    var bits := BytesBits(s);
    BytesBitsSlice(s, 0, |p.main|);
    assert s[0..|p.main|] == p.main;
    assert bits[..n] == BytesBits(p.main)[..n] == code;
    assert bits == code + bits[n..];
    MainRoundTrip(c.side, c.spectra, c.Sfb(), nch, bits[n..]);
  }

  lemma {:induction false} StreamPrefix(frames: seq<seq<Byte>>, hs: nat, k: nat)
    requires k <= |frames|
    ensures MainStream(frames[..k], hs) <= MainStream(frames, hs)
  {
    assert frames[..k] + frames[k..] == frames;
    MainStreamConcat(frames[..k], frames[k..], hs);
  }

  lemma StreamStep(frames: seq<seq<Byte>>, hs: nat, k: nat)
    requires k < |frames| && |frames[k]| >= hs
    ensures MainStream(frames[..k + 1], hs) == MainStream(frames[..k], hs) + frames[k][hs..]
  {
    assert frames[..k + 1][..k] == frames[..k];
  }

  lemma {:induction false} StreamSize(ps: seq<Part>, hs: nat, frames: seq<seq<Byte>>, k: nat)
    requires k <= |ps| == |frames|
    requires forall j :: 0 <= j < |ps| ==> |frames[j]| == hs + ps[j].area
    ensures |MainStream(frames[..k], hs)| == AreaEnd(ps, k)
  {
    hide MainStream;
    if k > 0 {
      StreamSize(ps, hs, frames, k - 1);
      StreamStep(frames, hs, k - 1);
    } else {
      assert frames[..0] == [];
      NoStream(hs);
    }
  }

  lemma FrameShapes(ps: seq<Part>, hs: nat)
    requires WellFed(ps, hs) && hs > 0
    ensures var frames := Flushed(After(ps, hs));
            && |frames| == |ps|
            && forall j :: 0 <= j < |ps| ==> |frames[j]| == hs + ps[j].area && frames[j][..hs] == ps[j].head
  {
    hide WellFed, Flushed;
    RunTidy(ps, hs);
    var frames := Flushed(After(ps, hs));
    forall j | 0 <= j < |ps|
      ensures |frames[j]| == hs + ps[j].area && frames[j][..hs] == ps[j].head
    {
      RunFrame(ps, hs, j);
    }
  }

  /** The bytes a decoder sees from frame k's back pointer on start with frame k's main data. */
  lemma MainWithinReach(ps: seq<Part>, hs: nat, k: nat)
    requires WellFed(ps, hs) && hs > 0 && k < |ps| && Reached(ps, hs, k)
    ensures WellFed(ps[..k], hs)
    ensures var frames := Flushed(After(ps, hs));
            && |frames| == |ps| && |frames[k]| == hs + ps[k].area && frames[k][..hs] == ps[k].head
            && var acc, back := MainStream(frames[..k], hs), After(ps[..k], hs).Backlog();
            && back <= |acc|
            && ps[k].main <= (acc + frames[k][hs..])[|acc| - back..]
  {
    hide MainStream, Flushed, WellFed, After, Accept, Reached, Used;
    FedPrefix(ps, hs, k);
    FrameShapes(ps, hs);
    var frames := Flushed(After(ps, hs));
    StreamSize(ps, hs, frames, k);
    StreamSize(ps, hs, frames, k + 1);
    StreamPrefix(frames, hs, k + 1);
    StreamStep(frames, hs, k);
    RunFound(ps, hs, k);
    DataWithin(ps, hs, k);
    var m, near, from := MainStream(frames, hs), MainStream(frames[..k + 1], hs), DataStart(ps, hs, k);
    SameStart(near, m, from, |ps[k].main|);
  }

  lemma SameStart(a: seq<Byte>, b: seq<Byte>, from: nat, n: nat)
    requires a <= b && from + n <= |a|
    ensures b[from..from + n] <= a[from..]
  {
    assert a[from..][..n] == b[from..from + n];
  }

  /** One frame of the stream decodes to its contents. */
  lemma DecodeOne(p: Part, c: Contents, area: seq<Byte>, rest: seq<Byte>, acc: seq<Byte>)
    requires Carries(p, c) && |area| == p.area
    requires c.side.mdBegin <= |acc| && p.main <= (acc + area)[|acc| - c.side.mdBegin..]
    ensures c.Valid()
    ensures ReadFrame(p.head + area + rest, acc) == Some(Cut(c.Expected(), area, |p.head| + p.area))
  {
    hide ListCode, SideInfoCode, MainCode, HeardFrame, SoundFrame, ReadHeader, ReadSideInfo, ReadMain, SidesOf;
    CarriedHead(p, c, area + rest);
    CarriedMain(p, c, (acc + area)[|acc| - c.side.mdBegin..]);
    var s := p.head + area + rest;
    assert s == p.head + (area + rest);
    var hs, fb := |p.head|, |p.head| + p.area;
    assert s[hs..fb] == area;
  }

  lemma DecodeStep(p: Part, c: Contents, frame: seq<Byte>, rest: seq<Byte>, acc: seq<Byte>)
    requires Carries(p, c) && |frame| == |p.head| + p.area && p.head <= frame
    requires c.side.mdBegin <= |acc| && p.main <= (acc + frame[|p.head|..])[|acc| - c.side.mdBegin..]
    requires DecodeStream(rest, acc + frame[|p.head|..]).Some?
    ensures c.Valid()
    ensures DecodeStream(frame + rest, acc)
            == Some([c.Expected()] + DecodeStream(rest, acc + frame[|p.head|..]).value)
  {
    hide Carries, ReadFrame;
    var area := frame[|p.head|..];
    assert p.head + area + rest == frame + rest;
    DecodeOne(p, c, area, rest, acc);
    assert (frame + rest)[|frame|..] == rest;
  }

  lemma AllValid(ps: seq<Part>, cs: seq<Contents>, hs: nat)
    requires Encodes(ps, cs, hs)
    ensures forall j :: 0 <= j < |cs| ==> cs[j].Valid()
  {
    forall j | 0 <= j < |cs| ensures cs[j].Valid() { assert Carries(ps[j], cs[j]); }
  }

  /** What a reader that only walks from header to header sees of a frame. */
  datatype Sighting = Sighting(header: Header, mdBegin: nat)

  ghost function Walk(s: seq<Byte>): Option<seq<Sighting>>
    decreases |s|
  {
    if s == [] then Some([])
    else
      match ReadHeader(BytesBits(s))
      case Fail => None
      case Done((h, crc), bits) =>
        match ReadSideInfo(Channels(h), bits)
        case Fail => None
        case Done(si, _) =>
          if h.FrameBytes() < HeadBytes(Channels(h)) + crc || |s| < h.FrameBytes() then None
          else
            match Walk(s[h.FrameBytes()..])
            case None => None
            case Some(rest) => Some([Sighting(h, si.mdBegin)] + rest)
  }

  function SightingsFrom(cs: seq<Contents>, k: nat): (v: seq<Sighting>)
    requires k <= |cs|
    ensures |v| == |cs| - k
    decreases |cs| - k
  {
    if k == |cs| then [] else [Sighting(cs[k].header, cs[k].side.mdBegin)] + SightingsFrom(cs, k + 1)
  }

  lemma WalkOne(p: Part, c: Contents, frame: seq<Byte>, rest: seq<Byte>)
    requires Carries(p, c) && |frame| == |p.head| + p.area && p.head <= frame && Walk(rest).Some?
    ensures Walk(frame + rest) == Some([Sighting(c.header, c.side.mdBegin)] + Walk(rest).value)
  {
    hide Carries, Walk, ReadHeader, ReadSideInfo, SidesOf;
    var s := frame + rest;
    CarriedHead(p, c, frame[|p.head|..] + rest);
    CarriedSize(p, c);
    assert p.head + (frame[|p.head|..] + rest) == s;
    assert s[|frame|..] == rest;
    WalkStep(s, c.header, ReadHeader(BytesBits(s)).rest, c.side.mdBegin, rest);
  }

  lemma CarriedSize(p: Part, c: Contents)
    requires Carries(p, c)
    ensures c.header.rate > 0 && c.header.FrameBytes() == |p.head| + p.area
  {
    hide MainCode, SideInfoCode, ListCode, SoundFrame;
  }

  lemma WalkStep(s: seq<Byte>, h: Header, bits: seq<bool>, mdBegin: nat, rest: seq<Byte>)
    requires ReadHeader(BytesBits(s)) == Done((h, 0), bits) && h.rate > 0
    requires var q := ReadSideInfo(Channels(h), bits); q.Done? && q.value.mdBegin == mdBegin
    requires HeadBytes(Channels(h)) <= h.FrameBytes() <= |s| && rest == s[h.FrameBytes()..]
    requires Walk(rest).Some? && s != []
    ensures Walk(s) == Some([Sighting(h, mdBegin)] + Walk(rest).value)
  {
    hide ReadHeader, ReadSideInfo;
  }

  /** Walking over a run shows its frames, whether their main data can be found or not. */
  lemma {:induction false} WalkRun(ps: seq<Part>, cs: seq<Contents>, hs: nat, k: nat, rest: seq<Byte>)
    requires Encodes(ps, cs, hs) && hs > 0 && k <= |ps| && Walk(rest).Some?
    ensures |Flushed(After(ps, hs))| == |ps|
    ensures Walk(Join(Flushed(After(ps, hs))[k..]) + rest) == Some(SightingsFrom(cs, k) + Walk(rest).value)
    decreases |ps| - k
  {
    hide Carries, MainStream, Flushed, WellFed, Walk, Join, After;
    EncodesFed(ps, cs, hs);
    FrameShapes(ps, hs);
    var frames := Flushed(After(ps, hs));
    if k == |ps| {
      assert frames[k..] == [];
      NoneJoined(rest);
      assert SightingsFrom(cs, k) + Walk(rest).value == Walk(rest).value;
    } else {
      WalkRun(ps, cs, hs, k + 1, rest);
      HeadSizes(ps, hs, k);
      JoinFrom(frames, k, rest);
      CarriedHere(ps, cs, hs, k);
      WalkOne(ps[k], cs[k], frames[k], Join(frames[k + 1..]) + rest);
      SightingNext(cs, k, Walk(rest).value);
    }
  }

  lemma SightingNext(cs: seq<Contents>, k: nat, tail: seq<Sighting>)
    requires k < |cs|
    ensures [Sighting(cs[k].header, cs[k].side.mdBegin)] + (SightingsFrom(cs, k + 1) + tail)
            == SightingsFrom(cs, k) + tail
  {
  }

  lemma CarriedHere(ps: seq<Part>, cs: seq<Contents>, hs: nat, k: nat)
    requires Encodes(ps, cs, hs) && k < |ps|
    ensures Carries(ps[k], cs[k])
  {
    hide Carries, WellFed;
  }

  /** Frames k on of a run decode, whatever main data came before the run and whatever stream follows. */
  lemma {:induction false} DecodeFrom(ps: seq<Part>, cs: seq<Contents>, hs: nat, k: nat,
                                      before: seq<Byte>, rest: seq<Byte>, tail: seq<Decoded>)
    requires Encodes(ps, cs, hs) && hs > 0 && Snug(ps, hs) && k <= |ps|
    requires DecodeStream(rest, before + MainStream(Flushed(After(ps, hs)), hs)) == Some(tail)
    ensures forall j :: 0 <= j < |cs| ==> cs[j].Valid()
    ensures var frames := Flushed(After(ps, hs));
            && |frames| == |ps|
            && DecodeStream(Join(frames[k..]) + rest, before + MainStream(frames[..k], hs))
               == Some(ExpectedFrom(cs, k) + tail)
    decreases |ps| - k
  {
    hide Carries, MainStream, Flushed, WellFed, ReadFrame, DecodeStream, Snug, Join, Contents.Valid, Contents.Expected;
    AllValid(ps, cs, hs);
    RunTidy(ps, hs);
    var frames := Flushed(After(ps, hs));
    if k == |ps| {
      assert frames[..k] == frames && frames[k..] == [];
      NoneJoined(rest);
      assert ExpectedFrom(cs, k) + tail == tail;
    } else {
      DecodeFrom(ps, cs, hs, k + 1, before, rest, tail);
      ReachedHere(ps, hs, k);
      MainWithinReach(ps, hs, k);
      HeadSizes(ps, hs, k);
      StreamStep(frames, hs, k);
      var f, acc, more := frames[k], MainStream(frames[..k], hs), Join(frames[k + 1..]) + rest;
      JoinFrom(frames, k, rest);
      SameWindow(before, acc, f[hs..], cs[k].side.mdBegin);
      DecodeStep(ps[k], cs[k], f, more, before + acc);
      ExpectedNext(cs, k, tail);
    }
  }

  lemma ReachedHere(ps: seq<Part>, hs: nat, k: nat)
    requires WellFed(ps, hs) && Snug(ps, hs) && k < |ps|
    ensures Reached(ps, hs, k)
  {
  }

  lemma ExpectedNext(cs: seq<Contents>, k: nat, tail: seq<Decoded>)
    requires k < |cs| && forall j :: 0 <= j < |cs| ==> cs[j].Valid()
    ensures [cs[k].Expected()] + (ExpectedFrom(cs, k + 1) + tail) == ExpectedFrom(cs, k) + tail
  {
    hide Contents.Valid, Contents.Expected;
  }

  lemma NoneJoined(rest: seq<Byte>)
    ensures Join([]) + rest == rest
  {
  }

  lemma JoinFrom(frames: seq<seq<Byte>>, k: nat, rest: seq<Byte>)
    requires k < |frames|
    ensures Join(frames[k..]) + rest == frames[k] + (Join(frames[k + 1..]) + rest)
  {
    assert frames[k..][1..] == frames[k + 1..];
  }

  lemma SameWindow(before: seq<Byte>, acc: seq<Byte>, area: seq<Byte>, back: nat)
    requires back <= |acc|
    ensures before + (acc + area) == before + acc + area
    ensures (before + acc + area)[|before + acc| - back..] == (acc + area)[|acc| - back..]
  {
  }

  lemma HeadSizes(ps: seq<Part>, hs: nat, k: nat)
    requires WellFed(ps, hs) && k < |ps|
    ensures |ps[k].head| == hs
  {
    FedPrefix(ps, hs, k + 1);
    assert ps[..k + 1][k] == ps[k];
  }

  lemma NothingLeft(acc: seq<Byte>)
    ensures DecodeStream([], acc) == Some([])
  {
  }

  /**
   * For every run whose frames' data are within reach, decoding the flushed output gives back every frame's
   * header, side information, received scalefactors and spectra.
   */
  lemma StreamRoundTrip(ps: seq<Part>, cs: seq<Contents>, hs: nat)
    requires Encodes(ps, cs, hs) && hs > 0 && Snug(ps, hs)
    ensures forall j :: 0 <= j < |cs| ==> cs[j].Valid()
    ensures DecodeStream(Join(Flushed(After(ps, hs))), []) == Some(ExpectedFrom(cs, 0))
  {
    hide *;
    EncodesFed(ps, cs, hs);
    NothingLeft([] + MainStream(Flushed(After(ps, hs)), hs));
    RunThenStream(ps, cs, hs, [], [], []);
    assert ExpectedFrom(cs, 0) + [] == ExpectedFrom(cs, 0);
    assert Join(Flushed(After(ps, hs))) + [] == Join(Flushed(After(ps, hs)));
  }

  /** A run decodes in the middle of a stream: its back pointers never reach before it. */
  lemma RunThenStream(ps: seq<Part>, cs: seq<Contents>, hs: nat, before: seq<Byte>, rest: seq<Byte>, tail: seq<Decoded>)
    requires Encodes(ps, cs, hs) && hs > 0 && Snug(ps, hs)
    requires DecodeStream(rest, before + MainStream(Flushed(After(ps, hs)), hs)) == Some(tail)
    ensures forall j :: 0 <= j < |cs| ==> cs[j].Valid()
    ensures DecodeStream(Join(Flushed(After(ps, hs))) + rest, before) == Some(ExpectedFrom(cs, 0) + tail)
  {
    hide Carries, DecodeStream, WellFed, Snug, Flushed;
    DecodeFrom(ps, cs, hs, 0, before, rest, tail);
    var frames := Flushed(After(ps, hs));
    assert frames[0..] == frames && frames[..0] == [];
    NoStream(hs);
    assert before + [] == before;
  }
}
