/**
 * The bit reservoir of mp3/mp3enc.h: output is delayed by one frame so that the next frame's main data
 * can start in the unused tail of the pending one (section 2.4.2.7 of ISO 11172-3).
 */
module Reservoir {
  import opened Bits

  /** Largest back pointer: main_data_begin has 9 bits. */
  const MAX_BACK: nat := 511

  /** An encoded frame before splicing: header and side information, main data, size of its main-data area. */
  datatype Part = Part(head: seq<Byte>, main: seq<Byte>, area: nat)

  /** Frames already output, and the pending frame with the end of its main data; [] when there is none. */
  datatype State = State(frames: seq<seq<Byte>>, pending: seq<Byte>, mdEnd: nat) {

    /** Bytes of the pending frame that hold no main data. */
    function Free(): nat
      requires mdEnd <= |pending|
    {
      |pending| - mdEnd
    }

    /** What the next frame borrows, and announces as main_data_begin. */
    function Backlog(): (n: nat)
      ensures n <= MAX_BACK
    {
      if pending == [] || mdEnd >= |pending| then 0
      else if |pending| - mdEnd > MAX_BACK then MAX_BACK else |pending| - mdEnd
    }
  }

  function ZeroBytes(n: nat): (z: seq<Byte>)
    ensures |z| == n && forall k :: 0 <= k < n ==> z[k] == 0
  {
    seq(n, _ => 0)
  }

  function Overwrite(s: seq<Byte>, at: nat, d: seq<Byte>): (r: seq<Byte>)
    requires at + |d| <= |s|
    ensures |r| == |s|
  {
    s[..at] + d + s[at + |d|..]
  }

  /** The main data that still fits into the pending frame, and the rest. */
  function Borrowed(p: Part, back: nat): seq<Byte>
  {
    if |p.main| < back then p.main else p.main[..back]
  }

  function OwnPart(p: Part, back: nat): seq<Byte>
  {
    if |p.main| < back then [] else p.main[back..]
  }

  /** Tail end of mp3enc_encode_frame: finish and output the pending frame, keep the new one pending. */
  function Accept(s: State, p: Part): (t: State)
    requires s.mdEnd <= |s.pending| && |p.main| <= s.Backlog() + p.area
    ensures t.mdEnd <= |t.pending|
  {
    var back := s.Backlog();
    var own := OwnPart(p, back);
    State(s.frames + if s.pending == [] then [] else [Overwrite(s.pending, s.mdEnd, Borrowed(p, back))],
          p.head + own + ZeroBytes(p.area - |own|), |p.head| + |own|)
  }

  const START: State := State([], [], 0)

  /** Every part fits the area it has plus what it may borrow when it arrives. */
  predicate WellFed(ps: seq<Part>, hs: nat)
    decreases |ps|, 0
  {
    ps == [] ||
    (var n := |ps| - 1;
     WellFed(ps[..n], hs) && |ps[n].head| == hs && |ps[n].main| <= After(ps[..n], hs).Backlog() + ps[n].area)
  }

  /** The state after a run of frames. */
  function After(ps: seq<Part>, hs: nat): (s: State)
    requires WellFed(ps, hs)
    ensures s.mdEnd <= |s.pending|
    decreases |ps|, 1
  {
    if ps == [] then START else Accept(After(ps[..|ps| - 1], hs), ps[|ps| - 1])
  }

  lemma {:induction false} FedPrefix(ps: seq<Part>, hs: nat, k: nat)
    requires WellFed(ps, hs) && k <= |ps|
    ensures WellFed(ps[..k], hs)
  {
    if k < |ps| {
      assert ps[..|ps| - 1][..k] == ps[..k];
      FedPrefix(ps[..|ps| - 1], hs, k);
    } else {
      assert ps[..k] == ps;
    }
  }

  /** All bytes output once the run is flushed. */
  function Flushed(s: State): seq<seq<Byte>>
  {
    s.frames + if s.pending == [] then [] else [s.pending]
  }

  /** The main-data areas of a sequence of frames, joined: what main_data_begin points back into. */
  function MainStream(frames: seq<seq<Byte>>, hs: nat): seq<Byte>
  {
    if frames == [] then []
    else
      var f := frames[|frames| - 1];
      MainStream(frames[..|frames| - 1], hs) + if |f| < hs then [] else f[hs..]
  }

  lemma {:induction false} MainStreamConcat(a: seq<seq<Byte>>, b: seq<seq<Byte>>, hs: nat)
    ensures MainStream(a + b, hs) == MainStream(a, hs) + MainStream(b, hs)
  {
    if b == [] {
      assert a + b == a;
    } else {
      assert (a + b)[..|a + b| - 1] == a + b[..|b| - 1];
      MainStreamConcat(a, b[..|b| - 1], hs);
    }
  }

  lemma MainStreamOne(f: seq<Byte>, hs: nat)
    requires |f| >= hs
    ensures MainStream([f], hs) == f[hs..]
  {
    assert [f][..0] == [];
  }

  /** Bytes of the joined areas used so far. */
  function Used(s: State, hs: nat): int
    requires s.mdEnd <= |s.pending|
  {
    |MainStream(Flushed(s), hs)| - s.Free()
  }

  /** Between frames: the pending frame is a whole frame whose free tail is blank. */
  ghost predicate Tidy(s: State, hs: nat)
  {
    && s.mdEnd <= |s.pending|
    && (s.pending == [] ==> s.frames == [])
    && (s.pending != [] ==> hs <= s.mdEnd)
    && forall k :: s.mdEnd <= k < |s.pending| ==> s.pending[k] == 0
  }

  lemma AcceptTidy(s: State, p: Part, hs: nat)
    requires Tidy(s, hs) && |p.head| == hs > 0 && |p.main| <= s.Backlog() + p.area
    ensures Tidy(Accept(s, p), hs) && Accept(s, p).pending != []
    ensures |Flushed(Accept(s, p))| == |Flushed(s)| + 1
  {
  }

  lemma FlushedStream(s: State, hs: nat)
    requires |s.pending| >= hs || s.pending == []
    ensures MainStream(Flushed(s), hs)
            == MainStream(s.frames, hs) + if s.pending == [] then [] else s.pending[hs..]
  {
    if s.pending == [] {
      assert Flushed(s) == s.frames;
    } else {
      MainStreamConcat(s.frames, [s.pending], hs);
      MainStreamOne(s.pending, hs);
    }
  }

  lemma AcceptStream(s: State, p: Part, hs: nat)
    requires Tidy(s, hs) && |p.head| == hs > 0 && |p.main| <= s.Backlog() + p.area
    ensures var own := OwnPart(p, s.Backlog());
            var own' := own + ZeroBytes(p.area - |own|);
            MainStream(Flushed(Accept(s, p)), hs)
            == MainStream(s.frames, hs)
               + (if s.pending == [] then [] else Overwrite(s.pending, s.mdEnd, Borrowed(p, s.Backlog()))[hs..])
               + own'
  {
    var t := Accept(s, p);
    FlushedStream(t, hs);
    var own := OwnPart(p, s.Backlog());
    assert t.pending[hs..] == own + ZeroBytes(p.area - |own|);
    if s.pending == [] {
      assert t.frames == s.frames;
    } else {
      var done := Overwrite(s.pending, s.mdEnd, Borrowed(p, s.Backlog()));
      MainStreamConcat(s.frames, [done], hs);
      MainStreamOne(done, hs);
    }
  }

  /**
   * m' is m grown by an area: one part of the data went to the blank tail behind the used bytes, the other to
   * the start of the new area, and everything behind either is blank.
   */
  ghost predicate Placed(m: seq<Byte>, m': seq<Byte>, used: int, b: seq<Byte>, own: seq<Byte>, area: nat, used': int)
  {
    && 0 <= used && used + |b| <= |m| && |own| <= area && |m'| == |m| + area
    && m'[..used] == m[..used]
    && m'[used..used + |b|] == b
    && (forall i :: used + |b| <= i < |m| ==> m'[i] == 0)
    && m'[|m|..|m| + |own|] == own
    && used' == |m| + |own|
  }

  /** What one frame does to the joined areas, however long the pending frame's free tail. */
  lemma AcceptPlaces(s: State, p: Part, hs: nat)
    requires Tidy(s, hs) && |p.head| == hs > 0 && |p.main| <= s.Backlog() + p.area
    ensures Placed(MainStream(Flushed(s), hs), MainStream(Flushed(Accept(s, p)), hs), Used(s, hs),
                   Borrowed(p, s.Backlog()), OwnPart(p, s.Backlog()), p.area, Used(Accept(s, p), hs))
  {
    hide MainStream;
    FlushedStream(s, hs);
    AcceptStream(s, p, hs);
    var b, own := Borrowed(p, s.Backlog()), OwnPart(p, s.Backlog());
    var tail := own + ZeroBytes(p.area - |own|);
    var base := MainStream(s.frames, hs);
    NoStream(hs);
    if s.pending != [] {
      SplicedAt(base, s.pending, s.mdEnd, hs, b, tail);
    }
    assert tail[..|own|] == own;
  }

  lemma SplicedAt(base: seq<Byte>, pending: seq<Byte>, mdEnd: nat, hs: nat, b: seq<Byte>, tail: seq<Byte>)
    requires hs <= mdEnd && mdEnd + |b| <= |pending| && forall k :: mdEnd <= k < |pending| ==> pending[k] == 0
    ensures var m := base + pending[hs..];
            var used := |base| + mdEnd - hs;
            var m' := base + Overwrite(pending, mdEnd, b)[hs..] + tail;
            && m'[..used] == m[..used]
            && m'[used..used + |b|] == b
            && (forall i :: used + |b| <= i < |m| ==> m'[i] == 0)
            && m'[|m|..] == tail
  {
    var m, used := base + pending[hs..], |base| + mdEnd - hs;
    var done := Overwrite(pending, mdEnd, b);
    assert done[hs..] == pending[hs..mdEnd] + b + pending[mdEnd + |b|..];
    assert base + done[hs..] + tail == base + pending[hs..mdEnd] + b + pending[mdEnd + |b|..] + tail;
    assert m[..used] == base + pending[hs..mdEnd];
  }

  lemma NoStream(hs: nat)
    ensures MainStream([], hs) == []
  {
  }

  /** Where a decoder looks for the main data of the next frame, and whether it is there. */
  ghost predicate Found(s: State, p: Part, hs: nat)
    requires s.mdEnd <= |s.pending| && |p.main| <= s.Backlog() + p.area
  {
    var m' := MainStream(Flushed(Accept(s, p)), hs);
    var from := |MainStream(Flushed(s), hs)| - s.Backlog();
    0 <= from && from + |p.main| <= |m'| && m'[from..from + |p.main|] == p.main
  }

  ghost predicate Blank(d: seq<Byte>) { forall i :: 0 <= i < |d| ==> d[i] == 0 }

  /** Data equal to itself shifted, with zeros moved in, are zeros. */
  lemma {:induction false} ShiftedBlank(b: seq<Byte>, d: nat, k: nat)
    requires d > 0 && k < |b| && forall i :: 0 <= i < |b| ==> b[i] == Shifted(b, d, i)
    ensures b[k] == 0
    decreases |b| - k
  {
    assert b[k] == Shifted(b, d, k);
    if k + d < |b| {
      ShiftedBlank(b, d, k + d);
    }
  }

  /** Data placed behind the used bytes are found back bytes before the new area if that is where they are, or blank. */
  lemma PlacedFound(m: seq<Byte>, m': seq<Byte>, used: int, b: seq<Byte>, own: seq<Byte>, area: nat, used': int,
                    back: nat)
    requires Placed(m, m', used, b, own, area, used')
    requires |b| <= back <= |m| - used && (own != [] ==> |b| == back)
    ensures m'[|m| - back..|m| - back + |b| + |own|] == b + own <==> back == |m| - used || Blank(b)
  {
    var from := |m| - back;
    ShiftedFound(m', used, |m| - used - back, |m|, b);
    assert own != [] ==> from + |b| == |m|;
    assert m'[from + |b|..from + |b| + |own|] == own;
    assert m'[from..from + |b| + |own|] == m'[from..from + |b|] + m'[from + |b|..from + |b| + |own|];
    assert (b + own)[..|b|] == b;
  }

  lemma ShiftedFound(m: seq<Byte>, used: nat, d: nat, end: nat, b: seq<Byte>)
    requires used + d + |b| <= end <= |m| && m[used..used + |b|] == b
    requires forall i :: used + |b| <= i < end ==> m[i] == 0
    ensures m[used + d..used + d + |b|] == b <==> d == 0 || Blank(b)
  {
    var got := m[used + d..used + d + |b|];
    forall i | 0 <= i < |b|
      ensures got[i] == Shifted(b, d, i)
    {
      ShiftedAt(m, used, d, end, b, i);
    }
    if d == 0 {
      assert got == m[used..used + |b|];
    } else {
      AllShifted(got, b, d);
    }
  }

  /** The i-th byte of b shifted by d, zeros moved in. */
  function Shifted(b: seq<Byte>, d: nat, i: nat): Byte { if i + d < |b| then b[i + d] else 0 }

  lemma ShiftedAt(m: seq<Byte>, used: nat, d: nat, end: nat, b: seq<Byte>, i: nat)
    requires used + d + |b| <= end <= |m| && m[used..used + |b|] == b && i < |b|
    requires forall i :: used + |b| <= i < end ==> m[i] == 0
    ensures m[used + d + i] == Shifted(b, d, i)
  {
    if i + d < |b| {
      assert m[used..used + |b|][i + d] == m[used + (i + d)];
    }
  }

  lemma AllShifted(got: seq<Byte>, b: seq<Byte>, d: nat)
    requires d > 0 && |got| == |b| && forall i :: 0 <= i < |b| ==> got[i] == Shifted(b, d, i)
    ensures got == b <==> Blank(b)
  {
    if got == b {
      forall i | 0 <= i < |b| ensures b[i] == 0 { ShiftedBlank(b, d, i); }
    }
  }

  /**
   * The back pointer finds the main data exactly when the pending frame's free tail is at most 511 bytes, or
   * what went into the tail is blank: beyond 511 the data still go to the start of the tail, but the pointer
   * is cut.
   */
  lemma FoundExactly(s: State, p: Part, hs: nat)
    requires Tidy(s, hs) && |p.head| == hs > 0 && |p.main| <= s.Backlog() + p.area
    ensures Found(s, p, hs) <==> s.Free() <= 511 || Blank(Borrowed(p, 511))
  {
    hide MainStream, Accept;
    AcceptPlaces(s, p, hs);
    FlushedStream(s, hs);
    var m, m' := MainStream(Flushed(s), hs), MainStream(Flushed(Accept(s, p)), hs);
    var back := s.Backlog();
    var b, own := Borrowed(p, back), OwnPart(p, back);
    assert p.main == b + own;
    PlacedFound(m, m', Used(s, hs), b, own, p.area, Used(Accept(s, p), hs), back);
  }

  /** Sum of the main-data areas of the first k frames. */
  function AreaEnd(ps: seq<Part>, k: nat): nat
    requires k <= |ps|
  {
    if k == 0 then 0 else AreaEnd(ps, k - 1) + ps[k - 1].area
  }

  predicate Narrow(ps: seq<Part>)
  {
    forall k :: 0 <= k < |ps| ==> ps[k].area <= 511
  }

  /** What holds between frames of every run. */
  lemma {:induction false} RunTidy(ps: seq<Part>, hs: nat)
    requires WellFed(ps, hs) && hs > 0
    ensures Tidy(After(ps, hs), hs)
    ensures |Flushed(After(ps, hs))| == |ps|
    ensures |MainStream(Flushed(After(ps, hs)), hs)| == AreaEnd(ps, |ps|)
    ensures Narrow(ps) ==> After(ps, hs).Free() <= 511
    ensures ps != [] ==> After(ps, hs).pending != []
  {
    hide MainStream;
    if ps == [] {
      NoStream(hs);
    } else {
      var q, p := ps[..|ps| - 1], ps[|ps| - 1];
      RunTidy(q, hs);
      var s := After(q, hs);
      AcceptTidy(s, p, hs);
      FlushedStream(s, hs);
      AcceptStream(s, p, hs);
      AreaEndPrefix(ps, q, |q|);
      if s.pending == [] {
        NoStream(hs);
      }
    }
  }

  /** Frame k's data are within reach of its back pointer: its tail is short enough, or got only zeros. */
  ghost predicate Reached(ps: seq<Part>, hs: nat, k: nat)
    requires WellFed(ps, hs) && k < |ps|
  {
    FedPrefix(ps, hs, k);
    After(ps[..k], hs).Free() <= 511 || Blank(Borrowed(ps[k], 511))
  }

  ghost predicate Snug(ps: seq<Part>, hs: nat)
    requires WellFed(ps, hs)
  {
    forall k: nat :: k < |ps| ==> Reached(ps, hs, k)
  }

  /** Areas of at most 511 bytes are enough. */
  lemma NarrowSnug(ps: seq<Part>, hs: nat)
    requires WellFed(ps, hs) && hs > 0 && Narrow(ps)
    ensures Snug(ps, hs)
  {
    hide WellFed, After;
    forall k: nat | k < |ps|
      ensures Reached(ps, hs, k)
    {
      FedPrefix(ps, hs, k);
      RunTidy(ps[..k], hs);
    }
  }

  lemma {:induction false} AreaEndPrefix(ps: seq<Part>, q: seq<Part>, k: nat)
    requires k <= |q| && q <= ps
    ensures AreaEnd(ps, k) == AreaEnd(q, k)
  {
    if k > 0 {
      AreaEndPrefix(ps, q, k - 1);
    }
  }

  /** Start of frame k's main data in the joined areas: main_data_begin before the frame's own area. */
  function DataStart(ps: seq<Part>, hs: nat, k: nat): int
    requires WellFed(ps, hs) && k < |ps|
  {
    FedPrefix(ps, hs, k);
    AreaEnd(ps, k) - After(ps[..k], hs).Backlog()
  }

  /** What the last frame of a run does to the joined areas. */
  lemma LastStep(ps: seq<Part>, hs: nat)
    requires WellFed(ps, hs) && hs > 0 && ps != []
    ensures var q, p := ps[..|ps| - 1], ps[|ps| - 1];
            && WellFed(q, hs)
            && |MainStream(Flushed(After(q, hs)), hs)| == AreaEnd(ps, |q|)
            && var back := After(q, hs).Backlog();
            Placed(MainStream(Flushed(After(q, hs)), hs), MainStream(Flushed(After(ps, hs)), hs),
                   Used(After(q, hs), hs), Borrowed(p, back), OwnPart(p, back), p.area, Used(After(ps, hs), hs))
  {
    hide MainStream, Accept, Placed;
    var q, p := ps[..|ps| - 1], ps[|ps| - 1];
    RunTidy(q, hs);
    AreaEndPrefix(ps, q, |q|);
    AcceptPlaces(After(q, hs), p, hs);
  }

  /** The bytes used by the first k frames never change again. */
  lemma {:induction false} RunKept(ps: seq<Part>, hs: nat, k: nat)
    requires WellFed(ps, hs) && hs > 0 && k <= |ps|
    ensures WellFed(ps[..k], hs)
    ensures var m, m' := MainStream(Flushed(After(ps[..k], hs)), hs), MainStream(Flushed(After(ps, hs)), hs);
            var used, used' := Used(After(ps[..k], hs), hs), Used(After(ps, hs), hs);
            0 <= used <= used' <= |m'| && used <= |m| && m'[..used] == m[..used]
    decreases |ps|
  {
    hide MainStream, Accept, WellFed, After;
    FedPrefix(ps, hs, k);
    if k == |ps| {
      assert ps[..k] == ps;
      RunTidy(ps, hs);
      if ps != [] { LastStep(ps, hs); } else { NothingUsed(hs); }
    } else {
      var q := ps[..|ps| - 1];
      FedPrefix(ps, hs, |q|);
      assert q[..k] == ps[..k];
      RunKept(q, hs, k);
      LastStep(ps, hs);
      var used := Used(After(ps[..k], hs), hs);
      var m, m', m'' := MainStream(Flushed(After(ps[..k], hs)), hs), MainStream(Flushed(After(q, hs)), hs),
                        MainStream(Flushed(After(ps, hs)), hs);
      SameBelow(m', m'', Used(After(q, hs), hs), 0, used);
      assert m''[0..used] == m'[0..used] == m'[..used];
    }
  }

  lemma NothingUsed(hs: nat)
    ensures WellFed([], hs) && Used(After([], hs), hs) == 0
  {
  }

  lemma SameBelow(a: seq<Byte>, b: seq<Byte>, used: nat, i: nat, j: nat)
    requires i <= j <= used <= |a| && used <= |b| && a[..used] == b[..used]
    ensures a[i..j] == b[i..j]
  {
    assert a[i..j] == a[..used][i..j] && b[i..j] == b[..used][i..j];
  }

  /** Frame k's main data, as its back pointer places them, lie within what the first k + 1 frames use. */
  lemma DataWithin(ps: seq<Part>, hs: nat, k: nat)
    requires WellFed(ps, hs) && hs > 0 && k < |ps|
    ensures WellFed(ps[..k + 1], hs)
    ensures 0 <= DataStart(ps, hs, k)
    ensures Used(After(ps[..k + 1], hs), hs) >= DataStart(ps, hs, k) + |ps[k].main|
    ensures Used(After(ps[..k + 1], hs), hs) <= AreaEnd(ps, k + 1)
    ensures |MainStream(Flushed(After(ps[..k + 1], hs)), hs)| == AreaEnd(ps, k + 1)
  {
    hide MainStream, Accept, WellFed, After;
    FedPrefix(ps, hs, k);
    FedPrefix(ps, hs, k + 1);
    var r := ps[..k + 1];
    assert r[..k] == ps[..k];
    LastStep(r, hs);
    RunTidy(r, hs);
    RunTidy(ps[..k], hs);
    AreaEndPrefix(ps, r, k);
    AreaEndPrefix(ps, r, k + 1);
    FlushedStream(After(ps[..k], hs), hs);
  }

  /** Frame k's main data is where its back pointer says, in the finished run. */
  ghost predicate FoundInRun(ps: seq<Part>, hs: nat, k: nat)
    requires WellFed(ps, hs) && k < |ps|
  {
    var m, from := MainStream(Flushed(After(ps, hs)), hs), DataStart(ps, hs, k);
    0 <= from && from + |ps[k].main| <= |m| && m[from..from + |ps[k].main|] == ps[k].main
  }

  /**
   * In every run, whatever the other frames are, the bytes found main_data_begin back from frame k's area are
   * exactly its main data if and only if the free tail it met was at most 511 bytes long, or the data that
   * went into that tail are all zero.
   */
  lemma RunFound(ps: seq<Part>, hs: nat, k: nat)
    requires WellFed(ps, hs) && hs > 0 && k < |ps|
    ensures FoundInRun(ps, hs, k) <==> Reached(ps, hs, k)
  {
    hide MainStream, Accept, WellFed, After;
    FedPrefix(ps, hs, k);
    FedPrefix(ps, hs, k + 1);
    DataWithin(ps, hs, k);
    RunKept(ps, hs, k + 1);
    RunTidy(ps[..k], hs);
    AreaEndPrefix(ps, ps[..k], k);
    FoundThere(ps, hs, k);
    var m, m' := MainStream(Flushed(After(ps[..k + 1], hs)), hs), MainStream(Flushed(After(ps, hs)), hs);
    var from := DataStart(ps, hs, k);
    SameBelow(m, m', Used(After(ps[..k + 1], hs), hs), from, from + |ps[k].main|);
  }

  lemma FoundThere(ps: seq<Part>, hs: nat, k: nat)
    requires WellFed(ps, hs) && hs > 0 && k < |ps|
    ensures WellFed(ps[..k], hs) && WellFed(ps[..k + 1], hs)
            && |ps[k].main| <= After(ps[..k], hs).Backlog() + ps[k].area
    ensures After(ps[..k + 1], hs) == Accept(After(ps[..k], hs), ps[k])
    ensures Found(After(ps[..k], hs), ps[k], hs) <==> Reached(ps, hs, k)
  {
    hide MainStream, Accept, Found;
    FedPrefix(ps, hs, k);
    FedPrefix(ps, hs, k + 1);
    assert ps[..k + 1][..k] == ps[..k];
    RunTidy(ps[..k], hs);
    FoundExactly(After(ps[..k], hs), ps[k], hs);
  }

  /** A decoder finds every frame of a run exactly if every frame's data are within reach. */
  lemma RunFoundExactly(ps: seq<Part>, hs: nat)
    requires WellFed(ps, hs) && hs > 0
    ensures (forall k: nat :: k < |ps| ==> FoundInRun(ps, hs, k)) <==> Snug(ps, hs)
  {
    hide FoundInRun, Reached, WellFed;
    forall k: nat | k < |ps|
      ensures FoundInRun(ps, hs, k) <==> Reached(ps, hs, k)
    {
      RunFound(ps, hs, k);
    }
  }

  /** At 192 kbit/s, an empty frame and then one with a byte: the decoder reads a zero instead of the byte. */
  lemma LongTailLosesData(head: seq<Byte>)
    requires |head| == 36
    ensures var ps := [Part(head, [], 590), Part(head, [1], 590)];
            WellFed(ps, 36) && !FoundInRun(ps, 36, 1)
  {
    hide MainStream;
    var e, p := Part(head, [], 590), Part(head, [1], 590);
    var ps := [e, p];
    assert ps[..1] == [e] && ps[..1][..0] == [];
    assert WellFed([e], 36) && After([e], 36) == Accept(START, e);
    assert After([e], 36).Free() == 590;
    assert Borrowed(p, 511)[0] == 1;
    RunFound(ps, 36, 1);
  }

  /** Where the back pointers place successive frames' main data never overlaps. */
  lemma RunDisjoint(ps: seq<Part>, hs: nat, j: nat, k: nat)
    requires WellFed(ps, hs) && hs > 0 && j < k < |ps|
    ensures DataStart(ps, hs, j) + |ps[j].main| <= DataStart(ps, hs, k)
  {
    hide MainStream, WellFed, After;
    FedPrefix(ps, hs, k);
    var q := ps[..k];
    FedPrefix(q, hs, j);
    FedPrefix(q, hs, j + 1);
    assert q[..j] == ps[..j] && q[..j + 1] == ps[..j + 1];
    DataWithin(q, hs, j);
    AreaEndPrefix(ps, q, j);
    AreaEndPrefix(ps, q, k);
    RunKept(q, hs, j + 1);
    RunTidy(q, hs);
  }

  /** Every output frame is its own header and side information followed by its area. */
  lemma {:induction false} RunFrame(ps: seq<Part>, hs: nat, k: nat)
    requires WellFed(ps, hs) && hs > 0 && k < |ps|
    ensures |Flushed(After(ps, hs))| == |ps|
    ensures var f := Flushed(After(ps, hs))[k];
            |f| == hs + ps[k].area && f[..hs] == ps[k].head
  {
    hide Accept, Tidy;
    var n := |ps| - 1;
    var q, p := ps[..n], ps[n];
    RunTidy(q, hs);
    RunTidy(ps, hs);
    var s := After(q, hs);
    AcceptedFrame(s, p, hs);
    if k < n {
      RunFrame(q, hs, k);
      assert q[k] == ps[k];
    }
  }

  /** Accepting a frame keeps every earlier frame's size and head, and puts the new one last. */
  lemma AcceptedFrame(s: State, p: Part, hs: nat)
    requires Tidy(s, hs) && |p.head| == hs && |p.main| <= s.Backlog() + p.area
    ensures var t, fs := Accept(s, p), Flushed(s);
            var gs := Flushed(t);
            && (hs > 0 ==> |gs| == |fs| + 1)
            && (forall k :: 0 <= k < |fs| && |gs| == |fs| + 1 && |fs[k]| >= hs ==>
                 |gs[k]| == |fs[k]| && gs[k][..hs] == fs[k][..hs])
            && (hs > 0 ==> |gs[|fs|]| == hs + p.area && gs[|fs|][..hs] == p.head)
  {
    var back := s.Backlog();
    if s.pending != [] {
      var done := Overwrite(s.pending, s.mdEnd, Borrowed(p, back));
      assert done[..hs] == s.pending[..hs];
    }
  }
}
