/**
 * How the pipelines use the store: every acquire and release of src/pipeline-synth-ops.cpp,
 * src/pipeline-synth.cpp and src/pipeline-understand.cpp, on all return paths. Whether a module loads and a
 * stage succeeds is arbitrary, so the results hold for every outcome of every stage.
 */
module Pipelines {
  import opened ModelStore

  datatype Keys = Keys(lm: ModelKey, textEnc: ModelKey, condEnc: ModelKey, dit: ModelKey, vaeEnc: ModelKey,
                       vaeDec: ModelKey, fsqTok: ModelKey, fsqDetok: ModelKey)

  /** An input may come as audio, as latents, as both or not at all. */
  datatype Media = Media(audio: bool, latents: bool) {
    predicate Present() { audio || latents }

    /** Latents win when both are given. */
    predicate NeedsEncoder() { audio && !latents }
  }

  /** Which modules load when they are not resident, by where they are asked for. */
  datatype Loads = Loads(pin: bool, src: bool, ref: bool, tok: bool, detok: bool, text: bool, cond: bool, codes: bool,
                         dit: bool, vae: bool, lm: bool) {

    predicate All() { pin && src && ref && tok && detok && text && cond && codes && dit && vae && lm }
  }

  /** Whatever may fail in one call: loading modules, and what is computed with them or checked before. */
  datatype Luck = Luck(loads: Loads, srcEncoded: bool, tokenized: bool, fits: bool, textReady: bool, textEncoded: bool,
                       condEncoded: bool, codesDecoded: bool, generated: bool, decoded: bool, inOrder: bool,
                       silence: bool, lmReady: bool)

  /** Nothing but this module may be in the way. */
  ghost predicate Room(s: Store, k: ModelKey)
    reads s
  {
    s.Valid() && (s.strict ==> s.gpu.Keys <= {Norm(k)})
  }

  ghost predicate Idle(s: Store)
    reads s
  {
    s.Valid() && (s.strict ==> s.gpu == map[])
  }

  /** The store is as it was: same handles outstanding; STRICT holds the same, NEVER at least the same. */
  ghost predicate Restored(s: Store, gpu: Table, outstanding: multiset<nat>)
    reads s
  {
    s.Valid() && s.outstanding == outstanding && Keeps(s.strict, gpu, s.gpu)
  }

  /** STRICT holds the same modules, NEVER at least the same, each under its handle. */
  ghost predicate Keeps(strict: bool, a: Table, b: Table)
  {
    (strict ==> a == b) && forall k :: k in a ==> k in b && b[k].ptr == a[k].ptr
  }

  lemma KeepsSame(strict: bool, a: Table)
    ensures Keeps(strict, a, a)
  {
  }

  lemma KeepsOn(strict: bool, a: Table, b: Table, c: Table)
    requires Keeps(strict, a, b) && Keeps(strict, b, c)
    ensures Keeps(strict, a, c)
  {
  }

  /** Everything acquired was released, and nothing was aborted. */
  twostate predicate Balanced(s: Store)
    reads s
  {
    Restored(s, old(s.gpu), old(s.outstanding)) && s.aborted == old(s.aborted)
  }

  /** One module is held on top of an earlier state of the store. */
  ghost predicate Held(s: Store, guard: ModelHandle, k: ModelKey, gpu: Table, outstanding: multiset<nat>)
    reads s, guard
  {
    && Room(s, k) && guard.store == s && guard.ptr != 0
    && s.outstanding == outstanding + multiset{guard.ptr}
    && var n := Norm(k);
    && (s.strict ==> s.gpu == gpu[n := Entry(guard.ptr, (if n in gpu then gpu[n].refcount else 0) + 1)])
    && (s.strict && n in gpu ==> gpu[n].refcount > 0)
    && n in s.gpu && s.gpu[n].ptr == guard.ptr
    && (forall j :: j in gpu ==> j in s.gpu && s.gpu[j].ptr == gpu[j].ptr)
  }

  /** One module used alone. */
  function Visit(k: ModelKey): seq<Event> { [Took(Norm(k)), Gave(Norm(k))] }

  function VisitIf(c: bool, k: ModelKey): seq<Event> { if c then Visit(k) else [] }

  /** A guarded module: null when it did not load. */
  method Acquire(s: Store, k: ModelKey, loads: bool) returns (guard: ModelHandle?)
    requires Room(s, k)
    modifies s
    ensures s.aborted == old(s.aborted)
    ensures s.log == old(s.log) + [if guard == null then Missed(Norm(k)) else Took(Norm(k))]
    ensures guard == null <==> Norm(k) !in old(s.gpu) && !loads
    ensures guard == null ==> Balanced(s)
    ensures guard != null ==> fresh(guard) && Held(s, guard, k, old(s.gpu), old(s.outstanding))
  {
    hide Tables;
    var p := s.Require(k, loads);
    if p == 0 {
      return null;
    }
    guard := new ModelHandle(s, p);
  }

  /** The guard goes out of scope. */
  method Drop(s: Store, guard: ModelHandle, ghost k: ModelKey, ghost gpu: Table, ghost outstanding: multiset<nat>)
    requires Held(s, guard, k, gpu, outstanding)
    modifies s
    ensures s.aborted == old(s.aborted) && Restored(s, gpu, outstanding) && s.log == old(s.log) + [Gave(Norm(k))]
  {
    hide Tables;
    SlotOf(s.gpu, s.handleToKey, s.outstanding, Norm(k));
    guard.Close();
    if s.strict && Norm(k) !in gpu { assert s.gpu == gpu; }
    if s.strict && Norm(k) in gpu { assert s.gpu == gpu; }
  }

  /** What one use of a module leaves in the log. */
  function Use(k: ModelKey, got: bool): seq<Event> { if got then Visit(k) else [Missed(Norm(k))] }

  /** A single module in its own scope, for one computation. */
  method OneModule(s: Store, k: ModelKey, loads: bool, computed: bool) returns (ok: bool)
    requires Idle(s)
    modifies s
    ensures Idle(s) && Balanced(s)
    ensures var got := Norm(k) in old(s.gpu) || loads;
            (ok <==> got && computed) && s.log == old(s.log) + Use(k, got)
  {
    hide Tables;
    ghost var gpu, outstanding := s.gpu, s.outstanding;
    var guard := Acquire(s, k, loads);
    if guard == null {
      return false;
    }
    Drop(s, guard, k, gpu, outstanding);
    ok := computed;
  }

  /** ops_encode_src. */
  method EncodeSrc(s: Store, keys: Keys, src: Media, luck: Luck) returns (ok: bool)
    requires Room(s, keys.vaeEnc)
    modifies s
    ensures Balanced(s)
    ensures ok <==> (src.NeedsEncoder() ==>
                       (Norm(keys.vaeEnc) in old(s.gpu) || luck.loads.src) && luck.srcEncoded)
    ensures ok ==> s.log == old(s.log) + VisitIf(src.NeedsEncoder(), keys.vaeEnc)
  {
    hide Tables;
    ghost var gpu, outstanding := s.gpu, s.outstanding;
    if src.latents || !src.audio {
      return true;
    }
    var guard := Acquire(s, keys.vaeEnc, luck.loads.src);
    if guard == null {
      return false;
    }
    ok := luck.srcEncoded;
    Drop(s, guard, keys.vaeEnc, gpu, outstanding);
  }

  /** ops_encode_timbre. */
  method EncodeTimbre(s: Store, keys: Keys, ref: Media, luck: Luck)
    requires Room(s, keys.vaeEnc)
    modifies s
    ensures Balanced(s)
    ensures s.log == old(s.log) + VisitIf(ref.NeedsEncoder(), keys.vaeEnc)
            || (ref.NeedsEncoder() && Norm(keys.vaeEnc) !in old(s.gpu) && !luck.loads.ref
                && s.log == old(s.log) + [Missed(Norm(keys.vaeEnc))])
  {
    hide Tables;
    ghost var gpu, outstanding := s.gpu, s.outstanding;
    if ref.latents || !ref.audio {
      return;
    }
    var guard := Acquire(s, keys.vaeEnc, luck.loads.ref);
    if guard == null {
      return;
    }
    Drop(s, guard, keys.vaeEnc, gpu, outstanding);
  }

  /** Both encodes happen inside one use of the encoder. */
  function PinTrace(keys: Keys, src: Media, ref: Media): seq<Event>
  {
    if !src.audio && !ref.audio then []
    else
      [Took(Norm(keys.vaeEnc))] + VisitIf(src.NeedsEncoder(), keys.vaeEnc) + VisitIf(ref.NeedsEncoder(), keys.vaeEnc)
      + [Gave(Norm(keys.vaeEnc))]
  }

  /** Both encodes, while the encoder is held if one of them comes as audio. */
  method EncodeBoth(s: Store, keys: Keys, src: Media, ref: Media, luck: Luck) returns (ok: bool)
    requires Room(s, keys.vaeEnc) && (src.audio || ref.audio ==> Norm(keys.vaeEnc) in s.gpu)
    modifies s
    ensures Balanced(s)
    ensures ok <==> (src.NeedsEncoder() ==> luck.srcEncoded)
    ensures ok ==>
              s.log == old(s.log) + VisitIf(src.NeedsEncoder(), keys.vaeEnc) + VisitIf(ref.NeedsEncoder(), keys.vaeEnc)
  {
    hide Tables, VisitIf, Norm;
    if src.Present() {
      ok := EncodeSrc(s, keys, src, luck);
      if !ok {
        return;
      }
    } else {
      NoVisit(s.log, keys.vaeEnc);
    }
    EncodeTimbre(s, keys, ref, luck);
    ok := true;
  }

  lemma NoVisit(log: seq<Event>, k: ModelKey)
    ensures VisitIf(false, k) == [] && log + VisitIf(false, k) == log
  {
  }

  lemma Wrapped(log: seq<Event>, first: Event, a: seq<Event>, b: seq<Event>, last: Event)
    ensures log + [first] + a + b + [last] == log + ([first] + a + b + [last])
  {
  }

  /** pinned_encode_src_and_timbre: the VAE encoder is held across both encodes. */
  method PinnedEncode(s: Store, keys: Keys, src: Media, ref: Media, luck: Luck) returns (ok: bool)
    requires Idle(s)
    modifies s
    ensures Idle(s) && Balanced(s)
    ensures ok <==> ((src.audio || ref.audio ==> Norm(keys.vaeEnc) in old(s.gpu) || luck.loads.pin)
                     && (src.NeedsEncoder() ==> luck.srcEncoded))
    ensures ok ==> s.log == old(s.log) + PinTrace(keys, src, ref)
  {
    hide Tables, VisitIf, Norm;
    ghost var gpu, outstanding, log := s.gpu, s.outstanding, s.log;
    NoVisit(log, keys.vaeEnc);
    if !src.Present() && !ref.Present() {
      EncodeTimbre(s, keys, Media(false, false), luck);
      return true;
    }
    var pin: ModelHandle? := null;
    if src.audio || ref.audio {
      pin := Acquire(s, keys.vaeEnc, luck.loads.pin);
      if pin == null {
        return false;
      }
    }
    ok := EncodeBoth(s, keys, src, ref, luck);
    if pin != null { Drop(s, pin, keys.vaeEnc, gpu, outstanding); }
    Wrapped(log, Took(Norm(keys.vaeEnc)), VisitIf(src.NeedsEncoder(), keys.vaeEnc),
            VisitIf(ref.NeedsEncoder(), keys.vaeEnc), Gave(Norm(keys.vaeEnc)));
  }

  /** The round trip may stop at any point, and the task goes on regardless. */
  ghost predicate FsqTrace(keys: Keys, t: seq<Event>)
  {
    || t == [Missed(Norm(keys.fsqTok))] || t == Visit(keys.fsqTok)
    || t == Visit(keys.fsqTok) + [Missed(Norm(keys.fsqDetok))] || t == Visit(keys.fsqTok) + Visit(keys.fsqDetok)
  }

  /** ops_fsq_roundtrip: tokenizer and detokenizer in two scopes. */
  method FsqRoundtrip(s: Store, keys: Keys, haveCover: bool, luck: Luck) returns (ghost fsq: seq<Event>)
    requires Idle(s)
    modifies s
    ensures Idle(s) && Balanced(s) && s.log == old(s.log) + fsq
    ensures if haveCover then FsqTrace(keys, fsq) else fsq == []
    ensures haveCover && luck.loads.All() ==> fsq == Visit(keys.fsqTok) + VisitIf(luck.tokenized, keys.fsqDetok)
  {
    hide Keeps, Store.Valid, Norm, Visit;
    ghost var gpu, log := s.gpu, s.log;
    KeepsSame(s.strict, gpu);
    fsq := [];
    if !haveCover {
      return;
    }
    fsq := Use(keys.fsqTok, Norm(keys.fsqTok) in s.gpu || luck.loads.tok);
    var ok := OneModule(s, keys.fsqTok, luck.loads.tok, luck.tokenized);
    if !ok {
      assert Visit(keys.fsqTok) + [] == Visit(keys.fsqTok);
      return;
    }
    ghost var before, more := s.gpu, Use(keys.fsqDetok, Norm(keys.fsqDetok) in s.gpu || luck.loads.detok);
    ok := OneModule(s, keys.fsqDetok, luck.loads.detok, true);
    KeepsOn(s.strict, gpu, before, s.gpu);
    assert log + fsq + more == log + (fsq + more);
    fsq := fsq + more;
  }

  /** ops_encode_text: text encoder, then condition encoder. */
  method EncodeText(s: Store, keys: Keys, luck: Luck) returns (ok: bool)
    requires Idle(s)
    modifies s
    ensures Idle(s) && Balanced(s)
    ensures luck.loads.All() ==> (ok <==> luck.textReady && luck.textEncoded && luck.condEncoded)
    ensures ok ==> s.log == old(s.log) + Visit(keys.textEnc) + Visit(keys.condEnc)
  {
    hide Keeps, Store.Valid, Norm, Visit;
    ghost var gpu := s.gpu;
    KeepsSame(s.strict, gpu);
    if !luck.textReady {
      return false;
    }
    ok := OneModule(s, keys.textEnc, luck.loads.text, luck.textEncoded);
    if !ok {
      return;
    }
    ghost var before := s.gpu;
    ok := OneModule(s, keys.condEnc, luck.loads.cond, luck.condEncoded);
    KeepsOn(s.strict, gpu, before, s.gpu);
  }

  /** ops_build_context: the detokenizer is needed only for audio codes. */
  method BuildContext(s: Store, keys: Keys, haveCover: bool, haveCodes: bool, useSource: bool, luck: Luck)
    returns (ok: bool)
    requires Idle(s)
    modifies s
    ensures Idle(s) && Balanced(s)
    ensures luck.loads.All() ==> (ok <==> ((useSource ==> haveCover || haveCodes)
                                           && (haveCodes && !(useSource && haveCover) ==> luck.codesDecoded)))
    ensures ok ==> s.log == old(s.log) + VisitIf(haveCodes && !(useSource && haveCover), keys.fsqDetok)
    ensures ok && useSource ==> haveCover || haveCodes
  {
    hide Tables;
    ghost var gpu, outstanding := s.gpu, s.outstanding;
    if useSource && haveCover {
      return true;
    }
    if useSource && !haveCodes {
      return false;
    }
    if haveCodes {
      var detok := Acquire(s, keys.fsqDetok, luck.loads.codes);
      if detok == null {
        return false;
      }
      Drop(s, detok, keys.fsqDetok, gpu, outstanding);
      return luck.codesDecoded;
    }
    ok := true;
  }

  function TailTrace(keys: Keys, decodes: bool): seq<Event>
  {
    Visit(keys.textEnc) + Visit(keys.condEnc) + VisitIf(decodes, keys.fsqDetok) + Visit(keys.dit)
  }

  /** Text and context succeed, and there is a source if one is asked for. */
  predicate ContextCan(haveCover: bool, haveCodes: bool, useSource: bool, luck: Luck)
  {
    && (useSource ==> haveCover || haveCodes) && luck.textReady && luck.textEncoded && luck.condEncoded
    && (haveCodes && !(useSource && haveCover) ==> luck.codesDecoded)
  }

  predicate TailCan(haveCover: bool, haveCodes: bool, useSource: bool, luck: Luck)
  {
    luck.fits && ContextCan(haveCover, haveCodes, useSource, luck) && luck.generated
  }

  lemma NeedsSource(luck: Luck)
    ensures !ContextCan(false, false, true, luck)
  {
  }

  lemma Appended(log: seq<Event>, a: seq<Event>, b: seq<Event>, c: seq<Event>)
    ensures log + a + b + c == log + (a + b + c) && log + a + [] == log + a
  {
  }

  lemma Grouped(log: seq<Event>, a: seq<Event>, b: seq<Event>)
    ensures log + a + b == log + (a + b)
  {
  }

  /** The text and the context of run_tail. */
  method Condition(s: Store, keys: Keys, haveCover: bool, haveCodes: bool, useSource: bool, luck: Luck)
    returns (ok: bool)
    requires Idle(s)
    modifies s
    ensures Idle(s) && Balanced(s)
    ensures luck.loads.All() ==> (ok <==> ContextCan(haveCover, haveCodes, useSource, luck))
    ensures ok ==> s.log == old(s.log) + (Visit(keys.textEnc) + Visit(keys.condEnc)
                                          + VisitIf(haveCodes && !(useSource && haveCover), keys.fsqDetok))
  {
    hide Visit, VisitIf, Keeps, Store.Valid, Norm;
    ghost var log, gpu := s.log, s.gpu;
    ok := EncodeText(s, keys, luck);
    if !ok {
      return;
    }
    ghost var before := s.gpu;
    ok := BuildContext(s, keys, haveCover, haveCodes, useSource, luck);
    KeepsOn(s.strict, gpu, before, s.gpu);
    Appended(log, Visit(keys.textEnc), Visit(keys.condEnc),
             VisitIf(haveCodes && !(useSource && haveCover), keys.fsqDetok));
  }

  /** run_tail. */
  method RunTail(s: Store, keys: Keys, haveCover: bool, haveCodes: bool, useSource: bool, luck: Luck)
    returns (ok: bool)
    requires Idle(s)
    modifies s
    ensures Idle(s) && Balanced(s)
    ensures luck.loads.All() ==> (ok <==> TailCan(haveCover, haveCodes, useSource, luck))
    ensures ok ==> s.log == old(s.log) + TailTrace(keys, haveCodes && !(useSource && haveCover))
  {
    hide Visit, VisitIf, Keeps, Store.Valid, Norm, ContextCan;
    KeepsSame(s.strict, s.gpu);
    NeedsSource(luck);
    ghost var log, gpu := s.log, s.gpu;
    if (useSource && !haveCover && !haveCodes) || !luck.fits {
      return false;
    }
    ok := Condition(s, keys, haveCover, haveCodes, useSource, luck);
    if !ok {
      return;
    }
    ghost var before := s.gpu;
    ok := OneModule(s, keys.dit, luck.loads.dit, luck.generated);
    KeepsOn(s.strict, gpu, before, s.gpu);
    Grouped(log, Visit(keys.textEnc) + Visit(keys.condEnc)
                 + VisitIf(haveCodes && !(useSource && haveCover), keys.fsqDetok), Visit(keys.dit));
  }

  /** A lego task may be bounded to a region. */
  datatype Task = TEXT2MUSIC | COVER | COVER_NOFSQ | REPAINT | LEGO(region: bool) | EXTRACT | COMPLETE | UNKNOWN

  /** Audio codes of the request: the first item's text is not empty; some item has codes. */
  datatype Codes = Codes(given: bool, parsed: bool)

  /** What a finished DiT phase did with the store; fsq is the round trip's part. */
  ghost predicate DitTrace(keys: Keys, task: Task, codes: Codes, src: Media, ref: Media, fsq: seq<Event>, t: seq<Event>)
  {
    if task == TEXT2MUSIC then
      fsq == [] && t == PinTrace(keys, Media(false, false), ref) + TailTrace(keys, codes.parsed)
    else
      && src.Present() && (if task == COVER then FsqTrace(keys, fsq) else fsq == [])
      && t == PinTrace(keys, src, ref) + fsq + TailTrace(keys, false)
  }

  /** The region, where the task has one, is in order, and the tail succeeds. */
  predicate RegionCan(task: Task, codes: Codes, luck: Luck)
  {
    TailCan(true, codes.parsed, true, luck) && (task == REPAINT || task == LEGO(true) ==> luck.inOrder)
  }

  /** What it takes to finish a task when every module loads. */
  predicate DitCan(task: Task, codes: Codes, src: Media, luck: Luck)
  {
    if task == UNKNOWN then false
    else if task == TEXT2MUSIC then TailCan(false, codes.parsed, codes.given, luck)
    else src.Present() && (src.NeedsEncoder() ==> luck.srcEncoded) && RegionCan(task, codes, luck)
  }

  /** run_text2music. */
  method RunText2Music(s: Store, keys: Keys, codes: Codes, ref: Media, luck: Luck) returns (job: bool)
    requires Idle(s)
    modifies s
    ensures Idle(s) && Balanced(s)
    ensures luck.loads.All() ==> (job <==> TailCan(false, codes.parsed, codes.given, luck))
    ensures job ==>
              s.log == old(s.log) + (PinTrace(keys, Media(false, false), ref) + TailTrace(keys, codes.parsed))
  {
    hide TailTrace, PinTrace, TailCan, Keeps, Store.Valid, Norm;
    ghost var gpu, log := s.gpu, s.log;
    job := PinnedEncode(s, keys, Media(false, false), ref, luck);
    if !job {
      return;
    }
    ghost var before := s.gpu;
    job := RunTail(s, keys, false, codes.parsed, codes.given, luck);
    KeepsOn(s.strict, gpu, before, s.gpu);
    Grouped(log, PinTrace(keys, Media(false, false), ref), TailTrace(keys, codes.parsed));
  }

  /** run_cover, run_repaint, run_lego and the other tasks that start from a source. */
  method RunSource(s: Store, keys: Keys, task: Task, codes: Codes, src: Media, ref: Media, luck: Luck)
    returns (job: bool, ghost fsq: seq<Event>)
    requires Idle(s) && task != UNKNOWN && task != TEXT2MUSIC
    modifies s
    ensures Idle(s) && Balanced(s)
    ensures luck.loads.All() ==> (job <==> DitCan(task, codes, src, luck))
    ensures job ==> src.Present() && (if task == COVER then FsqTrace(keys, fsq) else fsq == [])
                    && s.log == old(s.log) + (PinTrace(keys, src, ref) + fsq + TailTrace(keys, false))
  {
    hide FsqTrace, TailTrace, PinTrace, RegionCan, Keeps, Store.Valid, Norm;
    fsq := [];
    ghost var gpu, log := s.gpu, s.log;
    KeepsSame(s.strict, gpu);
    if !src.Present() {
      job := false;
      return;
    }
    job := PinnedEncode(s, keys, src, ref, luck);
    if !job {
      return;
    }
    ghost var before := s.gpu;
    job, fsq := Degrade(s, keys, task, codes, luck);
    KeepsOn(s.strict, gpu, before, s.gpu);
    Grouped(log, PinTrace(keys, src, ref), fsq + TailTrace(keys, false));
    Grouped(PinTrace(keys, src, ref), fsq, TailTrace(keys, false));
  }

  /** Behind the encodes: a cover takes the round trip, then the rest runs. */
  method Degrade(s: Store, keys: Keys, task: Task, codes: Codes, luck: Luck)
    returns (job: bool, ghost fsq: seq<Event>)
    requires Idle(s)
    modifies s
    ensures Idle(s) && Balanced(s)
    ensures luck.loads.All() ==> (job <==> RegionCan(task, codes, luck))
    ensures if task == COVER then FsqTrace(keys, fsq) else fsq == []
    ensures job ==> s.log == old(s.log) + (fsq + TailTrace(keys, false))
  {
    hide FsqTrace, TailTrace, RegionCan, Keeps, Store.Valid, Norm, Visit, VisitIf;
    fsq := [];
    ghost var gpu, log := s.gpu, s.log;
    if task == COVER {
      fsq := FsqRoundtrip(s, keys, true, luck);
      ghost var before := s.gpu;
      job := Region(s, keys, task, codes, luck);
      KeepsOn(s.strict, gpu, before, s.gpu);
      Grouped(log, fsq, TailTrace(keys, false));
    } else {
      job := Region(s, keys, task, codes, luck);
      assert fsq + TailTrace(keys, false) == TailTrace(keys, false);
    }
  }

  /** The region is checked, then the tail runs. */
  method Region(s: Store, keys: Keys, task: Task, codes: Codes, luck: Luck) returns (job: bool)
    requires Idle(s)
    modifies s
    ensures Idle(s) && Balanced(s)
    ensures luck.loads.All() ==> (job <==> RegionCan(task, codes, luck))
    ensures job ==> s.log == old(s.log) + TailTrace(keys, false)
  {
    hide TailTrace, TailCan, Keeps, Store.Valid, Norm;
    KeepsSame(s.strict, s.gpu);
    if (task == REPAINT || task == LEGO(true)) && !luck.inOrder {
      return false;
    }
    job := RunTail(s, keys, true, codes.parsed, true, luck);
  }

  /** ace_synth_job_run_dit: all tasks. */
  method RunDit(s: Store, keys: Keys, task: Task, codes: Codes, src: Media, ref: Media, luck: Luck)
    returns (job: bool, ghost fsq: seq<Event>, ghost t: seq<Event>)
    requires Idle(s)
    modifies s
    ensures Idle(s) && Balanced(s)
    ensures luck.loads.All() ==> (job <==> DitCan(task, codes, src, luck))
    ensures job ==> s.log == old(s.log) + t && task != UNKNOWN && DitTrace(keys, task, codes, src, ref, fsq, t)
  {
    hide FsqTrace, TailTrace, PinTrace, TailCan, Keeps, Store.Valid, Norm;
    fsq, t := [], [];
    KeepsSame(s.strict, s.gpu);
    if task == UNKNOWN {
      job := false;
    } else if task == TEXT2MUSIC {
      job := RunText2Music(s, keys, codes, ref, luck);
      t := PinTrace(keys, Media(false, false), ref) + TailTrace(keys, codes.parsed);
    } else {
      job, fsq := RunSource(s, keys, task, codes, src, ref, luck);
      t := PinTrace(keys, src, ref) + fsq + TailTrace(keys, false);
    }
  }

  /** A whole synthesis: the DiT phase, then the VAE decode. */
  method Synthesize(s: Store, keys: Keys, task: Task, codes: Codes, src: Media, ref: Media, luck: Luck)
    returns (ok: bool, ghost fsq: seq<Event>, ghost t: seq<Event>)
    requires Idle(s)
    modifies s
    ensures Idle(s) && Balanced(s)
    ensures luck.loads.All() ==> (ok <==> DitCan(task, codes, src, luck) && luck.decoded)
    ensures ok ==> DitTrace(keys, task, codes, src, ref, fsq, t) && s.log == old(s.log) + t + Visit(keys.vaeDec)
  {
    hide DitTrace, DitCan, Keeps, Store.Valid, Norm, Visit;
    ghost var gpu := s.gpu;
    ok, fsq, t := RunDit(s, keys, task, codes, src, ref, luck);
    if ok {
      ghost var before := s.gpu;
      ok := OneModule(s, keys.vaeDec, luck.loads.vae, luck.decoded);
      KeepsOn(s.strict, gpu, before, s.gpu);
    }
  }

  /** The language model's answer: how many tokens it may take, and at which one it is cancelled or ends. */
  datatype Talk = Talk(limit: nat, cancelled: nat -> bool, ends: nat -> bool) {

    /** It ends within the limit and is not cancelled before. */
    ghost predicate Complete()
    {
      exists n: nat :: n < limit && ends(n) && forall m: nat :: m <= n ==> !cancelled(m)
    }
  }

  /** What it takes to understand when every module loads. */
  ghost predicate UnderstandCan(src: Media, haveLm: bool, luck: Luck, talk: Talk)
  {
    && src.Present() && (src.NeedsEncoder() ==> luck.srcEncoded) && luck.silence && luck.tokenized
    && (haveLm ==> luck.lmReady && talk.Complete())
  }

  /** The decoding loop. */
  method Listen(talk: Talk) returns (ok: bool)
    ensures ok <==> talk.Complete()
  {
    var step := 0;
    while step < talk.limit
      invariant 0 <= step <= talk.limit && forall m: nat :: m < step ==> !talk.cancelled(m) && !talk.ends(m)
    {
      if talk.cancelled(step) {
        return false;
      }
      if talk.ends(step) {
        return true;
      }
      step := step + 1;
    }
    ok := false;
  }

  /** The language model's part of ace_understand_generate. */
  method Answer(s: Store, keys: Keys, luck: Luck, talk: Talk) returns (ok: bool)
    requires Idle(s)
    modifies s
    ensures Idle(s) && Balanced(s)
    ensures luck.loads.All() ==> (ok <==> luck.lmReady && talk.Complete())
    ensures ok ==> s.log == old(s.log) + Visit(keys.lm)
  {
    hide Tables, Talk.Complete;
    ghost var gpu, outstanding := s.gpu, s.outstanding;
    var lm := Acquire(s, keys.lm, luck.loads.lm);
    if lm == null {
      return false;
    }
    if !luck.lmReady {
      Drop(s, lm, keys.lm, gpu, outstanding);
      return false;
    }
    ok := Listen(talk);
    Drop(s, lm, keys.lm, gpu, outstanding);
  }

  /** ace_understand_generate: encoder, tokenizer and language model one after another. */
  method Understand(s: Store, keys: Keys, src: Media, haveLm: bool, luck: Luck, talk: Talk) returns (ok: bool)
    requires Idle(s)
    modifies s
    ensures Idle(s) && Balanced(s)
    ensures luck.loads.All() ==> (ok <==> UnderstandCan(src, haveLm, luck, talk))
    ensures ok ==> src.Present() && s.log == old(s.log) + VisitIf(src.NeedsEncoder(), keys.vaeEnc)
                                             + Visit(keys.fsqTok) + VisitIf(haveLm, keys.lm)
  {
    hide Talk.Complete, Keeps, Store.Valid, Norm, Visit;
    ghost var gpu := s.gpu;
    KeepsSame(s.strict, gpu);
    if !src.Present() {
      return false;
    }
    if !src.latents {
      ok := OneModule(s, keys.vaeEnc, luck.loads.src, luck.srcEncoded);
      if !ok {
        return;
      }
    }
    if !luck.silence {
      return false;
    }
    ghost var before := s.gpu;
    ok := OneModule(s, keys.fsqTok, luck.loads.tok, luck.tokenized);
    KeepsOn(s.strict, gpu, before, s.gpu);
    if !ok || !haveLm {
      return;
    }
    before := s.gpu;
    ok := Answer(s, keys, luck, talk);
    KeepsOn(s.strict, gpu, before, s.gpu);
  }

  /** A request to the server, with the models and adapter it selects. */
  datatype Call =
    | Synthesis(keys: Keys, task: Task, codes: Codes, src: Media, ref: Media, luck: Luck)
    | Understanding(keys: Keys, src: Media, haveLm: bool, luck: Luck, talk: Talk)

  /** Any number of calls on a fresh store: STRICT is left empty, nothing stays acquired, nothing aborts. */
  method Serve(strict: bool, calls: seq<Call>) returns (s: Store)
    ensures fresh(s) && s.Valid() && s.strict == strict && !s.aborted && s.outstanding == multiset{}
    ensures strict ==> s.gpu == map[]
  {
    s := new Store(strict);
    for i := 0 to |calls|
      invariant fresh(s) && Idle(s) && s.strict == strict && !s.aborted && s.outstanding == multiset{}
    {
      match calls[i] {
        case Synthesis(keys, task, codes, src, ref, luck) =>
          var ok;
          ghost var fsq, t;
          ok, fsq, t := Synthesize(s, keys, task, codes, src, ref, luck);
        case Understanding(keys, src, haveLm, luck, talk) =>
          var ok := Understand(s, keys, src, haveLm, luck, talk);
      }
    }
  }
}
