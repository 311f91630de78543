/**
 * The constrained decoder of src/metadata-fsm.h: masks over the logits and a state machine whose runs spell
 * the metadata fields. The machine's moves and masks are specified as functions of its state; the class
 * below is the source's object, and its methods are proved to compute them.
 */
module Fsm {
  import opened Utf8

  /** PrefixTree: token sequences to the tokens that may follow. */
  type Tree = map<seq<int>, seq<int>>

  function Next(tree: Tree, p: seq<int>): seq<int> { if p in tree then tree[p] else [] }

  /** The tree offers after p exactly the tokens that some value has there. */
  ghost predicate Indexes(tree: Tree, values: set<seq<int>>)
  {
    forall p: seq<int>, t: int :: t in Next(tree, p) <==> exists v :: v in values && p + [t] <= v
  }

  /** After i tokens of a value have been added to tree0. */
  ghost predicate Adding(tree0: Tree, tree: Tree, v: seq<int>, i: nat)
  {
    forall p: seq<int>, t: int {:trigger t in Next(tree, p)} ::
      t in Next(tree, p) <==> t in Next(tree0, p) || (|p| < i && p + [t] <= v)
  }

  lemma AddingMore(tree0: Tree, tree: Tree, v: seq<int>, i: nat, tree': Tree)
    requires i < |v| && Adding(tree0, tree, v, i)
    requires forall p: seq<int>, t: int {:trigger t in Next(tree', p)} ::
               t in Next(tree', p) <==> t in Next(tree, p) || (p == v[..i] && t == v[i])
    ensures Adding(tree0, tree', v, i + 1)
  {
    forall p: seq<int>, t: int
      ensures t in Next(tree', p) <==> t in Next(tree0, p) || (|p| < i + 1 && p + [t] <= v)
    {
      if |p| == i {
        assert (p + [t])[..i] == p && (p + [t])[i] == t;
        if p == v[..i] && t == v[i] { assert p + [t] == v[..i + 1]; }
      }
    }
  }

  lemma AllAdded(tree0: Tree, tree: Tree, v: seq<int>, values: set<seq<int>>)
    requires Indexes(tree0, values) && Adding(tree0, tree, v, |v|)
    ensures Indexes(tree, values + {v})
  {
    forall p: seq<int>, t: int
      ensures t in Next(tree, p) <==> exists u :: u in values + {v} && p + [t] <= u
    {
      if p + [t] <= v { assert |p| < |v| && v in values + {v}; }
      if t in Next(tree0, p) {
        var u :| u in values && p + [t] <= u;
        assert u in values + {v};
      }
    }
  }

  method AddValue(tree0: Tree, v: seq<int>, ghost values: set<seq<int>>) returns (tree: Tree)
    requires Indexes(tree0, values)
    ensures Indexes(tree, values + {v})
  {
    tree := tree0;
    for i := 0 to |v|
      invariant Adding(tree0, tree, v, i)
    {
      var p := v[..i];
      var more := tree;
      if v[i] !in Next(tree, p) {
        more := tree[p := Next(tree, p) + [v[i]]];
      }
      AddingMore(tree0, tree, v, i, more);
      tree := more;
    }
    AllAdded(tree0, tree, v, values);
  }

  datatype State =
    | BPM_NAME | BPM_VALUE | CAPTION_NAME | CAPTION_VALUE | DURATION_NAME | DURATION_VALUE | GENRES_NAME | GENRES_VALUE
    | KEYSCALE_NAME | KEYSCALE_VALUE | LANGUAGE_NAME | LANGUAGE_VALUE | TIMESIG_NAME | TIMESIG_VALUE
    | THINK_END | CODES | DISABLED

  predicate NamesField(s: State)
  {
    s in {BPM_NAME, CAPTION_NAME, DURATION_NAME, GENRES_NAME, KEYSCALE_NAME, LANGUAGE_NAME, TIMESIG_NAME}
  }

  /** States whose value comes from a prefix tree. */
  predicate Listed(s: State)
  {
    s in {BPM_VALUE, DURATION_VALUE, KEYSCALE_VALUE, LANGUAGE_VALUE, TIMESIG_VALUE}
  }

  /** Position in the order of the fields. */
  function Rank(s: State): nat
  {
    match s
    case BPM_NAME => 0 case BPM_VALUE => 1 case CAPTION_NAME => 2 case CAPTION_VALUE => 3
    case DURATION_NAME => 4 case DURATION_VALUE => 5 case GENRES_NAME => 6 case GENRES_VALUE => 7
    case KEYSCALE_NAME => 8 case KEYSCALE_VALUE => 9 case LANGUAGE_NAME => 10 case LANGUAGE_VALUE => 11
    case TIMESIG_NAME => 12 case TIMESIG_VALUE => 13 case THINK_END => 14 case CODES => 15 case DISABLED => 16
  }

  const AUDIO_CODE_BASE: int := 151669
  const AUDIO_CODE_COUNT: int := 65535

  /**
   * Everything the tokenizer and the caller fix: tokens of field names and of forced values (none when not
   * forced), trees of listed values, decoding of tokens, and the genre tokens allowed after a value so far.
   */
  datatype Config = Config(names: State -> seq<int>, forced: State -> seq<int>, trees: State -> Tree, newline: int,
                           thinkEnd: int, vocab: nat, skipCaption: bool, genres: bool,
                           decode: int -> Text, genreTokens: Text -> seq<int>)

  datatype Machine = Machine(state: State, namePos: nat, acc: seq<int>, pendingNewline: bool, ending: bool,
                             fieldName: Text, queue: seq<int>, genre: Text)

  const START: Machine := Machine(BPM_NAME, 0, [], false, false, [], [], [])

  /** A field name is being forced. */
  predicate InName(cfg: Config, m: Machine)
  {
    NamesField(m.state) && m.namePos < |cfg.names(m.state)|
  }

  function NextName(cfg: Config, s: State): State
  {
    match s
    case BPM_NAME | BPM_VALUE => if cfg.skipCaption then DURATION_NAME else CAPTION_NAME
    case CAPTION_NAME | CAPTION_VALUE => DURATION_NAME
    case DURATION_NAME | DURATION_VALUE => if cfg.genres then GENRES_NAME else KEYSCALE_NAME
    case GENRES_NAME | GENRES_VALUE => KEYSCALE_NAME
    case KEYSCALE_NAME | KEYSCALE_VALUE => LANGUAGE_NAME
    case LANGUAGE_NAME | LANGUAGE_VALUE => TIMESIG_NAME
    case TIMESIG_NAME | TIMESIG_VALUE => THINK_END
    case _ => CODES
  }

  function ValueOf(s: State): State
  {
    match s
    case BPM_NAME => BPM_VALUE case CAPTION_NAME => CAPTION_VALUE case DURATION_NAME => DURATION_VALUE
    case GENRES_NAME => GENRES_VALUE case KEYSCALE_NAME => KEYSCALE_VALUE case LANGUAGE_NAME => LANGUAGE_VALUE
    case TIMESIG_NAME => TIMESIG_VALUE case _ => s
  }

  function Ascii(s: string): Text { seq(|s|, i requires 0 <= i < |s| => s[i] as int % 256) }

  /** field_name_to_value_state; DISABLED for names that are no target. */
  function Target(cfg: Config, field: Text): State
  {
    if field == Ascii("duration") then DURATION_VALUE
    else if field == Ascii("genres") then if cfg.genres then GENRES_VALUE else DISABLED
    else if field == Ascii("keyscale") then KEYSCALE_VALUE
    else if field == Ascii("language") then LANGUAGE_VALUE
    else if field == Ascii("timesignature") then TIMESIG_VALUE
    else DISABLED
  }

  function BeforeColon(s: Text): Text
  {
    if s == [] || s[0] == 58 then [] else [s[0]] + BeforeColon(s[1..])
  }

  function NoTrailingSpace(s: Text): Text
  {
    if s != [] && s[|s| - 1] == 32 then NoTrailingSpace(s[..|s| - 1]) else s
  }

  /** A value is about to be forced. */
  predicate Injects(cfg: Config, m: Machine)
  {
    m.queue == [] && Listed(m.state) && cfg.forced(m.state) != []
  }

  /** What apply_mask does to the state: queue a forced value. */
  function Loaded(cfg: Config, m: Machine): Machine
  {
    if Injects(cfg, m) then m.(queue := cfg.forced(m.state)) else m
  }

  /** The tokens apply_mask leaves alone. */
  predicate Lets(cfg: Config, m: Machine, t: int)
  {
    if m.state == CODES || m.state == DISABLED then true
    else if m.queue != [] then t == m.queue[0]
    else if InName(cfg, m) then t == cfg.names(m.state)[m.namePos]
    else if Injects(cfg, m) then t == cfg.forced(m.state)[0]
    else if Listed(m.state) then
      var allowed := Next(cfg.trees(m.state), m.acc);
      if allowed != [] then t in allowed else cfg.newline < 0 || t == cfg.newline
    else if m.state == GENRES_VALUE then
      var allowed := cfg.genreTokens(m.genre);
      t in allowed || (allowed == [] && cfg.newline >= 0 && t == cfg.newline)
    else if m.state == CAPTION_VALUE then !(AUDIO_CODE_BASE <= t < AUDIO_CODE_BASE + AUDIO_CODE_COUNT)
    else if m.state == THINK_END then t == cfg.thinkEnd
    else true
  }

  function Entered(m: Machine, s: State): Machine { m.(state := s, namePos := 0, acc := []) }

  /** A field name has been typed inside the caption: jump to its value if it is one. */
  function Jumped(cfg: Config, m: Machine): Machine
  {
    var target := Target(cfg, NoTrailingSpace(BeforeColon(m.fieldName)));
    if target != DISABLED then Entered(m, target).(ending := false, fieldName := []) else m
  }

  /** update. */
  function Updated(cfg: Config, m: Machine, t: int): Machine
  {
    if m.state == CODES || m.state == DISABLED then m
    else if m.queue != [] then
      var q := m.(queue := m.queue[1..]);
      if q.queue == [] then Entered(q, NextName(cfg, m.state)) else q
    else if m.pendingNewline || m.ending then CaptionUpdated(cfg, m, t)
    else FieldUpdated(cfg, m, t)
  }

  /** After a newline in the caption: a continuation line, or the name of the next field. */
  function CaptionUpdated(cfg: Config, m: Machine, t: int): Machine
  {
    if m.pendingNewline then
      var text, n := cfg.decode(t), m.(pendingNewline := false);
      if text != [] && text[0] != 32 && text[0] != 9 then
        var e := n.(ending := true, fieldName := text);
        if 58 in text then Jumped(cfg, e) else e
      else n
    else
      var e := m.(fieldName := m.fieldName + cfg.decode(t));
      if 58 in e.fieldName then Jumped(cfg, e) else e
  }

  /** A token of a field name or value. */
  function FieldUpdated(cfg: Config, m: Machine, t: int): Machine
  {
    if InName(cfg, m) then
      if m.namePos + 1 < |cfg.names(m.state)| then m.(namePos := m.namePos + 1)
      else m.(state := ValueOf(m.state), namePos := m.namePos + 1, acc := [],
              genre := if m.state == GENRES_NAME then [] else m.genre)
    else if m.state == GENRES_VALUE then
      if t == cfg.newline then Entered(m, NextName(cfg, m.state)).(genre := [])
      else m.(genre := m.genre + cfg.decode(t))
    else if Listed(m.state) then
      if t == cfg.newline then Entered(m, NextName(cfg, m.state)) else m.(acc := m.acc + [t])
    else if m.state == CAPTION_VALUE then
      if t == cfg.newline || 10 in cfg.decode(t) then m.(pendingNewline := true) else m
    else if m.state == THINK_END then m.(state := CODES)
    else m
  }

  /** A masked logit. */
  const MASKED: real := -1000000000.0

  class MetadataFsm {
    var cfg: Config
    var enabled: bool
    var state: State
    var namePos: nat
    var acc: seq<int>
    var pendingNewline: bool
    var ending: bool
    var fieldName: Text
    var queue: seq<int>
    var genre: Text

    ghost function Now(): Machine
      reads this
    {
      Machine(state, namePos, acc, pendingNewline, ending, fieldName, queue, genre)
    }

    /** Allowed tokens are used as indices into the logits. */
    ghost predicate Indexable()
      reads this
    {
      && (forall s: State, p: seq<int>, t: int :: t in Next(cfg.trees(s), p) ==> 0 <= t < cfg.vocab)
      && (forall g: Text, t: int :: t in cfg.genreTokens(g) ==> 0 <= t < cfg.vocab)
      && cfg.newline < cfg.vocab
    }

    method Reset()
      modifies this
      ensures Now() == START && cfg == old(cfg) && enabled == old(enabled)
    {
      state, namePos, pendingNewline, ending, fieldName, acc, genre, queue := BPM_NAME, 0, false, false, [], [], [], [];
    }

    /** Mask everything but one token. */
    method Only(logits: array<real>, t: int)
      modifies logits
      ensures forall v :: 0 <= v < logits.Length ==> logits[v] == if v == t then old(logits[v]) else MASKED
    {
      for v := 0 to logits.Length
        invariant forall k :: 0 <= k < logits.Length ==> logits[k] == if k < v && k != t then MASKED else old(logits[k])
      {
        if v != t {
          logits[v] := MASKED;
        }
      }
    }

    /** Mask everything but some tokens: save theirs, mask all, restore. */
    method OnlyThese(logits: array<real>, allowed: seq<int>)
      requires forall t :: t in allowed ==> 0 <= t < logits.Length
      modifies logits
      ensures forall v :: 0 <= v < logits.Length ==> logits[v] == if v in allowed then old(logits[v]) else MASKED
    {
      var saved := seq(|allowed|, i requires 0 <= i < |allowed| reads logits =>
                                    (assert allowed[i] in allowed; logits[allowed[i]]));
      for v := 0 to logits.Length
        invariant forall k :: 0 <= k < v ==> logits[k] == MASKED
      {
        logits[v] := MASKED;
      }
      for i := 0 to |allowed|
        invariant forall k :: 0 <= k < logits.Length ==>
                    logits[k] == if k in allowed[..i] then old(logits[k]) else MASKED
      {
        assert allowed[..i + 1] == allowed[..i] + [allowed[i]] && allowed[i] in allowed;
        logits[allowed[i]] := saved[i];
      }
      assert allowed[..|allowed|] == allowed;
    }

    method MaskCodes(logits: array<real>)
      modifies logits
      ensures forall k :: 0 <= k < logits.Length ==>
                logits[k] == if AUDIO_CODE_BASE <= k < AUDIO_CODE_BASE + AUDIO_CODE_COUNT then MASKED
                    else old(logits[k])
    {
      for v := AUDIO_CODE_BASE to AUDIO_CODE_BASE + AUDIO_CODE_COUNT
        invariant forall k :: 0 <= k < logits.Length ==>
                    logits[k] == if AUDIO_CODE_BASE <= k < v then MASKED else old(logits[k])
      {
        if v < logits.Length {
          logits[v] := MASKED;
        }
      }
    }

    /** apply_mask: every logit is kept or masked as Lets says; a forced value is queued. */
    method ApplyMask(logits: array<real>)
      requires logits.Length == cfg.vocab && Indexable()
      modifies this`queue, logits
      ensures Now() == if enabled then Loaded(cfg, old(Now())) else old(Now())
      ensures forall v :: 0 <= v < logits.Length ==>
                logits[v] == if !enabled || Lets(cfg, old(Now()), v) then old(logits[v]) else MASKED
    {
      if !enabled || state == CODES || state == DISABLED {
        return;
      }
      if queue != [] {
        Only(logits, queue[0]);
        return;
      }
      if NamesField(state) && namePos < |cfg.names(state)| {
        Only(logits, cfg.names(state)[namePos]);
        return;
      }
      if Listed(state) {
        if cfg.forced(state) != [] {
          queue := cfg.forced(state);
          Only(logits, queue[0]);
          return;
        }
        var allowed := Next(cfg.trees(state), acc);
        if allowed != [] {
          OnlyThese(logits, allowed);
        } else if cfg.newline >= 0 {
          Only(logits, cfg.newline);
        }
        return;
      }
      if state == GENRES_VALUE {
        var allowed := cfg.genreTokens(genre);
        if allowed == [] && cfg.newline >= 0 {
          allowed := [cfg.newline];
        }
        OnlyThese(logits, allowed);
        return;
      }
      if state == CAPTION_VALUE {
        MaskCodes(logits);
        return;
      }
      if state == THINK_END {
        Only(logits, cfg.thinkEnd);
      }
    }

    method JumpToField()
      modifies this`state, this`namePos, this`acc, this`ending, this`fieldName
      ensures Now() == Jumped(cfg, old(Now()))
    {
      var target := Target(cfg, NoTrailingSpace(BeforeColon(fieldName)));
      if target != DISABLED {
        state, namePos, acc, ending, fieldName := target, 0, [], false, [];
      }
    }

    /** update. */
    method Update(token: int)
      modifies this
      ensures Now() == if enabled then Updated(cfg, old(Now()), token) else old(Now())
      ensures cfg == old(cfg) && enabled == old(enabled)
    {
      hide CaptionUpdated, FieldUpdated;
      if !enabled || state == CODES || state == DISABLED {
        return;
      }
      if queue != [] {
        queue := queue[1..];
        if queue == [] {
          state, namePos, acc := NextName(cfg, state), 0, [];
        }
        return;
      }
      if pendingNewline || ending {
        UpdateCaption(token);
      } else {
        UpdateField(token);
      }
    }

    method UpdateCaption(token: int)
      requires pendingNewline || ending
      modifies this
      ensures Now() == CaptionUpdated(cfg, old(Now()), token) && cfg == old(cfg) && enabled == old(enabled)
    {
      hide Jumped;
      if pendingNewline {
        pendingNewline := false;
        var text := cfg.decode(token);
        if text != [] && text[0] != 32 && text[0] != 9 {
          ending, fieldName := true, text;
          if 58 in text {
            JumpToField();
          }
        }
        return;
      }
      fieldName := fieldName + cfg.decode(token);
      if 58 in fieldName {
        JumpToField();
      }
    }

    method UpdateField(token: int)
      modifies this
      ensures Now() == FieldUpdated(cfg, old(Now()), token) && cfg == old(cfg) && enabled == old(enabled)
    {
      if NamesField(state) && namePos < |cfg.names(state)| {
        namePos := namePos + 1;
        if namePos >= |cfg.names(state)| {
          if state == GENRES_NAME {
            genre := [];
          }
          state, acc := ValueOf(state), [];
        }
        return;
      }
      if state == GENRES_VALUE {
        if token == cfg.newline {
          state, namePos, acc, genre := NextName(cfg, state), 0, [], [];
        } else {
          genre := genre + cfg.decode(token);
        }
        return;
      }
      if Listed(state) {
        if token == cfg.newline {
          state, namePos, acc := NextName(cfg, state), 0, [];
        } else {
          acc := acc + [token];
        }
        return;
      }
      if state == CAPTION_VALUE {
        if token == cfg.newline || 10 in cfg.decode(token) {
          pendingNewline := true;
        }
        return;
      }
      if state == THINK_END {
        state := CODES;
      }
    }

    /** force_field: the field's value is this one from now on, and its tree offers no other. */
    method ForceField(s: State, value: seq<int>)
      requires Listed(s)
      modifies this`cfg
      ensures cfg.forced(s) == value && Indexes(cfg.trees(s), {value})
      ensures forall u :: u != s ==> cfg.forced(u) == old(cfg).forced(u) && cfg.trees(u) == old(cfg).trees(u)
      ensures cfg == old(cfg).(forced := cfg.forced, trees := cfg.trees)
    {
      var none: Tree := map[];
      assert Indexes(none, {}) by {
        forall p: seq<int>, t: int ensures t !in Next(none, p) { }
      }
      var tree := AddValue(none, value, {});
      assert {} + {value} == {value};
      var was := cfg;
      cfg := was.(forced := (u: State) => if u == s then value else was.forced(u),
                  trees := (u: State) => if u == s then tree else was.trees(u));
    }
  }
}
