/**
 * The caption of the constrained decoder of src/metadata-fsm.h: lines and continuation lines up to a line
 * that spells the name of a later field. A line that spells any other name is never left.
 */
module Captions {
  import opened Utf8
  import opened Fsm
  import opened Runs

  /** The text of some tokens. */
  function TextOf(cfg: Config, toks: seq<int>): Text
  {
    if toks == [] then [] else TextOf(cfg, toks[..|toks| - 1]) + cfg.decode(toks[|toks| - 1])
  }

  lemma TextMore(cfg: Config, toks: seq<int>, t: int)
    ensures TextOf(cfg, toks + [t]) == TextOf(cfg, toks) + cfg.decode(t)
    ensures TextOf(cfg, []) == [] && TextOf(cfg, [t]) == cfg.decode(t)
  {
    assert (toks + [t])[..|toks|] == toks;
    assert [t][..0] == [];
    assert TextOf(cfg, [t]) == [] + cfg.decode(t) == cfg.decode(t);
  }

  /** What each field is called. */
  function Label(name: State): string
  {
    match name
    case BPM_NAME => "bpm" case CAPTION_NAME => "caption" case DURATION_NAME => "duration" case GENRES_NAME => "genres"
    case KEYSCALE_NAME => "keyscale" case LANGUAGE_NAME => "language" case TIMESIG_NAME => "timesignature"
    case _ => ""
  }

  predicate EndsLine(cfg: Config, t: int) { t == cfg.newline || 10 in cfg.decode(t) }

  predicate Indented(cfg: Config, t: int)
  {
    cfg.decode(t) == [] || cfg.decode(t)[0] == 32 || cfg.decode(t)[0] == 9
  }

  predicate AudioCode(t: int) { 151669 <= t < 151669 + 65535 }

  /** Caption tokens that end inside a line: every line but the first starts with an indented token. */
  predicate InLine(cfg: Config, c: seq<int>)
    decreases |c|
  {
    c == [] ||
    (var n := |c| - 1;
     (InLine(cfg, c[..n]) && !EndsLine(cfg, c[n])) || (AtBreak(cfg, c[..n]) && Indented(cfg, c[n])))
  }

  /** Caption tokens that end with a line. */
  predicate AtBreak(cfg: Config, c: seq<int>)
    decreases |c|
  {
    c != [] && (var n := |c| - 1; InLine(cfg, c[..n]) && EndsLine(cfg, c[n]))
  }

  ghost predicate Spelling(text: Text, name: Text, spaces: nat, more: Text)
  {
    text == name + seq(spaces, _ => 32) + [58] + more
  }

  /** The text is the field's name, spaces or none, a colon and anything. */
  ghost predicate Typed(text: Text, f: State)
  {
    exists spaces: nat, more :: Spelling(text, Ascii(Label(f)), spaces, more)
  }

  /** Tokens that spell a later field's name, the last one bringing the colon. */
  ghost predicate Naming(cfg: Config, w: seq<int>, f: State)
  {
    && Follows(cfg, f) && w != [] && !Indented(cfg, w[0])
    && Typed(TextOf(cfg, w), f) && 58 !in TextOf(cfg, w[..|w| - 1])
  }

  /** A whole caption, up to the name of field f. */
  ghost predicate CaptionUpTo(cfg: Config, c: seq<int>, f: State)
  {
    && (forall t :: t in c ==> !AudioCode(t))
    && exists b :: 0 <= b < |c| && AtBreak(cfg, c[..b]) && Naming(cfg, c[b..], f)
  }

  /** Where a typed name leads. */
  function Lead(cfg: Config, text: Text): State { Target(cfg, NoTrailingSpace(BeforeColon(text))) }

  lemma {:induction false} UpToColon(a: Text, b: Text)
    requires 58 !in a
    ensures BeforeColon(a + [58] + b) == a
  {
    if a == [] {
      assert a + [58] + b == [58] + b;
    } else {
      assert (a + [58] + b)[1..] == a[1..] + [58] + b;
      UpToColon(a[1..], b);
    }
  }

  lemma {:induction false} ColonSplits(text: Text) returns (more: Text)
    requires 58 in text
    ensures text == BeforeColon(text) + [58] + more && 58 !in BeforeColon(text)
  {
    if text[0] == 58 {
      more := text[1..];
    } else {
      more := ColonSplits(text[1..]);
    }
  }

  lemma {:induction false} SpacesOff(a: Text, n: nat)
    requires a == [] || a[|a| - 1] != 32
    ensures NoTrailingSpace(a + seq(n, _ => 32)) == a
  {
    if n == 0 {
      assert a + seq(n, _ => 32) == a;
    } else {
      var s: Text := a + seq(n, _ => 32);
      assert s[..|s| - 1] == a + seq(n - 1, _ => 32);
      SpacesOff(a, n - 1);
    }
  }

  lemma {:induction false} SpacesSplit(a: Text) returns (n: nat)
    ensures a == NoTrailingSpace(a) + seq(n, _ => 32)
  {
    n := 0;
    if a != [] && a[|a| - 1] == 32 {
      n := SpacesSplit(a[..|a| - 1]);
      assert a == a[..|a| - 1] + [32];
      n := n + 1;
    }
  }

  lemma LabelPlain(f: State)
    ensures 58 !in Ascii(Label(f)) && 32 !in Ascii(Label(f))
  {
  }

  lemma AsciiApart(a: State, b: State)
    requires NamesField(a) && NamesField(b) && Ascii(Label(a)) == Ascii(Label(b))
    ensures a == b
  {
    assert |Ascii(Label(a))| == |Label(a)| && |Ascii(Label(b))| == |Label(b)|;
    assert Ascii(Label(a))[0] == Label(a)[0] as int % 256 && Ascii(Label(b))[0] == Label(b)[0] as int % 256;
    hide Ascii;
  }

  /** A name leads to its field's value, and nothing else leads there. */
  lemma TargetIs(cfg: Config, field: Text, f: State)
    requires Follows(cfg, f)
    ensures Target(cfg, field) == ValueOf(f) <==> field == Ascii(Label(f))
  {
    hide Ascii;
    LaterFields(cfg, f);
    if field == Ascii(Label(f)) {
      forall g: State | NamesField(g) && Ascii(Label(f)) == Ascii(Label(g))
        ensures f == g
      {
        AsciiApart(f, g);
      }
      LaterLabels();
    }
  }

  lemma LaterFields(cfg: Config, f: State)
    requires Follows(cfg, f)
    ensures f in {DURATION_NAME, GENRES_NAME, KEYSCALE_NAME, LANGUAGE_NAME, TIMESIG_NAME}
    ensures f == GENRES_NAME ==> cfg.genres
  {
  }

  lemma LaterLabels()
    ensures Label(DURATION_NAME) == "duration" && Label(GENRES_NAME) == "genres" && Label(KEYSCALE_NAME) == "keyscale"
    ensures Label(LANGUAGE_NAME) == "language" && Label(TIMESIG_NAME) == "timesignature"
    ensures NamesField(DURATION_NAME) && NamesField(GENRES_NAME) && NamesField(KEYSCALE_NAME)
    ensures NamesField(LANGUAGE_NAME) && NamesField(TIMESIG_NAME)
  {
  }

  /** What is typed leads to a field's value exactly if it spells the field's name. */
  lemma LeadIs(cfg: Config, text: Text, f: State)
    requires Follows(cfg, f) && 58 in text
    ensures Lead(cfg, text) == ValueOf(f) <==> Typed(text, f)
  {
    hide Target, Ascii, Label, ValueOf;
    var field := NoTrailingSpace(BeforeColon(text));
    TargetIs(cfg, field, f);
    if field == Ascii(Label(f)) {
      var more := ColonSplits(text);
      var n := SpacesSplit(BeforeColon(text));
      assert Spelling(text, Ascii(Label(f)), n, more);
    }
    if Typed(text, f) {
      var n: nat, more :| Spelling(text, Ascii(Label(f)), n, more);
      LabelPlain(f);
      UpToColon(Ascii(Label(f)) + seq(n, _ => 32), more);
      SpacesOff(Ascii(Label(f)), n);
    }
  }

  lemma LeadsSomewhere(cfg: Config, text: Text) returns (f: State)
    requires 58 in text && Lead(cfg, text) != DISABLED
    ensures Follows(cfg, f) && Lead(cfg, text) == ValueOf(f) && Typed(text, f)
  {
    f :| Follows(cfg, f) && Lead(cfg, text) == ValueOf(f) by { LeadsToField(cfg, text); }
    LeadIs(cfg, text, f);
  }

  lemma LeadsToField(cfg: Config, text: Text)
    requires Lead(cfg, text) != DISABLED
    ensures exists f: State :: Follows(cfg, f) && Lead(cfg, text) == ValueOf(f)
  {
    hide Ascii, BeforeColon, NoTrailingSpace;
    assert ValueOf(DURATION_NAME) == DURATION_VALUE && ValueOf(GENRES_NAME) == GENRES_VALUE;
    assert ValueOf(KEYSCALE_NAME) == KEYSCALE_VALUE && ValueOf(LANGUAGE_NAME) == LANGUAGE_VALUE;
    assert ValueOf(TIMESIG_NAME) == TIMESIG_VALUE;
    assert Follows(cfg, DURATION_NAME) && Follows(cfg, KEYSCALE_NAME) && Follows(cfg, LANGUAGE_NAME);
    assert Follows(cfg, TIMESIG_NAME) && (Follows(cfg, GENRES_NAME) <==> cfg.genres);
  }

  /** In a line of the caption; at the start of one; in what may become a name. */
  predicate Inside(m: Machine) { m.state == CAPTION_VALUE && m.queue == [] && !m.pendingNewline && !m.ending }

  predicate AtStart(m: Machine) { m.state == CAPTION_VALUE && m.queue == [] && m.pendingNewline && !m.ending }

  predicate Typing(m: Machine) { m.state == CAPTION_VALUE && m.queue == [] && !m.pendingNewline && m.ending }

  /** One token in the caption: only audio codes are masked. */
  lemma CaptionStep(cfg: Config, m: Machine, t: int)
    requires Inside(m) || AtStart(m) || Typing(m)
    ensures Lets(cfg, m, t) <==> !AudioCode(t)
    ensures Inside(m) ==> Step(cfg, m, t) == m.(pendingNewline := EndsLine(cfg, t))
    ensures AtStart(m) && Indented(cfg, t) ==> Step(cfg, m, t) == m.(pendingNewline := false)
    ensures AtStart(m) && !Indented(cfg, t) ==>
              Step(cfg, m, t) == Collected(cfg, m.(pendingNewline := false, ending := true, fieldName := []), t)
    ensures Typing(m) ==> Step(cfg, m, t) == Collected(cfg, m, t)
  {
    hide Jumped;
    assert [] + cfg.decode(t) == cfg.decode(t);
  }

  /** One more token of a possible name. */
  function Collected(cfg: Config, m: Machine, t: int): Machine
  {
    var n := m.(fieldName := m.fieldName + cfg.decode(t));
    if 58 in n.fieldName then Jumped(cfg, n) else n
  }

  /** The colon decides: the field's value, with the caption over, or still the same line. */
  lemma JumpIs(cfg: Config, m: Machine)
    ensures Lead(cfg, m.fieldName) == DISABLED ==> Jumped(cfg, m) == m
    ensures Lead(cfg, m.fieldName) != DISABLED ==>
              Jumped(cfg, m)
              == m.(state := Lead(cfg, m.fieldName), namePos := 0, acc := [], ending := false, fieldName := [])
  {
  }

  /** Where the machine is after caption tokens that do not leave the caption. */
  lemma {:induction false} LinesRun(cfg: Config, m: Machine, c: seq<int>)
    requires Inside(m)
    ensures InLine(cfg, c) ==> Run(cfg, m, c) == m
    ensures AtBreak(cfg, c) ==> Run(cfg, m, c) == m.(pendingNewline := true)
  {
    hide EndsLine, Indented, Step;
    if c == [] {
      RunNone(cfg, m);
    } else {
      var n := |c| - 1;
      assert c == c[..n] + [c[n]];
      LinesRun(cfg, m, c[..n]);
      RunMore(cfg, m, c[..n], c[n]);
      CaptionStep(cfg, m, c[n]);
      CaptionStep(cfg, m.(pendingNewline := true), c[n]);
    }
  }

  /** While a name is typed and no colon has come, it is collected. */
  lemma {:induction false} NameRun(cfg: Config, m: Machine, w: seq<int>)
    requires AtStart(m) && w != [] && !Indented(cfg, w[0]) && 58 !in TextOf(cfg, w)
    ensures Run(cfg, m, w) == m.(pendingNewline := false, ending := true, fieldName := TextOf(cfg, w))
  {
    hide Indented, Step, Jumped;
    var n := |w| - 1;
    assert w == w[..n] + [w[n]];
    RunMore(cfg, m, w[..n], w[n]);
    TextMore(cfg, w[..n], w[n]);
    if n == 0 {
      RunNone(cfg, m);
      CaptionStep(cfg, m, w[0]);
    } else {
      NameRun(cfg, m, w[..n]);
      CaptionStep(cfg, Run(cfg, m, w[..n]), w[n]);
    }
  }

  /** The machine once the colon has come with the last token. */
  lemma ColonRun(cfg: Config, m: Machine, w: seq<int>)
    requires AtStart(m) && w != [] && !Indented(cfg, w[0])
    requires 58 in TextOf(cfg, w) && 58 !in TextOf(cfg, w[..|w| - 1])
    ensures var e := m.(pendingNewline := false, ending := true, fieldName := TextOf(cfg, w));
            Run(cfg, m, w) == Jumped(cfg, e)
  {
    hide Indented, Step, Jumped, Run;
    var n := |w| - 1;
    assert w == w[..n] + [w[n]];
    RunMore(cfg, m, w[..n], w[n]);
    TextMore(cfg, w[..n], w[n]);
    if n == 0 {
      RunNone(cfg, m);
      CaptionStep(cfg, m, w[0]);
    } else {
      NameRun(cfg, m, w[..n]);
      CaptionStep(cfg, Run(cfg, m, w[..n]), w[n]);
    }
  }

  lemma TypedColon(text: Text, f: State)
    requires Typed(text, f)
    ensures 58 in text
  {
    hide Ascii, Label;
    var n: nat, more :| Spelling(text, Ascii(Label(f)), n, more);
    assert text[|Ascii(Label(f))| + n] == 58;
  }

  /**
   * At the start of a caption line, tokens that spell the name of a later field, however they are cut, put the
   * machine into the value of exactly that field, with nothing accumulated and the caption over.
   */
  lemma NameTyped(cfg: Config, m: Machine, w: seq<int>, f: State)
    requires AtStart(m) && Naming(cfg, w, f)
    ensures Run(cfg, m, w) == Machine(ValueOf(f), 0, [], false, false, [], [], m.genre)
  {
    hide Run, Indented, Jumped, Lead, Typed;
    TypedColon(TextOf(cfg, w), f);
    ColonRun(cfg, m, w);
    LeadIs(cfg, TextOf(cfg, w), f);
    JumpIs(cfg, m.(pendingNewline := false, ending := true, fieldName := TextOf(cfg, w)));
  }

  /** A whole caption ends in the value of the field it names, and only audio codes were masked in it. */
  lemma CaptionGiven(cfg: Config, m: Machine, c: seq<int>, f: State)
    requires Inside(m) && CaptionUpTo(cfg, c, f)
    ensures Run(cfg, m, c) == Machine(ValueOf(f), 0, [], false, false, [], [], m.genre)
    ensures AllLet(cfg, m, c)
  {
    hide Run, AllLet, Naming, AtBreak, InLine;
    var b :| 0 <= b < |c| && AtBreak(cfg, c[..b]) && Naming(cfg, c[b..], f);
    LinesRun(cfg, m, c[..b]);
    NameTyped(cfg, m.(pendingNewline := true), c[b..], f);
    RunConcat(cfg, m, c[..b], c[b..]);
    assert c == c[..b] + c[b..];
    LinesLet(cfg, m, c[..b]);
    NameLet(cfg, m.(pendingNewline := true), c[b..], f, |c| - b);
    assert c[b..][..|c| - b] == c[b..];
  }

  lemma {:induction false} LinesLet(cfg: Config, m: Machine, c: seq<int>)
    requires Inside(m) && (InLine(cfg, c) || AtBreak(cfg, c)) && forall t :: t in c ==> !AudioCode(t)
    ensures AllLet(cfg, m, c)
  {
    hide EndsLine, Indented, Step, AudioCode;
    if c == [] {
      RunNone(cfg, m);
    } else {
      var n := |c| - 1;
      assert c == c[..n] + [c[n]];
      LinesLet(cfg, m, c[..n]);
      LinesRun(cfg, m, c[..n]);
      RunMore(cfg, m, c[..n], c[n]);
      CaptionStep(cfg, Run(cfg, m, c[..n]), c[n]);
    }
  }

  lemma {:induction false} NameLet(cfg: Config, m: Machine, w: seq<int>, f: State, k: nat)
    requires AtStart(m) && Naming(cfg, w, f) && (forall t :: t in w ==> !AudioCode(t)) && k <= |w|
    ensures AllLet(cfg, m, w[..k])
  {
    hide Indented, Step, AudioCode, Typed, Lets;
    if k == 0 {
      RunNone(cfg, m);
    } else {
      NameLet(cfg, m, w, f, k - 1);
      var v := w[..k - 1];
      assert w[..k] == v + [w[k - 1]];
      RunMore(cfg, m, v, w[k - 1]);
      if k == 1 {
        RunNone(cfg, m);
      } else {
        NoColon(cfg, w, k - 1);
        NameRun(cfg, m, v);
      }
      CaptionStep(cfg, Run(cfg, m, v), w[k - 1]);
    }
  }

  lemma {:induction false} NoColon(cfg: Config, w: seq<int>, k: nat)
    requires k < |w| && 58 !in TextOf(cfg, w[..|w| - 1])
    ensures 58 !in TextOf(cfg, w[..k])
    decreases |w|
  {
    var n := |w| - 1;
    if k < n {
      assert w[..n][..n - 1] == w[..n - 1];
      NoColon(cfg, w[..n], k);
      assert w[..n][..k] == w[..k];
    }
  }

  /** A name that belongs to no later field has been typed with its colon. */
  predicate Lost(cfg: Config, m: Machine) { Typing(m) && 58 in m.fieldName && Lead(cfg, m.fieldName) == DISABLED }

  /** Then no token, masked or not, ever ends the caption again. */
  lemma {:induction false} LostForever(cfg: Config, m: Machine, toks: seq<int>)
    requires Lost(cfg, m)
    ensures Lost(cfg, Run(cfg, m, toks)) && BeforeColon(Run(cfg, m, toks).fieldName) == BeforeColon(m.fieldName)
  {
    hide Step, Lead, Jumped;
    if toks == [] {
      RunNone(cfg, m);
    } else {
      var n := |toks| - 1;
      assert toks == toks[..n] + [toks[n]];
      RunMore(cfg, m, toks[..n], toks[n]);
      LostForever(cfg, m, toks[..n]);
      LostStays(cfg, Run(cfg, m, toks[..n]), toks[n]);
    }
  }

  lemma LostStays(cfg: Config, m: Machine, t: int)
    requires Lost(cfg, m)
    ensures Lost(cfg, Step(cfg, m, t)) && BeforeColon(Step(cfg, m, t).fieldName) == BeforeColon(m.fieldName)
  {
    hide Step, Target, AudioCode;
    CaptionStep(cfg, m, t);
    var more := ColonSplits(m.fieldName);
    var text := m.fieldName + cfg.decode(t);
    assert text == BeforeColon(m.fieldName) + [58] + (more + cfg.decode(t));
    UpToColon(BeforeColon(m.fieldName), more + cfg.decode(t));
    JumpIs(cfg, m.(fieldName := text));
  }

  /**
   * A line that spells another name with a colon, as in "Note: ...": the machine is lost, so no run that
   * continues from there ever leaves the caption. Every other line leaves it or goes on.
   */
  lemma OtherNameTyped(cfg: Config, m: Machine, w: seq<int>, toks: seq<int>)
    requires AtStart(m) && w != [] && !Indented(cfg, w[0])
    requires 58 in TextOf(cfg, w) && 58 !in TextOf(cfg, w[..|w| - 1])
    ensures (forall f: State :: Follows(cfg, f) ==> !Typed(TextOf(cfg, w), f)) <==> Lost(cfg, Run(cfg, m, w))
    ensures Lost(cfg, Run(cfg, m, w)) ==> Run(cfg, m, w + toks).state == CAPTION_VALUE
  {
    hide Run, Jumped, Lead, Typed, Indented;
    var text := TextOf(cfg, w);
    var e := m.(pendingNewline := false, ending := true, fieldName := text);
    ColonRun(cfg, m, w);
    JumpIs(cfg, e);
    forall f: State | Follows(cfg, f)
      ensures Lead(cfg, text) == ValueOf(f) <==> Typed(text, f)
    {
      LeadIs(cfg, text, f);
    }
    if Lead(cfg, text) != DISABLED {
      var f := LeadsSomewhere(cfg, text);
    } else {
      RunConcat(cfg, m, w, toks);
      LostForever(cfg, Run(cfg, m, w), toks);
    }
  }

  /** One such line: at its start, a token "Note:". */
  lemma NoteIsLost(cfg: Config, m: Machine, t: int)
    requires AtStart(m) && cfg.decode(t) == [78, 111, 116, 101, 58]
    ensures Lost(cfg, Run(cfg, m, [t]))
  {
    var note: Text := [78, 111, 116, 101];
    TextMore(cfg, [], t);
    assert [t][..0] == [];
    assert cfg.decode(t) == note + [58] + [];
    UpToColon(note, []);
    NothingNoted(cfg, note);
    hide Run, Target;
    ColonRun(cfg, m, [t]);
    JumpIs(cfg, m.(pendingNewline := false, ending := true, fieldName := cfg.decode(t)));
  }

  lemma NothingNoted(cfg: Config, note: Text)
    requires note == [78, 111, 116, 101]
    ensures NoTrailingSpace(note) == note && Target(cfg, note) == DISABLED
  {
    assert Ascii("duration")[0] == 100 && Ascii("genres")[0] == 103 && Ascii("keyscale")[0] == 107;
    assert Ascii("language")[0] == 108 && Ascii("timesignature")[0] == 116;
    hide Ascii;
  }
}
