/**
 * The language of the constrained decoder of src/metadata-fsm.h, captions and genres on or off: its runs to
 * the audio codes are exactly the sentences of the metadata grammar.
 */
module Grammar {
  import opened Utf8
  import opened Fsm
  import opened Runs
  import opened Captions

  /** A way through the tree without the newline. */
  ghost predicate Path(tree: Tree, newline: int, w: seq<int>)
  {
    w == [] ||
    (var n := |w| - 1; Path(tree, newline, w[..n]) && w[n] in Next(tree, w[..n]) && w[n] != newline)
  }

  /** What is emitted for a listed field: the forced value, or a listed one up to its newline. */
  ghost predicate Value(cfg: Config, s: State, v: seq<int>)
  {
    if cfg.forced(s) != [] then v == cfg.forced(s)
    else
      v != [] &&
      (var n := |v| - 1;
       && v[n] == cfg.newline && Path(cfg.trees(s), cfg.newline, v[..n])
       && (cfg.newline in Next(cfg.trees(s), v[..n]) || Next(cfg.trees(s), v[..n]) == []))
  }

  /** Genre tokens, each allowed after the text before it. */
  ghost predicate GenrePath(cfg: Config, w: seq<int>)
  {
    w == [] ||
    (var n := |w| - 1;
     GenrePath(cfg, w[..n]) && w[n] in cfg.genreTokens(TextOf(cfg, w[..n])) && w[n] != cfg.newline)
  }

  /** A genre value ends with a newline where one is allowed or nothing is. */
  ghost predicate GenreValue(cfg: Config, v: seq<int>)
  {
    v != [] &&
    (var n := |v| - 1;
     var allowed := cfg.genreTokens(TextOf(cfg, v[..n]));
     v[n] == cfg.newline && GenrePath(cfg, v[..n]) && (cfg.newline in allowed || allowed == []))
  }

  /** What is emitted for the value of field f. */
  ghost predicate ValueFor(cfg: Config, f: State, v: seq<int>)
  {
    if f == GENRES_NAME then GenreValue(cfg, v) else Value(cfg, ValueOf(f), v)
  }

  /** A caption up to the name of field f, and f's value. */
  ghost predicate CaptionBlock(cfg: Config, c: seq<int>, b: nat, f: State)
  {
    b <= |c| && CaptionUpTo(cfg, c[..b], f) && ValueFor(cfg, f, c[b..])
  }

  /**
   * v is all of field p behind its name, and s comes next: a caption takes the field along whose name ends it,
   * and every field between is left out.
   */
  ghost predicate Completes(cfg: Config, p: State, v: seq<int>, s: State)
  {
    if p == CAPTION_NAME then exists b: nat, f :: CaptionBlock(cfg, v, b, f) && NextInLine(cfg, f, s)
    else ValueFor(cfg, p, v) && NextInLine(cfg, p, s)
  }

  /** Field p, its name and what is behind, and s comes next. */
  ghost predicate Block(cfg: Config, p: State, s: State, g: seq<int>)
  {
    Present(cfg, p) && cfg.names(p) <= g && Completes(cfg, p, g[|cfg.names(p)|..], s)
  }

  /** Complete fields from the tempo on, after which s comes next. */
  ghost predicate Blocks(cfg: Config, s: State, e: seq<int>)
    decreases |e|
  {
    if e == [] then s == BPM_NAME
    else exists p, a :: 0 <= a < |e| && Blocks(cfg, p, e[..a]) && Block(cfg, p, s, e[a..])
  }

  /** All fields, then the end of thinking. */
  ghost predicate Sentence(cfg: Config, e: seq<int>)
  {
    e != [] && e[|e| - 1] == cfg.thinkEnd && Blocks(cfg, THINK_END, e[..|e| - 1])
  }

  /** A newline token, and no empty field name. */
  ghost predicate Proper(cfg: Config)
  {
    cfg.newline >= 0 && forall s: State :: Present(cfg, s) ==> cfg.names(s) != []
  }

  /** A permitted run that has not reached the audio codes. */
  predicate Alive(cfg: Config, e: seq<int>) { Permitted(cfg, e) && After(cfg, e).state != CODES }

  /** The run has just reached the audio codes. */
  predicate Finishes(cfg: Config, e: seq<int>)
  {
    e != [] && Alive(cfg, e[..|e| - 1]) && Permitted(cfg, e) && After(cfg, e).state == CODES
  }

  // From sentences to runs: names, values and captions can be emitted token by token.

  lemma {:induction false} NameGiven(cfg: Config, p: State, m: Machine, k: nat)
    requires Present(cfg, p) && Ready(p, m) && k <= |cfg.names(p)| && cfg.names(p) != []
    ensures AllLet(cfg, m, cfg.names(p)[..k])
    ensures k < |cfg.names(p)| ==> Run(cfg, m, cfg.names(p)[..k]) == m.(namePos := k)
    ensures k == |cfg.names(p)| ==> Run(cfg, m, cfg.names(p)[..k]) == m.(state := ValueOf(p), namePos := k)
  {
    assert NamesField(p) && forall j: nat :: Fresh(p, m.(namePos := j));
    hide Present, Step, Lets, ValueOf, Ready, Fresh, NamesField;
    if k == 0 {
      RunNone(cfg, m);
    } else {
      NameGiven(cfg, p, m, k - 1);
      var n := cfg.names(p);
      assert n[..k] == n[..k - 1] + [n[k - 1]];
      RunMore(cfg, m, n[..k - 1], n[k - 1]);
      NameStep(cfg, p, m.(namePos := k - 1), n[k - 1]);
    }
  }

  /** One token of a name: only its next one is let through. */
  lemma NameStep(cfg: Config, p: State, m: Machine, t: int)
    requires NamesField(p) && Fresh(p, m) && m.namePos < |cfg.names(p)|
    ensures Lets(cfg, m, t) <==> t == cfg.names(p)[m.namePos]
    ensures Step(cfg, m, t) == m.(namePos := m.namePos + 1,
                                  state := if m.namePos + 1 == |cfg.names(p)| then ValueOf(p) else p)
  {
  }

  /** In a forced value, with these tokens to come. */
  lemma ForcedStep(cfg: Config, p: State, m: Machine, t: int)
    requires Present(cfg, p) && Listed(ValueOf(p)) && Fresh(ValueOf(p), m.(queue := [])) && Loaded(cfg, m).queue != []
    ensures var queue := Loaded(cfg, m).queue;
            && (Lets(cfg, m, t) <==> t == queue[0])
            && (|queue| > 1 ==> Step(cfg, m, t) == m.(queue := queue[1..]))
            && (|queue| == 1 ==> Ready(NextName(cfg, ValueOf(p)), Step(cfg, m, t)))
  {
    hide NextName;
    var queue := Loaded(cfg, m).queue;
    assert |queue| == 1 ==> queue[1..] == [];
  }

  /** In a listed value that is not forced. */
  lemma ListedStep(cfg: Config, p: State, m: Machine, t: int)
    requires Present(cfg, p) && Listed(ValueOf(p)) && cfg.forced(ValueOf(p)) == [] && cfg.newline >= 0
    requires Fresh(ValueOf(p), m.(acc := []))
    ensures var allowed := Next(cfg.trees(ValueOf(p)), m.acc);
            && (Lets(cfg, m, t) <==> t in allowed || (allowed == [] && t == cfg.newline))
            && (t != cfg.newline ==> Step(cfg, m, t) == m.(acc := m.acc + [t]))
            && (t == cfg.newline ==> Ready(NextName(cfg, ValueOf(p)), Step(cfg, m, t)))
  {
    hide NextName;
  }

  /** In a genre value. */
  lemma GenreStep(cfg: Config, m: Machine, t: int)
    requires cfg.newline >= 0 && Fresh(GENRES_VALUE, m.(genre := []))
    ensures var allowed := cfg.genreTokens(m.genre);
            && (Lets(cfg, m, t) <==> t in allowed || (allowed == [] && t == cfg.newline))
            && (t != cfg.newline ==> Step(cfg, m, t) == m.(genre := m.genre + cfg.decode(t)))
            && (t == cfg.newline ==> Ready(NextName(cfg, GENRES_VALUE), Step(cfg, m, t)))
  {
    hide NextName;
  }

  lemma {:induction false} PathAt(tree: Tree, newline: int, w: seq<int>, k: nat)
    requires Path(tree, newline, w) && k < |w|
    ensures w[k] in Next(tree, w[..k]) && w[k] != newline && Path(tree, newline, w[..k])
  {
    var n := |w| - 1;
    if k < n {
      PathAt(tree, newline, w[..n], k);
      assert w[..n][..k] == w[..k];
    }
  }

  lemma {:induction false} ForcedGiven(cfg: Config, p: State, m: Machine, k: nat)
    requires Present(cfg, p) && Listed(ValueOf(p)) && Fresh(ValueOf(p), m) && 0 < k <= |cfg.forced(ValueOf(p))|
    ensures var v := cfg.forced(ValueOf(p));
            && AllLet(cfg, m, v[..k])
            && (k < |v| ==> Run(cfg, m, v[..k]) == m.(queue := v[k..]))
            && (k == |v| ==> Ready(NextName(cfg, ValueOf(p)), Run(cfg, m, v[..k])))
  {
    hide Present, ValueOf, NextName, Step, Lets;
    var v := cfg.forced(ValueOf(p));
    assert v[..k] == v[..k - 1] + [v[k - 1]];
    RunMore(cfg, m, v[..k - 1], v[k - 1]);
    if k == 1 {
      RunNone(cfg, m);
      assert v[..0] == [];
      ForcedStep(cfg, p, m, v[0]);
    } else {
      ForcedGiven(cfg, p, m, k - 1);
      ForcedStep(cfg, p, m.(queue := v[k - 1..]), v[k - 1]);
      assert v[k - 1..][1..] == v[k..];
    }
  }

  lemma {:induction false} PathGiven(cfg: Config, p: State, m: Machine, w: seq<int>)
    requires Present(cfg, p) && Listed(ValueOf(p)) && Fresh(ValueOf(p), m) && cfg.newline >= 0
    requires cfg.forced(ValueOf(p)) == [] && Path(cfg.trees(ValueOf(p)), cfg.newline, w)
    ensures AllLet(cfg, m, w) && Run(cfg, m, w) == m.(acc := w)
  {
    hide Present, ValueOf, NextName, Step, Lets;
    if w == [] {
      RunNone(cfg, m);
    } else {
      var n := |w| - 1;
      assert w == w[..n] + [w[n]];
      PathGiven(cfg, p, m, w[..n]);
      RunMore(cfg, m, w[..n], w[n]);
      ListedStep(cfg, p, m.(acc := w[..n]), w[n]);
    }
  }

  lemma {:induction false} GenresGiven(cfg: Config, m: Machine, w: seq<int>)
    requires cfg.newline >= 0 && Fresh(GENRES_VALUE, m) && GenrePath(cfg, w)
    ensures AllLet(cfg, m, w) && Run(cfg, m, w) == m.(genre := TextOf(cfg, w))
  {
    hide NextName, Step, Lets;
    if w == [] {
      RunNone(cfg, m);
    } else {
      var n := |w| - 1;
      assert w == w[..n] + [w[n]];
      GenresGiven(cfg, m, w[..n]);
      RunMore(cfg, m, w[..n], w[n]);
      GenreStep(cfg, m.(genre := TextOf(cfg, w[..n])), w[n]);
    }
  }

  lemma ValueKind(cfg: Config, f: State)
    requires Present(cfg, f) && f != CAPTION_NAME
    ensures f == GENRES_NAME ==> ValueOf(f) == GENRES_VALUE
    ensures f != GENRES_NAME ==> Listed(ValueOf(f))
    ensures f in {BPM_NAME, DURATION_NAME, GENRES_NAME, KEYSCALE_NAME, LANGUAGE_NAME, TIMESIG_NAME}
  {
  }

  /** A value can be emitted from its start, and then the next field is at its start. */
  lemma ValueGiven(cfg: Config, f: State, m: Machine, v: seq<int>)
    requires Present(cfg, f) && f != CAPTION_NAME && cfg.newline >= 0 && Fresh(ValueOf(f), m) && ValueFor(cfg, f, v)
    ensures AllLet(cfg, m, v) && Ready(NextName(cfg, ValueOf(f)), Run(cfg, m, v))
  {
    ValueKind(cfg, f);
    hide Present, ValueOf, NextName, Step, Lets, Path, GenrePath;
    if f != GENRES_NAME && cfg.forced(ValueOf(f)) != [] {
      ForcedGiven(cfg, f, m, |v|);
      assert v[..|v|] == v;
    } else {
      var n := |v| - 1;
      assert v == v[..n] + [v[n]];
      RunMore(cfg, m, v[..n], v[n]);
      if f == GENRES_NAME {
        GenresGiven(cfg, m, v[..n]);
        GenreStep(cfg, m.(genre := TextOf(cfg, v[..n])), v[n]);
      } else {
        PathGiven(cfg, f, m, v[..n]);
        ListedStep(cfg, f, m.(acc := v[..n]), v[n]);
      }
    }
  }

  /** A whole field can be emitted. */
  lemma BlockGiven(cfg: Config, p: State, s: State, m: Machine, g: seq<int>)
    requires Proper(cfg) && Ready(p, m) && Block(cfg, p, s, g)
    ensures AllLet(cfg, m, g) && Ready(s, Run(cfg, m, g))
  {
    hide ValueFor, CaptionUpTo, NextInLine, NextName, Run, AllLet;
    var k := |cfg.names(p)|;
    var v := g[k..];
    NameGiven(cfg, p, m, k);
    assert cfg.names(p)[..k] == cfg.names(p) && g == cfg.names(p) + v;
    RunConcat(cfg, m, cfg.names(p), v);
    var n := Run(cfg, m, cfg.names(p));
    if p == CAPTION_NAME {
      var b: nat, f :| CaptionBlock(cfg, v, b, f) && NextInLine(cfg, f, s);
      CaptionGiven(cfg, n, v[..b], f);
      CaptionFollowed(cfg, v[..b], f);
      ValueGiven(cfg, f, Run(cfg, n, v[..b]), v[b..]);
      NextIs(cfg, f);
      RunConcat(cfg, n, v[..b], v[b..]);
      assert v == v[..b] + v[b..];
    } else {
      ValueGiven(cfg, p, n, v);
      NextIs(cfg, p);
    }
  }

  lemma CaptionFollowed(cfg: Config, c: seq<int>, f: State)
    requires CaptionUpTo(cfg, c, f)
    ensures Present(cfg, f) && f != CAPTION_NAME && c != []
  {
  }

  lemma {:induction false} BlocksGiven(cfg: Config, s: State, e: seq<int>)
    requires Proper(cfg) && Blocks(cfg, s, e)
    ensures Permitted(cfg, e) && Ready(s, After(cfg, e))
    decreases |e|
  {
    hide Block, Run, AllLet;
    if e == [] {
      RunNone(cfg, START);
    } else {
      var p, a :| 0 <= a < |e| && Blocks(cfg, p, e[..a]) && Block(cfg, p, s, e[a..]);
      BlocksGiven(cfg, p, e[..a]);
      BlockGiven(cfg, p, s, After(cfg, e[..a]), e[a..]);
      RunConcat(cfg, START, e[..a], e[a..]);
      assert e == e[..a] + e[a..];
    }
  }

  // From runs to sentences: at every moment some fields are complete and one is under way.

  /** The machine has emitted v of field f's value. */
  ghost predicate InValue(cfg: Config, f: State, m: Machine, v: seq<int>)
  {
    && Present(cfg, f) && f != CAPTION_NAME
    && if f == GENRES_NAME then
         Fresh(GENRES_VALUE, m.(genre := [])) && m.genre == TextOf(cfg, v) && GenrePath(cfg, v)
       else
         var s := ValueOf(f);
         && Fresh(s, m.(acc := [], queue := []))
         && if m.queue == [] then v == m.acc && Path(cfg.trees(s), cfg.newline, v) && (cfg.forced(s) != [] ==> v == [])
            else m.acc == [] && v + m.queue == cfg.forced(s)
  }

  /** The machine has emitted c of a caption that is not over. */
  ghost predicate InCaption(cfg: Config, m: Machine, c: seq<int>)
  {
    && (forall t :: t in c ==> !AudioCode(t)) && m.genre == []
    && ((Inside(m) && InLine(cfg, c) && m.acc == []) || (AtStart(m) && AtBreak(cfg, c) && m.acc == [])
        || (Typing(m) && m.acc == [] && exists b: nat :: InName(cfg, m, c, b)))
  }

  /** From the b-th token on, something is typed that names no later field. */
  ghost predicate InName(cfg: Config, m: Machine, c: seq<int>, b: nat)
  {
    && b < |c| && AtBreak(cfg, c[..b]) && !Indented(cfg, c[b]) && m.fieldName == TextOf(cfg, c[b..])
    && (58 in m.fieldName ==> Lost(cfg, m))
  }

  /** The machine has emitted r of field p. */
  ghost predicate Partial(cfg: Config, p: State, m: Machine, r: seq<int>)
  {
    if p == THINK_END then Ready(p, m) && r == []
    else
      && Present(cfg, p)
      && var n := |cfg.names(p)|;
         || (Fresh(p, m) && m.namePos < n && r == cfg.names(p)[..m.namePos])
         || (cfg.names(p) <= r && Behind(cfg, p, m, r[n..]))
  }

  /** The machine has emitted v after the name of field p. */
  ghost predicate Behind(cfg: Config, p: State, m: Machine, v: seq<int>)
  {
    if p == CAPTION_NAME then InCaption(cfg, m, v) || exists b: nat, f :: PastCaption(cfg, m, v, b, f)
    else InValue(cfg, p, m, v)
  }

  ghost predicate PastCaption(cfg: Config, m: Machine, v: seq<int>, b: nat, f: State)
  {
    b <= |v| && CaptionUpTo(cfg, v[..b], f) && InValue(cfg, f, m, v[b..])
  }

  lemma FreshValue(cfg: Config, f: State, m: Machine)
    requires Present(cfg, f) && f != CAPTION_NAME && Fresh(ValueOf(f), m)
    ensures InValue(cfg, f, m, [])
  {
    ValueKind(cfg, f);
  }

  lemma StepInGenres(cfg: Config, m: Machine, v: seq<int>, t: int)
    requires cfg.newline >= 0 && InValue(cfg, GENRES_NAME, m, v) && Lets(cfg, m, t)
    ensures var n := Step(cfg, m, t);
            || InValue(cfg, GENRES_NAME, n, v + [t])
            || (GenreValue(cfg, v + [t]) && Ready(NextName(cfg, GENRES_VALUE), n))
  {
    hide NextName, Step, Lets;
    var u := v + [t];
    assert u[..|u| - 1] == v;
    GenreStep(cfg, m, t);
    TextMore(cfg, v, t);
  }

  lemma StepInListed(cfg: Config, f: State, m: Machine, v: seq<int>, t: int)
    requires cfg.newline >= 0 && InValue(cfg, f, m, v) && Lets(cfg, m, t)
    requires f != GENRES_NAME && Loaded(cfg, m).queue == []
    ensures var n := Step(cfg, m, t);
            || InValue(cfg, f, n, v + [t])
            || (Value(cfg, ValueOf(f), v + [t]) && Ready(NextName(cfg, ValueOf(f)), n))
  {
    ValueKind(cfg, f);
    hide Present, ValueOf, NextName, Step, Lets;
    var u := v + [t];
    assert u[..|u| - 1] == v;
    ListedStep(cfg, f, m, t);
  }

  lemma StepInForced(cfg: Config, f: State, m: Machine, v: seq<int>, t: int)
    requires InValue(cfg, f, m, v) && Lets(cfg, m, t)
    requires f != GENRES_NAME && Loaded(cfg, m).queue != []
    ensures var n := Step(cfg, m, t);
            || InValue(cfg, f, n, v + [t])
            || (Value(cfg, ValueOf(f), v + [t]) && Ready(NextName(cfg, ValueOf(f)), n))
  {
    ValueKind(cfg, f);
    hide Present, ValueOf, NextName, Step, Lets, Path;
    ForcedStep(cfg, f, m, t);
    var queue := Loaded(cfg, m).queue;
    assert queue == [t] + queue[1..];
    assert v + [t] + queue[1..] == v + queue == cfg.forced(ValueOf(f));
    assert queue[1..] == [] ==> v + [t] == v + [t] + queue[1..];
  }

  /** One token later the value goes on, or it is complete and the next field starts. */
  lemma StepInValue(cfg: Config, f: State, m: Machine, v: seq<int>, t: int)
    requires cfg.newline >= 0 && InValue(cfg, f, m, v) && Lets(cfg, m, t)
    ensures var n := Step(cfg, m, t);
            InValue(cfg, f, n, v + [t]) || (ValueFor(cfg, f, v + [t]) && Ready(NextName(cfg, ValueOf(f)), n))
  {
    hide InValue, Value, GenreValue, NextName, Step, Lets;
    if f == GENRES_NAME {
      StepInGenres(cfg, m, v, t);
    } else if Loaded(cfg, m).queue != [] {
      StepInForced(cfg, f, m, v, t);
    } else {
      StepInListed(cfg, f, m, v, t);
    }
  }

  /** One token later the caption goes on, or the value of the field it named starts. */
  lemma StepInCaption(cfg: Config, m: Machine, c: seq<int>, t: int)
    requires InCaption(cfg, m, c) && Lets(cfg, m, t)
    ensures var n := Step(cfg, m, t);
            InCaption(cfg, n, c + [t]) || exists f :: CaptionUpTo(cfg, c + [t], f) && Fresh(ValueOf(f), n)
  {
    hide Lets, Step, EndsLine, Indented, AudioCode, Lead;
    CaptionStep(cfg, m, t);
    var u := c + [t];
    assert u[..|c|] == c && u[|c|] == t;
    if AtStart(m) && !Indented(cfg, t) {
      TextMore(cfg, [], t);
      assert u[|c|..] == [t] && [t][..0] == [];
      Collecting(cfg, m.(pendingNewline := false, ending := true, fieldName := []), u, |c|, t);
    } else if Typing(m) {
      var b: nat :| InName(cfg, m, c, b);
      assert u[b..] == c[b..] + [t] && u[..b] == c[..b] && u[b] == c[b];
      TextMore(cfg, c[b..], t);
      assert u[b..][..|u[b..]| - 1] == c[b..];
      if 58 in m.fieldName {
        LostStays(cfg, m, t);
        assert InName(cfg, Step(cfg, m, t), u, b);
      } else {
        Collecting(cfg, m, u, b, t);
      }
    }
  }

  /** The last token of u goes on with a name that starts at b. */
  lemma Collecting(cfg: Config, m: Machine, u: seq<int>, b: nat, t: int)
    requires b < |u| && u[|u| - 1] == t && AtBreak(cfg, u[..b]) && !Indented(cfg, u[b])
    requires Typing(m) && m.genre == [] && m.acc == [] && forall x :: x in u ==> !AudioCode(x)
    requires m.fieldName == TextOf(cfg, u[b..][..|u[b..]| - 1]) && 58 !in m.fieldName
    requires TextOf(cfg, u[b..]) == m.fieldName + cfg.decode(t)
    ensures var n := Collected(cfg, m, t);
            InCaption(cfg, n, u) || exists f :: CaptionUpTo(cfg, u, f) && Fresh(ValueOf(f), n)
  {
    hide Indented, AudioCode, Lead, Jumped, InLine, AtBreak, Typed;
    var e := m.(fieldName := m.fieldName + cfg.decode(t));
    JumpIs(cfg, e);
    if 58 in e.fieldName && Lead(cfg, e.fieldName) != DISABLED {
      var f := LeadsSomewhere(cfg, e.fieldName);
      assert Naming(cfg, u[b..], f);
      assert CaptionUpTo(cfg, u, f);
    } else {
      assert InName(cfg, e, u, b);
    }
  }

  lemma StepInName(cfg: Config, p: State, m: Machine, r: seq<int>, t: int)
    requires Proper(cfg) && Present(cfg, p) && Fresh(p, m) && m.namePos < |cfg.names(p)|
    requires r == cfg.names(p)[..m.namePos] && Lets(cfg, m, t)
    ensures Partial(cfg, p, Step(cfg, m, t), r + [t])
  {
    hide Lets, Step;
    NameStep(cfg, p, m, t);
    var names, k := cfg.names(p), m.namePos + 1;
    assert r + [t] == names[..k];
    if k == |names| {
      assert names[..k] == names && (r + [t])[k..] == [];
      var n := Step(cfg, m, t);
      if p == CAPTION_NAME {
        assert InCaption(cfg, n, []);
      } else {
        FreshValue(cfg, p, n);
      }
    }
  }

  /** One token behind the name. */
  lemma StepBehind(cfg: Config, p: State, m: Machine, v: seq<int>, t: int) returns (s: State)
    requires Proper(cfg) && Present(cfg, p) && Behind(cfg, p, m, v) && Lets(cfg, m, t)
    ensures var n := Step(cfg, m, t);
            Behind(cfg, p, n, v + [t]) || (Ready(s, n) && Completes(cfg, p, v + [t], s))
  {
    hide Lets, Step, Present, NextInLine, NextName, InValue, InCaption, ValueFor, CaptionUpTo, ValueOf;
    s := NextName(cfg, ValueOf(p));
    var n, u := Step(cfg, m, t), v + [t];
    if p != CAPTION_NAME {
      StepInValue(cfg, p, m, v, t);
      NextIs(cfg, p);
    } else if InCaption(cfg, m, v) {
      StepInCaption(cfg, m, v, t);
      if !InCaption(cfg, n, u) {
        var f :| CaptionUpTo(cfg, u, f) && Fresh(ValueOf(f), n);
        CaptionFollowed(cfg, u, f);
        FreshValue(cfg, f, n);
        assert u[..|u|] == u && u[|u|..] == [];
        assert PastCaption(cfg, n, u, |u|, f);
      }
    } else {
      var b: nat, f :| PastCaption(cfg, m, v, b, f);
      assert u[..b] == v[..b] && u[b..] == v[b..] + [t];
      StepInValue(cfg, f, m, v[b..], t);
      if InValue(cfg, f, n, u[b..]) {
        assert PastCaption(cfg, n, u, b, f);
      } else {
        CaptionFollowed(cfg, v[..b], f);
        NextIs(cfg, f);
        s := NextName(cfg, ValueOf(f));
        assert CaptionBlock(cfg, u, b, f);
      }
    }
  }

  /** One token later: further in the field, or at the start of the next. */
  lemma StepInBlock(cfg: Config, p: State, m: Machine, r: seq<int>, t: int) returns (s: State)
    requires Proper(cfg) && Partial(cfg, p, m, r) && Lets(cfg, m, t) && p != THINK_END
    ensures var n := Step(cfg, m, t);
            Partial(cfg, p, n, r + [t]) || (Block(cfg, p, s, r + [t]) && Ready(s, n))
  {
    hide Lets, Step, Present, NextInLine, NextName, Behind, ValueFor, CaptionBlock;
    s := THINK_END;
    var names, n := cfg.names(p), |cfg.names(p)|;
    if Fresh(p, m) && m.namePos < n && r == names[..m.namePos] {
      StepInName(cfg, p, m, r, t);
    } else {
      var v := r[n..];
      assert (r + [t])[n..] == v + [t];
      s := StepBehind(cfg, p, m, v, t);
    }
  }

  lemma ReadyPartial(cfg: Config, p: State, s: State, g: seq<int>, m: Machine)
    requires Proper(cfg) && Block(cfg, p, s, g) && Ready(s, m)
    ensures Partial(cfg, s, m, [])
  {
    hide CaptionBlock, ValueFor;
    assert cfg.names(s)[..0] == [];
  }

  /** After e, the fields before p are complete in e[..a], and the rest is p's. */
  ghost predicate Between(cfg: Config, m: Machine, e: seq<int>, p: State, a: nat)
  {
    a <= |e| && Blocks(cfg, p, e[..a]) && Partial(cfg, p, m, e[a..])
  }

  lemma Beginning(cfg: Config)
    requires Proper(cfg)
    ensures Between(cfg, START, [], BPM_NAME, 0)
  {
    assert cfg.names(BPM_NAME)[..0] == [];
  }

  lemma PartialState(cfg: Config, p: State, m: Machine, r: seq<int>)
    requires Partial(cfg, p, m, r)
    ensures m.state != CODES && (p == THINK_END ==> r == [])
  {
    hide GenrePath, Path, CaptionUpTo;
  }

  lemma {:induction false} RunBetween(cfg: Config, e: seq<int>) returns (p: State, a: nat)
    requires Proper(cfg) && Alive(cfg, e)
    ensures Between(cfg, After(cfg, e), e, p, a)
  {
    hide Step, Partial, Block, Lets;
    if e == [] {
      Beginning(cfg);
      return BPM_NAME, 0;
    }
    var d, t := e[..|e| - 1], e[|e| - 1];
    CodesStay(cfg, After(cfg, d), t);
    p, a := RunBetween(cfg, d);
    var m := After(cfg, d);
    if p == THINK_END {
      EndStep(cfg, m, d[a..], t);
    } else {
      var s := StepInBlock(cfg, p, m, d[a..], t);
      assert e[..a] == d[..a] && e[a..] == d[a..] + [t];
      if !Partial(cfg, p, After(cfg, e), e[a..]) {
        ReadyPartial(cfg, p, s, e[a..], After(cfg, e));
        BlockDone(cfg, p, s, e, a);
        p, a := s, |e|;
        assert e[..a] == e && e[a..] == [];
      }
    }
  }

  lemma BlockDone(cfg: Config, p: State, s: State, e: seq<int>, a: nat)
    requires a < |e| && Blocks(cfg, p, e[..a]) && Block(cfg, p, s, e[a..])
    ensures Blocks(cfg, s, e)
  {
    hide Block;
  }

  lemma CodesStay(cfg: Config, m: Machine, t: int)
    ensures m.state == CODES ==> Step(cfg, m, t).state == CODES
  {
  }

  lemma EndStep(cfg: Config, m: Machine, r: seq<int>, t: int)
    requires Partial(cfg, THINK_END, m, r)
    ensures Step(cfg, m, t).state == CODES && (Lets(cfg, m, t) <==> t == cfg.thinkEnd) && r == []
  {
  }

  lemma FinishedSentence(cfg: Config, e: seq<int>)
    requires Proper(cfg) && Finishes(cfg, e)
    ensures Sentence(cfg, e)
  {
    hide Step, Partial, Block, Lets;
    var d, t := e[..|e| - 1], e[|e| - 1];
    var p, a := RunBetween(cfg, d);
    var m, n := After(cfg, d), After(cfg, e);
    if p == THINK_END {
      EndStep(cfg, m, d[a..], t);
      assert d[..a] == d;
    } else {
      var s := StepInBlock(cfg, p, m, d[a..], t);
      if Partial(cfg, p, n, d[a..] + [t]) {
        PartialState(cfg, p, n, d[a..] + [t]);
      } else {
        ReadyPartial(cfg, p, s, d[a..] + [t], n);
        PartialState(cfg, s, n, []);
      }
    }
  }

  /** The runs from the start to the audio codes are exactly the sentences of the grammar. */
  lemma RunsAreSentences(cfg: Config, e: seq<int>)
    requires Proper(cfg)
    ensures Finishes(cfg, e) <==> Sentence(cfg, e)
  {
    if Finishes(cfg, e) {
      FinishedSentence(cfg, e);
    }
    if Sentence(cfg, e) {
      hide Blocks, Step, Lets;
      var d := e[..|e| - 1];
      BlocksGiven(cfg, THINK_END, d);
      EndStep(cfg, After(cfg, d), [], cfg.thinkEnd);
    }
  }

  /** Every token the decoder can force or offer is in the vocabulary. */
  ghost predicate Known(cfg: Config)
  {
    && 0 <= cfg.newline < cfg.vocab && 0 <= cfg.thinkEnd < cfg.vocab
    && (forall s: State, t: int :: t in cfg.names(s) || t in cfg.forced(s) ==> 0 <= t < cfg.vocab)
    && (forall s: State, p: seq<int>, t: int :: t in Next(cfg.trees(s), p) ==> 0 <= t < cfg.vocab)
    && (forall g: Text, t: int :: t in cfg.genreTokens(g) ==> 0 <= t < cfg.vocab)
  }

  /** A run that has not finished can always go on. */
  lemma NeverStuck(cfg: Config, e: seq<int>)
    requires Proper(cfg) && Known(cfg) && Alive(cfg, e)
    ensures exists t :: 0 <= t < cfg.vocab && Alive(cfg, e) && Permitted(cfg, e + [t])
  {
    hide Partial, Lets, Known;
    var p, a := RunBetween(cfg, e);
    var t := SomeToken(cfg, p, After(cfg, e), e[a..]);
    RunMore(cfg, START, e, t);
  }

  lemma SomeToken(cfg: Config, p: State, m: Machine, r: seq<int>) returns (t: int)
    requires Proper(cfg) && Known(cfg) && Partial(cfg, p, m, r)
    ensures 0 <= t < cfg.vocab && Lets(cfg, m, t)
  {
    hide InValue, InCaption, CaptionUpTo;
    var n := |cfg.names(p)|;
    if p == THINK_END {
      EndStep(cfg, m, r, cfg.thinkEnd);
      return cfg.thinkEnd;
    }
    if Fresh(p, m) && m.namePos < n {
      t := cfg.names(p)[m.namePos];
      assert t in cfg.names(p);
      NameStep(cfg, p, m, t);
      return;
    }
    hide Lets;
    if p != CAPTION_NAME {
      t := SomeValueToken(cfg, p, m, r[n..]);
    } else if InCaption(cfg, m, r[n..]) {
      t := 0;
      CaptionToken(cfg, m, r[n..]);
    } else {
      var b: nat, f :| PastCaption(cfg, m, r[n..], b, f);
      t := SomeValueToken(cfg, f, m, r[n..][b..]);
    }
  }

  lemma CaptionToken(cfg: Config, m: Machine, c: seq<int>)
    requires InCaption(cfg, m, c)
    ensures Lets(cfg, m, 0)
  {
    hide InLine, AtBreak, InName;
    CaptionStep(cfg, m, 0);
  }

  lemma SomeValueToken(cfg: Config, f: State, m: Machine, v: seq<int>) returns (t: int)
    requires Proper(cfg) && Known(cfg) && InValue(cfg, f, m, v)
    ensures 0 <= t < cfg.vocab && Lets(cfg, m, t)
  {
    ValueKind(cfg, f);
    hide Lets, Step, ValueOf, Present;
    var s := ValueOf(f);
    if f == GENRES_NAME {
      var allowed := cfg.genreTokens(m.genre);
      t := if allowed != [] then allowed[0] else cfg.newline;
      if allowed != [] { assert t in allowed; }
      GenreStep(cfg, m, t);
    } else if Loaded(cfg, m).queue != [] {
      t := Loaded(cfg, m).queue[0];
      assert t in cfg.forced(s) by { if m.queue != [] { assert (v + m.queue)[|v|] == t; } }
      ForcedStep(cfg, f, m, t);
    } else {
      var allowed := Next(cfg.trees(s), m.acc);
      t := if allowed != [] then allowed[0] else cfg.newline;
      if allowed != [] { assert t in allowed; }
      ListedStep(cfg, f, m, t);
    }
  }
}
