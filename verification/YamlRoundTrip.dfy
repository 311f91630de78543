/**
 * Printing a metadata block and reading it back. The argument is about colons: values and captions hold
 * none, so every colon of a printed block ends a field name, and because no field name is the end of
 * another the parser's searches find exactly the fields that were printed. White-space collapsing then
 * erases the wrapping of the caption, and the caption is recovered exactly when its end can be told from
 * what follows it.
 */
module YamlRoundTrip {
  import opened Strings
  import opened Yaml

  predicate EndsWith(s: string, t: string) { |t| <= |s| && s[|s| - |t|..] == t }

  predicate Without(s: string, c: char) { forall i :: 0 <= i < |s| ==> s[i] != c }

  predicate Bare(s: string) { Without(s, ':') && Without(s, '\n') }

  /** A piece of text that ends its line. */
  predicate Closed(head: string) { head != "" && head[|head| - 1] == '\n' }

  /** A field name occurs in text only where a field's name ends with it. */
  lemma NoKeyInside(head: string, rest: string, k: string)
    requires Closed(head) && Bare(k)
    requires forall q :: 0 <= q < |head| && head[q] == ':' ==> !EndsWith(head[..q], k)
    ensures Find(head + rest, k + ":", 0) == Shifted(Find(rest, k + ":", 0), |head|)
  {
    hide Find;
    var s, pat := head + rest, k + ":";
    forall p: nat | p < |head|
      ensures !Occurs(s, pat, p)
    {
      if p + |pat| <= |s| && s[p..p + |pat|] == pat {
        NotAcross(head, rest, k, p);
      }
    }
    FindBehind(head, rest, pat);
  }

  lemma NotAcross(head: string, rest: string, k: string, p: nat)
    requires Closed(head) && Bare(k) && p < |head| && p + |k| < |head + rest|
    requires (head + rest)[p..p + |k| + 1] == k + ":"
    ensures p + |k| < |head| && head[p + |k|] == ':' && EndsWith(head[..p + |k|], k)
  {
    var s, q := head + rest, p + |k|;
    assert s[q] == s[p..q + 1][|k|] == (k + ":")[|k|] == ':';
    forall j | p <= j < q
      ensures s[j] == k[j - p]
    {
      assert s[p..q + 1][j - p] == (k + ":")[j - p];
    }
    assert s[|head| - 1] == '\n';
    assert q < |head|;
    var t := head[..q][p..];
    forall i | 0 <= i < |k|
      ensures t[i] == k[i]
    {
      assert t[i] == s[p + i];
    }
    assert t == k;
  }

  predicate Apart(key: string, k: string) { EndsWith(key, k) <==> key == k }

  /** Items whose names are no end of each other's, with bodies that end their line and hold no colon. */
  ghost predicate Tidy(items: seq<Item>, k: string)
  {
    forall it :: it in items ==> Bare(it.key) && Apart(it.key, k) && Closed(it.body) && Without(it.body, ':')
  }

  function Offset(items: seq<Item>, k: string): (i: int)
    ensures i >= -1
  {
    if items == [] then -1
    else if items[0].key == k then 0
    else Shifted(Offset(items[1..], k), |items[0].key| + 1 + |items[0].body|)
  }

  lemma ColonOnce(key: string, body: string)
    requires Bare(key) && Without(body, ':')
    ensures var head := key + ":" + body; forall q :: 0 <= q < |head| && head[q] == ':' ==> head[..q] == key
  {
    var head := key + ":" + body;
    forall q | 0 <= q < |head| && head[q] == ':'
      ensures head[..q] == key
    {
      assert q == |key|;
    }
  }

  /** The first field with a name is found at its start. */
  lemma {:induction false} FindKey(items: seq<Item>, k: string)
    requires Tidy(items, k) && Bare(k)
    ensures Find(Print(items), k + ":", 0) == Offset(items, k)
  {
    hide Find;
    if items == [] {
      FindUnique("", k + ":", 0, -1);
    } else {
      var h, rest := items[0], Print(items[1..]);
      assert h in items;
      var head := h.key + ":" + h.body;
      if h.key == k {
        assert Print(items)[..|k| + 1] == k + ":";
        assert Occurs(Print(items), k + ":", 0);
        FindUnique(Print(items), k + ":", 0, 0);
      } else {
        FindKey(items[1..], k);
        ColonOnce(h.key, h.body);
        NoKeyInside(head, rest, k);
      }
    }
  }

  /** Text before the first field: nothing, or a newline. */
  predicate Lead(lead: string) { lead == "" || lead == "\n" }

  lemma FindLed(lead: string, items: seq<Item>, k: string)
    requires Lead(lead) && Tidy(items, k) && Bare(k)
    ensures Find(lead + Print(items), k + ":", 0) == Shifted(Offset(items, k), |lead|)
  {
    hide Find;
    FindKey(items, k);
    if lead == "" {
      assert lead + Print(items) == Print(items);
    } else {
      NoKeyInside(lead, Print(items), k);
    }
  }

  /** A value that is printed on a line and read back from it. */
  predicate Plain(v: string)
  {
    v == "" || (Bare(v) && v[0] != ' ' && v[0] != '\'' && v[|v| - 1] != ' ' && v[|v| - 1] != '\'' && v[|v| - 1] != '\r')
  }

  predicate Quote(c: char) { c == ' ' || c == '\'' }

  predicate Trail(c: char) { Quote(c) || c == '\r' }

  /** get_field also takes spaces, quotes and a carriage return off the ends of a line. */
  lemma QuotedRead(s: string, k: string, q: nat, front: string, v: string, behind: string, r: string)
    requires s == front + (v + behind) + r && q <= |front| && Find(s, k + ":", 0) == q - |k| - 1 >= 0
    requires forall i :: q <= i < |front| ==> Quote(front[i])
    requires v != "" && Without(v, '\n') && !Quote(v[0]) && !Trail(v[|v| - 1])
    requires (forall i :: 0 <= i < |behind| ==> Trail(behind[i])) && (r == "" || r[0] == '\n')
    ensures GetField(s, k) == v
  {
    hide Find, SkipQuotes, DropTail, Quote;
    var w := v + behind;
    Skipped(s, q, |front|);
    forall i | 0 <= i < |w| ensures w[i] != '\n' { NoLineEnd(v, behind, i); }
    LineEnd(front, w, r);
    assert s[|front|..|front| + |w|] == w;
    Dropped(v, behind);
  }

  lemma NoLineEnd(v: string, behind: string, i: nat)
    requires Without(v, '\n') && (forall k :: 0 <= k < |behind| ==> Trail(behind[k])) && i < |v| + |behind|
    ensures (v + behind)[i] != '\n'
  {
    if i >= |v| { assert Trail(behind[i - |v|]); }
  }

  /** A line ends at its newline or with the text. */
  lemma LineEnd(front: string, w: string, r: string)
    requires Without(w, '\n') && (r == "" || r[0] == '\n')
    ensures Find(front + w + r, "\n", |front|) == if r == "" then -1 else |front| + |w|
  {
    hide Find;
    var s := front + w + r;
    forall j: nat | |front| <= j < |front| + |w| ensures !Occurs(s, "\n", j) { OneChar(s, '\n', j); }
    if r != "" { OneChar(s, '\n', |front| + |w|); }
    FindUnique(s, "\n", |front|, if r != "" then |front| + |w| else -1);
  }

  lemma {:induction false} Skipped(s: string, q: nat, p: nat)
    requires q <= p < |s| && (forall i :: q <= i < p ==> Quote(s[i])) && !Quote(s[p])
    ensures SkipQuotes(s, q) == p
    decreases p - q
  {
    if q < p { Skipped(s, q + 1, p); }
  }

  lemma {:induction false} Dropped(v: string, behind: string)
    requires forall i :: 0 <= i < |behind| ==> Trail(behind[i])
    requires v != "" && !Trail(v[|v| - 1])
    ensures DropTail(v + behind) == v
  {
    if behind == "" {
      assert v + behind == v;
    } else {
      assert (v + behind)[..|v + behind| - 1] == v + behind[..|behind| - 1];
      Dropped(v, behind[..|behind| - 1]);
    }
  }

  lemma LineRead(s: string, k: string, a: string, v: string, r: string, q: nat)
    requires s == a + Line(v) + r && q == |a| && v != "" && Plain(v)
    requires Find(s, k + ":", 0) == q - |k| - 1 >= 0
    ensures GetField(s, k) == v
  {
    hide Find;
    var p := q + 1;
    assert s[q] == ' ' && s[p] == v[0];
    assert SkipQuotes(s, q) == SkipQuotes(s, p) == p;
    var e := p + |v|;
    assert s[p..e] == v && s[e] == '\n';
    forall j: nat | p <= j < e ensures !Occurs(s, "\n", j) { OneChar(s, '\n', j); assert s[p..e][j - p] == v[j - p]; }
    OneChar(s, '\n', e);
    FindUnique(s, "\n", p, e);
  }

  /** Items split at the field with a name. */
  lemma {:induction false} SplitAt(items: seq<Item>, k: string) returns (a: string, j: nat, r: string)
    requires Offset(items, k) != -1
    ensures j < |items| && items[j].key == k && |a| == Offset(items, k)
    ensures Print(items) == a + (k + ":") + items[j].body + r
  {
    if items[0].key == k {
      a, j, r := "", 0, Print(items[1..]);
    } else {
      a, j, r := SplitAt(items[1..], k);
      j := j + 1;
      var head := items[0].key + ":" + items[0].body;
      assert head + (a + (k + ":") + items[j].body + r) == head + a + (k + ":") + items[j].body + r;
      a := head + a;
    }
  }

  /** Every field with this name has this value; "" means there is none. */
  ghost predicate Holds(items: seq<Item>, k: string, v: string)
  {
    if v == "" then forall it :: it in items ==> it.key != k
    else Item(k, Line(v)) in items && forall it :: it in items && it.key == k ==> it.body == Line(v)
  }

  lemma {:induction false} OffsetFound(items: seq<Item>, k: string)
    ensures Offset(items, k) == -1 <==> forall it :: it in items ==> it.key != k
  {
    if items != [] {
      OffsetFound(items[1..], k);
      assert items == [items[0]] + items[1..];
    }
  }

  /** get_field gives the value printed. */
  lemma FieldRead(lead: string, items: seq<Item>, k: string, v: string)
    requires Lead(lead) && Tidy(items, k) && Bare(k) && Plain(v) && Holds(items, k, v)
    ensures GetField(lead + Print(items), k) == v
  {
    hide Find, Print, SkipQuotes, DropTail, Line, Plain, Tidy;
    FindLed(lead, items, k);
    OffsetFound(items, k);
    if v != "" {
      assert Item(k, Line(v)) in items && Item(k, Line(v)).key == k;
      var a, j, r := SplitAt(items, k);
      assert items[j] in items;
      var cot, front := lead + Print(items), lead + a + (k + ":");
      assert cot == front + Line(v) + r;
      hide GetField;
      LineRead(cot, k, front, v, r, |front|);
    }
  }

  const KEYS: seq<string> := ["bpm", "caption", "duration", "keyscale", "language", "timesignature", "genres"]

  /** Every field name, with enough of its end to tell it from the others. */
  lemma KeyEnd(a: string)
    requires a in KEYS
    ensures || (a == "bpm" && |a| == 3 && a[2] == 'm' && a[1] == 'p')
            || (a == "caption" && |a| == 7 && a[6] == 'n' && a[5] == 'o' && a[2] == 'p')
            || (a == "duration" && |a| == 8 && a[7] == 'n' && a[6] == 'o' && a[3] == 'a')
            || (a == "keyscale" && |a| == 8 && a[7] == 'e' && a[6] == 'l')
            || (a == "language" && |a| == 8 && a[7] == 'e' && a[6] == 'g')
            || (a == "timesignature" && |a| == 13 && a[12] == 'e' && a[11] == 'r')
            || (a == "genres" && |a| == 6 && a[5] == 's' && a[4] == 'e')
  {
  }

  lemma SameTail(a: string, b: string)
    requires EndsWith(a, b) && |b| >= 3
    ensures a[|a| - 1] == b[|b| - 1] && a[|a| - 2] == b[|b| - 2]
    ensures |b| >= 5 ==> a[|a| - 5] == b[|b| - 5]
  {
    var t := a[|a| - |b|..];
    assert t[|b| - 1] == a[|a| - 1] && t[|b| - 2] == a[|a| - 2];
    if |b| >= 5 { assert t[|b| - 5] == a[|a| - 5]; }
  }

  lemma KeyBare(a: string)
    requires a in KEYS
    ensures Bare(a)
  {
  }

  lemma EndsWithSelf(a: string)
    ensures EndsWith(a, a)
  {
    assert a[0..] == a;
  }

  /** Distinct field names are no ends of each other. */
  lemma KeysApart(a: string, b: string)
    requires a in KEYS && b in KEYS
    ensures Apart(a, b) && Bare(a)
  {
    KeyEnd(a);
    KeyEnd(b);
    KeyBare(a);
    EndsWithSelf(b);
    hide KEYS, EndsWith, Bare;
    if EndsWith(a, b) {
      SameTail(a, b);
    }
  }

  /** No two spaces in a row at i. */
  predicate Single(v: string, i: int)
    requires 0 <= i < |v| - 1
  {
    v[i] == ' ' ==> v[i + 1] != ' '
  }

  /** A caption on one line, with single spaces between its words. */
  predicate Normal(v: string)
  {
    v == "" ||
    (Bare(v) && Without(v, '\r') && v[0] != ' ' && v[0] != '\'' && v[|v| - 1] != ' '
     && forall i :: 0 <= i < |v| - 1 ==> Single(v, i))
  }

  predicate Dark(c: char) { c != ' ' && c != '\n' && c != '\r' }

  lemma {:induction false} CollapsedWord(w: string, rest: string, spaced: bool)
    requires w != "" && forall i :: 0 <= i < |w| ==> Dark(w[i])
    ensures Collapsed(w + rest, spaced) == w + Collapsed(rest, false)
  {
    assert (w + rest)[1..] == w[1..] + rest;
    if |w| > 1 {
      CollapsedWord(w[1..], rest, false);
      assert w == [w[0]] + w[1..];
    } else {
      assert w[1..] + rest == rest;
    }
  }

  function Gap(spaced: bool): string { if spaced then "" else " " }

  lemma CollapsedSeparator(col: nat, rest: string, spaced: bool)
    ensures Collapsed(Separator(col) + rest, spaced) == Gap(spaced) + Collapsed(rest, true)
  {
    var s := Separator(col) + rest;
    if col > 80 {
      assert s[1..] == "  " + rest && s[1..][1..] == " " + rest && s[1..][1..][1..] == rest;
      assert Collapsed(s[1..], true) == Collapsed(s[1..][1..], true) == Collapsed(rest, true);
    } else {
      assert s[1..] == rest;
    }
  }

  /** Line breaks and indentation collapse to the single spaces they replaced. */
  lemma {:induction false} CollapsedWrapped(val: string, i: nat, col: nat, spaced: bool, end: string)
    requires Normal(val) && i < |val| && (i > 0 ==> val[i - 1] == ' ') && (end == "" || end == "\n")
    ensures Collapsed(Wrapped(val, i, col) + end, spaced) == Gap(spaced) + val[i..] + if end == "" then "" else " "
    decreases |val| - i
  {
    hide Wrapped, Collapsed, Separator;
    var e := WordEnd(val, i);
    var w, more := val[i..e], if end == "" then "" else " ";
    var col' := (if col > 80 then 2 else col + 1) + e - i;
    var next := if e < |val| then e + 1 else |val|;
    var rest := Wrapped(val, next, col') + end;
    WordSplit(val, i, col, end);
    CollapsedSeparator(col, w + rest, spaced);
    CollapsedWord(w, rest, true);
    var tail := Collapsed(rest, false);
    if e < |val| {
      CollapsedWrapped(val, e + 1, col', false, end);
      WordThenRest(val, i, e, more);
      assert tail == " " + val[e + 1..] + more;
    } else {
      WrappedEnd(val, col');
      CollapsedEnd(end);
      assert w == val[i..] && tail == more;
    }
    Regrouped(Gap(spaced), w, tail, val[i..], more);
  }

  lemma WordThenRest(val: string, i: nat, e: nat, more: string)
    requires i <= e < |val| && val[e] == ' '
    ensures val[i..e] + (" " + val[e + 1..] + more) == val[i..] + more
  {
    assert val[i..] == val[i..e] + (" " + val[e + 1..]);
  }

  lemma Regrouped(a: string, b: string, c: string, d: string, e: string)
    requires b + c == d + e
    ensures a + (b + c) == a + d + e
  {
  }

  lemma WordSplit(val: string, i: nat, col: nat, end: string)
    requires Normal(val) && i < |val| && (i > 0 ==> val[i - 1] == ' ')
    ensures var e := WordEnd(val, i);
            var next := if e < |val| then e + 1 else |val|;
            var col' := (if col > 80 then 2 else col + 1) + e - i;
            && Wrapped(val, i, col) + end == Separator(col) + (val[i..e] + (Wrapped(val, next, col') + end))
            && i < e && (e < |val| ==> e + 1 < |val|)
            && forall k :: 0 <= k < e - i ==> Dark(val[i..e][k])
  {
    hide Separator;
    if i > 0 { assert Single(val, i - 1); }
    assert val[i] != ' ';
    var e := WordEnd(val, i);
    var next, col' := if e < |val| then e + 1 else |val|, (if col > 80 then 2 else col + 1) + e - i;
    WrappedEnd(val, col');
    Grouped(Separator(col), val[i..e], Wrapped(val, next, col'), end);
  }

  lemma Grouped(a: string, b: string, c: string, d: string)
    ensures a + b + c + d == a + (b + (c + d))
  {
  }

  lemma CollapsedEnd(end: string)
    requires end == "" || end == "\n"
    ensures ("" + end == end) && Collapsed(end, false) == if end == "" then "" else " "
  {
    assert end != "" ==> end[1..] == "";
  }

  /** Reading a wrapped caption gives the caption, with or without the last line end. */
  lemma CleanedWrapped(val: string, end: string)
    requires Normal(val) && val != "" && (end == "" || end == "\n")
    ensures Cleaned(Wrapped(val, 0, 8) + end) == val
  {
    hide Wrapped, Collapsed;
    CollapsedWrapped(val, 0, 8, true, end);
    Trimmed(val);
    assert "" + val[0..] + "" == val && "" + val[0..] + " " == val + " ";
  }

  lemma Trimmed(val: string)
    requires val != "" && val[0] != ' ' && val[|val| - 1] != ' '
    ensures DropLeading(DropSpaces(val)) == val && DropLeading(DropSpaces(val + " ")) == val
  {
    var t := val + " ";
    assert t[..|t| - 1] == val;
  }

  predicate Spacing(s: string) { forall i :: 0 <= i < |s| ==> !Dark(s[i]) }

  lemma {:induction false} CollapsedGap(gap: string, rest: string, spaced: bool)
    requires gap != "" && Spacing(gap)
    ensures Collapsed(gap + rest, spaced) == Gap(spaced) + Collapsed(rest, true)
  {
    assert (gap + rest)[1..] == gap[1..] + rest;
    if |gap| > 1 {
      CollapsedGap(gap[1..], rest, true);
    } else {
      assert gap[1..] + rest == rest;
    }
  }

  /** Words, each with white space of any kind behind it. */
  datatype Words = End | Word(w: string, gap: string, rest: Words) {

    predicate Valid()
    {
      Word? ==> && w != "" && (forall i :: 0 <= i < |w| ==> Dark(w[i])) && Spacing(gap) && rest.Valid()
                && (gap == "" ==> rest == End)
    }

    function Text(): string { if End? then "" else w + (gap + rest.Text()) }

    /** With single spaces between the words. */
    function Spaced(): string { if End? then "" else w + if rest.End? then "" else " " + rest.Spaced() }
  }

  lemma {:induction false} CollapsedWords(ws: Words, spaced: bool)
    requires ws.Valid() && ws.Word?
    ensures Collapsed(ws.Text(), spaced) == ws.Spaced() || Collapsed(ws.Text(), spaced) == ws.Spaced() + " "
    ensures ws.Spaced() != "" && ws.Spaced()[0] != ' ' && ws.Spaced()[|ws.Spaced()| - 1] != ' '
  {
    hide Collapsed;
    var rest := ws.rest.Text();
    CollapsedWord(ws.w, ws.gap + rest, spaced);
    if ws.gap == "" {
      assert ws.gap + rest == "";
      CollapsedEnd("");
    } else {
      CollapsedGap(ws.gap, rest, false);
    }
    if ws.rest.Word? {
      CollapsedWords(ws.rest, true);
      assert ws.w + (" " + ws.rest.Spaced()) + " " == ws.w + (" " + (ws.rest.Spaced() + " "));
    } else {
      NothingCollapsed();
      assert ws.gap + "" == ws.gap && " " + "" == " " && ws.w + "" == ws.w;
    }
  }

  lemma NothingCollapsed()
    ensures Collapsed("", true) == ""
  {
  }

  /** Whatever white space stands before, between and behind the words, single spaces between them are left. */
  lemma CleanedWords(before: string, ws: Words)
    requires Spacing(before) && ws.Valid() && ws.Word?
    ensures Cleaned(before + ws.Text()) == ws.Spaced()
  {
    hide Collapsed;
    CollapsedWords(ws, true);
    if before == "" {
      assert before + ws.Text() == ws.Text();
    } else {
      CollapsedGap(before, ws.Text(), true);
      assert "" + Collapsed(ws.Text(), true) == Collapsed(ws.Text(), true);
    }
    Trimmed(ws.Spaced());
  }

  lemma {:induction false} CollapsedKeeps(s: string, spaced: bool, i: nat)
    requires i < |s| && s[i] == ':'
    ensures exists j :: 0 <= j < |Collapsed(s, spaced)| && Collapsed(s, spaced)[j] == ':'
  {
    if i == 0 {
      assert Collapsed(s, spaced)[0] == ':';
    } else {
      var blank := s[0] == '\n' || s[0] == '\r' || s[0] == ' ';
      CollapsedKeeps(s[1..], blank, i - 1);
      var c := Collapsed(s[1..], blank);
      var j :| 0 <= j < |c| && c[j] == ':';
      var front := if blank then Gap(spaced) else [s[0]];
      assert Collapsed(s, spaced) == front + c;
      assert Collapsed(s, spaced)[|front| + j] == ':';
    }
  }

  lemma {:induction false} DropSpacesKeeps(s: string, i: nat)
    requires i < |s| && s[i] == ':'
    ensures i < |DropSpaces(s)| && DropSpaces(s)[i] == ':'
  {
    if s[|s| - 1] == ' ' { DropSpacesKeeps(s[..|s| - 1], i); }
  }

  lemma {:induction false} DropLeadingKeeps(s: string, i: nat)
    requires i < |s| && s[i] == ':'
    ensures !Without(DropLeading(s), ':')
  {
    if s[0] == ' ' { DropLeadingKeeps(s[1..], i - 1); }
  }

  /** Colons survive cleaning. */
  lemma CleanedKeeps(s: string, i: nat)
    requires i < |s| && s[i] == ':'
    ensures !Without(Cleaned(s), ':')
  {
    CollapsedKeeps(s, true, i);
    var c := Collapsed(s, true);
    var j :| 0 <= j < |c| && c[j] == ':';
    DropSpacesKeeps(c, j);
    DropLeadingKeeps(DropSpaces(c), j);
  }

  /** Values that are printed without loss. */
  ghost predicate Printable(p: Prompt, atof: string -> real)
  {
    && p.bpm >= 0 && Plain(p.keyscale) && Plain(p.language) && Plain(p.timesignature) && Normal(p.caption)
    && p.duration >= 0.0 && p.duration == p.duration.Floor as real
    && forall n: nat :: atof(Decimal(n)) == n as real
  }

  lemma LineTidy(v: string)
    requires Plain(v) && v != ""
    ensures Closed(Line(v)) && Without(Line(v), ':')
  {
  }

  lemma DecimalPlain(n: nat)
    ensures Plain(Decimal(n)) && Decimal(n) != ""
  {
    var s := Decimal(n);
    assert '0' <= s[0] <= '9' && '0' <= s[|s| - 1] <= '9';
  }

  lemma {:induction false} WrappedColonless(val: string, i: nat, col: nat)
    requires Bare(val) && i <= |val|
    ensures Without(Wrapped(val, i, col), ':')
    decreases |val| - i
  {
    if i < |val| {
      var e := WordEnd(val, i);
      WrappedColonless(val, if e < |val| then e + 1 else |val|, (if col > 80 then 2 else col + 1) + e - i);
    }
  }

  function CaptionBody(v: string): string { Wrapped(v, 0, 8) + "\n" }

  lemma CaptionTidy(v: string)
    requires Normal(v) && v != ""
    ensures Closed(CaptionBody(v)) && Without(CaptionBody(v), ':')
  {
    WrappedColonless(v, 0, 8);
  }

  function DurationText(p: Prompt): string { if p.duration > 0.0 then Decimal(p.duration.Floor) else "" }

  function BpmText(p: Prompt): string { if p.bpm > 0 then Decimal(p.bpm) else "" }

  lemma TailTidy(p: Prompt, atof: string -> real, k: string)
    requires Printable(p, atof) && k in KEYS
    ensures Tidy(Tail(p), k)
  {
    hide Plain, Line, Decimal, Closed, Without, Bare;
    if p.duration > 0.0 { DecimalPlain(p.duration.Floor); LineTidy(Decimal(p.duration.Floor)); }
    if p.keyscale != "" { LineTidy(p.keyscale); }
    if p.language != "" { LineTidy(p.language); }
    if p.timesignature != "" { LineTidy(p.timesignature); }
    KeysApart("duration", k);
    KeysApart("keyscale", k);
    KeysApart("language", k);
    KeysApart("timesignature", k);
    hide EndsWith, Apart, KEYS;
  }

  lemma ItemsTidy(p: Prompt, atof: string -> real, k: string)
    requires Printable(p, atof) && k in KEYS
    ensures Tidy(Items(p), k)
  {
    hide Plain, Line, Decimal, Closed, Without, Bare, Tail, Normal, Wrapped;
    TailTidy(p, atof, k);
    if p.bpm > 0 { DecimalPlain(p.bpm); LineTidy(Decimal(p.bpm)); }
    if p.caption != "" { CaptionTidy(p.caption); }
    KeysApart("bpm", k);
    KeysApart("caption", k);
    hide EndsWith, Apart, KEYS;
  }

  /** The next field name is found at the newline before it. */
  lemma NextField(body: string, tail: seq<Item>, k: string)
    requires Closed(body) && Without(body, ':') && Tidy(tail, k) && Bare(k) && Offset(tail, k) <= 0
    ensures Find(body + Print(tail), "\n" + (k + ":"), 0) == if Offset(tail, k) == -1 then -1 else |body| - 1
  {
    hide Find, Print;
    FindKey(tail, k);
    NoKeyInside(body, Print(tail), k);
    FindLine(body + Print(tail), k + ":");
  }

  /** The caption's end is found, unless neither a duration nor a keyscale follows. */
  lemma CaptionEndIs(a: string, p: Prompt, atof: string -> real)
    requires Printable(p, atof) && p.caption != ""
    ensures var body, cot := CaptionBody(p.caption), a + (CaptionBody(p.caption) + Print(Tail(p)));
            CaptionEnd(cot, |a|)
            == |a| + if p.duration > 0.0 || p.keyscale != "" then |body| - 1 else |body + Print(Tail(p))|
  {
    hide Find, Print, Line, Decimal, Plain, Normal, Wrapped, CaptionBody;
    var body, tail := CaptionBody(p.caption), Tail(p);
    CaptionTidy(p.caption);
    TailTidy(p, atof, "duration");
    TailTidy(p, atof, "keyscale");
    KeyBare("duration");
    KeyBare("keyscale");
    OffsetFound(tail, "duration");
    OffsetFound(tail, "keyscale");
    TailStarts(p);
    LinePatterns();
    NextField(body, tail, "duration");
    FindFromEnd(a, body + Print(tail), "\nduration:");
    hide Tail, Offset, Tidy, Closed, Without, Bare;
    if p.duration == 0.0 {
      NextField(body, tail, "keyscale");
      FindFromEnd(a, body + Print(tail), "\nkeyscale:");
    }
  }

  lemma LinePatterns()
    ensures "\n" + ("duration" + ":") == "\nduration:" && "\n" + ("keyscale" + ":") == "\nkeyscale:"
  {
  }

  lemma TailStarts(p: Prompt)
    ensures Offset(Tail(p), "duration") == if p.duration > 0.0 then 0 else -1
    ensures p.duration <= 0.0 ==> Offset(Tail(p), "keyscale") == if p.keyscale != "" then 0 else -1
  {
    hide Line, Decimal;
    OffsetFound(Tail(p), "duration");
    OffsetFound(Tail(p), "keyscale");
  }

  /** The block around the caption: what is before it, and the fields after it. */
  lemma CaptionPlace(lead: string, p: Prompt, atof: string -> real) returns (a: string)
    requires Lead(lead) && Printable(p, atof) && p.caption != ""
    ensures var cot := lead + Print(Items(p));
            cot == a + (CaptionBody(p.caption) + Print(Tail(p))) && |a| >= 8 && Find(cot, "caption:", 0) == |a| - 8
  {
    hide Find, Print, Line, Decimal, Tail, CaptionBody, Tidy, Offset, Items;
    var pre := if p.bpm > 0 then [Item("bpm", Line(Decimal(p.bpm)))] else [];
    ItemsTidy(p, atof, "caption");
    KeyBare("caption");
    FindLed(lead, Items(p), "caption");
    PrintPre(p, pre);
    CaptionColon();
    PrintParts(p, pre);
    a := lead + Print(pre) + "caption:";
    Around(lead, Print(pre), "caption:", CaptionBody(p.caption), Print(Tail(p)));
  }

  lemma CaptionColon()
    ensures "caption" + ":" == "caption:" && |"caption:"| == 8
  {
  }

  lemma Around(a: string, b: string, c: string, d: string, e: string)
    ensures a + (b + (c + d) + e) == a + b + c + (d + e)
  {
  }

  lemma PrintParts(p: Prompt, pre: seq<Item>)
    requires p.caption != "" && pre == if p.bpm > 0 then [Item("bpm", Line(Decimal(p.bpm)))] else []
    ensures Print(Items(p)) == Print(pre) + ("caption:" + CaptionBody(p.caption)) + Print(Tail(p))
  {
    hide Line, Decimal, Tail, Wrapped, Print;
    var item := Item("caption", CaptionBody(p.caption));
    assert Items(p) == pre + [item] + Tail(p);
    PrintConcat(pre + [item], Tail(p));
    PrintConcat(pre, [item]);
    PrintOne(item.key, item.body);
    CaptionColon();
  }

  lemma PrintPre(p: Prompt, pre: seq<Item>)
    requires p.caption != "" && pre == if p.bpm > 0 then [Item("bpm", Line(Decimal(p.bpm)))] else []
    ensures Offset(Items(p), "caption") == |Print(pre)|
  {
    hide Line, Decimal, Wrapped, Tail;
    if p.bpm > 0 {
      PrintOne("bpm", Line(Decimal(p.bpm)));
      assert Items(p)[1..][0].key == "caption";
      assert Offset(Items(p)[1..], "caption") == 0;
      assert Items(p)[0].key != "caption";
    } else {
      assert Items(p)[0].key == "caption";
    }
  }

  /** The caption's first line is not blank. */
  lemma CaptionSeen(a: string, v: string, r: string)
    requires Normal(v) && v != "" && |a| >= 8 && Find(a + (CaptionBody(v) + r), "caption:", 0) == |a| - 8
    ensures GetField(a + (CaptionBody(v) + r), "caption") != ""
  {
    hide Find, CaptionBody;
    var body := CaptionBody(v);
    var s, p := a + (body + r), |a| + 1;
    CaptionColon();
    BodyStarts(v);
    assert s[|a|] == body[0] && s[p] == body[1];
    hide DropTail;
    assert SkipQuotes(s, |a|) == SkipQuotes(s, p) == p;
    var end := Find(s, "\n", p);
    OneChar(s, '\n', p);
    var line := s[p..if end == -1 then |s| else end];
    FirstKept(line);
  }

  lemma BodyStarts(v: string)
    requires Normal(v) && v != ""
    ensures |CaptionBody(v)| > 2 && CaptionBody(v)[0] == ' ' && CaptionBody(v)[1] == v[0]
  {
    WordSplit(v, 0, 8, "\n");
    hide Wrapped;
    var e := WordEnd(v, 0);
    assert v[0..e][0] == v[0];
  }

  lemma {:induction false} FirstKept(v: string)
    requires v != "" && v[0] != ' ' && v[0] != '\'' && v[0] != '\r'
    ensures DropTail(v) != ""
  {
    if v[|v| - 1] == ' ' || v[|v| - 1] == '\'' || v[|v| - 1] == '\r' { FirstKept(v[..|v| - 1]); }
  }

  /** A field that ends the caption follows, or nothing does. */
  predicate CaptionSafe(p: Prompt)
  {
    p.caption == "" || p.duration > 0.0 || p.keyscale != "" || (p.language == "" && p.timesignature == "")
  }

  /** The caption is read back exactly when a duration or a keyscale follows it, or nothing at all. */
  lemma CaptionRead(lead: string, p: Prompt, atof: string -> real)
    requires Lead(lead) && Printable(p, atof) && p.caption != ""
    ensures CaptionOf(lead + Print(Items(p))) == p.caption <==> CaptionSafe(p)
  {
    hide Find, Print, Wrapped, GetField, Cleaned, CaptionEnd, Tail, Items;
    var a := CaptionPlace(lead, p, atof);
    var body, r := CaptionBody(p.caption), Print(Tail(p));
    CaptionSeen(a, p.caption, r);
    CaptionEndIs(a, p, atof);
    var cot, text := a + (body + r), Wrapped(p.caption, 0, 8);
    var full := cot[|a|..CaptionEnd(cot, |a|)];
    if p.duration > 0.0 || p.keyscale != "" {
      assert full == text + "";
      CleanedWrapped(p.caption, "");
    } else {
      assert full == body + r;
      TailText(p);
      if p.language == "" && p.timesignature == "" {
        assert full == text + "\n";
        CleanedWrapped(p.caption, "\n");
      } else {
        var i := ColonAt(r);
        assert full[|body| + i] == ':';
        CleanedKeeps(full, |body| + i);
      }
    }
  }

  lemma TailText(p: Prompt)
    requires p.duration <= 0.0 && p.keyscale == ""
    ensures if p.language == "" && p.timesignature == "" then Print(Tail(p)) == ""
            else Tail(p) != [] && !Without(Print(Tail(p)), ':')
  {
    hide Line, Decimal;
    var t := Tail(p);
    if t != [] {
      var s := t[0].key + ":" + t[0].body + Print(t[1..]);
      assert s[|t[0].key|] == ':';
    }
  }

  lemma ColonAt(s: string) returns (i: nat)
    requires !Without(s, ':')
    ensures i < |s| && s[i] == ':'
  {
    i :| i < |s| && s[i] == ':';
  }

  /** The printed block, line by line, of a prompt that has every field. */
  lemma AllPrinted(p: Prompt)
    requires p.bpm > 0 && p.caption != "" && p.duration > 0.0
    requires p.keyscale != "" && p.language != "" && p.timesignature != ""
    ensures Print(Items(p))
            == ("bpm: " + Decimal(p.bpm) + "\n")
               + (("caption:" + Wrapped(p.caption, 0, 8) + "\n")
                  + (("duration: " + Decimal(p.duration.Floor) + "\n")
                     + (("keyscale: " + p.keyscale + "\n")
                        + (("language: " + p.language + "\n")
                           + ("timesignature: " + p.timesignature + "\n")))))
  {
    hide Print, Wrapped, Decimal;
    var t := [Item("keyscale", Line(p.keyscale)), Item("language", Line(p.language)),
              Item("timesignature", Line(p.timesignature))];
    var head := [Item("bpm", Line(Decimal(p.bpm))), Item("caption", Wrapped(p.caption, 0, 8) + "\n"),
                 Item("duration", Line(Decimal(p.duration.Floor)))];
    assert Items(p) == head + t;
    hide Line;
    PrintThree(t, "");
    PrintThree(head, Print(t));
    PrintConcat(head, t);
    assert Print(t) + "" == Print(t);
    LinePrinted("bpm", "bpm: ", Decimal(p.bpm));
    BodyPrinted("caption", "caption:", Wrapped(p.caption, 0, 8), "\n");
    LinePrinted("duration", "duration: ", Decimal(p.duration.Floor));
    LinePrinted("keyscale", "keyscale: ", p.keyscale);
    LinePrinted("language", "language: ", p.language);
    LinePrinted("timesignature", "timesignature: ", p.timesignature);
  }

  lemma LinePrinted(key: string, lead: string, v: string)
    requires lead == key + ": "
    ensures key + ":" + Line(v) == lead + v + "\n" && key + ":" + Line(v) + "" == key + ":" + Line(v)
  {
  }

  lemma BodyPrinted(key: string, lead: string, v: string, end: string)
    requires lead == key + ":"
    ensures key + ":" + (v + end) == lead + v + end
  {
  }

  lemma PrintThree(items: seq<Item>, rest: string)
    requires |items| == 3
    ensures Print(items) + rest
            == (items[0].key + ":" + items[0].body)
               + ((items[1].key + ":" + items[1].body) + ((items[2].key + ":" + items[2].body) + rest))
  {
    assert items[1..][1..] == [items[2]];
    PrintOne(items[2].key, items[2].body);
    hide Print;
  }

  /** What is printed for each field name. */
  function TextOf(p: Prompt, k: string): string
  {
    if k == "bpm" then BpmText(p) else if k == "duration" then DurationText(p) else if k == "keyscale" then p.keyscale
    else if k == "language" then p.language else if k == "timesignature" then p.timesignature else ""
  }

  lemma ItemsHold(p: Prompt, k: string)
    requires k in KEYS && k != "caption"
    ensures Holds(Items(p), k, TextOf(p, k))
  {
    hide Line, Decimal, Wrapped;
    DecimalSeen(p);
    KeyEnd(k);
    hide KEYS;
  }

  lemma DecimalSeen(p: Prompt)
    ensures p.bpm > 0 ==> Decimal(p.bpm) != ""
    ensures p.duration > 0.0 ==> Decimal(p.duration.Floor) != ""
  {
  }

  /** Every single-line field is read back. */
  lemma FieldsRead(lead: string, p: Prompt, atof: string -> real, k: string)
    requires Lead(lead) && Printable(p, atof) && k in KEYS && k != "caption"
    ensures GetField(lead + Print(Items(p)), k) == TextOf(p, k)
  {
    hide GetField, Items, Tidy, Holds, Bare, Normal;
    ItemsTidy(p, atof, k);
    ItemsHold(p, k);
    KeyBare(k);
    if p.bpm > 0 { DecimalPlain(p.bpm); }
    if p.duration > 0.0 { DecimalPlain(p.duration.Floor); }
    hide KEYS;
    FieldRead(lead, Items(p), k, TextOf(p, k));
  }

  /** Reading a printed metadata block gives every field back exactly when the caption's end can be told. */
  lemma BlockRoundTrip(lead: string, p: Prompt, atof: string -> real)
    requires Lead(lead) && Printable(p, atof) && p.lyrics == "" && p.genres == ""
    ensures Fields(lead + Print(Items(p)), atof) == p <==> CaptionSafe(p)
  {
    hide GetField, Print, Items, CaptionOf, Plain, Normal, CaptionSafe, Atoi;
    FieldsRead(lead, p, atof, "bpm");
    FieldsRead(lead, p, atof, "duration");
    FieldsRead(lead, p, atof, "keyscale");
    FieldsRead(lead, p, atof, "language");
    FieldsRead(lead, p, atof, "timesignature");
    FieldsRead(lead, p, atof, "genres");
    if p.bpm > 0 { AtoiDecimal(p.bpm); DecimalPlain(p.bpm); }
    if p.duration > 0.0 { DecimalPlain(p.duration.Floor); }
    if p.caption != "" { CaptionRead(lead, p, atof); } else { NoCaption(lead, p, atof); }
  }

  /** Over what a prompt held before, the printed fields are put in, and the others stay. */
  lemma BlockOver(init: Prompt, lead: string, p: Prompt, atof: string -> real)
    requires Lead(lead) && Printable(p, atof) && CaptionSafe(p)
    ensures FieldsOver(init, lead + Print(Items(p)), atof)
            == Prompt(if p.caption != "" then p.caption else init.caption, init.lyrics,
                      if p.duration > 0.0 then p.duration else init.duration,
                      if p.bpm > 0 then p.bpm else init.bpm,
                      if p.keyscale != "" then p.keyscale else init.keyscale,
                      if p.timesignature != "" then p.timesignature else init.timesignature,
                      if p.language != "" then p.language else init.language, init.genres)
  {
    hide GetField, Print, Items, CaptionOf, Plain, Normal, CaptionSafe, Atoi;
    FieldsRead(lead, p, atof, "bpm");
    FieldsRead(lead, p, atof, "duration");
    FieldsRead(lead, p, atof, "keyscale");
    FieldsRead(lead, p, atof, "language");
    FieldsRead(lead, p, atof, "timesignature");
    FieldsRead(lead, p, atof, "genres");
    if p.bpm > 0 { AtoiDecimal(p.bpm); DecimalPlain(p.bpm); }
    if p.duration > 0.0 { DecimalPlain(p.duration.Floor); }
    if p.caption != "" { CaptionRead(lead, p, atof); } else { NoCaption(lead, p, atof); }
  }

  lemma NoCaption(lead: string, p: Prompt, atof: string -> real)
    requires Lead(lead) && Printable(p, atof) && p.caption == ""
    ensures CaptionOf(lead + Print(Items(p))) == "" && CaptionSafe(p)
  {
    ItemsTidy(p, atof, "caption");
    KeyBare("caption");
    NoCaptionItem(p);
    hide Plain, Line, Decimal, Print, Items, KEYS, Bare, Tidy, Find;
    OffsetFound(Items(p), "caption");
    FindLed(lead, Items(p), "caption");
    CaptionColon();
  }

  lemma NoCaptionItem(p: Prompt)
    requires p.caption == ""
    ensures forall it :: it in Items(p) ==> it.key != "caption"
  {
    hide Line, Decimal;
  }

  /** A block with its tags around it. */
  function Tagged(cot: string, after: string): string { "<think>" + cot + "</think>" + after }

  lemma TagPlaces(cot: string, after: string)
    ensures var text, n := Tagged(cot, after), |OPEN| + |cot|;
            && Occurs(text, OPEN, 0) && Occurs(text, CLOSE, n)
            && text[|OPEN|..n] == cot && text[n + |CLOSE|..] == after
            && n < |text| && text[n] == '<' && |OPEN| == 7 && |CLOSE| == 8
  {
    var front := OPEN + cot;
    assert Tagged(cot, after) == front + (CLOSE + after);
    assert CLOSE[0] == '<';
  }

  /** The closing tag is found behind a block that does not hold it. */
  lemma TagFound(cot: string, after: string)
    requires Find(cot, CLOSE, 0) == -1
    ensures Split(Tagged(cot, after)) == (cot, after)
  {
    var text, n := Tagged(cot, after), |OPEN| + |cot|;
    TagPlaces(cot, after);
    forall j: nat | j < n ensures !Occurs(text, CLOSE, j) { TagInside(cot, after, j); }
    hide Find, Occurs, Tagged, OPEN, CLOSE;
    FindUnique(text, OPEN, 0, 0);
    FindUnique(text, CLOSE, 0, n);
  }

  /** Before its place the closing tag can only stand inside the block. */
  lemma TagInside(cot: string, after: string, j: nat)
    requires j < |OPEN| + |cot|
    ensures Occurs(Tagged(cot, after), CLOSE, j) ==> j >= |OPEN| && Occurs(cot, CLOSE, j - |OPEN|)
  {
    var text, n := Tagged(cot, after), |OPEN| + |cot|;
    TagPlaces(cot, after);
    if Occurs(text, CLOSE, j) {
      var t := text[j..j + 8];
      assert t == CLOSE;
      forall m | j < m < j + 8 ensures text[m] != '<' { assert t[m - j] == text[m]; }
      assert j + 8 <= n;
      assert t[0] == text[j] && t[1] == text[j + 1];
      assert j >= 7;
      var c := text[7..n];
      assert c[j - 7..j - 7 + 8] == t;
    }
  }

  predicate White(c: char) { c == ' ' || c == '\t' || c == '\n' || c == '\r' }

  predicate AllBlank(s: string) { forall i :: 0 <= i < |s| ==> White(s[i]) }

  /** White space that is taken off the end: tabs are not. */
  predicate Shed(s: string) { forall i :: 0 <= i < |s| ==> s[i] == ' ' || s[i] == '\n' || s[i] == '\r' }

  predicate Ended(v: string) { v == "" || !Shed([v[|v| - 1]]) }

  /** Lyrics that start and end visibly and do not hold the header early on, even with the line end behind them. */
  predicate Sung(v: string)
  {
    && v != "" && !White(v[0]) && Ended(v)
    && (Find(v + "\n", LYRIC_HEADER, 0) == -1 || Find(v + "\n", LYRIC_HEADER, 0) >= 64)
  }

  lemma {:induction false} SkipPad(pad: string, v: string)
    requires AllBlank(pad)
    ensures SkipBlank(pad + v) == SkipBlank(v)
  {
    if pad == "" {
      assert pad + v == v;
    } else {
      assert (pad + v)[1..] == pad[1..] + v;
      SkipPad(pad[1..], v);
    }
  }

  lemma {:induction false} Shedding(v: string, tail: string)
    requires Ended(v) && Shed(tail)
    ensures DropBlank(v + tail) == v
  {
    if tail == "" {
      assert v + tail == v;
    } else {
      var s := v + tail;
      assert s[|s| - 1] == tail[|tail| - 1] && s[..|s| - 1] == v + tail[..|tail| - 1];
      Shedding(v, tail[..|tail| - 1]);
    }
  }

  /** The header ends in a line end and has no other white space at its end, so it lies in the lyrics. */
  lemma HeaderInside(v: string, tail: string, j: nat)
    requires Shed(tail) && Occurs(v + tail, LYRIC_HEADER, j)
    ensures Occurs(v + "\n", LYRIC_HEADER, j)
  {
    var s := v + tail;
    assert s[j..j + 8][6] == s[j + 6] == 'c' && s[j..j + 8][7] == s[j + 7] == '\n';
    assert (v + "\n")[j..j + 8] == s[j..j + 8];
  }

  lemma {:induction false} NoHeader(pad: string, i: nat)
    requires AllBlank(pad) && i <= |pad|
    ensures Find(pad, LYRIC_HEADER, i) == -1
    decreases |pad| - i
  {
    if i + |LYRIC_HEADER| <= |pad| {
      assert pad[i..i + |LYRIC_HEADER|][0] == pad[i];
    }
    if i < |pad| {
      NoHeader(pad, i + 1);
    }
  }

  /** Lyrics are read without the white space around them. */
  lemma LyricsRead(pad: string, v: string, tail: string)
    requires AllBlank(pad) && Sung(v) && Shed(tail)
    ensures Lyrics(pad + (v + tail)) == v
  {
    hide Find, Shed;
    SkipPad(pad, v + tail);
    forall j: nat | Occurs(v + tail, LYRIC_HEADER, j) ensures Occurs(v + "\n", LYRIC_HEADER, j) {
      HeaderInside(v, tail, j);
    }
    Shedding(v, tail);
  }

  /** White space alone is no lyrics, unless it has tabs in it. */
  lemma NothingRead(pad: string)
    requires Shed(pad)
    ensures Lyrics(pad) == ""
  {
    hide Find;
    assert pad + "" == pad && "" + pad == pad;
    SkipPad(pad, "");
    NoHeader(pad, 0);
    Shedding("", pad);
  }

  /** A short beginning with the lyric header right behind it and not before. */
  predicate Introduces(intro: string)
  {
    && |intro| < 64 && (intro == "" || !White(intro[0]))
    && Find(intro + LYRIC_HEADER, LYRIC_HEADER, 0) == |intro|
  }

  lemma FirstIn(s: string, pat: string, t: string)
    requires Find(s, pat, 0) >= 0
    ensures Find(s + t, pat, 0) == Find(s, pat, 0)
  {
    var i := Find(s, pat, 0);
    assert (s + t)[i..i + |pat|] == s[i..i + |pat|];
    forall j: nat | j < i ensures !Occurs(s + t, pat, j) {
      assert (s + t)[j..j + |pat|] == s[j..j + |pat|];
      assert !Occurs(s, pat, j);
    }
    FindUnique(s + t, pat, 0, i);
  }

  /** A lyric header within the first 64 characters is taken off with everything before it. */
  lemma HeaderTaken(pad: string, intro: string, v: string, tail: string)
    requires AllBlank(pad) && Introduces(intro) && Ended(v) && Shed(tail)
    ensures Lyrics(pad + (intro + LYRIC_HEADER + (v + tail))) == v
  {
    hide Find, Shed, Ended;
    var text := intro + LYRIC_HEADER + (v + tail);
    SkipPad(pad, text);
    assert text[0] == if intro == "" then '#' else intro[0];
    assert SkipBlank(text) == text;
    FirstIn(intro + LYRIC_HEADER, LYRIC_HEADER, v + tail);
    assert text[|intro| + |LYRIC_HEADER|..] == v + tail;
    Shedding(v, tail);
  }

  /** A header that comes later is part of the lyrics. */
  lemma LateHeaderStays(pad: string, v: string, tail: string)
    requires AllBlank(pad) && v != "" && !White(v[0]) && Ended(v) && Shed(tail)
    requires Find(v + "\n", LYRIC_HEADER, 0) >= 64
    ensures Lyrics(pad + (v + tail)) == v
  {
    hide Find;
    LyricsRead(pad, v, tail);
  }

  /** The ways to write lyrics behind the metadata: as they are, behind a header, or none. */
  ghost predicate Writes(after: string, v: string)
  {
    || (v == "" && Shed(after))
    || (exists pad: string, tail: string :: AllBlank(pad) && Sung(v) && Shed(tail) && after == pad + (v + tail))
    || (exists pad: string, intro: string, tail: string ::
          && AllBlank(pad) && Introduces(intro) && Ended(v) && Shed(tail)
          && after == pad + (intro + LYRIC_HEADER + (v + tail)))
  }

  lemma WrittenRead(after: string, v: string)
    requires Writes(after, v)
    ensures Lyrics(after) == v
  {
    hide Lyrics, Introduces, Sung, Ended, Shed, AllBlank;
    if v == "" && Shed(after) {
      NothingRead(after);
    } else if pad: string, tail: string :|
        AllBlank(pad) && Sung(v) && Shed(tail) && after == pad + (v + tail) {
      LyricsRead(pad, v, tail);
    } else {
      var pad: string, intro: string, tail: string :|
        && AllBlank(pad) && Introduces(intro) && Ended(v) && Shed(tail)
        && after == pad + (intro + LYRIC_HEADER + (v + tail));
      HeaderTaken(pad, intro, v, tail);
    }
  }

  /** A block with only the closing tag behind it. */
  lemma UnopenedFound(cot: string, after: string)
    requires Find(cot, CLOSE, 0) == -1 && Find(cot + CLOSE + after, OPEN, 0) == -1
    ensures Split(cot + CLOSE + after) == (cot, after)
  {
    var text, n := cot + CLOSE + after, |cot|;
    assert text == cot + (CLOSE + after);
    assert text[n..n + 8] == CLOSE && text[..n] == cot && text[n + 8..] == after;
    forall j: nat | j < n ensures !Occurs(text, CLOSE, j) { BeforeClose(cot, after, j); }
    hide Find;
    FindUnique(text, CLOSE, 0, n);
  }

  lemma BeforeClose(cot: string, after: string, j: nat)
    requires j < |cot| && Find(cot, CLOSE, 0) == -1
    ensures !Occurs(cot + CLOSE + after, CLOSE, j)
  {
    var text, n := cot + CLOSE + after, |cot|;
    assert text[n] == '<';
    if j + 8 <= n {
      assert !Occurs(cot, CLOSE, j);
      assert text[j..j + 8] == cot[j..j + 8];
    } else {
      CloseTail(n - j);
      if j + 8 <= |text| {
        assert text[j..j + 8][n - j] == text[n];
      }
    }
  }

  lemma CloseTail(m: nat)
    requires 0 < m < 8
    ensures |CLOSE| == 8 && CLOSE[m] != '<'
  {
  }

  /** A block without tags is all metadata. */
  lemma UntaggedFound(cot: string)
    requires Find(cot, CLOSE, 0) == -1
    ensures Split(cot) == (cot, "")
  {
  }

  /**
   * A prompt printed between think tags, or before the closing one, with its lyrics if any after them, is
   * read back into a blank prompt exactly when the caption's end can be told.
   */
  lemma PromptRoundTrip(lead: string, p: Prompt, after: string, text: string, atof: string -> real)
    requires Lead(lead) && Printable(p, atof) && p.genres == "" && Writes(after, p.lyrics)
    requires var cot := lead + Print(Items(p));
             && Find(cot, CLOSE, 0) == -1
             && (|| text == Tagged(cot, after)
                 || (text == cot + CLOSE + after && Find(text, OPEN, 0) == -1)
                 || (text == cot && p.lyrics == ""))
    ensures Parsed(BLANK, text, atof) == p <==> CaptionSafe(p)
  {
    hide FieldsOver, Print, Items, Find, CaptionSafe, Tagged, Lyrics, Writes;
    var cot := lead + Print(Items(p));
    if text == Tagged(cot, after) {
      TagFound(cot, after);
    } else if text == cot + CLOSE + after && Find(text, OPEN, 0) == -1 {
      UnopenedFound(cot, after);
    } else {
      UntaggedFound(cot);
      NoLyrics();
    }
    var q := p.(lyrics := "");
    SameItems(p, q);
    BlockRoundTrip(lead, q, atof);
    FieldsLyrics(cot, atof);
    WrittenRead(after, p.lyrics);
  }

  lemma NoLyrics()
    ensures Lyrics("") == ""
  {
  }

  lemma SameItems(p: Prompt, q: Prompt)
    requires q == p.(lyrics := "")
    ensures Items(p) == Items(q) && (CaptionSafe(p) <==> CaptionSafe(q))
  {
    assert Tail(p) == Tail(q);
  }

  lemma FieldsLyrics(cot: string, atof: string -> real)
    ensures Fields(cot, atof).lyrics == ""
  {
  }
}
