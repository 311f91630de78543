/**
 * The metadata block of src/prompt.h: build_cot_yaml prints it with 80-column wrapping, and
 * parse_cot_and_lyrics reads it back. The printer is specified as a list of items, each a field name and a
 * body that ends its line; the parser as functions of the text. The methods are the loops of the source
 * and are proved to compute them.
 */
module Yaml {
  import opened Strings

  datatype Prompt = Prompt(caption: string, lyrics: string, duration: real, bpm: int, keyscale: string,
                           timesignature: string, language: string, genres: string)

  const BLANK: Prompt := Prompt("", "", 0.0, 0, "", "", "", "")

  /** A printed field: key, colon, body up to and including its newline. */
  datatype Item = Item(key: string, body: string)

  function Print(items: seq<Item>): string
  {
    if items == [] then "" else items[0].key + ":" + items[0].body + Print(items[1..])
  }

  /** End of the word at i. */
  function WordEnd(val: string, i: nat): (e: nat)
    requires i <= |val|
    ensures i <= e <= |val| && (e < |val| ==> val[e] == ' ') && forall k :: i <= k < e ==> val[k] != ' '
    decreases |val| - i
  {
    if i == |val| || val[i] == ' ' then i else WordEnd(val, i + 1)
  }

  function Separator(col: nat): string { if col > 80 then "\n  " else " " }

  /** The words of val from i on, each after a space or, past column 80, on a new indented line. */
  function Wrapped(val: string, i: nat, col: nat): string
    requires i <= |val|
    decreases |val| - i
  {
    if i == |val| then ""
    else
      var e := WordEnd(val, i);
      var col' := (if col > 80 then 2 else col + 1) + e - i;
      Separator(col) + val[i..e] + Wrapped(val, if e < |val| then e + 1 else |val|, col')
  }

  method Wrap(key: string, val: string) returns (result: string)
    ensures result == key + ":" + (Wrapped(val, 0, |key| + 1) + "\n")
  {
    hide Find, Wrapped;
    var head := key + ":";
    var body: string, col: nat, i: nat := "", |key| + 1, 0;
    assert body + Wrapped(val, 0, col) == Wrapped(val, 0, col);
    while i < |val|
      invariant i <= |val| && body + Wrapped(val, i, col) == Wrapped(val, 0, |key| + 1)
    {
      var end := FindFrom(val, " ", i);
      if end == -1 { end := |val|; }
      EndFound(val, i, end);
      WrappedStep(val, i, col, body);
      var word := val[i..end];
      if col > 80 {
        body := body + ("\n  " + word);
        col := 2;
      } else {
        body := body + (" " + word);
        col := col + 1;
      }
      col := col + |word|;
      i := if end < |val| then end + 1 else |val|;
    }
    WrappedEnd(val, col);
    assert body + "" == body;
    result := head + (body + "\n");
  }

  lemma WrappedEnd(val: string, col: nat)
    ensures Wrapped(val, |val|, col) == ""
  {
  }

  /** What one pass of the loop adds. */
  lemma WrappedStep(val: string, i: nat, col: nat, body: string)
    requires i < |val|
    ensures var e := WordEnd(val, i);
            var next := if e < |val| then e + 1 else |val|;
            body + Wrapped(val, i, col)
            == body + (Separator(col) + val[i..e]) + Wrapped(val, next, (if col > 80 then 2 else col + 1) + |val[i..e]|)
  {
    hide Separator;
  }

  lemma EndFound(val: string, i: nat, end: int)
    requires i < |val| && end == if Find(val, " ", i) == -1 then |val| else Find(val, " ", i)
    ensures end == WordEnd(val, i)
  {
    var e := WordEnd(val, i);
    forall j: nat | i <= j < e ensures !Occurs(val, " ", j) { OneChar(val, ' ', j); }
    if e < |val| { OneChar(val, ' ', e); }
  }

  lemma OneChar(s: string, c: char, j: nat)
    requires j < |s|
    ensures Occurs(s, [c], j) <==> s[j] == c
  {
    assert s[j..j + 1] == [s[j]];
  }

  /** Characters since the last newline. */
  function Column(s: string): nat
  {
    if s == "" || s[|s| - 1] == '\n' then 0 else 1 + Column(s[..|s| - 1])
  }

  /** Of the two spaces a wrapped line starts with. */
  predicate Indent(r: string, k: nat)
    requires k < |r|
  {
    r[k] == ' ' && ((k >= 1 && r[k - 1] == '\n') || (k >= 2 && r[k - 2] == '\n' && r[k - 1] == ' '))
  }

  /** A line is broken past column 80, and words on the same line are parted up to there. */
  predicate BrokenAt(r: string, k: nat)
    requires k < |r|
  {
    && (r[k] == '\n' ==> Column(r[..k]) > 80)
    && (r[k] == ' ' && !Indent(r, k) ==> Column(r[..k]) <= 80)
  }

  lemma {:induction false} ColumnMore(s: string, w: string)
    requires forall i :: 0 <= i < |w| ==> w[i] != '\n'
    ensures Column(s + w) == Column(s) + |w|
  {
    if w == "" {
      assert s + w == s;
    } else {
      assert (s + w)[..|s + w| - 1] == s + w[..|w| - 1];
      ColumnMore(s, w[..|w| - 1]);
    }
  }

  lemma ColumnBroken(s: string)
    ensures Column(s + "\n  ") == 2
  {
    assert s + "\n  " == s + "\n" + "  ";
    ColumnMore(s + "\n", "  ");
  }

  /** One more separator and word. */
  lemma WordBroken(b: string, w: string)
    requires (forall k: nat :: k < |b| ==> BrokenAt(b, k)) && forall i :: 0 <= i < |w| ==> w[i] != '\n' && w[i] != ' '
    ensures var c := b + (Separator(Column(b)) + w);
            && (forall k: nat :: k < |c| ==> BrokenAt(c, k))
            && Column(c) == (if Column(b) > 80 then 2 else Column(b) + 1) + |w|
  {
    hide Column;
    var c := b + (Separator(Column(b)) + w);
    assert c == b + Separator(Column(b)) + w;
    ColumnMore(b, " ");
    ColumnBroken(b);
    ColumnMore(b + Separator(Column(b)), w);
    forall k: nat | k < |c|
      ensures BrokenAt(c, k)
    {
      if k <= |b| { assert c[..k] == b[..k]; }
      if k < |b| { assert BrokenAt(b, k); }
      assert b[..|b|] == b;
    }
  }

  /** A wrapped value is broken exactly past column 80. */
  lemma {:induction false} WrappedBroken(head: string, val: string, i: nat)
    requires i <= |val| && forall k :: i <= k < |val| ==> val[k] != '\n'
    requires forall k: nat :: k < |head| ==> BrokenAt(head, k)
    ensures var r := head + Wrapped(val, i, Column(head));
            forall k: nat :: k < |r| ==> BrokenAt(r, k)
    decreases |val| - i
  {
    hide Column, BrokenAt, Separator, Wrapped;
    if i == |val| {
      WrappedEnd(val, Column(head));
      assert head + "" == head;
    } else {
      var e := WordEnd(val, i);
      WordBroken(head, val[i..e]);
      var more := head + (Separator(Column(head)) + val[i..e]);
      WrappedStep(val, i, Column(head), head);
      WrappedBroken(more, val, if e < |val| then e + 1 else |val|);
    }
  }

  function Line(v: string): string { " " + v + "\n" }

  /** The fields build_cot_yaml prints, in order. */
  function Items(p: Prompt): seq<Item>
  {
    (if p.bpm > 0 then [Item("bpm", Line(Decimal(p.bpm)))] else [])
    + (if p.caption != "" then [Item("caption", Wrapped(p.caption, 0, 8) + "\n")] else [])
    + Tail(p)
  }

  /** The fields after the caption. */
  function Tail(p: Prompt): seq<Item>
  {
    (if p.duration > 0.0 then [Item("duration", Line(Decimal(p.duration.Floor)))] else [])
    + (if p.keyscale != "" then [Item("keyscale", Line(p.keyscale))] else [])
    + (if p.language != "" then [Item("language", Line(p.language))] else [])
    + (if p.timesignature != "" then [Item("timesignature", Line(p.timesignature))] else [])
  }

  lemma {:induction false} PrintConcat(a: seq<Item>, b: seq<Item>)
    ensures Print(a + b) == Print(a) + Print(b)
  {
    if a == [] {
      assert a + b == b;
    } else {
      assert (a + b)[0] == a[0] && (a + b)[1..] == a[1..] + b;
      PrintConcat(a[1..], b);
    }
  }

  lemma PrintOne(key: string, body: string)
    ensures Print([Item(key, body)]) == key + ":" + body
  {
    assert Print([Item(key, body)][1..]) == "";
  }

  /** build_cot_yaml. */
  method BuildYaml(p: Prompt) returns (yaml: string)
    ensures yaml == Print(Items(p))
  {
    hide Print, Decimal, Wrapped, Tail, Line;
    yaml := "";
    ghost var items: seq<Item> := [];
    NothingPrinted();
    if p.bpm > 0 {
      yaml, items := AddLine(yaml, "bpm", Decimal(p.bpm), items);
    }
    if p.caption != "" {
      var wrapped := Wrap("caption", p.caption);
      ghost var item := Item("caption", Wrapped(p.caption, 0, 8) + "\n");
      PrintOne(item.key, item.body);
      PrintConcat(items, [item]);
      yaml := yaml + wrapped;
      items := items + [item];
    }
    PrintConcat(items, Tail(p));
    assert items + Tail(p) == Items(p);
    var tail := BuildTail(p);
    yaml := yaml + tail;
  }

  lemma NothingPrinted()
    ensures Print([]) == ""
  {
  }

  method BuildTail(p: Prompt) returns (yaml: string)
    ensures yaml == Print(Tail(p))
  {
    hide Print, Decimal, Line;
    yaml := "";
    ghost var items: seq<Item> := [];
    NothingPrinted();
    if p.duration > 0.0 {
      yaml, items := AddLine(yaml, "duration", Decimal(p.duration.Floor), items);
    }
    if p.keyscale != "" {
      yaml, items := AddLine(yaml, "keyscale", p.keyscale, items);
    }
    if p.language != "" {
      yaml, items := AddLine(yaml, "language", p.language, items);
    }
    if p.timesignature != "" {
      yaml, items := AddLine(yaml, "timesignature", p.timesignature, items);
    }
    assert items == Tail(p);
  }

  /** One more printed line. */
  method AddLine(yaml: string, key: string, v: string, ghost items: seq<Item>)
    returns (r: string, ghost more: seq<Item>)
    requires yaml == Print(items)
    ensures more == items + [Item(key, Line(v))] && r == Print(more)
  {
    r := yaml + key + ": " + v + "\n";
    more := items + [Item(key, Line(v))];
    PrintConcat(items, [Item(key, Line(v))]);
    PrintOne(key, Line(v));
    assert key + ":" + Line(v) == key + ": " + v + "\n";
    assert yaml + (key + ": " + v + "\n") == r;
  }

  function SkipQuotes(s: string, p: nat): (q: nat)
    requires p <= |s|
    ensures p <= q <= |s| && (q < |s| ==> s[q] != ' ' && s[q] != '\'')
    decreases |s| - p
  {
    if p < |s| && (s[p] == ' ' || s[p] == '\'') then SkipQuotes(s, p + 1) else p
  }

  function DropTail(v: string): string
  {
    if v != "" && (v[|v| - 1] == ' ' || v[|v| - 1] == '\'' || v[|v| - 1] == '\r') then DropTail(v[..|v| - 1]) else v
  }

  /** get_field. */
  function GetField(cot: string, key: string): string
  {
    var at := Find(cot, key + ":", 0);
    if at == -1 then ""
    else
      var p := SkipQuotes(cot, at + |key| + 1);
      var end := Find(cot, "\n", p);
      DropTail(cot[p..if end == -1 then |cot| else end])
  }

  method ReadField(cot: string, key: string) returns (val: string)
    ensures val == GetField(cot, key)
  {
    hide Find;
    var at := FindFrom(cot, key + ":", 0);
    if at == -1 {
      return "";
    }
    var p := at + |key| + 1;
    while p < |cot| && (cot[p] == ' ' || cot[p] == '\'')
      invariant at + |key| + 1 <= |cot| && at + |key| + 1 <= p <= |cot|
                && SkipQuotes(cot, at + |key| + 1) == SkipQuotes(cot, p)
    {
      p := p + 1;
    }
    var end := FindFrom(cot, "\n", p);
    if end == -1 { end := |cot|; }
    val := cot[p..end];
    while val != "" && (val[|val| - 1] == ' ' || val[|val| - 1] == '\'' || val[|val| - 1] == '\r')
      invariant DropTail(val) == DropTail(cot[p..end])
      decreases |val|
    {
      val := val[..|val| - 1];
    }
  }

  /** White space collapsed to single spaces; none at the start when spaced is set. */
  function Collapsed(s: string, spaced: bool): string
  {
    if s == "" then ""
    else if s[0] == '\n' || s[0] == '\r' || s[0] == ' ' then (if spaced then "" else " ") + Collapsed(s[1..], true)
    else [s[0]] + Collapsed(s[1..], false)
  }

  function DropSpaces(s: string): string
  {
    if s != "" && s[|s| - 1] == ' ' then DropSpaces(s[..|s| - 1]) else s
  }

  function DropLeading(s: string): string
  {
    if s != "" && s[0] == ' ' then DropLeading(s[1..]) else s
  }

  function Cleaned(s: string): string { DropLeading(DropSpaces(Collapsed(s, true))) }

  method Collapse(full: string) returns (cleaned: string)
    ensures cleaned == Collapsed(full, true)
  {
    cleaned := "";
    var spaced := true;
    for i := 0 to |full|
      invariant cleaned + Collapsed(full[i..], spaced) == Collapsed(full, true)
    {
      assert full[i..][1..] == full[i + 1..];
      if full[i] == '\n' || full[i] == '\r' || full[i] == ' ' {
        if !spaced {
          cleaned := cleaned + " ";
        }
        spaced := true;
      } else {
        cleaned := cleaned + [full[i]];
        spaced := false;
      }
    }
    assert cleaned + "" == cleaned;
  }

  method Clean(full: string) returns (cleaned: string)
    ensures cleaned == Cleaned(full)
  {
    hide Collapsed;
    cleaned := Collapse(full);
    while cleaned != "" && cleaned[|cleaned| - 1] == ' '
      invariant DropSpaces(cleaned) == DropSpaces(Collapsed(full, true))
      decreases |cleaned|
    {
      cleaned := cleaned[..|cleaned| - 1];
    }
    while cleaned != "" && cleaned[0] == ' '
      invariant DropLeading(cleaned) == Cleaned(full)
      decreases |cleaned|
    {
      cleaned := cleaned[1..];
    }
  }

  /** Where the caption ends: before the duration, else before the keyscale, else nowhere. */
  function CaptionEnd(cot: string, cp: nat): (e: nat)
    requires cp <= |cot|
    ensures cp <= e <= |cot|
  {
    var d := Find(cot, "\nduration:", cp);
    if d != -1 then d
    else
      var k := Find(cot, "\nkeyscale:", cp);
      if k != -1 then k else |cot|
  }

  /** The caption of a metadata block, "" when there is none. */
  function CaptionOf(cot: string): string
  {
    var at := Find(cot, "caption:", 0);
    if GetField(cot, "caption") == "" || at == -1 then ""
    else Cleaned(cot[at + 8..CaptionEnd(cot, at + 8)])
  }

  function Or(v: string, before: string): string { if v == "" then before else v }

  /** A prompt with the fields of a metadata block put in; fields the block lacks stay. atof reads a decimal number. */
  function FieldsOver(init: Prompt, cot: string, atof: string -> real): Prompt
  {
    var bpm, duration := GetField(cot, "bpm"), GetField(cot, "duration");
    init.(bpm := if bpm == "" then init.bpm else Atoi(bpm),
          duration := if duration == "" then init.duration else atof(duration),
          keyscale := Or(GetField(cot, "keyscale"), init.keyscale),
          timesignature := Or(GetField(cot, "timesignature"), init.timesignature),
          language := Or(GetField(cot, "language"), init.language),
          genres := Or(GetField(cot, "genres"), init.genres),
          caption := Or(CaptionOf(cot), init.caption))
  }

  /** The fields of a metadata block. */
  function Fields(cot: string, atof: string -> real): Prompt { FieldsOver(BLANK, cot, atof) }

  method ReadFields(init: Prompt, cot: string, atof: string -> real) returns (p: Prompt)
    ensures p == FieldsOver(init, cot, atof)
  {
    hide GetField, CaptionOf, Atoi;
    p := init;
    var bpm := ReadField(cot, "bpm");
    if bpm != "" { p := p.(bpm := Atoi(bpm)); }
    var duration := ReadField(cot, "duration");
    if duration != "" { p := p.(duration := atof(duration)); }
    var keyscale := ReadField(cot, "keyscale");
    if keyscale != "" { p := p.(keyscale := keyscale); }
    var timesignature := ReadField(cot, "timesignature");
    if timesignature != "" { p := p.(timesignature := timesignature); }
    var language := ReadField(cot, "language");
    if language != "" { p := p.(language := language); }
    var genres := ReadField(cot, "genres");
    if genres != "" { p := p.(genres := genres); }
    var caption := ReadCaption(cot);
    if caption != "" { p := p.(caption := caption); }
  }

  method ReadCaption(cot: string) returns (caption: string)
    ensures caption == CaptionOf(cot)
  {
    hide Find, GetField, Cleaned;
    var first := ReadField(cot, "caption");
    if first == "" {
      return "";
    }
    var cp := FindFrom(cot, "caption:", 0);
    if cp == -1 {
      return "";
    }
    cp := cp + 8;
    var end := FindFrom(cot, "\nduration:", cp);
    if end == -1 { end := FindFrom(cot, "\nkeyscale:", cp); }
    if end == -1 { end := |cot|; }
    caption := Clean(cot[cp..end]);
  }

  function SkipBlank(s: string): string
  {
    if s != "" && (s[0] == ' ' || s[0] == '\t' || s[0] == '\n' || s[0] == '\r') then SkipBlank(s[1..]) else s
  }

  function DropBlank(s: string): string
  {
    if s != "" && (s[|s| - 1] == ' ' || s[|s| - 1] == '\n' || s[|s| - 1] == '\r') then DropBlank(s[..|s| - 1]) else s
  }

  const LYRIC_HEADER: string := "# Lyric\n"

  function WithoutHeader(s: string): string
  {
    var at := Find(s, LYRIC_HEADER, 0);
    if 0 <= at < 64 then s[at + |LYRIC_HEADER|..] else s
  }

  /** The lyrics in what follows the metadata block. */
  function Lyrics(after: string): string
  {
    DropBlank(WithoutHeader(if SkipBlank(after) == "" then after else SkipBlank(after)))
  }

  method ReadLyrics(after: string) returns (lyrics: string)
    ensures lyrics == Lyrics(after)
  {
    hide Find;
    lyrics := after;
    while lyrics != "" && (lyrics[0] == ' ' || lyrics[0] == '\t' || lyrics[0] == '\n' || lyrics[0] == '\r')
      invariant SkipBlank(lyrics) == SkipBlank(after)
      decreases |lyrics|
    {
      lyrics := lyrics[1..];
    }
    if lyrics == "" {
      lyrics := after;
    }
    var at := FindFrom(lyrics, LYRIC_HEADER, 0);
    if 0 <= at < 64 {
      lyrics := lyrics[at + |LYRIC_HEADER|..];
    }
    ghost var kept := lyrics;
    while lyrics != "" && (lyrics[|lyrics| - 1] == ' ' || lyrics[|lyrics| - 1] == '\n' || lyrics[|lyrics| - 1] == '\r')
      invariant DropBlank(lyrics) == DropBlank(kept)
      decreases |lyrics|
    {
      lyrics := lyrics[..|lyrics| - 1];
    }
  }

  const OPEN: string := "<think>"
  const CLOSE: string := "</think>"

  /** The metadata block and what follows it. */
  function Split(text: string): (string, string)
  {
    var ts, te := Find(text, OPEN, 0), Find(text, CLOSE, 0);
    if te == -1 then (text, "")
    else if ts == -1 then (text[..te], text[te + |CLOSE|..])
    else ((if te < ts + |OPEN| then text[ts + |OPEN|..] else text[ts + |OPEN|..te]), text[te + |CLOSE|..])
  }

  /** With the closing tag first, the block is all that follows the opening one. */
  lemma CrossedTags(a: string, b: string, c: string)
    requires Find(a + CLOSE + b + OPEN + c, CLOSE, 0) == |a|
    requires Find(a + CLOSE + b + OPEN + c, OPEN, 0) == |a + CLOSE + b|
    ensures Split(a + CLOSE + b + OPEN + c) == (c, b + OPEN + c)
  {
    hide Find;
    assert a + CLOSE + b + OPEN + c == a + CLOSE + (b + OPEN + c);
  }

  lemma FieldsKeepLyrics(init: Prompt, cot: string, atof: string -> real)
    ensures FieldsOver(init, cot, atof).lyrics == init.lyrics
  {
  }

  /** What a text says, over what a prompt held before. */
  function Parsed(init: Prompt, text: string, atof: string -> real): Prompt
  {
    FieldsOver(init, Split(text).0, atof).(lyrics := Or(Lyrics(Split(text).1), init.lyrics))
  }

  /** parse_cot_and_lyrics; the second result says whether the prompt now has a tempo or a duration. */
  method Parse(init: Prompt, text: string, atof: string -> real) returns (p: Prompt, found: bool)
    ensures p == Parsed(init, text, atof)
    ensures found <==> p.bpm > 0 || p.duration > 0.0
  {
    hide Find, FieldsOver, Lyrics;
    var ts := FindFrom(text, OPEN, 0);
    var te := FindFrom(text, CLOSE, 0);
    var cot, after := text, "";
    if ts != -1 && te != -1 {
      cot, after := if te < ts + |OPEN| then text[ts + |OPEN|..] else text[ts + |OPEN|..te], text[te + |CLOSE|..];
    } else if te != -1 {
      cot, after := text[..te], text[te + |CLOSE|..];
    }
    p := ReadFields(init, cot, atof);
    var lyrics := ReadLyrics(after);
    if lyrics != "" { p := p.(lyrics := lyrics); }
    FieldsKeepLyrics(init, cot, atof);
    found := p.bpm > 0 || p.duration > 0.0;
  }
}
