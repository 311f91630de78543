/**
 * Searching, numbers and white space in strings, as the metadata printer and parser of src/prompt.h use
 * them: std::string::find with its first-occurrence guarantee, decimal printing, atoi, and how searching
 * behaves on text that is put together from parts, where the parser's positions have to be known.
 */
module Strings {

  predicate Occurs(s: string, pat: string, i: nat) { i + |pat| <= |s| && s[i..i + |pat|] == pat }

  /** std::string::find; -1 when there is no occurrence. */
  function Find(s: string, pat: string, from: nat): (i: int)
    ensures i == -1 || (from <= i && Occurs(s, pat, i))
    ensures forall j: nat :: from <= j && (i == -1 || j < i) ==> !Occurs(s, pat, j)
    decreases |s| - from
  {
    if from + |pat| > |s| then -1
    else if Occurs(s, pat, from) then from
    else Find(s, pat, from + 1)
  }

  method FindFrom(s: string, pat: string, from: nat) returns (i: int)
    ensures i == Find(s, pat, from)
  {
    i := from;
    while i + |pat| <= |s|
      invariant from <= i && Find(s, pat, from) == Find(s, pat, i)
      decreases |s| - i
    {
      if s[i..i + |pat|] == pat {
        return;
      }
      i := i + 1;
    }
    i := -1;
  }

  lemma FindUnique(s: string, pat: string, from: nat, i: int)
    requires i == -1 || (from <= i && Occurs(s, pat, i))
    requires forall j: nat :: from <= j && (i == -1 || j < i) ==> !Occurs(s, pat, j)
    ensures Find(s, pat, from) == i
  {
  }

  lemma OccursIn(a: string, b: string, pat: string, j: nat)
    ensures Occurs(a + b, pat, |a| + j) <==> Occurs(b, pat, j)
  {
    if |a| + j + |pat| <= |a + b| {
      assert (a + b)[|a| + j..|a| + j + |pat|] == b[j..j + |pat|];
    }
  }

  function Shifted(i: int, n: nat): int { if i == -1 then -1 else i + n }

  /** When nothing is found in the front part, searching goes on in the rest. */
  lemma FindBehind(a: string, b: string, pat: string)
    requires forall j: nat :: j < |a| ==> !Occurs(a + b, pat, j)
    ensures Find(a + b, pat, 0) == Shifted(Find(b, pat, 0), |a|)
  {
    var i := Find(b, pat, 0);
    forall j: nat ensures Occurs(a + b, pat, |a| + j) <==> Occurs(b, pat, j) { OccursIn(a, b, pat, j); }
    forall j: nat | i == -1 || j < |a| + i
      ensures !Occurs(a + b, pat, j)
    {
      if j >= |a| { assert !Occurs(b, pat, j - |a|); OccursIn(a, b, pat, j - |a|); }
    }
    if i != -1 { OccursIn(a, b, pat, i); }
    FindUnique(a + b, pat, 0, Shifted(i, |a|));
  }

  /** Searching from the end of the front part is searching the rest. */
  lemma FindFromEnd(a: string, b: string, pat: string)
    ensures Find(a + b, pat, |a|) == Shifted(Find(b, pat, 0), |a|)
  {
    hide Occurs, Find;
    var i := Find(b, pat, 0);
    forall j: nat | |a| <= j && (i == -1 || j < |a| + i)
      ensures !Occurs(a + b, pat, j)
    {
      assert !Occurs(b, pat, j - |a|);
      OccursIn(a, b, pat, j - |a|);
    }
    if i != -1 { OccursIn(a, b, pat, i); }
    FindUnique(a + b, pat, |a|, Shifted(i, |a|));
  }

  lemma OccursLine(s: string, pat: string, j: nat)
    ensures Occurs(s, "\n" + pat, j) <==> j < |s| && s[j] == '\n' && Occurs(s, pat, j + 1)
  {
    var line := "\n" + pat;
    if j + |line| <= |s| {
      assert s[j..j + |line|] == [s[j]] + s[j + 1..j + 1 + |pat|];
      assert s[j..j + |line|][1..] == s[j + 1..j + 1 + |pat|] && line[1..] == pat;
    }
  }

  /** A pattern whose first occurrence follows a newline is found there with the newline, too. */
  lemma FindLine(s: string, pat: string)
    requires Find(s, pat, 0) == -1 || (Find(s, pat, 0) > 0 && s[Find(s, pat, 0) - 1] == '\n')
    ensures Find(s, "\n" + pat, 0) == if Find(s, pat, 0) == -1 then -1 else Find(s, pat, 0) - 1
  {
    var q := Find(s, pat, 0);
    assert q <= |s|;
    hide Occurs, Find;
    forall j: nat | q == -1 || j < q - 1
      ensures !Occurs(s, "\n" + pat, j)
    {
      OccursLine(s, pat, j);
      assert q == -1 || j + 1 < q;
    }
    if q != -1 {
      OccursLine(s, pat, q - 1);
      assert Occurs(s, pat, q - 1 + 1);
    }
    FindUnique(s, "\n" + pat, 0, if q == -1 then -1 else q - 1);
  }

  function Decimal(n: nat): (s: string)
    ensures s != "" && forall i :: 0 <= i < |s| ==> '0' <= s[i] <= '9'
  {
    (if n < 10 then "" else Decimal(n / 10)) + [(n % 10 + 48) as char]
  }

  predicate IsDigit(c: char) { '0' <= c <= '9' }

  /** Value of the digits s starts with. */
  function DigitsValue(s: string, acc: nat): nat
  {
    if s == "" || !IsDigit(s[0]) then acc else DigitsValue(s[1..], 10 * acc + (s[0] as int - 48))
  }

  /** atoi: white space, a sign, digits. */
  function Atoi(s: string): int
  {
    if s != "" && (s[0] == ' ' || 9 as char <= s[0] <= 13 as char) then Atoi(s[1..])
    else if s != "" && s[0] == '-' then 0 - (DigitsValue(s[1..], 0) as int)
    else if s != "" && s[0] == '+' then DigitsValue(s[1..], 0) as int
    else DigitsValue(s, 0) as int
  }

  lemma {:induction false} DigitsAppend(s: string, c: char, acc: nat)
    requires (forall i :: 0 <= i < |s| ==> IsDigit(s[i])) && IsDigit(c)
    ensures DigitsValue(s + [c], acc) == 10 * DigitsValue(s, acc) + (c as int - 48)
  {
    if s != "" {
      assert (s + [c])[1..] == s[1..] + [c];
      DigitsAppend(s[1..], c, 10 * acc + (s[0] as int - 48));
    }
  }

  lemma {:induction false} DecimalValue(n: nat)
    ensures DigitsValue(Decimal(n), 0) == n
  {
    if n >= 10 {
      DecimalValue(n / 10);
      DigitsAppend(Decimal(n / 10), (n % 10 + 48) as char, 0);
    } else {
      DigitsAppend("", (n % 10 + 48) as char, 0);
      assert "" + [(n % 10 + 48) as char] == Decimal(n);
    }
  }

  /** Reading a printed number gives it back. */
  lemma AtoiDecimal(n: nat)
    ensures Atoi(Decimal(n)) == n
  {
    DecimalValue(n);
    assert IsDigit(Decimal(n)[0]);
  }

  lemma {:induction false} DigitsStop(s: string, rest: string, acc: nat)
    requires (forall i :: 0 <= i < |s| ==> IsDigit(s[i])) && (rest == "" || !IsDigit(rest[0]))
    ensures DigitsValue(s + rest, acc) == DigitsValue(s, acc)
  {
    if s == "" {
      assert s + rest == rest;
    } else {
      assert (s + rest)[1..] == s[1..] + rest;
      DigitsStop(s[1..], rest, 10 * acc + (s[0] as int - 48));
    }
  }

  /** A printed number is read with its sign after white space, and what is no digit ends it. */
  lemma {:induction false} AtoiReads(pad: string, sign: string, n: nat, rest: string)
    requires forall i :: 0 <= i < |pad| ==> pad[i] == ' ' || 9 as char <= pad[i] <= 13 as char
    requires sign in {"", "+", "-"} && (rest == "" || !IsDigit(rest[0]))
    ensures Atoi(pad + sign + Decimal(n) + rest) == if sign == "-" then 0 - (n as int) else n
  {
    hide Decimal, DigitsValue;
    var s := pad + sign + Decimal(n) + rest;
    if pad != "" {
      assert s[1..] == pad[1..] + sign + Decimal(n) + rest;
      AtoiReads(pad[1..], sign, n, rest);
    } else {
      DecimalValue(n);
      DigitsStop(Decimal(n), rest, 0);
      assert IsDigit(Decimal(n)[0]);
      if sign == "" { assert s == Decimal(n) + rest; } else { assert s[0] == sign[0] && s[1..] == Decimal(n) + rest; }
    }
  }
}
