/** Strings as the program handles them: splitting, joining, fields, prefixes. */
module Text {

  import opened Wrappers

  /** White space as Unicode defines it. */
  predicate IsSpace(c: char) {
    var n := c as int;
    || 9 <= n <= 13 || n == 32 || n == 0x85 || n == 0xA0 || n == 0x1680
    || 0x2000 <= n <= 0x200A || n == 0x2028 || n == 0x2029 || n == 0x202F || n == 0x205F || n == 0x3000
  }

  predicate HasPrefix(s: string, p: string) { p <= s }

  /** The rest of s after the prefix, if it has it. */
  function CutPrefix(s: string, p: string): Option<string> {
    if p <= s then Some(s[|p|..]) else None
  }

  lemma CutPrefixOf(p: string, rest: string)
    ensures CutPrefix(p + rest, p) == Some(rest)
  {
    assert (p + rest)[|p|..] == rest;
    assert p <= p + rest;
  }

  predicate Contains(s: string, sub: string) { sub <= s || (s != "" && Contains(s[1..], sub)) }

  // ----- splitting at a separator and joining with it

  function Split(s: string, sep: char): (parts: seq<string>)
    ensures |parts| >= 1
  {
    if s == "" then [""]
    else
      var rest := Split(s[1..], sep);
      if s[0] == sep then [""] + rest else [[s[0]] + rest[0]] + rest[1..]
  }

  function Join(parts: seq<string>, sep: char): string {
    if parts == [] then "" else if |parts| == 1 then parts[0] else parts[0] + [sep] + Join(parts[1..], sep)
  }

  lemma {:induction false} JoinLacks(parts: seq<string>, c: char)
    requires c != ' ' && forall p :: p in parts ==> c !in p
    ensures c !in Join(parts, ' ')
  {
    if |parts| > 1 {
      JoinLacks(parts[1..], c);
    }
  }

  lemma {:induction false} SplitPart(p: string, sep: char)
    requires sep !in p
    ensures Split(p, sep) == [p]
  {
    if p != "" {
      SplitPart(p[1..], sep);
      assert [p[0]] + p[1..] == p;
    }
  }

  lemma {:induction false} SplitAtFirst(p: string, rest: string, sep: char)
    requires sep !in p
    ensures Split(p + [sep] + rest, sep) == [p] + Split(rest, sep)
  {
    var s := p + [sep] + rest;
    if p == "" {
      assert s[1..] == rest;
    } else {
      assert s[1..] == p[1..] + [sep] + rest;
      SplitAtFirst(p[1..], rest, sep);
      assert [p[0]] + p[1..] == p;
    }
  }

  /** Joining and splitting are inverse on parts free of the separator. */
  lemma {:induction false} SplitJoin(parts: seq<string>, sep: char)
    requires parts != [] && forall p :: p in parts ==> sep !in p
    ensures Split(Join(parts, sep), sep) == parts
  {
    if |parts| == 1 {
      SplitPart(parts[0], sep);
    } else {
      SplitJoin(parts[1..], sep);
      SplitAtFirst(parts[0], Join(parts[1..], sep), sep);
      assert parts == [parts[0]] + parts[1..];
    }
  }

  lemma {:induction false} SplitConcat(a: string, b: string, sep: char)
    ensures Split(a + [sep] + b, sep) == Split(a, sep) + Split(b, sep)
  {
    var s := a + [sep] + b;
    if a == "" {
      assert s[1..] == b;
    } else {
      assert s[0] == a[0] && s[1..] == a[1..] + [sep] + b;
      SplitConcat(a[1..], b, sep);
    }
  }

  lemma SplitTail(a: string, line: string, sep: char)
    requires sep !in line
    ensures Split(a + [sep], sep) == Split(a, sep) + [""]
    ensures Split(a + [sep] + (line + [sep]), sep) == Split(a, sep) + [line, ""]
  {
    SplitConcat(a, "", sep);
    assert a + [sep] + "" == a + [sep];
    SplitConcat(a, line + [sep], sep);
    SplitAtFirst(line, "", sep);
    assert line + [sep] + "" == line + [sep];
  }

  /** A line added to complete lines is the last part but one. */
  lemma SplitEnds(text: string, line: string)
    requires '\n' !in line
    requires text == "" || text[|text| - 1] == '\n'
    ensures var parts := Split(text, '\n');
            parts[|parts| - 1] == "" && Split(text + (line + "\n"), '\n') == parts[..|parts| - 1] + [line, ""]
  {
    if text == "" {
      SplitAtFirst(line, "", '\n');
      assert text + (line + "\n") == line + ['\n'] + "";
    } else {
      var a := text[..|text| - 1];
      assert text == a + ['\n'];
      SplitTail(a, line, '\n');
    }
  }

  /** Before and after the first separator. */
  function Cut(s: string, sep: char): Option<(string, string)> {
    if s == "" then None
    else if s[0] == sep then Some(("", s[1..]))
    else match Cut(s[1..], sep) case None => None case Some((a, b)) => Some(([s[0]] + a, b))
  }

  lemma {:induction false} CutOf(k: string, v: string, sep: char)
    requires sep !in k
    ensures Cut(k + [sep] + v, sep) == Some((k, v))
  {
    var s := k + [sep] + v;
    if k == "" {
      assert s[1..] == v;
    } else {
      assert s[0] == k[0] && s[1..] == k[1..] + [sep] + v;
      CutOf(k[1..], v, sep);
      assert [k[0]] + k[1..] == k;
    }
  }

  lemma {:induction false} CutOfNothing(s: string, sep: char)
    requires sep !in s
    ensures Cut(s, sep) == None
  {
    if s != "" {
      CutOfNothing(s[1..], sep);
    }
  }

  // ----- trimming

  function TrimLeft(s: string): string { if s != "" && IsSpace(s[0]) then TrimLeft(s[1..]) else s }

  function TrimRight(s: string): string {
    if s != "" && IsSpace(s[|s| - 1]) then TrimRight(s[..|s| - 1]) else s
  }

  function TrimSpace(s: string): string { TrimRight(TrimLeft(s)) }

  lemma TrimNothing(s: string)
    requires s == "" || (!IsSpace(s[0]) && !IsSpace(s[|s| - 1]))
    ensures TrimSpace(s) == s
  {
  }

  // ----- fields separated by white space, for any notion of it

  /** Length of the leading run without separators. */
  function Run(s: string, sp: char -> bool): (n: nat)
    ensures n <= |s|
    ensures forall i :: 0 <= i < n ==> !sp(s[i])
  {
    if s == "" || sp(s[0]) then 0 else 1 + Run(s[1..], sp)
  }

  function Fields(s: string, sp: char -> bool): seq<string>
    decreases |s|
  {
    if s == "" then []
    else if sp(s[0]) then Fields(s[1..], sp)
    else [s[..Run(s, sp)]] + Fields(s[Run(s, sp)..], sp)
  }

  predicate SpaceFree(t: string, sp: char -> bool) { forall i :: 0 <= i < |t| ==> !sp(t[i]) }

  predicate IsToken(t: string, sp: char -> bool) { t != "" && SpaceFree(t, sp) }

  lemma {:induction false} RunOfToken(t: string, rest: string, sp: char -> bool)
    requires SpaceFree(t, sp)
    requires rest == "" || sp(rest[0])
    ensures Run(t + rest, sp) == |t|
  {
    if t == "" {
      assert t + rest == rest;
    } else {
      assert (t + rest)[1..] == t[1..] + rest;
      RunOfToken(t[1..], rest, sp);
    }
  }

  lemma FieldsOfToken(t: string, rest: string, sp: char -> bool)
    requires IsToken(t, sp)
    requires rest == "" || sp(rest[0])
    ensures Fields(t + rest, sp) == [t] + Fields(rest, sp)
  {
    RunOfToken(t, rest, sp);
    assert (t + rest)[0] == t[0];
    assert (t + rest)[..|t|] == t && (t + rest)[|t|..] == rest;
  }

  /** The fields of a line of tokens are the tokens, and what follows adds its own. */
  lemma {:induction false} FieldsOfLine(tokens: seq<string>, rest: string, sp: char -> bool)
    requires sp(' ') && forall t :: t in tokens ==> IsToken(t, sp)
    requires rest == "" || sp(rest[0])
    ensures Fields(Join(tokens, ' ') + rest, sp) == tokens + Fields(rest, sp)
  {
    if tokens == [] {
      assert "" + rest == rest;
    } else if |tokens| == 1 {
      FieldsOfToken(tokens[0], rest, sp);
    } else {
      var line := Join(tokens[1..], ' ');
      var tail := [' '] + (line + rest);
      Associate(tokens[0], [' '], line, rest);
      FieldsOfToken(tokens[0], tail, sp);
      FieldsOfLine(tokens[1..], rest, sp);
      assert tail[1..] == line + rest;
      assert [tokens[0]] + (tokens[1..] + Fields(rest, sp)) == tokens + Fields(rest, sp);
    }
  }

  lemma Associate(a: string, b: string, c: string, d: string)
    ensures a + b + c + d == a + (b + (c + d)) == (a + b) + (c + d)
  {
  }

  /** Every character is a separator or belongs to a field. */
  lemma {:induction false} FieldsCover(s: string, sp: char -> bool, c: char)
    requires c in s && !sp(c)
    ensures exists f :: f in Fields(s, sp) && c in f
    decreases |s|
  {
    if sp(s[0]) {
      assert s == [s[0]] + s[1..];
      FieldsCover(s[1..], sp, c);
    } else {
      var n := Run(s, sp);
      assert s == s[..n] + s[n..];
      if c in s[..n] {
        assert s[..n] in Fields(s, sp);
      } else {
        FieldsCover(s[n..], sp, c);
      }
    }
  }
}

/** Decimal numbers: printing, reading, and that reading undoes printing. */
module Decimal {
  import opened Text
  import opened Wrappers

  predicate IsDigit(c: char) { '0' <= c <= '9' }

  predicate AllDigits(s: string) { forall i :: 0 <= i < |s| ==> IsDigit(s[i]) }

  function DigitChar(d: nat): char
    requires d < 10
  {
    ('0' as int + d) as char
  }

  function Print(n: nat): (s: string)
    ensures s != "" && AllDigits(s)
  {
    if n < 10 then [DigitChar(n)] else Print(n / 10) + [DigitChar(n % 10)]
  }

  function Value(s: string): nat
    requires AllDigits(s)
  {
    if s == "" then 0 else assert IsDigit(s[|s| - 1]); 10 * Value(s[..|s| - 1]) + (s[|s| - 1] as int - '0' as int)
  }

  lemma {:induction false} ValuePrint(n: nat)
    ensures Value(Print(n)) == n
  {
    var s := Print(n);
    if n < 10 {
      assert s[..0] == "";
    } else {
      ValuePrint(n / 10);
      assert s[..|s| - 1] == Print(n / 10);
    }
  }

  /** Different numbers print differently. */
  lemma PrintInjective(m: nat, n: nat)
    requires Print(m) == Print(n)
    ensures m == n
  {
    ValuePrint(m);
    ValuePrint(n);
  }

  const MAX_INT: int := 0x7FFF_FFFF_FFFF_FFFF

  /** Atoi on 64-bit ints: optional sign, digits, in range. */
  function Atoi(s: string): Option<int> {
    var signed := s != "" && (s[0] == '-' || s[0] == '+');
    var digits := if signed then s[1..] else s;
    if digits == "" || !AllDigits(digits) then None
    else
      var v: int := if s[0] == '-' then 0 - Value(digits) else Value(digits);
      if -MAX_INT - 1 <= v <= MAX_INT then Some(v) else None
  }

  lemma AtoiPrint(n: nat)
    requires n <= MAX_INT
    ensures Atoi(Print(n)) == Some(n)
  {
    ValuePrint(n);
    var s := Print(n);
    assert IsDigit(s[0]);
  }

  lemma PrintHasNo(n: nat, c: char)
    requires !IsDigit(c)
    ensures c !in Print(n)
  {
  }
}
