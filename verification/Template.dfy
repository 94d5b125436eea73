/** Substitution of mount templates: {{source N}}, {{target N}}, {{mount N}} and
    {{overlay N M}}. The source makes four passes, one per pattern, each over the
    output of the one before. */
module Template {
  import opened Text
  import opened Wrappers
  import Decimal

  /** A mount that has been made: what later templates refer to. */
  datatype Active = Active(kind: string, source: string, target: string, options: seq<string>, mountPoint: string)

  datatype Kind = Source | Target | Mount | Overlay

  /** A placeholder found in a string: its length there and what it asks for. */
  datatype Match = Match(length: nat, kind: Kind, first: string, second: string)

  /** The white space of the patterns. */
  predicate IsBlank(c: char) { c == ' ' || c == '\t' || c == '\n' || c == '\r' || c as int == 12 }

  /** Where the first closing brace at or after i is. */
  function Close(s: string, i: nat): (j: nat)
    requires i <= |s|
    ensures i <= j <= |s|
    ensures forall k :: i <= k < j ==> s[k] != '}'
    ensures j < |s| ==> s[j] == '}'
    decreases |s| - i
  {
    if i == |s| || s[i] == '}' then i else Close(s, i + 1)
  }

  predicate IsNumber(d: string) { d != "" && Decimal.AllDigits(d) }

  /** What stands between the braces: a keyword and its numbers. */
  function ParseInner(words: seq<string>, length: nat): Option<Match> {
    if |words| == 2 && IsNumber(words[1]) then
      if words[0] == "source" then Some(Match(length, Source, words[1], ""))
      else if words[0] == "target" then Some(Match(length, Target, words[1], ""))
      else if words[0] == "mount" then Some(Match(length, Mount, words[1], ""))
      else None
    else if |words| == 3 && words[0] == "overlay" && IsNumber(words[1]) && IsNumber(words[2]) then
      Some(Match(length, Overlay, words[1], words[2]))
    else None
  }

  /** The placeholder at the start of s, of whichever pattern. A pattern is two
      opening braces, a keyword and numbers set off by blanks, two closing braces;
      none of the inner characters is a brace, so the match is unique. */
  function MatchAt(s: string): Option<Match> {
    if |s| < 2 || s[0] != '{' || s[1] != '{' then None
    else
      var j := Close(s, 2);
      if j + 1 < |s| && s[j + 1] == '}' then ParseInner(Fields(s[2..j], IsBlank), j + 2) else None
  }

  // ----- what the placeholders stand for

  function ParseIndex(d: string, bound: nat): Option<nat> {
    match Decimal.Atoi(d)
    case None => None
    case Some(i) => if 0 <= i < bound then Some(i) else None
  }

  /** Mount points from start to end, either way round. */
  function OverlayDirs(start: int, end: int, active: seq<Active>): Option<seq<string>> {
    if start > end then
      if start >= |active| || end < 0 then None
      else Some(seq(start - end + 1, (i: nat) requires i <= start - end => active[start - i].mountPoint))
    else
      if start < 0 || end >= |active| then None
      else Some(seq(end - start + 1, (i: nat) requires i <= end - start => active[start + i].mountPoint))
  }

  /** The loops of the source, in either direction. */
  method BuildOverlayDirs(start: int, end: int, active: seq<Active>) returns (r: Result<string>)
    ensures r == match OverlayDirs(start, end, active)
                 case None => Fail
                 case Some(dirs) => Ok(Join(dirs, ':'))
  {
    var dirs: seq<string> := [];
    if start > end {
      if start >= |active| || end < 0 {
        return Fail;
      }
      var i := start;
      while i >= end
        invariant end - 1 <= i <= start && |dirs| == start - i
        invariant forall k :: 0 <= k < |dirs| ==> dirs[k] == active[start - k].mountPoint
      {
        dirs := dirs + [active[i].mountPoint];
        i := i - 1;
      }
    } else {
      if start < 0 || end >= |active| {
        return Fail;
      }
      var i := start;
      while i <= end
        invariant start <= i <= end + 1 && |dirs| == i - start
        invariant forall k :: 0 <= k < |dirs| ==> dirs[k] == active[start + k].mountPoint
      {
        dirs := dirs + [active[i].mountPoint];
        i := i + 1;
      }
    }
    assert dirs == OverlayDirs(start, end, active).value;
    r := Ok(Join(dirs, ':'));
  }

  function Reversed<T>(s: seq<T>): seq<T> { seq(|s|, (i: nat) requires i < |s| => s[|s| - 1 - i]) }

  /** Swapping the ends reverses the list, and fails when it failed. */
  lemma OverlayDirsReverse(a: int, b: int, active: seq<Active>)
    ensures OverlayDirs(a, b, active) == match OverlayDirs(b, a, active)
                                         case None => None
                                         case Some(dirs) => Some(Reversed(dirs))
  {
    var fwd, bwd := OverlayDirs(a, b, active), OverlayDirs(b, a, active);
    if fwd.Some? {
      assert fwd.value == Reversed(bwd.value);
    }
  }

  function Lookup(m: Match, active: seq<Active>): Result<string> {
    if m.kind == Overlay then
      match (Decimal.Atoi(m.first), Decimal.Atoi(m.second))
      case (Some(start), Some(end)) =>
        (match OverlayDirs(start, end, active)
         case None => Fail
         case Some(dirs) => Ok(Join(dirs, ':')))
      case (_, _) => Fail
    else
      match ParseIndex(m.first, |active|)
      case None => Fail
      case Some(i) =>
        Ok(match m.kind
           case Source => active[i].source
           case Target => active[i].target
           case Mount => active[i].mountPoint
           case Overlay => "")
  }

  function Prepend(u: string, r: Result<string>): Result<string> {
    match r case Ok(t) => Ok(u + t) case Fail => Fail
  }

  /** One left-to-right pass replacing the placeholders of the given kinds. */
  function Replace(s: string, kinds: set<Kind>, active: seq<Active>): Result<string>
    decreases |s|
  {
    if s == "" then Ok("")
    else
      match MatchAt(s)
      case Some(m) =>
        if m.kind in kinds && 0 < m.length <= |s| then
          (match Lookup(m, active)
           case Fail => Fail
           case Ok(v) => Prepend(v, Replace(s[m.length..], kinds, active)))
        else Prepend([s[0]], Replace(s[1..], kinds, active))
      case None => Prepend([s[0]], Replace(s[1..], kinds, active))
  }

  function Then(r: Result<string>, kind: Kind, active: seq<Active>): Result<string> {
    match r case Fail => Fail case Ok(t) => Replace(t, {kind}, active)
  }

  function RejectLeftover(r: Result<string>): Result<string> {
    match r case Fail => Fail case Ok(t) => if Contains(t, "{{") then Fail else r
  }

  /** The four passes of the source, and its final check. A string without the
      marker is left alone. Nothing that looks like a template survives. */
  function FormatString(s: string, active: seq<Active>): (r: Result<string>)
    ensures r.Ok? ==> !Contains(r.value, "{{")
  {
    if !Contains(s, "{{") then Ok(s)
    else
      var r1 := Replace(s, {Source}, active);
      var r2 := Then(r1, Target, active);
      var r3 := Then(r2, Mount, active);
      RejectLeftover(Then(r3, Overlay, active))
  }

  /** The intended meaning: every placeholder of the original replaced at once. */
  function Simultaneous(s: string, active: seq<Active>): Result<string> {
    RejectLeftover(Replace(s, {Source, Target, Mount, Overlay}, active))
  }

  // ----- matches

  predicate IsBrace(c: char) { c == '{' || c == '}' }

  lemma {:induction false} WordChars(words: seq<string>, length: nat, w: string, c: char)
    requires ParseInner(words, length).Some? && w in words && c in w
    ensures !IsBrace(c) && c != '/'
  {
    assert w == words[0] || w == words[1] || (|words| == 3 && w == words[2]);
    if w != words[0] {
      assert IsNumber(w);
      var i :| 0 <= i < |w| && w[i] == c;
      assert Decimal.IsDigit(w[i]);
    } else {
      assert w == "source" || w == "target" || w == "mount" || w == "overlay";
    }
  }

  /** A match is opened by two braces, closed by two, and holds no other brace and no slash. */
  lemma MatchShape(s: string)
    requires MatchAt(s).Some?
    ensures var n := MatchAt(s).value.length;
            && 4 < n <= |s| && s[0] == s[1] == '{' && s[n - 2] == s[n - 1] == '}'
            && forall i :: 2 <= i < n - 2 ==> !IsBrace(s[i]) && s[i] != '/'
  {
    var j := Close(s, 2);
    var inner := s[2..j];
    var words := Fields(inner, IsBlank);
    assert Fields("", IsBlank) == [];
    forall i | 2 <= i < j
      ensures !IsBrace(s[i]) && s[i] != '/'
    {
      if !IsBlank(s[i]) {
        assert inner[i - 2] == s[i];
        FieldsCover(inner, IsBlank, s[i]);
        var f :| f in words && s[i] in f;
        WordChars(words, j + 2, f, s[i]);
      }
    }
  }

  lemma {:induction false} CloseLocal(s: string, t: string, i: nat, j: nat)
    requires i <= j < |s| && j < |t| && s[..j + 1] == t[..j + 1] && Close(s, i) == j
    ensures Close(t, i) == j
  {
    assert forall k :: i <= k <= j ==> t[k] == t[..j + 1][k] == s[k];
  }

  /** A match depends on its own characters only. */
  lemma MatchLocal(s: string, t: string)
    requires MatchAt(s).Some?
    requires var n := MatchAt(s).value.length; n <= |s| && n <= |t| && s[..n] == t[..n]
    ensures MatchAt(t) == MatchAt(s)
  {
    var n := MatchAt(s).value.length;
    MatchShape(s);
    var j := n - 2;
    assert s[..j + 1] == s[..n][..j + 1] == t[..n][..j + 1] == t[..j + 1];
    CloseLocal(s, t, 2, j);
    assert forall i :: 0 <= i < n ==> t[i] == t[..n][i] == s[i];
    assert s[2..j] == t[2..j];
  }

  /** No match starts inside a match. */
  lemma NoMatchInside(s: string, i: nat)
    requires MatchAt(s).Some? && 0 < i < MatchAt(s).value.length <= |s|
    ensures MatchAt(s[i..]) == None
  {
    MatchShape(s);
    var n := MatchAt(s).value.length;
    if i + 1 < |s| {
      assert s[i..][0] == s[i] && s[i..][1] == s[i + 1];
      assert i == 1 ==> !IsBrace(s[2]);
    }
  }

  // ----- one pass

  lemma PrependAssoc(u: string, v: string, r: Result<string>)
    ensures Prepend(u, Prepend(v, r)) == Prepend(u + v, r)
  {
    if r.Ok? {
      assert u + (v + r.value) == u + v + r.value;
    }
  }

  lemma CopyFirst(s: string, kinds: set<Kind>, active: seq<Active>)
    requires s != "" && match MatchAt(s) case None => true case Some(m) => m.kind !in kinds
    ensures Replace(s, kinds, active) == Prepend([s[0]], Replace(s[1..], kinds, active))
  {
  }

  /** A stretch in which no match starts is copied. */
  lemma {:induction false} CopyStretch(u: string, t: string, kinds: set<Kind>, active: seq<Active>)
    requires forall i :: 0 <= i < |u| ==> match MatchAt((u + t)[i..]) case None => true case Some(m) => m.kind !in kinds
    ensures Replace(u + t, kinds, active) == Prepend(u, Replace(t, kinds, active))
  {
    if u == "" {
      assert u + t == t;
      var r := Replace(t, kinds, active);
      if r.Ok? {
        assert "" + r.value == r.value;
      }
    } else {
      assert (u + t)[0..] == u + t && (u + t)[1..] == u[1..] + t;
      forall i | 0 <= i < |u[1..]|
        ensures match MatchAt((u[1..] + t)[i..]) case None => true case Some(m) => m.kind !in kinds
      {
        assert (u[1..] + t)[i..] == (u + t)[i + 1..];
      }
      CopyFirst(u + t, kinds, active);
      CopyStretch(u[1..], t, kinds, active);
      PrependAssoc([u[0]], u[1..], Replace(t, kinds, active));
      assert [u[0]] + u[1..] == u;
    }
  }

  lemma CopyBraceFree(v: string, t: string, kinds: set<Kind>, active: seq<Active>)
    requires '{' !in v
    ensures Replace(v + t, kinds, active) == Prepend(v, Replace(t, kinds, active))
  {
    forall i | 0 <= i < |v|
      ensures MatchAt((v + t)[i..]) == None
    {
      assert (v + t)[i..][0] == v[i];
    }
    CopyStretch(v, t, kinds, active);
  }

  /** A placeholder of another kind is copied whole. */
  lemma CopyMatch(s: string, kinds: set<Kind>, active: seq<Active>)
    requires MatchAt(s).Some? && MatchAt(s).value.kind !in kinds && MatchAt(s).value.length <= |s|
    ensures var n := MatchAt(s).value.length;
            Replace(s, kinds, active) == Prepend(s[..n], Replace(s[n..], kinds, active))
  {
    var n := MatchAt(s).value.length;
    assert s[..n] + s[n..] == s;
    forall i | 0 <= i < n
      ensures match MatchAt((s[..n] + s[n..])[i..]) case None => true case Some(m) => m.kind !in kinds
    {
      if i == 0 {
        assert s[0..] == s;
      } else {
        NoMatchInside(s, i);
      }
    }
    CopyStretch(s[..n], s[n..], kinds, active);
  }

  lemma {:induction false} NoMarkerNoMatch(s: string, kinds: set<Kind>, active: seq<Active>)
    requires !Contains(s, "{{")
    ensures Replace(s, kinds, active) == Ok(s)
  {
    if s != "" {
      if |s| >= 2 {
        assert s[..2] == [s[0], s[1]];
      }
      NoMarkerNoMatch(s[1..], kinds, active);
      assert [s[0]] + s[1..] == s;
    }
  }

  // ----- passes in sequence

  /** Values that cannot take part in a placeholder. */
  predicate Clean(v: string) { '/' in v && '{' !in v && '}' !in v }

  /** Every value substituted for a placeholder of s is clean. */
  predicate CleanFor(s: string, active: seq<Active>) {
    s != "" ==>
      && (match MatchAt(s)
          case None => true
          case Some(m) => match Lookup(m, active) case Fail => true case Ok(v) => Clean(v))
      && CleanFor(s[1..], active)
  }

  lemma {:induction false} CleanSuffix(s: string, n: nat, active: seq<Active>)
    requires n <= |s| && CleanFor(s, active)
    ensures CleanFor(s[n..], active)
  {
    if n == 0 {
      assert s[0..] == s;
    } else {
      CleanSuffix(s[1..], n - 1, active);
      assert s[1..][n - 1..] == s[n..];
    }
  }

  /** No stretch that ends in a closing brace reaches past a clean value. */
  lemma ValueBlocks(v: string, rest: string, m: nat)
    requires Clean(v) && 0 < m <= |v + rest|
    ensures '/' in (v + rest)[..m] || (v + rest)[m - 1] != '}'
  {
    if m <= |v| {
      assert (v + rest)[m - 1] == v[m - 1] && v[m - 1] in v;
    } else {
      var k :| 0 <= k < |v| && v[k] == '/';
      assert (v + rest)[..m][k] == '/';
    }
  }

  /** A pass either copies the first character or puts a clean value at the front. */
  lemma PassHead(s: string, kinds: set<Kind>, active: seq<Active>, r: string)
      returns (copied: bool, v: string, rest: string)
    requires s != "" && CleanFor(s, active) && Replace(s, kinds, active) == Ok(r)
    ensures copied ==> Replace(s[1..], kinds, active) == Ok(rest) && CleanFor(s[1..], active) && r == [s[0]] + rest
    ensures !copied ==> Clean(v) && r == v + rest
  {
    var mt := MatchAt(s);
    v := "";
    if mt.Some? && mt.value.kind in kinds {
      MatchShape(s);
      copied, v := false, Lookup(mt.value, active).value;
      rest := Replace(s[mt.value.length..], kinds, active).value;
    } else {
      copied, rest := true, Replace(s[1..], kinds, active).value;
    }
  }

  lemma WithoutFirst(r: string, c: char, rest: string, m: nat)
    requires r == [c] + rest && 0 < m <= |r| && '/' !in r[..m]
    ensures '/' !in rest[..m - 1] && (m > 1 ==> rest[m - 2] == r[m - 1]) && r[..m] == [c] + rest[..m - 1]
  {
    assert r[..m] == [c] + rest[..m - 1];
  }

  /** What a pass produced and holds no slash, up to a closing brace, was there before. */
  lemma {:induction false} PrefixSurvives(s: string, kinds: set<Kind>, active: seq<Active>, r: string, m: nat)
    requires CleanFor(s, active) && Replace(s, kinds, active) == Ok(r)
    requires m <= |r| && '/' !in r[..m] && (m > 0 ==> r[m - 1] == '}')
    ensures m <= |s| && s[..m] == r[..m]
    decreases |s|
  {
    if m > 0 {
      var copied, v, rest := PassHead(s, kinds, active, r);
      if copied {
        WithoutFirst(r, s[0], rest, m);
        PrefixSurvives(s[1..], kinds, active, rest, m - 1);
        assert s[..m] == [s[0]] + s[1..][..m - 1];
      } else {
        ValueBlocks(v, rest, m);
        assert false;
      }
    }
  }

  /** Where a pass leaves the front of a string alone, it neither makes nor breaks
      a placeholder there. */
  lemma FrontStable(s: string, kinds: set<Kind>, active: seq<Active>, r: string)
    requires CleanFor(s, active) && Replace(s, kinds, active) == Ok(r)
    requires match MatchAt(s) case None => true case Some(m) => m.kind !in kinds
    ensures MatchAt(r) == MatchAt(s)
  {
    match MatchAt(s) {
      case Some(m) =>
        MatchShape(s);
        CopyMatch(s, kinds, active);
        assert r[..m.length] == s[..m.length];
        MatchLocal(s, r);
      case None =>
        if MatchAt(r).Some? {
          MatchShape(r);
          var n := MatchAt(r).value.length;
          PrefixSurvives(s, kinds, active, r, n);
          MatchLocal(r, s);
        }
    }
  }

  /** A further pass over the output of one is one pass for the kinds of both. */
  lemma {:induction false} PassesFuse(s: string, kinds: set<Kind>, kind: Kind, active: seq<Active>)
    requires CleanFor(s, active) && kind !in kinds
    ensures Then(Replace(s, kinds, active), kind, active) == Replace(s, kinds + {kind}, active)
    decreases |s|
  {
    if s != "" {
      var mt := MatchAt(s);
      if mt.Some? && mt.value.kind in kinds + {kind} {
        MatchShape(s);
        var n := mt.value.length;
        var rest := Replace(s[n..], kinds, active);
        CleanSuffix(s, n, active);
        PassesFuse(s[n..], kinds, kind, active);
        if mt.value.kind in kinds {
          var v := Lookup(mt.value, active);
          if v.Ok? && rest.Ok? {
            CopyBraceFree(v.value, rest.value, {kind}, active);
          }
        } else {
          CopyMatch(s, kinds, active);
          if rest.Ok? {
            var r := s[..n] + rest.value;
            MatchLocal(s, r);
            assert r[n..] == rest.value;
          }
        }
      } else {
        var rest := Replace(s[1..], kinds, active);
        PassesFuse(s[1..], kinds, kind, active);
        if rest.Ok? {
          var r := [s[0]] + rest.value;
          FrontStable(s, kinds, active, r);
          assert r[1..] == rest.value;
        }
      }
    }
  }

  /** The four passes have the meaning of one simultaneous replacement: the same
      result, and failure in the same cases. */
  lemma SequentialIsSimultaneous(s: string, active: seq<Active>)
    requires CleanFor(s, active)
    ensures FormatString(s, active) == Simultaneous(s, active)
  {
    if !Contains(s, "{{") {
      NoMarkerNoMatch(s, {Source, Target, Mount, Overlay}, active);
    } else {
      PassesFuse(s, {Source}, Target, active);
      PassesFuse(s, {Source, Target}, Mount, active);
      PassesFuse(s, {Source, Target, Mount}, Overlay, active);
      assert {Source} + {Target} == {Source, Target};
      assert {Source, Target} + {Mount} == {Source, Target, Mount};
      assert {Source, Target, Mount} + {Overlay} == {Source, Target, Mount, Overlay};
    }
  }

  // ----- the placeholders the host writes

  function Keyword(kind: Kind): string {
    match kind
    case Source => "source"
    case Target => "target"
    case Mount => "mount"
    case Overlay => "overlay"
  }

  function Words(kind: Kind, i: nat, j: nat): seq<string> {
    if kind == Overlay then [Keyword(kind), Decimal.Print(i), Decimal.Print(j)] else [Keyword(kind), Decimal.Print(i)]
  }

  /** "{{ mount 3 }}", "{{ overlay 0 2 }}". The second number is for overlays. */
  function Placeholder(kind: Kind, i: nat, j: nat): string {
    "{{" + Inner(kind, i, j) + "}}"
  }

  function Inner(kind: Kind, i: nat, j: nat): string { " " + Join(Words(kind, i, j), ' ') + " " }

  lemma NumberToken(n: nat)
    ensures IsToken(Decimal.Print(n), IsBlank) && IsNumber(Decimal.Print(n)) && '}' !in Decimal.Print(n)
  {
    var d := Decimal.Print(n);
    assert forall i :: 0 <= i < |d| ==> Decimal.IsDigit(d[i]);
  }

  lemma {:induction false} CloseAfter(u: string, rest: string, i: nat)
    requires i <= |u| && '}' !in u && rest != "" && rest[0] == '}'
    ensures Close(u + rest, i) == |u|
  {
    var j := Close(u + rest, i);
    assert (u + rest)[|u|] == '}';
    assert forall k :: 0 <= k < |u| ==> (u + rest)[k] == u[k] && u[k] in u;
  }

  lemma WordsAreTokens(kind: Kind, i: nat, j: nat)
    ensures forall w :: w in Words(kind, i, j) ==> IsToken(w, IsBlank) && '}' !in w
  {
    NumberToken(i);
    NumberToken(j);
    KeywordToken(kind);
  }

  lemma FieldsPadded(words: seq<string>)
    requires forall w :: w in words ==> IsToken(w, IsBlank)
    ensures Fields(" " + Join(words, ' ') + " ", IsBlank) == words
  {
    var line := Join(words, ' ');
    FieldsOfLine(words, " ", IsBlank);
    assert " "[1..] == "" && Fields(" ", IsBlank) == [];
    assert (" " + line + " ")[1..] == line + " ";
  }

  lemma WordsOf(kind: Kind, i: nat, j: nat)
    ensures '}' !in Inner(kind, i, j)
    ensures Fields(Inner(kind, i, j), IsBlank) == Words(kind, i, j)
  {
    WordsAreTokens(kind, i, j);
    JoinLacks(Words(kind, i, j), '}');
    FieldsPadded(Words(kind, i, j));
  }

  lemma KeywordToken(kind: Kind)
    ensures IsToken(Keyword(kind), IsBlank) && '}' !in Keyword(kind)
  {
    assert Keyword(kind) in ["source", "target", "mount", "overlay"];
  }

  function Written(kind: Kind, i: nat, j: nat): Match {
    Match(|Placeholder(kind, i, j)|, kind, Decimal.Print(i), if kind == Overlay then Decimal.Print(j) else "")
  }

  lemma WordsParse(kind: Kind, i: nat, j: nat, length: nat)
    ensures ParseInner(Words(kind, i, j), length)
            == Some(Match(length, kind, Decimal.Print(i), if kind == Overlay then Decimal.Print(j) else ""))
  {
    NumberToken(i);
    NumberToken(j);
  }

  /** Two braces around anything without braces. */
  lemma MatchAround(inner: string, rest: string)
    requires '}' !in inner
    ensures MatchAt("{{" + inner + "}}" + rest) == ParseInner(Fields(inner, IsBlank), |inner| + 4)
  {
    var s := "{{" + inner + "}}" + rest;
    Associate("{{", inner, "}}", rest);
    CloseAfter("{{" + inner, "}}" + rest, 2);
    assert s[2..2 + |inner|] == inner;
  }

  /** A placeholder the host writes is found, whole, by the guest. */
  lemma PlaceholderMatches(kind: Kind, i: nat, j: nat, rest: string)
    ensures MatchAt(Placeholder(kind, i, j) + rest) == Some(Written(kind, i, j))
  {
    WordsOf(kind, i, j);
    MatchAround(Inner(kind, i, j), rest);
    WordsParse(kind, i, j, |Inner(kind, i, j)| + 4);
  }

  // ----- a template with one placeholder

  /** No two opening braces in a row, by position. */
  predicate MarkerFree(s: string) { forall i :: 0 <= i < |s| - 1 ==> !(s[i] == '{' && s[i + 1] == '{') }

  lemma {:induction false} MarkerFreeIsNotContains(s: string)
    ensures MarkerFree(s) <==> !Contains(s, "{{")
  {
    if s != "" {
      MarkerFreeIsNotContains(s[1..]);
      assert "{{" <= s <==> |s| >= 2 && s[0] == '{' && s[1] == '{' by {
        if |s| >= 2 {
          assert s[..2] == [s[0], s[1]];
        }
      }
      var t := s[1..];
      if MarkerFree(s) {
        forall i | 0 <= i < |t| - 1
          ensures !(t[i] == '{' && t[i + 1] == '{')
        {
          assert t[i] == s[i + 1];
        }
      }
      if MarkerFree(t) && !("{{" <= s) {
        forall i | 0 <= i < |s| - 1
          ensures !(s[i] == '{' && s[i + 1] == '{')
        {
          if i > 0 {
            assert t[i - 1] == s[i];
          }
        }
      }
    }
  }

  /** A pass over a template with one placeholder. */
  lemma ReplaceOne(u: string, kind: Kind, i: nat, j: nat, rest: string, kinds: set<Kind>, active: seq<Active>)
    requires '{' !in u && '{' !in rest
    ensures Replace(u + (Placeholder(kind, i, j) + rest), kinds, active)
            == if kind !in kinds then Ok(u + (Placeholder(kind, i, j) + rest))
               else match Lookup(Written(kind, i, j), active) case Fail => Fail case Ok(v) => Ok(u + (v + rest))
  {
    var p := Placeholder(kind, i, j);
    PlaceholderMatches(kind, i, j, rest);
    CopyBraceFree(u, p + rest, kinds, active);
    assert (p + rest)[|p|..] == rest && (p + rest)[..|p|] == p;
    assert Replace(rest, kinds, active) == Ok(rest) by {
      CopyBraceFree(rest, "", kinds, active);
      assert rest + "" == rest;
    }
    if kind !in kinds {
      CopyMatch(p + rest, kinds, active);
    }
  }

  /** Such a template expands to its value in place, provided that does not bring
      in the marker. */
  lemma FormatOne(u: string, kind: Kind, i: nat, j: nat, rest: string, v: string, active: seq<Active>)
    requires '{' !in u && '{' !in rest
    requires Lookup(Written(kind, i, j), active) == Ok(v)
    requires MarkerFree(u + (v + rest))
    ensures FormatString(u + (Placeholder(kind, i, j) + rest), active) == Ok(u + (v + rest))
  {
    var s := u + (Placeholder(kind, i, j) + rest);
    var t := u + (v + rest);
    assert Contains(s, "{{") by {
      assert s[|u|] == '{' && s[|u| + 1] == '{';
      MarkerFreeIsNotContains(s);
    }
    MarkerFreeIsNotContains(t);
    NoMarkerNoMatch(t, {Source}, active);
    NoMarkerNoMatch(t, {Target}, active);
    NoMarkerNoMatch(t, {Mount}, active);
    NoMarkerNoMatch(t, {Overlay}, active);
    ReplaceOne(u, kind, i, j, rest, {Source}, active);
    ReplaceOne(u, kind, i, j, rest, {Target}, active);
    ReplaceOne(u, kind, i, j, rest, {Mount}, active);
    ReplaceOne(u, kind, i, j, rest, {Overlay}, active);
  }

  // ----- values that are templates themselves

  function Order(kind: Kind): nat {
    match kind
    case Source => 0
    case Target => 1
    case Mount => 2
    case Overlay => 3
  }

  /** The passes that come after the one for the kind. */
  function PassesAfter(t: string, kind: Kind, active: seq<Active>): Result<string> {
    var r1 := if kind == Source then Replace(t, {Target}, active) else Ok(t);
    var r2 := if Order(kind) < 2 then Then(r1, Mount, active) else r1;
    if kind == Overlay then r2 else Then(r2, Overlay, active)
  }

  lemma HasMarker(u: string, kind: Kind, i: nat, j: nat, rest: string)
    ensures Contains(u + (Placeholder(kind, i, j) + rest), "{{") && !MarkerFree(u + (Placeholder(kind, i, j) + rest))
  {
    var s := u + (Placeholder(kind, i, j) + rest);
    assert s[|u|] == '{' && s[|u| + 1] == '{';
    MarkerFreeIsNotContains(s);
  }

  lemma OneTemplate(u: string, kind: Kind, i: nat, j: nat, rest: string, v: string, active: seq<Active>)
    requires '{' !in u && '{' !in rest && Lookup(Written(kind, i, j), active) == Ok(v)
    ensures var s := u + (Placeholder(kind, i, j) + rest);
            && FormatString(s, active) == RejectLeftover(PassesAfter(u + (v + rest), kind, active))
            && Simultaneous(s, active) == RejectLeftover(Ok(u + (v + rest)))
  {
    HasMarker(u, kind, i, j, rest);
    ReplaceOne(u, kind, i, j, rest, {Source}, active);
    ReplaceOne(u, kind, i, j, rest, {Target}, active);
    ReplaceOne(u, kind, i, j, rest, {Mount}, active);
    ReplaceOne(u, kind, i, j, rest, {Overlay}, active);
    ReplaceOne(u, kind, i, j, rest, {Source, Target, Mount, Overlay}, active);
  }

  /** For a template with one placeholder, passes and simultaneous replacement agree when
      the value brings in no marker, and otherwise when the later passes fail on it. */
  lemma OneTemplateAgrees(u: string, kind: Kind, i: nat, j: nat, rest: string, v: string, active: seq<Active>)
    requires '{' !in u && '{' !in rest && Lookup(Written(kind, i, j), active) == Ok(v)
    ensures var s, t := u + (Placeholder(kind, i, j) + rest), u + (v + rest);
            FormatString(s, active) == Simultaneous(s, active)
            <==> MarkerFree(t) || RejectLeftover(PassesAfter(t, kind, active)) == Fail
  {
    var t := u + (v + rest);
    OneTemplate(u, kind, i, j, rest, v, active);
    MarkerFreeIsNotContains(t);
    if MarkerFree(t) {
      UnmarkedPasses(t, kind, active);
    }
  }

  lemma UnmarkedPasses(t: string, kind: Kind, active: seq<Active>)
    requires MarkerFree(t)
    ensures PassesAfter(t, kind, active) == Ok(t)
  {
    MarkerFreeIsNotContains(t);
    NoMarkerNoMatch(t, {Target}, active);
    NoMarkerNoMatch(t, {Mount}, active);
    NoMarkerNoMatch(t, {Overlay}, active);
  }

  /** A placeholder of one of the kinds stands at position i. */
  predicate MatchIn(s: string, i: int, kinds: set<Kind>) {
    0 <= i < |s| && MatchAt(s[i..]).Some? && MatchAt(s[i..]).value.kind in kinds
  }

  predicate OpensAt(s: string, i: int) { 0 <= i < |s| - 1 && s[i] == '{' && s[i + 1] == '{' }

  /** Every placeholder of the kinds stands for something, and every marker opens one of
      them, at its first brace or at its second. */
  predicate Resolved(s: string, kinds: set<Kind>, active: seq<Active>) {
    && (forall i :: 0 <= i < |s| && MatchIn(s, i, kinds) ==> Lookup(MatchAt(s[i..]).value, active).Ok?)
    && (forall i :: 0 <= i < |s| && OpensAt(s, i) ==> MatchIn(s, i, kinds) || MatchIn(s, i + 1, kinds))
  }

  lemma SuffixPositions(s: string, n: nat, i: nat, kinds: set<Kind>)
    requires n <= |s|
    ensures MatchIn(s[n..], i, kinds) == MatchIn(s, n + i, kinds) && OpensAt(s[n..], i) == OpensAt(s, n + i)
    ensures i < |s[n..]| ==> s[n..][i..] == s[n + i..]
  {
    if i < |s[n..]| {
      assert s[n..][i..] == s[n + i..];
    }
  }

  /** Position i of a string is resolved. */
  predicate ResolvedAt(s: string, i: int, kinds: set<Kind>, active: seq<Active>) {
    && (MatchIn(s, i, kinds) ==> Lookup(MatchAt(s[i..]).value, active).Ok?)
    && (OpensAt(s, i) ==> MatchIn(s, i, kinds) || MatchIn(s, i + 1, kinds))
  }

  lemma ResolvedPoint(s: string, n: nat, i: nat, kinds: set<Kind>, active: seq<Active>)
    requires n <= i < |s|
    ensures ResolvedAt(s[n..], i - n, kinds, active) == ResolvedAt(s, i, kinds, active)
  {
    SuffixPositions(s, n, i - n, kinds);
    SuffixPositions(s, n, i - n + 1, kinds);
  }

  lemma ResolvedEverywhere(s: string, kinds: set<Kind>, active: seq<Active>)
    ensures Resolved(s, kinds, active) <==> forall i :: 0 <= i < |s| ==> ResolvedAt(s, i, kinds, active)
  {
    if forall i :: 0 <= i < |s| ==> ResolvedAt(s, i, kinds, active) {
      forall i | 0 <= i < |s|
        ensures MatchIn(s, i, kinds) ==> Lookup(MatchAt(s[i..]).value, active).Ok?
        ensures OpensAt(s, i) ==> MatchIn(s, i, kinds) || MatchIn(s, i + 1, kinds)
      {
        assert ResolvedAt(s, i, kinds, active);
      }
    }
  }

  lemma ResolvedSuffix(s: string, n: nat, kinds: set<Kind>, active: seq<Active>)
    requires n <= |s| && Resolved(s, kinds, active)
    ensures Resolved(s[n..], kinds, active)
  {
    ResolvedEverywhere(s, kinds, active);
    forall i | 0 <= i < |s[n..]|
      ensures ResolvedAt(s[n..], i, kinds, active)
    {
      ResolvedPoint(s, n, n + i, kinds, active);
    }
    ResolvedEverywhere(s[n..], kinds, active);
  }

  /** What holds of a suffix, and of every position before it, holds of the whole. */
  lemma ResolvedWhole(s: string, n: nat, kinds: set<Kind>, active: seq<Active>)
    requires n <= |s| && Resolved(s[n..], kinds, active)
    requires forall i :: 0 <= i < n ==> ResolvedAt(s, i, kinds, active)
    ensures Resolved(s, kinds, active)
  {
    ResolvedEverywhere(s[n..], kinds, active);
    forall i | n <= i < |s|
      ensures ResolvedAt(s, i, kinds, active)
    {
      ResolvedPoint(s, n, i, kinds, active);
    }
    ResolvedEverywhere(s, kinds, active);
  }

  /** A placeholder at the front: resolved when it stands for something and the rest is. */
  lemma ResolvedAfterMatch(s: string, kinds: set<Kind>, active: seq<Active>)
    requires MatchIn(s, 0, kinds) && MatchAt(s).Some? && MatchAt(s).value.length <= |s|
    ensures Resolved(s, kinds, active)
            <==> Lookup(MatchAt(s).value, active).Ok? && Resolved(s[MatchAt(s).value.length..], kinds, active)
  {
    var n := MatchAt(s).value.length;
    MatchShape(s);
    assert s[0..] == s;
    if Resolved(s, kinds, active) {
      ResolvedSuffix(s, n, kinds, active);
    }
    if Lookup(MatchAt(s).value, active).Ok? && Resolved(s[n..], kinds, active) {
      forall i | 0 < i < n
        ensures !MatchIn(s, i, kinds) && !OpensAt(s, i)
      {
        NoMatchInside(s, i);
        assert i == 1 ==> !IsBrace(s[2]);
      }
      ResolvedWhole(s, n, kinds, active);
    }
  }

  /** Any other character at the front. */
  lemma ResolvedAfterCopy(s: string, kinds: set<Kind>, active: seq<Active>)
    requires s != "" && !MatchIn(s, 0, kinds)
    ensures Resolved(s, kinds, active)
            <==> Resolved(s[1..], kinds, active) && (OpensAt(s, 0) ==> MatchIn(s[1..], 0, kinds))
  {
    SuffixPositions(s, 1, 0, kinds);
    if Resolved(s, kinds, active) {
      ResolvedSuffix(s, 1, kinds, active);
    }
    if Resolved(s[1..], kinds, active) && (OpensAt(s, 0) ==> MatchIn(s[1..], 0, kinds)) {
      ResolvedWhole(s, 1, kinds, active);
    }
  }

  lemma MarkerFreeAfter(v: string, r: string)
    requires '{' !in v
    ensures MarkerFree(v + r) <==> MarkerFree(r)
  {
    if MarkerFree(v + r) {
      forall i | 0 <= i < |r| - 1
        ensures !(r[i] == '{' && r[i + 1] == '{')
      {
        assert (v + r)[|v| + i] == r[i] && (v + r)[|v| + i + 1] == r[i + 1];
      }
    }
    if MarkerFree(r) {
      forall i | 0 <= i < |v + r| - 1
        ensures !((v + r)[i] == '{' && (v + r)[i + 1] == '{')
      {
        if i < |v| {
          assert (v + r)[i] == v[i] && v[i] in v;
        } else {
          assert (v + r)[i] == r[i - |v|] && (v + r)[i + 1] == r[i - |v| + 1];
        }
      }
    }
  }

  lemma MarkerFreeAfterChar(c: char, r: string)
    ensures MarkerFree([c] + r) <==> MarkerFree(r) && !(c == '{' && r != "" && r[0] == '{')
  {
    var s := [c] + r;
    assert s[1..] == r && s[0] == c;
    if MarkerFree(s) {
      forall i | 0 <= i < |r| - 1
        ensures !(r[i] == '{' && r[i + 1] == '{')
      {
        assert s[i + 1] == r[i] && s[i + 2] == r[i + 1];
      }
      assert r != "" ==> s[1] == r[0];
    }
    if MarkerFree(r) && !(c == '{' && r != "" && r[0] == '{') {
      forall i | 0 <= i < |s| - 1
        ensures !(s[i] == '{' && s[i + 1] == '{')
      {
        assert i > 0 ==> s[i] == r[i - 1] && s[i + 1] == r[i];
        assert i == 0 ==> s[1] == r[0];
      }
    }
  }

  /** A pass puts an opening brace at the front only where it copies one. */
  lemma FrontBrace(s: string, kinds: set<Kind>, active: seq<Active>, r: string)
    requires CleanFor(s, active) && Replace(s, kinds, active) == Ok(r)
    ensures r != "" && r[0] == '{' <==> s != "" && s[0] == '{' && !MatchIn(s, 0, kinds)
  {
    if s != "" {
      assert s[0..] == s;
      var copied, v, rest := PassHead(s, kinds, active, r);
      if MatchIn(s, 0, kinds) {
        MatchShape(s);
        var w := Lookup(MatchAt(s).value, active).value;
        assert Clean(w) && w[0] in w && r[0] == w[0];
      } else {
        CopyFirst(s, kinds, active);
      }
    }
  }

  /** A pass over a string with clean values succeeds and leaves no marker exactly when the
      string is resolved. */
  lemma {:induction false} ReplaceResolvesIff(s: string, kinds: set<Kind>, active: seq<Active>)
    requires CleanFor(s, active)
    ensures RejectLeftover(Replace(s, kinds, active)).Ok? <==> Resolved(s, kinds, active)
    decreases |s|
  {
    if s == "" {
      MarkerFreeIsNotContains("");
    } else {
      assert s[0..] == s;
      if MatchIn(s, 0, kinds) {
        ResolvesAfterMatch(s, kinds, active);
      } else {
        ResolvesAfterCopy(s, kinds, active);
      }
    }
  }

  lemma ResolvesAfterMatch(s: string, kinds: set<Kind>, active: seq<Active>)
    requires CleanFor(s, active) && MatchIn(s, 0, kinds)
    ensures RejectLeftover(Replace(s, kinds, active)).Ok? <==> Resolved(s, kinds, active)
    decreases |s|, 0
  {
    assert s[0..] == s;
    MatchShape(s);
    var m := MatchAt(s).value;
    CleanSuffix(s, m.length, active);
    ReplaceResolvesIff(s[m.length..], kinds, active);
    ResolvedAfterMatch(s, kinds, active);
    var r := Replace(s[m.length..], kinds, active);
    if Lookup(m, active).Ok? && r.Ok? {
      var v := Lookup(m, active).value;
      MarkerFreeAfter(v, r.value);
      MarkerFreeIsNotContains(v + r.value);
      MarkerFreeIsNotContains(r.value);
    }
  }

  lemma ResolvesAfterCopy(s: string, kinds: set<Kind>, active: seq<Active>)
    requires s != "" && CleanFor(s, active) && !MatchIn(s, 0, kinds)
    ensures RejectLeftover(Replace(s, kinds, active)).Ok? <==> Resolved(s, kinds, active)
    decreases |s|, 0
  {
    assert s[0..] == s;
    CopyFirst(s, kinds, active);
    ReplaceResolvesIff(s[1..], kinds, active);
    ResolvedAfterCopy(s, kinds, active);
    var r := Replace(s[1..], kinds, active);
    if r.Ok? {
      FrontBrace(s[1..], kinds, active, r.value);
      MarkerFreeAfterChar(s[0], r.value);
      MarkerFreeIsNotContains([s[0]] + r.value);
      MarkerFreeIsNotContains(r.value);
    }
  }

  function Later(kind: Kind): set<Kind> {
    match kind
    case Source => {Target, Mount, Overlay}
    case Target => {Mount, Overlay}
    case Mount => {Overlay}
    case Overlay => {}
  }

  lemma {:induction false} NoKinds(s: string, active: seq<Active>)
    ensures Replace(s, {}, active) == Ok(s)
  {
    if s != "" {
      NoKinds(s[1..], active);
      assert [s[0]] + s[1..] == s;
    }
  }

  lemma LaterPassesFuse(t: string, kind: Kind, active: seq<Active>)
    requires CleanFor(t, active)
    ensures PassesAfter(t, kind, active) == Replace(t, Later(kind), active)
  {
    match kind
    case Source =>
      PassesFuse(t, {Target}, Mount, active);
      PassesFuse(t, {Target, Mount}, Overlay, active);
      assert {Target} + {Mount} == {Target, Mount} && {Target, Mount} + {Overlay} == {Target, Mount, Overlay};
    case Target =>
      PassesFuse(t, {Mount}, Overlay, active);
      assert {Mount} + {Overlay} == {Mount, Overlay};
    case Mount =>
    case Overlay => NoKinds(t, active);
  }

  /** Where the placeholders in a value stand for clean values themselves: passes and
      simultaneous replacement agree exactly when the value brings in no marker, or one of
      its placeholders of a later kind stands for nothing, or one of its markers opens no
      such placeholder. */
  lemma OneTemplateAgreesIff(u: string, kind: Kind, i: nat, j: nat, rest: string, v: string, active: seq<Active>)
    requires '{' !in u && '{' !in rest && Lookup(Written(kind, i, j), active) == Ok(v)
    requires CleanFor(u + (v + rest), active)
    ensures var s, t := u + (Placeholder(kind, i, j) + rest), u + (v + rest);
            FormatString(s, active) == Simultaneous(s, active) <==> MarkerFree(t) || !Resolved(t, Later(kind), active)
  {
    var t := u + (v + rest);
    OneTemplateAgrees(u, kind, i, j, rest, v, active);
    LaterPassesFuse(t, kind, active);
    ReplaceResolvesIff(t, Later(kind), active);
  }

  /** Passing a template of a later kind: it is resolved on the way. */
  lemma LaterTemplate(u: string, kind: Kind, later: Kind, i: nat, j: nat, rest: string, w: string, active: seq<Active>)
    requires '{' !in u && '{' !in rest && Order(kind) < Order(later)
    requires Lookup(Written(later, i, j), active) == Ok(w) && MarkerFree(u + (w + rest))
    ensures PassesAfter(u + (Placeholder(later, i, j) + rest), kind, active) == Ok(u + (w + rest))
  {
    var t := u + (w + rest);
    MarkerFreeIsNotContains(t);
    NoMarkerNoMatch(t, {Mount}, active);
    NoMarkerNoMatch(t, {Overlay}, active);
    ReplaceOne(u, later, i, j, rest, {Target}, active);
    ReplaceOne(u, later, i, j, rest, {Mount}, active);
    ReplaceOne(u, later, i, j, rest, {Overlay}, active);
  }

  /** Whenever a value spells a placeholder that a later pass resolves, it is expanded
      again, where one simultaneous replacement refuses it. */
  lemma TemplateValueIsExpandedTwice(u: string, kind: Kind, i: nat, j: nat, later: Kind, k: nat, l: nat, rest: string,
                                     w: string, active: seq<Active>)
    requires '{' !in u && '{' !in rest && Order(kind) < Order(later)
    requires Lookup(Written(kind, i, j), active) == Ok(Placeholder(later, k, l))
    requires Lookup(Written(later, k, l), active) == Ok(w) && MarkerFree(u + (w + rest))
    ensures var s := u + (Placeholder(kind, i, j) + rest);
            FormatString(s, active) == Ok(u + (w + rest)) && Simultaneous(s, active) == Fail
  {
    OneTemplate(u, kind, i, j, rest, Placeholder(later, k, l), active);
    LaterTemplate(u, kind, later, k, l, rest, w, active);
    HasMarker(u, later, k, l, rest);
    MarkerFreeIsNotContains(u + (w + rest));
  }

  /** Such values exist: a source that names a mount point. */
  lemma UncleanValueIsExpandedTwice() returns (s: string, active: seq<Active>)
    ensures FormatString(s, active) == Ok("/mnt") && Simultaneous(s, active) == Fail
  {
    active := [Active("", Placeholder(Mount, 0, 0), "", [], "/mnt")];
    Decimal.AtoiPrint(0);
    TemplateValueIsExpandedTwice("", Source, 0, 0, Mount, 0, 0, "", "/mnt", active);
    s := "" + (Placeholder(Source, 0, 0) + "");
    assert "" + ("/mnt" + "") == "/mnt";
  }
}
