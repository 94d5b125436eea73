/** Freezing the writable filesystems for a snapshot: which mount points the kernel
    lists, how their names are unescaped, and what a failed freeze leaves behind. */
module Freeze {
  import opened Text
  import opened Wrappers

  // ----- octal escapes

  predicate IsOctal(c: char) { '0' <= c <= '7' }

  function Digit(c: char): nat
    requires IsOctal(c)
  {
    c as int - '0' as int
  }

  /** Three octal digits, reduced to a byte. */
  function ParseOctal3(s: string): Option<char> {
    if |s| != 3 || !IsOctal(s[0]) || !IsOctal(s[1]) || !IsOctal(s[2]) then None
    else Some(((Digit(s[0]) * 64 + Digit(s[1]) * 8 + Digit(s[2])) % 256) as char)
  }

  /** The first byte that s stands for, and how many characters say it. */
  function First(s: string): (r: (char, nat))
    requires s != ""
    ensures 1 <= r.1 <= |s|
  {
    if s[0] == '\\' && |s| > 3 && ParseOctal3(s[1..4]).Some? then (ParseOctal3(s[1..4]).value, 4) else (s[0], 1)
  }

  function Unescape(s: string): string { if s == "" then "" else [First(s).0] + Unescape(s[First(s).1..]) }

  lemma {:induction false} UnescapePlain(s: string)
    requires '\\' !in s
    ensures Unescape(s) == s
  {
    if s != "" {
      UnescapePlain(s[1..]);
      assert [s[0]] + s[1..] == s;
    }
  }

  method UnescapeMountField(s: string) returns (r: string)
    ensures r == Unescape(s)
  {
    if '\\' !in s {
      UnescapePlain(s);
      return s;
    }
    r := "";
    var i := 0;
    while i < |s|
      invariant i <= |s| && Unescape(s) == r + Unescape(s[i..])
    {
      var c, n := NextByte(s, i);
      UnescapeFrom(s, i, c, n);
      assert r + ([c] + Unescape(s[i + n..])) == (r + [c]) + Unescape(s[i + n..]);
      r, i := r + [c], i + n;
    }
  }

  lemma UnescapeFrom(s: string, i: nat, c: char, n: nat)
    requires i < |s| && (c, n) == First(s[i..])
    ensures i + n <= |s| && Unescape(s[i..]) == [c] + Unescape(s[i + n..])
  {
    assert s[i..][n..] == s[i + n..];
  }

  /** The byte said at position i, and how many characters say it. */
  method NextByte(s: string, i: nat) returns (c: char, n: nat)
    requires i < |s|
    ensures (c, n) == First(s[i..])
  {
    FirstAt(s, i);
    if s[i] == '\\' && i + 3 < |s| {
      var v := ParseOctal3(s[i + 1..i + 4]);
      if v.Some? {
        return v.value, 4;
      }
    }
    c, n := s[i], 1;
  }

  lemma FirstAt(s: string, i: nat)
    requires i < |s|
    ensures First(s[i..]) == if s[i] == '\\' && i + 3 < |s| && ParseOctal3(s[i + 1..i + 4]).Some?
                             then (ParseOctal3(s[i + 1..i + 4]).value, 4)
                             else (s[i], 1)
  {
    if i + 3 < |s| {
      assert s[i..][1..4] == s[i + 1..i + 4];
    }
  }

  function OctalDigit(d: nat): char
    requires d < 8
  {
    ('0' as int + d) as char
  }

  /** A byte as the kernel writes it: backslash and three octal digits. */
  function Escaped(c: char): string
    requires c as int < 256
  {
    var n := c as int;
    ['\\', OctalDigit(n / 64), OctalDigit(n / 8 % 8), OctalDigit(n % 8)]
  }

  /** The kernel's escaping of a path, for any set of bytes to escape. */
  function Escape(s: string, special: set<char>): string
    requires forall c :: c in special ==> c as int < 256
  {
    if s == "" then "" else (if s[0] in special then Escaped(s[0]) else [s[0]]) + Escape(s[1..], special)
  }

  lemma OctalDigits(n: nat)
    requires n < 256
    ensures n / 64 < 8 && n / 64 * 64 + n / 8 % 8 * 8 + n % 8 == n
  {
  }

  lemma DigitsAreRead(a: nat, b: nat, c: nat)
    requires a < 8 && b < 8 && c < 8
    ensures ParseOctal3([OctalDigit(a), OctalDigit(b), OctalDigit(c)]) == Some(((a * 64 + b * 8 + c) % 256) as char)
  {
  }

  lemma EscapedIsRead(c: char, rest: string)
    requires c as int < 256
    ensures Unescape(Escaped(c) + rest) == [c] + Unescape(rest)
  {
    var s, n := Escaped(c) + rest, c as int;
    OctalDigits(n);
    DigitsAreRead(n / 64, n / 8 % 8, n % 8);
    assert s[1..4] == [OctalDigit(n / 64), OctalDigit(n / 8 % 8), OctalDigit(n % 8)] && s[4..] == rest;
  }

  /** Unescaping undoes escaping, for every string of bytes and every set of escaped
      bytes that has the backslash. */
  lemma {:induction false} UnescapeEscape(s: string, special: set<char>)
    requires '\\' in special && forall c :: c in special ==> c as int < 256
    ensures Unescape(Escape(s, special)) == s
  {
    if s != "" {
      UnescapeEscape(s[1..], special);
      var rest := Escape(s[1..], special);
      assert s == [s[0]] + s[1..];
      if s[0] in special {
        EscapedIsRead(s[0], rest);
      } else {
        assert ([s[0]] + rest)[1..] == rest;
      }
    }
  }

  // ----- the mount list

  /** Where the first "-" field is. */
  function Separator(fields: seq<string>): (n: nat)
    ensures n <= |fields| && (n < |fields| ==> fields[n] == "-") && forall i :: 0 <= i < n ==> fields[i] != "-"
  {
    if fields == [] || fields[0] == "-" then 0 else 1 + Separator(fields[1..])
  }

  /** The mount point a line adds, if its filesystem is one to freeze. */
  function LineMount(fields: seq<string>): seq<string> {
    var sep := Separator(fields);
    if |fields| < 5 || sep + 1 >= |fields| || fields[sep + 1] != "ext4" then [] else [Unescape(fields[4])]
  }

  function LinesMounts(lines: seq<string>): seq<string> {
    if lines == [] then [] else LinesMounts(lines[..|lines| - 1]) + LineMount(Fields(lines[|lines| - 1], IsSpace))
  }

  method ParseFreezableMounts(data: string) returns (mounts: seq<string>)
    ensures mounts == LinesMounts(Split(data, '\n'))
  {
    mounts := [];
    var lines := Split(data, '\n');
    for i := 0 to |lines|
      invariant mounts == LinesMounts(lines[..i])
    {
      assert lines[..i + 1][..i] == lines[..i];
      var fields := Fields(lines[i], IsSpace);
      if |fields| >= 5 {
        var sep := FindSeparator(fields);
        if sep >= 0 && sep + 1 < |fields| && fields[sep + 1] == "ext4" {
          var mp := UnescapeMountField(fields[4]);
          mounts := mounts + [mp];
        }
      }
    }
    assert lines[..|lines|] == lines;
  }

  method FindSeparator(fields: seq<string>) returns (sep: int)
    ensures sep == if Separator(fields) < |fields| then Separator(fields) else -1
  {
    for i := 0 to |fields|
      invariant Separator(fields) == i + Separator(fields[i..])
    {
      if fields[i] == "-" {
        return i;
      }
      assert fields[i..][1..] == fields[i + 1..];
    }
    assert fields[|fields|..] == [];
    sep := -1;
  }

  /** An entry of the kernel's list: the fields before the mount point, the mount point
      itself, the options up to the separator, the type, and the rest. */
  datatype Entry = Entry(before: seq<string>, mountPoint: string, options: seq<string>, fstype: string,
                         rest: seq<string>)

  function EntryFields(e: Entry, special: set<char>): seq<string>
    requires forall c :: c in special ==> c as int < 256
  {
    e.before + [Escape(e.mountPoint, special)] + e.options + ["-", e.fstype] + e.rest
  }

  /** Bytes that are escaped, the backslash among them. */
  predicate Escapes(special: set<char>) { '\\' in special && forall c :: c in special ==> c as int < 256 }

  /** An entry as the kernel writes it: an absolute path, and single words around it. */
  predicate ValidEntry(e: Entry) {
    && |e.before| == 4 && e.mountPoint != "" && e.mountPoint[0] == '/'
    && (forall t :: t in e.before + e.options + ["-", e.fstype] + e.rest ==> IsToken(t, IsSpace))
    && "-" !in e.before + e.options
  }

  /** No white space of the path is left unescaped. */
  predicate Covers(special: set<char>, path: string) { forall c :: c in path && IsSpace(c) ==> c in special }

  lemma {:induction false} EscapeIsToken(path: string, special: set<char>)
    requires Escapes(special) && path != "" && Covers(special, path)
    ensures IsToken(Escape(path, special), IsSpace)
  {
    if |path| > 1 {
      assert forall c :: c in path[1..] ==> c in path;
      EscapeIsToken(path[1..], special);
    }
    assert path[0] in path;
    assert path[0] in special ==> SpaceFree(Escaped(path[0]), IsSpace);
    assert path[1..] == "" ==> Escape(path[1..], special) == "";
  }

  function PrintInfo(entries: seq<Entry>, special: set<char>): string
    requires forall c :: c in special ==> c as int < 256
  {
    if entries == [] then ""
    else PrintInfo(entries[..|entries| - 1], special) + (Join(EntryFields(entries[|entries| - 1], special), ' ') + "\n")
  }

  function Freezable(entries: seq<Entry>): seq<string> {
    if entries == [] then []
    else
      var e := entries[|entries| - 1];
      Freezable(entries[..|entries| - 1]) + if e.fstype == "ext4" then [e.mountPoint] else []
  }

  lemma EscapedPathFacts(e: Entry, special: set<char>)
    requires Escapes(special) && ValidEntry(e) && Covers(special, e.mountPoint)
    ensures IsToken(Escape(e.mountPoint, special), IsSpace) && Escape(e.mountPoint, special)[0] != '-'
    ensures forall t :: t in EntryFields(e, special) ==> IsToken(t, IsSpace)
  {
    EscapeIsToken(e.mountPoint, special);
    forall t | t in EntryFields(e, special)
      ensures IsToken(t, IsSpace)
    {
      assert t == Escape(e.mountPoint, special) || t in e.before + e.options + ["-", e.fstype] + e.rest;
    }
  }

  lemma EntryIsRead(e: Entry, special: set<char>)
    requires Escapes(special) && ValidEntry(e) && Covers(special, e.mountPoint)
    ensures LineMount(EntryFields(e, special)) == if e.fstype == "ext4" then [e.mountPoint] else []
  {
    EscapedPathFacts(e, special);
    var fields := EntryFields(e, special);
    var head := e.before + [Escape(e.mountPoint, special)] + e.options;
    assert fields == head + ["-", e.fstype] + e.rest;
    assert forall i :: 0 <= i < |head| && i != 4 ==> head[i] in e.before + e.options;
    assert forall i :: 0 <= i < |head| ==> fields[i] == head[i] && head[i] != "-";
    assert fields[|head|] == "-";
    assert fields[4] == Escape(e.mountPoint, special);
    UnescapeEscape(e.mountPoint, special);
  }

  lemma {:induction false} MountsOfTwo(lines: seq<string>, line: string)
    ensures LinesMounts(lines + [line, ""]) == LinesMounts(lines) + LineMount(Fields(line, IsSpace))
    ensures LinesMounts(lines + [""]) == LinesMounts(lines)
  {
    var two := lines + [line, ""];
    assert two[..|two| - 1] == lines + [line] && (lines + [line])[..|lines|] == lines
      && (lines + [""])[..|lines|] == lines;
    assert LineMount(Fields("", IsSpace)) == [];
  }

  lemma LineIsRead(e: Entry, special: set<char>)
    requires Escapes(special) && ValidEntry(e) && Covers(special, e.mountPoint)
    ensures var line := Join(EntryFields(e, special), ' ');
            '\n' !in line && LineMount(Fields(line, IsSpace)) == if e.fstype == "ext4" then [e.mountPoint] else []
  {
    var fields := EntryFields(e, special);
    EscapedPathFacts(e, special);
    FieldsOfLine(fields, "", IsSpace);
    assert Join(fields, ' ') + "" == Join(fields, ' ') && fields + Fields("", IsSpace) == fields;
    assert forall t :: t in fields ==> '\n' !in t;
    JoinLacks(fields, '\n');
    EntryIsRead(e, special);
  }

  lemma PrintInfoEnds(entries: seq<Entry>, special: set<char>)
    requires forall c :: c in special ==> c as int < 256
    ensures var text := PrintInfo(entries, special); text == "" || text[|text| - 1] == '\n'
  {
  }

  lemma OneMoreLine(text: string, line: string)
    requires '\n' !in line
    requires text == "" || text[|text| - 1] == '\n'
    ensures LinesMounts(Split(text + (line + "\n"), '\n'))
            == LinesMounts(Split(text, '\n')) + LineMount(Fields(line, IsSpace))
  {
    SplitEnds(text, line);
    var lines := Split(text, '\n');
    assert lines == lines[..|lines| - 1] + [""];
    MountsOfTwo(lines[..|lines| - 1], line);
  }

  /** The parser finds exactly the mount points of the freezable entries, in order and
      unescaped, whatever the kernel escapes as long as it covers the white space. */
  lemma {:induction false} InfoIsReadBack(entries: seq<Entry>, special: set<char>)
    requires Escapes(special) && forall e :: e in entries ==> ValidEntry(e) && Covers(special, e.mountPoint)
    ensures LinesMounts(Split(PrintInfo(entries, special), '\n')) == Freezable(entries)
  {
    if entries == [] {
      MountsOfTwo([], "");
      assert [] + [""] == [""];
    } else {
      var n := |entries| - 1;
      var text, line := PrintInfo(entries[..n], special), Join(EntryFields(entries[n], special), ' ');
      InfoIsReadBack(entries[..n], special);
      LineIsRead(entries[n], special);
      PrintInfoEnds(entries[..n], special);
      OneMoreLine(text, line);
    }
  }

  lemma {:induction false} JoinBroken(x: seq<string>, u: string, c: char, v: string, y: seq<string>)
    ensures Join(x + [u + [c] + v] + y, ' ') == Join(x + [u], ' ') + ([c] + Join([v] + y, ' '))
  {
    if x == [] {
      assert x + [u + [c] + v] + y == [u + [c] + v] + y && x + [u] == [u];
      if y == [] {
        assert [u + [c] + v] + y == [u + [c] + v] && [v] + y == [v];
        assert u + [c] + v == u + ([c] + v);
      } else {
        assert ([u + [c] + v] + y)[1..] == y && ([v] + y)[1..] == y;
        var rest := Join(y, ' ');
        assert u + [c] + v + [' '] + rest == u + ([c] + (v + [' '] + rest));
      }
    } else {
      JoinBroken(x[1..], u, c, v, y);
      assert (x + [u + [c] + v] + y)[1..] == x[1..] + [u + [c] + v] + y && (x + [u])[1..] == x[1..] + [u];
      var a, b := Join(x[1..] + [u], ' '), [c] + Join([v] + y, ' ');
      assert x[0] + [' '] + (a + b) == x[0] + [' '] + a + b;
    }
  }

  lemma {:induction false} EscapeAppend(a: string, b: string, special: set<char>)
    requires Escapes(special)
    ensures Escape(a + b, special) == Escape(a, special) + Escape(b, special)
  {
    if a == "" {
      assert a + b == b;
    } else {
      assert (a + b)[1..] == a[1..] + b;
      EscapeAppend(a[1..], b, special);
    }
  }

  /** Where a path that is not covered has its first bare white space. */
  lemma {:induction false} FirstBare(path: string, special: set<char>) returns (k: nat)
    requires !Covers(special, path)
    ensures k < |path| && IsSpace(path[k]) && path[k] !in special && Covers(special, path[..k])
  {
    if IsSpace(path[0]) && path[0] !in special {
      k := 0;
    } else {
      var c :| c in path && IsSpace(c) && c !in special;
      assert path == [path[0]] + path[1..];
      assert c in path[1..];
      var k' := FirstBare(path[1..], special);
      k := k' + 1;
      assert path[..k] == [path[0]] + path[1..][..k'];
    }
  }

  lemma EscapeAt(path: string, k: nat, special: set<char>)
    requires Escapes(special) && k < |path| && path[k] !in special
    ensures Escape(path, special) == Escape(path[..k], special) + [path[k]] + Escape(path[k + 1..], special)
  {
    var rest := [path[k]] + path[k + 1..];
    assert path == path[..k] + rest && rest[1..] == path[k + 1..];
    EscapeAppend(path[..k], rest, special);
    assert Escape(rest, special) == [path[k]] + Escape(path[k + 1..], special);
  }

  /** The fields of a line broken inside its fifth word. */
  lemma BrokenLine(before: seq<string>, u: string, c: char, v: string, y: seq<string>)
    requires |before| == 4 && IsSpace(c) && IsToken(u, IsSpace) && forall t :: t in before ==> IsToken(t, IsSpace)
    ensures var fields := Fields(Join(before + [u + [c] + v] + y, ' '), IsSpace); |fields| >= 5 && fields[4] == u
  {
    JoinBroken(before, u, c, v, y);
    FieldsOfLine(before + [u], [c] + Join([v] + y, ' '), IsSpace);
  }

  /** A path with white space that is not escaped, however much of it, is cut at the
      first: if a mount point is read at all, it is the part before. */
  lemma BareSpaceCutsPath(e: Entry, special: set<char>) returns (k: nat)
    requires Escapes(special) && ValidEntry(e) && !Covers(special, e.mountPoint)
    ensures 0 < k < |e.mountPoint| && IsSpace(e.mountPoint[k]) && e.mountPoint[k] !in special
    ensures var r := LineMount(Fields(Join(EntryFields(e, special), ' '), IsSpace)); r == [] || r == [e.mountPoint[..k]]
  {
    var path := e.mountPoint;
    k := FirstBare(path, special);
    var u, v := Escape(path[..k], special), Escape(path[k + 1..], special);
    EscapeAt(path, k, special);
    EscapeIsToken(path[..k], special);
    UnescapeEscape(path[..k], special);
    var y := e.options + ["-", e.fstype] + e.rest;
    assert EntryFields(e, special) == e.before + [u + [path[k]] + v] + y;
    assert forall t :: t in e.before ==> t in e.before + e.options + ["-", e.fstype] + e.rest;
    BrokenLine(e.before, u, path[k], v, y);
  }

  /** The mount point of a freezable entry is read back exactly when the escaping covers
      the white space of its path. */
  lemma PathIsReadIff(e: Entry, special: set<char>)
    requires Escapes(special) && ValidEntry(e) && e.fstype == "ext4"
    ensures LineMount(Fields(Join(EntryFields(e, special), ' '), IsSpace)) == [e.mountPoint]
            <==> Covers(special, e.mountPoint)
  {
    if Covers(special, e.mountPoint) {
      LineIsRead(e, special);
    } else {
      var k := BareSpaceCutsPath(e, special);
      assert |e.mountPoint[..k]| < |e.mountPoint|;
    }
  }

  /** What the kernel escapes in these paths: space, tab, newline, backslash, hash. */
  const KERNEL_ESCAPES := {' ', '\t', '\n', '\\', '#'}

  lemma KernelEscapes()
    ensures Escapes(KERNEL_ESCAPES) && '\U{A0}' !in KERNEL_ESCAPES && IsSpace('\U{A0}')
  {
  }

  /** A no-break space is white space to the parser and not to the kernel. */
  lemma NoBreakSpaceIsLost() returns (e: Entry)
    ensures Escapes(KERNEL_ESCAPES) && ValidEntry(e) && e.fstype == "ext4" && e.mountPoint == "/a\U{A0}b"
    ensures LineMount(Fields(Join(EntryFields(e, KERNEL_ESCAPES), ' '), IsSpace)) != [e.mountPoint]
  {
    KernelEscapes();
    e := OrdinaryEntry("/a\U{A0}b");
    assert e.mountPoint[2] == '\U{A0}' && e.mountPoint[2] in e.mountPoint;
    PathIsReadIff(e, KERNEL_ESCAPES);
  }

  lemma OrdinaryEntry(path: string) returns (e: Entry)
    requires path != "" && path[0] == '/'
    ensures ValidEntry(e) && e.fstype == "ext4" && e.mountPoint == path
  {
    e := Entry(["36", "35", "8:1", "/"], path, [], "ext4", []);
    assert e.before + e.options + ["-", e.fstype] + e.rest == ["36", "35", "8:1", "/", "-", "ext4"];
  }

  // ----- freezing

  /** Which filesystem a mount point leads to, if it can be opened. */
  type Mounts = string -> Option<nat>

  /** Freezing fails when refused, on a path that does not open, and on a filesystem
      that is frozen already. */
  function FreezeOne(on: Mounts, frozen: set<nat>, mp: string, refused: bool): Option<set<nat>> {
    if refused || on(mp).None? || on(mp).value in frozen then None else Some(frozen + {on(mp).value})
  }

  function ThawOne(on: Mounts, frozen: set<nat>, mp: string, refused: bool): Option<set<nat>> {
    if refused || on(mp).None? || on(mp).value !in frozen then None else Some(frozen - {on(mp).value})
  }

  /** The first n mount points frozen one after the other. */
  function FreezeFirst(on: Mounts, frozen: set<nat>, mounts: seq<string>, refused: nat -> bool,
                       n: nat): Option<set<nat>>
    requires n <= |mounts|
  {
    if n == 0 then Some(frozen)
    else
      match FreezeFirst(on, frozen, mounts, refused, n - 1)
      case None => None
      case Some(f) => FreezeOne(on, f, mounts[n - 1], refused(n - 1))
  }

  /** Thawing goes on after a failure. */
  function ThawFirst(on: Mounts, frozen: set<nat>, mounts: seq<string>, refused: nat -> bool, n: nat): set<nat>
    requires n <= |mounts|
  {
    if n == 0 then frozen
    else
      var f := ThawFirst(on, frozen, mounts, refused, n - 1);
      match ThawOne(on, f, mounts[n - 1], refused(n - 1)) case None => f case Some(f') => f'
  }

  predicate ThawsAll(on: Mounts, frozen: set<nat>, mounts: seq<string>, refused: nat -> bool, n: nat)
    requires n <= |mounts|
  {
    n == 0 || (ThawsAll(on, frozen, mounts, refused, n - 1)
               && ThawOne(on, ThawFirst(on, frozen, mounts, refused, n - 1), mounts[n - 1], refused(n - 1)).Some?)
  }

  class Filesystems {
    var frozen: set<nat>

    method Thaw(on: Mounts, paths: seq<string>, refused: nat -> bool) returns (ok: bool)
      modifies this
      ensures frozen == ThawFirst(on, old(frozen), paths, refused, |paths|)
      ensures ok == ThawsAll(on, old(frozen), paths, refused, |paths|)
    {
      ok := true;
      for i := 0 to |paths|
        invariant frozen == ThawFirst(on, old(frozen), paths, refused, i)
        invariant ok == ThawsAll(on, old(frozen), paths, refused, i)
      {
        var f := ThawOne(on, frozen, paths[i], refused(i));
        if f.None? {
          ok := false;
          continue;
        }
        frozen := f.value;
      }
    }

    /** On failure at mount k, thaws the k mounts frozen before it. */
    method FreezeWritable(on: Mounts, mounts: seq<string>, refused: nat -> bool, stuck: nat -> bool)
        returns (ok: bool, ghost k: nat)
      modifies this
      ensures k <= |mounts| && FreezeFirst(on, old(frozen), mounts, refused, k).Some?
      ensures ok ==> k == |mounts| && frozen == FreezeFirst(on, old(frozen), mounts, refused, k).value
      ensures !ok ==> k < |mounts| && FreezeFirst(on, old(frozen), mounts, refused, k + 1) == None
                      && frozen == ThawFirst(on, FreezeFirst(on, old(frozen), mounts, refused, k).value, mounts,
                                             stuck, k)
    {
      k := 0;
      for i := 0 to |mounts|
        invariant k == i && FreezeFirst(on, old(frozen), mounts, refused, i) == Some(frozen)
      {
        var f := FreezeOne(on, frozen, mounts[i], refused(i));
        if f.None? {
          var thawed := Thaw(on, mounts[..i], stuck);
          ThawPrefix(on, FreezeFirst(on, old(frozen), mounts, refused, i).value, mounts, stuck, i, i);
          return false, i;
        }
        frozen := f.value;
        k := k + 1;
      }
      ok := true;
    }
  }

  function FilesystemsOf(on: Mounts, mounts: seq<string>, n: nat): set<nat>
    requires n <= |mounts|
  {
    if n == 0 then {}
    else FilesystemsOf(on, mounts, n - 1) + if on(mounts[n - 1]).Some? then {on(mounts[n - 1]).value} else {}
  }

  /** Mount points that lead to as many filesystems, none frozen before. */
  predicate Distinct(on: Mounts, frozen: set<nat>, mounts: seq<string>, n: nat)
    requires n <= |mounts|
  {
    && (forall i :: 0 <= i < n ==> on(mounts[i]).Some? && on(mounts[i]).value !in frozen)
    && forall i, j :: 0 <= i < j < n ==> on(mounts[i]) != on(mounts[j])
  }

  lemma {:induction false} MemberOf(on: Mounts, mounts: seq<string>, n: nat, fs: nat)
    requires n <= |mounts|
    ensures fs in FilesystemsOf(on, mounts, n) <==> exists i :: 0 <= i < n && on(mounts[i]) == Some(fs)
  {
    if n > 0 {
      MemberOf(on, mounts, n - 1, fs);
      if on(mounts[n - 1]) == Some(fs) {
        assert fs in FilesystemsOf(on, mounts, n);
      }
    }
  }

  /** Freezing succeeds exactly when nothing is refused and the mount points lead to
      distinct filesystems that were not frozen; it then freezes exactly those. */
  lemma {:induction false} FreezeSucceedsIff(on: Mounts, frozen: set<nat>, mounts: seq<string>, refused: nat -> bool,
                                             n: nat)
    requires n <= |mounts|
    ensures FreezeFirst(on, frozen, mounts, refused, n).Some?
            <==> (forall i :: 0 <= i < n ==> !refused(i)) && Distinct(on, frozen, mounts, n)
    ensures FreezeFirst(on, frozen, mounts, refused, n).Some? ==>
              FreezeFirst(on, frozen, mounts, refused, n).value == frozen + FilesystemsOf(on, mounts, n)
  {
    if n > 0 {
      FreezeSucceedsIff(on, frozen, mounts, refused, n - 1);
      if on(mounts[n - 1]).Some? {
        MemberOf(on, mounts, n - 1, on(mounts[n - 1]).value);
      }
    }
  }

  /** The filesystems among the first n whose thaw is refused. */
  function Stuck(on: Mounts, mounts: seq<string>, stuck: nat -> bool, n: nat): set<nat>
    requires n <= |mounts|
  {
    if n == 0 then {}
    else
      Stuck(on, mounts, stuck, n - 1)
      + if on(mounts[n - 1]).Some? && stuck(n - 1) then {on(mounts[n - 1]).value} else {}
  }

  lemma {:induction false} ThawPrefix(on: Mounts, frozen: set<nat>, mounts: seq<string>, refused: nat -> bool, k: nat,
                                      n: nat)
    requires n <= k <= |mounts|
    ensures ThawFirst(on, frozen, mounts[..k], refused, n) == ThawFirst(on, frozen, mounts, refused, n)
  {
    if n > 0 {
      ThawPrefix(on, frozen, mounts, refused, k, n - 1);
    }
  }

  /** After thawing the first j of k frozen ones: those still to come, and those stuck. */
  lemma {:induction false} ThawedSoFar(on: Mounts, frozen: set<nat>, mounts: seq<string>, stuck: nat -> bool, k: nat,
                                       j: nat)
    requires j <= k <= |mounts| && Distinct(on, frozen, mounts, k)
    ensures ThawFirst(on, frozen + FilesystemsOf(on, mounts, k), mounts, stuck, j)
            == frozen + (FilesystemsOf(on, mounts, k) - FilesystemsOf(on, mounts, j)) + Stuck(on, mounts, stuck, j)
    ensures Stuck(on, mounts, stuck, j) <= FilesystemsOf(on, mounts, j)
  {
    if j > 0 {
      ThawedSoFar(on, frozen, mounts, stuck, k, j - 1);
      var fs := on(mounts[j - 1]).value;
      MemberOf(on, mounts, k, fs);
      MemberOf(on, mounts, j - 1, fs);
    }
  }

  /** Thawing what was frozen leaves exactly the filesystems whose thaw was refused, so
      the frozen set is as it was found exactly when no thaw was. This is what a failed
      freeze does to the ones before the failure, and a thaw after a successful one. */
  lemma RollbackIsExact(on: Mounts, frozen: set<nat>, mounts: seq<string>, refused: nat -> bool, stuck: nat -> bool,
                        k: nat)
    requires k <= |mounts| && FreezeFirst(on, frozen, mounts, refused, k).Some?
    ensures var after := ThawFirst(on, FreezeFirst(on, frozen, mounts, refused, k).value, mounts, stuck, k);
            && after == frozen + Stuck(on, mounts, stuck, k)
            && (after == frozen <==> forall i :: 0 <= i < k ==> !stuck(i))
  {
    FreezeSucceedsIff(on, frozen, mounts, refused, k);
    ThawedSoFar(on, frozen, mounts, stuck, k, k);
    forall i | 0 <= i < k
      ensures on(mounts[i]).value in Stuck(on, mounts, stuck, k) <== stuck(i)
    {
      if stuck(i) {
        StuckMember(on, mounts, stuck, k, i);
      }
    }
    if forall i :: 0 <= i < k ==> !stuck(i) {
      NothingStuck(on, mounts, stuck, k);
    }
  }

  lemma {:induction false} StuckMember(on: Mounts, mounts: seq<string>, stuck: nat -> bool, n: nat, i: nat)
    requires i < n <= |mounts| && on(mounts[i]).Some? && stuck(i)
    ensures on(mounts[i]).value in Stuck(on, mounts, stuck, n)
  {
    if i < n - 1 {
      StuckMember(on, mounts, stuck, n - 1, i);
    }
  }

  lemma {:induction false} NothingStuck(on: Mounts, mounts: seq<string>, stuck: nat -> bool, n: nat)
    requires n <= |mounts| && forall i :: 0 <= i < n ==> !stuck(i)
    ensures Stuck(on, mounts, stuck, n) == {}
  {
    if n > 0 {
      NothingStuck(on, mounts, stuck, n - 1);
    }
  }
}
