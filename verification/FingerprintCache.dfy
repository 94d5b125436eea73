/** A memo of fingerprints shared by many processes through one file that each
    replaces whole. */
module FingerprintCache {
  import opened Text
  import opened Wrappers

  type Entries = map<string, string>

  // ----- the file

  function LoadLine(line: string, m: Entries): Entries {
    match Cut(line, ' ') case None => m case Some((k, v)) => m[k := v]
  }

  /** Lines read in order over what is already known. */
  function LoadLines(lines: seq<string>, m: Entries): Entries {
    if lines == [] then m else LoadLine(lines[|lines| - 1], LoadLines(lines[..|lines| - 1], m))
  }

  function Load(text: string, m: Entries): Entries { LoadLines(Split(text, '\n'), m) }

  /** The text for the entries of e whose keys are listed, one line each. */
  function Printed(e: Entries, keys: seq<string>): string
    requires forall k :: k in keys ==> k in e
  {
    if keys == [] then ""
    else
      assert keys[|keys| - 1] in keys;
      Printed(e, keys[..|keys| - 1]) + (keys[|keys| - 1] + " " + e[keys[|keys| - 1]] + "\n")
  }

  /** Keys that one word holds, values that one line holds. */
  predicate Printable(e: Entries) {
    forall k :: k in e ==> ' ' !in k && '\n' !in k && '\n' !in e[k]
  }

  lemma {:induction false} LoadLinesAppend(a: seq<string>, b: seq<string>, m: Entries)
    ensures LoadLines(a + b, m) == LoadLines(b, LoadLines(a, m))
    decreases |b|
  {
    if b == [] {
      assert a + b == a;
    } else {
      assert (a + b)[..|a + b| - 1] == a + b[..|b| - 1];
      LoadLinesAppend(a, b[..|b| - 1], m);
    }
  }

  lemma PrintedEnds(e: Entries, keys: seq<string>)
    requires forall k :: k in keys ==> k in e
    ensures var text := Printed(e, keys); text == "" || text[|text| - 1] == '\n'
  {
  }

  lemma LastLineIsEmpty(text: string, m: Entries)
    requires text == "" || text[|text| - 1] == '\n'
    ensures var lines := Split(text, '\n');
            LoadLines(lines, m) == LoadLines(lines[..|lines| - 1], m)
  {
    SplitEnds(text, "");
    var lines := Split(text, '\n');
    assert lines[|lines| - 1] == "";
    assert Cut("", ' ') == None;
  }

  lemma LoadTwo(line: string, m: Entries)
    ensures LoadLines([line, ""], m) == LoadLine(line, m)
  {
    assert [line, ""][..1] == [line] && [line][..0] == [];
    assert LoadLines([line], m) == LoadLine(line, LoadLines([], m));
    assert Cut("", ' ') == None;
  }

  lemma LoadOneMore(text: string, line: string, m: Entries)
    requires text == "" || text[|text| - 1] == '\n'
    requires '\n' !in line
    ensures Load(text + (line + "\n"), m) == LoadLine(line, Load(text, m))
  {
    SplitEnds(text, line);
    LastLineIsEmpty(text, m);
    var head := Split(text, '\n')[..|Split(text, '\n')| - 1];
    LoadLinesAppend(head, [line, ""], m);
    LoadTwo(line, LoadLines(head, m));
  }

  function Restrict(e: Entries, keys: seq<string>): Entries { map k | k in keys && k in e :: e[k] }

  /** Reading the printed lines puts exactly the listed entries over what was known,
      in whatever order they were printed. */
  lemma {:induction false} LoadPrinted(e: Entries, keys: seq<string>, m: Entries)
    requires Printable(e) && forall k :: k in keys ==> k in e
    ensures Load(Printed(e, keys), m) == m + Restrict(e, keys)
  {
    if keys == [] {
      LoadNothing(m);
      assert m + Restrict(e, keys) == m;
    } else {
      var n := |keys| - 1;
      var k := keys[n];
      assert k in keys;
      LoadPrinted(e, keys[..n], m);
      PrintedEnds(e, keys[..n]);
      LoadOneMore(Printed(e, keys[..n]), k + " " + e[k], m);
      CutOf(k, e[k], ' ');
      RestrictMore(e, keys, m);
    }
  }

  lemma RestrictMore(e: Entries, keys: seq<string>, m: Entries)
    requires keys != [] && keys[|keys| - 1] in e
    ensures var n, k := |keys| - 1, keys[|keys| - 1]; (m + Restrict(e, keys[..n]))[k := e[k]] == m + Restrict(e, keys)
  {
    var n := |keys| - 1;
    assert keys == keys[..n] + [keys[n]];
  }

  lemma LoadNothing(m: Entries)
    ensures Load("", m) == m
  {
    assert [""][..0] == [];
    assert LoadLines([""], m) == LoadLine("", LoadLines([], m));
    assert Cut("", ' ') == None;
  }

  /** The keys of a map in some order. */
  predicate Lists(keys: seq<string>, e: Entries) {
    (forall k :: k in keys ==> k in e) && forall k :: k in e ==> k in keys
  }

  lemma RoundTrip(e: Entries, keys: seq<string>, m: Entries)
    requires Printable(e) && Lists(keys, e)
    ensures Load(Printed(e, keys), m) == m + e
    ensures Load(Printed(e, keys), map[]) == e
  {
    LoadPrinted(e, keys, m);
    LoadPrinted(e, keys, map[]);
    assert Restrict(e, keys) == e;
    assert map[] + e == e;
  }

  // ----- one process

  /** The source's object. The file is what reading it gives, if it can be read. */
  class Cache {
    var entries: Entries

    constructor ()
      ensures entries == map[]
    {
      entries := map[];
    }

    method Lookup(key: string, file: Option<string>) returns (r: Option<string>)
      modifies this
      ensures entries == if key in old(entries) || file.None? then old(entries) else Load(file.value, old(entries))
      ensures r == if key in entries then Some(entries[key]) else None
    {
      if key in entries {
        return Some(entries[key]);
      }
      if file == None {
        return None;
      }
      var lines := Split(file.value, '\n');
      for i := 0 to |lines|
        invariant entries == LoadLines(lines[..i], old(entries))
      {
        assert lines[..i + 1][..i] == lines[..i];
        var kv := Cut(lines[i], ' ');
        if kv.Some? {
          entries := entries[kv.value.0 := kv.value.1];
        }
      }
      assert lines[..|lines|] == lines;
      r := if key in entries then Some(entries[key]) else None;
    }

    /** What store puts into the file: the entries in the map's own order. */
    method Remember(key: string, fp: string) returns (text: string, ghost keys: seq<string>)
      modifies this
      ensures entries == old(entries)[key := fp]
      ensures Lists(keys, entries) && text == Printed(entries, keys)
    {
      entries := entries[key := fp];
      text, keys := "", [];
      var rest := entries.Keys;
      while rest != {}
        invariant rest <= entries.Keys && (forall k :: k in keys ==> k in entries)
        invariant forall k :: k in entries ==> k in keys || k in rest
        invariant text == Printed(entries, keys)
      {
        var k: string :| k in rest;
        assert (keys + [k])[..|keys|] == keys;
        text, keys, rest := text + (k + " " + entries[k] + "\n"), keys + [k], rest - {k};
      }
    }
  }

  // ----- many processes, one file

  /** The fingerprint of the files a stat key stands for, or the failure to hash them. */
  type Fingerprints = string -> Result<string>

  /** Stat keys are single words and fingerprints single lines. */
  ghost predicate Regular(f: Fingerprints) {
    forall k :: f(k).Ok? ==> ' ' !in k && '\n' !in k && '\n' !in f(k).value
  }

  datatype Pc = Look | Hash | Keep(fp: string) | Write(text: string) | Done(r: Result<string>)

  /** A call: its process, its stat key if the files could be stat'ed, and what
      hashing the files gives while it runs. */
  datatype Call = Call(process: nat, key: Option<string>, hash: Result<string>, pc: Pc)

  datatype State = State(file: Option<string>, memory: map<nat, Entries>, calls: map<nat, Call>)

  /** A process starts, a call starts, the file is deleted by hand; a call looks up
      (reading may fail), hashes, stores in memory and prints in some order, and
      replaces the file (which may fail). */
  datatype Step = Boot(p: nat) | Begin(t: nat, p: nat, key: Option<string>, hash: Result<string>) | Delete
                | LookUp(t: nat, readable: bool) | HashFiles(t: nat)
                | Remember(t: nat, keys: seq<string>) | Replace(t: nat, ok: bool)

  predicate Enabled(f: Fingerprints, s: State, st: Step) {
    match st
    case Boot(p) => p !in s.memory
    case Begin(t, p, key, hash) => t !in s.calls && p in s.memory && (key.Some? ==> hash == f(key.value))
    case Delete => true
    case LookUp(t, _) => t in s.calls && s.calls[t].pc.Look? && s.calls[t].key.Some? && s.calls[t].process in s.memory
    case HashFiles(t) => t in s.calls && s.calls[t].pc.Hash?
    case Remember(t, keys) =>
      && t in s.calls && s.calls[t].pc.Keep? && s.calls[t].key.Some? && s.calls[t].process in s.memory
      && Lists(keys, s.memory[s.calls[t].process][s.calls[t].key.value := s.calls[t].pc.fp])
    case Replace(t, _) => t in s.calls && s.calls[t].pc.Write?
  }

  function Goto(s: State, t: nat, pc: Pc): map<nat, Call>
    requires t in s.calls
  {
    s.calls[t := s.calls[t].(pc := pc)]
  }

  function Apply(f: Fingerprints, s: State, st: Step): State
    requires Enabled(f, s, st)
  {
    match st
    case Boot(p) => s.(memory := s.memory[p := map[]])
    case Begin(t, p, key, hash) => s.(calls := s.calls[t := Call(p, key, hash, if key.Some? then Look else Hash)])
    case Delete => s.(file := None)
    case LookUp(t, readable) =>
      var p, key := s.calls[t].process, s.calls[t].key.value;
      var m := s.memory[p];
      var m' := if key in m || !readable || s.file.None? then m else Load(s.file.value, m);
      s.(memory := s.memory[p := m'], calls := Goto(s, t, if key in m' then Done(Ok(m'[key])) else Hash))
    case HashFiles(t) =>
      var c := s.calls[t];
      s.(calls := Goto(s, t, if c.hash.Ok? && c.key.Some? then Keep(c.hash.value) else Done(c.hash)))
    case Remember(t, keys) =>
      var c := s.calls[t];
      var m := s.memory[c.process][c.key.value := c.pc.fp];
      s.(memory := s.memory[c.process := m], calls := Goto(s, t, Write(Printed(m, keys))))
    case Replace(t, ok) =>
      s.(file := if ok then Some(s.calls[t].pc.text) else s.file, calls := Goto(s, t, Done(s.calls[t].hash)))
  }

  const INITIAL := State(None, map[], map[])

  ghost predicate Execution(f: Fingerprints, trace: seq<State>, steps: seq<Step>) {
    && |trace| == |steps| + 1 && trace[0] == INITIAL
    && forall i :: 0 <= i < |steps| ==> Enabled(f, trace[i], steps[i]) && trace[i + 1] == Apply(f, trace[i], steps[i])
  }

  /** Entries that say what hashing would say. */
  ghost predicate Truthful(f: Fingerprints, m: Entries) { forall k :: k in m ==> f(k) == Ok(m[k]) }

  /** A file some process printed from such entries. */
  ghost predicate TruthfulText(f: Fingerprints, text: string) {
    exists e, keys :: Lists(keys, e) && Truthful(f, e) && text == Printed(e, keys)
  }

  ghost predicate CallOk(f: Fingerprints, c: Call) {
    && (c.key.Some? ==> c.hash == f(c.key.value))
    && match c.pc
       case Look => c.key.Some?
       case Hash => true
       case Keep(fp) => c.key.Some? && c.hash == Ok(fp)
       case Write(text) => c.key.Some? && c.hash.Ok? && TruthfulText(f, text)
       case Done(r) => r == c.hash
  }

  ghost predicate Inv(f: Fingerprints, s: State) {
    && (s.file.Some? ==> TruthfulText(f, s.file.value))
    && (forall p :: p in s.memory ==> Truthful(f, s.memory[p]))
    && (forall t :: t in s.calls ==> CallOk(f, s.calls[t]))
  }

  lemma LoadStaysTruthful(f: Fingerprints, text: string, m: Entries)
    requires Regular(f) && Truthful(f, m) && TruthfulText(f, text)
    ensures Truthful(f, Load(text, m))
  {
    var e, keys :| Lists(keys, e) && Truthful(f, e) && text == Printed(e, keys);
    assert Printable(e) by {
      assert forall k :: k in e ==> f(k).Ok?;
    }
    RoundTrip(e, keys, m);
  }

  lemma LookUpStep(f: Fingerprints, s: State, t: nat, readable: bool)
    requires Regular(f) && Inv(f, s) && Enabled(f, s, LookUp(t, readable))
    ensures Inv(f, Apply(f, s, LookUp(t, readable)))
  {
    assert CallOk(f, s.calls[t]);
    var m := s.memory[s.calls[t].process];
    assert Truthful(f, m);
    if s.file.Some? {
      LoadStaysTruthful(f, s.file.value, m);
    }
  }

  lemma RememberStep(f: Fingerprints, s: State, t: nat, keys: seq<string>)
    requires Inv(f, s) && Enabled(f, s, Remember(t, keys))
    ensures Inv(f, Apply(f, s, Remember(t, keys)))
  {
    var c := s.calls[t];
    assert CallOk(f, c);
    var m := s.memory[c.process][c.key.value := c.pc.fp];
    assert Truthful(f, m);
    assert TruthfulText(f, Printed(m, keys));
  }

  lemma InvStep(f: Fingerprints, s: State, st: Step)
    requires Regular(f) && Inv(f, s) && Enabled(f, s, st)
    ensures Inv(f, Apply(f, s, st))
  {
    match st
    case LookUp(t, readable) => LookUpStep(f, s, t, readable);
    case Remember(t, keys) => RememberStep(f, s, t, keys);
    case HashFiles(t) => assert CallOk(f, s.calls[t]);
    case Replace(t, _) => assert CallOk(f, s.calls[t]);
    case _ =>
  }

  lemma {:induction false} RunInv(f: Fingerprints, trace: seq<State>, steps: seq<Step>, i: nat)
    requires Regular(f) && Execution(f, trace, steps) && i < |trace|
    ensures Inv(f, trace[i])
  {
    if i > 0 {
      RunInv(f, trace, steps, i - 1);
      InvStep(f, trace[i - 1], steps[i - 1]);
    }
  }

  /** However processes race, and whatever entries they lose, a call returns exactly
      what hashing the files would have returned, error or fingerprint. */
  lemma CacheAgreesWithHash(f: Fingerprints, trace: seq<State>, steps: seq<Step>, i: nat, t: nat)
    requires Regular(f) && Execution(f, trace, steps) && i < |trace|
    requires t in trace[i].calls && trace[i].calls[t].pc.Done?
    ensures trace[i].calls[t].pc.r == trace[i].calls[t].hash
  {
    RunInv(f, trace, steps, i);
    assert CallOk(f, trace[i].calls[t]);
  }
}
