/** The guest's half of the rootfs: templates are expanded against the mounts made
    so far, directories created, serials resolved to devices, and everything is
    mounted in order. A failure undoes the mounts made. */
module GuestMounts {
  import opened Text
  import opened Wrappers
  import opened Template
  import Decimal
  import HostMounts

  // ----- directories requested through mount options

  datatype MkdirSpec = MkdirSpec(path: string, mode: nat, uid: int, gid: int)

  const MKDIR_FAMILY := "X-containerd.mkdir."

  /** At most n parts; the last keeps its separators. */
  function SplitN(s: string, sep: char, n: nat): (parts: seq<string>)
    requires n > 0
    ensures 1 <= |parts| <= n
    decreases n
  {
    var first := Split(s, sep)[0];
    if n == 1 || sep !in s then [s]
    else
      FirstPart(s, sep);
      [first] + SplitN(s[|first| + 1..], sep, n - 1)
  }

  lemma {:induction false} FirstPart(s: string, sep: char)
    requires sep in s
    ensures var p := Split(s, sep)[0]; |p| < |s| && s[|p|] == sep && s[..|p|] == p && sep !in p
  {
    if s[0] != sep {
      assert s == [s[0]] + s[1..];
      FirstPart(s[1..], sep);
      assert s[..|Split(s, sep)[0]|] == [s[0]] + s[1..][..|Split(s[1..], sep)[0]|];
    }
  }

  /** The parts join back to the string, only the last may hold separators, and it does
      only when all n parts are used. */
  lemma {:induction false} SplitNIsExact(s: string, sep: char, n: nat)
    requires n > 0
    ensures var parts := SplitN(s, sep, n);
            && Join(parts, sep) == s
            && (forall i :: 0 <= i < |parts| - 1 ==> sep !in parts[i])
            && (|parts| < n ==> sep !in parts[|parts| - 1])
    decreases n
  {
    if n > 1 && sep in s {
      FirstPart(s, sep);
      var first := Split(s, sep)[0];
      var rest := s[|first| + 1..];
      SplitNIsExact(rest, sep, n - 1);
      var parts := SplitN(s, sep, n);
      assert parts[1..] == SplitN(rest, sep, n - 1);
      assert s == first + [sep] + rest;
    }
  }

  predicate IsOctal(s: string) { forall i :: 0 <= i < |s| ==> '0' <= s[i] <= '7' }

  function OctalValue(s: string): nat
    requires IsOctal(s)
  {
    if s == "" then 0
    else assert '0' <= s[|s| - 1] <= '7'; 8 * OctalValue(s[..|s| - 1]) + (s[|s| - 1] as int - '0' as int)
  }

  /** ParseUint in base 8, 32 bits. */
  function ParseMode(s: string): Option<nat> {
    if s == "" || !IsOctal(s) || OctalValue(s) >= 0x1_0000_0000 then None else Some(OctalValue(s))
  }

  /** X-containerd.mkdir.path=path[:mode[:uid[:gid]]], the path under the base. */
  function ParseMkdir(opt: string, base: string): Result<MkdirSpec> {
    match CutPrefix(opt, HostMounts.MKDIR)
    case None => Fail
    case Some(spec) =>
      var parts := SplitN(spec, ':', 4);
      var gid := if |parts| == 4 then Decimal.Atoi(parts[3]) else Some(-1);
      var uid := if |parts| >= 3 then Decimal.Atoi(parts[2]) else Some(-1);
      var mode := if |parts| >= 2 then ParseMode(parts[1]) else Some(0x1ED);  // 0755
      if gid.Some? && uid.Some? && mode.Some? && HasPrefix(parts[0], base)
      then Ok(MkdirSpec(parts[0], mode.value, uid.value, gid.value))
      else Fail
  }

  datatype Processed = Processed(remaining: seq<string>, specs: seq<MkdirSpec>)

  /** What an option adds to the options kept and to the directories to make. */
  function ProcessOption(so: Result<Processed>, opt: string, base: string): Result<Processed> {
    match so
    case Fail => Fail
    case Ok(p) =>
      if !HasPrefix(opt, MKDIR_FAMILY) then Ok(p.(remaining := p.remaining + [opt]))
      else match ParseMkdir(opt, base)
           case Fail => Fail
           case Ok(spec) => Ok(p.(specs := p.specs + [spec]))
  }

  function ProcessOptions(options: seq<string>, base: string): Result<Processed> {
    if options == [] then Ok(Processed([], []))
    else ProcessOption(ProcessOptions(options[..|options| - 1], base), options[|options| - 1], base)
  }

  predicate Requests(opt: string, base: string, spec: MkdirSpec) {
    HasPrefix(opt, MKDIR_FAMILY) && ParseMkdir(opt, base) == Ok(spec)
  }

  lemma {:induction false} KeepsPlain(plain: seq<string>, base: string)
    requires forall o :: o in plain ==> !HasPrefix(o, MKDIR_FAMILY)
    ensures ProcessOptions(plain, base) == Ok(Processed(plain, []))
  {
    if plain != [] {
      KeepsPlain(plain[..|plain| - 1], base);
      assert plain[..|plain| - 1] + [plain[|plain| - 1]] == plain;
    }
  }

  /** Plain options are kept in order; the directory options after them are made. */
  lemma {:induction false} ProcessPlainThenDirs(plain: seq<string>, dirs: seq<string>, specs: seq<MkdirSpec>,
                                                base: string)
    requires forall o :: o in plain ==> !HasPrefix(o, MKDIR_FAMILY)
    requires |dirs| == |specs|
    requires forall i :: 0 <= i < |dirs| ==> Requests(dirs[i], base, specs[i])
    ensures ProcessOptions(plain + dirs, base) == Ok(Processed(plain, specs))
  {
    if dirs == [] {
      KeepsPlain(plain, base);
      assert plain + dirs == plain;
    } else {
      var n := |dirs| - 1;
      ProcessPlainThenDirs(plain, dirs[..n], specs[..n], base);
      assert (plain + dirs)[..|plain + dirs| - 1] == plain + dirs[..n];
      assert specs[..n] + [specs[n]] == specs;
    }
  }

  lemma {:induction false} ProcessFailureStays(options: seq<string>, n: nat, base: string)
    requires n <= |options| && ProcessOptions(options[..n], base) == Fail
    ensures ProcessOptions(options, base) == Fail
  {
    if n == |options| {
      assert options[..n] == options;
    } else {
      assert options[..|options| - 1][..n] == options[..n];
      ProcessFailureStays(options[..|options| - 1], n, base);
    }
  }

  method ProcessMkdirOptions(options: seq<string>, base: string) returns (r: Result<Processed>)
    ensures r == ProcessOptions(options, base)
  {
    var so: Result<Processed> := Ok(Processed([], []));
    for i := 0 to |options|
      invariant so.Ok? && so == ProcessOptions(options[..i], base)
    {
      assert options[..i + 1][..i] == options[..i];
      so := ProcessOption(so, options[i], base);
      if so == Fail {
        ProcessFailureStays(options, i + 1, base);
        return Fail;
      }
    }
    assert options[..|options|] == options;
    r := so;
  }

  // ----- serials

  /** An entry of the sysfs block directory and its serial attribute, if readable. */
  datatype Device = Device(name: string, serial: Option<string>)

  predicate Matches(d: Device, serial: string) { d.serial.Some? && TrimSpace(d.serial.value) == serial }

  /** The first device of a listing with the serial. */
  function FindDevice(devices: seq<Device>, serial: string): Option<string> {
    if devices == [] then None
    else if Matches(devices[0], serial) then Some("/dev/" + devices[0].name)
    else FindDevice(devices[1..], serial)
  }

  /** The device is found in the first of the successive listings that shows it. */
  function FindInListings(listings: seq<seq<Device>>, serial: string): Option<string> {
    if listings == [] then None
    else if FindDevice(listings[0], serial).Some? then FindDevice(listings[0], serial)
    else FindInListings(listings[1..], serial)
  }

  method FindBlockDeviceBySerial(devices: seq<Device>, serial: string) returns (r: Option<string>)
    ensures r == FindDevice(devices, serial)
  {
    for i := 0 to |devices|
      invariant FindDevice(devices, serial) == FindDevice(devices[i..], serial)
    {
      if Matches(devices[i], serial) {
        return Some("/dev/" + devices[i].name);
      }
      assert devices[i..][1..] == devices[i + 1..];
    }
    r := None;
  }

  /** The listings are those read until the deadline passes or the context ends. */
  method ResolveBlockSerialSource(source: string, listings: seq<seq<Device>>) returns (r: Result<string>)
    ensures r == Resolve(source, listings)
  {
    var cut := CutPrefix(source, HostMounts.SERIAL_SCHEME);
    if cut == None {
      return Ok(source);
    }
    for i := 0 to |listings|
      invariant FindInListings(listings, cut.value) == FindInListings(listings[i..], cut.value)
    {
      var dev := FindBlockDeviceBySerial(listings[i], cut.value);
      assert listings[i..][0] == listings[i] && listings[i..][1..] == listings[i + 1..];
      if dev.Some? {
        return Ok(dev.value);
      }
    }
    r := Fail;
  }

  function Resolve(source: string, listings: seq<seq<Device>>): Result<string> {
    match CutPrefix(source, HostMounts.SERIAL_SCHEME)
    case None => Ok(source)
    case Some(serial) => match FindInListings(listings, serial) case None => Fail case Some(dev) => Ok(dev)
  }

  // ----- mounting

  /** No empty, "." or ".." component, so that joining a name to the path changes nothing
      in it. */
  predicate CleanPath(p: string) {
    p == "/" || forall i :: 0 <= i < |Split(p, '/')| ==>
                  var part := Split(p, '/')[i]; (part == "" ==> i == 0) && part != "." && part != ".."
  }

  /** Joining a name to a clean directory path. */
  function JoinPath(dir: string, name: string): string {
    if dir == "" then name else if dir[|dir| - 1] == '/' then dir + name else dir + "/" + name
  }

  function MountPoint(rootfs: string, mdir: string, i: nat, count: nat): string {
    if i + 1 < count then JoinPath(mdir, Decimal.Print(i)) else rootfs
  }

  /** A partial function applied to every element, all or nothing. */
  function MapAll(xs: seq<string>, f: string -> Result<string>): Result<seq<string>> {
    if xs == [] then Ok([])
    else
      match f(xs[0])
      case Fail => Fail
      case Ok(y) => match MapAll(xs[1..], f) case Fail => Fail case Ok(ys) => Ok([y] + ys)
  }

  lemma {:induction false} MapAllIs(xs: seq<string>, f: string -> Result<string>, ys: seq<string>)
    requires |xs| == |ys| && forall i :: 0 <= i < |xs| ==> f(xs[i]) == Ok(ys[i])
    ensures MapAll(xs, f) == Ok(ys)
  {
    if xs != [] {
      MapAllIs(xs[1..], f, ys[1..]);
      assert [ys[0]] + ys[1..] == ys;
    }
  }

  function FormatOptions(options: seq<string>, active: seq<Active>): Result<seq<string>> {
    MapAll(options, (o: string) => FormatString(o, active))
  }

  /** The template prefix of a mount type: options, source and target expanded. */
  function Formatted(m: HostMounts.Mount, active: seq<Active>): Result<HostMounts.Mount> {
    match CutPrefix(m.kind, "format/")
    case None => Ok(m)
    case Some(kind) =>
      match (FormatOptions(m.options, active), FormatString(m.source, active), FormatString(m.target, active))
      case (Ok(options), Ok(source), Ok(target)) => Ok(HostMounts.Mount(kind, source, target, options))
      case (_, _, _) => Fail
  }

  datatype Prepared = Prepared(mount: HostMounts.Mount, specs: seq<MkdirSpec>)

  /** The directory prefix of a mount type: directory options taken out. */
  function WithDirectories(m: HostMounts.Mount, mdir: string): Result<Prepared> {
    match CutPrefix(m.kind, "mkdir/")
    case None => Ok(Prepared(m, []))
    case Some(kind) =>
      match ProcessOptions(m.options, mdir)
      case Fail => Fail
      case Ok(p) => Ok(Prepared(m.(kind := kind, options := p.remaining), p.specs))
  }

  datatype Step = Step(active: Active, specs: seq<MkdirSpec>)

  /** What one mount comes to: nothing, if its templates or directory options are bad;
      directories to make, if its device is not found; or a mount after them. */
  datatype Plan = Refused | Unresolved(dirs: seq<MkdirSpec>) | Ready(step: Step)

  /** Everything that decides one mount: which directories are made first, and what is
      then mounted where. */
  function PlanMount(m: HostMounts.Mount, point: string, mdir: string, active: seq<Active>,
                     listings: seq<seq<Device>>): Plan {
    match Formatted(m, active)
    case Fail => Refused
    case Ok(f) =>
      match WithDirectories(f, mdir)
      case Fail => Refused
      case Ok(p) =>
        match Resolve(p.mount.source, listings)
        case Fail => Unresolved(p.specs)
        case Ok(source) => Ready(Step(Active(p.mount.kind, source, p.mount.target, p.mount.options, point), p.specs))
  }

  function StepOf(plan: Plan): Result<Step> { if plan.Ready? then Ok(plan.step) else Fail }

  /** The directories made for it, mounted or not. */
  function DirsOf(plan: Plan): seq<MkdirSpec> {
    match plan
    case Refused => []
    case Unresolved(dirs) => dirs
    case Ready(step) => step.specs
  }

  function Expand(m: HostMounts.Mount, point: string, mdir: string, active: seq<Active>,
                  listings: seq<seq<Device>>): Result<Step> {
    StepOf(PlanMount(m, point, mdir, active, listings))
  }

  datatype Expansion = Expansion(active: seq<Active>, specs: seq<MkdirSpec>)

  /** How mount i is planned, given the mounts made before it. */
  type Planner = (nat, seq<Active>) -> Plan

  function PlansForGuest(rootfs: string, mdir: string, mounts: seq<HostMounts.Mount>,
                         listings: seq<seq<Device>>): Planner {
    (i: nat, active: seq<Active>) =>
      if i < |mounts| then PlanMount(mounts[i], MountPoint(rootfs, mdir, i, |mounts|), mdir, active, listings)
      else Refused
  }

  /** How it expands, if it does. */
  type Expander = (nat, seq<Active>) -> Result<Step>

  function Steps(plan: Planner): Expander { (i: nat, active: seq<Active>) => StepOf(plan(i, active)) }

  function ForGuest(rootfs: string, mdir: string, mounts: seq<HostMounts.Mount>, listings: seq<seq<Device>>): Expander {
    Steps(PlansForGuest(rootfs, mdir, mounts, listings))
  }

  /** The first n mounts, each expanded against those before it. */
  function ExpandAll(expand: Expander, n: nat): Result<Expansion> {
    if n == 0 then Ok(Expansion([], []))
    else
      match ExpandAll(expand, n - 1)
      case Fail => Fail
      case Ok(done) =>
        match expand(n - 1, done.active)
        case Fail => Fail
        case Ok(step) => Ok(Expansion(done.active + [step.active], done.specs + step.specs))
  }

  lemma {:induction false} ExpandFailureStays(expand: Expander, n: nat, k: nat)
    requires n <= k && ExpandAll(expand, n) == Fail
    ensures ExpandAll(expand, k) == Fail
    decreases k - n
  {
    if n < k {
      ExpandFailureStays(expand, n, k - 1);
    }
  }

  /** The mount table: what is mounted, in the order it was mounted. */
  class Kernel {
    var table: seq<Active>
    var made: seq<MkdirSpec>

    method Mount(a: Active) returns (ok: bool)
      modifies this
      ensures table == if ok then old(table) + [a] else old(table)
      ensures made == old(made)
    {
      ok := *;
      if ok {
        table := table + [a];
      }
    }

    method Mkdir(specs: seq<MkdirSpec>) returns (ok: bool)
      modifies `made
      ensures ok ==> made == old(made) + specs
      ensures old(made) <= made
    {
      ok := *;
      if ok {
        made := made + specs;
      }
    }

    method MkdirAll(path: string) returns (ok: bool)
    {
      ok := *;
    }

    /** Takes down everything mounted at the point. A failure may have taken down some of
        it; nothing elsewhere is touched. */
    method UnmountAll(point: string) returns (ok: bool)
      modifies `table
      ensures Elsewhere(table, {point}) == Elsewhere(old(table), {point})
      ensures ok ==> table == Elsewhere(old(table), {point})
    {
      ok := *;
      var some: bool := *;
      if ok || some {
        ElsewhereTwice(table, {point}, {point});
        assert {point} + {point} == {point};
        table := Elsewhere(table, {point});
      }
    }
  }

  function Elsewhere(table: seq<Active>, points: set<string>): seq<Active> {
    if table == [] then []
    else Elsewhere(table[..|table| - 1], points)
         + if table[|table| - 1].mountPoint in points then [] else [table[|table| - 1]]
  }

  /** The points cleanup takes down: entries that only made directories are skipped. */
  function Points(active: seq<Active>): set<string> {
    set i | 0 <= i < |active| && active[i].kind != "mkdir" :: active[i].mountPoint
  }

  lemma {:induction false} ElsewhereTwice(table: seq<Active>, a: set<string>, b: set<string>)
    ensures Elsewhere(Elsewhere(table, a), b) == Elsewhere(table, a + b)
  {
    if table != [] {
      var front, last := table[..|table| - 1], table[|table| - 1];
      ElsewhereTwice(front, a, b);
      var kept := Elsewhere(front, a);
      if last.mountPoint !in a {
        assert (kept + [last])[..|kept|] == kept;
      } else {
        assert kept + [] == kept;
      }
    }
  }

  lemma ElsewhereWider(t: seq<Active>, u: seq<Active>, a: set<string>, b: set<string>)
    requires Elsewhere(t, a) == Elsewhere(u, a)
    ensures Elsewhere(t, a + b) == Elsewhere(u, a + b)
  {
    ElsewhereTwice(t, a, b);
    ElsewhereTwice(u, a, b);
  }

  /** Unmounts in reverse order; a failure is remembered and does not stop it. Whatever
      fails, nothing but the points is touched; when every unmount succeeds, nothing is
      left at any of them. */
  method CleanupMounts(kernel: Kernel, active: seq<Active>) returns (ok: bool)
    modifies kernel`table
    ensures Elsewhere(kernel.table, Points(active)) == Elsewhere(old(kernel.table), Points(active))
    ensures ok ==> kernel.table == Elsewhere(old(kernel.table), Points(active))
  {
    ok := true;
    var i := |active|;
    ElsewhereNothing(kernel.table);
    while i > 0
      invariant 0 <= i <= |active|
      invariant Elsewhere(kernel.table, Points(active[i..])) == Elsewhere(old(kernel.table), Points(active[i..]))
      invariant ok ==> kernel.table == Elsewhere(old(kernel.table), Points(active[i..]))
    {
      i := i - 1;
      assert active[i..] == [active[i]] + active[i + 1..];
      PointsCons(active[i], active[i + 1..]);
      if active[i].kind == "mkdir" {
        assert Points(active[i..]) == Points(active[i + 1..]);
        continue;
      }
      ghost var before := kernel.table;
      var done := kernel.UnmountAll(active[i].mountPoint);
      UnmountKeepsElsewhere(old(kernel.table), before, kernel.table, Points(active[i + 1..]), active[i].mountPoint);
      if !done {
        ok := false;
      } else if ok {
        ElsewhereTwice(old(kernel.table), Points(active[i + 1..]), {active[i].mountPoint});
      }
    }
    assert active[0..] == active;
  }

  lemma UnmountKeepsElsewhere(first: seq<Active>, before: seq<Active>, after: seq<Active>, points: set<string>,
                              point: string)
    requires Elsewhere(before, points) == Elsewhere(first, points)
    requires Elsewhere(after, {point}) == Elsewhere(before, {point})
    ensures Elsewhere(after, points + {point}) == Elsewhere(first, points + {point})
  {
    ElsewhereWider(before, first, points, {point});
    ElsewhereWider(after, before, {point}, points);
    assert {point} + points == points + {point};
  }

  lemma PointsCons(a: Active, rest: seq<Active>)
    ensures Points([a] + rest) == Points(rest) + if a.kind == "mkdir" then {} else {a.mountPoint}
  {
    var all := [a] + rest;
    assert all[0] == a;
    assert forall i :: 0 <= i < |rest| ==> rest[i] == all[i + 1];
    assert forall i :: 1 <= i < |all| ==> all[i] == rest[i - 1];
  }

  lemma {:induction false} ElsewhereNothing(table: seq<Active>)
    ensures Elsewhere(table, {}) == table && Points([]) == {}
  {
    if table != [] {
      ElsewhereNothing(table[..|table| - 1]);
      assert table[..|table| - 1] + [table[|table| - 1]] == table;
    }
  }

  /** What is left after a failure at mount n: outside the points used the old table, and
      nothing at them if the unmounts all succeeded. Directories stay: if only the plan
      failed, those of mount n too. */
  ghost predicate Undone(before: seq<Active>, after: seq<Active>, dirs: seq<MkdirSpec>, dirs': seq<MkdirSpec>,
                         plan: Planner, n: nat, kernelFailed: bool, cleaned: bool) {
    match ExpandAll(Steps(plan), n)
    case Fail => false
    case Ok(done) =>
      var points := Points(done.active);
      && Elsewhere(after, points) == Elsewhere(before + done.active, points)
      && (cleaned ==> after == Elsewhere(before + done.active, points))
      && dirs + done.specs <= dirs'
      && (!kernelFailed ==> dirs' == dirs + done.specs + DirsOf(plan(n, done.active)))
  }

  /** The kernel's part in one mount: its directory, the directories it asks for, the
      mount itself. */
  method MountOne(kernel: Kernel, makeTarget: bool, point: string, plan: Plan) returns (ok: bool)
    modifies kernel
    ensures kernel.table == if ok && plan.Ready? then old(kernel.table) + [plan.step.active] else old(kernel.table)
    ensures old(kernel.made) <= kernel.made && (ok ==> kernel.made == old(kernel.made) + DirsOf(plan))
  {
    ok := true;
    if makeTarget {
      ok := kernel.MkdirAll(point);
    }
    if ok && plan != Refused {
      ok := kernel.Mkdir(DirsOf(plan));
      if ok && plan.Ready? {
        ok := kernel.Mount(plan.step.active);
      }
    }
  }

  /** Mounts everything in order. It fails when a plan does or a call to the kernel does;
      then nothing outside the points it had used has changed, and if the unmounts succeed
      nothing is left mounted at them. */
  method MountAll(kernel: Kernel, points: seq<string>, plan: Planner)
      returns (r: Result<seq<Active>>, kernelFailed: bool, cleaned: bool)
    modifies kernel
    ensures var spec := ExpandAll(Steps(plan), |points|);
            && (r.Ok? <==> spec.Ok? && !kernelFailed)
            && (r.Ok? ==> r.value == spec.value.active
                          && kernel.table == old(kernel.table) + spec.value.active
                          && kernel.made == old(kernel.made) + spec.value.specs)
    ensures r == Fail ==> exists n :: 0 <= n < |points|
                            && Undone(old(kernel.table), kernel.table, old(kernel.made), kernel.made,
                                      plan, n, kernelFailed, cleaned)
  {
    var active: seq<Active> := [];
    ghost var specs: seq<MkdirSpec> := [];
    kernelFailed, cleaned := false, true;
    var i := 0;
    while i < |points|
      invariant 0 <= i <= |points| && !kernelFailed
      invariant ExpandAll(Steps(plan), i) == Ok(Expansion(active, specs))
      invariant kernel.table == old(kernel.table) + active && kernel.made == old(kernel.made) + specs
    {
      var planned := plan(i, active);
      assert Steps(plan)(i, active) == StepOf(planned);
      var ok := MountOne(kernel, i < |points| - 1, points[i], planned);
      if !ok || !planned.Ready? {
        if !planned.Ready? {
          ExpandFailureStays(Steps(plan), i + 1, |points|);
        }
        kernelFailed := !ok;
        cleaned := CleanupMounts(kernel, active);
        assert Undone(old(kernel.table), kernel.table, old(kernel.made), kernel.made, plan, i, kernelFailed, cleaned);
        return Fail, kernelFailed, cleaned;
      }
      active := active + [planned.step.active];
      specs := specs + planned.step.specs;
      i := i + 1;
    }
    r := Ok(active);
  }
}
