/** Host rewriting followed by guest expansion, for the layers spin-erofs hands
    over: k EROFS layers and one writable ext4 layer. */
module RootfsPipeline {
  import opened Text
  import opened Wrappers
  import opened Template
  import opened GuestMounts
  import Decimal
  import HostMounts

  type Probe = (string, seq<string>) -> HostMounts.Vmdk

  // ----- the host

  /** A layer the host turns into a disk of its own. */
  predicate IsLayer(m: HostMounts.Mount, probe: Probe) {
    (HostMounts.IsErofs(m) && HostMounts.ErofsImage(m, probe).Ok?) || m.kind == "ext4"
  }

  function Serial(i: nat): string { "sbxblk" + Decimal.Print(i) }

  /** The file behind a layer's disk. */
  function Image(m: HostMounts.Mount, probe: Probe): string
    requires IsLayer(m, probe)
  {
    if HostMounts.IsErofs(m) then HostMounts.ErofsImage(m, probe).value.0 else m.source
  }

  /** What the host makes of layer i: a mount by serial, and the disk with that serial. */
  ghost predicate LayerDone(m: HostMounts.Mount, i: nat, probe: Probe, out: HostMounts.Mount, disk: HostMounts.Disk)
    requires IsLayer(m, probe)
  {
    && out.kind == (if HostMounts.IsErofs(m) then "erofs" else "ext4")
    && out.source == HostMounts.SERIAL_SCHEME + Serial(i) && out.target == m.target
    && disk.serial == Serial(i) && disk.source == Image(m, probe)
    && (HostMounts.IsErofs(m) ==> disk.readOnly)
  }

  ghost predicate LayersDone(ms: seq<HostMounts.Mount>, n: nat, probe: Probe, t: HostMounts.Transformed)
    requires n <= |ms| && forall i :: 0 <= i < n ==> IsLayer(ms[i], probe)
  {
    && |t.mounts| == n && |t.disks| == n
    && forall i :: 0 <= i < n ==> LayerDone(ms[i], i, probe, t.mounts[i], t.disks[i])
  }

  lemma OneLayer(id: string, m: HostMounts.Mount, i: nat, probe: Probe)
    requires IsLayer(m, probe) && i < 100
    ensures var r := HostMounts.TransformMount(id, HostMounts.FIRST_LETTER + i, m, probe);
            r.Ok? && |r.value.mounts| == 1 && |r.value.disks| == 1
            && LayerDone(m, i, probe, r.value.mounts[0], r.value.disks[0])
  {
    assert (HostMounts.FIRST_LETTER + i + 256 - HostMounts.FIRST_LETTER) % 256 == i;
  }

  /** The mounts and disks of the first n results, one of each. */
  ghost predicate InOrder(t: HostMounts.Transformed, outs: seq<HostMounts.Transformed>, n: nat)
    requires n <= |outs|
  {
    && |t.mounts| == n && |t.disks| == n
    && forall i :: 0 <= i < n ==> outs[i].mounts == [t.mounts[i]] && outs[i].disks == [t.disks[i]]
  }

  lemma InOrderMore(t: HostMounts.Transformed, outs: seq<HostMounts.Transformed>, n: nat)
    requires n < |outs| && InOrder(t, outs, n) && |outs[n].mounts| == 1 && |outs[n].disks| == 1
    ensures InOrder(HostMounts.Transformed(t.mounts + outs[n].mounts, t.disks + outs[n].disks), outs, n + 1)
  {
  }

  /** Layers that each become one mount and one disk are laid out in order. */
  lemma {:induction false} LaidOutInOrder(ms: seq<HostMounts.Mount>, n: nat, tr: HostMounts.Transformer,
                                          outs: seq<HostMounts.Transformed>)
      returns (t: HostMounts.Transformed)
    requires n <= |ms| && n <= |outs| && n <= 100
    requires forall i :: 0 <= i < n ==>
               |outs[i].mounts| == 1 && |outs[i].disks| == 1 && tr(HostMounts.FIRST_LETTER + i, ms[i]) == Ok(outs[i])
    ensures HostMounts.TransformAll(ms[..n], tr) == Ok(t) && InOrder(t, outs, n)
  {
    if n == 0 {
      t := HostMounts.Transformed([], []);
    } else {
      var t' := LaidOutInOrder(ms, n - 1, tr, outs);
      OneMoreLayer(ms, n - 1, tr, t', outs[n - 1]);
      InOrderMore(t', outs, n - 1);
      t := HostMounts.Transformed(t'.mounts + outs[n - 1].mounts, t'.disks + outs[n - 1].disks);
    }
  }

  lemma OneMoreLayer(ms: seq<HostMounts.Mount>, n: nat, tr: HostMounts.Transformer, t: HostMounts.Transformed,
                     out: HostMounts.Transformed)
    requires n < |ms| && HostMounts.TransformAll(ms[..n], tr) == Ok(t)
    requires tr(HostMounts.LetterAfter(t), ms[n]) == Ok(out)
    ensures HostMounts.TransformAll(ms[..n + 1], tr)
            == Ok(HostMounts.Transformed(t.mounts + out.mounts, t.disks + out.disks))
  {
    assert ms[..n + 1][..n] == ms[..n] && ms[..n + 1][n] == ms[n];
  }

  lemma HostLayers(id: string, ms: seq<HostMounts.Mount>, probe: Probe) returns (t: HostMounts.Transformed)
    requires |ms| <= HostMounts.MAX_DISKS && forall i :: 0 <= i < |ms| ==> IsLayer(ms[i], probe)
    ensures HostMounts.TransformAll(ms, HostMounts.ForContainer(id, probe)) == Ok(t)
    ensures LayersDone(ms, |ms|, probe, t)
  {
    var tr := HostMounts.ForContainer(id, probe);
    forall i | 0 <= i < |ms|
      ensures var r := tr(HostMounts.FIRST_LETTER + i, ms[i]);
              r.Ok? && |r.value.mounts| == 1 && |r.value.disks| == 1
              && LayerDone(ms[i], i, probe, r.value.mounts[0], r.value.disks[0])
    {
      OneLayer(id, ms[i], i, probe);
    }
    var outs := seq(|ms|, i requires 0 <= i < |ms| => tr(HostMounts.FIRST_LETTER + i, ms[i]).value);
    t := LaidOutInOrder(ms, |ms|, tr, outs);
    assert ms[..|ms|] == ms;
  }

  lemma {:induction false} ContainsIsShorter(s: string, sub: string)
    requires |s| < |sub|
    ensures !Contains(s, sub)
  {
    if s != "" {
      ContainsIsShorter(s[1..], sub);
    }
  }

  lemma {:induction false} CountLayers(mounts: seq<HostMounts.Mount>, k: nat)
    requires k <= |mounts| <= k + 1
    requires forall i :: 0 <= i < k ==> mounts[i].kind == "erofs"
    requires |mounts| == k + 1 ==> mounts[k].kind == "ext4"
    ensures HostMounts.CountErofs(mounts) == k
  {
    if |mounts| > 0 {
      CountLayers(mounts[..|mounts| - 1], if |mounts| == k + 1 then k else k - 1);
    }
  }

  /** The premise of the whole pipeline: k EROFS layers, then the ext4 layer, within
      the disk limit. */
  predicate SpinErofs(ms: seq<HostMounts.Mount>, probe: Probe) {
    && 2 <= |ms| <= HostMounts.MAX_DISKS
    && (forall i :: 0 <= i < |ms| - 1 ==> HostMounts.IsErofs(ms[i]) && IsLayer(ms[i], probe))
    && ms[|ms| - 1].kind == "ext4"
  }

  /** The host adds one disk per layer, in order, and one overlay after them. */
  lemma HostSide(id: string, ms: seq<HostMounts.Mount>, probe: Probe)
    requires SpinErofs(ms, probe)
    ensures var r := HostMounts.Rewrite(ms, HostMounts.ForContainer(id, probe));
            && r.Ok? && |r.value.mounts| == |ms| + 1
            && LayersDone(ms, |ms|, probe, HostMounts.Transformed(r.value.mounts[..|ms|], r.value.disks))
            && r.value.mounts[|ms|] == HostMounts.GeneratedOverlay(|ms| - 2, |ms| - 1)
  {
    var t := HostLayers(id, ms, probe);
    OverlayGenerated(ms, probe, t);
    assert HostMounts.GenerateOverlay(t.mounts)[..|ms|] == t.mounts;
  }

  lemma OverlayGenerated(ms: seq<HostMounts.Mount>, probe: Probe, t: HostMounts.Transformed)
    requires SpinErofs(ms, probe) && LayersDone(ms, |ms|, probe, t)
    ensures HostMounts.GenerateOverlay(t.mounts) == t.mounts + [HostMounts.GeneratedOverlay(|ms| - 2, |ms| - 1)]
  {
    var k := |ms| - 1;
    assert forall i :: 0 <= i < |ms| ==> t.mounts[i].kind == if i < k then "erofs" else "ext4" by {
      assert forall i :: 0 <= i < |ms| ==> LayerDone(ms[i], i, probe, t.mounts[i], t.disks[i]);
    }
    LayersNeedOverlay(t.mounts, k);
  }

  lemma LayersNeedOverlay(mounts: seq<HostMounts.Mount>, k: nat)
    requires k > 0 && |mounts| == k + 1 && mounts[k].kind == "ext4"
    requires forall i :: 0 <= i < k ==> mounts[i].kind == "erofs"
    ensures HostMounts.GenerateOverlay(mounts) == mounts + [HostMounts.GeneratedOverlay(k - 1, k)]
  {
    CountLayers(mounts, k);
    ContainsIsShorter("erofs", "overlay");
    ContainsIsShorter("ext4", "overlay");
    assert !HostMounts.HasOverlay(mounts);
  }

  // ----- devices in the guest

  /** What the guest may see: the disks under any names and in any order, each showing its
      own serial or none yet, among devices that show none of these serials. */
  ghost predicate ShowsDisks(listing: seq<Device>, disks: seq<HostMounts.Disk>, backs: map<string, nat>) {
    forall d :: d in listing ==>
      if d.name in backs
      then backs[d.name] < |disks| && (d.serial.Some? ==> TrimSpace(d.serial.value) == disks[backs[d.name]].serial)
      else d.serial.Some? ==> forall i :: 0 <= i < |disks| ==> TrimSpace(d.serial.value) != disks[i].serial
  }

  /** Some listing shows the disk with its serial. */
  ghost predicate Appears(listings: seq<seq<Device>>, backs: map<string, nat>, i: nat) {
    exists l, d :: l in listings && d in l && d.serial.Some? && d.name in backs && backs[d.name] == i
  }

  ghost predicate IsDeviceOf(path: string, backs: map<string, nat>, i: nat) {
    exists name :: name in backs && backs[name] == i && path == "/dev/" + name
  }

  lemma SerialsDiffer(i: nat, j: nat)
    requires Serial(i) == Serial(j)
    ensures i == j
  {
    assert Serial(i)[6..] == Decimal.Print(i) && Serial(j)[6..] == Decimal.Print(j);
    Decimal.PrintInjective(i, j);
  }

  ghost predicate SerialsInOrder(disks: seq<HostMounts.Disk>) {
    forall i :: 0 <= i < |disks| ==> disks[i].serial == Serial(i)
  }

  lemma {:induction false} FoundIsOurs(listing: seq<Device>, disks: seq<HostMounts.Disk>, backs: map<string, nat>,
                                       i: nat)
    requires ShowsDisks(listing, disks, backs) && SerialsInOrder(disks) && i < |disks|
    ensures var r := FindDevice(listing, Serial(i));
            && (r.Some? ==> IsDeviceOf(r.value, backs, i))
            && (r.None? ==> forall d :: d in listing && d.serial.Some? && d.name in backs ==> backs[d.name] != i)
  {
    if listing != [] {
      var d := listing[0];
      assert d in listing;
      if Matches(d, Serial(i)) {
        assert d.name in backs;
        SerialsDiffer(backs[d.name], i);
      } else {
        assert ShowsDisks(listing[1..], disks, backs);
        FoundIsOurs(listing[1..], disks, backs, i);
        assert listing == [d] + listing[1..];
      }
    }
  }

  /** Whatever the order of the listings, the serial of disk i leads to disk i. */
  lemma {:induction false} ResolvesToDisk(listings: seq<seq<Device>>, disks: seq<HostMounts.Disk>,
                                          backs: map<string, nat>, i: nat)
    requires SerialsInOrder(disks) && i < |disks|
    requires forall l :: l in listings ==> ShowsDisks(l, disks, backs)
    requires Appears(listings, backs, i)
    ensures var r := FindInListings(listings, Serial(i)); r.Some? && IsDeviceOf(r.value, backs, i)
  {
    var l, d :| l in listings && d in l && d.serial.Some? && d.name in backs && backs[d.name] == i;
    assert listings[0] in listings;
    FoundIsOurs(listings[0], disks, backs, i);
    if FindDevice(listings[0], Serial(i)).None? {
      assert listings == [listings[0]] + listings[1..];
      ResolvesToDisk(listings[1..], disks, backs, i);
    }
  }

  // ----- the guest: layers

  function LayerActive(m: HostMounts.Mount, dev: string, point: string): Active {
    Active(m.kind, dev, m.target, m.options, point)
  }

  /** A layer is mounted as it came, from the device its serial names. */
  lemma ExpandLayer(m: HostMounts.Mount, serial: string, point: string, mdir: string, active: seq<Active>,
                    listings: seq<seq<Device>>)
    requires m.kind == "erofs" || m.kind == "ext4"
    requires m.source == HostMounts.SERIAL_SCHEME + serial && FindInListings(listings, serial).Some?
    ensures Expand(m, point, mdir, active, listings)
            == Ok(Step(LayerActive(m, FindInListings(listings, serial).value, point), []))
  {
    CutPrefixOf(HostMounts.SERIAL_SCHEME, serial);
    assert m.kind[0] == 'e';
    assert CutPrefix(m.kind, "format/") == None && CutPrefix(m.kind, "mkdir/") == None;
  }

  // ----- the guest: the overlay

  function Dirs(mdir: string, n: nat): (dirs: seq<string>)
    ensures |dirs| == n && forall i :: 0 <= i < n ==> dirs[i] == JoinPath(mdir, Decimal.Print(i))
  {
    if n == 0 then [] else Dirs(mdir, n - 1) + [JoinPath(mdir, Decimal.Print(n - 1))]
  }

  /** Layer mounts sit at their numbered points. */
  ghost predicate AtPoints(active: seq<Active>, mdir: string) {
    forall i :: 0 <= i < |active| ==> active[i].mountPoint == JoinPath(mdir, Decimal.Print(i))
  }

  lemma PointFacts(mdir: string, i: nat)
    requires MarkerFree(mdir) && ':' !in mdir
    ensures var p := JoinPath(mdir, Decimal.Print(i));
            MarkerFree(p) && ':' !in p && mdir <= p && p[|p| - 1] != '{' && p != ""
  {
    Decimal.PrintHasNo(i, '{');
    Decimal.PrintHasNo(i, ':');
    var d := Decimal.Print(i);
    assert d[|d| - 1] in d;
    if mdir == "" || mdir[|mdir| - 1] == '/' {
      PathFacts(mdir, d);
      assert mdir == "" ==> mdir + d == d;
    } else {
      MarkerFreeSlash(mdir);
      PathFacts(mdir + "/", d);
    }
  }

  lemma MarkerFreeSlash(u: string)
    requires MarkerFree(u)
    ensures MarkerFree(u + "/")
  {
    var s := u + "/";
    assert forall i :: 0 <= i < |u| ==> s[i] == u[i];
  }

  lemma PathFacts(u: string, d: string)
    requires MarkerFree(u) && '{' !in d && d != ""
    ensures MarkerFree(u + d) && (u + d)[|u + d| - 1] == d[|d| - 1]
  {
    var s := u + d;
    forall i | 0 <= i < |s| - 1
      ensures !(s[i] == '{' && s[i + 1] == '{')
    {
      if i + 1 >= |u| {
        assert s[i + 1] == d[i + 1 - |u|];
      } else {
        assert s[i] == u[i] && s[i + 1] == u[i + 1];
      }
    }
  }

  lemma {:induction false} JoinMarkerFree(parts: seq<string>)
    requires forall p :: p in parts ==> MarkerFree(p)
    ensures MarkerFree(Join(parts, ':'))
  {
    if |parts| > 1 {
      JoinMarkerFree(parts[1..]);
      assert parts[0] in parts;
      MarkerFreeAppend(parts[0] + [':'], Join(parts[1..], ':'));
    }
  }

  lemma MarkerFreeAppend(a: string, b: string)
    requires MarkerFree(b) && a != "" && a[|a| - 1] != '{' && MarkerFree(a[..|a| - 1])
    ensures MarkerFree(a + b)
  {
    var s := a + b;
    forall i | 0 <= i < |s| - 1
      ensures !(s[i] == '{' && s[i + 1] == '{')
    {
      if i >= |a| {
        assert s[i] == b[i - |a|] && s[i + 1] == b[i + 1 - |a|];
      } else if i < |a| - 2 {
        assert s[i] == a[..|a| - 1][i] && s[i + 1] == a[..|a| - 1][i + 1];
      }
    }
  }

  /** A brace-free text before and after does not bring in the marker. */
  lemma MarkerFreeAround(u: string, v: string, rest: string)
    requires '{' !in u && '{' !in rest && MarkerFree(v)
    ensures MarkerFree(u + (v + rest))
  {
    var s := u + (v + rest);
    forall i | 0 <= i < |s| - 1
      ensures !(s[i] == '{' && s[i + 1] == '{')
    {
      if i < |u| {
        assert s[i] == u[i];
      } else if i + 1 >= |u| + |v| {
        assert s[i + 1] == rest[i + 1 - |u| - |v|];
      } else {
        assert s[i] == v[i - |u|] && s[i + 1] == v[i + 1 - |u|];
      }
    }
  }

  /** "{{ mount k }}" inside an option becomes the mount point of layer k. */
  lemma FormatMount(u: string, k: nat, rest: string, mdir: string, active: seq<Active>)
    requires '{' !in u && '{' !in rest && k < |active| <= 100 && AtPoints(active, mdir)
    requires MarkerFree(mdir) && ':' !in mdir
    ensures FormatString(u + (Placeholder(Mount, k, 0) + rest), active)
            == Ok(u + (JoinPath(mdir, Decimal.Print(k)) + rest))
  {
    Decimal.AtoiPrint(k);
    PointFacts(mdir, k);
    MarkerFreeAround(u, JoinPath(mdir, Decimal.Print(k)), rest);
    FormatOne(u, Mount, k, 0, rest, JoinPath(mdir, Decimal.Print(k)), active);
  }

  /** "{{ overlay 0 n-1 }}" becomes the list of the first n mount points. */
  lemma FormatLower(n: nat, mdir: string, active: seq<Active>)
    requires 0 < n <= |active| <= 100 && AtPoints(active, mdir)
    requires MarkerFree(mdir) && ':' !in mdir
    ensures FormatString("lowerdir=" + Placeholder(Overlay, 0, n - 1), active)
            == Ok("lowerdir=" + Join(Dirs(mdir, n), ':'))
  {
    var dirs := Dirs(mdir, n);
    var v := Join(dirs, ':');
    assert MarkerFree(v) by {
      forall p | p in dirs
        ensures MarkerFree(p)
      {
        var i :| 0 <= i < n && dirs[i] == p;
        PointFacts(mdir, i);
      }
      JoinMarkerFree(dirs);
    }
    assert Lookup(Written(Overlay, 0, n - 1), active) == Ok(v) by {
      Decimal.AtoiPrint(0);
      Decimal.AtoiPrint(n - 1);
      assert OverlayDirs(0, n - 1, active).value == dirs;
    }
    MarkerFreeAround("lowerdir=", v, "");
    FormatOne("lowerdir=", Overlay, 0, n - 1, "", v, active);
    assert Placeholder(Overlay, 0, n - 1) + "" == Placeholder(Overlay, 0, n - 1) && v + "" == v;
  }

  function Upper(mdir: string, k: nat): string { JoinPath(mdir, Decimal.Print(k)) + "/upper" }

  function Work(mdir: string, k: nat): string { JoinPath(mdir, Decimal.Print(k)) + "/work" }

  function OverlayOptions(mdir: string, k: nat): seq<string> {
    ["lowerdir=" + Join(Dirs(mdir, k), ':'), "upperdir=" + Upper(mdir, k), "workdir=" + Work(mdir, k)]
  }

  /** The generated overlay's options, expanded. */
  function ExpandedOptions(mdir: string, k: nat): seq<string> {
    ["lowerdir=" + Join(Dirs(mdir, k), ':'), "upperdir=" + Upper(mdir, k), "workdir=" + Work(mdir, k),
     HostMounts.MKDIR + Upper(mdir, k), HostMounts.MKDIR + Work(mdir, k)]
  }

  function OverlaySpecs(mdir: string, k: nat): seq<MkdirSpec> {
    [MkdirSpec(Upper(mdir, k), 0x1ED, -1, -1), MkdirSpec(Work(mdir, k), 0x1ED, -1, -1)]
  }

  lemma FormatFive(o: seq<string>, active: seq<Active>, x: seq<string>)
    requires |o| == |x| == 5 && FormatString(o[0], active) == Ok(x[0]) && FormatString(o[1], active) == Ok(x[1])
    requires FormatString(o[2], active) == Ok(x[2]) && FormatString(o[3], active) == Ok(x[3])
    requires FormatString(o[4], active) == Ok(x[4])
    ensures FormatOptions(o, active) == Ok(x)
  {
    MapAllIs(o, (o: string) => FormatString(o, active), x);
  }

  lemma OverlayParts(mdir: string, k: nat)
    requires 0 < k
    ensures var o, x := HostMounts.GeneratedOverlay(k - 1, k).options, ExpandedOptions(mdir, k);
            && |o| == |x| == 5
            && o[0] == "lowerdir=" + Placeholder(Overlay, 0, k - 1) && x[0] == "lowerdir=" + Join(Dirs(mdir, k), ':')
            && o[1] == "upperdir=" + HostMounts.UpperOf(k) && x[1] == "upperdir=" + Upper(mdir, k)
            && o[2] == "workdir=" + HostMounts.WorkOf(k) && x[2] == "workdir=" + Work(mdir, k)
            && o[3] == HostMounts.MKDIR + HostMounts.UpperOf(k) && x[3] == HostMounts.MKDIR + Upper(mdir, k)
            && o[4] == HostMounts.MKDIR + HostMounts.WorkOf(k) && x[4] == HostMounts.MKDIR + Work(mdir, k)
  {
  }

  lemma FormatDirs(a: string, b: string, mdir: string, k: nat, active: seq<Active>)
    requires k < |active| <= 100 && AtPoints(active, mdir) && MarkerFree(mdir) && ':' !in mdir
    requires '{' !in a && '{' !in b
    ensures FormatString(a + HostMounts.UpperOf(k), active) == Ok(a + Upper(mdir, k))
    ensures FormatString(b + HostMounts.WorkOf(k), active) == Ok(b + Work(mdir, k))
  {
    UpperFormats(a, mdir, k, active);
    WorkFormats(b, mdir, k, active);
  }

  lemma FormatParts(o: seq<string>, x: seq<string>, a: string, b: string, c: string, mdir: string, k: nat,
                    active: seq<Active>)
    requires 0 < k < |active| <= 100 && AtPoints(active, mdir) && MarkerFree(mdir) && ':' !in mdir && |o| == |x| == 5
    requires '{' !in a && '{' !in b && '{' !in c && FormatString(o[0], active) == Ok(x[0])
    requires o[1] == a + HostMounts.UpperOf(k) && x[1] == a + Upper(mdir, k)
    requires o[2] == b + HostMounts.WorkOf(k) && x[2] == b + Work(mdir, k)
    requires o[3] == c + HostMounts.UpperOf(k) && x[3] == c + Upper(mdir, k)
    requires o[4] == c + HostMounts.WorkOf(k) && x[4] == c + Work(mdir, k)
    ensures FormatOptions(o, active) == Ok(x)
  {
    FormatDirs(a, b, mdir, k, active);
    FormatDirs(c, c, mdir, k, active);
    FormatFive(o, active, x);
  }

  lemma FormatOverlayOptions(mdir: string, k: nat, active: seq<Active>)
    requires 0 < k < |active| <= 100 && AtPoints(active, mdir) && MarkerFree(mdir) && ':' !in mdir
    ensures FormatOptions(HostMounts.GeneratedOverlay(k - 1, k).options, active) == Ok(ExpandedOptions(mdir, k))
  {
    OverlayParts(mdir, k);
    FormatLower(k, mdir, active);
    FormatParts(HostMounts.GeneratedOverlay(k - 1, k).options, ExpandedOptions(mdir, k),
                "upperdir=", "workdir=", HostMounts.MKDIR, mdir, k, active);
  }

  lemma UpperFormats(u: string, mdir: string, k: nat, active: seq<Active>)
    requires '{' !in u && k < |active| <= 100 && AtPoints(active, mdir) && MarkerFree(mdir) && ':' !in mdir
    ensures FormatString(u + HostMounts.UpperOf(k), active) == Ok(u + Upper(mdir, k))
  {
    FormatMount(u, k, "/upper", mdir, active);
  }

  lemma WorkFormats(u: string, mdir: string, k: nat, active: seq<Active>)
    requires '{' !in u && k < |active| <= 100 && AtPoints(active, mdir) && MarkerFree(mdir) && ':' !in mdir
    ensures FormatString(u + HostMounts.WorkOf(k), active) == Ok(u + Work(mdir, k))
  {
    FormatMount(u, k, "/work", mdir, active);
  }

  // ----- the guest: directories

  /** A path of the overlay is a directory to make, under the mount directory. */
  lemma ParsesPath(mdir: string, k: nat, name: string)
    requires MarkerFree(mdir) && ':' !in mdir && ':' !in name
    ensures var path := JoinPath(mdir, Decimal.Print(k)) + name;
            ParseMkdir(HostMounts.MKDIR + path, mdir) == Ok(MkdirSpec(path, 0x1ED, -1, -1))
  {
    var path := JoinPath(mdir, Decimal.Print(k)) + name;
    PointFacts(mdir, k);
    CutPrefixOf(HostMounts.MKDIR, path);
    assert ':' !in path;
    assert SplitN(path, ':', 4) == [path];
    assert mdir <= path;
  }

  lemma PlainOption(name: string, value: string)
    requires name != "" && name[0] != 'X'
    ensures !HasPrefix(name + value, MKDIR_FAMILY)
  {
    assert (name + value)[0] == name[0] && MKDIR_FAMILY[0] == 'X';
  }

  lemma RequestsPath(mdir: string, k: nat, name: string)
    requires MarkerFree(mdir) && ':' !in mdir && ':' !in name
    ensures var path := JoinPath(mdir, Decimal.Print(k)) + name;
            Requests(HostMounts.MKDIR + path, mdir, MkdirSpec(path, 0x1ED, -1, -1))
  {
    ParsesPath(mdir, k, name);
    assert MKDIR_FAMILY <= HostMounts.MKDIR;
  }

  lemma ProcessFive(a: string, b: string, c: string, d: string, e: string, x: MkdirSpec, y: MkdirSpec, base: string)
    requires !HasPrefix(a, MKDIR_FAMILY) && !HasPrefix(b, MKDIR_FAMILY) && !HasPrefix(c, MKDIR_FAMILY)
    requires Requests(d, base, x) && Requests(e, base, y)
    ensures ProcessOptions([a, b, c, d, e], base) == Ok(Processed([a, b, c], [x, y]))
  {
    ProcessPlainThenDirs([a, b, c], [d, e], [x, y], base);
    assert [a, b, c] + [d, e] == [a, b, c, d, e];
  }

  lemma ProcessOverlayOptions(mdir: string, k: nat)
    requires MarkerFree(mdir) && ':' !in mdir
    ensures ProcessOptions(ExpandedOptions(mdir, k), mdir)
            == Ok(Processed(OverlayOptions(mdir, k), OverlaySpecs(mdir, k)))
  {
    var o := OverlayOptions(mdir, k);
    var s := OverlaySpecs(mdir, k);
    PlainOption("lowerdir=", Join(Dirs(mdir, k), ':'));
    PlainOption("upperdir=", Upper(mdir, k));
    PlainOption("workdir=", Work(mdir, k));
    RequestsPath(mdir, k, "/upper");
    RequestsPath(mdir, k, "/work");
    ProcessFive(o[0], o[1], o[2], HostMounts.MKDIR + Upper(mdir, k), HostMounts.MKDIR + Work(mdir, k),
                s[0], s[1], mdir);
  }

  // ----- the whole

  lemma UnmarkedIsKept(s: string, active: seq<Active>)
    requires MarkerFree(s)
    ensures FormatString(s, active) == Ok(s)
  {
    MarkerFreeIsNotContains(s);
  }

  /** A "format/mkdir/" mount whose template parts and directory options are known. */
  lemma ExpandFormatted(m: HostMounts.Mount, kind: string, expanded: seq<string>, p: Processed,
                        point: string, mdir: string, active: seq<Active>, listings: seq<seq<Device>>)
    requires m.kind == "format/" + ("mkdir/" + kind)
    requires FormatOptions(m.options, active) == Ok(expanded) && ProcessOptions(expanded, mdir) == Ok(p)
    requires MarkerFree(m.source) && MarkerFree(m.target) && !HasPrefix(m.source, HostMounts.SERIAL_SCHEME)
    ensures Expand(m, point, mdir, active, listings)
            == Ok(Step(Active(kind, m.source, m.target, p.remaining, point), p.specs))
  {
    CutPrefixOf("format/", "mkdir/" + kind);
    CutPrefixOf("mkdir/", kind);
    UnmarkedIsKept(m.source, active);
    UnmarkedIsKept(m.target, active);
  }

  lemma GeneratedIsPlain(k: nat)
    requires 0 < k
    ensures var m := HostMounts.GeneratedOverlay(k - 1, k);
            m.kind == "format/" + ("mkdir/" + "overlay") && MarkerFree(m.source) && MarkerFree(m.target)
            && !HasPrefix(m.source, HostMounts.SERIAL_SCHEME)
  {
    assert "overlay"[0] == 'o' && HostMounts.SERIAL_SCHEME[0] == 's';
  }

  lemma ExpandOverlay(rootfs: string, mdir: string, k: nat, active: seq<Active>, listings: seq<seq<Device>>)
    requires 0 < k < |active| <= 100 && AtPoints(active, mdir) && CleanPath(mdir) && MarkerFree(mdir) && ':' !in mdir
    ensures Expand(HostMounts.GeneratedOverlay(k - 1, k), rootfs, mdir, active, listings)
            == Ok(Step(Active("overlay", "overlay", "", OverlayOptions(mdir, k), rootfs), OverlaySpecs(mdir, k)))
  {
    FormatOverlayOptions(mdir, k, active);
    ProcessOverlayOptions(mdir, k);
    GeneratedIsPlain(k);
    ExpandFormatted(HostMounts.GeneratedOverlay(k - 1, k), "overlay", ExpandedOptions(mdir, k),
                    Processed(OverlayOptions(mdir, k), OverlaySpecs(mdir, k)), rootfs, mdir, active, listings);
  }

  /** A device of disk i, mounted at point i with the layer's own type. */
  ghost predicate LayerMounted(a: Active, m: HostMounts.Mount, mdir: string, backs: map<string, nat>, i: nat) {
    && a.mountPoint == JoinPath(mdir, Decimal.Print(i)) && IsDeviceOf(a.source, backs, i)
    && a.kind == (if HostMounts.IsErofs(m) then "erofs" else "ext4") && a.target == m.target
  }

  function LayerAt(mounts: seq<HostMounts.Mount>, i: nat, mdir: string, listings: seq<seq<Device>>): Active
    requires i < |mounts|
  {
    var dev := FindInListings(listings, Serial(i));
    LayerActive(mounts[i], if dev.Some? then dev.value else "", JoinPath(mdir, Decimal.Print(i)))
  }

  lemma GuestLayer(m: HostMounts.Mount, probe: Probe, host: HostMounts.Transformed, i: nat, rootfs: string,
                   mdir: string,
                   active: seq<Active>, listings: seq<seq<Device>>, backs: map<string, nat>)
    requires i < |host.disks| && |host.mounts| == |host.disks| + 1
    requires IsLayer(m, probe) && LayerDone(m, i, probe, host.mounts[i], host.disks[i])
    requires SerialsInOrder(host.disks) && Appears(listings, backs, i)
    requires forall l :: l in listings ==> ShowsDisks(l, host.disks, backs)
    ensures LayerMounted(LayerAt(host.mounts, i, mdir, listings), m, mdir, backs, i)
    ensures Expand(host.mounts[i], MountPoint(rootfs, mdir, i, |host.mounts|), mdir, active, listings)
            == Ok(Step(LayerAt(host.mounts, i, mdir, listings), []))
  {
    ResolvesToDisk(listings, host.disks, backs, i);
    ExpandLayer(host.mounts[i], Serial(i), JoinPath(mdir, Decimal.Print(i)), mdir, active, listings);
  }

  lemma GuestLayers(ms: seq<HostMounts.Mount>, probe: Probe, host: HostMounts.Transformed,
                    rootfs: string, mdir: string, listings: seq<seq<Device>>, backs: map<string, nat>)
      returns (acts: seq<Active>)
    requires |host.disks| == |ms| && |host.mounts| == |ms| + 1 && SerialsInOrder(host.disks)
    requires forall i :: 0 <= i < |ms| ==>
               IsLayer(ms[i], probe) && LayerDone(ms[i], i, probe, host.mounts[i], host.disks[i])
    requires forall i :: 0 <= i < |ms| ==> Appears(listings, backs, i)
    requires forall l :: l in listings ==> ShowsDisks(l, host.disks, backs)
    ensures ExpandAll(ForGuest(rootfs, mdir, host.mounts, listings), |ms|) == Ok(Expansion(acts, []))
    ensures |acts| == |ms| && forall i :: 0 <= i < |ms| ==> LayerMounted(acts[i], ms[i], mdir, backs, i)
  {
    var n := |ms|;
    var expand := ForGuest(rootfs, mdir, host.mounts, listings);
    acts := seq(n, i requires 0 <= i < n => LayerAt(host.mounts, i, mdir, listings));
    forall i, active: seq<Active> | 0 <= i < n
      ensures expand(i, active) == Ok(Step(acts[i], [])) && LayerMounted(acts[i], ms[i], mdir, backs, i)
    {
      GuestLayer(ms[i], probe, host, i, rootfs, mdir, active, listings, backs);
    }
    assert forall i :: 0 <= i < n ==> expand(i, []) == Ok(Step(acts[i], []));
    ExpandInOrder(expand, n, acts);
    assert acts[..n] == acts;
  }

  lemma {:induction false} ExpandInOrder(expand: Expander, n: nat, acts: seq<Active>)
    requires n <= |acts| && forall i, active :: 0 <= i < n ==> expand(i, active) == Ok(Step(acts[i], []))
    ensures ExpandAll(expand, n) == Ok(Expansion(acts[..n], []))
  {
    if n == 0 {
      assert acts[..0] == [];
    } else {
      ExpandInOrder(expand, n - 1, acts);
      ExpandOneMore(expand, n - 1, Expansion(acts[..n - 1], []), Step(acts[n - 1], []));
      assert acts[..n] == acts[..n - 1] + [acts[n - 1]];
      var none: seq<MkdirSpec> := [];
      assert none + none == none;
    }
  }

  lemma ExpandOneMore(expand: Expander, n: nat, done: Expansion, step: Step)
    requires ExpandAll(expand, n) == Ok(done) && expand(n, done.active) == Ok(step)
    ensures ExpandAll(expand, n + 1) == Ok(Expansion(done.active + [step.active], done.specs + step.specs))
  {
  }

  /** The overlay comes last, on top of layers mounted at their points. */
  lemma GuestOverlay(mounts: seq<HostMounts.Mount>, acts: seq<Active>, rootfs: string, mdir: string,
                     listings: seq<seq<Device>>)
    requires 2 <= |acts| <= 100 && |mounts| == |acts| + 1 && AtPoints(acts, mdir)
    requires CleanPath(mdir) && MarkerFree(mdir) && ':' !in mdir
    requires mounts[|acts|] == HostMounts.GeneratedOverlay(|acts| - 2, |acts| - 1)
    requires ExpandAll(ForGuest(rootfs, mdir, mounts, listings), |acts|) == Ok(Expansion(acts, []))
    ensures ExpandAll(ForGuest(rootfs, mdir, mounts, listings), |mounts|)
            == Ok(Expansion(acts + [RootOverlay(mdir, |acts| - 1, rootfs)], OverlaySpecs(mdir, |acts| - 1)))
  {
    var k := |acts| - 1;
    ExpandOverlay(rootfs, mdir, k, acts, listings);
    var step := Step(RootOverlay(mdir, k, rootfs), OverlaySpecs(mdir, k));
    assert ForGuest(rootfs, mdir, mounts, listings)(|acts|, acts) == Ok(step);
    ExpandOneMore(ForGuest(rootfs, mdir, mounts, listings), |acts|, Expansion(acts, []), step);
    assert [] + OverlaySpecs(mdir, k) == OverlaySpecs(mdir, k);
  }

  function RootOverlay(mdir: string, k: nat, rootfs: string): Active {
    Active("overlay", "overlay", "", OverlayOptions(mdir, k), rootfs)
  }

  /** Layer i mounted at point i, then one overlay at the root over the EROFS
      layers in their order, its upper and work directories on the ext4 layer. */
  ghost predicate Assembled(r: Result<Expansion>, ms: seq<HostMounts.Mount>, rootfs: string, mdir: string,
                            backs: map<string, nat>)
    requires 2 <= |ms|
  {
    && r.Ok? && |r.value.active| == |ms| + 1
    && (forall i :: 0 <= i < |ms| ==> LayerMounted(r.value.active[i], ms[i], mdir, backs, i))
    && r.value.active[|ms|] == RootOverlay(mdir, |ms| - 1, rootfs)
    && r.value.specs == OverlaySpecs(mdir, |ms| - 1)
    && Split(Join(Dirs(mdir, |ms| - 1), ':'), ':') == Dirs(mdir, |ms| - 1)
  }

  lemma GuestSide(ms: seq<HostMounts.Mount>, probe: Probe, host: HostMounts.Transformed,
                  rootfs: string, mdir: string, listings: seq<seq<Device>>, backs: map<string, nat>)
    requires 2 <= |ms| <= 100 && CleanPath(mdir) && MarkerFree(mdir) && ':' !in mdir
    requires |host.disks| == |ms| && |host.mounts| == |ms| + 1
    requires forall i :: 0 <= i < |ms| ==>
               IsLayer(ms[i], probe) && LayerDone(ms[i], i, probe, host.mounts[i], host.disks[i])
    requires host.mounts[|ms|] == HostMounts.GeneratedOverlay(|ms| - 2, |ms| - 1)
    requires forall l :: l in listings ==> ShowsDisks(l, host.disks, backs)
    requires forall i :: 0 <= i < |ms| ==> Appears(listings, backs, i)
    ensures Assembled(ExpandAll(ForGuest(rootfs, mdir, host.mounts, listings), |host.mounts|), ms, rootfs, mdir, backs)
  {
    var acts := GuestLayers(ms, probe, host, rootfs, mdir, listings, backs);
    GuestOverlay(host.mounts, acts, rootfs, mdir, listings);
    LowerDirsAreReadBack(mdir, |ms| - 1);
  }

  /** What the host rewrote, the guest assembles, and disk i is the file layer i was
      given as, whatever names the guest's devices have. */
  lemma RootfsIsAssembled(id: string, ms: seq<HostMounts.Mount>, probe: Probe, host: HostMounts.Transformed,
                          rootfs: string, mdir: string, listings: seq<seq<Device>>, backs: map<string, nat>)
    requires SpinErofs(ms, probe) && HostMounts.Rewrite(ms, HostMounts.ForContainer(id, probe)) == Ok(host)
    requires CleanPath(mdir) && MarkerFree(mdir) && ':' !in mdir
    requires forall l :: l in listings ==> ShowsDisks(l, host.disks, backs)
    requires forall i :: 0 <= i < |ms| ==> Appears(listings, backs, i)
    ensures |host.disks| == |ms| && forall i :: 0 <= i < |ms| ==> host.disks[i].source == Image(ms[i], probe)
    ensures Assembled(ExpandAll(ForGuest(rootfs, mdir, host.mounts, listings), |host.mounts|), ms, rootfs, mdir, backs)
  {
    HostSide(id, ms, probe);
    var n := |ms|;
    forall i | 0 <= i < n
      ensures LayerDone(ms[i], i, probe, host.mounts[i], host.disks[i])
    {
      assert host.mounts[..n][i] == host.mounts[i];
    }
    GuestSide(ms, probe, host, rootfs, mdir, listings, backs);
  }

  lemma LowerDirsAreReadBack(mdir: string, n: nat)
    requires 0 < n && MarkerFree(mdir) && ':' !in mdir
    ensures Split(Join(Dirs(mdir, n), ':'), ':') == Dirs(mdir, n)
  {
    forall i | 0 <= i < n
      ensures ':' !in Dirs(mdir, n)[i]
    {
      PointFacts(mdir, i);
    }
    SplitJoin(Dirs(mdir, n), ':');
  }

  // ----- overlays that came with host paths

  lemma MissingIndex(k: nat, n: nat)
    requires k >= n
    ensures ParseIndex(Decimal.Print(k), n) == None
  {
    if k <= Decimal.MAX_INT {
      Decimal.AtoiPrint(k);
    } else {
      Decimal.ValuePrint(k);
      assert Decimal.IsDigit(Decimal.Print(k)[0]);
    }
  }

  lemma FormatMissing(u: string, k: nat, rest: string, active: seq<Active>)
    requires '{' !in u && '{' !in rest && k >= |active|
    ensures FormatString(u + (Placeholder(Mount, k, 0) + rest), active) == Fail
  {
    MissingIndex(k, |active|);
    HasMarker(u, Mount, k, 0, rest);
    ReplaceOne(u, Mount, k, 0, rest, {Source}, active);
    ReplaceOne(u, Mount, k, 0, rest, {Target}, active);
    ReplaceOne(u, Mount, k, 0, rest, {Mount}, active);
  }

  lemma PointsDiffer(mdir: string, i: nat, j: nat)
    requires JoinPath(mdir, Decimal.Print(i)) == JoinPath(mdir, Decimal.Print(j))
    ensures i == j
  {
    var a, b := Decimal.Print(i), Decimal.Print(j);
    var n := |JoinPath(mdir, a)| - |a|;
    assert JoinPath(mdir, a)[n..] == a && JoinPath(mdir, b)[n..] == b;
    Decimal.PrintInjective(i, j);
  }

  /** An option that points into the tmpfs, once the guest expands it. */
  ghost predicate Reaches(option: string, u: string, tail: string, active: seq<Active>, before: nat)
    requires before < |active|
  {
    FormatString(option, active) == Ok(u + (active[before].mountPoint + tail))
  }

  /** An overlay that came with host paths, once the guest expands it: its upper and work
      directories, and the two directories it asks to be made for them, lie on the tmpfs
      added for it exactly when the highest layer number in its lower template is one less
      than the number of mounts before that tmpfs. */
  lemma TmpfsIsReachedIff(m: HostMounts.Mount, before: nat, active: seq<Active>, mdir: string)
    requires HostMounts.NeedsTmpfs(HostMounts.Analyze(m.options))
    requires |active| == before + 1 <= 100 && AtPoints(active, mdir) && CleanPath(mdir) && MarkerFree(mdir)
    requires ':' !in mdir
    ensures var a, n := HostMounts.Analyze(m.options), |m.options|;
            var out := HostMounts.HandleOverlay(m).mounts;
            && |out| == 2 && out[0] == HostMounts.TMPFS && |out[1].options| == n + 2
            && a.upperdir.value < n && a.workdir.value < n
            && (Reaches(out[1].options[a.upperdir.value], "upperdir=", "/upper", active, before)
                <==> a.overlayEnd.value + 1 == before)
            && (Reaches(out[1].options[a.workdir.value], "workdir=", "/work", active, before)
                <==> a.overlayEnd.value + 1 == before)
            && (Reaches(out[1].options[n], HostMounts.MKDIR, "/upper", active, before)
                <==> a.overlayEnd.value + 1 == before)
            && (Reaches(out[1].options[n + 1], HostMounts.MKDIR, "/work", active, before)
                <==> a.overlayEnd.value + 1 == before)
  {
    var a, n := HostMounts.Analyze(m.options), |m.options|;
    RedirectedOverlay(m);
    var k, o := a.overlayEnd.value + 1, HostMounts.HandleOverlay(m).mounts[1].options;
    AllReachedIff(o[a.upperdir.value], o[a.workdir.value], o[n], o[n + 1], k, before, active, mdir);
  }

  lemma AllReachedIff(upper: string, work: string, mkUpper: string, mkWork: string, k: nat, before: nat,
                      active: seq<Active>, mdir: string)
    requires upper == "upperdir=" + HostMounts.UpperOf(k) && work == "workdir=" + HostMounts.WorkOf(k)
    requires mkUpper == HostMounts.MKDIR + HostMounts.UpperOf(k) && mkWork == HostMounts.MKDIR + HostMounts.WorkOf(k)
    requires |active| == before + 1 <= 100 && AtPoints(active, mdir) && MarkerFree(mdir) && ':' !in mdir
    ensures Reaches(upper, "upperdir=", "/upper", active, before) <==> k == before
    ensures Reaches(work, "workdir=", "/work", active, before) <==> k == before
    ensures Reaches(mkUpper, HostMounts.MKDIR, "/upper", active, before) <==> k == before
    ensures Reaches(mkWork, HostMounts.MKDIR, "/work", active, before) <==> k == before
  {
    UpperReachedIff("upperdir=", k, before, active, mdir);
    WorkReachedIff("workdir=", k, before, active, mdir);
    UpperReachedIff(HostMounts.MKDIR, k, before, active, mdir);
    WorkReachedIff(HostMounts.MKDIR, k, before, active, mdir);
  }

  /** What the host makes of such an overlay. */
  lemma RedirectedOverlay(m: HostMounts.Mount)
    requires HostMounts.NeedsTmpfs(HostMounts.Analyze(m.options))
    ensures var a, n := HostMounts.Analyze(m.options), |m.options|;
            var out, k := HostMounts.HandleOverlay(m).mounts, a.overlayEnd.value + 1;
            && |out| == 2 && out[0] == HostMounts.TMPFS && |out[1].options| == n + 2
            && a.upperdir.value < n && out[1].options[a.upperdir.value] == "upperdir=" + HostMounts.UpperOf(k)
            && a.workdir.value < n && out[1].options[a.workdir.value] == "workdir=" + HostMounts.WorkOf(k)
            && out[1].options[n] == HostMounts.MKDIR + HostMounts.UpperOf(k)
            && out[1].options[n + 1] == HostMounts.MKDIR + HostMounts.WorkOf(k)
  {
    var a := HostMounts.Analyze(m.options);
    HostMounts.AnalyzeIndices(m.options);
    RedirectedOptions(m.options, a, a.overlayEnd.value + 1);
  }

  lemma RedirectedOptions(options: seq<string>, a: HostMounts.Analysis, k: nat)
    requires HostMounts.NeedsTmpfs(a) && a.upperdir.value < |options| && a.workdir.value < |options|
    requires HasPrefix(options[a.upperdir.value], "upperdir=") && HasPrefix(options[a.workdir.value], "workdir=")
    ensures var r := HostMounts.Redirect(options, a, k);
            && r[a.upperdir.value] == "upperdir=" + HostMounts.UpperOf(k)
            && r[a.workdir.value] == "workdir=" + HostMounts.WorkOf(k)
  {
    assert options[a.upperdir.value][0] == 'u' && options[a.workdir.value][0] == 'w';
  }

  lemma UpperReachedIff(u: string, k: nat, before: nat, active: seq<Active>, mdir: string)
    requires '{' !in u && |active| == before + 1 <= 100 && AtPoints(active, mdir) && MarkerFree(mdir) && ':' !in mdir
    ensures Reaches(u + HostMounts.UpperOf(k), u, "/upper", active, before) <==> k == before
  {
    ReachedIff(u, "/upper", k, before, active, mdir);
  }

  lemma WorkReachedIff(u: string, k: nat, before: nat, active: seq<Active>, mdir: string)
    requires '{' !in u && |active| == before + 1 <= 100 && AtPoints(active, mdir) && MarkerFree(mdir) && ':' !in mdir
    ensures Reaches(u + HostMounts.WorkOf(k), u, "/work", active, before) <==> k == before
  {
    ReachedIff(u, "/work", k, before, active, mdir);
  }

  lemma ReachedIff(u: string, tail: string, k: nat, before: nat, active: seq<Active>, mdir: string)
    requires '{' !in u && '{' !in tail
    requires |active| == before + 1 <= 100 && AtPoints(active, mdir) && MarkerFree(mdir) && ':' !in mdir
    ensures Reaches(u + (Placeholder(Mount, k, 0) + tail), u, tail, active, before) <==> k == before
  {
    if k < |active| {
      FormatMount(u, k, tail, mdir, active);
      if JoinPath(mdir, Decimal.Print(k)) == JoinPath(mdir, Decimal.Print(before)) {
        PointsDiffer(mdir, k, before);
      } else {
        SameAround(u, JoinPath(mdir, Decimal.Print(k)), JoinPath(mdir, Decimal.Print(before)), tail);
      }
    } else {
      FormatMissing(u, k, tail, active);
    }
  }

  lemma {:induction false} OverlayAfter(u: string, s: string)
    requires '{' !in u
    ensures HostMounts.FindOverlay(u + s) == HostMounts.FindOverlay(s)
  {
    if u == "" {
      assert u + s == s;
    } else {
      assert (u + s)[0] == u[0] && (u + s)[1..] == u[1..] + s;
      OverlayAfter(u[1..], s);
    }
  }

  lemma LowerIsNoted(i: nat, j: nat)
    requires i <= j <= 100
    ensures var opt := "lowerdir=" + Placeholder(Overlay, i, j);
            && Contains(opt, "{{") && HostMounts.FindOverlay(opt) == Some(Written(Overlay, i, j))
            && HostMounts.Number(Decimal.Print(j)) == j
            && HostMounts.Number(Decimal.Print(i)) == i
  {
    var p := Placeholder(Overlay, i, j);
    assert p + "" == p;
    PlaceholderMatches(Overlay, i, j, "");
    OverlayAfter("lowerdir=", p);
    HasMarker("lowerdir=", Overlay, i, j, "");
    Decimal.AtoiPrint(i);
    Decimal.AtoiPrint(j);
  }

  /** Two layers under the overlay and one mount beside them: the index misses the tmpfs. */
  lemma TmpfsIsMissed(mdir: string, active: seq<Active>) returns (m: HostMounts.Mount)
    requires |active| == 4 && AtPoints(active, mdir) && CleanPath(mdir) && MarkerFree(mdir) && ':' !in mdir
    ensures HostMounts.NeedsTmpfs(HostMounts.Analyze(m.options)) && m.options[1..] == ["upperdir=/u", "workdir=/w"]
    ensures !Reaches(HostMounts.HandleOverlay(m).mounts[1].options[1], "upperdir=", "/upper", active, 3)
  {
    m := HostMounts.Mount("overlay", "overlay", "",
                          ["lowerdir=" + Placeholder(Overlay, 0, 1), "upperdir=/u", "workdir=/w"]);
    LowerIsNoted(0, 1);
    ThreeOptions(m.options, 1);
    TmpfsIsReachedIff(m, 3, active, mdir);
  }

  lemma LowerOption(o: seq<string>, j: nat)
    requires |o| == 1 && j <= 100 && o[0] == "lowerdir=" + Placeholder(Overlay, 0, j)
    ensures HostMounts.Analyze(o) == HostMounts.Analysis(None, None, true, false, Some(j))
  {
    LowerIsNoted(0, j);
    assert o[..0] == [];
    assert o[0][0] == 'l' && !("upperdir=" <= o[0]) && !("workdir=" <= o[0]) && "lowerdir=" <= o[0];
  }

  lemma UpperNoted(a: HostMounts.Analysis, i: nat)
    ensures HostMounts.Note(a, i, "upperdir=/u") == a.(upperdir := Some(i), hostPaths := true)
  {
    MarkerFreeIsNotContains("upperdir=/u");
  }

  lemma WorkNoted(a: HostMounts.Analysis, i: nat)
    ensures HostMounts.Note(a, i, "workdir=/w") == a.(workdir := Some(i), hostPaths := true)
  {
    MarkerFreeIsNotContains("workdir=/w");
    assert "workdir=/w"[0] == 'w' && "upperdir="[0] == 'u';
  }

  lemma ThreeOptions(o: seq<string>, j: nat)
    requires |o| == 3 && o[1] == "upperdir=/u" && o[2] == "workdir=/w" && j <= 100
    requires o[0] == "lowerdir=" + Placeholder(Overlay, 0, j)
    ensures HostMounts.Analyze(o) == HostMounts.Analysis(Some(2), Some(1), true, true, Some(j))
  {
    var first := HostMounts.Analysis(None, None, true, false, Some(j));
    LowerOption(o[..1], j);
    OneMoreOption(o, 1);
    OneMoreOption(o, 2);
    UpperNoted(first, 1);
    WorkNoted(first.(upperdir := Some(1), hostPaths := true), 2);
    assert o[..3] == o;
  }

  lemma OneMoreOption(o: seq<string>, n: nat)
    requires n < |o|
    ensures HostMounts.Analyze(o[..n + 1]) == HostMounts.Note(HostMounts.Analyze(o[..n]), n, o[n])
  {
    assert o[..n + 1][..n] == o[..n] && o[..n + 1][n] == o[n];
  }

  lemma SameAround(u: string, a: string, b: string, rest: string)
    requires a != b
    ensures u + (a + rest) != u + (b + rest)
  {
    var s, t := u + (a + rest), u + (b + rest);
    assert s[|u|..|s| - |rest|] == a;
    assert t[|u|..|t| - |rest|] == b;
  }
}
