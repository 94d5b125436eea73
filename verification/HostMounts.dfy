/** The host's half of the rootfs: mounts of layer files become block devices
    named by serial, and the overlay that combines them becomes a template the
    guest will expand. */
module HostMounts {
  import opened Text
  import opened Wrappers
  import Decimal
  import Template

  datatype Mount = Mount(kind: string, source: string, target: string, options: seq<string>)

  datatype Disk = Disk(name: string, source: string, serial: string, readOnly: bool, format: string)

  /** What the host finds where a merged VMDK would be: nothing usable, one whose
      manifest agrees with the layer devices, or one that does not. */
  datatype Vmdk = Absent | Agrees | Disagrees

  type Byte = n: int | 0 <= n < 256

  const SERIAL_SCHEME := "serial:"
  const MAX_DISKS := 10
  const FIRST_LETTER: Byte := 97  // 'a'

  function HasSuffix(s: string, suffix: string): bool {
    |suffix| <= |s| && s[|s| - |suffix|..] == suffix
  }

  function TruncateId(prefix: string, id: string): string {
    var tag := prefix + "-" + id;
    if |tag| > 36 then tag[..36] else tag
  }

  /** The serial of the disk at a slot letter; letters are bytes. */
  function BlockSerial(letter: Byte): string {
    "sbxblk" + Decimal.Print((letter + 256 - FIRST_LETTER) % 256)
  }

  function FilterOptions(options: seq<string>, drop: string -> bool): seq<string> {
    if options == [] then []
    else (if drop(options[0]) then [] else [options[0]]) + FilterOptions(options[1..], drop)
  }

  predicate IsLoop(o: string) { o == "loop" }

  predicate IsDeviceOrLoop(o: string) { HasPrefix(o, "device=") || o == "loop" }

  const FSMETA := "fsmeta.erofs"

  /** The file QEMU opens for an EROFS mount, and whether it is a VMDK. */
  function ErofsImage(mnt: Mount, probe: (string, seq<string>) -> Vmdk): Result<(string, bool)> {
    if HasSuffix(mnt.source, FSMETA) then
      var vmdk := mnt.source[..|mnt.source| - |FSMETA|] + "merged.vmdk";
      match probe(vmdk, mnt.options)
      case Absent => Ok((mnt.source, false))
      case Agrees => Ok((vmdk, true))
      case Disagrees => Fail
    else Ok((mnt.source, HasSuffix(mnt.source, ".vmdk")))
  }

  datatype Transformed = Transformed(mounts: seq<Mount>, disks: seq<Disk>)

  function BlockMount(kind: string, letter: Byte, target: string, options: seq<string>): Mount {
    Mount(kind, SERIAL_SCHEME + BlockSerial(letter), target, options)
  }

  function HandleErofs(id: string, letter: Byte, mnt: Mount,
                       probe: (string, seq<string>) -> Vmdk): Result<Transformed> {
    match ErofsImage(mnt, probe)
    case Fail => Fail
    case Ok((file, vmdk)) =>
      Ok(Transformed(
           [BlockMount("erofs", letter, mnt.target, FilterOptions(mnt.options, IsDeviceOrLoop))],
           [Disk(TruncateId("disk-" + Decimal.Print(letter), id), file, BlockSerial(letter), true,
                 if vmdk then "vmdk" else "raw")]))
  }

  function HandleExt4(id: string, letter: Byte, mnt: Mount): Transformed {
    Transformed(
      [BlockMount("ext4", letter, mnt.target, FilterOptions(mnt.options, IsLoop))],
      [Disk(TruncateId("disk-" + Decimal.Print(letter), id), mnt.source, BlockSerial(letter),
            "ro" in mnt.options || "readonly" in mnt.options, "raw")])
  }

  // ----- overlays handed in by the snapshotter

  datatype Analysis = Analysis(workdir: Option<nat>, upperdir: Option<nat>, lowerTemplate: bool, hostPaths: bool,
                               overlayEnd: Option<nat>)

  /** The first overlay placeholder in a string. */
  function FindOverlay(s: string): Option<Template.Match> {
    if s == "" then None
    else
      var m := Template.MatchAt(s);
      if m.Some? && m.value.kind == Template.Overlay then m else FindOverlay(s[1..])
  }

  /** A number too large for an int reads as the largest. */
  function Number(d: string): nat {
    match Decimal.Atoi(d) case Some(n) => if n >= 0 then n else 0 case None => Decimal.MAX_INT
  }

  function Note(a: Analysis, i: nat, opt: string): Analysis {
    var templated := Contains(opt, "{{");
    if HasPrefix(opt, "upperdir=") then a.(upperdir := Some(i), hostPaths := a.hostPaths || !templated)
    else if HasPrefix(opt, "workdir=") then a.(workdir := Some(i), hostPaths := a.hostPaths || !templated)
    else if HasPrefix(opt, "lowerdir=") && templated then
      match FindOverlay(opt)
      case None => a.(lowerTemplate := true)
      case Some(m) =>
        var start, end := Number(m.first), Number(m.second);
        a.(lowerTemplate := true, overlayEnd := Some(if start > end then start else end))
    else a
  }

  function Analyze(options: seq<string>): Analysis {
    if options == [] then Analysis(None, None, false, false, None)
    else
      var n := |options| - 1;
      Note(Analyze(options[..n]), n, options[n])
  }

  lemma {:induction false} AnalyzeIndices(options: seq<string>)
    ensures var a := Analyze(options);
            && (a.upperdir.Some? ==> a.upperdir.value < |options| && HasPrefix(options[a.upperdir.value], "upperdir="))
            && (a.workdir.Some? ==> a.workdir.value < |options| && HasPrefix(options[a.workdir.value], "workdir="))
  {
    if options != [] {
      AnalyzeIndices(options[..|options| - 1]);
    }
  }

  predicate NeedsTmpfs(a: Analysis) {
    a.lowerTemplate && a.hostPaths && a.upperdir.Some? && a.workdir.Some? && a.overlayEnd.Some?
  }

  function UpperOf(index: nat): string { Template.Placeholder(Template.Mount, index, 0) + "/upper" }

  function WorkOf(index: nat): string { Template.Placeholder(Template.Mount, index, 0) + "/work" }

  function Redirect(options: seq<string>, a: Analysis, index: nat): seq<string> {
    seq(|options|, (i: nat) requires i < |options| =>
      if Some(i) == a.upperdir then "upperdir=" + UpperOf(index)
      else if Some(i) == a.workdir then "workdir=" + WorkOf(index)
      else options[i])
  }

  const MKDIR := "X-containerd.mkdir.path="

  const TMPFS := Mount("tmpfs", "tmpfs", "", ["mode=0755"])

  /** Host paths for upper and work directories are moved onto a tmpfs placed
      right before the overlay and addressed by template. */
  function HandleOverlay(mnt: Mount): Transformed {
    var a := Analyze(mnt.options);
    if NeedsTmpfs(a) then
      var index := a.overlayEnd.value + 1;
      Transformed(
        [TMPFS,
         Mount("format/mkdir/overlay", mnt.source, mnt.target,
               Redirect(mnt.options, a, index) + [MKDIR + UpperOf(index), MKDIR + WorkOf(index)])],
        [])
    else Transformed([mnt], [])
  }

  predicate IsErofs(mnt: Mount) { mnt.kind == "erofs" || mnt.kind == "format/erofs" }

  predicate IsOverlay(mnt: Mount) {
    mnt.kind == "overlay" || mnt.kind == "format/overlay" || mnt.kind == "format/mkdir/overlay"
  }

  function TransformMount(id: string, letter: Byte, mnt: Mount,
                          probe: (string, seq<string>) -> Vmdk): Result<Transformed> {
    if IsErofs(mnt) then HandleErofs(id, letter, mnt, probe)
    else if mnt.kind == "ext4" then Ok(HandleExt4(id, letter, mnt))
    else if IsOverlay(mnt) then Ok(HandleOverlay(mnt))
    else if HasPrefix(mnt.kind, "mkfs/") || HasPrefix(mnt.kind, "format/") then Fail
    else Ok(Transformed([mnt], []))
  }

  /** How one mount is transformed, given the next free letter. */
  type Transformer = (Byte, Mount) -> Result<Transformed>

  function ForContainer(id: string, probe: (string, seq<string>) -> Vmdk): Transformer {
    (letter: Byte, mnt: Mount) => TransformMount(id, letter, mnt, probe)
  }

  /** Every disk takes the next letter. */
  function LetterAfter(t: Transformed): Byte { (FIRST_LETTER + |t.disks|) % 256 }

  /** One more mount after those already transformed. */
  function Extend(so: Result<Transformed>, mnt: Mount, tr: Transformer): Result<Transformed> {
    match so
    case Fail => Fail
    case Ok(t) =>
      match tr(LetterAfter(t), mnt)
      case Fail => Fail
      case Ok(u) => Ok(Transformed(t.mounts + u.mounts, t.disks + u.disks))
  }

  function TransformAll(ms: seq<Mount>, tr: Transformer): Result<Transformed> {
    if ms == [] then Ok(Transformed([], []))
    else Extend(TransformAll(ms[..|ms| - 1], tr), ms[|ms| - 1], tr)
  }

  // ----- the generated overlay

  function CountErofs(mounts: seq<Mount>): nat {
    if mounts == [] then 0
    else CountErofs(mounts[..|mounts| - 1]) + if mounts[|mounts| - 1].kind == "erofs" then 1 else 0
  }

  predicate HasOverlay(mounts: seq<Mount>) { exists i :: 0 <= i < |mounts| && Contains(mounts[i].kind, "overlay") }

  function GeneratedOverlay(erofsEnd: nat, ext4: nat): Mount {
    Mount("format/mkdir/overlay", "overlay", "",
          ["lowerdir=" + Template.Placeholder(Template.Overlay, 0, erofsEnd),
           "upperdir=" + UpperOf(ext4),
           "workdir=" + WorkOf(ext4),
           MKDIR + UpperOf(ext4),
           MKDIR + WorkOf(ext4)])
  }

  predicate NeedsOverlay(mounts: seq<Mount>) {
    |mounts| >= 2 && !HasOverlay(mounts) && CountErofs(mounts) > 0 && mounts[|mounts| - 1].kind == "ext4"
  }

  function GenerateOverlay(mounts: seq<Mount>): seq<Mount> {
    if NeedsOverlay(mounts)
    then mounts + [GeneratedOverlay(CountErofs(mounts) - 1, |mounts| - 1)]
    else mounts
  }

  /** The whole rewrite, as the caller sees it. */
  function Rewrite(ms: seq<Mount>, tr: Transformer): Result<Transformed> {
    match TransformAll(ms, tr)
    case Fail => Fail
    case Ok(t) => if |t.disks| > MAX_DISKS then Fail else Ok(Transformed(GenerateOverlay(t.mounts), t.disks))
  }

  /** Disks go to the VM one by one until one is refused. */
  method AddDisksToVM(disks: seq<Disk>, refused: Disk -> bool) returns (ok: bool, added: seq<Disk>)
    ensures ok <==> forall d :: d in disks ==> !refused(d)
    ensures added <= disks && (ok ==> added == disks) && forall d :: d in added ==> !refused(d)
    ensures !ok ==> |added| < |disks| && refused(disks[|added|])
  {
    added := [];
    for i := 0 to |disks|
      invariant added == disks[..i] && forall d :: d in added ==> !refused(d)
    {
      if refused(disks[i]) {
        return false, added;
      }
      added := added + [disks[i]];
    }
    ok := true;
  }

  /** The source's loop: a letter advanced by each disk, two lists appended to. The
      rewrite succeeds exactly when it is defined and the VM takes every disk. */
  method TransformMounts(ms: seq<Mount>, tr: Transformer, refused: Disk -> bool)
      returns (r: Result<Transformed>, added: seq<Disk>)
    ensures r.Ok? <==> Rewrite(ms, tr).Ok? && forall d :: d in Rewrite(ms, tr).value.disks ==> !refused(d)
    ensures r.Ok? ==> r == Rewrite(ms, tr) && added == r.value.disks
    ensures Rewrite(ms, tr) == Fail ==> added == []
    ensures Rewrite(ms, tr).Ok? ==> added <= Rewrite(ms, tr).value.disks
  {
    added := [];
    var letter: Byte := FIRST_LETTER;
    var mounts: seq<Mount> := [];
    var disks: seq<Disk> := [];
    for i := 0 to |ms|
      invariant TransformAll(ms[..i], tr) == Ok(Transformed(mounts, disks))
      invariant letter == LetterAfter(Transformed(mounts, disks))
    {
      assert ms[..i + 1][..i] == ms[..i];
      var t := tr(letter, ms[i]);
      if t == Fail {
        FailureStays(ms, i + 1, tr);
        return Fail, [];
      }
      letter := (letter + |t.value.disks|) % 256;
      mounts := mounts + t.value.mounts;
      disks := disks + t.value.disks;
    }
    assert ms[..|ms|] == ms;
    if |disks| > MAX_DISKS {
      return Fail, [];
    }
    var ok;
    ok, added := AddDisksToVM(disks, refused);
    r := if ok then Ok(Transformed(GenerateOverlay(mounts), disks)) else Fail;
  }

  lemma {:induction false} FailureStays(ms: seq<Mount>, n: nat, tr: Transformer)
    requires n <= |ms| && TransformAll(ms[..n], tr) == Fail
    ensures TransformAll(ms, tr) == Fail
  {
    if n == |ms| {
      assert ms[..n] == ms;
    } else {
      assert ms[..|ms| - 1][..n] == ms[..n];
      FailureStays(ms[..|ms| - 1], n, tr);
    }
  }

  /** The generated lower directories are mounts 0 to n-1 where n counts the EROFS
      mounts, so they are the EROFS mounts just when those come first. */
  lemma GeneratedLowerIsErofsIff(mounts: seq<Mount>)
    ensures (forall i :: 0 <= i < CountErofs(mounts) <= |mounts| ==> mounts[i].kind == "erofs")
            <==> (forall i, j :: 0 <= i < j < |mounts| && mounts[j].kind == "erofs" ==> mounts[i].kind == "erofs")
  {
    CountBounds(mounts);
    if forall i :: 0 <= i < CountErofs(mounts) ==> mounts[i].kind == "erofs" {
      CountWhenPrefix(mounts, CountErofs(mounts));
    }
    if forall i, j :: 0 <= i < j < |mounts| && mounts[j].kind == "erofs" ==> mounts[i].kind == "erofs" {
      CountWhenSorted(mounts);
    }
  }

  lemma {:induction false} CountBounds(mounts: seq<Mount>)
    ensures CountErofs(mounts) <= |mounts|
  {
    if mounts != [] {
      CountBounds(mounts[..|mounts| - 1]);
    }
  }

  /** If the first n are EROFS and n are in all, the others are not. */
  lemma {:induction false} CountWhenPrefix(mounts: seq<Mount>, n: nat)
    requires n <= |mounts| && forall i :: 0 <= i < n ==> mounts[i].kind == "erofs"
    ensures CountErofs(mounts) >= n
    ensures CountErofs(mounts) == n ==> forall i :: n <= i < |mounts| ==> mounts[i].kind != "erofs"
  {
    if |mounts| > 0 {
      var front := mounts[..|mounts| - 1];
      CountWhenPrefix(front, if n == |mounts| then n - 1 else n);
      assert forall i :: 0 <= i < |front| ==> front[i] == mounts[i];
    }
  }

  lemma {:induction false} CountWhenSorted(mounts: seq<Mount>)
    requires forall i, j :: 0 <= i < j < |mounts| && mounts[j].kind == "erofs" ==> mounts[i].kind == "erofs"
    ensures forall i :: 0 <= i < CountErofs(mounts) <= |mounts| ==> mounts[i].kind == "erofs"
  {
    if mounts != [] {
      var front := mounts[..|mounts| - 1];
      CountBounds(front);
      CountWhenSorted(front);
      assert forall i :: 0 <= i < |front| ==> front[i] == mounts[i];
    }
  }
}
