/** What a container asks for, and the VM it gets. */
module Resources {
  import opened Text
  import opened Wrappers
  import Decimal

  // ----- cpusets

  function Interval(lo: nat, hi: nat): (cpus: set<nat>)
    ensures forall i: nat :: i in cpus <==> lo <= i <= hi
    decreases hi
  {
    if hi < lo then {} else if hi == 0 then {0} else Interval(lo, hi - 1) + {hi}
  }

  /** The CPUs one comma-separated part names. */
  function PartCpus(raw: string): Option<set<nat>> {
    var part := TrimSpace(raw);
    if part == "" then Some({})
    else
      match Cut(part, '-')
      case Some((a, b)) =>
        var start, end := Decimal.Atoi(TrimSpace(a)), Decimal.Atoi(TrimSpace(b));
        if start.None? || start.value < 0 || end.None? || end.value < start.value then None
        else Some(Interval(start.value, end.value))
      case None =>
        var cpu := Decimal.Atoi(part);
        if cpu.None? || cpu.value < 0 then None else Some({cpu.value as nat})
  }

  /** All parts must be valid. */
  function CpusOf(parts: seq<string>): Option<set<nat>> {
    if parts == [] then Some({})
    else
      match (CpusOf(parts[..|parts| - 1]), PartCpus(parts[|parts| - 1]))
      case (Some(a), Some(b)) => Some(a + b)
      case (_, _) => None
  }

  function CpuCount(text: string): nat {
    var t := TrimSpace(text);
    if t == "" then 0 else match CpusOf(Split(t, ',')) case None => 0 case Some(cpus) => |cpus|
  }

  lemma {:induction false} InvalidStays(parts: seq<string>, n: nat)
    requires n <= |parts| && CpusOf(parts[..n]) == None
    ensures CpusOf(parts) == None
  {
    if n == |parts| {
      assert parts[..n] == parts;
    } else {
      assert parts[..|parts| - 1][..n] == parts[..n];
      InvalidStays(parts[..|parts| - 1], n);
    }
  }

  method ParseCPUSet(cpuset: string) returns (count: nat)
    ensures count == CpuCount(cpuset)
  {
    var t := TrimSpace(cpuset);
    if t == "" {
      return 0;
    }
    var cpus: set<nat> := {};
    var parts := Split(t, ',');
    for i := 0 to |parts|
      invariant CpusOf(parts[..i]) == Some(cpus)
    {
      assert parts[..i + 1][..i] == parts[..i];
      var added := ParsePart(parts[i], cpus);
      if added.None? {
        InvalidStays(parts, i + 1);
        return 0;
      }
      cpus := added.value;
    }
    assert parts[..|parts|] == parts;
    count := |cpus|;
  }

  /** One part, added to the CPUs found so far. */
  method ParsePart(raw: string, sofar: set<nat>) returns (r: Option<set<nat>>)
    ensures r == match PartCpus(raw) case None => None case Some(cpus) => Some(sofar + cpus)
  {
    var part := TrimSpace(raw);
    if part == "" {
      return Some(sofar + {});
    }
    var range := Cut(part, '-');
    if range.None? {
      var cpu := Decimal.Atoi(part);
      if cpu.None? || cpu.value < 0 {
        return None;
      }
      return Some(sofar + {cpu.value as nat});
    }
    var start := Decimal.Atoi(TrimSpace(range.value.0));
    if start.None? || start.value < 0 {
      return None;
    }
    var end := Decimal.Atoi(TrimSpace(range.value.1));
    if end.None? || end.value < start.value {
      return None;
    }
    var cpus := sofar;
    for i := start.value to end.value + 1
      invariant forall c: nat :: c in cpus <==> c in sofar || start.value <= c < i
    {
      cpus := cpus + {i as nat};
    }
    assert cpus == sofar + Interval(start.value, end.value);
    r := Some(cpus);
  }

  /** The List format of cpuset(7): numbers and ranges, separated by commas. */
  datatype Item = One(cpu: nat) | Span(first: nat, last: nat)

  predicate ValidItem(x: Item) {
    match x case One(n) => n <= Decimal.MAX_INT case Span(a, b) => a <= b < Decimal.MAX_INT
  }

  function Cpus(x: Item): set<nat> { match x case One(n) => {n} case Span(a, b) => Interval(a, b) }

  function Union(items: seq<Item>): set<nat> {
    if items == [] then {} else Union(items[..|items| - 1]) + Cpus(items[|items| - 1])
  }

  function PrintItem(x: Item): string {
    match x case One(n) => Decimal.Print(n) case Span(a, b) => Decimal.Print(a) + ['-'] + Decimal.Print(b)
  }

  function PrintItems(items: seq<Item>): (parts: seq<string>)
    ensures |parts| == |items|
  {
    if items == [] then [] else PrintItems(items[..|items| - 1]) + [PrintItem(items[|items| - 1])]
  }

  function PrintSet(items: seq<Item>): string { Join(PrintItems(items), ',') }

  /** Begins and ends with a digit, holds no comma. */
  predicate Tidy(s: string) { s != "" && Decimal.IsDigit(s[0]) && Decimal.IsDigit(s[|s| - 1]) && ',' !in s }

  lemma ItemIsTidy(x: Item)
    ensures Tidy(PrintItem(x))
  {
    match x
    case One(n) => Decimal.PrintHasNo(n, ',');
    case Span(a, b) =>
      Decimal.PrintHasNo(a, ',');
      Decimal.PrintHasNo(b, ',');
  }

  lemma {:induction false} ItemsAreTidy(items: seq<Item>)
    ensures forall i :: 0 <= i < |items| ==> Tidy(PrintItems(items)[i])
  {
    if items != [] {
      ItemsAreTidy(items[..|items| - 1]);
      ItemIsTidy(items[|items| - 1]);
    }
  }

  lemma DigitsTrim(s: string)
    requires s != "" && Decimal.IsDigit(s[0]) && Decimal.IsDigit(s[|s| - 1])
    ensures TrimSpace(s) == s
  {
    TrimNothing(s);
  }

  lemma PartOfItem(x: Item)
    requires ValidItem(x)
    ensures PartCpus(PrintItem(x)) == Some(Cpus(x))
  {
    ItemIsTidy(x);
    DigitsTrim(PrintItem(x));
    match x
    case One(n) =>
      Decimal.PrintHasNo(n, '-');
      CutOfNothing(Decimal.Print(n), '-');
      Decimal.AtoiPrint(n);
    case Span(a, b) =>
      Decimal.PrintHasNo(a, '-');
      CutOf(Decimal.Print(a), Decimal.Print(b), '-');
      DigitsTrim(Decimal.Print(a));
      DigitsTrim(Decimal.Print(b));
      Decimal.AtoiPrint(a);
      Decimal.AtoiPrint(b);
  }

  lemma {:induction false} PartsOfItems(items: seq<Item>)
    requires forall x :: x in items ==> ValidItem(x)
    ensures CpusOf(PrintItems(items)) == Some(Union(items))
  {
    if items != [] {
      var n := |items| - 1;
      PartsOfItems(items[..n]);
      PartOfItem(items[n]);
      assert PrintItems(items)[..n] == PrintItems(items[..n]);
    }
  }

  lemma {:induction false} JoinIsTrim(parts: seq<string>)
    requires parts != [] && forall i :: 0 <= i < |parts| ==> Tidy(parts[i])
    ensures var s := Join(parts, ','); s != "" && Decimal.IsDigit(s[0]) && Decimal.IsDigit(s[|s| - 1])
  {
    if |parts| > 1 {
      JoinIsTrim(parts[1..]);
    }
  }

  /** A printed list of ranges counts its distinct CPUs, overlaps or not. */
  lemma PrintedSetCounts(items: seq<Item>)
    requires forall x :: x in items ==> ValidItem(x)
    ensures CpuCount(PrintSet(items)) == |Union(items)|
  {
    var parts := PrintItems(items);
    if items == [] {
      assert TrimSpace("") == "";
    } else {
      ItemsAreTidy(items);
      JoinIsTrim(parts);
      DigitsTrim(PrintSet(items));
      assert forall p :: p in parts ==> ',' !in p;
      SplitJoin(parts, ',');
      PartsOfItems(items);
    }
  }

  // ----- memory

  const ALIGNMENT: int := 128 * 1024 * 1024

  /** Rounds towards zero, unlike the division of the specification language. */
  function Quotient(a: int, b: int): int
    requires b != 0
  {
    if a >= 0 then a / b else 0 - (0 - a) / b
  }

  function Remainder(a: int, b: int): int
    requires b != 0
  {
    a - Quotient(a, b) * b
  }

  function AlignMemory(memory: int): int {
    if Remainder(memory, ALIGNMENT) == 0 then memory else (Quotient(memory, ALIGNMENT) + 1) * ALIGNMENT
  }

  /** The least multiple that is no smaller. */
  lemma AlignIsLeast(memory: nat)
    ensures var r := AlignMemory(memory); r >= memory && r % ALIGNMENT == 0 && r - memory < ALIGNMENT
    ensures memory > 0 ==> AlignMemory(memory) > 0
  {
    assert memory == memory / ALIGNMENT * ALIGNMENT + memory % ALIGNMENT;
  }

  // ----- the request

  /** Quota and period in microseconds; the period is unsigned. */
  datatype CpuSpec = CpuSpec(quota: Option<int>, period: Option<nat>, cpus: string)

  /** None where the container's specification has no such section. */
  datatype Spec = Spec(cpu: Option<CpuSpec>, memory: Option<Option<int>>)

  const DEFAULT_MEMORY: int := 512 * 1024 * 1024

  /** Conversion of an unsigned 64-bit value keeps its bits. */
  function AsInt64(n: nat): int { if n < 0x8000_0000_0000_0000 then n else n - 0x1_0000_0000_0000_0000 }

  /** Division of 64-bit values; the one quotient that does not fit wraps around. */
  function Divide64(a: int, b: int): int
    requires b != 0
  {
    if Quotient(a, b) > Decimal.MAX_INT then Quotient(a, b) - 0x1_0000_0000_0000_0000 else Quotient(a, b)
  }

  /** Integers of the source's widths, and a limit whose double is one too. */
  predicate InRange(spec: Spec) {
    && (spec.cpu.Some? ==>
          && (spec.cpu.value.quota.Some? ==> -Decimal.MAX_INT - 1 <= spec.cpu.value.quota.value <= Decimal.MAX_INT)
          && (spec.cpu.value.period.Some? ==> spec.cpu.value.period.value < 0x1_0000_0000_0000_0000))
    && (spec.memory.Some? && spec.memory.value.Some? ==> spec.memory.value.value <= 0x3FFF_FFFF_0000_0000)
  }

  function CpuRequest(spec: Spec): int
    requires InRange(spec)
  {
    if spec.cpu.None? then 1
    else
      var cpu := spec.cpu.value;
      if cpu.quota.Some? && cpu.period.Some? && cpu.period.value > 0 then
        var cpus := Divide64(cpu.quota.value, AsInt64(cpu.period.value));
        if cpus > 0 then cpus else 1
      else if cpu.cpus != "" && CpuCount(cpu.cpus) > 0 then CpuCount(cpu.cpus)
      else 1
  }

  function MemoryRequest(spec: Spec): int {
    if spec.memory.Some? && spec.memory.value.Some? && spec.memory.value.value > 0
    then spec.memory.value.value
    else DEFAULT_MEMORY
  }

  datatype Config = Config(bootCPUs: int, maxCPUs: int, memorySize: int, hotplugSize: int)

  function Min(a: int, b: int): int { if a < b then a else b }

  predicate HasCpuLimit(spec: Spec) { spec.cpu.Some? && (spec.cpu.value.quota.Some? || spec.cpu.value.cpus != "") }

  predicate HasMemoryLimit(spec: Spec) { spec.memory.Some? && spec.memory.value.Some? }

  function Assemble(cpus: int, cpuLimit: bool, hostCPUs: int, memory: int, memoryLimit: bool, host: int): Config {
    Config(cpus, if cpuLimit then Min(cpus, hostCPUs) else hostCPUs,
           memory, if memoryLimit then AlignMemory(Min(memory * 2, host)) else host)
  }

  function ComputeConfig(spec: Spec, hostCPUs: int, hostMemory: int): Config
    requires InRange(spec)
  {
    Assemble(CpuRequest(spec), HasCpuLimit(spec), hostCPUs,
             AlignMemory(MemoryRequest(spec)), HasMemoryLimit(spec), AlignMemory(hostMemory))
  }

  const DEFAULT_CONFIG := Config(1, 2, DEFAULT_MEMORY, 1024 * 1024 * 1024)

  function Validate(c: Option<Config>): Config {
    match c
    case None => DEFAULT_CONFIG
    case Some(c) =>
      var boot := if c.bootCPUs < 1 then DEFAULT_CONFIG.bootCPUs else c.bootCPUs;
      var size := if c.memorySize < 1 then DEFAULT_CONFIG.memorySize else c.memorySize;
      Config(boot, if c.maxCPUs < boot then boot else c.maxCPUs,
             size, if c.hotplugSize < size then size else c.hotplugSize)
  }

  lemma RequestIsPositive(spec: Spec)
    requires InRange(spec)
    ensures CpuRequest(spec) >= 1 && MemoryRequest(spec) >= 1
  {
  }

  lemma AlignKeepsAligned(memory: nat)
    requires memory % ALIGNMENT == 0
    ensures AlignMemory(memory) == memory
  {
    assert memory == memory / ALIGNMENT * ALIGNMENT;
  }

  predicate WellFormed(c: Config) {
    && 1 <= c.bootCPUs <= c.maxCPUs && 1 <= c.memorySize <= c.hotplugSize
    && c.memorySize % ALIGNMENT == 0 && c.hotplugSize % ALIGNMENT == 0
  }

  /** A validated configuration, in terms of what went into it. */
  lemma AssembledIsWellFormed(cpus: int, cpuLimit: bool, hostCPUs: int, memory: int, memoryLimit: bool, host: nat)
    requires cpus >= 1 && memory >= 1 && memory % ALIGNMENT == 0 && host % ALIGNMENT == 0
    ensures var c := Validate(Some(Assemble(cpus, cpuLimit, hostCPUs, memory, memoryLimit, host)));
            && WellFormed(c) && c.bootCPUs == cpus && c.memorySize == memory
            && c.maxCPUs == (if cpuLimit || hostCPUs < cpus then cpus else hostCPUs)
            && (memoryLimit ==> c.hotplugSize <= 2 * memory)
            && (c.hotplugSize <= host <==> memory <= host)
  {
    HotplugIsAligned(memory, host);
  }

  lemma HotplugIsAligned(memory: nat, host: nat)
    requires memory % ALIGNMENT == 0 && host % ALIGNMENT == 0
    ensures var low := Min(memory * 2, host); AlignMemory(low) == low && low % ALIGNMENT == 0
  {
    TwiceIsAligned(memory);
    AlignKeepsAligned(Min(memory * 2, host));
  }

  lemma TwiceIsAligned(memory: nat)
    requires memory % ALIGNMENT == 0
    ensures memory * 2 % ALIGNMENT == 0
  {
    var q := memory / ALIGNMENT;
    assert memory * 2 == (2 * q) * ALIGNMENT;
  }

  /** Whatever is asked for and whatever the host has, the VM is well formed and gets
      what was asked: with a CPU limit its maximum is the request, without one the
      host's or the request, and memory is rounded up by less than one block. The
      ceilings stay within the host exactly when the requests do. */
  lemma ConfigIsWellFormed(spec: Spec, hostCPUs: int, hostMemory: nat)
    requires InRange(spec)
    ensures var c := Validate(Some(ComputeConfig(spec, hostCPUs, hostMemory)));
            && WellFormed(c)
            && c.bootCPUs == CpuRequest(spec)
            && c.maxCPUs == (if HasCpuLimit(spec) || hostCPUs < CpuRequest(spec) then CpuRequest(spec) else hostCPUs)
            && MemoryRequest(spec) <= c.memorySize < MemoryRequest(spec) + ALIGNMENT
            && (HasMemoryLimit(spec) ==> c.hotplugSize <= 2 * c.memorySize)
            && (c.maxCPUs <= hostCPUs <==> CpuRequest(spec) <= hostCPUs)
            && (c.hotplugSize <= AlignMemory(hostMemory) <==> c.memorySize <= AlignMemory(hostMemory))
  {
    RequestIsPositive(spec);
    AlignIsLeast(MemoryRequest(spec));
    AlignIsLeast(hostMemory);
    AssembledIsWellFormed(CpuRequest(spec), HasCpuLimit(spec), hostCPUs, AlignMemory(MemoryRequest(spec)),
                          HasMemoryLimit(spec),
                          AlignMemory(hostMemory));
  }

  /** A quota of four CPUs on a host with two gives a ceiling of four. */
  lemma CeilingAboveHost() returns (spec: Spec)
    ensures InRange(spec) && Validate(Some(ComputeConfig(spec, 2, 0))).maxCPUs == 4
  {
    spec := Spec(Some(CpuSpec(Some(400000), Some(100000), "")), None);
    assert CpuRequest(spec) == 4;
    ConfigIsWellFormed(spec, 2, 0);
  }
}
