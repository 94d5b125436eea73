/** The memory controller: what it asks of the virtio-mem device, and why its
    requests at one usage all point the same way. Sizes in bytes. */
module MemoryHotplug {
  import opened Wrappers
  import M = HotplugMonitor

  datatype Config = Config(boot: int, max: int, up: real, down: real, margin: int, increment: int, enableDown: bool)

  /** A controller exists only below the ceiling; margin and increment are validated. */
  predicate Valid(c: Config) { 0 < c.boot < c.max && c.margin > 0 && c.increment > 0 }

  /** Usage as a percentage of the size. Nothing is a percentage of nothing: the division
      by zero is then infinite or not a number. */
  datatype Share = Percent(value: real) | OfNothing(usage: int)

  function ShareOf(usage: int, size: int): Share {
    if size == 0 then OfNothing(usage) else Percent(usage as real / size as real * 100.0)
  }

  /** Conversion to an integer drops the fraction. */
  function Truncate(r: real): int { if r >= 0.0 then r.Floor else 0 - (0.0 - r).Floor }

  /** Bytes in use, recovered from the percentage. `junk` is what the platform converts a
      value that is not a number to. */
  function Used(size: int, share: Share, junk: int): int {
    match share case Percent(p) => Truncate(size as real * p / 100.0) case OfNothing(_) => junk
  }

  /** Free bytes; the negation of the smallest 64-bit value is itself. */
  function Free(size: int, share: Share, junk: int): int {
    if share.OfNothing? && junk == -0x8000_0000_0000_0000 then junk else size - Used(size, share, junk)
  }

  /** Infinite for a positive usage of nothing; not a number compares false. */
  predicate AtLeast(share: Share, bound: real) {
    match share case Percent(p) => p >= bound case OfNothing(usage) => usage > 0
  }

  predicate LessThan(share: Share, bound: real) {
    match share case Percent(p) => p < bound case OfNothing(usage) => usage < 0
  }

  function Verdict(c: Config, size: int, usage: int, junk: int): M.Reading {
    var share := ShareOf(usage, size);
    var used := Used(size, share, junk);
    if AtLeast(share, c.up) && Free(size, share, junk) < c.margin && size < c.max then M.Toward(M.Up)
    else if c.enableDown && size > c.boot && LessThan(share, c.down)
            && size - c.increment >= c.boot && size - c.increment - used >= c.margin
    then M.Toward(M.Down)
    else M.Calm
  }

  function Clamp(c: Config, target: int): int {
    if target > c.max then c.max else if target < c.boot then c.boot else target
  }

  function Target(c: Config, size: int, d: M.Direction): int {
    Clamp(c, if d == M.Up then size + c.increment else size - c.increment)
  }

  // ----- the controller

  /** What the device is asked for: memory above the boot size. */
  function Asked(c: Config, size: int, d: M.Direction): Option<int> {
    if Target(c, size, d) == size then None else Some(Target(c, size, d) - c.boot)
  }

  /** The source's object, with the requests its device has received. */
  class Controller {
    const config: Config
    var currentMemory: int
    var sampled: bool
    var lastMemoryUsage: int
    var requests: seq<int>

    constructor (config: Config)
      ensures this.config == config && currentMemory == config.boot && !sampled && requests == []
    {
      this.config := config;
      currentMemory, sampled, lastMemoryUsage, requests := config.boot, false, 0, [];
    }

    method SampleMemory(usage: int) returns (share: Option<Share>)
      modifies this`sampled, this`lastMemoryUsage
      ensures sampled && lastMemoryUsage == usage
      ensures share == if old(sampled) then Some(ShareOf(usage, currentMemory)) else None
    {
      share := if sampled then Some(ShareOf(usage, currentMemory)) else None;
      sampled, lastMemoryUsage := true, usage;
    }

    /** The reported size, and the usage when there is one. */
    method EvaluateScaling(report: Option<int>, usage: Option<int>, junk: int) returns (r: M.Reading)
      modifies this`currentMemory, this`sampled, this`lastMemoryUsage
      ensures currentMemory == if report.Some? then report.value else old(currentMemory)
      ensures sampled == (old(sampled) || (report.Some? && usage.Some?))
      ensures lastMemoryUsage == if report.Some? && usage.Some? then usage.value else old(lastMemoryUsage)
      ensures r == if report.None? then M.Unreadable
                   else if usage.None? || !old(sampled) then M.Calm
                   else Verdict(config, report.value, usage.value, junk)
    {
      if report.None? {
        return M.Unreadable;
      }
      currentMemory := report.value;
      if usage.None? {
        return M.Calm;
      }
      var share := SampleMemory(usage.value);
      if share.None? {
        return M.Calm;
      }
      var used := Used(currentMemory, share.value, junk);
      var free := Free(currentMemory, share.value, junk);
      if AtLeast(share.value, config.up) && free < config.margin && currentMemory < config.max {
        return M.Toward(M.Up);
      }
      if config.enableDown && currentMemory > config.boot && LessThan(share.value, config.down) {
        var smaller := currentMemory - config.increment;
        if smaller >= config.boot && smaller - used >= config.margin {
          return M.Toward(M.Down);
        }
      }
      r := M.Calm;
    }

    /** `reply` is what the device reports to have plugged, or an error. */
    method Resize(target: int, reply: Option<int>) returns (ok: bool)
      modifies this`currentMemory, this`requests
      ensures requests == old(requests) + if target == old(currentMemory) then [] else [target - config.boot]
      ensures currentMemory == if target == old(currentMemory) || reply.None? then old(currentMemory)
                               else config.boot + reply.value
      ensures ok <==> target == old(currentMemory) || reply.Some?
    {
      if target == currentMemory {
        return true;
      }
      requests := requests + [target - config.boot];
      if reply.None? {
        return false;
      }
      currentMemory := config.boot + reply.value;
      ok := true;
    }

    method Scale(d: M.Direction, reply: Option<int>) returns (ok: bool)
      requires Valid(config)
      modifies this`currentMemory, this`requests
      ensures requests == old(requests)
              + match Asked(config, old(currentMemory), d) case None => [] case Some(size) => [size]
      ensures (forall size :: size in old(requests) ==> 0 <= size <= config.max - config.boot)
              ==> forall size :: size in requests ==> 0 <= size <= config.max - config.boot
    {
      AskedInRange(config, currentMemory, d);
      var target := if d == M.Up then currentMemory + config.increment else currentMemory - config.increment;
      ok := Resize(Clamp(config, target), reply);
    }
  }

  lemma AskedInRange(c: Config, size: int, d: M.Direction)
    requires Valid(c)
    ensures Asked(c, size, d).Some? ==> 0 <= Asked(c, size, d).value <= c.max - c.boot
  {
  }

  // ----- every run: whatever the device reports

  /** The controller's calls in any order, with any answers. */
  datatype Op = Evaluated(report: Option<int>) | Scaled(direction: M.Direction, reply: Option<int>)

  function Next(c: Config, size: int, op: Op): int {
    match op
    case Evaluated(report) => if report.Some? then report.value else size
    case Scaled(d, reply) => if Asked(c, size, d).None? || reply.None? then size else c.boot + reply.value
  }

  function SizeAfter(c: Config, ops: seq<Op>): int {
    if ops == [] then c.boot else Next(c, SizeAfter(c, ops[..|ops| - 1]), ops[|ops| - 1])
  }

  function Requests(c: Config, ops: seq<Op>): seq<int> {
    if ops == [] then []
    else
      var before, op := ops[..|ops| - 1], ops[|ops| - 1];
      Requests(c, before)
      + if op.Scaled? && Asked(c, SizeAfter(c, before), op.direction).Some?
        then [Asked(c, SizeAfter(c, before), op.direction).value]
        else []
  }

  lemma {:induction false} RequestsStayInRange(c: Config, ops: seq<Op>)
    requires Valid(c)
    ensures forall size :: size in Requests(c, ops) ==> 0 <= size <= c.max - c.boot
  {
    if ops != [] {
      var before := ops[..|ops| - 1];
      RequestsStayInRange(c, before);
      AskedInRange(c, SizeAfter(c, before), M.Up);
      AskedInRange(c, SizeAfter(c, before), M.Down);
    }
  }

  // ----- one usage, one direction

  /** Over the reals the percentage gives the usage back. */
  lemma UsedIsUsage(size: int, usage: int, junk: int)
    requires size != 0
    ensures Used(size, ShareOf(usage, size), junk) == usage
  {
    var s, u := size as real, usage as real;
    var q := u / s;
    assert q * s == u;
    assert s * (q * 100.0) == 100.0 * (q * s);
    assert s * (q * 100.0) / 100.0 == u;
  }

  lemma VerdictSays(c: Config, size: int, usage: int, junk: int)
    requires size != 0
    ensures Verdict(c, size, usage, junk) == M.Toward(M.Up) ==> size - usage < c.margin && size < c.max
    ensures Verdict(c, size, usage, junk) == M.Toward(M.Down) ==>
              size - c.increment - usage >= c.margin && size - c.increment >= c.boot
  {
    UsedIsUsage(size, usage, junk);
  }

  /** A size between the present one and what was asked for. */
  predicate Between(size: int, low: int, high: int) { low <= size <= high || high <= size <= low }

  /** A scale-down granted in full or in part is not followed by a scale-up verdict,
      nor a scale-up by a scale-down verdict. */
  lemma NoReversal(c: Config, size: int, size': int, usage: int, junk: int, d: M.Direction)
    requires Valid(c) && c.boot <= size <= c.max && Verdict(c, size, usage, junk) == M.Toward(d)
    requires Between(size', Target(c, size, d), size)
    ensures size' > 0 && Verdict(c, size', usage, junk) != M.Toward(M.Opposite(d))
  {
    VerdictSays(c, size, usage, junk);
    VerdictSays(c, size', usage, junk);
  }

  /** The size and the last target; the guest moves the size towards the target in
      its own time. */
  datatype Machine = Machine(size: int, target: int)

  datatype Step = Settle(size: int) | Decide(acts: bool, granted: int)

  predicate Enabled(c: Config, m: Machine, usage: int, st: Step) {
    match st
    case Settle(size) => Between(size, m.size, m.target)
    case Decide(acts, granted) =>
      acts ==> m.size != 0 && Verdict(c, m.size, usage, 0).Toward?
               && Between(granted, m.size, Target(c, m.size, Verdict(c, m.size, usage, 0).direction))
  }

  function Apply(c: Config, m: Machine, usage: int, st: Step): Machine
    requires Enabled(c, m, usage, st)
  {
    match st
    case Settle(size) => m.(size := size)
    case Decide(acts, granted) =>
      if acts then Machine(granted, Target(c, m.size, Verdict(c, m.size, usage, 0).direction)) else m
  }

  predicate Decides(c: Config, m: Machine, usage: int, st: Step, d: M.Direction) {
    st.Decide? && st.acts && m.size != 0 && Verdict(c, m.size, usage, 0) == M.Toward(d)
  }

  ghost predicate Execution(c: Config, usage: int, trace: seq<Machine>, steps: seq<Step>) {
    && |trace| == |steps| + 1
    && c.boot <= trace[0].size <= c.max && trace[0].target == trace[0].size
    && forall i :: 0 <= i < |steps| ==>
         Enabled(c, trace[i], usage, steps[i]) && trace[i + 1] == Apply(c, trace[i], usage, steps[i])
  }

  /** What an earlier decision still says about every size up to its target. */
  ghost predicate Holds(c: Config, usage: int, m: Machine, d: M.Direction) {
    if d == M.Up then m.size <= m.target && m.target - c.increment - usage < c.margin
    else m.target <= m.size && m.target - usage >= c.margin
  }

  lemma {:induction false} DecisionHolds(c: Config, usage: int, trace: seq<Machine>, steps: seq<Step>, d: M.Direction,
                                         i: nat, j: nat)
    requires Valid(c) && Execution(c, usage, trace, steps) && i < j <= |steps|
    requires Decides(c, trace[i], usage, steps[i], d)
    ensures c.boot <= trace[j].size <= c.max && Holds(c, usage, trace[j], d)
  {
    InRange(c, usage, trace, steps, j);
    InRange(c, usage, trace, steps, j - 1);
    VerdictSays(c, trace[j - 1].size, usage, 0);
    if i < j - 1 {
      DecisionHolds(c, usage, trace, steps, d, i, j - 1);
    }
  }

  lemma {:induction false} InRange(c: Config, usage: int, trace: seq<Machine>, steps: seq<Step>, i: nat)
    requires Valid(c) && Execution(c, usage, trace, steps) && i <= |steps|
    ensures c.boot <= trace[i].size <= c.max && c.boot <= trace[i].target <= c.max
  {
    if i > 0 {
      InRange(c, usage, trace, steps, i - 1);
    }
  }

  /** At one usage, no run decides both up and down, however slowly the guest follows. */
  lemma OneUsageOneDirection(c: Config, usage: int, trace: seq<Machine>, steps: seq<Step>, i: nat, j: nat)
    requires Valid(c) && Execution(c, usage, trace, steps) && i < |steps| && j < |steps|
    ensures !(Decides(c, trace[i], usage, steps[i], M.Up) && Decides(c, trace[j], usage, steps[j], M.Down))
  {
    if Decides(c, trace[i], usage, steps[i], M.Up) && Decides(c, trace[j], usage, steps[j], M.Down) {
      VerdictSays(c, trace[i].size, usage, 0);
      VerdictSays(c, trace[j].size, usage, 0);
      if i < j {
        DecisionHolds(c, usage, trace, steps, M.Up, i, j);
      } else if j < i {
        DecisionHolds(c, usage, trace, steps, M.Down, j, i);
      }
    }
  }
}
