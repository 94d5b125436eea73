/** The CPU controller under the monitor: what it reads, what it asks of QEMU, and
    what becomes of the VM's CPU ids whatever QEMU answers. */
module CpuHotplug {
  import opened Wrappers
  import M = HotplugMonitor

  datatype Config = Config(boot: nat, max: nat, up: real, down: real, throttle: real, enableDown: bool,
                           monitor: M.Config)

  /** What is required of a configuration: validated thresholds, at least one boot CPU
      (a controller exists only when there is room above the boot CPUs). */
  predicate Valid(c: Config) {
    1 <= c.boot < c.max && 0.0 < c.down < c.up && c.monitor.up.enabled && c.monitor.down.enabled == c.enableDown
  }

  // ----- sampling

  /** Clock in nanoseconds, counters in microseconds. */
  datatype Sample = Sample(at: int, usage: nat, throttled: nat)

  datatype Percent = Percent(usage: real, throttled: real)

  function Micros(last: Sample, now: Sample): int { (now.at - last.at) / 1000 }

  /** Time used, as a percentage of the time that many CPUs had. */
  function Share(used: int, us: int, cpus: int): real
    requires us > 0 && cpus > 0
  {
    used as real / (us as real * cpus as real) * 100.0
  }

  /** The usage the same work would be on one CPU less. */
  function Projected(usage: real, n: int): real
    requires n > 1
  {
    usage * n as real / (n - 1) as real
  }

  /** Percentages since the last sample; none without one, or after a counter reset. */
  function Usage(last: Option<Sample>, now: Sample, cpus: int): Option<Percent> {
    if last.None? || now.at - last.value.at <= 0 || now.usage < last.value.usage || now.throttled < last.value.throttled
       || Micros(last.value, now) <= 0 || cpus <= 0
    then None
    else
      var us := Micros(last.value, now);
      Some(Percent(Share(now.usage - last.value.usage, us, cpus), Share(now.throttled - last.value.throttled, us, 1)))
  }

  function Verdict(c: Config, n: int, p: Option<Percent>): M.Reading {
    if p.None? || p.value.throttled >= c.throttle then M.Calm
    else if p.value.usage >= c.up && n < c.max then M.Toward(M.Up)
    else if c.enableDown && n > c.boot && n > 1 && Projected(p.value.usage, n) <= c.down then M.Toward(M.Down)
    else M.Calm
  }

  // ----- choosing ids

  /** The ids 0 to n - 1. */
  function Below(n: nat): (ids: set<nat>)
    ensures forall i: nat :: i in ids <==> i < n
    ensures |ids| == n
  {
    if n == 0 then {} else Below(n - 1) + {n - 1}
  }

  /** The lowest id below max that is not in use. */
  predicate IsFirstFree(r: Option<nat>, ids: set<nat>, max: nat) {
    match r
    case None => Below(max) <= ids
    case Some(id) => id < max && id !in ids && Below(id) <= ids
  }

  /** The highest id in use that is not 0. */
  predicate IsHighest(r: Option<nat>, ids: set<nat>) {
    match r
    case None => ids <= {0}
    case Some(id) => id in ids && id > 0 && forall i :: i in ids ==> i <= id
  }

  function FirstFreeFrom(ids: set<nat>, id: nat, max: nat): (r: Option<nat>)
    requires Below(id) <= ids && id <= max
    ensures IsFirstFree(r, ids, max)
    decreases max - id
  {
    if id == max then None
    else if id in ids then
      FirstFreeFrom(ids, id + 1, max)
    else Some(id)
  }

  function FirstFree(ids: set<nat>, max: nat): (r: Option<nat>)
    ensures IsFirstFree(r, ids, max)
  {
    FirstFreeFrom(ids, 0, max)
  }

  ghost function Highest(ids: set<nat>): (r: Option<nat>)
    ensures IsHighest(r, ids)
  {
    if ids <= {0} then None
    else HighestExists(ids); var id :| id in ids && id > 0 && forall i :: i in ids ==> i <= id; Some(id)
  }

  lemma {:induction false} HighestExists(ids: set<nat>)
    requires !(ids <= {0})
    ensures exists id :: id in ids && id > 0 && forall i :: i in ids ==> i <= id
    decreases |ids|
  {
    var x: nat :| x in ids && x != 0;
    var rest := ids - {x};
    if rest <= {0} {
      assert forall i :: i in ids ==> i == x || i in rest;
    } else {
      HighestExists(rest);
      var y :| y in rest && y > 0 && forall i :: i in rest ==> i <= y;
      var top := if x > y then x else y;
      assert forall i :: i in ids ==> i == x || i in rest;
      assert top in ids && top > 0 && forall i :: i in ids ==> i <= top;
    }
  }

  /** The answer of a query: every CPU once, in any order. */
  predicate Lists(cpus: seq<nat>, ids: set<nat>) {
    && (forall i :: 0 <= i < |cpus| ==> cpus[i] in ids)
    && (forall id :: id in ids ==> id in cpus)
    && forall i, j :: 0 <= i < j < |cpus| ==> cpus[i] != cpus[j]
  }

  method FindFreeId(cpus: seq<nat>, ids: set<nat>, max: nat) returns (r: Option<nat>)
    requires Lists(cpus, ids)
    ensures r == FirstFree(ids, max)
  {
    var existing: set<nat> := {};
    for i := 0 to |cpus|
      invariant existing == set j | 0 <= j < i :: cpus[j]
    {
      existing := existing + {cpus[i]};
    }
    assert existing == ids;
    for nextId := 0 to max
      invariant Below(nextId) <= ids && FirstFree(ids, max) == FirstFreeFrom(ids, nextId, max)
    {
      if nextId !in existing {
        return Some(nextId);
      }
    }
    r := None;
  }

  method FindRemovable(cpus: seq<nat>, ids: set<nat>) returns (r: Option<nat>)
    requires Lists(cpus, ids)
    ensures r == Highest(ids)
  {
    var remove: int := -1;
    for i := 0 to |cpus|
      invariant remove == -1 || (remove > 0 && exists j :: 0 <= j < i && cpus[j] == remove)
      invariant forall j :: 0 <= j < i ==> cpus[j] == 0 || cpus[j] <= remove
    {
      if cpus[i] > 0 && cpus[i] > remove {
        remove := cpus[i];
      }
    }
    r := if remove < 0 then None else Some(remove);
    assert IsHighest(r, ids);
  }

  // ----- the controller and its VM

  /** `pending` are the unplugs QEMU accepted and has not carried out. */
  datatype State = State(ids: set<nat>, pending: set<nat>, current: int, last: Option<Sample>, monitor: M.State)

  /** Everything a tick learns from outside: the unplugs that complete before it and
      between its evaluation and its scaling, the answers to the two queries, the
      sample, whether the plug or unplug reports success, whether it takes effect
      within the call, whether an unplug that did not may still do so later, and the
      clock. */
  datatype Env = Env(settled: set<nat>, query: bool, sample: Option<Sample>, midway: set<nat>,
                     requery: bool, ok: bool, effect: bool, lingers: bool, checked: int, done: int)

  function Settle(s: State, gone: set<nat>): State {
    s.(ids := s.ids - (s.pending * gone), pending := s.pending - gone)
  }

  function Percentages(s: State, e: Env): Option<Percent> {
    if e.sample.None? then None else Usage(s.last, e.sample.value, |s.ids|)
  }

  function VerdictOf(c: Config, s: State, e: Env): M.Reading { Verdict(c, |s.ids|, Percentages(s, e)) }

  /** The evaluation, given the verdict it comes to. */
  function Evaluate(s: State, e: Env, v: M.Reading): (State, M.Reading) {
    if !e.query then (s, M.Unreadable)
    else (s.(current := |s.ids|, last := if e.sample.None? then s.last else e.sample), v)
  }

  /** The state after the call, and whether it reports success. */
  function ScaleUp(c: Config, s: State, e: Env): (State, bool) {
    var free := FirstFree(s.ids, c.max);
    if !e.requery || free.None? then (s, false)
    else
      (s.(ids := if e.effect then s.ids + {free.value} else s.ids,
          current := if e.ok then s.current + 1 else s.current),
       e.ok)
  }

  function Pending(pending: set<nat>, id: nat, e: Env): set<nat> {
    if e.effect then pending - {id} else if e.lingers then pending + {id} else pending
  }

  /** A failed unplug is reported as success. */
  ghost function ScaleDown(s: State, e: Env): (State, bool) {
    var top := Highest(s.ids);
    if !e.requery || top.None? then (s, false)
    else
      (s.(ids := if e.effect then s.ids - {top.value} else s.ids,
          pending := Pending(s.pending, top.value, e),
          current := if e.ok then s.current - 1 else s.current),
       true)
  }

  function Clocked(r: M.Reading, ok: bool, e: Env): M.Tick { M.Tick(r, e.checked, ok, e.done) }

  datatype Call = NoCall | Plug | Unplug

  function CallOf(c: Config, m: M.State, r: M.Reading, e: Env): Call {
    if M.Attempts(m, c.monitor, Clocked(r, false, e), M.Up) then Plug
    else if M.Attempts(m, c.monitor, Clocked(r, false, e), M.Down) then Unplug
    else NoCall
  }

  ghost function Scaled(c: Config, s: State, call: Call, e: Env): (State, bool) {
    match call
    case NoCall => (s, false)
    case Plug => ScaleUp(c, s, e)
    case Unplug => ScaleDown(s, e)
  }

  /** One tick of the monitor over this controller, given the verdict. */
  ghost function TickOn(c: Config, s: State, e: Env, v: M.Reading): State {
    var (s1, r) := Evaluate(Settle(s, e.settled), e, v);
    var (s2, ok) := Scaled(c, Settle(s1, e.midway), CallOf(c, s.monitor, r, e), e);
    s2.(monitor := M.Next(s.monitor, c.monitor, Clocked(r, ok, e)))
  }

  /** How an evaluation judges what it finds. */
  type Judge = (State, Env) -> M.Reading

  function ByUsage(c: Config): Judge { (s: State, e: Env) => VerdictOf(c, s, e) }

  ghost function Tick(c: Config, judge: Judge, s: State, e: Env): State {
    TickOn(c, s, e, judge(Settle(s, e.settled), e))
  }

  ghost function Run(c: Config, judge: Judge, s: State, es: seq<Env>): State {
    if es == [] then s else Tick(c, judge, Run(c, judge, s, es[..|es| - 1]), es[|es| - 1])
  }

  /** The source's object, with the VM it acts on. */
  class Controller {
    const config: Config
    var ids: set<nat>
    var pending: set<nat>
    var currentCPUs: int
    var last: Option<Sample>

    ghost function Value(monitor: M.State): State
      reads this
    {
      State(ids, pending, currentCPUs, last, monitor)
    }

    constructor (config: Config)
      ensures this.config == config && forall m :: Value(m) == State(Below(config.boot), {}, config.boot, None, m)
    {
      this.config := config;
      ids, pending := Below(config.boot), {};
      currentCPUs, last := config.boot, None;
    }

    method QueryCPUs() returns (cpus: seq<nat>)
      ensures Lists(cpus, ids) && |cpus| == |ids|
    {
      cpus := [];
      var rest := ids;
      while rest != {}
        invariant rest <= ids && Lists(cpus, ids - rest) && |cpus| == |ids| - |rest|
      {
        var id: nat :| id in rest;
        assert ids - (rest - {id}) == (ids - rest) + {id};
        cpus, rest := cpus + [id], rest - {id};
      }
      assert ids - rest == ids;
    }

    method SampleCPU(now: Sample) returns (p: Option<Percent>)
      modifies this`last
      ensures p == Usage(old(last), now, currentCPUs) && last == Some(now)
    {
      var prev := last;
      last := Some(now);
      if prev == None || now.at - prev.value.at <= 0 {
        return None;
      }
      if now.usage < prev.value.usage || now.throttled < prev.value.throttled {
        return None;
      }
      var micros := (now.at - prev.value.at) / 1000;
      if micros <= 0 || currentCPUs <= 0 {
        return None;
      }
      p := Some(Percent(Share(now.usage - prev.value.usage, micros, currentCPUs),
                        Share(now.throttled - prev.value.throttled, micros, 1)));
    }

    method EvaluateScaling(e: Env, ghost m: M.State) returns (r: M.Reading)
      modifies this`currentCPUs, this`last
      ensures (Value(m), r) == Evaluate(old(Value(m)), e, VerdictOf(config, old(Value(m)), e))
    {
      if !e.query {
        return M.Unreadable;
      }
      var cpus := QueryCPUs();
      currentCPUs := |cpus|;
      if e.sample == None {
        return M.Calm;
      }
      var p := SampleCPU(e.sample.value);
      r := Verdict(config, currentCPUs, p);
    }

    method IncreaseCPUs(e: Env, ghost m: M.State) returns (ok: bool)
      modifies this
      ensures (Value(m), ok) == ScaleUp(config, old(Value(m)), e)
    {
      if !e.requery {
        return false;
      }
      var cpus := QueryCPUs();
      var free := FindFreeId(cpus, ids, config.max);
      if free == None {
        return false;
      }
      if e.effect {
        ids := ids + {free.value};
      }
      if !e.ok {
        return false;
      }
      currentCPUs := currentCPUs + 1;
      ok := true;
    }

    method DecreaseCPUs(e: Env, ghost m: M.State) returns (ok: bool)
      modifies this
      ensures (Value(m), ok) == ScaleDown(old(Value(m)), e)
    {
      if !e.requery {
        return false;
      }
      var cpus := QueryCPUs();
      var top := FindRemovable(cpus, ids);
      if top == None {
        return false;
      }
      pending := Pending(pending, top.value, e);
      if e.effect {
        ids := ids - {top.value};
      }
      if e.ok {
        currentCPUs := currentCPUs - 1;
      }
      ok := true;
    }
  }

  // ----- what every tick keeps

  /** Nothing beyond the maximum, and CPU 0 stays. */
  predicate Sane(c: Config, s: State) { 0 in s.ids && s.ids <= Below(c.max) && 0 !in s.pending }

  /** Every CPU the VM booted with is there, and no unplug of one is under way. */
  predicate KeepsBoot(c: Config, s: State) { Below(c.boot) <= s.ids && s.pending !! Below(c.boot) }

  predicate Contiguous(s: State) { s.ids == Below(|s.ids|) && s.pending == {} }

  /** No unplug completes between a tick's evaluation and its scaling. */
  predicate Undisturbed(e: Env) { e.midway == {} }

  /** An unplug takes effect within its call or not at all. */
  predicate Prompt(e: Env) { !e.lingers }

  lemma SubsetSize(a: set<nat>, b: set<nat>)
    requires a <= b
    ensures |a| <= |b|
  {
    if a != {} {
      var x: nat :| x in a;
      SubsetSize(a - {x}, b - {x});
    }
  }

  /** What a verdict says of the number of CPUs. */
  predicate Sound(c: Config, n: int, v: M.Reading) {
    && (v == M.Toward(M.Up) ==> n < c.max)
    && (v == M.Toward(M.Down) ==> n > c.boot && n > 1)
  }

  ghost predicate SoundJudge(c: Config, judge: Judge) {
    forall s: State, e: Env :: Sound(c, |s.ids|, judge(s, e))
  }

  lemma UsageIsSound(c: Config)
    ensures SoundJudge(c, ByUsage(c))
  {
    forall s: State, e: Env
      ensures Sound(c, |s.ids|, ByUsage(c)(s, e))
    {
      assert ByUsage(c)(s, e) == VerdictOf(c, s, e);
    }
  }

  /** A call follows the verdict. */
  lemma CallFollows(c: Config, m: M.State, s: State, e: Env, v: M.Reading)
    ensures var (s1, r) := Evaluate(s, e, v);
            && s1.ids == s.ids && s1.pending == s.pending && (r == v || r == M.Unreadable)
            && (CallOf(c, m, r, e) == Plug ==> r == v == M.Toward(M.Up))
            && (CallOf(c, m, r, e) == Unplug ==> r == v == M.Toward(M.Down))
  {
  }

  lemma ScaledKeepsSane(c: Config, s: State, call: Call, e: Env)
    requires Valid(c) && Sane(c, s)
    ensures Sane(c, Scaled(c, s, call, e).0)
  {
  }

  lemma TickKeepsSane(c: Config, s: State, e: Env, v: M.Reading)
    requires Valid(c) && Sane(c, s)
    ensures Sane(c, TickOn(c, s, e, v))
  {
    var s0 := Settle(s, e.settled);
    CallFollows(c, s.monitor, s0, e, v);
    var (s1, r) := Evaluate(s0, e, v);
    ScaledKeepsSane(c, Settle(s1, e.midway), CallOf(c, s.monitor, r, e), e);
  }

  /** CPU 0 is never removed and no id is beyond the maximum, however late unplugs
      take effect. */
  lemma {:induction false} AlwaysSane(c: Config, judge: Judge, s: State, es: seq<Env>)
    requires Valid(c) && Sane(c, s)
    ensures Sane(c, Run(c, judge, s, es))
  {
    if es != [] {
      var n := |es| - 1;
      AlwaysSane(c, judge, s, es[..n]);
      var t := Run(c, judge, s, es[..n]);
      TickKeepsSane(c, t, es[n], judge(Settle(t, es[n].settled), es[n]));
    }
  }

  /** Above the boot count, the CPU to remove is not a boot CPU. */
  lemma HighestIsAboveBoot(c: Config, ids: set<nat>)
    requires |ids| > c.boot >= 1
    ensures Highest(ids).Some? && Highest(ids).value >= c.boot
  {
    if ids <= Below(c.boot) {
      SubsetSize(ids, Below(c.boot));
    }
    var i: nat :| i in ids && i !in Below(c.boot);
  }

  /** With no more CPUs than at boot, the CPU to remove is a boot CPU. */
  lemma HighestIsBoot(c: Config, ids: set<nat>)
    requires Below(c.boot) <= ids && |ids| <= c.boot
    ensures ids == Below(c.boot) && Highest(ids) == if c.boot > 1 then Some(c.boot - 1) else None
  {
    if i: nat :| i in ids && i !in Below(c.boot) {
      SubsetSize(Below(c.boot) + {i}, ids);
    }
    ContiguousTargets(c, ids, c.boot);
  }

  /** The call is an unplug that does or may take effect, with only boot CPUs left. */
  predicate AsksForBoot(c: Config, s: State, call: Call, e: Env) {
    call == Unplug && e.requery && (e.effect || e.lingers) && |s.ids| <= c.boot && c.boot > 1
  }

  lemma ScaledKeepsBootIff(c: Config, s: State, call: Call, e: Env)
    requires Valid(c) && KeepsBoot(c, s)
    ensures KeepsBoot(c, Scaled(c, s, call, e).0) <==> !AsksForBoot(c, s, call, e)
  {
    if call == Unplug {
      if |s.ids| > c.boot {
        HighestIsAboveBoot(c, s.ids);
      } else {
        HighestIsBoot(c, s.ids);
      }
    }
  }

  /** The state a tick's scaling acts on, its call, and whether that asks for a boot CPU. */
  ghost predicate TakesBoot(c: Config, judge: Judge, s: State, e: Env) {
    var (s1, r) := Evaluate(Settle(s, e.settled), e, judge(Settle(s, e.settled), e));
    AsksForBoot(c, Settle(s1, e.midway), CallOf(c, s.monitor, r, e), e)
  }

  lemma TickKeepsBootIff(c: Config, judge: Judge, s: State, e: Env)
    requires Valid(c) && KeepsBoot(c, s)
    ensures KeepsBoot(c, Tick(c, judge, s, e)) <==> !TakesBoot(c, judge, s, e)
  {
    var s0 := Settle(s, e.settled);
    var v := judge(s0, e);
    CallFollows(c, s.monitor, s0, e, v);
    var (s1, r) := Evaluate(s0, e, v);
    ScaledKeepsBootIff(c, Settle(s1, e.midway), CallOf(c, s.monitor, r, e), e);
  }

  /** All boot CPUs are there after every tick of the run. */
  ghost predicate AlwaysBoot(c: Config, judge: Judge, s: State, es: seq<Env>) {
    KeepsBoot(c, Run(c, judge, s, es)) && (es == [] || AlwaysBoot(c, judge, s, es[..|es| - 1]))
  }

  ghost predicate NeverTakesBoot(c: Config, judge: Judge, s: State, es: seq<Env>) {
    es == [] || (NeverTakesBoot(c, judge, s, es[..|es| - 1])
                 && !TakesBoot(c, judge, Run(c, judge, s, es[..|es| - 1]), es[|es| - 1]))
  }

  /** The boot CPUs stay through a run exactly when no tick's unplug finds only boot CPUs
      left. */
  lemma {:induction false} AlwaysBootIff(c: Config, judge: Judge, s: State, es: seq<Env>)
    requires Valid(c) && KeepsBoot(c, s)
    ensures AlwaysBoot(c, judge, s, es) <==> NeverTakesBoot(c, judge, s, es)
  {
    if es != [] {
      var n := |es| - 1;
      AlwaysBootIff(c, judge, s, es[..n]);
      if NeverTakesBoot(c, judge, s, es[..n]) {
        TickKeepsBootIff(c, judge, Run(c, judge, s, es[..n]), es[n]);
      }
    }
  }

  /** The evaluation sees more than the boot CPUs before it asks for an unplug, so only an
      unplug that completes after it, in the same tick, can leave them alone. */
  lemma TakesBootNeedsMidway(c: Config, judge: Judge, s: State, e: Env)
    requires Valid(c) && SoundJudge(c, judge) && TakesBoot(c, judge, s, e)
    ensures Settle(s, e.settled).pending * e.midway != {}
  {
    var s0 := Settle(s, e.settled);
    var v := judge(s0, e);
    CallFollows(c, s.monitor, s0, e, v);
    var (s1, r) := Evaluate(s0, e, v);
    assert Sound(c, |s0.ids|, v);
    assert s0.pending * e.midway == {} ==> Settle(s1, e.midway).ids == s0.ids;
  }

  lemma {:induction false} AlwaysKeepsBoot(c: Config, judge: Judge, s: State, es: seq<Env>)
    requires Valid(c) && SoundJudge(c, judge) && KeepsBoot(c, s) && forall e :: e in es ==> Undisturbed(e)
    ensures AlwaysBoot(c, judge, s, es) && |Run(c, judge, s, es).ids| >= c.boot
  {
    if es != [] {
      var n := |es| - 1;
      AlwaysKeepsBoot(c, judge, s, es[..n]);
      assert es[n] in es;
      var t := Run(c, judge, s, es[..n]);
      if TakesBoot(c, judge, t, es[n]) {
        TakesBootNeedsMidway(c, judge, t, es[n]);
      }
      TickKeepsBootIff(c, judge, t, es[n]);
    }
    SubsetSize(Below(c.boot), Run(c, judge, s, es).ids);
  }

  lemma ContiguousTargets(c: Config, ids: set<nat>, n: nat)
    requires ids == Below(n)
    ensures FirstFree(ids, c.max) == if n < c.max then Some(n) else None
    ensures Highest(ids) == if n > 1 then Some(n - 1) else None
  {
    var free, top := FirstFree(ids, c.max), Highest(ids);
    assert IsFirstFree(free, ids, c.max) && IsHighest(top, ids);
    if free.Some? {
      assert n in Below(free.value) <==> n < free.value;
    } else {
      assert n in Below(c.max) <==> n < c.max;
    }
    if n > 1 {
      assert n - 1 in ids;
    }
  }

  /** How the number of CPUs can change in one tick: by one, in the direction read. */
  predicate StepOf(v: M.Reading, n: int, n': int) {
    n' == n || (n' == n + 1 && v == M.Toward(M.Up)) || (n' == n - 1 && v == M.Toward(M.Down))
  }

  predicate Counted(c: Config, s: State) { Contiguous(s) && c.boot <= |s.ids| <= c.max }

  lemma ScaledKeepsContiguous(c: Config, s: State, call: Call, e: Env)
    requires Valid(c) && Counted(c, s) && Prompt(e) && (call == Unplug ==> |s.ids| > c.boot)
    ensures Counted(c, Scaled(c, s, call, e).0)
    ensures var n, n' := |s.ids|, |Scaled(c, s, call, e).0.ids|;
            n' == n || (n' == n + 1 && call == Plug) || (n' == n - 1 && call == Unplug)
  {
    var n := |s.ids|;
    ContiguousTargets(c, s.ids, n);
    assert Below(n) + {n} == Below(n + 1);
    assert n > 0 ==> Below(n) - {n - 1} == Below(n - 1);
  }

  lemma TickKeepsContiguous(c: Config, s: State, e: Env, v: M.Reading)
    requires Valid(c) && Counted(c, s) && Prompt(e) && Sound(c, |s.ids|, v)
    ensures Counted(c, TickOn(c, s, e, v)) && StepOf(Evaluate(s, e, v).1, |s.ids|, |TickOn(c, s, e, v).ids|)
  {
    assert Settle(s, e.settled) == s;
    CallFollows(c, s.monitor, s, e, v);
    var (s1, r) := Evaluate(s, e, v);
    assert Settle(s1, e.midway) == s1;
    ScaledKeepsContiguous(c, s1, CallOf(c, s.monitor, r, e), e);
  }

  /** With prompt unplugs the ids are always 0 to n - 1, n between boot and maximum,
      so a plug always adds id n and an unplug always takes id n - 1. */
  lemma {:induction false} AlwaysContiguous(c: Config, judge: Judge, s: State, es: seq<Env>)
    requires Valid(c) && SoundJudge(c, judge) && Counted(c, s) && forall e :: e in es ==> Prompt(e)
    ensures Counted(c, Run(c, judge, s, es))
  {
    if es != [] {
      var n := |es| - 1;
      AlwaysContiguous(c, judge, s, es[..n]);
      assert es[n] in es;
      var t := Run(c, judge, s, es[..n]);
      assert Settle(t, es[n].settled) == t;
      TickKeepsContiguous(c, t, es[n], judge(Settle(t, es[n].settled), es[n]));
    }
  }

  // ----- gaps

  /** The ids are 0 to n - 1, whatever is under way. */
  predicate Gapless(s: State) { s.ids == Below(|s.ids|) }

  /** With an id, everything above it. */
  predicate TopSegment(gone: set<nat>, n: nat) { forall i, j :: i in gone && i <= j < n ==> j in gone }

  lemma {:induction false} Lowest(ids: set<nat>) returns (k: nat)
    requires ids != {}
    ensures k in ids && forall i :: i in ids ==> k <= i
    decreases ids
  {
    k :| k in ids;
    if i: nat :| i in ids && i < k {
      var rest := ids - {k};
      assert i in rest && forall j :: j in ids ==> j == k || j in rest;
      k := Lowest(rest);
    }
  }

  lemma TopLeavesBelow(n: nat, gone: set<nat>) returns (k: nat)
    requires gone <= Below(n) && TopSegment(gone, n)
    ensures Below(n) - gone == Below(k)
  {
    k := n;
    if gone != {} {
      k := Lowest(gone);
      assert k in Below(n);
      forall i: nat
        ensures i in Below(n) - gone <==> i in Below(k)
      {
      }
    }
  }

  lemma BelowLeftByTop(n: nat, gone: set<nat>, k: nat)
    requires Below(n) - gone == Below(k) && gone <= Below(n)
    ensures TopSegment(gone, n)
  {
    forall i, j | i in gone && i <= j < n
      ensures j in gone
    {
      assert i !in Below(k);
      assert j !in Below(k) && j in Below(n);
    }
  }

  lemma RemoveTop(n: nat, gone: set<nat>)
    requires gone <= Below(n)
    ensures Below(n) - gone == Below(|Below(n) - gone|) <==> TopSegment(gone, n)
  {
    if TopSegment(gone, n) {
      var k := TopLeavesBelow(n, gone);
    }
    if Below(n) - gone == Below(|Below(n) - gone|) {
      BelowLeftByTop(n, gone, |Below(n) - gone|);
    }
  }

  /** Completing unplugs leaves no gap exactly when they are the topmost CPUs. */
  lemma SettleGaplessIff(s: State, gone: set<nat>)
    requires Gapless(s) && s.pending <= s.ids
    ensures Gapless(Settle(s, gone)) <==> TopSegment(s.pending * gone, |s.ids|)
  {
    RemoveTop(|s.ids|, s.pending * gone);
  }

  lemma ScaledKeepsGapless(c: Config, s: State, call: Call, e: Env)
    requires Gapless(s) && s.pending <= s.ids
    ensures var t := Scaled(c, s, call, e).0; Gapless(t) && t.pending <= t.ids
  {
    var n := |s.ids|;
    ContiguousTargets(c, s.ids, n);
    assert Below(n) + {n} == Below(n + 1);
    assert n > 0 ==> Below(n) - {n - 1} == Below(n - 1);
  }

  /** No gap at any moment of a tick: after the unplugs that complete before it, after
      those that complete during it, and at its end. */
  ghost predicate GaplessTick(c: Config, judge: Judge, s: State, e: Env) {
    && Gapless(Settle(s, e.settled)) && Gapless(Settle(Settle(s, e.settled), e.midway)) && Gapless(Tick(c, judge, s, e))
  }

  /** The unplugs that complete are the topmost CPUs, both times. */
  predicate TopTick(s: State, e: Env) {
    && TopSegment(s.pending * e.settled, |s.ids|)
    && var s0 := Settle(s, e.settled); TopSegment(s0.pending * e.midway, |s0.ids|)
  }

  lemma GaplessTickIff(c: Config, judge: Judge, s: State, e: Env)
    requires Gapless(s) && s.pending <= s.ids
    ensures GaplessTick(c, judge, s, e) <==> TopTick(s, e)
    ensures GaplessTick(c, judge, s, e) ==> Tick(c, judge, s, e).pending <= Tick(c, judge, s, e).ids
  {
    var s0 := Settle(s, e.settled);
    SettleGaplessIff(s, e.settled);
    if Gapless(s0) {
      SettleGaplessIff(s0, e.midway);
      var v := judge(s0, e);
      CallFollows(c, s.monitor, s0, e, v);
      var (s1, r) := Evaluate(s0, e, v);
      var s2 := Settle(s1, e.midway);
      assert s2.ids == Settle(s0, e.midway).ids && s2.pending == Settle(s0, e.midway).pending;
      if Gapless(s2) {
        ScaledKeepsGapless(c, s2, CallOf(c, s.monitor, r, e), e);
      }
    }
  }

  ghost predicate AlwaysGapless(c: Config, judge: Judge, s: State, es: seq<Env>) {
    es == [] || (AlwaysGapless(c, judge, s, es[..|es| - 1])
                 && GaplessTick(c, judge, Run(c, judge, s, es[..|es| - 1]), es[|es| - 1]))
  }

  ghost predicate AlwaysTop(c: Config, judge: Judge, s: State, es: seq<Env>) {
    es == [] || (AlwaysTop(c, judge, s, es[..|es| - 1]) && TopTick(Run(c, judge, s, es[..|es| - 1]), es[|es| - 1]))
  }

  /** The ids have no gap at any moment of a run exactly when every completion of late
      unplugs takes the topmost CPUs. */
  lemma {:induction false} AlwaysGaplessIff(c: Config, judge: Judge, s: State, es: seq<Env>)
    requires Gapless(s) && s.pending <= s.ids
    ensures AlwaysGapless(c, judge, s, es) <==> AlwaysTop(c, judge, s, es)
    ensures AlwaysGapless(c, judge, s, es) ==>
              Gapless(Run(c, judge, s, es)) && Run(c, judge, s, es).pending <= Run(c, judge, s, es).ids
  {
    if es != [] {
      var n := |es| - 1;
      AlwaysGaplessIff(c, judge, s, es[..n]);
      if AlwaysGapless(c, judge, s, es[..n]) {
        GaplessTickIff(c, judge, Run(c, judge, s, es[..n]), es[n]);
      }
    }
  }

  // ----- constant load

  /** The workload consumes `load` CPUs' worth of time between any two samples. */
  predicate Steady(load: real, last: Option<Sample>, now: Option<Sample>) {
    last.Some? && now.Some? && Micros(last.value, now.value) > 0 && now.value.usage >= last.value.usage ==>
      (now.value.usage - last.value.usage) as real == load * Micros(last.value, now.value) as real
  }

  lemma Undivide(x: real, d: real)
    requires d != 0.0
    ensures x / d * d == x
  {
  }

  lemma ShareOfLoad(used: int, us: int, n: int, load: real)
    requires us > 0 && n > 0 && used as real == load * us as real
    ensures Share(used, us, n) * n as real == 100.0 * load
  {
    var u, k := us as real, n as real;
    var x := used as real / (u * k);
    Undivide(used as real, u * k);
    assert (x * k) * u == load * u;
    SameFactor(x * k, load, u);
    assert x * 100.0 * k == 100.0 * (x * k);
  }

  lemma SameFactor(a: real, b: real, f: real)
    requires f > 0.0 && a * f == b * f
    ensures a == b
  {
    if a < b {
      TimesMonotone(a, b, f);
    } else if b < a {
      TimesMonotone(b, a, f);
    }
  }

  lemma UsageOfSteady(load: real, last: Option<Sample>, now: Sample, n: nat)
    requires n > 0 && Steady(load, last, Some(now)) && Usage(last, now, n).Some?
    ensures Usage(last, now, n).value.usage * n as real == 100.0 * load
  {
    ShareOfLoad(now.usage - last.value.usage, Micros(last.value, now), n, load);
  }

  lemma ProjectedBelow(u: real, n: int, bound: real)
    requires n > 1 && Projected(u, n) <= bound
    ensures u * n as real <= bound * (n - 1) as real
  {
    var d := (n - 1) as real;
    Undivide(u * n as real, d);
    TimesMonotone(Projected(u, n), bound, d);
  }

  lemma TimesMonotone(a: real, b: real, n: real)
    requires a <= b && n >= 0.0
    ensures a * n <= b * n
    ensures a < b && n > 0.0 ==> a * n < b * n
  {
    assert b * n - a * n == (b - a) * n;
  }

  /** The percentages are those of the load, shared by n CPUs. */
  predicate Shares(p: Option<Percent>, n: nat, load: real) { p.Some? ==> p.value.usage * n as real == 100.0 * load }

  lemma SteadyShares(s: State, e: Env, load: real)
    requires |s.ids| > 0 && Steady(load, s.last, e.sample)
    ensures Shares(Percentages(s, e), |s.ids|, load)
  {
    if Percentages(s, e).Some? {
      UsageOfSteady(load, s.last, e.sample.value, |s.ids|);
    }
  }

  /** A verdict at n CPUs bounds the load: above what keeps n busy, or below what
      would keep n - 1 busy. */
  lemma VerdictBoundsLoad(c: Config, n: nat, p: Option<Percent>, load: real)
    requires Valid(c) && n > 0 && Shares(p, n, load)
    ensures Verdict(c, n, p) == M.Toward(M.Up) ==> c.up * n as real <= 100.0 * load
    ensures Verdict(c, n, p) == M.Toward(M.Down) ==> 100.0 * load <= c.down * (n - 1) as real
  {
    match Verdict(c, n, p) {
      case Toward(Up) => BusyBound(p.value.usage, n, c.up, 100.0 * load);
      case Toward(Down) => IdleBound(p.value.usage, n, c.down, 100.0 * load);
      case _ =>
    }
  }

  lemma BusyBound(u: real, n: int, bound: real, work: real)
    requires n > 0 && bound <= u && u * n as real == work
    ensures bound * n as real <= work
  {
    TimesMonotone(bound, u, n as real);
  }

  lemma IdleBound(u: real, n: int, bound: real, work: real)
    requires n > 1 && Projected(u, n) <= bound && u * n as real == work
    ensures work <= bound * (n - 1) as real
  {
    ProjectedBelow(u, n, bound);
  }

  /** How often the VM grew and shrank in a run, and how often a tick read up and down. */
  datatype Changes = Changes(grew: nat, shrank: nat, ups: nat, downs: nat)

  function One(b: bool): nat { if b then 1 else 0 }

  function Count(ch: Changes, n: nat, n': nat, r: M.Reading): Changes {
    Changes(ch.grew + One(n' > n), ch.shrank + One(n' < n), ch.ups + One(r == M.Toward(M.Up)),
            ch.downs + One(r == M.Toward(M.Down)))
  }

  ghost function ReadingOf(judge: Judge, s: State, e: Env): M.Reading {
    var s0 := Settle(s, e.settled); Evaluate(s0, e, judge(s0, e)).1
  }

  ghost function ChangesOf(c: Config, judge: Judge, s: State, es: seq<Env>): Changes {
    if es == [] then Changes(0, 0, 0, 0)
    else
      var before, t := es[..|es| - 1], Run(c, judge, s, es[..|es| - 1]);
      Count(ChangesOf(c, judge, s, before), |t.ids|, |Run(c, judge, s, es).ids|, ReadingOf(judge, t, es[|es| - 1]))
  }

  type Steadiness = (Option<Sample>, Option<Sample>) -> bool

  function AtLoad(load: real): Steadiness { (last: Option<Sample>, now: Option<Sample>) => Steady(load, last, now) }

  /** Every tick of the run sees the same load. */
  ghost predicate SteadyRun(c: Config, judge: Judge, s: State, es: seq<Env>, steady: Steadiness) {
    es == [] ||
    var before := es[..|es| - 1];
    SteadyRun(c, judge, s, before, steady) && steady(Run(c, judge, s, before).last, es[|es| - 1].sample)
  }

  /** Under the load, a judge says up only when there is enough work for n CPUs and
      down only when the work is light for n - 1. */
  ghost predicate Respects(judge: Judge, steady: Steadiness, enough: int -> bool, light: int -> bool) {
    forall s: State, e: Env :: |s.ids| > 0 && steady(s.last, e.sample) ==>
      (judge(s, e) == M.Toward(M.Up) ==> enough(|s.ids|)) && (judge(s, e) == M.Toward(M.Down) ==> light(|s.ids| - 1))
  }

  /** No work is both enough and light for k CPUs; enough for more is enough for fewer, and
      light for fewer is light for more. */
  ghost predicate Exclusive(enough: int -> bool, light: int -> bool) {
    && (forall k :: k >= 1 ==> !(enough(k) && light(k)))
    && (forall j, k :: 0 <= j <= k ==> (enough(k) ==> enough(j)) && (light(j) ==> light(k)))
  }

  /** What a run under constant load keeps: the ids have no gap; an unplug still to come is
      of the topmost CPU, and light work for the rest; readings up and down exclude each
      other, and bound the work. */
  ghost predicate OnCourse(c: Config, enough: int -> bool, light: int -> bool, ups: bool, downs: bool, s: State) {
    var n := |s.ids|;
    && s.ids == Below(n) && c.boot <= n <= c.max && !(ups && downs)
    && (s.pending != {} ==> s.pending == {n - 1} && n > c.boot && downs && light(n - 1))
    && (ups ==> enough(n - 1)) && (downs ==> light(n))
  }

  lemma SettleNothing(s: State, gone: set<nat>)
    requires s.pending * gone == {}
    ensures Settle(s, gone) == s
  {
    assert forall i :: i in s.pending ==> i !in s.pending * gone;
    assert s.pending - gone == s.pending;
  }

  lemma SettleTop(s: State, gone: set<nat>, n: nat)
    requires n > 0 && s.ids == Below(n) && s.pending == {n - 1} && s.pending * gone != {}
    ensures Settle(s, gone).ids == Below(n - 1) && Settle(s, gone).pending == {}
  {
    assert n - 1 in gone;
    assert Below(n) - {n - 1} == Below(n - 1);
  }

  /** A completion takes the topmost CPU, or nothing. */
  lemma SettleOnCourse(c: Config, enough: int -> bool, light: int -> bool, ups: bool, downs: bool, s: State,
                       gone: set<nat>)
    requires Valid(c) && OnCourse(c, enough, light, ups, downs, s)
    ensures var t := Settle(s, gone);
            && OnCourse(c, enough, light, ups, downs, t) && |t.ids| <= |s.ids|
            && (s.pending * gone == {} ==> t == s) && (!downs ==> s.pending == {})
  {
    if s.pending * gone == {} {
      SettleNothing(s, gone);
    } else {
      SettleTop(s, gone, |s.ids|);
    }
  }

  /** A reading at n CPUs fits what was read before. */
  lemma ReadOnCourse(c: Config, enough: int -> bool, light: int -> bool, ups: bool, downs: bool, s: State, r: M.Reading)
    requires Valid(c) && OnCourse(c, enough, light, ups, downs, s) && Exclusive(enough, light)
    requires (r == M.Toward(M.Up) ==> enough(|s.ids|)) && (r == M.Toward(M.Down) ==> light(|s.ids| - 1) && |s.ids| > 1)
    ensures OnCourse(c, enough, light, ups || r == M.Toward(M.Up), downs || r == M.Toward(M.Down), s)
  {
    var n := |s.ids|;
    assert n >= 1 && !(enough(n) && light(n));
    assert enough(n) ==> enough(n - 1);
    assert light(n - 1) ==> light(n);
    assert n > 1 ==> !(enough(n - 1) && light(n - 1));
  }

  lemma PlugOnCourse(c: Config, enough: int -> bool, light: int -> bool, s: State, e: Env)
    requires Valid(c) && OnCourse(c, enough, light, true, false, s) && enough(|s.ids|)
    ensures var t := ScaleUp(c, s, e).0;
            OnCourse(c, enough, light, true, false, t) && (|t.ids| == |s.ids| || |t.ids| == |s.ids| + 1)
  {
    var n := |s.ids|;
    ContiguousTargets(c, s.ids, n);
    assert Below(n) + {n} == Below(n + 1);
  }

  lemma UnplugOnCourse(c: Config, enough: int -> bool, light: int -> bool, s: State, e: Env)
    requires Valid(c) && OnCourse(c, enough, light, false, true, s)
    requires e.requery ==> light(|s.ids| - 1) && |s.ids| > c.boot
    ensures var t := ScaleDown(s, e).0;
            OnCourse(c, enough, light, false, true, t) && (|t.ids| == |s.ids| || |t.ids| == |s.ids| - 1)
  {
    var n := |s.ids|;
    ContiguousTargets(c, s.ids, n);
    assert Below(n) - {n - 1} == Below(n - 1);
    assert Pending(s.pending, n - 1, e) == {} || Pending(s.pending, n - 1, e) == {n - 1};
  }

  lemma ScaledOnCourse(c: Config, enough: int -> bool, light: int -> bool, ups: bool, downs: bool, s: State,
                       call: Call, e: Env)
    requires Valid(c) && OnCourse(c, enough, light, ups, downs, s)
    requires call == Plug ==> ups && enough(|s.ids|)
    requires call == Unplug ==> downs && (e.requery ==> light(|s.ids| - 1) && |s.ids| > c.boot)
    ensures var t := Scaled(c, s, call, e).0;
            && OnCourse(c, enough, light, ups, downs, t)
            && (|t.ids| == |s.ids| || (|t.ids| == |s.ids| + 1 && ups) || (|t.ids| == |s.ids| - 1 && downs))
  {
    match call
    case NoCall =>
    case Plug => PlugOnCourse(c, enough, light, s, e);
    case Unplug => UnplugOnCourse(c, enough, light, s, e);
  }

  /** If the tick unplugs, it acts on the CPUs its evaluation counted. */
  ghost predicate Current(c: Config, judge: Judge, s: State, e: Env) {
    var s0 := Settle(s, e.settled);
    var (s1, r) := Evaluate(s0, e, judge(s0, e));
    CallOf(c, s.monitor, r, e) == Unplug && e.requery ==> Settle(s1, e.midway).ids == s0.ids
  }

  ghost predicate AlwaysCurrent(c: Config, judge: Judge, s: State, es: seq<Env>) {
    es == [] || (AlwaysCurrent(c, judge, s, es[..|es| - 1])
                 && Current(c, judge, Run(c, judge, s, es[..|es| - 1]), es[|es| - 1]))
  }

  /** The accounts of a run: every change is in the direction read, and changes the size. */
  predicate Accounts(ch: Changes, n0: nat, n: nat) {
    && (ch.ups == 0 || ch.downs == 0)
    && (ch.grew > 0 ==> ch.ups > 0) && (ch.shrank > 0 ==> ch.downs > 0)
    && (if ch.downs == 0 then n == n0 + ch.grew else n + ch.shrank <= n0)
  }

  /** The size moves in the direction read, or not. */
  predicate Heads(ups: bool, downs: bool, n: nat, n': nat) {
    if downs then n' <= n else n' == n || (n' == n + 1 && ups)
  }

  /** The rest of a tick, after the evaluation of s. */
  lemma CallOnCourse(c: Config, enough: int -> bool, light: int -> bool, ups: bool, downs: bool, s: State, call: Call,
                     e: Env)
    requires Valid(c) && OnCourse(c, enough, light, ups, downs, s) && Exclusive(enough, light)
    requires call == Plug ==> ups && enough(|s.ids|)
    requires call == Unplug ==> downs && light(|s.ids| - 1) && |s.ids| > c.boot
    requires call == Unplug && e.requery ==> Settle(s, e.midway).ids == s.ids
    ensures var t := Scaled(c, Settle(s, e.midway), call, e).0;
            OnCourse(c, enough, light, ups, downs, t) && Heads(ups, downs, |s.ids|, |t.ids|)
  {
    SettleOnCourse(c, enough, light, ups, downs, s, e.midway);
    ScaledOnCourse(c, enough, light, ups, downs, Settle(s, e.midway), call, e);
  }

  /** The first part of a tick, up to its reading. */
  lemma EvaluationOnCourse(c: Config, judge: Judge, t: State, e: Env, steady: Steadiness,
                           enough: int -> bool, light: int -> bool, ups: bool, downs: bool)
    requires Valid(c) && SoundJudge(c, judge)
    requires steady(t.last, e.sample) && Respects(judge, steady, enough, light) && Exclusive(enough, light)
    requires OnCourse(c, enough, light, ups, downs, t)
    ensures var s0 := Settle(t, e.settled);
            var r := Evaluate(s0, e, judge(s0, e)).1;
            && OnCourse(c, enough, light, ups || r == M.Toward(M.Up), downs || r == M.Toward(M.Down), s0)
            && (r == M.Toward(M.Up) ==> enough(|s0.ids|))
            && (r == M.Toward(M.Down) ==> light(|s0.ids| - 1) && |s0.ids| > c.boot)
            && |s0.ids| <= |t.ids| && (!downs ==> s0 == t)
  {
    var s0 := Settle(t, e.settled);
    SettleOnCourse(c, enough, light, ups, downs, t, e.settled);
    assert Sound(c, |s0.ids|, judge(s0, e)) && s0.last == t.last;
    ReadOnCourse(c, enough, light, ups, downs, s0, Evaluate(s0, e, judge(s0, e)).1);
  }

  lemma TickOnCourse(c: Config, judge: Judge, t: State, e: Env, steady: Steadiness,
                     enough: int -> bool, light: int -> bool, ups: bool, downs: bool)
    requires Valid(c) && SoundJudge(c, judge) && Current(c, judge, t, e)
    requires steady(t.last, e.sample) && Respects(judge, steady, enough, light) && Exclusive(enough, light)
    requires OnCourse(c, enough, light, ups, downs, t)
    ensures var t' := Tick(c, judge, t, e);
            var r := ReadingOf(judge, t, e);
            var ups', downs' := ups || r == M.Toward(M.Up), downs || r == M.Toward(M.Down);
            OnCourse(c, enough, light, ups', downs', t') && Heads(ups', downs', |t.ids|, |t'.ids|)
  {
    var s0 := Settle(t, e.settled);
    var (s1, r) := Evaluate(s0, e, judge(s0, e));
    var ups', downs' := ups || r == M.Toward(M.Up), downs || r == M.Toward(M.Down);
    var call := CallOf(c, t.monitor, r, e);
    EvaluationOnCourse(c, judge, t, e, steady, enough, light, ups, downs);
    CallFollows(c, t.monitor, s0, e, judge(s0, e));
    SameCourse(c, enough, light, ups', downs', s0, s1);
    CallOnCourse(c, enough, light, ups', downs', s1, call, e);
    SameCourse(c, enough, light, ups', downs', Scaled(c, Settle(s1, e.midway), call, e).0, Tick(c, judge, t, e));
  }

  lemma SameCourse(c: Config, enough: int -> bool, light: int -> bool, ups: bool, downs: bool, s: State, t: State)
    requires OnCourse(c, enough, light, ups, downs, s) && t.ids == s.ids && t.pending == s.pending
    ensures OnCourse(c, enough, light, ups, downs, t)
  {
  }

  /** If no work is both enough and light, readings up and down exclude each other as long
      as every unplug acts on what was evaluated. */
  lemma {:induction false} StaysOnCourse(c: Config, judge: Judge, s: State, es: seq<Env>, steady: Steadiness,
                                         enough: int -> bool, light: int -> bool)
    requires Valid(c) && SoundJudge(c, judge) && Counted(c, s) && AlwaysCurrent(c, judge, s, es)
    requires SteadyRun(c, judge, s, es, steady) && Respects(judge, steady, enough, light) && Exclusive(enough, light)
    ensures var ch, t := ChangesOf(c, judge, s, es), Run(c, judge, s, es);
            OnCourse(c, enough, light, ch.ups > 0, ch.downs > 0, t) && Accounts(ch, |s.ids|, |t.ids|)
  {
    if es != [] {
      var n := |es| - 1;
      StaysOnCourse(c, judge, s, es[..n], steady, enough, light);
      var ch := ChangesOf(c, judge, s, es[..n]);
      TickOnCourse(c, judge, Run(c, judge, s, es[..n]), es[n], steady, enough, light, ch.ups > 0, ch.downs > 0);
    }
  }

  function Enough(c: Config, load: real): int -> bool { (k: int) => c.up * k as real <= 100.0 * load }

  function Light(c: Config, load: real): int -> bool { (k: int) => 100.0 * load <= c.down * k as real }

  lemma NotEnoughAndLight(c: Config, load: real, k: int)
    requires Valid(c) && k >= 1
    ensures !(Enough(c, load)(k) && Light(c, load)(k))
  {
    TimesMonotone(c.down, c.up, k as real);
    assert c.down * k as real < c.up * k as real;
  }

  lemma LoadIsExclusive(c: Config, load: real)
    requires Valid(c)
    ensures Exclusive(Enough(c, load), Light(c, load))
  {
    forall k | k >= 1
      ensures !(Enough(c, load)(k) && Light(c, load)(k))
    {
      NotEnoughAndLight(c, load, k);
    }
    forall j, k | 0 <= j <= k
      ensures (Enough(c, load)(k) ==> Enough(c, load)(j)) && (Light(c, load)(j) ==> Light(c, load)(k))
    {
      if Enough(c, load)(k) {
        EnoughForFewer(c, load, j, k);
      }
      if Light(c, load)(j) {
        LightForMore(c, load, j, k);
      }
    }
  }

  lemma EnoughForFewer(c: Config, load: real, j: int, k: int)
    requires Valid(c) && j <= k && Enough(c, load)(k)
    ensures Enough(c, load)(j)
  {
    MoreTimes(c.up, j, k);
  }

  lemma LightForMore(c: Config, load: real, j: int, k: int)
    requires Valid(c) && j <= k && Light(c, load)(j)
    ensures Light(c, load)(k)
  {
    MoreTimes(c.down, j, k);
  }

  lemma MoreTimes(a: real, j: int, k: int)
    requires a >= 0.0 && j <= k
    ensures a * j as real <= a * k as real
  {
    TimesMonotone(j as real, k as real, a);
    assert a * j as real == j as real * a && a * k as real == k as real * a;
  }

  lemma UsageRespects(c: Config, load: real)
    requires Valid(c)
    ensures Respects(ByUsage(c), AtLoad(load), Enough(c, load), Light(c, load))
  {
    forall s: State, e: Env | |s.ids| > 0 && AtLoad(load)(s.last, e.sample)
      ensures ByUsage(c)(s, e) == M.Toward(M.Up) ==> Enough(c, load)(|s.ids|)
      ensures ByUsage(c)(s, e) == M.Toward(M.Down) ==> Light(c, load)(|s.ids| - 1)
    {
      SteadyShares(s, e, load);
      VerdictBoundsLoad(c, |s.ids|, Percentages(s, e), load);
    }
  }

  /** Under a constant load, as long as no unplug acts on fewer CPUs than were evaluated, no
      run has both a reading to scale up and a reading to scale down, so neither both calls
      nor both changes, and the size changes at most maximum - boot times, however its run
      starts and however late unplugs take effect. */
  lemma ConstantLoadSettles(c: Config, s: State, es: seq<Env>, load: real)
    requires Valid(c) && Counted(c, s) && SteadyRun(c, ByUsage(c), s, es, AtLoad(load))
    requires AlwaysCurrent(c, ByUsage(c), s, es)
    ensures var ch := ChangesOf(c, ByUsage(c), s, es);
            && (ch.ups == 0 || ch.downs == 0) && (ch.grew == 0 || ch.shrank == 0)
            && ch.grew + ch.shrank <= c.max - c.boot
  {
    UsageIsSound(c);
    UsageRespects(c, load);
    LoadIsExclusive(c, load);
    StaysOnCourse(c, ByUsage(c), s, es, AtLoad(load), Enough(c, load), Light(c, load));
  }

  // ----- when a constant load is read both ways

  /** After a reading down, some tick finds fewer CPUs than the work is enough for. */
  ghost predicate ShrunkTooFar(c: Config, judge: Judge, s: State, es: seq<Env>, enough: int -> bool) {
    es != [] &&
    var before := es[..|es| - 1];
    || ShrunkTooFar(c, judge, s, before, enough)
    || (ChangesOf(c, judge, s, before).downs > 0
        && enough(|Settle(Run(c, judge, s, before), es[|es| - 1].settled).ids|))
  }

  /** The tick counts the CPUs and has percentages, unthrottled. */
  predicate Full(c: Config, s: State, e: Env) {
    var p := Percentages(Settle(s, e.settled), e);
    e.query && p.Some? && p.value.throttled < c.throttle
  }

  ghost predicate FullRun(c: Config, judge: Judge, s: State, es: seq<Env>) {
    es == [] || (FullRun(c, judge, s, es[..|es| - 1]) && Full(c, Run(c, judge, s, es[..|es| - 1]), es[|es| - 1]))
  }

  /** Every tick reads up exactly when the work is enough and there is room. */
  ghost predicate ReadsUp(c: Config, judge: Judge, s: State, es: seq<Env>, enough: int -> bool) {
    es == [] ||
    var before, e := es[..|es| - 1], es[|es| - 1];
    var t := Run(c, judge, s, before);
    && ReadsUp(c, judge, s, before, enough)
    && (ReadingOf(judge, t, e) == M.Toward(M.Up)
        <==> enough(|Settle(t, e.settled).ids|) && |Settle(t, e.settled).ids| < c.max)
  }

  lemma FullReadsUpIff(c: Config, s: State, e: Env, load: real)
    requires Valid(c) && Full(c, s, e) && Steady(load, s.last, e.sample) && |Settle(s, e.settled).ids| > 0
    ensures var n := |Settle(s, e.settled).ids|;
            ReadingOf(ByUsage(c), s, e) == M.Toward(M.Up) <==> Enough(c, load)(n) && n < c.max
  {
    var t := Settle(s, e.settled);
    var p := Percentages(t, e);
    SteadyShares(t, e, load);
    BusyIff(p.value.usage, |t.ids|, c.up, 100.0 * load);
    assert ByUsage(c)(t, e) == Verdict(c, |t.ids|, p);
  }

  lemma BusyIff(u: real, n: int, bound: real, work: real)
    requires n > 0 && u * n as real == work
    ensures bound <= u <==> bound * n as real <= work
  {
    if bound <= u {
      TimesMonotone(bound, u, n as real);
    } else {
      TimesMonotone(u, bound, n as real);
    }
  }

  lemma SettledSane(c: Config, s: State, gone: set<nat>)
    requires Sane(c, s)
    ensures 0 < |Settle(s, gone).ids| <= c.max
  {
    assert 0 in Settle(s, gone).ids;
    SubsetSize(Settle(s, gone).ids, Below(c.max));
  }

  lemma {:induction false} FullRunReadsUp(c: Config, s: State, es: seq<Env>, load: real)
    requires Valid(c) && Sane(c, s) && SteadyRun(c, ByUsage(c), s, es, AtLoad(load)) && FullRun(c, ByUsage(c), s, es)
    ensures ReadsUp(c, ByUsage(c), s, es, Enough(c, load))
  {
    if es != [] {
      var n := |es| - 1;
      FullRunReadsUp(c, s, es[..n], load);
      AlwaysSane(c, ByUsage(c), s, es[..n]);
      SettledSane(c, Run(c, ByUsage(c), s, es[..n]), es[n].settled);
      FullReadsUpIff(c, Run(c, ByUsage(c), s, es[..n]), es[n], load);
    }
  }

  /** What a reading says of the work, at whatever size it is made. */
  lemma ReadingMeans(c: Config, judge: Judge, t: State, e: Env, steady: Steadiness, enough: int -> bool,
                     light: int -> bool)
    requires Valid(c) && SoundJudge(c, judge) && Sane(c, t) && steady(t.last, e.sample)
    requires Respects(judge, steady, enough, light)
    ensures var r, m := ReadingOf(judge, t, e), |Settle(t, e.settled).ids|;
            && 0 < m <= c.max && (r == M.Toward(M.Up) ==> enough(m))
            && (r == M.Toward(M.Down) ==> light(m - 1) && m > 1)
  {
    var s0 := Settle(t, e.settled);
    SettledSane(c, t, e.settled);
    assert Sound(c, |s0.ids|, judge(s0, e)) && s0.last == t.last;
  }

  lemma {:induction false} DownsAreLight(c: Config, judge: Judge, s: State, es: seq<Env>, steady: Steadiness,
                                         enough: int -> bool, light: int -> bool)
    requires Valid(c) && SoundJudge(c, judge) && Sane(c, s)
    requires SteadyRun(c, judge, s, es, steady) && Respects(judge, steady, enough, light) && Exclusive(enough, light)
    ensures ChangesOf(c, judge, s, es).downs > 0 ==> light(c.max)
  {
    if es != [] {
      var n := |es| - 1;
      DownsAreLight(c, judge, s, es[..n], steady, enough, light);
      AlwaysSane(c, judge, s, es[..n]);
      ReadingMeans(c, judge, Run(c, judge, s, es[..n]), es[n], steady, enough, light);
      var m := |Settle(Run(c, judge, s, es[..n]), es[n].settled).ids|;
      assert 0 <= m - 1 <= c.max && (light(m - 1) ==> light(c.max));
    }
  }

  lemma {:induction false} NoDownsIsCurrent(c: Config, judge: Judge, s: State, es: seq<Env>)
    requires ChangesOf(c, judge, s, es).downs == 0
    ensures AlwaysCurrent(c, judge, s, es)
  {
    if es != [] {
      var n := |es| - 1;
      NoDownsIsCurrent(c, judge, s, es[..n]);
      var t := Run(c, judge, s, es[..n]);
      CallFollows(c, t.monitor, Settle(t, es[n].settled), es[n], judge(Settle(t, es[n].settled), es[n]));
    }
  }

  /** A run that has only read up does not read down. */
  lemma UpsStayUps(c: Config, judge: Judge, s: State, es: seq<Env>, e: Env, steady: Steadiness,
                   enough: int -> bool, light: int -> bool)
    requires Valid(c) && SoundJudge(c, judge) && Counted(c, s)
    requires SteadyRun(c, judge, s, es, steady) && Respects(judge, steady, enough, light) && Exclusive(enough, light)
    requires steady(Run(c, judge, s, es).last, e.sample)
    requires ChangesOf(c, judge, s, es).ups > 0 && ChangesOf(c, judge, s, es).downs == 0
    ensures ReadingOf(judge, Run(c, judge, s, es), e) != M.Toward(M.Down)
  {
    NoDownsIsCurrent(c, judge, s, es);
    StaysOnCourse(c, judge, s, es, steady, enough, light);
    EvaluationOnCourse(c, judge, Run(c, judge, s, es), e, steady, enough, light, true, false);
  }

  lemma {:induction false} BothReadIff(c: Config, judge: Judge, s: State, es: seq<Env>, steady: Steadiness,
                                       enough: int -> bool, light: int -> bool)
    requires Valid(c) && SoundJudge(c, judge) && Counted(c, s) && ReadsUp(c, judge, s, es, enough)
    requires SteadyRun(c, judge, s, es, steady) && Respects(judge, steady, enough, light) && Exclusive(enough, light)
    ensures var ch := ChangesOf(c, judge, s, es);
            ch.ups > 0 && ch.downs > 0 <==> ShrunkTooFar(c, judge, s, es, enough)
  {
    if es != [] {
      var n := |es| - 1;
      var before, e := es[..n], es[n];
      BothReadIff(c, judge, s, before, steady, enough, light);
      CountedIsSane(c, s);
      AlwaysSane(c, judge, s, before);
      var t, ch := Run(c, judge, s, before), ChangesOf(c, judge, s, before);
      ReadingMeans(c, judge, t, e, steady, enough, light);
      DownsAreLight(c, judge, s, before, steady, enough, light);
      assert !(enough(c.max) && light(c.max));
      if ch.ups > 0 && ch.downs == 0 {
        UpsStayUps(c, judge, s, before, e, steady, enough, light);
      }
    }
  }

  lemma CountedIsSane(c: Config, s: State)
    requires Valid(c) && Counted(c, s)
    ensures Sane(c, s)
  {
    assert 0 in Below(|s.ids|);
  }

  /** It takes an unplug that acts on fewer CPUs than were evaluated to shrink the VM so. */
  lemma {:induction false} ShrunkNeedsStale(c: Config, judge: Judge, s: State, es: seq<Env>, steady: Steadiness,
                                            enough: int -> bool, light: int -> bool)
    requires Valid(c) && SoundJudge(c, judge) && Counted(c, s) && AlwaysCurrent(c, judge, s, es)
    requires SteadyRun(c, judge, s, es, steady) && Respects(judge, steady, enough, light) && Exclusive(enough, light)
    ensures !ShrunkTooFar(c, judge, s, es, enough)
  {
    if es != [] {
      var n := |es| - 1;
      ShrunkNeedsStale(c, judge, s, es[..n], steady, enough, light);
      StaysOnCourse(c, judge, s, es[..n], steady, enough, light);
      var t, ch := Run(c, judge, s, es[..n]), ChangesOf(c, judge, s, es[..n]);
      SettleOnCourse(c, enough, light, ch.ups > 0, ch.downs > 0, t, es[n].settled);
      var m := |Settle(t, es[n].settled).ids|;
      assert !(enough(m) && light(m));
    }
  }

  /** In a run of full readings under a constant load, one of the two directions is never
      read exactly when the VM is never shrunk, after a reading down, to fewer CPUs than the
      load keeps busy. That in turn takes an unplug that acts on fewer CPUs than were
      evaluated. */
  lemma ConstantLoadSettlesIff(c: Config, s: State, es: seq<Env>, load: real)
    requires Valid(c) && Counted(c, s) && SteadyRun(c, ByUsage(c), s, es, AtLoad(load)) && FullRun(c, ByUsage(c), s, es)
    ensures var ch := ChangesOf(c, ByUsage(c), s, es);
            (ch.ups == 0 || ch.downs == 0) <==> !ShrunkTooFar(c, ByUsage(c), s, es, Enough(c, load))
    ensures ShrunkTooFar(c, ByUsage(c), s, es, Enough(c, load)) ==> !AlwaysCurrent(c, ByUsage(c), s, es)
  {
    UsageIsSound(c);
    UsageRespects(c, load);
    LoadIsExclusive(c, load);
    CountedIsSane(c, s);
    FullRunReadsUp(c, s, es, load);
    BothReadIff(c, ByUsage(c), s, es, AtLoad(load), Enough(c, load), Light(c, load));
    if AlwaysCurrent(c, ByUsage(c), s, es) {
      ShrunkNeedsStale(c, ByUsage(c), s, es, AtLoad(load), Enough(c, load), Light(c, load));
    }
  }

  // ----- late unplugs

  const EAGER := M.Config(M.Limits(0, 1, true), M.Limits(0, 1, true))

  function Example(boot: nat): Config { Config(boot, 4, 80.0, 50.0, 5.0, true, EAGER) }

  /** A tick at `ms` milliseconds whose calls all answer. */
  function At(ms: nat, usage: nat, settled: set<nat>, midway: set<nat>, effect: bool): Env {
    Env(settled, true, Some(Sample(ms * 1_000_000, usage, 0)), midway, true, true, effect, true, ms, ms)
  }

  function StateAt(ids: set<nat>, pending: set<nat>, ms: nat, usage: nat, m: M.State): State {
    State(ids, pending, |ids|, Some(Sample(ms * 1_000_000, usage, 0)), m)
  }

  lemma IdleIsDown(boot: nat, n: nat, ms: nat)
    requires 1 <= boot < n
    ensures Verdict(Example(boot), n, Usage(Some(Sample(ms * 1_000_000, 0, 0)), Sample((ms + 1) * 1_000_000, 0, 0), n))
            == M.Toward(M.Down)
  {
    assert Share(0, 1000, n) == 0.0 && Projected(0.0, n) == 0.0;
  }

  lemma BusyIsUp(boot: nat, ms: nat)
    ensures Verdict(Example(boot), 2,
                    Usage(Some(Sample(ms * 1_000_000, 0, 0)), Sample((ms + 1) * 1_000_000, 2000, 0), 2))
            == M.Toward(M.Up)
  {
    assert Share(2000, 1000, 2) == 100.0;
  }

  /** A tick that judges the load light asks to unplug the highest CPU. */
  lemma DownTick(boot: nat, s: State, e: Env, ms: nat, usage: nat, top: nat)
    requires 1 <= boot && s.pending * e.settled == {} && e == At(ms, usage, e.settled, e.midway, e.effect)
    requires Verdict(Example(boot), |s.ids|, Usage(s.last, e.sample.value, |s.ids|)) == M.Toward(M.Down)
    requires s.monitor.down.last.None? || s.monitor.down.last.value < ms
    requires Highest(s.ids - (s.pending * e.midway)) == Some(top)
    ensures var t := Tick(Example(boot), ByUsage(Example(boot)), s, e);
            && t.ids == s.ids - (s.pending * e.midway) - (if e.effect then {top} else {})
            && t.pending == s.pending - e.midway - (if e.effect then {top} else {}) + (if e.effect then {} else {top})
            && t.last == e.sample && t.monitor.down.last == Some(ms) && t.monitor.up.last == s.monitor.up.last
    ensures ReadingOf(ByUsage(Example(boot)), s, e) == M.Toward(M.Down)
  {
    var c := Example(boot);
    assert Settle(s, e.settled) == s by {
      assert forall i :: i in s.pending ==> i !in s.pending * e.settled;
      assert s.pending - e.settled == s.pending;
    }
    assert ByUsage(c)(s, e) == M.Toward(M.Down);
    assert CallOf(c, s.monitor, M.Toward(M.Down), e) == Unplug;
  }

  lemma IdleTick(boot: nat, s: State, e: Env, ms: nat, top: nat)
    requires 1 <= boot && s.pending * e.settled == {} && e == At(ms + 1, 0, e.settled, e.midway, e.effect)
    requires s.last == Some(Sample(ms * 1_000_000, 0, 0)) && |s.ids| > boot
    requires s.monitor.down.last.None? || s.monitor.down.last.value <= ms
    requires Highest(s.ids - (s.pending * e.midway)) == Some(top)
    ensures var t := Tick(Example(boot), ByUsage(Example(boot)), s, e);
            && t.ids == s.ids - (s.pending * e.midway) - (if e.effect then {top} else {})
            && t.pending == s.pending - e.midway - (if e.effect then {top} else {}) + (if e.effect then {} else {top})
            && t.last == e.sample && t.monitor.down.last == Some(ms + 1) && t.monitor.up.last == s.monitor.up.last
  {
    IdleIsDown(boot, |s.ids|, ms);
    DownTick(boot, s, e, ms + 1, 0, top);
  }

  lemma SmallSets()
    ensures Below(2) == {0, 1} && Below(3) == {0, 1, 2} && |{0, 1, 2}| == 3 && |{0, 1}| == 2
  {
    assert Below(1) == {0} && Below(2) == {0, 1};
  }

  lemma FirstUnplugLingers(s: State, e: Env)
    requires s.ids == {0, 1, 2} && s.pending == {} && s.last == Some(Sample(0, 0, 0)) && s.monitor == M.INITIAL
    requires e == At(1, 0, {}, {}, false)
    ensures var t := Tick(Example(2), ByUsage(Example(2)), s, e);
            && t.ids == {0, 1, 2} && t.pending == {2} && t.last == Some(Sample(1_000_000, 0, 0))
            && t.monitor.down.last == Some(1)
  {
    SmallSets();
    ContiguousTargets(Example(2), s.ids, 3);
    assert s.ids - (s.pending * e.midway) == s.ids;
    IdleTick(2, s, e, 0, 2);
  }

  lemma SecondUnplugTakesBootCpu(t: State, e: Env)
    requires t.ids == {0, 1, 2} && t.pending == {2} && t.last == Some(Sample(1_000_000, 0, 0))
    requires t.monitor.down.last == Some(1)
    requires e == At(2, 0, {}, {2}, true)
    ensures Tick(Example(2), ByUsage(Example(2)), t, e).ids == {0}
  {
    SmallSets();
    assert t.ids - (t.pending * e.midway) == {0, 1};
    ContiguousTargets(Example(2), {0, 1}, 2);
    IdleTick(2, t, e, 1, 1);
  }

  /** An unplug that completes between a tick's evaluation and its scale-down makes
      the scale-down take a CPU the VM booted with. */
  lemma MidwayUnplugTakesBootCpu() returns (c: Config, s: State, es: seq<Env>)
    ensures Valid(c) && c.boot == 2 && Counted(c, s) && Run(c, ByUsage(c), s, es).ids == {0}
  {
    c, s := Example(2), StateAt({0, 1, 2}, {}, 0, 0, M.INITIAL);
    es := [At(1, 0, {}, {}, false), At(2, 0, {}, {2}, true)];
    SmallSets();
    FirstUnplugLingers(s, es[0]);
    SecondUnplugTakesBootCpu(Tick(c, ByUsage(c), s, es[0]), es[1]);
    TwoTicks(c, ByUsage(c), s, es[0], es[1]);
    assert [es[0], es[1]] == es;
  }

  /** One CPU's worth of work: light for two of three CPUs, and too much for one. */
  lemma OneCpuOfWork(ms: nat)
    ensures var last, now := Sample(ms * 1_000_000, ms * 1000, 0), Sample((ms + 1) * 1_000_000, (ms + 1) * 1000, 0);
            && Verdict(Example(1), 3, Usage(Some(last), now, 3)) == M.Toward(M.Down)
            && Verdict(Example(1), 1, Usage(Some(last), now, 1)) == M.Toward(M.Up)
            && Steady(1.0, Some(last), Some(now))
  {
    assert Share(1000, 1000, 1) == 100.0 && Share(0, 1000, 1) == 0.0;
    assert Share(1000, 1000, 3) * 3.0 == 100.0;
    assert Projected(Share(1000, 1000, 3), 3) == 50.0;
  }

  lemma WorkTick(s: State, e: Env, ms: nat, top: nat)
    requires s.pending * e.settled == {} && e == At(ms + 1, (ms + 1) * 1000, e.settled, e.midway, e.effect)
    requires |s.ids| == 3
    requires s.last == Some(Sample(ms * 1_000_000, ms * 1000, 0))
    requires s.monitor.down.last.None? || s.monitor.down.last.value <= ms
    requires Highest(s.ids - (s.pending * e.midway)) == Some(top)
    ensures var t := Tick(Example(1), ByUsage(Example(1)), s, e);
            && t.ids == s.ids - (s.pending * e.midway) - (if e.effect then {top} else {})
            && t.pending == s.pending - e.midway - (if e.effect then {top} else {}) + (if e.effect then {} else {top})
            && t.last == e.sample && t.monitor.down.last == Some(ms + 1)
    ensures ReadingOf(ByUsage(Example(1)), s, e) == M.Toward(M.Down) && Steady(1.0, s.last, e.sample)
  {
    OneCpuOfWork(ms);
    DownTick(1, s, e, ms + 1, (ms + 1) * 1000, top);
  }

  lemma WorkLingers(s: State, e: Env)
    requires s == StateAt({0, 1, 2}, {}, 0, 0, M.INITIAL) && e == At(1, 1000, {}, {}, false)
    ensures var t := Tick(Example(1), ByUsage(Example(1)), s, e);
            t.ids == {0, 1, 2} && t.pending == {2} && t.last == e.sample && t.monitor.down.last == Some(1)
    ensures ReadingOf(ByUsage(Example(1)), s, e) == M.Toward(M.Down) && Steady(1.0, s.last, e.sample)
  {
    SmallSets();
    ContiguousTargets(Example(1), s.ids, 3);
    assert s.ids - (s.pending * e.midway) == s.ids;
    WorkTick(s, e, 0, 2);
  }

  lemma WorkOvershoots(t: State, e: Env)
    requires t.ids == {0, 1, 2} && t.pending == {2} && t.last == Some(Sample(1_000_000, 1000, 0))
    requires t.monitor.down.last == Some(1)
    requires e == At(2, 2000, {}, {2}, true)
    ensures var u := Tick(Example(1), ByUsage(Example(1)), t, e); u.ids == {0} && u.last == e.sample
    ensures Steady(1.0, t.last, e.sample)
  {
    SmallSets();
    assert t.ids - (t.pending * e.midway) == {0, 1};
    ContiguousTargets(Example(1), {0, 1}, 2);
    WorkTick(t, e, 1, 1);
  }

  lemma WorkReverses(u: State, e: Env)
    requires u.ids == {0} && u.last == Some(Sample(2_000_000, 2000, 0)) && e == At(3, 3000, {}, {}, true)
    ensures ReadingOf(ByUsage(Example(1)), u, e) == M.Toward(M.Up) && Steady(1.0, u.last, e.sample)
  {
    OneCpuOfWork(2);
    var s0 := Settle(u, e.settled);
    assert s0.ids == {0} && |s0.ids| == 1 && s0.last == u.last;
    assert ByUsage(Example(1))(s0, e) == M.Toward(M.Up);
  }

  lemma ThreeReadings(c: Config, judge: Judge, s: State, e0: Env, e1: Env, e2: Env, steady: Steadiness)
    requires var t := Tick(c, judge, s, e0);
             var u := Tick(c, judge, t, e1);
             && steady(s.last, e0.sample) && steady(t.last, e1.sample) && steady(u.last, e2.sample)
             && ReadingOf(judge, s, e0) == M.Toward(M.Down) && ReadingOf(judge, u, e2) == M.Toward(M.Up)
    ensures SteadyRun(c, judge, s, [e0, e1, e2], steady)
    ensures var ch := ChangesOf(c, judge, s, [e0, e1, e2]); ch.ups > 0 && ch.downs > 0
  {
    TwoTicks(c, judge, s, e0, e1);
    OneMoreTick(c, judge, s, [], e0);
    assert [e0, e1, e2][..2] == [e0, e1] && [e0, e1][..1] == [e0] && [e0][..0] == [] && [] + [e0] == [e0];
    assert SteadyRun(c, judge, s, [e0], steady) && ChangesOf(c, judge, s, [e0]).downs > 0;
    assert SteadyRun(c, judge, s, [e0, e1], steady) && ChangesOf(c, judge, s, [e0, e1]).downs > 0;
  }

  /** Under a constant load an unplug that completes between a tick's evaluation and its
      scale-down makes the VM shrink by one CPU too many, and then be read up. */
  lemma MidwayUnplugReverses() returns (c: Config, s: State, es: seq<Env>)
    ensures Valid(c) && Counted(c, s) && SteadyRun(c, ByUsage(c), s, es, AtLoad(1.0))
    ensures var ch := ChangesOf(c, ByUsage(c), s, es); ch.ups > 0 && ch.downs > 0
  {
    c, s := Example(1), StateAt({0, 1, 2}, {}, 0, 0, M.INITIAL);
    es := [At(1, 1000, {}, {}, false), At(2, 2000, {}, {2}, true), At(3, 3000, {}, {}, true)];
    SmallSets();
    var t := Tick(c, ByUsage(c), s, es[0]);
    WorkLingers(s, es[0]);
    WorkOvershoots(t, es[1]);
    WorkReverses(Tick(c, ByUsage(c), t, es[1]), es[2]);
    ThreeReadings(c, ByUsage(c), s, es[0], es[1], es[2], AtLoad(1.0));
    assert [es[0], es[1], es[2]] == es;
  }

  lemma OneMoreTick(c: Config, judge: Judge, s: State, es: seq<Env>, e: Env)
    ensures Run(c, judge, s, es + [e]) == Tick(c, judge, Run(c, judge, s, es), e)
  {
    assert (es + [e])[..|es|] == es;
  }

  lemma BusyAfterLinger(t: State, e: Env)
    requires t.ids == {0, 1} && t.pending == {1} && t.last == Some(Sample(1_000_000, 0, 0)) && t.monitor.up.last == None
    requires e == At(2, 2000, {}, {}, true)
    ensures var u := Tick(Example(1), ByUsage(Example(1)), t, e); u.ids == {0, 1, 2} && u.pending == {1}
  {
    var c := Example(1);
    SmallSets();
    BusyIsUp(1, 1);
    assert Settle(t, e.settled) == t && Settle(t, e.midway) == t;
    assert ByUsage(c)(t, e) == M.Toward(M.Up);
    assert CallOf(c, t.monitor, M.Toward(M.Up), e) == Plug;
    ContiguousTargets(c, t.ids, 2);
  }

  lemma OnlyUnplugLingers(s: State, e: Env)
    requires s.ids == {0, 1} && s.pending == {} && s.last == Some(Sample(0, 0, 0)) && s.monitor == M.INITIAL
    requires e == At(1, 0, {}, {}, false)
    ensures var t := Tick(Example(1), ByUsage(Example(1)), s, e);
            t.ids == {0, 1} && t.pending == {1} && t.last == Some(Sample(1_000_000, 0, 0)) && t.monitor.up.last == None
  {
    SmallSets();
    ContiguousTargets(Example(1), s.ids, 2);
    assert s.ids - (s.pending * e.midway) == s.ids;
    IdleTick(1, s, e, 0, 1);
  }

  lemma ThreeTicks(c: Config, judge: Judge, s: State, e0: Env, e1: Env, e2: Env)
    ensures Run(c, judge, s, [e0, e1, e2]) == Tick(c, judge, Tick(c, judge, Tick(c, judge, s, e0), e1), e2)
  {
    TwoTicks(c, judge, s, e0, e1);
    OneMoreTick(c, judge, s, [e0, e1], e2);
    assert [e0, e1] + [e2] == [e0, e1, e2];
  }

  lemma TwoTicks(c: Config, judge: Judge, s: State, e0: Env, e1: Env)
    ensures Run(c, judge, s, [e0, e1]) == Tick(c, judge, Tick(c, judge, s, e0), e1)
  {
    OneMoreTick(c, judge, s, [], e0);
    OneMoreTick(c, judge, s, [e0], e1);
    assert [] + [e0] == [e0] && [e0] + [e1] == [e0, e1];
  }

  lemma GapAfter(s: State, e0: Env, e1: Env, e2: Env)
    requires s.ids == {0, 1} && s.pending == {} && s.last == Some(Sample(0, 0, 0)) && s.monitor == M.INITIAL
    requires e0 == At(1, 0, {}, {}, false) && e1 == At(2, 2000, {}, {}, true)
    requires e2.settled == {1} && !e2.query && e2.midway == {}
    ensures Run(Example(1), ByUsage(Example(1)), s, [e0, e1, e2]).ids == {0, 2}
  {
    var c, judge := Example(1), ByUsage(Example(1));
    OnlyUnplugLingers(s, e0);
    var t := Tick(c, judge, s, e0);
    BusyAfterLinger(t, e1);
    UnreadableTick(c, judge, Tick(c, judge, t, e1), e2);
    ThreeTicks(c, judge, s, e0, e1, e2);
  }

  /** An unplug that completes after a later plug leaves a gap in the ids. */
  lemma LateUnplugLeavesGap() returns (c: Config, s: State, es: seq<Env>)
    ensures Valid(c) && Counted(c, s) && Run(c, ByUsage(c), s, es).ids == {0, 2}
  {
    c, s := Example(1), StateAt({0, 1}, {}, 0, 0, M.INITIAL);
    var e1 := At(2, 2000, {}, {}, true);
    es := [At(1, 0, {}, {}, false), e1, e1.(settled := {1}, query := false)];
    SmallSets();
    GapAfter(s, es[0], es[1], es[2]);
    assert [es[0], es[1], es[2]] == es;
  }

  lemma UnreadableTick(c: Config, judge: Judge, s: State, e: Env)
    requires !e.query && e.midway == {}
    ensures Tick(c, judge, s, e).ids == s.ids - (s.pending * e.settled)
  {
  }
}
