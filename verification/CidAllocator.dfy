/** Vsock context ids handed out through lock files: many processes probe, lease,
    release and crash in any order. */
module CidAllocator {
  import opened Wrappers

  /** The range ends below the largest 32-bit value, so the scan terminates. */
  datatype Config = Config(min: nat, max: nat, cooldown: int)

  predicate Valid(c: Config) { c.max < 0xFFFF_FFFF }

  /** A lock file's contents; an empty or damaged file has neither time. */
  datatype Meta = Meta(allocatedAt: Option<int>, releasedAt: Option<int>)

  const UNUSED := Meta(None, None)

  /** The time the cooldown counts from. */
  function Stamp(m: Meta): Option<int> { if m.releasedAt.Some? then m.releasedAt else m.allocatedAt }

  predicate CoolingDown(now: int, m: Meta, cooldown: int) {
    cooldown > 0 && Stamp(m).Some? && now - Stamp(m).value < cooldown
  }

  /** What one probe of a file meets: it cannot be opened, another lease holds it, its
      contents, a QEMU process using the id, a write that fails. */
  datatype Probe = Probe(opens: bool, held: bool, meta: Meta, inUse: bool, writes: bool)

  predicate Passes(c: Config, now: int, p: Probe) {
    p.opens && !p.held && !CoolingDown(now, p.meta, c.cooldown) && !p.inUse && p.writes
  }

  /** The scan of one call, given what each probe meets. */
  method Allocate(c: Config, now: int, probe: nat -> Probe) returns (r: Option<nat>)
    requires Valid(c)
    ensures r.Some? ==> c.min <= r.value <= c.max && Passes(c, now, probe(r.value))
                        && forall cid :: c.min <= cid < r.value ==> !Passes(c, now, probe(cid))
    ensures r.None? <==> forall cid :: c.min <= cid <= c.max ==> !Passes(c, now, probe(cid))
  {
    var cid := c.min;
    while cid <= c.max
      invariant c.min <= cid && (cid <= c.max + 1 || cid == c.min)
      invariant forall i :: c.min <= i < cid ==> !Passes(c, now, probe(i))
    {
      var p := probe(cid);
      if p.opens && !p.held && !CoolingDown(now, p.meta, c.cooldown) && !p.inUse && p.writes {
        return Some(cid);
      }
      cid := cid + 1;
    }
    r := None;
  }

  // ----- many processes

  /** Where a call is: before reading the clock, about to probe, holding a lock it has
      not judged, leasing, about to unlock a released lease, or gone. */
  datatype Pc = Idle | Probing(now: int, cid: nat) | Locked(now: int, cid: nat) | Leasing(cid: nat)
              | Unlocking(cid: nat) | Failed(now: int) | Gone

  datatype State = State(clock: int, locks: map<nat, nat>, meta: map<nat, Meta>, calls: map<nat, Pc>)

  datatype Step = Advance(clock: int) | Arrive(t: nat) | Begin(t: nat) | TryLock(t: nat, opens: bool)
                | Judge(t: nat, inUse: bool) | Release(t: nat) | Unlock(t: nat) | Crash(t: nat)

  function MetaOf(s: State, cid: nat): Meta { if cid in s.meta then s.meta[cid] else UNUSED }

  predicate Enabled(c: Config, s: State, st: Step) {
    match st
    case Advance(clock) => s.clock <= clock
    case Arrive(t) => t !in s.calls
    case Begin(t) => t in s.calls && s.calls[t].Idle?
    case TryLock(t, _) => t in s.calls && s.calls[t].Probing?
    case Judge(t, _) => t in s.calls && s.calls[t].Locked?
    case Release(t) => t in s.calls && s.calls[t].Leasing?
    case Unlock(t) => t in s.calls && s.calls[t].Unlocking?
    case Crash(t) => t in s.calls
  }

  /** The place after a probe that failed. */
  function After(c: Config, now: int, cid: nat): Pc { if cid < c.max then Probing(now, cid + 1) else Failed(now) }

  function Holds(pc: Pc): Option<nat> {
    match pc
    case Locked(_, cid) => Some(cid)
    case Leasing(cid) => Some(cid)
    case Unlocking(cid) => Some(cid)
    case _ => None
  }

  function Apply(c: Config, s: State, st: Step): State
    requires Enabled(c, s, st)
  {
    match st
    case Advance(clock) => s.(clock := clock)
    case Arrive(t) => s.(calls := s.calls[t := Idle])
    case Begin(t) => s.(calls := s.calls[t := if c.min <= c.max then Probing(s.clock, c.min) else Failed(s.clock)])
    case TryLock(t, opens) =>
      var Probing(now, cid) := s.calls[t];
      if opens && cid !in s.locks then s.(locks := s.locks[cid := t], calls := s.calls[t := Locked(now, cid)])
      else s.(calls := s.calls[t := After(c, now, cid)])
    case Judge(t, inUse) =>
      var Locked(now, cid) := s.calls[t];
      if CoolingDown(now, MetaOf(s, cid), c.cooldown) || inUse
      then s.(locks := s.locks - {cid}, calls := s.calls[t := After(c, now, cid)])
      else s.(meta := s.meta[cid := Meta(Some(now), None)], calls := s.calls[t := Leasing(cid)])
    case Release(t) =>
      var cid := s.calls[t].cid;
      var m := MetaOf(s, cid);
      s.(meta := s.meta[cid := Meta(if m.allocatedAt.None? then Some(s.clock) else m.allocatedAt, Some(s.clock))],
         calls := s.calls[t := Unlocking(cid)])
    case Unlock(t) => s.(locks := s.locks - {s.calls[t].cid}, calls := s.calls[t := Gone])
    case Crash(t) =>
      s.(locks := if Holds(s.calls[t]).Some? then s.locks - {Holds(s.calls[t]).value} else s.locks,
         calls := s.calls[t := Gone])
  }

  ghost predicate Execution(c: Config, trace: seq<State>, steps: seq<Step>) {
    && |trace| == |steps| + 1
    && trace[0].locks == map[] && trace[0].calls == map[] && trace[0].meta == map[]
    && forall i :: 0 <= i < |steps| ==> Enabled(c, trace[i], steps[i]) && trace[i + 1] == Apply(c, trace[i], steps[i])
  }

  // ----- who holds what

  /** A call holds exactly the locks its place says, within the range, and captured its
      time in the past. */
  ghost predicate CallOk(c: Config, locks: map<nat, nat>, clock: int, t: nat, pc: Pc) {
    && (Holds(pc).Some? ==>
          Holds(pc).value in locks && locks[Holds(pc).value] == t && c.min <= Holds(pc).value <= c.max)
    && (pc.Probing? ==> c.min <= pc.cid <= c.max && pc.now <= clock)
    && (pc.Locked? ==> pc.now <= clock)
  }

  ghost predicate CallsOk(c: Config, s: State) {
    forall t :: t in s.calls ==> CallOk(c, s.locks, s.clock, t, s.calls[t])
  }

  ghost predicate LocksOk(s: State) {
    forall cid :: cid in s.locks ==> s.locks[cid] in s.calls && Holds(s.calls[s.locks[cid]]) == Some(cid)
  }

  ghost predicate StampsOk(s: State) {
    forall cid :: cid in s.meta ==> Stamp(s.meta[cid]).Some? && Stamp(s.meta[cid]).value <= s.clock
  }

  ghost predicate Inv(c: Config, s: State) { CallsOk(c, s) && LocksOk(s) && StampsOk(s) }

  /** A step of call t leaves the locks of other calls alone. */
  ghost predicate Framed(s: State, s': State, t: nat, pc: Pc) {
    && s'.clock == s.clock && s'.calls == s.calls[t := pc]
    && (forall cid :: cid in s.locks && s.locks[cid] != t ==> cid in s'.locks && s'.locks[cid] == s.locks[cid])
    && (forall cid :: cid in s'.locks && (cid !in s.locks || s.locks[cid] == t) ==>
          s'.locks[cid] == t && Holds(pc) == Some(cid))
  }

  lemma FramedKeeps(c: Config, s: State, s': State, t: nat, pc: Pc)
    requires CallsOk(c, s) && LocksOk(s) && Framed(s, s', t, pc) && CallOk(c, s'.locks, s'.clock, t, pc)
    ensures CallsOk(c, s') && LocksOk(s')
  {
    forall u | u in s'.calls
      ensures CallOk(c, s'.locks, s'.clock, u, s'.calls[u])
    {
      if u != t {
        assert CallOk(c, s.locks, s.clock, u, s.calls[u]);
      }
    }
  }

  lemma MoveStep(c: Config, s: State, st: Step)
    requires Valid(c) && Inv(c, s) && Enabled(c, s, st) && (st.Begin? || st.TryLock? || st.Arrive?)
    ensures Inv(c, Apply(c, s, st))
  {
    var t, s' := st.t, Apply(c, s, st);
    assert t in s.calls ==> CallOk(c, s.locks, s.clock, t, s.calls[t]);
    FramedKeeps(c, s, s', t, s'.calls[t]);
  }

  lemma FreeStep(c: Config, s: State, st: Step)
    requires Valid(c) && Inv(c, s) && Enabled(c, s, st) && (st.Unlock? || st.Crash?)
    ensures Inv(c, Apply(c, s, st))
  {
    var t, s' := st.t, Apply(c, s, st);
    assert CallOk(c, s.locks, s.clock, t, s.calls[t]);
    FramedKeeps(c, s, s', t, Gone);
  }

  lemma JudgeStep(c: Config, s: State, st: Step)
    requires Valid(c) && Inv(c, s) && Enabled(c, s, st) && (st.Judge? || st.Release?)
    ensures Inv(c, Apply(c, s, st))
  {
    var t, s' := st.t, Apply(c, s, st);
    assert CallOk(c, s.locks, s.clock, t, s.calls[t]);
    FramedKeeps(c, s, s', t, s'.calls[t]);
  }

  lemma InvStep(c: Config, s: State, st: Step)
    requires Valid(c) && Inv(c, s) && Enabled(c, s, st)
    ensures Inv(c, Apply(c, s, st))
  {
    match st
    case Advance(_) =>
    case Unlock(_) => FreeStep(c, s, st);
    case Crash(_) => FreeStep(c, s, st);
    case Judge(_, _) => JudgeStep(c, s, st);
    case Release(_) => JudgeStep(c, s, st);
    case _ => MoveStep(c, s, st);
  }

  lemma {:induction false} RunInv(c: Config, trace: seq<State>, steps: seq<Step>, i: nat)
    requires Valid(c) && Execution(c, trace, steps) && i < |trace|
    ensures Inv(c, trace[i])
  {
    if i > 0 {
      RunInv(c, trace, steps, i - 1);
      InvStep(c, trace[i - 1], steps[i - 1]);
    }
  }

  /** No two live leases share an id, and every id lies in the range. */
  lemma LeasesAreExclusive(c: Config, trace: seq<State>, steps: seq<Step>, i: nat, t: nat, u: nat)
    requires Valid(c) && Execution(c, trace, steps) && i < |trace|
    requires t in trace[i].calls && u in trace[i].calls && trace[i].calls[t].Leasing?
    ensures c.min <= trace[i].calls[t].cid <= c.max
    ensures Holds(trace[i].calls[u]) == Some(trace[i].calls[t].cid) ==> t == u
  {
    RunInv(c, trace, steps, i);
    assert CallOk(c, trace[i].locks, trace[i].clock, t, trace[i].calls[t]);
    assert CallOk(c, trace[i].locks, trace[i].clock, u, trace[i].calls[u]);
  }

  // ----- cooldown

  lemma {:induction false} ClockAdvances(c: Config, trace: seq<State>, steps: seq<Step>, i: nat, j: nat)
    requires Execution(c, trace, steps) && i <= j < |trace|
    ensures trace[i].clock <= trace[j].clock
  {
    if i < j {
      ClockAdvances(c, trace, steps, i, j - 1);
    }
  }

  /** Step i leases the id to call t, which read the clock at `now`. */
  ghost predicate Leases(c: Config, trace: seq<State>, steps: seq<Step>, i: nat, t: nat, cid: nat, now: int)
    requires i < |steps| && i < |trace|
  {
    && steps[i] == Judge(t, false) && t in trace[i].calls && trace[i].calls[t] == Locked(now, cid)
    && !CoolingDown(now, MetaOf(trace[i], cid), c.cooldown)
  }

  /** With a cooldown, the time it counts from never goes back. */
  lemma StampStep(c: Config, s: State, st: Step, cid: nat)
    requires c.cooldown > 0 && Inv(c, s) && Enabled(c, s, st) && cid in s.meta
    ensures var s' := Apply(c, s, st); cid in s'.meta && Stamp(s'.meta[cid]).value >= Stamp(s.meta[cid]).value
  {
  }

  lemma {:induction false} StampRises(c: Config, trace: seq<State>, steps: seq<Step>, i: nat, j: nat, cid: nat)
    requires Valid(c) && Execution(c, trace, steps) && c.cooldown > 0 && i <= j < |trace| && cid in trace[i].meta
    ensures cid in trace[j].meta && Stamp(trace[j].meta[cid]).Some? && Stamp(trace[i].meta[cid]).Some?
    ensures Stamp(trace[j].meta[cid]).value >= Stamp(trace[i].meta[cid]).value
  {
    RunInv(c, trace, steps, i);
    if i < j {
      RunInv(c, trace, steps, j - 1);
      StampRises(c, trace, steps, i, j - 1, cid);
      StampStep(c, trace[j - 1], steps[j - 1], cid);
    }
  }

  lemma LeaseWaits(c: Config, trace: seq<State>, steps: seq<Step>, i: nat, j: nat, t: nat, cid: nat, now: int)
    requires Valid(c) && Execution(c, trace, steps) && i <= j < |steps| && cid in trace[i].meta
    requires Leases(c, trace, steps, j, t, cid, now)
    ensures c.cooldown > 0 ==> Stamp(trace[i].meta[cid]).Some? && now - Stamp(trace[i].meta[cid]).value >= c.cooldown
    ensures now <= trace[j].clock
  {
    RunInv(c, trace, steps, j);
    assert CallOk(c, trace[j].locks, trace[j].clock, t, trace[j].calls[t]);
    if c.cooldown > 0 {
      StampRises(c, trace, steps, i, j, cid);
    }
  }

  /** An id is leased no sooner than the cooldown after any earlier release of it. */
  lemma CooldownAfterRelease(c: Config, trace: seq<State>, steps: seq<Step>, i: nat, j: nat, t: nat, u: nat, now: int)
    requires Valid(c) && Execution(c, trace, steps) && i < j < |steps|
    requires steps[i] == Release(u) && Leases(c, trace, steps, j, t, trace[i].calls[u].cid, now)
    ensures trace[j].clock - trace[i].clock >= c.cooldown
  {
    var cid := trace[i].calls[u].cid;
    LeaseWaits(c, trace, steps, i + 1, j, t, cid, now);
    ClockAdvances(c, trace, steps, i, j);
    assert Stamp(trace[i + 1].meta[cid]) == Some(trace[i].clock);
  }

  /** Nor sooner than the cooldown after any earlier lease of it was asked for,
      released or lost to a crash. */
  lemma CooldownAfterLease(c: Config, trace: seq<State>, steps: seq<Step>, i: nat, j: nat, t: nat, u: nat, cid: nat,
                           asked: int, now: int)
    requires Valid(c) && Execution(c, trace, steps) && i < j < |steps|
    requires Leases(c, trace, steps, i, u, cid, asked) && Leases(c, trace, steps, j, t, cid, now)
    ensures trace[j].clock - asked >= c.cooldown
  {
    LeaseWaits(c, trace, steps, i + 1, j, t, cid, now);
    ClockAdvances(c, trace, steps, i, j);
    RunInv(c, trace, steps, i);
    assert CallOk(c, trace[i].locks, trace[i].clock, u, trace[i].calls[u]);
    assert Stamp(trace[i + 1].meta[cid]) == Some(asked);
  }

  // ----- failure

  /** Step j is call t's probe of the id, and the probe fails: no file, another holder,
      the cooldown, or a QEMU process. */
  ghost predicate ProbeFails(c: Config, s: State, st: Step, t: nat, cid: nat, now: int) {
    t in s.calls &&
    match st
    case TryLock(u, opens) => u == t && s.calls[t] == Probing(now, cid) && (!opens || cid in s.locks)
    case Judge(u, inUse) =>
      u == t && s.calls[t] == Locked(now, cid) && (inUse || CoolingDown(now, MetaOf(s, cid), c.cooldown))
    case _ => false
  }

  ghost predicate FailedBefore(c: Config, trace: seq<State>, steps: seq<Step>, i: nat, t: nat, cid: nat, now: int)
    requires i <= |steps| && |trace| == |steps| + 1
  {
    exists j :: 0 <= j < i && ProbeFails(c, trace[j], steps[j], t, cid, now)
  }

  ghost predicate AllFailed(c: Config, trace: seq<State>, steps: seq<Step>, i: nat, t: nat, limit: nat, now: int)
    requires i <= |steps| && |trace| == |steps| + 1
  {
    forall cid :: c.min <= cid < limit ==> FailedBefore(c, trace, steps, i, t, cid, now)
  }

  /** Up to where a call's probes have all failed. */
  function Reached(c: Config, pc: Pc): Option<(nat, int)> {
    match pc
    case Probing(now, cid) => Some((cid, now))
    case Locked(now, cid) => Some((cid, now))
    case Failed(now) => Some((c.max + 1, now))
    case _ => None
  }

  lemma {:induction false} ProbesFailed(c: Config, trace: seq<State>, steps: seq<Step>, i: nat, t: nat)
    requires Valid(c) && Execution(c, trace, steps) && i < |trace| && t in trace[i].calls
    ensures var r := Reached(c, trace[i].calls[t]);
            r.Some? ==> AllFailed(c, trace, steps, i, t, r.value.0, r.value.1)
  {
    if i > 0 && t in trace[i - 1].calls {
      ProbesFailed(c, trace, steps, i - 1, t);
      RunInv(c, trace, steps, i - 1);
      var s, st := trace[i - 1], steps[i - 1];
      assert CallOk(c, s.locks, s.clock, t, s.calls[t]);
      var r, r' := Reached(c, s.calls[t]), Reached(c, trace[i].calls[t]);
      if r.Some? && r'.Some? {
        forall cid | c.min <= cid < r'.value.0
          ensures FailedBefore(c, trace, steps, i, t, cid, r'.value.1)
        {
          if cid < r.value.0 {
            assert FailedBefore(c, trace, steps, i - 1, t, cid, r.value.1);
          } else {
            assert ProbeFails(c, s, st, t, cid, r.value.1);
          }
        }
      }
    }
  }

  /** An allocation that fails met, for every id in the range, a probe of its own that
      failed. */
  lemma FailsOnlyIfEveryProbeFailed(c: Config, trace: seq<State>, steps: seq<Step>, i: nat, t: nat)
    requires Valid(c) && Execution(c, trace, steps) && i < |trace|
    requires t in trace[i].calls && trace[i].calls[t].Failed?
    ensures AllFailed(c, trace, steps, i, t, c.max + 1, trace[i].calls[t].now)
  {
    ProbesFailed(c, trace, steps, i, t);
  }
}
