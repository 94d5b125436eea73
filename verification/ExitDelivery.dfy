/** Which side delivers an exit: the starts that were under way, or the reaper.

    The tracker's calls take several mutexes in turn, so each critical section is
    a step of its own: Subscribe is Open then, for an init that has its PID, Unregister;
    HandleStart is Complete then Register; NotifyExit is Report then Reap. Any number of
    starts, of the same process too, interleave with the one goroutine that reads exits.
    A start of a running exec fails and is registered all the same. */
module ExitDelivery {
  import opened ExitTracker
  import opened Wrappers

  /** Where a start is.
      Opened: window open, the entries of the process not yet removed (init only).
      Calling: window open.
      Gap: window closed empty, the process not yet registered.
      Over: done. */
  datatype Phase = Opened | Calling | Gap | Over

  datatype Start = Start(proc: nat, phase: Phase, window: Window)

  /** How far an exit has come through the reaper: how many windows of starts of the
      process were open when it was broadcast, and how many entries of the process the
      registry held when it was reaped. */
  datatype Progress = NotExited | Broadcasted(windows: nat) | Reaped(windows: nat, entries: nat)

  /** A process, its PID or 0, and its accounts. `listed` follows the registry: it is how
      often the registry is shown to hold the process. */
  datatype Tracked = Tracked(
    process: Process,
    pid: nat,
    listed: nat,
    progress: Progress,
    byStart: nat,    // deliveries made by HandleStart
    byReaper: nat)   // deliveries made by NotifyExit

  /** The exit between its broadcast and its removal; `owner` is None for an exit
      of a process that is not a container's. */
  datatype Pending = Pending(exit: Exit, owner: Option<nat>)

  datatype State = State(
    procs: map<nat, Tracked>,
    starts: map<nat, Start>,
    running: Registry,
    reaping: Option<Pending>)

  datatype Step =
    | Create(q: nat, container: nat, init: bool)
    | Open(y: nat, q: nat)
    | Unregister(y: nat)
    | Spawn(y: nat, pid: nat)
    | Complete(y: nat)
    | Register(y: nat)
    | Abandon(y: nat)
    | Report(exit: Exit, owner: Option<nat>)
    | Reap

  predicate WindowOpen(st: Start) { st.phase == Opened || st.phase == Calling }

  ghost predicate Busy(starts: map<nat, Start>, q: nat) {
    exists y :: y in starts && starts[y].proc == q && starts[y].phase != Over
  }

  /** A process holds its PID while it may still be matched by it. */
  ghost predicate HoldsPid(s: State, q: nat)
    requires q in s.procs
  {
    var p := s.procs[q];
    p.pid != 0 && (!p.progress.Reaped? || p.listed > 0 || Busy(s.starts, q))
  }

  /** No process but q is tracked under the PID. */
  ghost predicate PidFree(s: State, q: nat, pid: nat) {
    forall r :: r in s.procs && r != q && HoldsPid(s, r) ==> s.procs[r].pid != pid
  }

  ghost predicate PidFreeOfAll(s: State, pid: nat) {
    forall r :: r in s.procs && HoldsPid(s, r) ==> s.procs[r].pid != pid
  }

  predicate ReaperElsewhere(s: State, pid: nat) { s.reaping.Some? ==> s.reaping.value.exit.pid != pid }

  predicate Running(s: State, y: nat) {
    y in s.starts && s.starts[y].proc in s.procs
  }

  function ProcOf(s: State, y: nat): Tracked
    requires Running(s, y)
  {
    s.procs[s.starts[y].proc]
  }

  /** The guards on Open, Spawn and Report are the premise that a PID is not recycled
      while a process is tracked under it; an init's first start is its creation.
      Everything else may happen at any time. */
  ghost predicate Enabled(s: State, step: Step) {
    match step
    case Create(q, _, _) => q !in s.procs
    case Open(y, q) =>
      && y !in s.starts && q in s.procs
      && (s.procs[q].pid == 0 && s.procs[q].process.init ==> forall z :: z in s.starts ==> s.starts[z].proc != q)
      && (s.procs[q].pid != 0 ==>
            && PidFree(s, q, s.procs[q].pid)
            && (ReaperElsewhere(s, s.procs[q].pid) || s.reaping.value.owner == Some(q)))
    case Unregister(y) => Running(s, y) && s.starts[y].phase == Opened
    case Spawn(y, pid) =>
      && Running(s, y) && s.starts[y].phase == Calling && ProcOf(s, y).pid == 0 && pid != 0
      && PidFree(s, s.starts[y].proc, pid) && ReaperElsewhere(s, pid)
      && forall z :: z in s.starts && s.starts[z].proc == s.starts[y].proc ==> ExitsFor(s.starts[z].window, pid) == []
    case Complete(y) => Running(s, y) && s.starts[y].phase == Calling && ProcOf(s, y).pid != 0
    case Register(y) => Running(s, y) && s.starts[y].phase == Gap
    case Abandon(y) => Running(s, y) && s.starts[y].phase == Calling && ProcOf(s, y).pid == 0
    case Report(e, owner) =>
      && s.reaping.None?
      && (match owner
          case Some(q) => q in s.procs && s.procs[q].progress == NotExited && s.procs[q].pid == e.pid != 0
          case None => PidFreeOfAll(s, e.pid))
    case Reap => s.reaping.Some?
  }

  function Record(st: Start, e: Exit): Start {
    if WindowOpen(st) then st.(window := st.window[e.pid := ExitsFor(st.window, e.pid) + [e]]) else st
  }

  function Deliver(procs: map<nat, Tracked>, ps: seq<Process>): map<nat, Tracked> {
    if ps == [] then procs
    else
      var rest := Deliver(procs, ps[1..]);
      var id := ps[0].id;
      if id in rest then rest[id := rest[id].(byReaper := rest[id].byReaper + 1)] else rest
  }

  /** The starts of a process whose window is open. */
  ghost function OpenOf(starts: map<nat, Start>, q: nat): set<nat> {
    set y | y in starts && starts[y].proc == q && WindowOpen(starts[y])
  }

  ghost function Apply(s: State, step: Step): State
    requires Enabled(s, step)
  {
    match step
    case Create(q, c, init) => s.(procs := s.procs[q := Tracked(Process(q, c, init), 0, 0, NotExited, 0, 0)])
    case Open(y, q) =>
      var phase := if s.procs[q].process.init && s.procs[q].pid != 0 then Opened else Calling;
      s.(starts := s.starts[y := Start(q, phase, map[])])
    case Unregister(y) =>
      var p := ProcOf(s, y);
      State(s.procs[s.starts[y].proc := p.(listed := 0)], s.starts[y := s.starts[y].(phase := Calling)],
            RemoveByContainer(s.running, p.pid, p.process.container), s.reaping)
    case Spawn(y, pid) => s.(procs := s.procs[s.starts[y].proc := ProcOf(s, y).(pid := pid)])
    case Complete(y) =>
      var p, st := ProcOf(s, y), s.starts[y];
      var early := ExitsFor(st.window, p.pid);
      if early == [] then s.(starts := s.starts[y := st.(phase := Gap)])
      else s.(procs := s.procs[st.proc := p.(byStart := p.byStart + |early|)],
              starts := s.starts[y := st.(phase := Over)])
    case Register(y) =>
      var p := ProcOf(s, y);
      State(s.procs[s.starts[y].proc := p.(listed := p.listed + 1)], s.starts[y := s.starts[y].(phase := Over)],
            AddProcess(s.running, p.pid, p.process), s.reaping)
    case Abandon(y) => s.(starts := s.starts[y := s.starts[y].(phase := Over)])
    case Report(e, owner) =>
      State(match owner
            case Some(q) => s.procs[q := s.procs[q].(progress := Broadcasted(|OpenOf(s.starts, q)|))]
            case None => s.procs,
            map y | y in s.starts :: Record(s.starts[y], e), s.running, Some(Pending(e, owner)))
    case Reap =>
      var Pending(e, owner) := s.reaping.value;
      var found := ProcessesAt(s.running, e.pid);
      State(Deliver(Marked(s.procs, owner, e.pid, found), found), s.starts, s.running - {e.pid}, None)
  }

  function Marked(procs: map<nat, Tracked>, owner: Option<nat>, pid: nat, found: seq<Process>): map<nat, Tracked> {
    map q | q in procs :: AfterReap(procs[q], owner == Some(q), pid, found)
  }

  function AfterReap(p: Tracked, own: bool, pid: nat, found: seq<Process>): Tracked {
    p.(listed := if p.pid == pid then 0 else p.listed,
       progress := if own && p.progress.Broadcasted? then Reaped(p.progress.windows, multiset(found)[p.process])
                   else p.progress)
  }

  const INITIAL := State(map[], map[], map[], None)

  ghost predicate Execution(trace: seq<State>, steps: seq<Step>) {
    && |trace| == |steps| + 1
    && trace[0] == INITIAL
    && forall i :: 0 <= i < |steps| ==> Enabled(trace[i], steps[i]) && trace[i + 1] == Apply(trace[i], steps[i])
  }

  // ----- what every step keeps

  function One(b: bool): nat { if b then 1 else 0 }

  /** Deliveries due from the starts, and from the reaper, once an exit has come this far. */
  function DueFromStarts(p: Progress): nat { if p.NotExited? then 0 else p.windows }

  function DueFromReaper(p: Progress): nat { if p.Reaped? then p.entries else 0 }

  /** Open windows of the process that hold its exit. */
  ghost function Holding(starts: map<nat, Start>, q: nat, pid: nat): set<nat> {
    set y | y in starts && starts[y].proc == q && WindowOpen(starts[y]) && ExitsFor(starts[y].window, pid) != []
  }

  /** What holds of a process and its starts. */
  ghost predicate Sound(starts: map<nat, Start>, q: nat, p: Tracked) {
    && p.process.id == q
    && p.byReaper == DueFromReaper(p.progress)
    && (if p.pid == 0 then p.listed == 0 && p.progress == NotExited && p.byStart == 0
        else p.byStart + |Holding(starts, q, p.pid)| == DueFromStarts(p.progress))
  }

  ghost predicate SoundInv(s: State) { forall q :: q in s.procs ==> Sound(s.starts, q, s.procs[q]) }

  /** A start is of a process there is; its window holds the exit of the process once, and
      not before there is one. */
  predicate StartOk(procs: map<nat, Tracked>, st: Start) {
    && st.proc in procs
    && (st.phase == Opened || st.phase == Gap ==> procs[st.proc].pid != 0)
    && (st.phase == Opened ==> procs[st.proc].process.init)
    && (WindowOpen(st) && procs[st.proc].pid != 0 ==>
          && |ExitsFor(st.window, procs[st.proc].pid)| <= 1
          && (procs[st.proc].progress == NotExited ==> ExitsFor(st.window, procs[st.proc].pid) == []))
  }

  ghost predicate StartInv(s: State) { forall y :: y in s.starts ==> StartOk(s.procs, s.starts[y]) }

  function Copies(p: Process, n: nat): seq<Process> { seq(n, i => p) }

  /** Under the PID a process holds the registry has that process, as often as it is
      listed, and nothing else; and it has nothing under other PIDs. */
  ghost predicate RegistryInv(s: State) {
    && (forall q :: q in s.procs && HoldsPid(s, q) ==>
          ProcessesAt(s.running, s.procs[q].pid) == Copies(s.procs[q].process, s.procs[q].listed))
    && (forall pid :: pid in s.running ==> exists q :: q in s.procs && s.procs[q].pid == pid && s.procs[q].listed > 0)
  }

  ghost predicate PidInv(s: State) {
    forall q :: q in s.procs && HoldsPid(s, q) ==> PidFree(s, q, s.procs[q].pid)
  }

  ghost predicate ReaperInv(s: State) {
    && (forall q :: q in s.procs ==>
          (s.procs[q].progress.Broadcasted? <==> s.reaping.Some? && s.reaping.value.owner == Some(q)))
    && (s.reaping.Some? ==>
          match s.reaping.value.owner
          case Some(q) => q in s.procs && s.procs[q].pid == s.reaping.value.exit.pid != 0
          case None => PidFreeOfAll(s, s.reaping.value.exit.pid))
  }

  ghost predicate Inv(s: State) { SoundInv(s) && StartInv(s) && RegistryInv(s) && PidInv(s) && ReaperInv(s) }

  /** A step of start y of process q: the process becomes p, the start st. */
  function Moved(s: State, q: nat, p: Tracked, y: nat, st: Start, running: Registry): State {
    State(s.procs[q := p], s.starts[y := st], running, s.reaping)
  }

  lemma HoldingElsewhere(starts: map<nat, Start>, q: nat, y: nat, st: Start, r: nat, pid: nat)
    requires st.proc == q && (y in starts ==> starts[y].proc == q) && r != q
    ensures Holding(starts[y := st], r, pid) == Holding(starts, r, pid)
  {
  }

  lemma SoundMoved(s: State, q: nat, p: Tracked, y: nat, st: Start, running: Registry)
    requires SoundInv(s) && q in s.procs && st.proc == q && (y in s.starts ==> s.starts[y].proc == q)
    requires Sound(s.starts[y := st], q, p)
    ensures SoundInv(Moved(s, q, p, y, st, running))
  {
    forall r | r in s.procs && r != q
      ensures Sound(s.starts[y := st], r, s.procs[r])
    {
      HoldingElsewhere(s.starts, q, y, st, r, s.procs[r].pid);
    }
  }

  lemma StartMoved(s: State, q: nat, p: Tracked, y: nat, st: Start, running: Registry)
    requires StartInv(s) && q in s.procs && st.proc == q
    requires p.process == s.procs[q].process && p.progress == s.procs[q].progress
    requires p.pid == s.procs[q].pid
             || (p.pid != 0 && forall z :: z in s.starts && s.starts[z].proc == q ==>
                   ExitsFor(s.starts[z].window, p.pid) == [])
    requires StartOk(s.procs[q := p], st)
    ensures StartInv(Moved(s, q, p, y, st, running))
  {
  }

  lemma HoldsElsewhere(s: State, q: nat, p: Tracked, y: nat, st: Start, running: Registry, r: nat)
    requires q in s.procs && st.proc == q && (y in s.starts ==> s.starts[y].proc == q) && r in s.procs && r != q
    ensures HoldsPid(Moved(s, q, p, y, st, running), r) == HoldsPid(s, r)
  {
    var t := Moved(s, q, p, y, st, running);
    if z :| z in s.starts && s.starts[z].proc == r && s.starts[z].phase != Over {
      assert t.starts[z] == s.starts[z];
    }
    if z :| z in t.starts && t.starts[z].proc == r && t.starts[z].phase != Over {
      assert t.starts[z] == s.starts[z];
    }
  }

  lemma PidMoved(s: State, q: nat, p: Tracked, y: nat, st: Start, running: Registry)
    requires PidInv(s) && q in s.procs && st.proc == q && (y in s.starts ==> s.starts[y].proc == q)
    requires HoldsPid(Moved(s, q, p, y, st, running), q) ==> PidFree(s, q, p.pid)
    ensures PidInv(Moved(s, q, p, y, st, running))
  {
    var t := Moved(s, q, p, y, st, running);
    forall r | r in s.procs && r != q
      ensures HoldsPid(t, r) == HoldsPid(s, r)
    {
      HoldsElsewhere(s, q, p, y, st, running, r);
    }
    forall r, o | r in t.procs && HoldsPid(t, r) && o in t.procs && o != r && HoldsPid(t, o)
      ensures t.procs[o].pid != t.procs[r].pid
    {
    }
  }

  lemma ReaperMoved(s: State, q: nat, p: Tracked, y: nat, st: Start, running: Registry)
    requires ReaperInv(s) && q in s.procs && st.proc == q && (y in s.starts ==> s.starts[y].proc == q)
    requires p.progress == s.procs[q].progress
    requires s.reaping.Some? && s.reaping.value.owner == Some(q) ==> p.pid == s.procs[q].pid
    requires s.reaping.Some? && s.reaping.value.owner == None && HoldsPid(Moved(s, q, p, y, st, running), q) ==>
               p.pid != s.reaping.value.exit.pid
    ensures ReaperInv(Moved(s, q, p, y, st, running))
  {
    forall r | r in s.procs && r != q
      ensures HoldsPid(Moved(s, q, p, y, st, running), r) == HoldsPid(s, r)
    {
      HoldsElsewhere(s, q, p, y, st, running, r);
    }
  }

  /** The registry is changed under the PID of q at most, and has there what is listed. */
  lemma RegistryMoved(s: State, q: nat, p: Tracked, y: nat, st: Start, running: Registry)
    requires RegistryInv(s) && PidInv(s) && q in s.procs && st.proc == q && (y in s.starts ==> s.starts[y].proc == q)
    requires p.pid == s.procs[q].pid && (p.listed > 0 ==> p.pid != 0)
    requires HoldsPid(s, q) || HoldsPid(Moved(s, q, p, y, st, running), q) ==> PidFree(s, q, p.pid)
    requires forall pid :: pid != p.pid ==>
               (pid in running <==> pid in s.running) && ProcessesAt(running, pid) == ProcessesAt(s.running, pid)
    requires HoldsPid(Moved(s, q, p, y, st, running), q) ==> ProcessesAt(running, p.pid) == Copies(p.process, p.listed)
    requires HoldsPid(s, q) || running == s.running
    requires HoldsPid(s, q) ==> (p.pid in running <==> p.listed > 0)
    requires !HoldsPid(s, q) ==> p.listed == s.procs[q].listed
    ensures RegistryInv(Moved(s, q, p, y, st, running))
  {
    var t := Moved(s, q, p, y, st, running);
    forall r | r in s.procs && r != q
      ensures HoldsPid(t, r) == HoldsPid(s, r)
    {
      HoldsElsewhere(s, q, p, y, st, running, r);
    }
    forall pid | pid in running
      ensures exists r :: r in t.procs && t.procs[r].pid == pid && t.procs[r].listed > 0
    {
      if HoldsPid(s, q) && pid == p.pid {
        assert t.procs[q].listed > 0;
      } else {
        var r :| r in s.procs && s.procs[r].pid == pid && s.procs[r].listed > 0;
        assert r in t.procs && t.procs[r].pid == pid && t.procs[r].listed > 0;
      }
    }
  }

  /** A PID no other process holds has no entries but those of q. */
  lemma NobodysPid(s: State, q: nat, pid: nat)
    requires RegistryInv(s) && PidFree(s, q, pid) && pid != 0
    requires q in s.procs && s.procs[q].pid == pid ==> s.procs[q].listed == 0
    ensures pid !in s.running
  {
    forall r | r in s.procs && s.procs[r].pid == pid && s.procs[r].listed > 0
      ensures r == q
    {
      assert r != q ==> HoldsPid(s, r);
    }
  }

  lemma CreateStep(s: State, step: Step)
    requires Inv(s) && Enabled(s, step) && step.Create?
    ensures Inv(Apply(s, step))
  {
    var t := Apply(s, step);
    assert forall r :: r in s.procs ==> HoldsPid(t, r) == HoldsPid(s, r);
    assert SoundInv(t) && StartInv(t);
    CreatedRegistry(s, t, step.q);
  }

  lemma CreatedRegistry(s: State, t: State, q: nat)
    requires RegistryInv(s) && PidInv(s) && t.running == s.running && q !in s.procs
    requires t.procs.Keys == s.procs.Keys + {q} && t.procs[q].pid == 0
    requires forall r :: r in s.procs ==> t.procs[r] == s.procs[r]
    requires forall r :: r in s.procs ==> HoldsPid(t, r) == HoldsPid(s, r)
    ensures RegistryInv(t) && PidInv(t)
  {
    forall pid | pid in t.running
      ensures exists r :: r in t.procs && t.procs[r].pid == pid && t.procs[r].listed > 0
    {
      var r :| r in s.procs && s.procs[r].pid == pid && s.procs[r].listed > 0;
      assert t.procs[r] == s.procs[r];
    }
  }

  lemma OpenStep(s: State, y: nat, q: nat)
    requires Inv(s) && Enabled(s, Open(y, q))
    ensures Inv(Apply(s, Open(y, q)))
  {
    var t := Apply(s, Open(y, q));
    var p, st := s.procs[q], t.starts[y];
    assert t == Moved(s, q, p, y, st, s.running) by {
      assert s.procs[q := p] == s.procs;
    }
    assert Holding(t.starts, q, p.pid) == Holding(s.starts, q, p.pid);
    assert Sound(s.starts, q, p);
    SoundMoved(s, q, p, y, st, s.running);
    StartMoved(s, q, p, y, st, s.running);
    PidMoved(s, q, p, y, st, s.running);
    ReaperMoved(s, q, p, y, st, s.running);
    OpenRegistry(s, q, y, st);
  }

  lemma OpenRegistry(s: State, q: nat, y: nat, st: Start)
    requires Inv(s) && q in s.procs && y !in s.starts && st.proc == q
    requires s.procs[q].pid != 0 ==> PidFree(s, q, s.procs[q].pid)
    ensures RegistryInv(Moved(s, q, s.procs[q], y, st, s.running))
  {
    var p := s.procs[q];
    assert Sound(s.starts, q, p);
    if HoldsPid(s, q) {
      RegistryOf(s, q);
    } else if p.pid != 0 {
      NobodysPid(s, q, p.pid);
    }
    RegistryMoved(s, q, p, y, st, s.running);
  }

  /** What the registry has under the PID that a process holds. */
  lemma RegistryOf(s: State, q: nat)
    requires RegistryInv(s) && PidInv(s) && q in s.procs && HoldsPid(s, q)
    ensures ProcessesAt(s.running, s.procs[q].pid) == Copies(s.procs[q].process, s.procs[q].listed)
    ensures s.procs[q].pid in s.running <==> s.procs[q].listed > 0
  {
    var pid := s.procs[q].pid;
    if pid in s.running {
      var r :| r in s.procs && s.procs[r].pid == pid && s.procs[r].listed > 0;
      assert HoldsPid(s, r);
    }
  }

  lemma SpawnStep(s: State, y: nat, pid: nat)
    requires Inv(s) && Enabled(s, Spawn(y, pid))
    ensures Inv(Apply(s, Spawn(y, pid)))
  {
    var q, st := s.starts[y].proc, s.starts[y];
    var p := s.procs[q].(pid := pid);
    assert Apply(s, Spawn(y, pid)) == Moved(s, q, p, y, st, s.running) by {
      assert s.starts[y := st] == s.starts;
    }
    assert Sound(s.starts, q, s.procs[q]) && StartOk(s.procs, st);
    assert s.starts[y := st] == s.starts && Holding(s.starts, q, pid) == {};
    SoundMoved(s, q, p, y, st, s.running);
    StartMoved(s, q, p, y, st, s.running);
    PidMoved(s, q, p, y, st, s.running);
    ReaperMoved(s, q, p, y, st, s.running);
    SpawnRegistry(s, q, y, pid);
  }

  lemma SpawnRegistry(s: State, q: nat, y: nat, pid: nat)
    requires Inv(s) && y in s.starts && s.starts[y].proc == q && q in s.procs && s.procs[q].pid == 0 && pid != 0
    requires PidFree(s, q, pid)
    ensures RegistryInv(Moved(s, q, s.procs[q].(pid := pid), y, s.starts[y], s.running))
  {
    var p := s.procs[q].(pid := pid);
    var t := Moved(s, q, p, y, s.starts[y], s.running);
    assert Sound(s.starts, q, s.procs[q]);
    NobodysPid(s, q, pid);
    forall r | r in s.procs && r != q
      ensures HoldsPid(t, r) == HoldsPid(s, r)
    {
      HoldsElsewhere(s, q, p, y, s.starts[y], s.running, r);
    }
    forall k | k in t.running
      ensures exists r :: r in t.procs && t.procs[r].pid == k && t.procs[r].listed > 0
    {
      var r :| r in s.procs && s.procs[r].pid == k && s.procs[r].listed > 0;
      assert t.procs[r] == s.procs[r];
    }
  }

  lemma HoldingDrops(starts: map<nat, Start>, q: nat, y: nat, st: Start, pid: nat)
    requires y in starts && starts[y].proc == st.proc == q && WindowOpen(starts[y]) && !WindowOpen(st)
    ensures |Holding(starts[y := st], q, pid)| == |Holding(starts, q, pid)| - One(ExitsFor(starts[y].window, pid) != [])
  {
    assert Holding(starts[y := st], q, pid) == Holding(starts, q, pid) - {y};
  }

  /** A step that ends or closes a window and leaves the registry alone. */
  lemma CloseStep(s: State, q: nat, p: Tracked, y: nat, st: Start)
    requires Inv(s) && y in s.starts && q in s.procs && s.starts[y].proc == q == st.proc && WindowOpen(s.starts[y])
    requires !WindowOpen(st) && (st.phase == Gap ==> p.pid != 0)
    requires p == s.procs[q].(byStart := p.byStart)
    requires p.byStart == s.procs[q].byStart + if p.pid != 0 then |ExitsFor(s.starts[y].window, p.pid)| else 0
    ensures Inv(Moved(s, q, p, y, st, s.running))
  {
    assert Sound(s.starts, q, s.procs[q]) && StartOk(s.procs, s.starts[y]);
    HoldingDrops(s.starts, q, y, st, p.pid);
    SoundMoved(s, q, p, y, st, s.running);
    StartMoved(s, q, p, y, st, s.running);
    BusyHolds(s, q, y);
    PidMoved(s, q, p, y, st, s.running);
    ReaperMoved(s, q, p, y, st, s.running);
    if p.pid != 0 {
      RegistryOf(s, q);
    }
    RegistryMoved(s, q, p, y, st, s.running);
  }

  /** A process with a start under way holds its PID. */
  lemma BusyHolds(s: State, q: nat, y: nat)
    requires q in s.procs && y in s.starts && s.starts[y].proc == q && s.starts[y].phase != Over
    ensures HoldsPid(s, q) == (s.procs[q].pid != 0)
  {
  }

  lemma CompleteStep(s: State, y: nat)
    requires Inv(s) && Enabled(s, Complete(y))
    ensures Inv(Apply(s, Complete(y)))
  {
    var t := Apply(s, Complete(y));
    var q := s.starts[y].proc;
    assert t == Moved(s, q, t.procs[q], y, t.starts[y], s.running) by {
      assert s.procs[q := s.procs[q]] == s.procs;
    }
    CloseStep(s, q, t.procs[q], y, t.starts[y]);
  }

  lemma AbandonStep(s: State, y: nat)
    requires Inv(s) && Enabled(s, Abandon(y))
    ensures Inv(Apply(s, Abandon(y)))
  {
    var t := Apply(s, Abandon(y));
    var q := s.starts[y].proc;
    assert t == Moved(s, q, s.procs[q], y, t.starts[y], s.running) by {
      assert s.procs[q := s.procs[q]] == s.procs;
    }
    CloseStep(s, q, s.procs[q], y, t.starts[y]);
  }

  lemma {:induction false} NoOthers(p: Process, n: nat)
    ensures Others(Copies(p, n), p.container) == []
  {
    if n > 0 {
      assert Copies(p, n)[1..] == Copies(p, n - 1);
      NoOthers(p, n - 1);
    }
  }

  /** Start y of process q moves on with its window as it is, and the registry under the
      PID of q with it. */
  predicate Lists(s: State, q: nat, p: Tracked, y: nat, st: Start) {
    && y in s.starts && q in s.procs && s.starts[y].proc == q == st.proc && s.starts[y].phase != Over
    && p == s.procs[q].(listed := p.listed) && p.pid != 0
    && st == s.starts[y].(phase := st.phase) && WindowOpen(st) == WindowOpen(s.starts[y]) && st.phase != Opened
  }

  lemma ListSound(s: State, q: nat, p: Tracked, y: nat, st: Start, running: Registry)
    requires Inv(s) && Lists(s, q, p, y, st)
    ensures SoundInv(Moved(s, q, p, y, st, running)) && StartInv(Moved(s, q, p, y, st, running))
  {
    assert Sound(s.starts, q, s.procs[q]) && StartOk(s.procs, s.starts[y]);
    assert Holding(s.starts[y := st], q, p.pid) == Holding(s.starts, q, p.pid);
    SoundMoved(s, q, p, y, st, running);
    StartMoved(s, q, p, y, st, running);
  }

  lemma ListStep(s: State, q: nat, p: Tracked, y: nat, st: Start, running: Registry)
    requires Inv(s) && Lists(s, q, p, y, st)
    requires forall pid :: pid != p.pid ==>
               (pid in running <==> pid in s.running) && ProcessesAt(running, pid) == ProcessesAt(s.running, pid)
    requires ProcessesAt(running, p.pid) == Copies(p.process, p.listed) && (p.pid in running <==> p.listed > 0)
    ensures Inv(Moved(s, q, p, y, st, running))
  {
    ListSound(s, q, p, y, st, running);
    BusyHolds(s, q, y);
    PidMoved(s, q, p, y, st, running);
    ReaperMoved(s, q, p, y, st, running);
    RegistryMoved(s, q, p, y, st, running);
  }

  lemma UnregisterStep(s: State, y: nat)
    requires Inv(s) && Enabled(s, Unregister(y))
    ensures Inv(Apply(s, Unregister(y)))
  {
    var t := Apply(s, Unregister(y));
    var q := s.starts[y].proc;
    var p := s.procs[q];
    assert StartOk(s.procs, s.starts[y]);
    BusyHolds(s, q, y);
    RegistryOf(s, q);
    NoOthers(p.process, p.listed);
    assert t.running == s.running - {p.pid};
    ListStep(s, q, p.(listed := 0), y, t.starts[y], t.running);
  }

  lemma RegisterStep(s: State, y: nat)
    requires Inv(s) && Enabled(s, Register(y))
    ensures Inv(Apply(s, Register(y)))
  {
    var t := Apply(s, Register(y));
    var q := s.starts[y].proc;
    var p := s.procs[q];
    assert StartOk(s.procs, s.starts[y]);
    BusyHolds(s, q, y);
    RegistryOf(s, q);
    assert Copies(p.process, p.listed) + [p.process] == Copies(p.process, p.listed + 1);
    ListStep(s, q, p.(listed := p.listed + 1), y, t.starts[y], t.running);
  }

  /** Recording an exit under another PID changes nothing for a process. */
  lemma RecordElsewhere(st: Start, e: Exit, pid: nat)
    requires !WindowOpen(st) || pid != e.pid
    ensures ExitsFor(Record(st, e).window, pid) == ExitsFor(st.window, pid)
  {
  }

  /** A process other than the owner has no open window if the exit is under its PID. */
  lemma OthersPid(s: State, e: Exit, owner: Option<nat>, y: nat)
    requires Inv(s) && Enabled(s, Report(e, owner)) && y in s.starts && owner != Some(s.starts[y].proc)
    ensures s.starts[y].proc in s.procs
    ensures s.procs[s.starts[y].proc].pid != 0 && s.procs[s.starts[y].proc].pid == e.pid ==> !WindowOpen(s.starts[y])
  {
    var r := s.starts[y].proc;
    assert StartOk(s.procs, s.starts[y]);
    if s.starts[y].phase != Over {
      BusyHolds(s, r, y);
    }
    if owner.Some? {
      assert HoldsPid(s, owner.value) && PidFree(s, owner.value, e.pid);
    }
  }

  lemma ReportHolding(s: State, e: Exit, owner: Option<nat>, q: nat)
    requires Inv(s) && Enabled(s, Report(e, owner)) && q in s.procs && s.procs[q].pid != 0
    ensures var starts := Apply(s, Report(e, owner)).starts;
            Holding(starts, q, s.procs[q].pid)
            == if owner == Some(q) then OpenOf(s.starts, q) else Holding(s.starts, q, s.procs[q].pid)
  {
    var starts := Apply(s, Report(e, owner)).starts;
    var pid := s.procs[q].pid;
    forall y | y in s.starts && s.starts[y].proc == q
      ensures y in Holding(starts, q, pid)
              <==> if owner == Some(q) then y in OpenOf(s.starts, q) else y in Holding(s.starts, q, pid)
    {
      assert starts[y] == Record(s.starts[y], e);
      if owner != Some(q) {
        OthersPid(s, e, owner, y);
        RecordElsewhere(s.starts[y], e, pid);
      }
    }
  }

  lemma ReportSound(s: State, e: Exit, owner: Option<nat>)
    requires Inv(s) && Enabled(s, Report(e, owner))
    ensures SoundInv(Apply(s, Report(e, owner)))
  {
    var t := Apply(s, Report(e, owner));
    forall q | q in t.procs
      ensures Sound(t.starts, q, t.procs[q])
    {
      assert Sound(s.starts, q, s.procs[q]);
      if s.procs[q].pid != 0 {
        ReportHolding(s, e, owner, q);
        if owner == Some(q) {
          NothingHeld(s, q);
        }
      }
    }
  }

  lemma NothingHeld(s: State, q: nat)
    requires StartInv(s) && q in s.procs && s.procs[q].pid != 0 && s.procs[q].progress == NotExited
    ensures Holding(s.starts, q, s.procs[q].pid) == {}
  {
    assert forall y :: y in s.starts ==> StartOk(s.procs, s.starts[y]);
  }

  lemma ReportedOk(s: State, e: Exit, owner: Option<nat>, y: nat)
    requires Inv(s) && Enabled(s, Report(e, owner)) && y in s.starts && s.starts[y].proc in s.procs
    ensures var p := s.procs[s.starts[y].proc];
            WindowOpen(s.starts[y]) && p.pid != 0 ==>
              if owner == Some(s.starts[y].proc) then |ExitsFor(Record(s.starts[y], e).window, p.pid)| == 1
              else ExitsFor(Record(s.starts[y], e).window, p.pid) == ExitsFor(s.starts[y].window, p.pid)
  {
    assert StartOk(s.procs, s.starts[y]);
    if owner != Some(s.starts[y].proc) && s.procs[s.starts[y].proc].pid != 0 {
      OthersPid(s, e, owner, y);
      RecordElsewhere(s.starts[y], e, s.procs[s.starts[y].proc].pid);
    }
  }

  lemma ReportStart(s: State, e: Exit, owner: Option<nat>)
    requires Inv(s) && Enabled(s, Report(e, owner))
    ensures StartInv(Apply(s, Report(e, owner)))
  {
    var t := Apply(s, Report(e, owner));
    ReportKeeps(s, e, owner);
    forall y | y in t.starts
      ensures StartOk(t.procs, t.starts[y])
    {
      assert StartOk(s.procs, s.starts[y]) && t.starts[y] == Record(s.starts[y], e);
      ReportedOk(s, e, owner, y);
    }
  }

  /** Recording an exit moves no process and no PID. */
  lemma ReportKeeps(s: State, e: Exit, owner: Option<nat>)
    requires Enabled(s, Report(e, owner))
    ensures var t := Apply(s, Report(e, owner));
            && t.procs.Keys == s.procs.Keys && t.running == s.running && t.starts.Keys == s.starts.Keys
            && (forall y :: y in s.starts ==>
                  t.starts[y].proc == s.starts[y].proc && t.starts[y].phase == s.starts[y].phase)
            && forall r :: r in s.procs ==>
                 && t.procs[r] == s.procs[r].(progress := t.procs[r].progress)
                 && (owner != Some(r) ==> t.procs[r] == s.procs[r])
                 && (t.procs[r].progress.Reaped? <==> s.procs[r].progress.Reaped?)
                 && (t.procs[r].progress.Broadcasted? <==> s.procs[r].progress.Broadcasted? || owner == Some(r))
  {
  }

  /** PIDs and the registry under them are left as they are. */
  lemma HoldersKept(s: State, t: State)
    requires RegistryInv(s) && PidInv(s) && t.running == s.running && t.procs.Keys == s.procs.Keys
    requires forall r :: r in s.procs ==>
               && t.procs[r].pid == s.procs[r].pid && t.procs[r].process == s.procs[r].process
               && t.procs[r].listed == s.procs[r].listed
    requires forall r :: r in s.procs ==> HoldsPid(t, r) == HoldsPid(s, r)
    ensures RegistryInv(t) && PidInv(t)
  {
    forall pid | pid in t.running
      ensures exists r :: r in t.procs && t.procs[r].pid == pid && t.procs[r].listed > 0
    {
      var r :| r in s.procs && s.procs[r].pid == pid && s.procs[r].listed > 0;
      assert r in t.procs && t.procs[r].listed > 0;
    }
  }

  lemma ReportHolders(s: State, e: Exit, owner: Option<nat>, r: nat)
    requires Enabled(s, Report(e, owner)) && r in s.procs
    ensures r in Apply(s, Report(e, owner)).procs
    ensures HoldsPid(Apply(s, Report(e, owner)), r) == HoldsPid(s, r)
  {
    ReportKeeps(s, e, owner);
    var t := Apply(s, Report(e, owner));
    assert t.starts.Keys == s.starts.Keys;
    assert Busy(t.starts, r) == Busy(s.starts, r);
  }

  lemma ReportStep(s: State, e: Exit, owner: Option<nat>)
    requires Inv(s) && Enabled(s, Report(e, owner))
    ensures Inv(Apply(s, Report(e, owner)))
  {
    var t := Apply(s, Report(e, owner));
    ReportSound(s, e, owner);
    ReportStart(s, e, owner);
    ReportKeeps(s, e, owner);
    forall r | r in s.procs
      ensures HoldsPid(t, r) == HoldsPid(s, r)
    {
      ReportHolders(s, e, owner, r);
    }
    HoldersKept(s, t);
  }

  lemma {:induction false} DeliverCopies(procs: map<nat, Tracked>, p: Process, n: nat)
    requires p.id in procs
    ensures Deliver(procs, Copies(p, n)) == procs[p.id := procs[p.id].(byReaper := procs[p.id].byReaper + n)]
  {
    if n > 0 {
      assert Copies(p, n)[1..] == Copies(p, n - 1);
      DeliverCopies(procs, p, n - 1);
    }
  }

  lemma {:induction false} CountCopies(p: Process, n: nat)
    ensures multiset(Copies(p, n))[p] == n
  {
    if n > 0 {
      assert Copies(p, n) == Copies(p, n - 1) + [p];
      CountCopies(p, n - 1);
    }
  }

  /** Reaping an exit that is no container's changes nothing. */
  lemma ReapNobody(s: State)
    requires Inv(s) && s.reaping.Some? && s.reaping.value.owner == None
    ensures Apply(s, Reap) == State(s.procs, s.starts, s.running, None)
  {
    var pid := s.reaping.value.exit.pid;
    forall r | r in s.procs && s.procs[r].listed > 0
      ensures s.procs[r].pid != pid
    {
      assert Sound(s.starts, r, s.procs[r]) && HoldsPid(s, r);
    }
    assert pid !in s.running;
    assert Marked(s.procs, None, pid, []) == s.procs;
  }

  /** What a process is after its exit has been reaped. */
  function AfterOwn(p: Tracked): Tracked
    requires p.progress.Broadcasted?
  {
    p.(listed := 0, progress := Reaped(p.progress.windows, p.listed), byReaper := p.byReaper + p.listed)
  }

  lemma ReapMarks(s: State, q: nat)
    requires Inv(s) && s.reaping.Some? && s.reaping.value.owner == Some(q)
    ensures var p, pid := s.procs[q], s.reaping.value.exit.pid;
            Marked(s.procs, Some(q), pid, Copies(p.process, p.listed))
            == s.procs[q := p.(listed := 0, progress := Reaped(p.progress.windows, p.listed))]
  {
    var p := s.procs[q];
    CountCopies(p.process, p.listed);
    assert HoldsPid(s, q) && PidFree(s, q, p.pid);
    forall r | r in s.procs && r != q
      ensures s.procs[r].listed > 0 ==> s.procs[r].pid != p.pid
    {
      assert Sound(s.starts, r, s.procs[r]);
      assert s.procs[r].listed > 0 ==> HoldsPid(s, r);
    }
  }

  /** Reaping changes the process whose exit it is and no other. */
  lemma ReapEffect(s: State, q: nat)
    requires Inv(s) && s.reaping.Some? && s.reaping.value.owner == Some(q)
    ensures s.procs[q].progress.Broadcasted?
    ensures Apply(s, Reap) == State(s.procs[q := AfterOwn(s.procs[q])], s.starts, s.running - {s.procs[q].pid}, None)
  {
    var p := s.procs[q];
    assert HoldsPid(s, q) && Sound(s.starts, q, p) && s.reaping.value.exit.pid == p.pid;
    RegistryOf(s, q);
    ReapMarks(s, q);
    DeliverCopies(s.procs[q := p.(listed := 0, progress := Reaped(p.progress.windows, p.listed))], p.process, p.listed);
  }

  lemma ReapedHolders(s: State, q: nat, r: nat)
    requires q in s.procs && s.procs[q].progress.Broadcasted? && r in s.procs
    ensures var t := State(s.procs[q := AfterOwn(s.procs[q])], s.starts, s.running - {s.procs[q].pid}, None);
            if r == q then HoldsPid(t, q) ==> HoldsPid(s, q) else HoldsPid(t, r) == HoldsPid(s, r)
  {
  }

  lemma ReapOwned(s: State, q: nat)
    requires Inv(s) && s.reaping.Some? && s.reaping.value.owner == Some(q)
    ensures Inv(Apply(s, Reap))
  {
    ReapEffect(s, q);
    var p := s.procs[q];
    var t := State(s.procs[q := AfterOwn(p)], s.starts, s.running - {p.pid}, None);
    assert HoldsPid(s, q) && PidFree(s, q, p.pid);
    forall r | r in s.procs
      ensures Sound(t.starts, r, t.procs[r])
      ensures if r == q then HoldsPid(t, q) ==> HoldsPid(s, q) else HoldsPid(t, r) == HoldsPid(s, r)
    {
      assert Sound(s.starts, r, s.procs[r]);
      ReapedHolders(s, q, r);
    }
    forall y | y in t.starts
      ensures StartOk(t.procs, t.starts[y])
    {
      assert StartOk(s.procs, s.starts[y]);
    }
    ReapedRegistry(s, q, t);
    ReapedPids(s, q, t);
  }

  lemma ReapedRegistry(s: State, q: nat, t: State)
    requires Inv(s) && s.reaping.Some? && s.reaping.value.owner == Some(q) && s.procs[q].progress.Broadcasted?
    requires t == State(s.procs[q := AfterOwn(s.procs[q])], s.starts, s.running - {s.procs[q].pid}, None)
    requires forall r :: r in s.procs ==>
               if r == q then HoldsPid(t, q) ==> HoldsPid(s, q) else HoldsPid(t, r) == HoldsPid(s, r)
    ensures RegistryInv(t)
  {
    var p := s.procs[q];
    assert HoldsPid(s, q) && PidFree(s, q, p.pid);
    forall r | r in t.procs && HoldsPid(t, r)
      ensures ProcessesAt(t.running, t.procs[r].pid) == Copies(t.procs[r].process, t.procs[r].listed)
    {
      assert r != q ==> s.procs[r].pid != p.pid;
    }
    forall pid | pid in t.running
      ensures exists r :: r in t.procs && t.procs[r].pid == pid && t.procs[r].listed > 0
    {
      var r :| r in s.procs && s.procs[r].pid == pid && s.procs[r].listed > 0;
      assert t.procs[r] == s.procs[r];
    }
  }

  lemma ReapedPids(s: State, q: nat, t: State)
    requires PidInv(s) && q in s.procs && s.procs[q].progress.Broadcasted?
    requires t == State(s.procs[q := AfterOwn(s.procs[q])], s.starts, s.running - {s.procs[q].pid}, None)
    requires forall r :: r in s.procs ==>
               if r == q then HoldsPid(t, q) ==> HoldsPid(s, q) else HoldsPid(t, r) == HoldsPid(s, r)
    ensures PidInv(t)
  {
    forall r, o | r in t.procs && HoldsPid(t, r) && o in t.procs && o != r && HoldsPid(t, o)
      ensures t.procs[o].pid != t.procs[r].pid
    {
      assert HoldsPid(s, r) && HoldsPid(s, o);
    }
  }

  lemma StepInv(s: State, step: Step)
    requires Inv(s) && Enabled(s, step)
    ensures Inv(Apply(s, step))
  {
    match step
    case Create(_, _, _) => CreateStep(s, step);
    case Open(y, q) => OpenStep(s, y, q);
    case Unregister(y) => UnregisterStep(s, y);
    case Spawn(y, pid) => SpawnStep(s, y, pid);
    case Complete(y) => CompleteStep(s, y);
    case Register(y) => RegisterStep(s, y);
    case Abandon(y) => AbandonStep(s, y);
    case Report(e, owner) => ReportStep(s, e, owner);
    case Reap => ReapStep(s);
  }

  lemma ReapStep(s: State)
    requires Inv(s) && s.reaping.Some?
    ensures Inv(Apply(s, Reap))
  {
    if s.reaping.value.owner.Some? {
      ReapOwned(s, s.reaping.value.owner.value);
    } else {
      ReapNobody(s);
      ReapNobodyInv(s);
    }
  }

  lemma ReapNobodyInv(s: State)
    requires Inv(s) && s.reaping.Some? && s.reaping.value.owner == None
    ensures Inv(State(s.procs, s.starts, s.running, None))
  {
    var t := State(s.procs, s.starts, s.running, None);
    assert forall r :: r in s.procs ==> HoldsPid(t, r) == HoldsPid(s, r);
    HoldersKept(s, t);
  }

  lemma {:induction false} RunInv(trace: seq<State>, steps: seq<Step>, i: nat)
    requires Execution(trace, steps) && i < |trace|
    ensures Inv(trace[i])
  {
    if i > 0 {
      RunInv(trace, steps, i - 1);
      StepInv(trace[i - 1], steps[i - 1]);
    }
  }

  // ----- theorems about whole runs

  /** The exit has been reaped and no window of a start of the process is open. */
  ghost predicate Settled(s: State, q: nat) {
    q in s.procs && s.procs[q].progress.Reaped? && OpenOf(s.starts, q) == {}
  }

  function Deliveries(p: Tracked): nat { p.byStart + p.byReaper }

  /** Over every interleaving, with any number of starts of the process: HandleStart
      delivers an exit once for each window that was open at its broadcast, NotifyExit once
      for each entry that the registry held at its removal. So the exit is delivered
      exactly once just when those are one together. */
  lemma DeliveredExactlyOnceIff(trace: seq<State>, steps: seq<Step>, i: nat, q: nat)
    requires Execution(trace, steps) && i < |trace| && Settled(trace[i], q)
    ensures var p := trace[i].procs[q];
            && p.byStart == p.progress.windows
            && p.byReaper == p.progress.entries
            && (Deliveries(p) == 1 <==> p.progress.windows + p.progress.entries == 1)
  {
    RunInv(trace, steps, i);
    assert Sound(trace[i].starts, q, trace[i].procs[q]);
    assert Holding(trace[i].starts, q, trace[i].procs[q].pid) <= OpenOf(trace[i].starts, q);
  }

  /** Nothing is delivered before the exit, and never more than the two sides owe. */
  lemma NoSpuriousDelivery(trace: seq<State>, steps: seq<Step>, i: nat, q: nat)
    requires Execution(trace, steps) && i < |trace| && q in trace[i].procs
    ensures var p := trace[i].procs[q];
            && (p.progress == NotExited ==> Deliveries(p) == 0)
            && p.byStart <= DueFromStarts(p.progress) && p.byReaper == DueFromReaper(p.progress)
  {
    RunInv(trace, steps, i);
    assert Sound(trace[i].starts, q, trace[i].procs[q]);
  }

  predicate MidCall(st: Start) { st.phase == Opened || st.phase == Gap }

  /** Subscribe, HandleStart and NotifyExit are one step each: the second half of a call
      follows its first half at once. */
  ghost predicate WholeAt(s: State, step: Step) {
    && (s.reaping.Some? ==> step == Reap)
    && forall y :: y in s.starts && MidCall(s.starts[y]) ==>
         step == if s.starts[y].phase == Gap then Register(y) else Unregister(y)
  }

  ghost predicate WholeCalls(trace: seq<State>, steps: seq<Step>)
    requires Execution(trace, steps)
  {
    forall i :: 0 <= i < |steps| ==> WholeAt(trace[i], steps[i])
  }

  /** The starts of a process that would bring its exit to delivery: open windows and
      entries of the registry. */
  ghost function Attached(s: State, q: nat): nat
    requires q in s.procs
  {
    |OpenOf(s.starts, q)| + s.procs[q].listed
  }

  lemma ReapedStaysStep(s: State, step: Step, q: nat)
    requires Inv(s) && Enabled(s, step) && q in s.procs && s.procs[q].progress.Reaped?
    ensures q in Apply(s, step).procs && Apply(s, step).procs[q].progress == s.procs[q].progress
  {
    if step.Reap? {
      if s.reaping.value.owner.Some? {
        ReapEffect(s, s.reaping.value.owner.value);
      } else {
        ReapNobody(s);
      }
    }
  }

  lemma {:induction false} ReapedStays(trace: seq<State>, steps: seq<Step>, j: nat, i: nat, q: nat)
    requires Execution(trace, steps) && j <= i < |trace| && q in trace[j].procs && trace[j].procs[q].progress.Reaped?
    ensures q in trace[i].procs && trace[i].procs[q].progress == trace[j].procs[q].progress
  {
    if j < i {
      ReapedStays(trace, steps, j, i - 1, q);
      RunInv(trace, steps, i - 1);
      ReapedStaysStep(trace[i - 1], steps[i - 1], q);
    }
  }

  /** When the calls do not interleave inside each other, an exit is delivered once for
      every start attached when it is reported: by HandleStart for the open windows, by
      NotifyExit for the entries. */
  lemma WholeCallsDeliverAttached(trace: seq<State>, steps: seq<Step>, j: nat, i: nat, q: nat)
    requires Execution(trace, steps) && WholeCalls(trace, steps) && j < i < |trace|
    requires steps[j].Report? && steps[j].owner == Some(q) && Settled(trace[i], q)
    ensures q in trace[j].procs
    ensures var p := trace[i].procs[q];
            && p.byStart == |OpenOf(trace[j].starts, q)| && p.byReaper == trace[j].procs[q].listed
            && Deliveries(p) == Attached(trace[j], q)
  {
    RunInv(trace, steps, j);
    RunInv(trace, steps, j + 1);
    ReportKeeps(trace[j], steps[j].exit, steps[j].owner);
    assert trace[j + 1].procs[q].progress.Broadcasted?;
    assert WholeAt(trace[j + 1], steps[j + 1]);
    ReapEffect(trace[j + 1], q);
    ReapedStays(trace, steps, j + 2, i, q);
    DeliveredExactlyOnceIff(trace, steps, i, q);
  }

  /** A process is started one start at a time, and an exec not again once it has a PID. */
  ghost predicate OrderlyAt(s: State, step: Step) {
    step.Open? && step.q in s.procs ==>
      !Busy(s.starts, step.q) && (s.procs[step.q].pid != 0 ==> s.procs[step.q].process.init)
  }

  ghost predicate Orderly(trace: seq<State>, steps: seq<Step>)
    requires Execution(trace, steps)
  {
    forall i :: 0 <= i < |steps| ==> OrderlyAt(trace[i], steps[i])
  }

  /** Until its exit, a process with a PID is attached once. */
  ghost predicate Tidy(starts: map<nat, Start>, q: nat, p: Tracked) {
    p.pid != 0 ==>
      match p.progress
      case NotExited =>
        && (!Busy(starts, q) ==> p.listed == 1)
        && (forall y :: y in starts && starts[y].proc == q && starts[y].phase != Over ==>
              p.listed == One(starts[y].phase == Opened))
      case Broadcasted(windows) => windows + p.listed == 1
      case Reaped(windows, entries) => windows + entries == 1
  }

  predicate Unfinished(starts: map<nat, Start>, y: nat) { y in starts && starts[y].phase != Over }

  ghost predicate TidyInv(s: State) {
    && (forall q :: q in s.procs ==> Tidy(s.starts, q, s.procs[q]))
    && (forall y, z :: Unfinished(s.starts, y) && Unfinished(s.starts, z) && s.starts[y].proc == s.starts[z].proc ==>
          y == z)
  }

  lemma TidyElsewhere(starts: map<nat, Start>, q: nat, y: nat, st: Start, r: nat, p: Tracked)
    requires st.proc == q && (y in starts ==> starts[y].proc == q) && r != q && Tidy(starts, r, p)
    ensures Tidy(starts[y := st], r, p)
  {
    if z :| z in starts && starts[z].proc == r && starts[z].phase != Over {
      assert starts[y := st][z] == starts[z];
    }
  }

  lemma TidyMoved(s: State, q: nat, p: Tracked, y: nat, st: Start, running: Registry)
    requires TidyInv(s) && q in s.procs && st.proc == q && (y in s.starts ==> s.starts[y].proc == q)
    requires Tidy(s.starts[y := st], q, p)
    requires st.phase == Over || (if y in s.starts then s.starts[y].phase != Over else !Busy(s.starts, q))
    ensures TidyInv(Moved(s, q, p, y, st, running))
  {
    forall r | r in s.procs && r != q
      ensures Tidy(s.starts[y := st], r, s.procs[r])
    {
      TidyElsewhere(s.starts, q, y, st, r, s.procs[r]);
    }
  }

  lemma TidyOpen(s: State, y: nat, q: nat)
    requires Inv(s) && TidyInv(s) && Enabled(s, Open(y, q)) && WholeAt(s, Open(y, q)) && OrderlyAt(s, Open(y, q))
    ensures TidyInv(Apply(s, Open(y, q)))
  {
    var t := Apply(s, Open(y, q));
    assert t == Moved(s, q, s.procs[q], y, t.starts[y], s.running) by {
      assert s.procs[q := s.procs[q]] == s.procs;
    }
    assert Tidy(s.starts, q, s.procs[q]);
    assert t.starts[y].phase != Over;
    TidyMoved(s, q, s.procs[q], y, t.starts[y], s.running);
  }

  /** The other steps of a start: what becomes of its process and itself. */
  lemma TidyOwn(s: State, step: Step, y: nat)
    requires Inv(s) && TidyInv(s) && Enabled(s, step) && WholeAt(s, step) && y in s.starts
    requires step == Unregister(y) || (step.Spawn? && step.y == y) || step == Complete(y) || step == Register(y)
             || step == Abandon(y)
    ensures var q, t := s.starts[y].proc, Apply(s, step);
            && q in s.procs && y in t.starts && q in t.procs && t.starts[y].proc == q && s.starts[y].phase != Over
            && t == Moved(s, q, t.procs[q], y, t.starts[y], t.running)
            && Tidy(t.starts, q, t.procs[q])
  {
    var q, t := s.starts[y].proc, Apply(s, step);
    assert StartOk(s.procs, s.starts[y]) && Tidy(s.starts, q, s.procs[q]) && Sound(s.starts, q, s.procs[q]);
    assert s.procs[q := s.procs[q]] == s.procs && s.starts[y := s.starts[y]] == s.starts;
    assert forall z :: z in t.starts && t.starts[z].proc == q && t.starts[z].phase != Over ==> z == y;
    assert t.starts[y].phase != Over ==> Busy(t.starts, q);
  }

  lemma TidyAlike(starts: map<nat, Start>, starts': map<nat, Start>, q: nat, p: Tracked)
    requires starts'.Keys == starts.Keys && Tidy(starts, q, p)
    requires forall y :: y in starts ==> starts'[y].proc == starts[y].proc && starts'[y].phase == starts[y].phase
    ensures Tidy(starts', q, p)
  {
    assert Busy(starts', q) == Busy(starts, q);
  }

  lemma ReportedAttached(s: State, e: Exit, q: nat)
    requires Enabled(s, Report(e, Some(q))) && Attached(s, q) == 1
    ensures Tidy(Apply(s, Report(e, Some(q))).starts, q, Apply(s, Report(e, Some(q))).procs[q])
  {
  }

  lemma TidyFrame(s: State, t: State, owner: Option<nat>)
    requires TidyInv(s) && t.procs.Keys == s.procs.Keys && t.starts.Keys == s.starts.Keys
    requires forall y :: y in s.starts ==>
               t.starts[y].proc == s.starts[y].proc && t.starts[y].phase == s.starts[y].phase
    requires forall q :: q in s.procs && owner != Some(q) ==> t.procs[q] == s.procs[q]
    requires owner.Some? && owner.value in s.procs ==> Tidy(t.starts, owner.value, t.procs[owner.value])
    ensures TidyInv(t)
  {
    forall q | q in t.procs && owner != Some(q)
      ensures Tidy(t.starts, q, t.procs[q])
    {
      TidyAlike(s.starts, t.starts, q, s.procs[q]);
    }
    assert forall y :: Unfinished(t.starts, y) ==> Unfinished(s.starts, y);
  }

  lemma TidyReport(s: State, e: Exit, owner: Option<nat>)
    requires Inv(s) && TidyInv(s) && Enabled(s, Report(e, owner)) && WholeAt(s, Report(e, owner))
    ensures TidyInv(Apply(s, Report(e, owner)))
  {
    if owner.Some? {
      OnceAttached(s, owner.value);
      ReportedAttached(s, e, owner.value);
    }
    ReportKeeps(s, e, owner);
    TidyFrame(s, Apply(s, Report(e, owner)), owner);
  }

  /** Outside every call a process that has not exited is attached once. */
  lemma OnceAttached(s: State, q: nat)
    requires TidyInv(s) && q in s.procs && s.procs[q].pid != 0 && s.procs[q].progress == NotExited
    requires forall y :: y in s.starts ==> !MidCall(s.starts[y])
    ensures Attached(s, q) == 1
  {
    assert Tidy(s.starts, q, s.procs[q]);
    if Busy(s.starts, q) {
      var y :| y in s.starts && s.starts[y].proc == q && s.starts[y].phase != Over;
      assert OpenOf(s.starts, q) == {y};
    } else {
      assert OpenOf(s.starts, q) == {};
    }
  }

  lemma TidyReap(s: State)
    requires Inv(s) && TidyInv(s) && s.reaping.Some?
    ensures TidyInv(Apply(s, Reap))
  {
    var owner := s.reaping.value.owner;
    if owner.Some? {
      ReapEffect(s, owner.value);
      assert Tidy(s.starts, owner.value, s.procs[owner.value]);
    } else {
      ReapNobody(s);
    }
  }

  lemma TidyStep(s: State, step: Step)
    requires Inv(s) && TidyInv(s) && Enabled(s, step) && WholeAt(s, step) && OrderlyAt(s, step)
    ensures TidyInv(Apply(s, step))
  {
    match step
    case Create(_, _, _) =>
    case Open(y, q) => TidyOpen(s, y, q);
    case Report(e, owner) => TidyReport(s, e, owner);
    case Reap => TidyReap(s);
    case _ =>
      var t, q := Apply(s, step), s.starts[step.y].proc;
      TidyOwn(s, step, step.y);
      TidyMoved(s, q, t.procs[q], step.y, t.starts[step.y], t.running);
  }

  lemma {:induction false} TidyRun(trace: seq<State>, steps: seq<Step>, i: nat)
    requires Execution(trace, steps) && WholeCalls(trace, steps) && Orderly(trace, steps) && i < |trace|
    ensures TidyInv(trace[i])
  {
    if i > 0 {
      TidyRun(trace, steps, i - 1);
      RunInv(trace, steps, i - 1);
      TidyStep(trace[i - 1], steps[i - 1]);
    }
  }

  /** If also no two starts of a process overlap and no exec is started again once it has a
      PID, every exit is delivered exactly once: by HandleStart if it came inside the start
      window, by NotifyExit otherwise, and never by both. */
  lemma WholeCallsDeliverOnce(trace: seq<State>, steps: seq<Step>, i: nat, q: nat)
    requires Execution(trace, steps) && WholeCalls(trace, steps) && Orderly(trace, steps)
    requires i < |trace| && Settled(trace[i], q)
    ensures var p := trace[i].procs[q];
            && Deliveries(p) == 1
            && (p.byStart == 1 <==> p.progress.windows == 1)
            && (p.byReaper == 1 <==> p.progress.windows == 0)
  {
    RunInv(trace, steps, i);
    TidyRun(trace, steps, i);
    assert Sound(trace[i].starts, q, trace[i].procs[q]) && Tidy(trace[i].starts, q, trace[i].procs[q]);
    DeliveredExactlyOnceIff(trace, steps, i, q);
  }
}
