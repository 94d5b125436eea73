/** Runs in which an exit is lost, or delivered more than once. */
module ExitDeliveryRuns {
  import opened ExitTracker
  import opened ExitDelivery
  import opened Wrappers

  ghost predicate Reachable(s: State) {
    exists trace, steps :: Execution(trace, steps) && trace[|steps|] == s
  }

  lemma ReachNext(s: State, step: Step)
    requires Reachable(s) && Enabled(s, step)
    ensures Reachable(Apply(s, step))
  {
    var trace, steps :| Execution(trace, steps) && trace[|steps|] == s;
    var s' := Apply(s, step);
    assert Execution(trace + [s'], steps + [step]);
    assert (trace + [s'])[|steps + [step]|] == s';
  }

  const INIT := Process(0, 0, true)
  const EXIT := Exit(7, 0)

  /** One init, with PID 7. */
  function Alone(p: Tracked, starts: map<nat, Start>, running: Registry, reaping: Option<Pending>): State {
    State(map[0 := p], starts, running, reaping)
  }

  function Before(listed: nat): Tracked { Tracked(INIT, 7, listed, NotExited, 0, 0) }

  function In(phase: Phase): Start { Start(0, phase, map[]) }

  /** The init is created and gets its PID. */
  lemma ReachesCalling()
    ensures Reachable(Alone(Before(0), map[1 := In(Calling)], map[], None))
  {
    assert Execution([INITIAL], []);
    ReachNext(INITIAL, Create(0, 0, true));
    var s := Alone(Tracked(INIT, 0, 0, NotExited, 0, 0), map[], map[], None);
    assert Apply(INITIAL, Create(0, 0, true)) == s;
    ReachNext(s, Open(1, 0));
    s := Alone(Tracked(INIT, 0, 0, NotExited, 0, 0), map[1 := In(Calling)], map[], None);
    ReachNext(s, Spawn(1, 7));
  }

  /** Its window is closed empty. */
  lemma ReachesGap()
    ensures Reachable(Alone(Before(0), map[1 := In(Gap)], map[], None))
  {
    ReachesCalling();
    var s := Alone(Before(0), map[1 := In(Calling)], map[], None);
    ReachNext(s, Complete(1));
    assert Apply(s, Complete(1)) == Alone(Before(0), map[1 := In(Gap)], map[], None);
  }

  lemma ReachesListed()
    ensures Reachable(Alone(Before(1), map[1 := In(Over)], map[7 := [INIT]], None))
  {
    ReachesGap();
    var s := Alone(Before(0), map[1 := In(Gap)], map[], None);
    ReachNext(s, Register(1));
    assert ProcessesAt(map[], 7) + [INIT] == [INIT];
    assert Apply(s, Register(1)) == Alone(Before(1), map[1 := In(Over)], map[7 := [INIT]], None);
  }

  /** The exit is broadcast while no window is open. */
  lemma ReportUnseen(p: Tracked, starts: map<nat, Start>, running: Registry)
    requires Reachable(Alone(p, starts, running, None)) && p.pid == 7 && p.progress == NotExited
    requires forall y :: y in starts ==> !WindowOpen(starts[y])
    ensures Reachable(Alone(p.(progress := Broadcasted(0)), starts, running, Some(Pending(EXIT, Some(0)))))
  {
    var s := Alone(p, starts, running, None);
    ReachNext(s, Report(EXIT, Some(0)));
    assert OpenOf(starts, 0) == {};
    assert Apply(s, Report(EXIT, Some(0))).starts == starts;
    assert Apply(s, Report(EXIT, Some(0))).procs == map[0 := p.(progress := Broadcasted(0))];
  }

  /** The exit is reaped with as many entries as are listed. */
  lemma ReapAlone(p: Tracked, starts: map<nat, Start>, running: Registry)
    requires Reachable(Alone(p, starts, running, Some(Pending(EXIT, Some(0)))))
    requires p.pid == 7 && p.progress.Broadcasted? && p.process.id == 0
    requires ProcessesAt(running, 7) == Copies(p.process, p.listed)
    ensures Reachable(Alone(AfterOwn(p), starts, running - {7}, None))
  {
    var s := Alone(p, starts, running, Some(Pending(EXIT, Some(0))));
    ReachNext(s, Reap);
    var marked := map[0 := p.(listed := 0, progress := Reaped(p.progress.windows, p.listed))];
    CountCopies(p.process, p.listed);
    assert Marked(s.procs, Some(0), 7, Copies(p.process, p.listed)) == marked;
    DeliverCopies(marked, p.process, p.listed);
    assert marked[0 := AfterOwn(p)] == map[0 := AfterOwn(p)];
  }

  /** The exit is reaped while the registry is empty. */
  lemma ReapNothing(starts: map<nat, Start>)
    requires Reachable(Alone(Before(0).(progress := Broadcasted(0)), starts, map[], Some(Pending(EXIT, Some(0)))))
    ensures Reachable(Alone(Before(0).(progress := Reaped(0, 0)), starts, map[], None))
  {
    var empty: Registry := map[];
    assert empty - {7} == empty && Copies(INIT, 0) == [];
    ReapAlone(Before(0).(progress := Broadcasted(0)), starts, empty);
  }

  /** The exit falls between the two halves of HandleStart: the window is closed,
      the registry does not hold the process yet, and nobody delivers. */
  lemma LostInsideHandleStart() returns (s: State)
    ensures Reachable(s) && Settled(s, 0) && Deliveries(s.procs[0]) == 0
  {
    ReachesGap();
    ReportUnseen(Before(0), map[1 := In(Gap)], map[]);
    ReapNothing(map[1 := In(Gap)]);
    s := Alone(Before(0).(progress := Reaped(0, 0)), map[1 := In(Gap)], map[], None);
    ReachNext(s, Register(1));
    s := Apply(s, Register(1));
    assert OpenOf(s.starts, 0) == {};
  }

  /** The init is started: a second window opens, the entry is not yet removed. */
  lemma ReachesRestart()
    ensures Reachable(Alone(Before(1), map[1 := In(Over), 2 := In(Opened)], map[7 := [INIT]], None))
  {
    ReachesListed();
    var s := Alone(Before(1), map[1 := In(Over)], map[7 := [INIT]], None);
    ReachNext(s, Open(2, 0));
    assert Apply(s, Open(2, 0)) == Alone(Before(1), map[1 := In(Over), 2 := In(Opened)], map[7 := [INIT]], None);
  }

  const SEEN: Window := map[7 := [EXIT]]

  lemma ExitInsideSubscribe()
    ensures Reachable(Alone(Before(1).(progress := Broadcasted(1)), map[1 := In(Over), 2 := Start(0, Opened, SEEN)],
                            map[7 := [INIT]], Some(Pending(EXIT, Some(0)))))
  {
    ReachesRestart();
    var starts := map[1 := In(Over), 2 := In(Opened)];
    var s := Alone(Before(1), starts, map[7 := [INIT]], None);
    ReachNext(s, Report(EXIT, Some(0)));
    assert OpenOf(starts, 0) == {2};
    assert ExitsFor(map[], 7) + [EXIT] == [EXIT];
    assert Record(In(Opened), EXIT) == Start(0, Opened, SEEN);
    assert Apply(s, Report(EXIT, Some(0))).starts == map[1 := In(Over), 2 := Start(0, Opened, SEEN)];
    assert Apply(s, Report(EXIT, Some(0))).procs == map[0 := Before(1).(progress := Broadcasted(1))];
  }

  /** The exit falls between the two halves of a restart's Subscribe: the new
      window records it while the registry still holds the process, and both
      sides deliver. */
  lemma DeliveredTwiceInsideSubscribe() returns (s: State)
    ensures Reachable(s) && Settled(s, 0) && Deliveries(s.procs[0]) == 2
  {
    ExitInsideSubscribe();
    var p := Before(1).(progress := Broadcasted(1));
    var starts := map[1 := In(Over), 2 := Start(0, Opened, SEEN)];
    assert Copies(INIT, 1) == [INIT];
    ReapAlone(p, starts, map[7 := [INIT]]);
    var one: Registry := map[7 := [INIT]];
    assert one - {7} == map[];
    s := Alone(AfterOwn(p), starts, map[], None);
    ReachNext(s, Unregister(2));
    s := Apply(s, Unregister(2));
    assert s.procs[0] == AfterOwn(p) && s.starts == map[1 := In(Over), 2 := Start(0, Calling, SEEN)];
    ReachNext(s, Complete(2));
    s := Apply(s, Complete(2));
    assert OpenOf(s.starts, 0) == {};
  }

  /** A restart's whole Subscribe falls between the two halves of NotifyExit: it opens its
      window after the broadcast and takes the process out of the registry before the
      removal. */
  lemma RestartInsideNotifyExit()
    ensures Reachable(Alone(Before(0).(progress := Broadcasted(0)), map[1 := In(Over), 2 := In(Calling)], map[],
                            Some(Pending(EXIT, Some(0)))))
  {
    ReachesListed();
    ReportUnseen(Before(1), map[1 := In(Over)], map[7 := [INIT]]);
    var p := Before(1).(progress := Broadcasted(0));
    var s := Alone(p, map[1 := In(Over)], map[7 := [INIT]], Some(Pending(EXIT, Some(0))));
    ReachNext(s, Open(2, 0));
    s := Alone(p, map[1 := In(Over), 2 := In(Opened)], map[7 := [INIT]], Some(Pending(EXIT, Some(0))));
    ReachNext(s, Unregister(2));
    assert Others([INIT], 0) == [];
    var one: Registry := map[7 := [INIT]];
    assert one - {7} == map[];
    assert Apply(s, Unregister(2)).starts == map[1 := In(Over), 2 := In(Calling)];
  }

  /** Then neither side has the exit. */
  lemma LostInsideNotifyExit() returns (s: State)
    ensures Reachable(s) && Settled(s, 0) && Deliveries(s.procs[0]) == 0
  {
    RestartInsideNotifyExit();
    ReapNothing(map[1 := In(Over), 2 := In(Calling)]);
    s := RegistersSecond(Before(0).(progress := Reaped(0, 0)));
  }

  lemma RegistersSecond(p: Tracked) returns (s: State)
    requires Reachable(Alone(p, map[1 := In(Over), 2 := In(Calling)], map[], None)) && p.pid == 7
    ensures Reachable(s) && 0 in s.procs && s.procs[0] == p.(listed := p.listed + 1) && OpenOf(s.starts, 0) == {}
  {
    s := Alone(p, map[1 := In(Over), 2 := In(Calling)], map[], None);
    ReachNext(s, Complete(2));
    s := Apply(s, Complete(2));
    assert s.starts == map[1 := In(Over), 2 := In(Gap)];
    ReachNext(s, Register(2));
    s := Apply(s, Register(2));
    assert s.starts == map[1 := In(Over), 2 := In(Over)];
  }

  // ----- starting a running exec again, every call whole

  ghost predicate WholeReachable(s: State) {
    exists trace, steps :: Execution(trace, steps) && WholeCalls(trace, steps) && trace[|steps|] == s
  }

  lemma WholeNext(s: State, step: Step)
    requires WholeReachable(s) && Enabled(s, step) && WholeAt(s, step)
    ensures WholeReachable(Apply(s, step))
  {
    var trace, steps :| Execution(trace, steps) && WholeCalls(trace, steps) && trace[|steps|] == s;
    var s' := Apply(s, step);
    var trace', steps' := trace + [s'], steps + [step];
    assert Execution(trace', steps');
    forall i | 0 <= i < |steps'|
      ensures WholeAt(trace'[i], steps'[i])
    {
      assert i < |steps| ==> WholeAt(trace[i], steps[i]);
    }
    assert trace'[|steps'|] == s';
  }

  const EXEC := Process(0, 0, false)

  /** An exec that n starts, one after the other, have registered. */
  ghost predicate StartedTimes(s: State, n: nat) {
    && s.procs == map[0 := Tracked(EXEC, 7, n, NotExited, 0, 0)]
    && s.running == map[7 := Copies(EXEC, n)] && s.reaping == None
    && forall y :: y in s.starts ==> y <= n && s.starts[y].phase == Over
  }

  lemma SpawnedOnce() returns (s: State)
    ensures WholeReachable(s)
    ensures s == State(map[0 := Tracked(EXEC, 7, 0, NotExited, 0, 0)], map[1 := In(Calling)], map[], None)
  {
    assert Execution([INITIAL], []) && WholeCalls([INITIAL], []);
    WholeNext(INITIAL, Create(0, 0, false));
    s := Apply(INITIAL, Create(0, 0, false));
    WholeNext(s, Open(1, 0));
    s := Apply(s, Open(1, 0));
    assert s.starts == map[1 := In(Calling)];
    WholeNext(s, Spawn(1, 7));
    s := Apply(s, Spawn(1, 7));
  }

  lemma StartedOnce() returns (s: State)
    ensures WholeReachable(s) && StartedTimes(s, 1)
  {
    s := SpawnedOnce();
    s := Registers(s, 1);
    assert Copies(EXEC, 0) + [EXEC] == Copies(EXEC, 1);
  }

  /** HandleStart for an exec whose window has seen nothing. */
  lemma Registers(s: State, y: nat) returns (t: State)
    requires WholeReachable(s) && s.reaping == None && Running(s, y) && s.starts[y].phase == Calling
    requires ProcOf(s, y).pid != 0 && ExitsFor(s.starts[y].window, ProcOf(s, y).pid) == []
    requires forall z :: z in s.starts && z != y ==> s.starts[z].phase == Over
    ensures WholeReachable(t)
    ensures var p := ProcOf(s, y);
            t == State(s.procs[s.starts[y].proc := p.(listed := p.listed + 1)],
                       s.starts[y := s.starts[y].(phase := Over)],
                       AddProcess(s.running, p.pid, p.process), None)
  {
    WholeNext(s, Complete(y));
    t := Apply(s, Complete(y));
    WholeNext(t, Register(y));
    t := Apply(t, Register(y));
    assert t.starts == s.starts[y := s.starts[y].(phase := Over)];
  }

  lemma StartAgain(s: State, n: nat) returns (t: State)
    requires WholeReachable(s) && StartedTimes(s, n) && n > 0
    ensures WholeReachable(t) && StartedTimes(t, n + 1)
  {
    WholeNext(s, Open(n + 1, 0));
    t := Apply(s, Open(n + 1, 0));
    t := Registers(t, n + 1);
    assert Copies(EXEC, n) + [EXEC] == Copies(EXEC, n + 1);
  }

  lemma {:induction false} StartsTimes(n: nat) returns (s: State)
    requires n > 0
    ensures WholeReachable(s) && StartedTimes(s, n)
  {
    if n == 1 {
      s := StartedOnce();
    } else {
      s := StartsTimes(n - 1);
      s := StartAgain(s, n - 1);
    }
  }

  lemma ReportsExec(s: State, n: nat) returns (t: State)
    requires WholeReachable(s) && StartedTimes(s, n)
    ensures WholeReachable(t) && OpenOf(t.starts, 0) == {}
    ensures t.procs == map[0 := Tracked(EXEC, 7, n, Broadcasted(0), 0, 0)] && t.running == map[7 := Copies(EXEC, n)]
    ensures t.reaping == Some(Pending(EXIT, Some(0))) && forall y :: y in t.starts ==> t.starts[y].phase == Over
  {
    WholeNext(s, Report(EXIT, Some(0)));
    t := Apply(s, Report(EXIT, Some(0)));
    assert OpenOf(s.starts, 0) == {};
  }

  /** An exec started n times while it runs has its exit delivered n times, though every
      call is whole and no two overlap. */
  lemma RepeatedStartsDeliverEach(n: nat) returns (s: State)
    requires n > 0
    ensures WholeReachable(s) && Settled(s, 0) && Deliveries(s.procs[0]) == n
  {
    s := StartsTimes(n);
    var t := ReportsExec(s, n);
    WholeNext(t, Reap);
    s := Apply(t, Reap);
    var marked := map[0 := Tracked(EXEC, 7, 0, Reaped(0, n), 0, 0)];
    CountCopies(EXEC, n);
    assert Marked(t.procs, Some(0), 7, Copies(EXEC, n)) == marked;
    DeliverCopies(marked, EXEC, n);
  }
}
