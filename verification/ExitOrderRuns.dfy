/** Runs that break the order of exits, and runs that leave an init exit waiting. */
module ExitOrderRuns {
  import opened ExitTracker
  import opened ExitOrdering
  import opened ExitWaiting
  import opened Wrappers

  function Fresh(x: nat, stage: Stage): Start { Start(x, 0, stage, false, false, false, NotYet, NotYet) }

  /** Container 0 with one running exec and its start, at some stage. */
  function OneExec(containers: map<nat, ExitState>, stage: Stage): State {
    INITIAL.(containers := containers, execs := map[1 := Exec(0, Running, false)], starts := map[1 := Fresh(1, stage)])
  }

  /** A first start of exec 1 is admitted. */
  lemma AdmittedExec() returns (s: State)
    ensures Reachable(s)
    ensures s == INITIAL.(execs := map[1 := Exec(0, Idle, false)], starts := map[1 := Fresh(1, Admitted)])
  {
    ReachesItself(INITIAL);
    ReachesNext(INITIAL, INITIAL, Create(1, 0));
    s := Apply(INITIAL, Create(1, 0));
    ReachesNext(INITIAL, s, Admit(1, 1, 0));
    s := Apply(s, Admit(1, 1, 0));
  }

  /** A start of an exec that has no PID yet goes on until it is listed. */
  lemma SpawnsAndLists(s: State, y: nat) returns (t: State)
    requires Reachable(s) && y in s.starts && s.starts[y].stage == Admitted && Known(s.execs, s.starts[y])
    requires s.execs[s.starts[y].exec].life == Idle && !s.execs[s.starts[y].exec].removed && !s.starts[y].seen
    ensures Reachable(t)
    ensures var x := s.starts[y].exec;
            t == s.(starts := s.starts[y := s.starts[y].(stage := Listed)],
                    execs := s.execs[x := s.execs[x].(life := Running)])
  {
    var x := s.starts[y].exec;
    ReachesNext(INITIAL, s, Subscribe(y));
    t := Apply(s, Subscribe(y));
    ReachesNext(INITIAL, t, Spawn(y));
    t := Apply(t, Spawn(y));
    ReachesNext(INITIAL, t, Complete(y));
    t := Apply(t, Complete(y));
    ReachesNext(INITIAL, t, List(y));
    t := Apply(t, List(y));
  }

  lemma ListedExec() returns (s: State)
    ensures Reachable(s) && s == OneExec(map[], Listed)
  {
    s := AdmittedExec();
    s := SpawnsAndLists(s, 1);
  }

  /** An exec of container 0, counted up. */
  lemma CountedExec() returns (s: State)
    ensures Reachable(s) && s == OneExec(map[0 := ExitState(1, None, None)], Up)
  {
    s := ListedExec();
    ReachesNext(INITIAL, s, CountUp(1));
    s := Apply(s, CountUp(1));
  }

  /** The reaper takes the exit of an exec. */
  lemma Exits(s: State, x: nat) returns (t: State)
    requires Reachable(s) && x in s.execs && s.execs[x].life == Running
    ensures Reachable(t)
    ensures var c := s.execs[x].container;
            t == s.(execs := s.execs[x := s.execs[x].(life := Reaped)],
                    starts := map y | y in s.starts :: Takes(Sees(s.starts[y], x, c), x, c))
  {
    ReachesNext(INITIAL, s, Report(x));
    t := Apply(s, Report(x));
    ReachesNext(INITIAL, t, Reap(x));
    t := Apply(t, Reap(x));
  }

  lemma PublishesExec(s: State, y: nat) returns (t: State)
    requires Reachable(s) && Enabled(s, PublishExec(y))
    ensures Reachable(t)
    ensures t == s.(starts := s.starts[y := s.starts[y].(published := true)], log := s.log + [ExecExit(y)])
  {
    ReachesNext(INITIAL, s, PublishExec(y));
    t := Apply(s, PublishExec(y));
  }

  /** The init dies inside its start window while an exec runs, every count paired. */
  lemma EarlyInitOvertakes() returns (s: State)
    ensures Reachable(s) && s.log == [InitExit(0), ExecExit(1)] && 1 in s.starts && s.starts[1].container == 0
    ensures Strays(s.starts, 0) == 0
  {
    s := CountedExec();
    ReachesNext(INITIAL, s, EarlyInit(0));
    s := Apply(s, EarlyInit(0));
    s := Exits(s, 1);
    s := PublishesExec(s, 1);
    assert Tooks(s.starts, 0) == {} && Refusals(s.starts, 0) == {};
  }

  /** An init exit found at a counter of zero is let through. */
  lemma ZeroLetsThrough(s: State) returns (t: State)
    requires Reachable(s) && PhaseOf(s.inits, 0) == Alive && Counter(s, 0) == 0
    ensures Reachable(t)
    ensures t == s.(containers := StashInitExit(s.containers, 0, Exit(7, 0)), inits := s.inits[0 := MayPublish])
  {
    ReachesNext(INITIAL, s, InitExits(0, Exit(7, 0)));
    t := Apply(s, InitExits(0, Exit(7, 0)));
    ReachesNext(INITIAL, t, Decide(0));
    t := Apply(t, Decide(0));
  }

  lemma PublishesInit(s: State) returns (t: State)
    requires Reachable(s) && PhaseOf(s.inits, 0) == MayPublish
    ensures Reachable(t) && t == s.(inits := s.inits[0 := Published], log := s.log + [InitExit(0)])
  {
    ReachesNext(INITIAL, s, PublishInit(0));
    t := Apply(s, PublishInit(0));
  }

  /** An exec is admitted, the init exit is let through at a counter of zero, and the exec
      is registered after that. */
  lemma RegisteredLate() returns (s: State)
    ensures Reachable(s) && s.log == [] && s.inits == map[0 := MayPublish]
    ensures s.starts == map[1 := Fresh(1, Up)] && s.execs == map[1 := Exec(0, Running, false)]
  {
    s := AdmittedExec();
    s := ZeroLetsThrough(s);
    s := SpawnsAndLists(s, 1);
    ReachesNext(INITIAL, s, CountUp(1));
    s := Apply(s, CountUp(1));
  }

  /** Its exit follows the init exit. */
  lemma LateRegistrationOvertaken() returns (s: State)
    ensures Reachable(s) && s.log == [InitExit(0), ExecExit(1)] && 1 in s.starts && s.starts[1].stage == Up
    ensures s.starts[1].container == 0 && Strays(s.starts, 0) == 0
  {
    s := RegisteredLate();
    s := PublishesInit(s);
    s := Exits(s, 1);
    s := PublishesExec(s, 1);
    assert Tooks(s.starts, 0) == {} && Refusals(s.starts, 0) == {};
  }

  /** Or it dies inside its own start window, and its exit follows too. */
  lemma CaughtExitOvertaken() returns (s: State)
    ensures Reachable(s) && s.log == [InitExit(0), ExecExit(1)] && 1 in s.starts && s.starts[1].stage == Caught
    ensures s.starts[1].container == 0
  {
    s := SpawnedLate();
    s := Exits(s, 1);
    assert s.starts == map[1 := Fresh(1, Spawned).(seen := true)];
    ReachesNext(INITIAL, s, Catch(1));
    s := Apply(s, Catch(1));
    s := PublishesExec(s, 1);
  }

  lemma SpawnedLate() returns (s: State)
    ensures Reachable(s) && s.log == [InitExit(0)]
    ensures s.execs == map[1 := Exec(0, Running, false)] && s.starts == map[1 := Fresh(1, Spawned)]
  {
    s := AdmittedExec();
    s := ZeroLetsThrough(s);
    s := PublishesInit(s);
    ReachesNext(INITIAL, s, Subscribe(1));
    s := Apply(s, Subscribe(1));
    ReachesNext(INITIAL, s, Spawn(1));
    s := Apply(s, Spawn(1));
  }

  /** A start fails, for exec x or for one that does not exist. */
  lemma Fails(s: State, y: nat, x: nat) returns (t: State)
    requires Reachable(s) && y !in s.starts && !InitHasExited(s.containers, 0) && 0 in s.containers
    requires x in s.execs ==> s.execs[x].container == 0
    ensures Reachable(t)
    ensures t == s.(containers := DecrementExecs(s.containers, 0),
                    closed := if Closes(s.containers, 0).Some? then s.closed + {Closes(s.containers, 0).value}
                              else s.closed,
                    starts := s.starts[y := Fresh(x, if x in s.execs then Failed else Over).(refusal := Took)])
  {
    ReachesNext(INITIAL, s, Admit(y, x, 0));
    t := Apply(s, Admit(y, x, 0));
    ReachesNext(INITIAL, t, Subscribe(y));
    t := Apply(t, Subscribe(y));
    ReachesNext(INITIAL, t, FailStart(y, x in s.execs));
    t := Apply(t, FailStart(y, x in s.execs));
  }

  /** A start of an exec that does not exist is counted down and cancels the running
      exec's count. */
  lemma StrayCancels() returns (s: State)
    ensures Reachable(s)
    ensures s == OneExec(map[0 := ExitState(0, None, None)], Up).(
                   starts := Two(Fresh(1, Up), Fresh(2, Over).(refusal := Took)))
  {
    s := CountedExec();
    s := Fails(s, 2, 2);
  }

  /** Two starts. */
  function Two(a: Start, b: Start): map<nat, Start> { map[1 := a, 2 := b] }

  lemma TwoUpdate(a: Start, b: Start, d: Start)
    ensures Two(a, b)[1 := d] == Two(d, b) && Two(a, b)[2 := d] == Two(a, d)
  {
  }

  /** The exit of exec 1, where there are two starts. */
  lemma ExitsForTwo(s: State, a: Start, b: Start) returns (t: State)
    requires Reachable(s) && s.starts == Two(a, b) && s.execs == map[1 := Exec(0, Running, false)]
    ensures Reachable(t)
    ensures t == s.(execs := map[1 := Exec(0, Reaped, false)],
                    starts := Two(Takes(Sees(a, 1, 0), 1, 0), Takes(Sees(b, 1, 0), 1, 0)))
  {
    t := Exits(s, 1);
    assert t.starts == Two(Takes(Sees(a, 1, 0), 1, 0), Takes(Sees(b, 1, 0), 1, 0));
  }

  lemma StrayLetsThrough() returns (s: State)
    ensures Reachable(s) && s.log == [InitExit(0)] && s.execs == map[1 := Exec(0, Running, false)]
    ensures s.starts == Two(Fresh(1, Up), Fresh(2, Over).(refusal := Took))
  {
    s := StrayCancels();
    s := ZeroLetsThrough(s);
    s := PublishesInit(s);
  }

  lemma StrayExits() returns (s: State)
    ensures Reachable(s) && s.log == [InitExit(0)]
    ensures s.starts == Two(Fresh(1, Up).(taken := true), Fresh(2, Over).(refusal := Took))
  {
    s := StrayLetsThrough();
    s := ExitsForTwo(s, Fresh(1, Up), Fresh(2, Over).(refusal := Took));
  }

  lemma StrayPublishes() returns (s: State)
    ensures Reachable(s) && s.log == [InitExit(0), ExecExit(1)]
    ensures s.starts == Two(Fresh(1, Up).(taken := true, published := true), Fresh(2, Over).(refusal := Took))
  {
    var a, b := Fresh(1, Up).(taken := true), Fresh(2, Over).(refusal := Took);
    s := StrayExits();
    TwoUpdate(a, b, a.(published := true));
    s := PublishesExec(s, 1);
  }

  lemma StrayLetsInitExitOvertake() returns (s: State)
    ensures Reachable(s) && s.log == [InitExit(0), ExecExit(1)] && 1 in s.starts && s.starts[1].container == 0
    ensures Strays(s.starts, 0) == 1
  {
    s := StrayPublishes();
    OneStray(Fresh(1, Up).(taken := true, published := true), Fresh(2, Over).(refusal := Took));
  }

  lemma OneStray(a: Start, b: Start)
    requires a.refusal == NotYet && a.down == NotYet && b.container == 0 && b.refusal == Took && b.down == NotYet
    ensures Strays(Two(a, b), 0) == 1
  {
    assert Tooks(Two(a, b), 0) == {} && Refusals(Two(a, b), 0) == {2};
  }

  lemma CountsDownExec(s: State, y: nat) returns (t: State)
    requires Reachable(s) && Enabled(s, CountDown(y)) && Closes(s.containers, s.starts[y].container) == None
    ensures Reachable(t)
    ensures var c := s.starts[y].container;
            t == s.(containers := DecrementExecs(s.containers, c),
                    starts := s.starts[y := s.starts[y].(down := Outcome(s.containers, c))])
  {
    ReachesNext(INITIAL, s, CountDown(y));
    t := Apply(s, CountDown(y));
  }

  function Done(x: nat, down: Down): Start { Start(x, 0, Up, false, true, true, NotYet, down) }

  /** An exec's exit is reaped between its listing and its count-up, and its count-down
      finds no counter. */
  lemma CountedDownFirst() returns (s: State)
    ensures Reachable(s)
    ensures s == INITIAL.(execs := map[1 := Exec(0, Reaped, false)], log := [ExecExit(1)],
                          starts := map[1 := Done(1, Missed).(stage := Listed)])
  {
    s := ListedExec();
    s := Exits(s, 1);
    assert s.starts == map[1 := Fresh(1, Listed).(taken := true)];
    s := PublishesExec(s, 1);
    s := CountsDownExec(s, 1);
  }

  /** A counter that is not zero holds the init exit back. */
  lemma NonZeroDelays(s: State) returns (t: State)
    requires Reachable(s) && PhaseOf(s.inits, 0) == Alive && MustDelay(s.containers, 0)
    ensures Reachable(t) && Waits(t, 0, s.nextChannel) && t.starts == s.starts && t.execs == s.execs && t.log == s.log
    ensures Counter(t, 0) == Counter(s, 0)
  {
    ReachableInv(s);
    ReachesNext(INITIAL, s, InitExits(0, Exit(7, 0)));
    t := Apply(s, InitExits(0, Exit(7, 0)));
    ReachesNext(INITIAL, t, Decide(0));
    t := Apply(t, Decide(0));
  }

  /** With every start counted down nothing is left to come. */
  lemma NothingLeft(s: State, c: nat)
    requires forall y :: y in s.starts ==> s.starts[y].stage == Up && s.starts[y].down != NotYet
    ensures DownsLeft(s, c) == 0
  {
    assert MayFail(s, c) == {} && Owing(s, c) == {} && Spawnable(s, c) == {};
  }

  /** The count-up comes after, and the init exit waits for ever. */
  lemma MissedCountDownBlocksInit() returns (s: State)
    ensures Reachable(s) && Waits(s, 0, 0) && DownsLeft(s, 0) == 0 && ExecExit(1) in s.log
    ensures !exists t :: Reaches(s, t) && 0 in t.closed
  {
    s := CountedDownFirst();
    ReachesNext(INITIAL, s, CountUp(1));
    s := Apply(s, CountUp(1));
    s := NonZeroDelays(s);
    NothingLeft(s, 0);
    WaiterClosableIff(s, 0, 0);
  }

  // ----- starting a running exec again

  /** A second start of exec 1 opens its window while the first is counted. */
  lemma SecondStart() returns (s: State)
    ensures Reachable(s)
    ensures s == OneExec(map[0 := ExitState(1, None, None)], Up).(starts := Two(Fresh(1, Up), Fresh(1, Subscribed)))
  {
    s := CountedExec();
    ReachesNext(INITIAL, s, Admit(2, 1, 0));
    s := Apply(s, Admit(2, 1, 0));
    ReachesNext(INITIAL, s, Subscribe(2));
    s := Apply(s, Subscribe(2));
  }

  /** The first of two starts is published and counted down. */
  lemma FirstIsDone(s: State, b: Start) returns (t: State)
    requires Reachable(s) && s.starts == Two(Fresh(1, Up).(taken := true), b) && 0 in s.containers
    requires s.containers[0].execWaiter == None
    ensures Reachable(t)
    ensures t == s.(containers := DecrementExecs(s.containers, 0), starts := Two(Done(1, Took), b),
                    log := s.log + [ExecExit(1)])
  {
    var a := Fresh(1, Up).(taken := true);
    TwoUpdate(a, b, a.(published := true));
    t := PublishesExec(s, 1);
    TwoUpdate(a.(published := true), b, Done(1, Took));
    t := CountsDownExec(t, 1);
  }

  /** The exec exits inside that window, and its exit is published for the first start. */
  lemma ExitInSecondWindow() returns (s: State)
    ensures Reachable(s)
    ensures s == INITIAL.(containers := map[0 := ExitState(0, None, None)], execs := map[1 := Exec(0, Reaped, false)],
                          starts := Two(Done(1, Took), Fresh(1, Subscribed).(seen := true)), log := [ExecExit(1)])
  {
    var a, b := Fresh(1, Up), Fresh(1, Subscribed);
    s := SecondStart();
    s := ExitsForTwo(s, a, b);
    s := FirstIsDone(s, b.(seen := true));
  }

  /** The init exit is let through at a counter of zero; the second start fails, and still
      publishes what its window caught. */
  lemma RepeatedStartOvertaken() returns (s: State)
    ensures Reachable(s) && s.log == [ExecExit(1), InitExit(0), ExecExit(2)]
    ensures 1 in s.starts && 2 in s.starts && s.starts[1].exec == s.starts[2].exec && s.starts[2].container == 0
    ensures s.starts[2].refusal == Took
  {
    s := ExitInSecondWindow();
    s := ZeroLetsThrough(s);
    s := PublishesInit(s);
    ReachesNext(INITIAL, s, FailStart(2, true));
    s := Apply(s, FailStart(2, true));
    ReachesNext(INITIAL, s, Catch(2));
    s := Apply(s, Catch(2));
    s := PublishesExec(s, 2);
  }

  /** Without the exit in between, the second start is listed and counted up beside the
      first. */
  lemma ListedTwice() returns (s: State)
    ensures Reachable(s)
    ensures s == OneExec(map[0 := ExitState(1, None, None)], Up).(
                   starts := Two(Fresh(1, Up), Fresh(1, Up).(refusal := Took)))
  {
    var b := Fresh(1, Failed).(refusal := Took);
    s := CountedExec();
    s := Fails(s, 2, 1);
    assert s == OneExec(map[0 := ExitState(0, None, None)], Up).(starts := Two(Fresh(1, Up), b));
    s := FailedIsListed(s, b);
  }

  /** The failed second start goes on to be counted up. */
  lemma FailedIsListed(s: State, b: Start) returns (t: State)
    requires Reachable(s) && s.starts == Two(Fresh(1, Up), b) && b == Fresh(1, Failed).(refusal := Took)
    requires s.execs == map[1 := Exec(0, Running, false)]
    ensures Reachable(t)
    ensures t == s.(containers := IncrementExecs(s.containers, 0), starts := Two(Fresh(1, Up), b.(stage := Up)))
  {
    ReachesNext(INITIAL, s, Complete(2));
    TwoUpdate(Fresh(1, Up), b, b.(stage := Gap));
    t := Apply(s, Complete(2));
    ReachesNext(INITIAL, t, List(2));
    TwoUpdate(Fresh(1, Up), b.(stage := Gap), b.(stage := Listed));
    t := Apply(t, List(2));
    ReachesNext(INITIAL, t, CountUp(2));
    TwoUpdate(Fresh(1, Up), b.(stage := Listed), b.(stage := Up));
    t := Apply(t, CountUp(2));
  }

  lemma ExitForBoth() returns (s: State)
    ensures Reachable(s)
    ensures s == INITIAL.(containers := map[0 := ExitState(0, None, None)], execs := map[1 := Exec(0, Reaped, false)],
                          starts := Two(Done(1, Took), Fresh(1, Up).(refusal := Took, taken := true)),
                          log := [ExecExit(1)])
  {
    s := ListedTwice();
    s := ExitsForTwo(s, Fresh(1, Up), Fresh(1, Up).(refusal := Took));
    s := FirstIsDone(s, Fresh(1, Up).(refusal := Took, taken := true));
  }

  /** Its exit is published twice and counted down twice. */
  lemma PublishedTwice() returns (s: State)
    ensures Reachable(s)
    ensures s == INITIAL.(containers := map[0 := ExitState(-1, None, None)], execs := map[1 := Exec(0, Reaped, false)],
                          starts := Two(Done(1, Took), Done(1, Took).(refusal := Took)),
                          log := [ExecExit(1), ExecExit(2)])
  {
    var b := Fresh(1, Up).(refusal := Took, taken := true);
    s := ExitForBoth();
    TwoUpdate(Done(1, Took), b, b.(published := true));
    s := PublishesExec(s, 2);
    TwoUpdate(Done(1, Took), b.(published := true), b.(published := true, down := Took));
    s := CountsDownExec(s, 2);
  }

  /** The counter is then below zero, and a later init exit waits for ever. */
  lemma RepeatedStartBlocksInit() returns (s: State)
    ensures Reachable(s) && s.log == [ExecExit(1), ExecExit(2)]
    ensures 1 in s.starts && 2 in s.starts && s.starts[1].exec == s.starts[2].exec
    ensures Counter(s, 0) == -1 && Waits(s, 0, 0) && !exists t :: Reaches(s, t) && 0 in t.closed
  {
    s := PublishedTwice();
    s := NonZeroDelays(s);
    NothingLeft(s, 0);
    WaiterClosableIff(s, 0, 0);
  }
}
