/** When an init exit that waits for the execs can still be woken.

    A count-down closes the waiter at zero or below, so what matters is how many
    count-downs can still come. A start that has not been tried may fail, one whose exec
    runs may publish, and one that fails beside a running exec does both. */
module ExitWaiting {
  import opened ExitTracker
  import opened ExitOrdering
  import opened Wrappers

  /** Starts that can still fail and be counted down for it. */
  ghost function MayFail(s: State, c: nat): set<nat> {
    set y | y in s.starts && s.starts[y].container == c
            && (s.starts[y].stage == Admitted || s.starts[y].stage == Subscribed)
  }

  /** Execs one of those can still give a PID; the one that does has not failed. */
  ghost function Spawnable(s: State, c: nat): set<nat> {
    set y | y in MayFail(s, c) && MayRun(s, s.starts[y].exec, c) :: s.starts[y].exec
  }

  /** The start can still be counted down for an exit. A failed one whose exec has no PID
      can if another start can give it one. */
  ghost predicate Owes(s: State, st: Start, c: nat) {
    st.down == NotYet && (st.published || CanPublish(s, st) || (st.stage == Failed && st.exec in Spawnable(s, c)))
  }

  ghost function Owing(s: State, c: nat): set<nat> {
    set y | y in s.starts && s.starts[y].container == c && Owes(s, s.starts[y], c)
  }

  /** The most count-downs that can still come. */
  ghost function DownsLeft(s: State, c: nat): int { |MayFail(s, c)| + |Owing(s, c)| - |Spawnable(s, c)| }

  ghost predicate Waits(s: State, c: nat, ch: nat) { PhaseOf(s.inits, c) == WaitingOn(ch) && ch !in s.closed }

  lemma SpawnableHas(s: State, y: nat, c: nat)
    requires y in MayFail(s, c) && MayRun(s, s.starts[y].exec, c)
    ensures s.starts[y].exec in Spawnable(s, c)
  {
  }

  lemma FailingOwn(s: State, step: Step, c: nat)
    requires Enabled(s, step) && OnStart(step) && InitHasExited(s.containers, c)
    ensures step.y in MayFail(Apply(s, step), c) ==>
              step.y in MayFail(s, c) && Apply(s, step).starts[step.y].exec == s.starts[step.y].exec
    ensures step.y in MayFail(s, c) && !step.Spawn? && !step.FailStart? ==> step.y in MayFail(Apply(s, step), c)
  {
  }

  lemma FailingReaper(s: State, step: Step, c: nat)
    requires Enabled(s, step) && (step.Report? || step.Reap?)
    ensures MayFail(Apply(s, step), c) == MayFail(s, c)
    ensures forall y :: y in s.starts ==> Apply(s, step).starts[y].exec == s.starts[y].exec
  {
  }

  lemma StartsStay(s: State, step: Step)
    requires Enabled(s, step) && !step.Report? && !step.Reap?
    ensures forall y :: y in s.starts && (OnStart(step) ==> y != step.y) ==>
              y in Apply(s, step).starts && Apply(s, step).starts[y] == s.starts[y]
    ensures forall y :: y in Apply(s, step).starts && (OnStart(step) ==> y != step.y) ==> y in s.starts
  {
  }

  /** Once no start is admitted, no step adds a start that may fail, or an exec to spawn. */
  lemma FailingShrinks(s: State, step: Step, c: nat)
    requires Enabled(s, step) && InitHasExited(s.containers, c)
    ensures MayFail(Apply(s, step), c) <= MayFail(s, c)
    ensures forall y :: y in MayFail(Apply(s, step), c) ==> Apply(s, step).starts[y].exec == s.starts[y].exec
    ensures MayFail(s, c) <= MayFail(Apply(s, step), c) + if step.Spawn? || step.FailStart? then {step.y} else {}
  {
    if step.Report? || step.Reap? {
      FailingReaper(s, step, c);
    } else {
      StartsStay(s, step);
      if OnStart(step) {
        FailingOwn(s, step, c);
      }
    }
  }

  lemma SpawnableShrinks(s: State, step: Step, c: nat)
    requires Enabled(s, step) && InitHasExited(s.containers, c)
    ensures Spawnable(Apply(s, step), c) <= Spawnable(s, c)
  {
    FailingShrinks(s, step, c);
    forall x | x in Spawnable(Apply(s, step), c)
      ensures x in Spawnable(s, c)
    {
      LivesStep(s, step, x, c);
      var y: nat :| y in MayFail(Apply(s, step), c) && Apply(s, step).starts[y].exec == x;
      SpawnableHas(s, y, c);
    }
  }

  /** A start a step leaves alone owes no more than before. */
  lemma OwesStays(s: State, step: Step, c: nat, y: nat)
    requires StartInv(s) && Enabled(s, step) && InitHasExited(s.containers, c)
    requires y in s.starts && s.starts[y].container == c && Owes(Apply(s, step), s.starts[y], c)
    ensures Owes(s, s.starts[y], c)
  {
    var st := s.starts[y];
    assert StartOk(s, st);
    SpawnableShrinks(s, step, c);
    LivesStep(s, step, st.exec, c);
    if Runs(Apply(s, step), st.exec, c) && !Runs(s, st.exec, c) {
      SpawnableHas(s, step.y, c);
    }
  }

  /** Neither do its own steps give it more to do. */
  lemma OwesOwn(s: State, step: Step)
    requires StartInv(s) && Enabled(s, step) && OnStart(step) && !step.Admit?
    ensures var st, st' := s.starts[step.y], Apply(s, step).starts[step.y];
            && st'.container == st.container && st'.exec == st.exec
            && (Owes(Apply(s, step), st', st.container) ==> Owes(Apply(s, step), st, st.container) || step.Spawn?)
  {
    assert StartOk(s, s.starts[step.y]);
  }

  lemma OwesReaper(s: State, step: Step, y: nat)
    requires StartInv(s) && Enabled(s, step) && (step.Report? || step.Reap?) && y in s.starts
    ensures var st, st' := s.starts[y], Apply(s, step).starts[y];
            && st'.container == st.container
            && (Owes(Apply(s, step), st', st.container) ==> Owes(s, st, st.container))
  {
    assert StartOk(s, s.starts[y]);
  }

  lemma OwingShrinks(s: State, step: Step, c: nat)
    requires StartInv(s) && Enabled(s, step) && InitHasExited(s.containers, c)
    ensures Owing(Apply(s, step), c) <= Owing(s, c)
  {
    forall y | y in Owing(Apply(s, step), c)
      ensures y in Owing(s, c)
    {
      if OnStart(step) && y == step.y {
        OwedBefore(s, step, c);
      } else if step.Report? || step.Reap? {
        OwesReaper(s, step, y);
      } else {
        UntouchedStart(s, step, y);
        OwesStays(s, step, c, y);
      }
    }
  }

  lemma OwedBefore(s: State, step: Step, c: nat)
    requires StartInv(s) && Enabled(s, step) && InitHasExited(s.containers, c) && OnStart(step)
    requires step.y in Owing(Apply(s, step), c)
    ensures step.y in Owing(s, c)
  {
    OwesOwn(s, step);
    if step.Spawn? {
      assert StartOk(s, s.starts[step.y]);
    } else {
      OwesStays(s, step, c, step.y);
    }
  }

  lemma Fewer(a: set<nat>, b: set<nat>)
    requires a <= b
    ensures |a| <= |b| && (a != b ==> |a| < |b|)
  {
    assert b == a + (b - a);
  }

  lemma OneFewer(a: set<nat>, b: set<nat>, k: nat)
    requires a <= b && b <= a + {k}
    ensures |b| - 1 <= |a| <= |b| && (k in b && k !in a ==> |a| == |b| - 1)
  {
    assert a == b || b == a + {k};
  }

  /** A failed start that was the last to spawn its exec takes its own exit with it. */
  lemma FailedCosts(s: State, step: Step, c: nat)
    requires StartInv(s) && Enabled(s, step) && step.FailStart? && s.starts[step.y].container == c
    ensures var x := s.starts[step.y].exec;
            && Spawnable(s, c) <= Spawnable(Apply(s, step), c) + {x}
            && (x in Spawnable(s, c) && x !in Spawnable(Apply(s, step), c) ==>
                  step.y in Owing(s, c) && step.y !in Owing(Apply(s, step), c))
  {
    var t := Apply(s, step);
    assert StartOk(s, s.starts[step.y]);
    forall x | x in Spawnable(s, c) && x != s.starts[step.y].exec
      ensures x in Spawnable(t, c)
    {
      var y: nat :| y in MayFail(s, c) && MayRun(s, s.starts[y].exec, c) && s.starts[y].exec == x;
      SpawnableHas(t, y, c);
    }
  }

  /** So does an exec deleted before it ran, or created in another container. */
  lemma UnspawnedCosts(s: State, step: Step, c: nat) returns (y: nat)
    requires StartInv(s) && Enabled(s, step) && (step.Create? || step.Remove?)
    ensures Spawnable(s, c) <= Spawnable(Apply(s, step), c) + {step.x}
    ensures step.x in Spawnable(s, c) && step.x !in Spawnable(Apply(s, step), c) ==>
              y in Owing(s, c) && y !in Owing(Apply(s, step), c)
  {
    var t := Apply(s, step);
    forall x | x in Spawnable(s, c) && x != step.x
      ensures x in Spawnable(t, c)
    {
      var z: nat :| z in MayFail(s, c) && MayRun(s, s.starts[z].exec, c) && s.starts[z].exec == x;
      SpawnableHas(t, z, c);
    }
    y := 0;
    if step.x in Spawnable(s, c) && step.x !in Spawnable(t, c) {
      y :| y in MayFail(s, c) && MayRun(s, s.starts[y].exec, c) && s.starts[y].exec == step.x;
      assert StartOk(s, s.starts[y]);
      if MayRun(t, step.x, c) {
        SpawnableHas(t, y, c);
      }
    }
  }

  /** A spawn takes one start and one exec. */
  lemma SpawnTakes(s: State, step: Step, c: nat)
    requires Enabled(s, step) && step.Spawn? && s.starts[step.y].container == c
    ensures step.y in MayFail(s, c) && s.starts[step.y].exec in Spawnable(s, c)
    ensures Spawnable(s, c) <= Spawnable(Apply(s, step), c) + {s.starts[step.y].exec}
  {
    var t := Apply(s, step);
    SpawnableHas(s, step.y, c);
    forall x | x in Spawnable(s, c) && x != s.starts[step.y].exec
      ensures x in Spawnable(t, c)
    {
      var z: nat :| z in MayFail(s, c) && MayRun(s, s.starts[z].exec, c) && s.starts[z].exec == x;
      SpawnableHas(t, z, c);
    }
  }

  /** Every other step leaves the execs to spawn as they are. */
  lemma SpawnableStays(s: State, step: Step, c: nat)
    requires Enabled(s, step) && InitHasExited(s.containers, c) && PhaseOf(Apply(s, step).inits, c) != Published
    requires !step.Create? && !step.Remove?
    requires (step.FailStart? || step.Spawn?) ==> s.starts[step.y].container != c
    ensures Spawnable(Apply(s, step), c) == Spawnable(s, c)
  {
    var t := Apply(s, step);
    SpawnableShrinks(s, step, c);
    FailingShrinks(s, step, c);
    forall x | x in Spawnable(s, c)
      ensures x in Spawnable(t, c)
    {
      var z: nat :| z in MayFail(s, c) && MayRun(s, s.starts[z].exec, c) && s.starts[z].exec == x;
      assert z in MayFail(t, c) && t.starts[z].exec == x;
      MayRunStays(s, step, x, c);
      SpawnableHas(t, z, c);
    }
  }

  lemma MayRunStays(s: State, step: Step, x: nat, c: nat)
    requires Enabled(s, step) && MayRun(s, x, c) && PhaseOf(Apply(s, step).inits, c) != Published
    requires !step.Create? && !step.Remove? && (step.Spawn? ==> s.starts[step.y].container != c)
    ensures MayRun(Apply(s, step), x, c)
  {
  }

  lemma FailedLeaves(s: State, step: Step, c: nat)
    requires Enabled(s, step) && step.FailStart? && s.starts[step.y].container == c
    ensures step.y in MayFail(s, c) && step.y !in MayFail(Apply(s, step), c)
  {
  }

  /** If a loses k, b loses j where e loses i, and no set gains, the balance falls by one. */
  lemma Balance(a': set<nat>, a: set<nat>, b': set<nat>, b: set<nat>, e': set<nat>, e: set<nat>, k: nat, j: nat, i: nat)
    requires a' <= a && b' <= b && e' <= e && e <= e' + {i} && a <= a' + {k}
    requires i in e && i !in e' ==> j in b && j !in b'
    ensures |a'| + |b'| - |e'| <= |a| + |b| - |e| - One(k in a && k !in a')
  {
    OneFewer(a', a, k);
    OneFewer(e', e, i);
    Fewer(b', b);
    assert e == e' || (i in e && i !in e');
  }

  lemma DownsFail(s: State, step: Step, c: nat)
    requires StartInv(s) && Enabled(s, step) && InitHasExited(s.containers, c)
    requires step.FailStart? && s.starts[step.y].container == c
    ensures DownsLeft(Apply(s, step), c) <= DownsLeft(s, c) - 1
  {
    var t := Apply(s, step);
    FailingShrinks(s, step, c);
    SpawnableShrinks(s, step, c);
    OwingShrinks(s, step, c);
    FailedCosts(s, step, c);
    FailedLeaves(s, step, c);
    Balance(MayFail(t, c), MayFail(s, c), Owing(t, c), Owing(s, c), Spawnable(t, c), Spawnable(s, c),
            step.y, step.y, s.starts[step.y].exec);
  }

  lemma DownsSpawn(s: State, step: Step, c: nat)
    requires StartInv(s) && Enabled(s, step) && InitHasExited(s.containers, c)
    requires step.Spawn? && s.starts[step.y].container == c
    ensures DownsLeft(Apply(s, step), c) <= DownsLeft(s, c)
  {
    var t := Apply(s, step);
    FailingShrinks(s, step, c);
    SpawnableShrinks(s, step, c);
    OwingShrinks(s, step, c);
    SpawnTakes(s, step, c);
    Fewer(Owing(t, c), Owing(s, c));
    OneFewer(MayFail(t, c), MayFail(s, c), step.y);
    OneFewer(Spawnable(t, c), Spawnable(s, c), s.starts[step.y].exec);
  }

  lemma DownsExec(s: State, step: Step, c: nat)
    requires StartInv(s) && Enabled(s, step) && InitHasExited(s.containers, c) && (step.Create? || step.Remove?)
    ensures DownsLeft(Apply(s, step), c) <= DownsLeft(s, c)
  {
    var t := Apply(s, step);
    FailingShrinks(s, step, c);
    SpawnableShrinks(s, step, c);
    OwingShrinks(s, step, c);
    var y := UnspawnedCosts(s, step, c);
    Balance(MayFail(t, c), MayFail(s, c), Owing(t, c), Owing(s, c), Spawnable(t, c), Spawnable(s, c), 0, y, step.x);
  }

  lemma DownsOther(s: State, step: Step, c: nat)
    requires StartInv(s) && Enabled(s, step) && InitHasExited(s.containers, c)
    requires PhaseOf(Apply(s, step).inits, c) != Published
    requires !step.Create? && !step.Remove? && (step.FailStart? || step.Spawn? ==> s.starts[step.y].container != c)
    ensures DownsLeft(Apply(s, step), c) <= DownsLeft(s, c) - One(CountsDown(s, step, c))
  {
    var t := Apply(s, step);
    FailingShrinks(s, step, c);
    SpawnableStays(s, step, c);
    OwingShrinks(s, step, c);
    Fewer(MayFail(t, c), MayFail(s, c));
    Fewer(Owing(t, c), Owing(s, c));
    assert CountsDown(s, step, c) ==> step.y in Owing(s, c) && step.y !in Owing(t, c);
  }

  /** No step adds to the count-downs that can still come, and a count-down uses one up. */
  lemma DownsStep(s: State, step: Step, c: nat)
    requires StartInv(s) && Enabled(s, step) && InitHasExited(s.containers, c)
    requires PhaseOf(Apply(s, step).inits, c) != Published
    ensures DownsLeft(Apply(s, step), c) <= DownsLeft(s, c) - One(CountsDown(s, step, c))
  {
    if step.FailStart? && s.starts[step.y].container == c {
      DownsFail(s, step, c);
    } else if step.Spawn? && s.starts[step.y].container == c {
      DownsSpawn(s, step, c);
    } else if step.Create? || step.Remove? {
      DownsExec(s, step, c);
    } else {
      DownsOther(s, step, c);
    }
  }

  lemma WaiterIsOpen(s: State, c: nat, ch: nat)
    requires WaiterInv(s) && StashInv(s) && Waits(s, c, ch)
    ensures c in s.containers && s.containers[c].execWaiter == Some(ch) && InitHasExited(s.containers, c)
    ensures forall d :: d in s.containers && s.containers[d].execWaiter == Some(ch) ==> d == c
  {
  }

  /** One count-down for a container whose init waits. */
  lemma CountDownStep(s: State, step: Step, c: nat, ch: nat)
    requires Inv(s) && Enabled(s, step) && CountsDown(s, step, c) && Waits(s, c, ch)
    ensures var t := Apply(s, step);
            && Counter(t, c) == Counter(s, c) - 1
            && (if Counter(s, c) <= 1 then ch in t.closed else Waits(t, c, ch))
  {
    WaiterIsOpen(s, c, ch);
  }

  lemma WaiterElsewhere(s: State, step: Step, c: nat, ch: nat)
    requires Inv(s) && Enabled(s, step) && !CountsDown(s, step, c) && Waits(s, c, ch)
    ensures Waits(Apply(s, step), c, ch)
  {
    if step.FailStart? || step.CountDown? || OnInit(step) {
      WaiterIsOpen(s, c, ch);
    } else {
      OtherWaiters(s, step);
    }
  }

  lemma CounterElsewhere(s: State, step: Step, c: nat)
    requires Enabled(s, step) && !CountsDown(s, step, c)
    ensures Counter(Apply(s, step), c) == Counter(s, c) + One(step.CountUp? && s.starts[step.y].container == c)
  {
  }

  /** Any other step leaves the waiter open and counts nothing down. */
  lemma OtherStep(s: State, step: Step, c: nat, ch: nat)
    requires Inv(s) && Enabled(s, step) && !CountsDown(s, step, c) && Waits(s, c, ch)
    ensures var t := Apply(s, step);
            Waits(t, c, ch) && Counter(t, c) == Counter(s, c) + One(step.CountUp? && s.starts[step.y].container == c)
  {
    WaiterElsewhere(s, step, c, ch);
    CounterElsewhere(s, step, c);
  }

  lemma WaitingStep(s: State, step: Step, c: nat, ch: nat)
    requires Inv(s) && Enabled(s, step) && Waits(s, c, ch)
    ensures var t := Apply(s, step);
            && DownsLeft(t, c) <= DownsLeft(s, c) - One(CountsDown(s, step, c))
            && (if ch in t.closed then CountsDown(s, step, c) && Counter(s, c) <= 1
                else Waits(t, c, ch) && Counter(t, c) >= Counter(s, c) - One(CountsDown(s, step, c)))
  {
    WaiterIsOpen(s, c, ch);
    if CountsDown(s, step, c) {
      CountDownStep(s, step, c, ch);
    } else {
      OtherStep(s, step, c, ch);
    }
    assert PhaseOf(Apply(s, step).inits, c) == PhaseOf(s.inits, c);
    DownsStep(s, step, c);
  }

  lemma DownsCover(s: State, c: nat)
    requires StartInv(s)
    ensures DownsLeft(s, c) >= 0
  {
    forall x | x in Spawnable(s, c)
      ensures exists y :: y in MayFail(s, c) && s.starts[y].exec == x
    {
    }
    ImageIsSmaller(s, Spawnable(s, c), MayFail(s, c));
  }

  lemma {:induction false} ImageIsSmaller(s: State, xs: set<nat>, ys: set<nat>)
    requires forall y :: y in ys ==> y in s.starts
    requires forall x :: x in xs ==> exists y :: y in ys && s.starts[y].exec == x
    ensures |xs| <= |ys|
    decreases xs
  {
    if xs != {} {
      var x: nat :| x in xs;
      var y: nat :| y in ys && s.starts[y].exec == x;
      forall x' | x' in xs - {x}
        ensures exists y' :: y' in ys - {y} && s.starts[y'].exec == x'
      {
        var y': nat :| y' in ys && s.starts[y'].exec == x';
        assert y' in ys - {y};
      }
      ImageIsSmaller(s, xs - {x}, ys - {y});
    }
  }

  lemma {:induction false} ClosingNeeds(s: State, trace: seq<State>, steps: seq<Step>, c: nat, ch: nat, i: nat)
    requires Inv(s) && Continues(s, trace, steps) && i < |trace| && ch in trace[|steps|].closed
    requires Waits(trace[i], c, ch)
    ensures DownsLeft(trace[i], c) >= 1 && DownsLeft(trace[i], c) >= Counter(trace[i], c)
    decreases |steps| - i
  {
    InvFrom(s, trace, steps, i);
    WaitingStep(trace[i], steps[i], c, ch);
    if ch in trace[i + 1].closed {
      InvFrom(s, trace, steps, i + 1);
      DownsCover(trace[i + 1], c);
    } else {
      ClosingNeeds(s, trace, steps, c, ch, i + 1);
    }
  }

  // ----- bringing all the count-downs about

  /** A step that counts nothing and loses no count-down. */
  ghost predicate Spares(s: State, t: State, c: nat) {
    MayFail(t, c) == MayFail(s, c) && Owing(s, c) <= Owing(t, c) && Spawnable(t, c) <= Spawnable(s, c)
  }

  lemma SparedDowns(s: State, t: State, c: nat)
    requires Spares(s, t, c)
    ensures DownsLeft(t, c) >= DownsLeft(s, c)
  {
    Fewer(Owing(s, c), Owing(t, c));
    Fewer(Spawnable(t, c), Spawnable(s, c));
  }

  /** Nothing is left to fail or to spawn. */
  ghost predicate Called(s: State, c: nat) { MayFail(s, c) == {} }

  lemma CalledSpares(s: State, t: State, c: nat)
    requires Called(s, c) && Called(t, c) && Owing(s, c) <= Owing(t, c)
    ensures Spares(s, t, c) && DownsLeft(t, c) >= DownsLeft(s, c)
  {
    assert Spawnable(s, c) == {} && Spawnable(t, c) == {};
    SparedDowns(s, t, c);
  }

  /** Starts whose exit would be lost if the exec were reaped now. */
  ghost function Unlisted(s: State, x: nat, c: nat): set<nat> {
    set y | y in s.starts && s.starts[y].container == c && s.starts[y].exec == x && s.starts[y].stage == Gap
  }

  ghost function Unclosed(s: State, x: nat, c: nat): set<nat> {
    set y | y in s.starts && s.starts[y].container == c && s.starts[y].exec == x && !s.starts[y].seen
            && (s.starts[y].stage == Spawned || s.starts[y].stage == Failed)
  }

  /** Steps of a start that only bring it on. */
  predicate Advances(step: Step) {
    step.Catch? || step.Complete? || step.List? || step.PublishExec?
  }

  lemma OwnOwes(s: State, step: Step, c: nat)
    requires StartInv(s) && Enabled(s, step) && Advances(step) && step.y in Owing(s, c) && Called(s, c)
    ensures step.y in Owing(Apply(s, step), c)
  {
    assert StartOk(s, s.starts[step.y]);
  }

  lemma AdvancesOne(s: State, step: Step, c: nat)
    requires Enabled(s, step) && Advances(step) && Called(s, c)
    ensures var t := Apply(s, step);
            && t.execs == s.execs && t.inits == s.inits && Called(t, c) && t.starts.Keys == s.starts.Keys
            && forall y :: y in s.starts && y != step.y ==> t.starts[y] == s.starts[y]
  {
  }

  lemma OwesAlike(s: State, t: State, y: nat, c: nat)
    requires t.execs == s.execs && t.inits == s.inits && Called(s, c) && y in Owing(s, c)
    requires y in t.starts && t.starts[y] == s.starts[y]
    ensures y in Owing(t, c)
  {
  }

  /** A step towards the publication of a start's exit loses no other's, if a reaping
      finds all starts of the exec listed. */
  lemma OwnSpares(s: State, step: Step, c: nat)
    requires StartInv(s) && Enabled(s, step) && Called(s, c) && Advances(step)
    ensures Called(Apply(s, step), c) && Owing(s, c) <= Owing(Apply(s, step), c)
  {
    AdvancesOne(s, step, c);
    forall y | y in Owing(s, c)
      ensures y in Owing(Apply(s, step), c)
    {
      if y == step.y {
        OwnOwes(s, step, c);
      } else {
        OwesAlike(s, Apply(s, step), y, c);
      }
    }
  }

  lemma ReportOwes(s: State, x: nat, y: nat, c: nat)
    requires StartInv(s) && Enabled(s, Report(x)) && Called(s, c) && y in Owing(s, c)
    ensures y in Owing(Apply(s, Report(x)), c)
  {
    assert StartOk(s, s.starts[y]) && y !in MayFail(s, c);
  }

  lemma ReportSpares(s: State, x: nat, c: nat)
    requires StartInv(s) && Enabled(s, Report(x)) && Called(s, c)
    ensures Called(Apply(s, Report(x)), c) && Owing(s, c) <= Owing(Apply(s, Report(x)), c)
  {
    forall y | y in Owing(s, c)
      ensures y in Owing(Apply(s, Report(x)), c)
    {
      ReportOwes(s, x, y, c);
    }
  }

  lemma ReapOwes(s: State, x: nat, y: nat, c: nat)
    requires StartInv(s) && Enabled(s, Reap(x)) && Called(s, c) && Unlisted(s, x, c) == {} && Unclosed(s, x, c) == {}
    requires y in Owing(s, c)
    ensures y in Owing(Apply(s, Reap(x)), c)
  {
    assert StartOk(s, s.starts[y]) && y !in Unlisted(s, x, c) && y !in Unclosed(s, x, c) && y !in MayFail(s, c);
  }

  lemma ReapSpares(s: State, x: nat, c: nat)
    requires StartInv(s) && Enabled(s, Reap(x)) && Called(s, c) && Unlisted(s, x, c) == {} && Unclosed(s, x, c) == {}
    ensures Called(Apply(s, Reap(x)), c) && Owing(s, c) <= Owing(Apply(s, Reap(x)), c)
  {
    forall y | y in Owing(s, c)
      ensures y in Owing(Apply(s, Reap(x)), c)
    {
      ReapOwes(s, x, y, c);
    }
  }

  /** From s0 a state is reached that waits as s does, with the same counter. */
  ghost predicate Stays(s0: State, s: State, t: State, c: nat, ch: nat) {
    Reaches(s0, t) && Inv(t) && Waits(t, c, ch) && Counter(t, c) == Counter(s, c)
  }

  lemma StaysNext(s0: State, s: State, t: State, step: Step, c: nat, ch: nat)
    requires Stays(s0, s, t, c, ch) && Enabled(t, step) && !CountsDown(t, step, c) && !step.CountUp?
    ensures Stays(s0, s, Apply(t, step), c, ch)
  {
    ReachesNext(s0, t, step);
    InvStep(t, step);
    OtherStep(t, step, c, ch);
  }

  lemma CompleteOne(s: State, x: nat, c: nat, y: nat)
    requires y in Unclosed(s, x, c) && Enabled(s, Complete(y))
    ensures |Unclosed(Apply(s, Complete(y)), x, c)| < |Unclosed(s, x, c)|
  {
    assert Unclosed(Apply(s, Complete(y)), x, c) == Unclosed(s, x, c) - {y};
  }

  lemma ListOne(s: State, x: nat, c: nat, y: nat)
    requires y in Unlisted(s, x, c) && Unclosed(s, x, c) == {} && Enabled(s, List(y))
    ensures Unclosed(Apply(s, List(y)), x, c) == {} && |Unlisted(Apply(s, List(y)), x, c)| < |Unlisted(s, x, c)|
  {
    assert Unlisted(Apply(s, List(y)), x, c) == Unlisted(s, x, c) - {y};
  }

  /** A start of x still to be listed, and the step that brings it on. */
  lemma ToList(s: State, c: nat, x: nat) returns (step: Step)
    requires StartInv(s) && x in s.execs && s.execs[x].life == Reported && s.execs[x].container == c
    requires Unclosed(s, x, c) != {} || Unlisted(s, x, c) != {}
    ensures Enabled(s, step) && (step.Complete? || step.List?)
    ensures s.starts[step.y].container == c && s.starts[step.y].exec == x
    ensures step.y in Unclosed(s, x, c) || step.y in Unlisted(s, x, c)
    ensures var t := Apply(s, step);
            || |Unclosed(t, x, c)| < |Unclosed(s, x, c)|
            || (|Unclosed(t, x, c)| == |Unclosed(s, x, c)| && |Unlisted(t, x, c)| < |Unlisted(s, x, c)|)
  {
    if Unclosed(s, x, c) != {} {
      var y: nat :| y in Unclosed(s, x, c);
      step := Complete(y);
      CompleteOne(s, x, c, y);
    } else {
      var y: nat :| y in Unlisted(s, x, c);
      step := List(y);
      ListOne(s, x, c, y);
    }
  }

  lemma ListNext(s0: State, s: State, c: nat, ch: nat, x: nat, z: nat) returns (t: State)
    requires Stays(s0, s, s, c, ch) && Called(s, c) && x in s.execs && s.execs[x].life == Reported
    requires s.execs[x].container == c
    requires z in s.starts && InRegistry(s.starts[z]) && (Unclosed(s, x, c) != {} || Unlisted(s, x, c) != {})
    ensures Stays(s0, s, t, c, ch) && Called(t, c) && Owing(s, c) <= Owing(t, c)
    ensures t.execs == s.execs && t.inits == s.inits && z in t.starts && t.starts[z] == s.starts[z]
    ensures || |Unclosed(t, x, c)| < |Unclosed(s, x, c)|
            || (|Unclosed(t, x, c)| == |Unclosed(s, x, c)| && |Unlisted(t, x, c)| < |Unlisted(s, x, c)|)
  {
    var step := ToList(s, c, x);
    StaysNext(s0, s, s, step, c, ch);
    OwnSpares(s, step, c);
    AdvancesOne(s, step, c);
    t := Apply(s, step);
  }

  /** Every start of a reported exec is listed; a start already listed is left alone. */
  lemma {:induction false} ListAll(s0: State, s: State, c: nat, ch: nat, x: nat, z: nat) returns (t: State)
    requires Stays(s0, s, s, c, ch) && Called(s, c) && x in s.execs && s.execs[x].life == Reported
    requires s.execs[x].container == c
    requires z in s.starts && InRegistry(s.starts[z])
    ensures Stays(s0, s, t, c, ch) && Called(t, c) && Owing(s, c) <= Owing(t, c)
    ensures t.execs == s.execs && t.inits == s.inits && Unlisted(t, x, c) == {} && Unclosed(t, x, c) == {}
    ensures z in t.starts && t.starts[z] == s.starts[z]
    decreases |Unclosed(s, x, c)|, |Unlisted(s, x, c)|
  {
    if Unclosed(s, x, c) == {} && Unlisted(s, x, c) == {} {
      t := s;
    } else {
      t := ListNext(s0, s, c, ch, x, z);
      t := ListAll(s0, t, c, ch, x, z);
    }
  }

  lemma NearerSpares(s: State, c: nat, y: nat)
    requires StartInv(s) && Called(s, c) && y in s.starts && s.starts[y].container == c && s.starts[y].exec in s.execs
    requires CanPublish(s, s.starts[y]) && Enabled(s, Nearer(s, y))
    requires Nearer(s, y).Reap? ==> Unlisted(s, s.starts[y].exec, c) == {} && Unclosed(s, s.starts[y].exec, c) == {}
    ensures Called(Apply(s, Nearer(s, y)), c) && Owing(s, c) <= Owing(Apply(s, Nearer(s, y)), c)
  {
    assert y !in MayFail(s, c);
    var step := Nearer(s, y);
    if step.Report? {
      ReportSpares(s, step.x, c);
    } else if step.Reap? {
      ReapSpares(s, step.x, c);
    } else {
      OwnSpares(s, step, c);
    }
  }

  /** Before the reaper takes an exit, every other start of the exec is listed. */
  lemma ReadyToReap(s0: State, s: State, c: nat, ch: nat, y: nat) returns (t: State)
    requires Stays(s0, s, s, c, ch) && Called(s, c) && y in s.starts && s.starts[y].container == c
    requires CanPublish(s, s.starts[y])
    requires s.starts[y].exec in s.execs && Nearer(s, y).Reap?
    ensures Stays(s0, s, t, c, ch) && Called(t, c) && Owing(s, c) <= Owing(t, c)
    ensures t.execs == s.execs && y in t.starts && t.starts[y] == s.starts[y] && CanPublish(t, t.starts[y])
    ensures Unlisted(t, s.starts[y].exec, c) == {} && Unclosed(t, s.starts[y].exec, c) == {}
  {
    assert StartOk(s, s.starts[y]) && y !in MayFail(s, c);
    t := ListAll(s0, s, c, ch, s.starts[y].exec, y);
  }

  /** One step towards the publication of y's exit, at which no other is lost. */
  lemma DeliverStep(s0: State, s: State, c: nat, ch: nat, y: nat) returns (t: State)
    requires Stays(s0, s, s, c, ch) && Called(s, c) && y in s.starts && s.starts[y].container == c
    requires CanPublish(s, s.starts[y])
    requires s.starts[y].exec in s.execs
    requires Nearer(s, y).Reap? ==> Unlisted(s, s.starts[y].exec, c) == {} && Unclosed(s, s.starts[y].exec, c) == {}
    ensures Stays(s0, s, t, c, ch) && Called(t, c) && Owing(s, c) <= Owing(t, c)
    ensures y in t.starts && t.starts[y].container == c && t.starts[y].exec in t.execs
    ensures || (t.starts[y].published && t.starts[y].down == NotYet)
            || (CanPublish(t, t.starts[y]) && Rank(t, y) < Rank(s, y))
  {
    assert StartOk(s, s.starts[y]) && y !in MayFail(s, c);
    NearerStep(s, y);
    NearerSpares(s, c, y);
    StaysNext(s0, s, s, Nearer(s, y), c, ch);
    t := Apply(s, Nearer(s, y));
  }

  /** The exit of y is published, and no other is lost on the way. */
  lemma {:induction false} Deliver(s0: State, s: State, c: nat, ch: nat, y: nat) returns (t: State)
    requires Stays(s0, s, s, c, ch) && Called(s, c) && y in s.starts && s.starts[y].container == c
    requires CanPublish(s, s.starts[y])
    requires s.starts[y].exec in s.execs
    ensures Stays(s0, s, t, c, ch) && Called(t, c) && Owing(s, c) <= Owing(t, c)
    ensures y in t.starts && t.starts[y].container == c && t.starts[y].published && t.starts[y].down == NotYet
    decreases Rank(s, y)
  {
    t := s;
    if Nearer(s, y).Reap? {
      t := ReadyToReap(s0, s, c, ch, y);
    }
    var u := DeliverStep(s0, t, c, ch, y);
    if !u.starts[y].published {
      u := Deliver(s0, u, c, ch, y);
    }
    t := u;
  }

  /** An exec to spawn is spawned, after being created if need be. */
  lemma SpawnKeeps(s: State, c: nat, y: nat)
    requires StartInv(s) && Enabled(s, Spawn(y)) && s.starts[y].container == c && InitHasExited(s.containers, c)
    ensures DownsLeft(Apply(s, Spawn(y)), c) >= DownsLeft(s, c)
    ensures |Spawnable(Apply(s, Spawn(y)), c)| < |Spawnable(s, c)|
  {
    var t := Apply(s, Spawn(y));
    var x := s.starts[y].exec;
    FailingShrinks(s, Spawn(y), c);
    SpawnableShrinks(s, Spawn(y), c);
    SpawnTakes(s, Spawn(y), c);
    SpawnOwes(s, c, y);
    OneFewer(MayFail(t, c), MayFail(s, c), y);
    assert x in Spawnable(s, c) && x !in Spawnable(t, c);
    OneFewer(Spawnable(t, c), Spawnable(s, c), x);
    Fewer(Owing(s, c), Owing(t, c));
  }

  lemma SpawnOwes(s: State, c: nat, y: nat)
    requires StartInv(s) && Enabled(s, Spawn(y)) && s.starts[y].container == c
    ensures Owing(s, c) <= Owing(Apply(s, Spawn(y)), c)
  {
    var t := Apply(s, Spawn(y));
    SpawnTakes(s, Spawn(y), c);
    forall z | z in Owing(s, c)
      ensures z in Owing(t, c)
    {
      assert StartOk(s, s.starts[z]);
    }
  }

  /** What is left to come is the same. */
  ghost predicate Alike(s: State, t: State, c: nat) {
    MayFail(t, c) == MayFail(s, c) && Spawnable(t, c) == Spawnable(s, c) && Owing(t, c) == Owing(s, c)
  }

  lemma SubscribeOwes(s: State, c: nat, y: nat)
    requires StartInv(s) && Enabled(s, Subscribe(y))
    ensures Owes(s, s.starts[y].(stage := Subscribed), c) == Owes(s, s.starts[y], c)
  {
    assert StartOk(s, s.starts[y]);
  }

  lemma SubscribeKeeps(s: State, c: nat, y: nat)
    requires StartInv(s) && Enabled(s, Subscribe(y))
    ensures Alike(s, Apply(s, Subscribe(y)), c)
  {
    var t := Apply(s, Subscribe(y));
    assert MayFail(t, c) == MayFail(s, c);
    assert Spawnable(t, c) == Spawnable(s, c);
    SubscribeOwes(s, c, y);
    forall z | z in s.starts && s.starts[z].container == c
      ensures z in Owing(t, c) <==> z in Owing(s, c)
    {
      assert Owes(t, t.starts[z], c) == Owes(s, t.starts[z], c);
    }
  }

  lemma CreateKeeps(s: State, c: nat, x: nat)
    requires Enabled(s, Create(x, c))
    ensures Alike(s, Apply(s, Create(x, c)), c)
  {
    var t := Apply(s, Create(x, c));
    assert MayFail(t, c) == MayFail(s, c);
    assert forall z :: MayRun(t, z, c) == MayRun(s, z, c) && Runs(t, z, c) == Runs(s, z, c);
    assert Spawnable(t, c) == Spawnable(s, c);
  }

  /** A start that may fail, with its window open. */
  lemma Ready(s0: State, s: State, c: nat, ch: nat, y: nat) returns (t: State)
    requires Stays(s0, s, s, c, ch) && y in MayFail(s, c)
    ensures Stays(s0, s, t, c, ch) && Alike(s, t, c) && t.execs == s.execs && t.inits == s.inits
    ensures y in t.starts && t.starts[y].stage == Subscribed && t.starts[y].exec == s.starts[y].exec
    ensures t.starts[y].container == c
  {
    t := s;
    if s.starts[y].stage == Admitted {
      StaysNext(s0, s, s, Subscribe(y), c, ch);
      SubscribeKeeps(s, c, y);
      t := Apply(s, Subscribe(y));
    }
  }

  lemma Created(s0: State, s: State, c: nat, ch: nat, x: nat) returns (t: State)
    requires Stays(s0, s, s, c, ch) && MayRun(s, x, c)
    ensures Stays(s0, s, t, c, ch) && Alike(s, t, c) && t.starts == s.starts && MayRun(t, x, c) && x in t.execs
  {
    t := s;
    if x !in s.execs {
      StaysNext(s0, s, s, Create(x, c), c, ch);
      CreateKeeps(s, c, x);
      t := Apply(s, Create(x, c));
    }
  }

  lemma ToSpawn(s0: State, s: State, c: nat, ch: nat) returns (t: State, y: nat)
    requires Stays(s0, s, s, c, ch) && Spawnable(s, c) != {}
    ensures y in t.starts && t.starts[y].container == c && Enabled(t, Spawn(y))
    ensures Stays(s0, s, t, c, ch) && Alike(s, t, c)
  {
    var x: nat :| x in Spawnable(s, c);
    y :| y in MayFail(s, c) && MayRun(s, s.starts[y].exec, c) && s.starts[y].exec == x;
    var u := Created(s0, s, c, ch, x);
    t := Ready(s0, u, c, ch, y);
  }

  lemma SpawnOne(s0: State, s: State, c: nat, ch: nat) returns (t: State)
    requires Stays(s0, s, s, c, ch) && Spawnable(s, c) != {}
    ensures Stays(s0, s, t, c, ch) && DownsLeft(t, c) >= DownsLeft(s, c) && |Spawnable(t, c)| < |Spawnable(s, c)|
  {
    var u, y := ToSpawn(s0, s, c, ch);
    WaiterIsOpen(u, c, ch);
    StaysNext(s0, s, u, Spawn(y), c, ch);
    SpawnKeeps(u, c, y);
    t := Apply(u, Spawn(y));
  }

  /** With nothing to spawn, a failure loses nothing but itself. */
  lemma FailKeeps(s: State, c: nat, y: nat)
    requires StartInv(s) && InitHasExited(s.containers, c) && Spawnable(s, c) == {}
    requires y in s.starts && s.starts[y].stage == Subscribed && s.starts[y].container == c
    ensures Enabled(s, FailStart(y, Known(s.execs, s.starts[y])))
    ensures DownsLeft(Apply(s, FailStart(y, Known(s.execs, s.starts[y]))), c) >= DownsLeft(s, c) - 1
  {
    var step := FailStart(y, Known(s.execs, s.starts[y]));
    var t := Apply(s, step);
    FailingShrinks(s, step, c);
    SpawnableShrinks(s, step, c);
    OneFewer(MayFail(t, c), MayFail(s, c), y);
    forall z | z in Owing(s, c)
      ensures z in Owing(t, c)
    {
      FailOwes(s, c, y, z);
    }
    Fewer(Owing(s, c), Owing(t, c));
  }

  lemma NothingToSpawn(s: State, c: nat, y: nat)
    requires Spawnable(s, c) == {} && y in MayFail(s, c)
    ensures !MayRun(s, s.starts[y].exec, c)
  {
    assert s.starts[y].exec !in Spawnable(s, c);
  }

  lemma FailOwes(s: State, c: nat, y: nat, z: nat)
    requires StartInv(s) && Spawnable(s, c) == {} && z in Owing(s, c)
    requires y in s.starts && s.starts[y].stage == Subscribed && s.starts[y].container == c
    ensures z in Owing(Apply(s, FailStart(y, Known(s.execs, s.starts[y]))), c)
  {
    assert StartOk(s, s.starts[z]);
    NothingToSpawn(s, c, y);
  }

  /** Without anything to spawn, some count-down can come next and lose no other. */
  lemma NextDown(s0: State, s: State, c: nat, ch: nat) returns (t: State, step: Step)
    requires Stays(s0, s, s, c, ch) && Spawnable(s, c) == {} && DownsLeft(s, c) >= 1
    ensures Stays(s0, s, t, c, ch) && Enabled(t, step) && CountsDown(t, step, c)
    ensures DownsLeft(Apply(t, step), c) >= DownsLeft(s, c) - 1
  {
    if MayFail(s, c) != {} {
      var y: nat :| y in MayFail(s, c);
      t := Ready(s0, s, c, ch, y);
      WaiterIsOpen(t, c, ch);
      FailKeeps(t, c, y);
      step := FailStart(y, Known(t.execs, t.starts[y]));
    } else {
      var y: nat :| y in Owing(s, c);
      t := s;
      if !s.starts[y].published {
        assert StartOk(s, s.starts[y]) && y !in MayFail(s, c);
        t := Deliver(s0, s, c, ch, y);
      }
      CalledSpares(s, t, c);
      CountDownKeeps(t, c, y);
      step := CountDown(y);
    }
  }

  lemma CountDownKeeps(s: State, c: nat, y: nat)
    requires Called(s, c) && Enabled(s, CountDown(y)) && s.starts[y].container == c
    ensures DownsLeft(Apply(s, CountDown(y)), c) >= DownsLeft(s, c) - 1
  {
    var t := Apply(s, CountDown(y));
    assert MayFail(t, c) == {} && Spawnable(t, c) == {} && Spawnable(s, c) == {};
    forall z | z in Owing(s, c) && z != y
      ensures z in Owing(t, c)
    {
      OwesAlike(s, t, z, c);
    }
    Fewer(Owing(s, c) - {y}, Owing(t, c));
  }

  lemma {:induction false} CanClose(s0: State, s: State, c: nat, ch: nat) returns (t: State)
    requires Stays(s0, s, s, c, ch) && DownsLeft(s, c) >= 1 && DownsLeft(s, c) >= Counter(s, c)
    ensures Reaches(s0, t) && ch in t.closed
    decreases Counter(s, c), |Spawnable(s, c)|
  {
    if Spawnable(s, c) != {} {
      t := SpawnOne(s0, s, c, ch);
      t := CanClose(s0, t, c, ch);
    } else {
      var u, step := NextDown(s0, s, c, ch);
      CountDownStep(u, step, c, ch);
      ReachesNext(s0, u, step);
      InvStep(u, step);
      t := Apply(u, step);
      if ch !in t.closed {
        t := CanClose(s0, t, c, ch);
      }
    }
  }

  /** A waiting init can still be woken exactly when some count-down can still come and as
      many can as the counter shows. A counter below zero, or one that missed a count-down
      or counts a start whose exit is lost, leaves it waiting for ever. */
  lemma WaiterClosableIff(s: State, c: nat, ch: nat)
    requires Reachable(s) && Waits(s, c, ch)
    ensures (exists t :: Reaches(s, t) && ch in t.closed) <==> DownsLeft(s, c) >= 1 && DownsLeft(s, c) >= Counter(s, c)
  {
    ReachableInv(s);
    if DownsLeft(s, c) >= 1 && DownsLeft(s, c) >= Counter(s, c) {
      ReachesItself(s);
      var t := CanClose(s, s, c, ch);
    }
    if t :| Reaches(s, t) && ch in t.closed {
      var trace, steps :| Continues(s, trace, steps) && trace[|steps|] == t;
      ClosingNeeds(s, trace, steps, c, ch, 0);
    }
  }
}
