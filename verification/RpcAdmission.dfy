/** Admission of RPCs and the drain that precedes shutdown.

    Any number of RPC threads run beside the single drainer. Every step is one
    atomic access of the source: a load of the shutdown flag, a load or a
    compare-and-swap of the lifecycle word, an add to the in-flight counter. */
module RpcAdmission {
  import opened Lifecycle
  import opened Wrappers

  /** Shutdown is the one RPC admitted while shutting down. */
  datatype Rpc = CreateRpc | StartInitRpc | DeleteInitRpc | PlainRpc | ShutdownRpc

  /** Where a thread is. The first six are beginRPC, the last two its end. */
  datatype Pc =
    | FirstFlag | FirstState | Enter | SecondFlag | SecondState | Undo
    | TryCreate | Validate | CreateWork
    | StartWork
    | TryDeleteRunning | TryDeleteCreated | DeleteWork
    | Work
    | Leave | Gone

  datatype Thread = Thread(rpc: Rpc, pc: Pc)

  datatype Drainer = NotRequested | FlagStored | Polling | Drained | TimedOut

  datatype State = State(
    flag: bool,
    life: ShimState,
    inflight: int,
    threads: map<nat, Thread>,
    drainer: Drainer,
    deletions: nat  // how often a delete helper has fired
  )

  predicate AllowedDuringShutdown(rpc: Rpc) { rpc == ShutdownRpc }

  predicate InBody(pc: Pc) {
    || pc.TryCreate? || pc.Validate? || pc.CreateWork? || pc.StartWork?
    || pc.TryDeleteRunning? || pc.TryDeleteCreated? || pc.DeleteWork? || pc.Work?
  }

  /** Incremented and not yet decremented. */
  predicate Counted(pc: Pc) {
    pc.SecondFlag? || pc.SecondState? || pc.Undo? || pc.Leave? || InBody(pc)
  }

  function BodyEntry(rpc: Rpc): Pc {
    match rpc
    case CreateRpc => TryCreate
    case StartInitRpc => StartWork
    case DeleteInitRpc => TryDeleteRunning
    case PlainRpc => Work
    case ShutdownRpc => Work
  }

  /** What one step of a thread does: its next place, the move it makes on the
      lifecycle word, and what it adds to the counter. */
  datatype Effect = Effect(pc: Pc, move: Option<Move>, add: int)

  /** `choice` stands for everything the step learns from outside: whether the
      request is well formed, whether the work succeeded. */
  function ThreadEffect(th: Thread, flag: bool, life: ShimState, choice: bool): Effect {
    match th.pc
    case FirstFlag => Effect(if flag then Gone else FirstState, None, 0)
    case FirstState => Effect(if life == ShuttingDown then Gone else Enter, None, 0)
    case Enter =>
      Effect(if AllowedDuringShutdown(th.rpc) then BodyEntry(th.rpc) else SecondFlag, None, 1)
    case SecondFlag => Effect(if flag then Undo else SecondState, None, 0)
    case SecondState => Effect(if life == ShuttingDown then Undo else BodyEntry(th.rpc), None, 0)
    case Undo => Effect(Gone, None, -1)
    case TryCreate =>
      if choice then
        Effect(if Fires(StartCreating, life) then Validate else Leave, Some(StartCreating), 0)
      else Effect(Leave, None, 0)
    case Validate =>
      if choice then Effect(CreateWork, None, 0) else Effect(Leave, Some(MarkCreationFailed), 0)
    case CreateWork =>
      Effect(Leave, Some(if choice then MarkCreated else MarkCreationFailed), 0)
    case StartWork => Effect(Leave, if choice then Some(MarkStarted) else None, 0)
    case TryDeleteRunning =>
      Effect(if Fires(DeleteRunning, life) then DeleteWork else TryDeleteCreated, Some(DeleteRunning), 0)
    case TryDeleteCreated =>
      Effect(if Fires(DeleteCreated, life) then DeleteWork else Leave, Some(DeleteCreated), 0)
    case DeleteWork => Effect(Leave, None, 0)
    case Work => Effect(Leave, None, 0)
    case Leave => Effect(Gone, None, -1)
    case Gone => Effect(Gone, None, 0)
  }

  datatype Step =
    | Arrive(t: nat, rpc: Rpc)
    | Advance(t: nat, choice: bool)
    | RequestShutdown            // the first caller of requestShutdownAndExit stores the flag
    | ForceLife                  // and then forces the lifecycle word
    | Poll                       // one test of the drain loop
    | PollTimeout
    | CallbackStoresFlag         // shutdown() run by the shutdown service on its own
    | CallbackForcesLife

  predicate Enabled(s: State, step: Step) {
    match step
    case Arrive(t, _) => t !in s.threads
    case Advance(t, _) => t in s.threads && s.threads[t].pc != Gone
    case RequestShutdown => s.drainer == NotRequested
    case ForceLife => s.drainer == FlagStored
    case Poll => s.drainer == Polling
    case PollTimeout => s.drainer == Polling
    case CallbackStoresFlag => true
    case CallbackForcesLife => s.flag
  }

  predicate IsDeletion(m: Option<Move>) {
    m == Some(DeleteRunning) || m == Some(DeleteCreated)
  }

  function AdvanceThread(s: State, t: nat, choice: bool): State
    requires t in s.threads
  {
    var e := ThreadEffect(s.threads[t], s.flag, s.life, choice);
    State(s.flag,
          if e.move.Some? then After(e.move.value, s.life) else s.life,
          s.inflight + e.add,
          s.threads[t := Thread(s.threads[t].rpc, e.pc)],
          s.drainer,
          s.deletions + if IsDeletion(e.move) && Fires(e.move.value, s.life) then 1 else 0)
  }

  function Apply(s: State, step: Step): State
    requires Enabled(s, step)
  {
    match step
    case Arrive(t, rpc) =>
      s.(threads := s.threads[t := Thread(rpc, if AllowedDuringShutdown(rpc) then Enter else FirstFlag)])
    case Advance(t, choice) => AdvanceThread(s, t, choice)
    case RequestShutdown => s.(flag := true, drainer := FlagStored)
    case ForceLife => s.(life := After(ForceShutdown, s.life), drainer := Polling)
    case Poll => if s.inflight > 0 then s else s.(drainer := Drained)
    case PollTimeout => s.(drainer := TimedOut)
    case CallbackStoresFlag => s.(flag := true)
    case CallbackForcesLife => s.(life := After(ForceShutdown, s.life))
  }

  predicate Init(s: State) {
    s == State(false, Idle, 0, map[], NotRequested, 0)
  }

  /** A run: any number of threads, any interleaving. */
  ghost predicate Execution(trace: seq<State>, steps: seq<Step>) {
    && |trace| == |steps| + 1
    && Init(trace[0])
    && forall i :: 0 <= i < |steps| ==> Enabled(trace[i], steps[i]) && trace[i + 1] == Apply(trace[i], steps[i])
  }

  // ----- what every step keeps

  ghost function InFlight(s: State): set<nat> { set t | t in s.threads && Counted(s.threads[t].pc) }

  /** Past the compare-and-swap that claims the shim for a creation. */
  predicate IsCreator(th: Thread) { th.pc.Validate? || th.pc.CreateWork? }

  ghost predicate NoCreator(s: State) {
    forall t :: t in s.threads ==> !IsCreator(s.threads[t])
  }

  ghost predicate OneCreator(s: State) {
    forall t, u :: t in s.threads && u in s.threads && IsCreator(s.threads[t]) && IsCreator(s.threads[u]) ==> t == u
  }

  ghost predicate NoDeleter(s: State) {
    forall t :: t in s.threads ==> !s.threads[t].pc.DeleteWork?
  }

  predicate Refused(th: Thread) {
    !AllowedDuringShutdown(th.rpc) ==> !InBody(th.pc) && th.pc != SecondState && th.pc != Leave
  }

  ghost predicate CounterInv(s: State) { s.inflight == |InFlight(s)| }

  ghost predicate DrainInv(s: State) {
    && (s.drainer != NotRequested ==> s.flag)
    && (s.drainer == Drained ==> forall t :: t in s.threads ==> Refused(s.threads[t]))
  }

  ghost predicate LifeInv(s: State) {
    && OneCreator(s)
    && (s.life != Creating && s.life != ShuttingDown ==> NoCreator(s))
    && s.deletions <= 1
    && (s.life == Deleting ==> s.deletions == 1)
    && (s.deletions == 1 ==> (s.life == Deleting || s.life == ShuttingDown) && NoCreator(s))
    && (s.deletions == 0 ==> NoDeleter(s))
  }

  ghost predicate Inv(s: State) { CounterInv(s) && DrainInv(s) && LifeInv(s) }

  /** The counter moves exactly when the thread enters or leaves the counted region. */
  lemma EffectIsCounted(th: Thread, flag: bool, life: ShimState, choice: bool)
    ensures var e := ThreadEffect(th, flag, life, choice);
            e.add == (if Counted(e.pc) then 1 else 0) - (if Counted(th.pc) then 1 else 0)
  {
  }

  lemma InFlightUpdate(s: State, s': State, t: nat, th: Thread)
    requires s'.threads == s.threads[t := th]
    ensures InFlight(s') == if Counted(th.pc) then InFlight(s) + {t} else InFlight(s) - {t}
  {
  }

  lemma CounterAdvance(s: State, t: nat, choice: bool)
    requires CounterInv(s) && t in s.threads
    ensures CounterInv(AdvanceThread(s, t, choice))
  {
    var s' := AdvanceThread(s, t, choice);
    EffectIsCounted(s.threads[t], s.flag, s.life, choice);
    InFlightUpdate(s, s', t, s'.threads[t]);
    assert t in InFlight(s) <==> Counted(s.threads[t].pc);
  }

  lemma CounterStep(s: State, step: Step)
    requires CounterInv(s) && Enabled(s, step)
    ensures CounterInv(Apply(s, step))
  {
    var s' := Apply(s, step);
    match step
    case Arrive(t, rpc) => InFlightUpdate(s, s', t, s'.threads[t]);
    case Advance(t, choice) => CounterAdvance(s, t, choice);
    case _ => assert InFlight(s') == InFlight(s);
  }

  /** When the counter reads zero, nobody is between the increment and the decrement. */
  lemma ZeroMeansNobody(s: State)
    requires CounterInv(s) && s.inflight <= 0
    ensures forall t :: t in s.threads ==> !Counted(s.threads[t].pc)
  {
    assert InFlight(s) == {};
    forall t | t in s.threads
      ensures !Counted(s.threads[t].pc)
    {
      assert t !in InFlight(s);
    }
  }

  lemma DrainStep(s: State, step: Step)
    requires CounterInv(s) && DrainInv(s) && Enabled(s, step)
    ensures DrainInv(Apply(s, step))
  {
    if step == Poll && s.inflight <= 0 {
      ZeroMeansNobody(s);
    }
  }

  lemma LifeStep(s: State, step: Step)
    requires LifeInv(s) && Enabled(s, step)
    ensures LifeInv(Apply(s, step))
  {
    if step.Advance? {
      LifeAdvance(s, step.t, step.choice);
    }
  }

  /** A thread's effect on the lifecycle, seen from the word: which moves make or
      end a creator, and which start a deletion. */
  lemma EffectOnLife(th: Thread, flag: bool, life: ShimState, choice: bool)
    ensures var e := ThreadEffect(th, flag, life, choice);
            var life' := if e.move.Some? then After(e.move.value, life) else life;
            var th' := Thread(th.rpc, e.pc);
            && (IsCreator(th') ==> (IsCreator(th) && life' == life) || (life == Idle && life' == Creating))
            && (life' != life ==>
                  || (life == Idle && life' == Creating && IsCreator(th'))
                  || (IsCreator(th) && life == Creating && !IsCreator(th') && (life' == Idle || life' == Created))
                  || (!IsCreator(th) && life == Created && life' == Running)
                  || (!IsCreator(th) && IsDeletion(e.move) && Fires(e.move.value, life) && life' == Deleting))
            && (IsDeletion(e.move) && Fires(e.move.value, life) ==>
                  (life == Created || life == Running) && life' == Deleting && !IsCreator(th))
            && (e.pc.DeleteWork? ==> IsDeletion(e.move) && Fires(e.move.value, life))
  {
  }

  lemma LifeAdvance(s: State, t: nat, choice: bool)
    requires LifeInv(s) && t in s.threads
    ensures LifeInv(AdvanceThread(s, t, choice))
  {
    EffectOnLife(s.threads[t], s.flag, s.life, choice);
    var s' := AdvanceThread(s, t, choice);
    assert forall u :: u in s'.threads && u != t ==> u in s.threads && s'.threads[u] == s.threads[u];
    if IsCreator(s.threads[t]) {
      assert forall u :: u in s.threads && u != t ==> !IsCreator(s.threads[u]);
    }
  }

  lemma InitInv(s: State)
    requires Init(s)
    ensures Inv(s)
  {
    assert InFlight(s) == {};
  }

  lemma {:induction false} RunInv(trace: seq<State>, steps: seq<Step>, i: nat)
    requires Execution(trace, steps) && i < |trace|
    ensures Inv(trace[i])
  {
    if i == 0 {
      InitInv(trace[0]);
    } else {
      RunInv(trace, steps, i - 1);
      CounterStep(trace[i - 1], steps[i - 1]);
      DrainStep(trace[i - 1], steps[i - 1]);
      LifeStep(trace[i - 1], steps[i - 1]);
    }
  }

  // ----- theorems about whole runs

  /** The counter is exact in every reachable state. */
  lemma InflightIsExact(trace: seq<State>, steps: seq<Step>, i: nat)
    requires Execution(trace, steps) && i < |trace|
    ensures trace[i].inflight == |set t | t in trace[i].threads && Counted(trace[i].threads[t].pc)|
  {
    RunInv(trace, steps, i);
    assert InFlight(trace[i]) == set t | t in trace[i].threads && Counted(trace[i].threads[t].pc);
  }

  lemma {:induction false} DrainedStays(trace: seq<State>, steps: seq<Step>, i: nat, j: nat)
    requires Execution(trace, steps) && i <= j < |trace| && trace[i].drainer == Drained
    ensures trace[j].drainer == Drained
    decreases j - i
  {
    if i < j {
      DrainedStays(trace, steps, i, j - 1);
    }
  }

  /** Once the drain loop has ended by reading zero, no RPC other than Shutdown is
      in its body, then or at any later point of the run. */
  lemma NoBodyAfterDrain(trace: seq<State>, steps: seq<Step>, i: nat, j: nat, t: nat)
    requires Execution(trace, steps) && i <= j < |trace| && trace[i].drainer == Drained
    requires t in trace[j].threads && !AllowedDuringShutdown(trace[j].threads[t].rpc)
    ensures !InBody(trace[j].threads[t].pc)
  {
    DrainedStays(trace, steps, i, j);
    RunInv(trace, steps, j);
  }

  lemma {:induction false} ShuttingDownIsAbsorbing(trace: seq<State>, steps: seq<Step>, i: nat, j: nat)
    requires Execution(trace, steps) && i <= j < |trace|
    ensures Rank(trace[i].life) <= Rank(trace[j].life)
    ensures trace[i].life == ShuttingDown ==> trace[j].life == ShuttingDown
    decreases j - i
  {
    if i < j {
      ShuttingDownIsAbsorbing(trace, steps, i, j - 1);
    }
  }

  /** Two creations never overlap once one has claimed the shim. */
  lemma AtMostOneCreation(trace: seq<State>, steps: seq<Step>, i: nat, t: nat, u: nat)
    requires Execution(trace, steps) && i < |trace|
    requires t in trace[i].threads && u in trace[i].threads
    requires IsCreator(trace[i].threads[t]) && IsCreator(trace[i].threads[u])
    ensures t == u
  {
    RunInv(trace, steps, i);
  }

  /** A deletion of the container and a creation are never both at work. */
  lemma NoDeletionDuringCreation(trace: seq<State>, steps: seq<Step>, i: nat, t: nat, u: nat)
    requires Execution(trace, steps) && i < |trace|
    requires t in trace[i].threads && u in trace[i].threads
    requires trace[i].threads[t].pc == DeleteWork
    ensures !IsCreator(trace[i].threads[u])
  {
    RunInv(trace, steps, i);
  }

  lemma DeletionStartsAtMostOnce(trace: seq<State>, steps: seq<Step>, i: nat)
    requires Execution(trace, steps) && i < |trace|
    ensures trace[i].deletions <= 1
    ensures trace[i].deletions == 1 ==> trace[i].life == Deleting || trace[i].life == ShuttingDown
  {
    RunInv(trace, steps, i);
  }

  // ----- a deletion's two attempts

  /** A deletion may start. */
  predicate Deletable(s: State) { s.life == Created || s.life == Running }

  lemma LifeGoesOn(s: State, step: Step)
    requires Enabled(s, step) && s.life == Running && Deletable(Apply(s, step))
    ensures Apply(s, step).life == Running
  {
  }

  lemma {:induction false} RunningStays(trace: seq<State>, steps: seq<Step>, k: nat, j: nat)
    requires Execution(trace, steps) && k <= j < |trace| && trace[k].life == Running
    requires forall n :: k <= n <= j ==> Deletable(trace[n])
    ensures trace[j].life == Running
  {
    if k < j {
      RunningStays(trace, steps, k, j - 1);
      assert Deletable(trace[j]);
      LifeGoesOn(trace[j - 1], steps[j - 1]);
    }
  }

  predicate StartedAt(trace: seq<State>, k: nat)
    requires k + 1 < |trace|
  {
    trace[k].life == Created && trace[k + 1].life == Running
  }

  lemma {:induction false} StartedBetween(trace: seq<State>, steps: seq<Step>, i: nat, j: nat) returns (k: nat)
    requires Execution(trace, steps) && i <= j < |trace| && trace[i].life == Created && trace[j].life == Running
    requires forall n :: i <= n <= j ==> Deletable(trace[n])
    ensures i <= k < j && StartedAt(trace, k)
  {
    if trace[j - 1].life == Created {
      k := j - 1;
    } else {
      k := StartedBetween(trace, steps, i, j - 1);
    }
  }

  /** A deletion tries Running first and Created after. If the shim can be deleted all the
      while, the deletion is refused exactly when the start is marked between the two. */
  lemma DeletableIsRefusedIff(trace: seq<State>, steps: seq<Step>, i: nat, j: nat, t: nat)
    requires Execution(trace, steps) && i < j < |steps| && t in trace[i].threads && t in trace[j].threads
    requires steps[i].Advance? && steps[i].t == t && trace[i].threads[t].pc == TryDeleteRunning
    requires steps[j].Advance? && steps[j].t == t && trace[j].threads[t].pc == TryDeleteCreated
    requires trace[i + 1].threads[t].pc == TryDeleteCreated && forall n :: i <= n <= j ==> Deletable(trace[n])
    ensures trace[j + 1].threads[t].pc == Leave <==> exists k :: i <= k < j && StartedAt(trace, k)
  {
    assert trace[i].life == Created;
    assert trace[j + 1].threads[t].pc == Leave <==> trace[j].life != Created;
    if trace[j].life == Running {
      var k := StartedBetween(trace, steps, i, j);
    }
    if k :| i <= k < j && StartedAt(trace, k) {
      RunningStays(trace, steps, k + 1, j);
    }
  }

  ghost predicate Reachable(s: State) { exists trace, steps :: Execution(trace, steps) && trace[|steps|] == s }

  lemma ReachNext(s: State, step: Step)
    requires Reachable(s) && Enabled(s, step)
    ensures Reachable(Apply(s, step))
  {
    var trace, steps :| Execution(trace, steps) && trace[|steps|] == s;
    var s' := Apply(s, step);
    assert Execution(trace + [s'], steps + [step]);
    assert (trace + [s'])[|steps + [step]|] == s';
  }

  function At(s: State, t: nat, rpc: Rpc, pc: Pc): State { s.(threads := s.threads[t := Thread(rpc, pc)]) }

  /** A thread goes from one place of beginRPC to the next while nothing shuts down. */
  lemma Proceeds(s: State, t: nat, rpc: Rpc, pc: Pc, next: Pc)
    requires Reachable(At(s, t, rpc, pc)) && !s.flag && s.life != ShuttingDown && rpc != ShutdownRpc
    requires || (pc == FirstFlag && next == FirstState) || (pc == FirstState && next == Enter)
             || (pc == SecondFlag && next == SecondState) || (pc == SecondState && next == BodyEntry(rpc))
    ensures Reachable(At(s, t, rpc, next))
  {
    var u := At(s, t, rpc, pc);
    ReachNext(u, Advance(t, true));
    assert u.threads[t := Thread(rpc, next)] == s.threads[t := Thread(rpc, next)];
    assert Apply(u, Advance(t, true)) == At(s, t, rpc, next);
  }

  /** An RPC is admitted to its body while nothing shuts down. */
  lemma Admitted(s: State, t: nat, rpc: Rpc) returns (s': State)
    requires Reachable(s) && t !in s.threads && !s.flag && s.life != ShuttingDown && rpc != ShutdownRpc
    ensures Reachable(s')
    ensures s' == s.(threads := s.threads[t := Thread(rpc, BodyEntry(rpc))], inflight := s.inflight + 1)
  {
    ReachNext(s, Arrive(t, rpc));
    Proceeds(s, t, rpc, FirstFlag, FirstState);
    Proceeds(s, t, rpc, FirstState, Enter);
    var u := At(s, t, rpc, Enter);
    ReachNext(u, Advance(t, true));
    var counted := s.(inflight := s.inflight + 1);
    assert Apply(u, Advance(t, true)) == At(counted, t, rpc, SecondFlag);
    Proceeds(counted, t, rpc, SecondFlag, SecondState);
    Proceeds(counted, t, rpc, SecondState, BodyEntry(rpc));
    s' := At(counted, t, rpc, BodyEntry(rpc));
  }

  /** A Create goes from one place of its body to the next. */
  lemma CreateProceeds(s: State, t: nat, pc: Pc, next: Pc, life: ShimState)
    requires Reachable(At(s, t, CreateRpc, pc))
    requires || (pc == TryCreate && s.life == Idle && next == Validate && life == Creating)
             || (pc == Validate && next == CreateWork && life == s.life)
             || (pc == CreateWork && s.life == Creating && next == Leave && life == Created)
    ensures Reachable(At(s.(life := life), t, CreateRpc, next))
  {
    var u := At(s, t, CreateRpc, pc);
    ReachNext(u, Advance(t, true));
    assert u.threads[t := Thread(CreateRpc, next)] == s.threads[t := Thread(CreateRpc, next)];
    assert Apply(u, Advance(t, true)) == At(s.(life := life), t, CreateRpc, next);
  }

  /** The shim's container is created. */
  lemma Creates() returns (s: State)
    ensures Reachable(s) && !s.flag && s.life == Created && s.threads == map[0 := Thread(CreateRpc, Leave)]
  {
    s := State(false, Idle, 0, map[], NotRequested, 0);
    assert Execution([s], []);
    var t := Admitted(s, 0, CreateRpc);
    s := s.(inflight := 1);
    CreateProceeds(s, 0, TryCreate, Validate, Creating);
    CreateProceeds(s.(life := Creating), 0, Validate, CreateWork, Creating);
    CreateProceeds(s.(life := Creating), 0, CreateWork, Leave, Created);
    s := At(s.(life := Created), 0, CreateRpc, Leave);
  }

  /** The two attempts of thread 2, with the mark of thread 1 between them. */
  lemma Straddles(s: State)
    requires s.life == Created && 1 in s.threads && s.threads[1] == Thread(StartInitRpc, StartWork)
    requires 2 in s.threads && s.threads[2] == Thread(DeleteInitRpc, TryDeleteRunning)
    ensures var u := Apply(s, Advance(2, true));
            && u.life == Created && 1 in u.threads && u.threads[1] == Thread(StartInitRpc, StartWork)
            && 2 in u.threads && u.threads[2] == Thread(DeleteInitRpc, TryDeleteCreated)
  {
  }

  lemma StartMarks(u: State)
    requires u.life == Created && 1 in u.threads && u.threads[1] == Thread(StartInitRpc, StartWork)
    requires 2 in u.threads && u.threads[2] == Thread(DeleteInitRpc, TryDeleteCreated)
    ensures var v := Apply(u, Advance(1, true));
            v.life == Running && 2 in v.threads && v.threads[2] == Thread(DeleteInitRpc, TryDeleteCreated)
  {
  }

  lemma IsRefused(v: State)
    requires v.life == Running && 2 in v.threads && v.threads[2] == Thread(DeleteInitRpc, TryDeleteCreated)
    ensures var w := Apply(v, Advance(2, true)); w.life == Running && w.threads[2].pc == Leave
  {
  }

  /** A deletion whose attempts straddle the mark of a start is refused, though the shim was
      in a state to be deleted at both. */
  lemma DeleteMissesStart() returns (first: State, second: State, end: State)
    ensures Reachable(first) && first.life == Created
    ensures 2 in first.threads && first.threads[2] == Thread(DeleteInitRpc, TryDeleteRunning)
    ensures Enabled(first, Advance(2, true)) && Enabled(Apply(first, Advance(2, true)), Advance(1, true))
    ensures second == Apply(Apply(first, Advance(2, true)), Advance(1, true)) && second.life == Running
    ensures Enabled(second, Advance(2, true)) && end == Apply(second, Advance(2, true)) && Reachable(end)
    ensures 2 in end.threads && end.threads[2] == Thread(DeleteInitRpc, Leave) && end.life == Running
  {
    first := Creates();
    first := Admitted(first, 1, StartInitRpc);
    first := Admitted(first, 2, DeleteInitRpc);
    Straddles(first);
    ReachNext(first, Advance(2, true));
    var u := Apply(first, Advance(2, true));
    StartMarks(u);
    ReachNext(u, Advance(1, true));
    second := Apply(u, Advance(1, true));
    IsRefused(second);
    ReachNext(second, Advance(2, true));
    end := Apply(second, Advance(2, true));
  }
}
