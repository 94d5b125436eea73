/** The order in which a container's exits are published: the init exit last.

    Steps are the critical sections of the coordinator, the registry and the windows,
    and the sends to the event channel, for any number of containers, execs and starts.
    An exec is created while its init has not been set exited. Every start of an exec,
    the first or a repeated one, is admitted while no init exit is stashed, and opens a
    window. The first that succeeds gives the exec its PID. One that fails is counted
    down and goes on all the same if the exec has a PID by then: it publishes the exit its
    window caught, or is listed and after that counted up. The reaper takes an exit from
    every listed start, publishes it for each, and counts each down. An init exit caught
    by its own start window is published at once; one that the reaper sees is stashed, and
    let through when the counter says so. */
module ExitOrdering {
  import opened ExitTracker
  import opened Wrappers

  /** An exec's process: without a PID, running, its exit broadcast to the windows, its PID
      removed from the registry. */
  datatype Life = Idle | Running | Reported | Reaped

  datatype Exec = Exec(container: nat, life: Life, removed: bool)

  /** Where a start is. Its window is open from Subscribed to Failed; in Gap it is closed
      and the process not yet listed; Over is the end of a start that found no PID. */
  datatype Stage = Admitted | Subscribed | Spawned | Failed | Gap | Listed | Up | Caught | Over

  /** A count-down does nothing while the container has no counter. */
  datatype Down = NotYet | Missed | Took

  /** `seen`: its window holds the exit. `taken`: the reaper took the exit from its entry.
      `refusal` is the count-down of a failed start, `down` the one after its publication. */
  datatype Start = Start(
    exec: nat,
    container: nat,
    stage: Stage,
    seen: bool,
    taken: bool,
    published: bool,
    refusal: Down,
    down: Down)

  datatype InitPhase = Alive | Stashed | WaitingOn(channel: nat) | MayPublish | Published

  /** ExecExit(y) is the exit of an exec, published for its start y. */
  datatype Event = ExecExit(y: nat) | InitExit(c: nat)

  datatype State = State(
    containers: map<nat, ExitState>,
    execs: map<nat, Exec>,
    starts: map<nat, Start>,
    inits: map<nat, InitPhase>,
    nextChannel: nat,
    closed: set<nat>,
    log: seq<Event>)

  datatype Step =
    | Create(x: nat, c: nat)
    | Remove(x: nat)
    | Admit(y: nat, x: nat, c: nat)
    | Subscribe(y: nat)
    | Spawn(y: nat)
    | FailStart(y: nat, found: bool)
    | GiveUp(y: nat)
    | Catch(y: nat)
    | Complete(y: nat)
    | List(y: nat)
    | CountUp(y: nat)
    | Report(x: nat)
    | Reap(x: nat)
    | PublishExec(y: nat)
    | CountDown(y: nat)
    | InitExits(c: nat, e: Exit)
    | EarlyInit(c: nat)
    | Decide(c: nat)
    | Wake(c: nat)
    | PublishInit(c: nat)

  function PhaseOf(inits: map<nat, InitPhase>, c: nat): InitPhase { if c in inits then inits[c] else Alive }

  predicate InitHasExited(containers: map<nat, ExitState>, c: nat) { StateOf(containers, c).initExit.Some? }

  /** The exec a start names exists, in the container it names. */
  predicate Known(execs: map<nat, Exec>, st: Start) { st.exec in execs && execs[st.exec].container == st.container }

  predicate WindowOpen(st: Start) { st.stage == Subscribed || st.stage == Spawned || st.stage == Failed }

  predicate InRegistry(st: Start) { st.stage == Listed || st.stage == Up }

  /** An exec is set exited by the first publication of its exit. */
  predicate Stopped(starts: map<nat, Start>, x: nat) {
    exists y :: y in starts && starts[y].exec == x && starts[y].published
  }

  /** One init exit per container is the premise on InitExits and EarlyInit. A start may be
      admitted for an exec that does not exist; the look-up then fails, as it does once the
      exec is deleted. */
  predicate Enabled(s: State, step: Step) {
    match step
    case Create(x, c) => x !in s.execs && PhaseOf(s.inits, c) != Published
    case Remove(x) =>
      && x in s.execs && !s.execs[x].removed
      && (s.execs[x].life == Idle || Stopped(s.starts, x))
    case Admit(y, _, c) => y !in s.starts && !InitHasExited(s.containers, c)
    case Subscribe(y) => y in s.starts && s.starts[y].stage == Admitted
    case Spawn(y) =>
      && y in s.starts && s.starts[y].stage == Subscribed && Known(s.execs, s.starts[y])
      && s.execs[s.starts[y].exec].life == Idle && !s.execs[s.starts[y].exec].removed
    case FailStart(y, found) =>
      && y in s.starts && s.starts[y].stage == Subscribed
      && (if found then Known(s.execs, s.starts[y])
          else Known(s.execs, s.starts[y]) ==> s.execs[s.starts[y].exec].removed)
    case GiveUp(y) =>
      && y in s.starts && s.starts[y].stage == Failed
      && Known(s.execs, s.starts[y]) && s.execs[s.starts[y].exec].life == Idle
    case Catch(y) => y in s.starts && (s.starts[y].stage == Spawned || s.starts[y].stage == Failed) && s.starts[y].seen
    case Complete(y) =>
      && y in s.starts && (s.starts[y].stage == Spawned || s.starts[y].stage == Failed) && !s.starts[y].seen
      && Known(s.execs, s.starts[y]) && s.execs[s.starts[y].exec].life != Idle
    case List(y) => y in s.starts && s.starts[y].stage == Gap
    case CountUp(y) => y in s.starts && s.starts[y].stage == Listed
    case Report(x) => x in s.execs && s.execs[x].life == Running
    case Reap(x) => x in s.execs && s.execs[x].life == Reported
    case PublishExec(y) =>
      y in s.starts && !s.starts[y].published && (s.starts[y].stage == Caught || s.starts[y].taken)
    case CountDown(y) => y in s.starts && s.starts[y].published && s.starts[y].down == NotYet
    case InitExits(c, _) => PhaseOf(s.inits, c) == Alive
    case EarlyInit(c) => PhaseOf(s.inits, c) == Alive
    case Decide(c) => PhaseOf(s.inits, c) == Stashed
    case Wake(c) => PhaseOf(s.inits, c).WaitingOn? && PhaseOf(s.inits, c).channel in s.closed
    case PublishInit(c) => PhaseOf(s.inits, c) == MayPublish
  }

  function With(s: State, y: nat, st: Start): State { s.(starts := s.starts[y := st]) }

  /** A count-down for container c, with the start it is for. */
  function Counted(s: State, c: nat, y: nat, st: Start): State {
    var ch := Closes(s.containers, c);
    s.(containers := DecrementExecs(s.containers, c), starts := s.starts[y := st],
       closed := if ch.Some? then s.closed + {ch.value} else s.closed)
  }

  function Outcome(containers: map<nat, ExitState>, c: nat): Down { if c in containers then Took else Missed }

  /** The broadcast reaches every open window of a start of the exec. */
  function Sees(st: Start, x: nat, c: nat): Start {
    if st.exec == x && st.container == c && WindowOpen(st) then st.(seen := true) else st
  }

  /** The removal takes every entry of the exec. */
  function Takes(st: Start, x: nat, c: nat): Start {
    if st.exec == x && st.container == c && InRegistry(st) then st.(taken := true) else st
  }

  function Apply(s: State, step: Step): State
    requires Enabled(s, step)
  {
    match step
    case Create(x, c) => s.(execs := s.execs[x := Exec(c, Idle, false)])
    case Remove(x) => s.(execs := s.execs[x := s.execs[x].(removed := true)])
    case Admit(y, x, c) => With(s, y, Start(x, c, Admitted, false, false, false, NotYet, NotYet))
    case Subscribe(y) => With(s, y, s.starts[y].(stage := Subscribed))
    case Spawn(y) =>
      var x := s.starts[y].exec;
      With(s, y, s.starts[y].(stage := Spawned)).(execs := s.execs[x := s.execs[x].(life := Running)])
    case FailStart(y, found) =>
      var st := s.starts[y];
      Counted(s, st.container, y,
              st.(stage := if found then Failed else Over, refusal := Outcome(s.containers, st.container)))
    case GiveUp(y) => With(s, y, s.starts[y].(stage := Over))
    case Catch(y) => With(s, y, s.starts[y].(stage := Caught))
    case Complete(y) => With(s, y, s.starts[y].(stage := Gap))
    case List(y) => With(s, y, s.starts[y].(stage := Listed))
    case CountUp(y) =>
      With(s, y, s.starts[y].(stage := Up)).(containers := IncrementExecs(s.containers, s.starts[y].container))
    case Report(x) =>
      var e := s.execs[x];
      s.(execs := s.execs[x := e.(life := Reported)],
         starts := map y | y in s.starts :: Sees(s.starts[y], x, e.container))
    case Reap(x) =>
      var e := s.execs[x];
      s.(execs := s.execs[x := e.(life := Reaped)],
         starts := map y | y in s.starts :: Takes(s.starts[y], x, e.container))
    case PublishExec(y) => With(s, y, s.starts[y].(published := true)).(log := s.log + [ExecExit(y)])
    case CountDown(y) =>
      var st := s.starts[y];
      Counted(s, st.container, y, st.(down := Outcome(s.containers, st.container)))
    case InitExits(c, e) => s.(containers := StashInitExit(s.containers, c, e), inits := s.inits[c := Stashed])
    case EarlyInit(c) => s.(inits := s.inits[c := Published], log := s.log + [InitExit(c)])
    case Decide(c) =>
      if MustDelay(s.containers, c) then
        s.(containers := s.containers[c := s.containers[c].(execWaiter := Some(s.nextChannel))],
           nextChannel := s.nextChannel + 1, inits := s.inits[c := WaitingOn(s.nextChannel)])
      else s.(inits := s.inits[c := MayPublish])
    case Wake(c) => s.(inits := s.inits[c := MayPublish])
    case PublishInit(c) => s.(inits := s.inits[c := Published], log := s.log + [InitExit(c)])
  }

  const INITIAL := State(map[], map[], map[], map[], 0, {}, [])

  ghost predicate Continues(s: State, trace: seq<State>, steps: seq<Step>) {
    && |trace| == |steps| + 1 && trace[0] == s
    && forall i :: 0 <= i < |steps| ==> Enabled(trace[i], steps[i]) && trace[i + 1] == Apply(trace[i], steps[i])
  }

  ghost predicate Execution(trace: seq<State>, steps: seq<Step>) { Continues(INITIAL, trace, steps) }

  // ----- what every step keeps: the counter

  /** The starts of a container with a property. */
  ghost function Those(starts: map<nat, Start>, c: nat, p: Start -> bool): set<nat> {
    set y | y in starts && starts[y].container == c && p(starts[y])
  }

  predicate IsUp(st: Start) { st.stage == Up }

  predicate HasTook(st: Start) { st.down == Took }

  predicate WasRefused(st: Start) { st.refusal == Took }

  ghost function Ups(starts: map<nat, Start>, c: nat): set<nat> { Those(starts, c, IsUp) }

  ghost function Tooks(starts: map<nat, Start>, c: nat): set<nat> { Those(starts, c, HasTook) }

  /** Starts that failed and were counted down for it. */
  ghost function Refusals(starts: map<nat, Start>, c: nat): set<nat> { Those(starts, c, WasRefused) }

  /** Counted up and not down. */
  ghost function Outstanding(starts: map<nat, Start>, c: nat): set<nat> { Ups(starts, c) - Tooks(starts, c) }

  /** Count-downs without a count-up: failed starts, caught exits, and exits reaped between
      the listing and the count-up. */
  ghost function Strays(starts: map<nat, Start>, c: nat): nat {
    |Tooks(starts, c) - Ups(starts, c)| + |Refusals(starts, c)|
  }

  function One(b: bool): nat { if b then 1 else 0 }

  ghost function Net(starts: map<nat, Start>, c: nat): int {
    |Ups(starts, c)| - |Tooks(starts, c)| - |Refusals(starts, c)|
  }

  function Weight(st: Start): int { One(IsUp(st)) - One(HasTook(st)) - One(WasRefused(st)) }

  function WeightAt(starts: map<nat, Start>, y: nat): int { if y in starts then Weight(starts[y]) else 0 }

  ghost function Counter(s: State, c: nat): int { StateOf(s.containers, c).runningExecs }

  ghost predicate CountInv(s: State) { forall c :: Counter(s, c) == Net(s.starts, c) }

  lemma ThoseUpdate(starts: map<nat, Start>, y: nat, st: Start, p: Start -> bool)
    requires y in starts ==> starts[y].container == st.container
    ensures |Those(starts[y := st], st.container, p)|
            == |Those(starts, st.container, p)| + One(p(st)) - if y in starts then One(p(starts[y])) else 0
  {
    var c := st.container;
    var rest := Those(starts, c, p) - {y};
    assert Those(starts[y := st], c, p) == if p(st) then rest + {y} else rest;
    assert Those(starts, c, p) == if y in starts && p(starts[y]) then rest + {y} else rest;
  }

  lemma ThoseElsewhere(starts: map<nat, Start>, y: nat, st: Start, c: nat, p: Start -> bool)
    requires (y in starts ==> starts[y].container == st.container) && c != st.container
    ensures Those(starts[y := st], c, p) == Those(starts, c, p)
  {
  }

  lemma NetUpdate(starts: map<nat, Start>, y: nat, st: Start, c: nat)
    requires y in starts ==> starts[y].container == st.container
    ensures Net(starts[y := st], c)
            == Net(starts, c) + if c == st.container then Weight(st) - WeightAt(starts, y) else 0
  {
    if c == st.container {
      ThoseUpdate(starts, y, st, IsUp);
      ThoseUpdate(starts, y, st, HasTook);
      ThoseUpdate(starts, y, st, WasRefused);
    } else {
      ThoseElsewhere(starts, y, st, c, IsUp);
      ThoseElsewhere(starts, y, st, c, HasTook);
      ThoseElsewhere(starts, y, st, c, WasRefused);
    }
  }

  /** The reaper's marks touch none of the counts. */
  predicate SameCounts(starts: map<nat, Start>, starts': map<nat, Start>) {
    && starts'.Keys == starts.Keys
    && forall y :: y in starts ==>
         && starts'[y].container == starts[y].container && starts'[y].stage == starts[y].stage
         && starts'[y].refusal == starts[y].refusal && starts'[y].down == starts[y].down
  }

  lemma NetSame(starts: map<nat, Start>, starts': map<nat, Start>, c: nat)
    requires SameCounts(starts, starts')
    ensures Net(starts', c) == Net(starts, c)
  {
    assert Ups(starts', c) == Ups(starts, c);
    assert Tooks(starts', c) == Tooks(starts, c);
    assert Refusals(starts', c) == Refusals(starts, c);
  }

  /** A step on start y keeps the counter exact if it moves both by the same amount. */
  lemma CountUpdate(s: State, s': State, y: nat, st: Start)
    requires CountInv(s) && (y in s.starts ==> s.starts[y].container == st.container) && s'.starts == s.starts[y := st]
    requires forall c :: Counter(s', c) == Counter(s, c)
                         + if c == st.container then Weight(st) - WeightAt(s.starts, y) else 0
    ensures CountInv(s')
  {
    forall c
      ensures Net(s'.starts, c) == Counter(s', c)
    {
      NetUpdate(s.starts, y, st, c);
    }
  }

  lemma CountSame(s: State, s': State)
    requires CountInv(s) && SameCounts(s.starts, s'.starts)
    requires forall c :: Counter(s', c) == Counter(s, c)
    ensures CountInv(s')
  {
    forall c
      ensures Net(s'.starts, c) == Counter(s', c)
    {
      NetSame(s.starts, s'.starts, c);
    }
  }

  lemma CountStep(s: State, step: Step)
    requires CountInv(s) && StartInv(s) && Enabled(s, step)
    ensures CountInv(Apply(s, step))
  {
    if OnStart(step) {
      CountStartStep(s, step);
    } else {
      OtherCounts(s, step);
      CountSame(s, Apply(s, step));
    }
  }

  lemma OtherCounts(s: State, step: Step)
    requires Enabled(s, step) && !OnStart(step)
    ensures SameCounts(s.starts, Apply(s, step).starts) && forall c :: Counter(Apply(s, step), c) == Counter(s, c)
  {
  }

  predicate OnStart(step: Step) {
    || step.Admit? || step.Subscribe? || step.Spawn? || step.FailStart? || step.GiveUp? || step.Catch? || step.Complete?
    || step.List? || step.CountUp? || step.PublishExec? || step.CountDown?
  }

  lemma CountStartStep(s: State, step: Step)
    requires CountInv(s) && StartInv(s) && Enabled(s, step) && OnStart(step)
    ensures CountInv(Apply(s, step))
  {
    var s' := Apply(s, step);
    assert step.y in s.starts ==> StartOk(s, s.starts[step.y]);
    CountUpdate(s, s', step.y, s'.starts[step.y]);
  }

  // ----- what every step keeps: starts, log, stash and waiter

  predicate StartOk(s: State, st: Start) {
    && (st.stage == Admitted ==> !st.seen)
    && (st.stage == Admitted || st.stage == Subscribed ==> st.refusal == NotYet)
    && (st.taken ==> InRegistry(st))
    && (st.published ==> st.stage == Caught || st.taken)
    && (st.down != NotYet ==> st.published)
    && (st.stage == Up || st.down == Took || st.refusal == Took ==> st.container in s.containers)
    && (st.seen || (st.stage != Admitted && st.stage != Subscribed && st.stage != Over) ==> Known(s.execs, st))
    && (st.stage == Spawned || st.stage == Gap || InRegistry(st) ==> s.execs[st.exec].life != Idle)
    && (st.seen ==> s.execs[st.exec].life == Reported || s.execs[st.exec].life == Reaped)
    && (st.stage == Caught ==> st.seen)
  }

  ghost predicate StartInv(s: State) { forall y :: y in s.starts ==> StartOk(s, s.starts[y]) }

  /** Published is exactly what the log says. */
  ghost predicate LogInv(s: State) {
    && (forall y :: ExecExit(y) in s.log <==> y in s.starts && s.starts[y].published)
    && (forall c :: InitExit(c) in s.log <==> PhaseOf(s.inits, c).Published?)
  }

  /** Nothing is published twice for one start. */
  ghost predicate OnceInv(s: State) { forall n, m :: 0 <= n < m < |s.log| ==> s.log[n] != s.log[m] }

  /** An init on its way through the reaper has its exit stashed, and no live one has. */
  ghost predicate StashInv(s: State) {
    && (forall c :: c in s.inits && !s.inits[c].Alive? && !s.inits[c].Published? ==> InitHasExited(s.containers, c))
    && (forall c :: c in s.containers && InitHasExited(s.containers, c) ==> !PhaseOf(s.inits, c).Alive?)
  }

  /** A waiter's channel is open, is its container's alone, and its init waits on it. */
  ghost predicate WaiterInv(s: State) {
    && (forall ch :: ch in s.closed ==> ch < s.nextChannel)
    && (forall c :: c in s.inits && s.inits[c].WaitingOn? ==> s.inits[c].channel < s.nextChannel)
    && (forall c, d :: c in s.inits && d in s.inits && c != d && s.inits[c].WaitingOn? && s.inits[d].WaitingOn? ==>
          s.inits[c].channel != s.inits[d].channel)
    && (forall c :: c in s.containers && s.containers[c].execWaiter.Some? ==>
          && c in s.inits && s.inits[c] == WaitingOn(s.containers[c].execWaiter.value)
          && s.containers[c].execWaiter.value !in s.closed)
    && (forall c :: c in s.inits && s.inits[c].WaitingOn? && s.inits[c].channel !in s.closed ==>
          c in s.containers && s.containers[c].execWaiter == Some(s.inits[c].channel))
  }

  ghost predicate Inv(s: State) {
    CountInv(s) && StartInv(s) && LogInv(s) && OnceInv(s) && StashInv(s) && WaiterInv(s)
  }

  /** Execs are not forgotten and their lives only go on; nor are counters forgotten. */
  ghost predicate Onwards(s: State, s': State) {
    && s.containers.Keys <= s'.containers.Keys
    && forall x :: x in s.execs ==>
         && x in s'.execs && s'.execs[x].container == s.execs[x].container
         && (s.execs[x].life != Idle ==> s'.execs[x].life != Idle)
         && (s.execs[x].life == Reported || s.execs[x].life == Reaped ==>
               s'.execs[x].life == Reported || s'.execs[x].life == Reaped)
  }

  lemma OnwardsStep(s: State, step: Step)
    requires Enabled(s, step)
    ensures Onwards(s, Apply(s, step))
  {
  }

  lemma StartStays(s: State, s': State, st: Start)
    requires StartOk(s, st) && Onwards(s, s')
    ensures StartOk(s', st)
  {
  }

  lemma StartTouched(s: State, step: Step)
    requires StartInv(s) && Enabled(s, step) && OnStart(step)
    ensures StartOk(Apply(s, step), Apply(s, step).starts[step.y])
  {
    assert step.y in s.starts ==> StartOk(s, s.starts[step.y]);
  }

  lemma StartReaped(s: State, step: Step, y: nat)
    requires StartInv(s) && Enabled(s, step) && (step.Report? || step.Reap?) && y in s.starts
    ensures StartOk(Apply(s, step), Apply(s, step).starts[y])
  {
    assert StartOk(s, s.starts[y]);
  }

  lemma StartStep(s: State, step: Step)
    requires StartInv(s) && Enabled(s, step)
    ensures StartInv(Apply(s, step))
  {
    var s' := Apply(s, step);
    OnwardsStep(s, step);
    forall y | y in s'.starts
      ensures StartOk(s', s'.starts[y])
    {
      if OnStart(step) && y == step.y {
        StartTouched(s, step);
      } else if step.Report? || step.Reap? {
        StartReaped(s, step, y);
      } else {
        StartStays(s, s', s.starts[y]);
      }
    }
  }

  predicate Publishes(step: Step) { step.PublishExec? || step.PublishInit? || step.EarlyInit? }

  lemma LogPublish(s: State, step: Step)
    requires LogInv(s) && Enabled(s, step) && Publishes(step)
    ensures LogInv(Apply(s, step))
  {
  }

  ghost predicate SamePublished(s: State, s': State) {
    && s'.log == s.log && (forall c :: PhaseOf(s'.inits, c).Published? == PhaseOf(s.inits, c).Published?)
    && (forall y :: y in s.starts ==> y in s'.starts && s'.starts[y].published == s.starts[y].published)
    && forall y :: y in s'.starts && y !in s.starts ==> !s'.starts[y].published
  }

  lemma OtherPublished(s: State, step: Step)
    requires Enabled(s, step) && !Publishes(step)
    ensures SamePublished(s, Apply(s, step))
  {
  }

  lemma LogSame(s: State, s': State)
    requires LogInv(s) && SamePublished(s, s')
    ensures LogInv(s')
  {
  }

  lemma LogStep(s: State, step: Step)
    requires LogInv(s) && Enabled(s, step)
    ensures LogInv(Apply(s, step))
  {
    if Publishes(step) {
      LogPublish(s, step);
    } else {
      OtherPublished(s, step);
      LogSame(s, Apply(s, step));
    }
  }

  lemma OnceStep(s: State, step: Step)
    requires LogInv(s) && OnceInv(s) && Enabled(s, step)
    ensures OnceInv(Apply(s, step))
  {
    assert step.PublishExec? ==> ExecExit(step.y) !in s.log;
    assert step.PublishInit? || step.EarlyInit? ==> InitExit(step.c) !in s.log;
  }

  lemma StashStep(s: State, step: Step)
    requires StashInv(s) && Enabled(s, step)
    ensures StashInv(Apply(s, step))
  {
  }

  lemma WaiterCounted(s: State, c: nat, y: nat, st: Start)
    requires WaiterInv(s)
    ensures WaiterInv(Counted(s, c, y, st))
  {
  }

  /** An init that is not waiting, or is woken, moves on. */
  lemma WaiterMoves(s: State, s': State, c: nat, phase: InitPhase)
    requires WaiterInv(s) && !phase.WaitingOn?
    requires PhaseOf(s.inits, c).WaitingOn? ==> PhaseOf(s.inits, c).channel in s.closed
    requires s'.inits == s.inits[c := phase] && s'.containers == s.containers
    requires s'.nextChannel == s.nextChannel && s'.closed == s.closed
    ensures WaiterInv(s')
  {
  }

  lemma WaiterInit(s: State, step: Step)
    requires WaiterInv(s) && Enabled(s, step) && (step.Wake? || step.PublishInit? || step.EarlyInit?)
    ensures WaiterInv(Apply(s, step))
  {
    WaiterMoves(s, Apply(s, step), step.c, if step.Wake? then MayPublish else Published);
  }

  lemma WaiterStash(s: State, c: nat, e: Exit)
    requires WaiterInv(s) && Enabled(s, InitExits(c, e))
    ensures WaiterInv(Apply(s, InitExits(c, e)))
  {
  }

  lemma WaiterDecide(s: State, c: nat)
    requires WaiterInv(s) && Enabled(s, Decide(c))
    ensures WaiterInv(Apply(s, Decide(c)))
  {
  }

  /** Steps that leave inits, channels and waiters alone. */
  predicate SameWaiters(s: State, s': State) {
    && s'.inits == s.inits && s'.nextChannel == s.nextChannel && s'.closed == s.closed
    && (forall c :: c in s.containers ==> c in s'.containers)
    && forall c :: c in s'.containers ==> s'.containers[c].execWaiter == StateOf(s.containers, c).execWaiter
  }

  lemma WaiterSame(s: State, s': State)
    requires WaiterInv(s) && SameWaiters(s, s')
    ensures WaiterInv(s')
  {
  }

  predicate OnInit(step: Step) {
    step.InitExits? || step.EarlyInit? || step.Decide? || step.Wake? || step.PublishInit?
  }

  lemma OtherWaiters(s: State, step: Step)
    requires Enabled(s, step) && !OnInit(step) && !step.FailStart? && !step.CountDown?
    ensures SameWaiters(s, Apply(s, step))
  {
  }

  lemma WaiterStep(s: State, step: Step)
    requires WaiterInv(s) && Enabled(s, step)
    ensures WaiterInv(Apply(s, step))
  {
    if step.FailStart? || step.CountDown? {
      WaiterCounted(s, s.starts[step.y].container, step.y, Apply(s, step).starts[step.y]);
    } else if step.Decide? {
      WaiterDecide(s, step.c);
    } else if step.InitExits? {
      WaiterStash(s, step.c, step.e);
    } else if OnInit(step) {
      WaiterInit(s, step);
    } else {
      OtherWaiters(s, step);
      WaiterSame(s, Apply(s, step));
    }
  }

  lemma InvStep(s: State, step: Step)
    requires Inv(s) && Enabled(s, step)
    ensures Inv(Apply(s, step))
  {
    CountStep(s, step);
    StartStep(s, step);
    LogStep(s, step);
    OnceStep(s, step);
    StashStep(s, step);
    WaiterStep(s, step);
  }

  lemma {:induction false} InvFrom(s: State, trace: seq<State>, steps: seq<Step>, i: nat)
    requires Inv(s) && Continues(s, trace, steps) && i < |trace|
    ensures Inv(trace[i])
  {
    if i > 0 {
      InvFrom(s, trace, steps, i - 1);
      InvStep(trace[i - 1], steps[i - 1]);
    }
  }

  lemma InitialInv()
    ensures Inv(INITIAL)
  {
    assert forall c, p :: Those(INITIAL.starts, c, p) == {};
  }

  lemma RunInv(trace: seq<State>, steps: seq<Step>, i: nat)
    requires Execution(trace, steps) && i < |trace|
    ensures Inv(trace[i])
  {
    InitialInv();
    InvFrom(INITIAL, trace, steps, i);
  }

  // ----- the counter and the waiter

  lemma SizeOfDifference(a: set<nat>, b: set<nat>)
    ensures |a| - |b| == |a - b| - |b - a|
  {
    assert a == (a - b) + (a * b) && b == (b - a) + (a * b);
  }

  lemma CounterIs(s: State, c: nat)
    requires CountInv(s)
    ensures Counter(s, c) == |Outstanding(s.starts, c)| - Strays(s.starts, c)
  {
    SizeOfDifference(Ups(s.starts, c), Tooks(s.starts, c));
  }

  /** In every run the counter is the starts counted up and not down, less the
      count-downs without a count-up. */
  lemma CounterAccounts(trace: seq<State>, steps: seq<Step>, i: nat, c: nat)
    requires Execution(trace, steps) && i < |trace|
    ensures var s := trace[i];
            && Counter(s, c) == |Outstanding(s.starts, c)| - Strays(s.starts, c)
            && (MustDelay(s.containers, c) <==> |Outstanding(s.starts, c)| != Strays(s.starts, c))
  {
    RunInv(trace, steps, i);
    CounterIs(trace[i], c);
  }

  /** The start a step counts down, if it does. */
  predicate CountsDown(s: State, step: Step, c: nat) {
    (step.CountDown? || step.FailStart?) && step.y in s.starts && s.starts[step.y].container == c
  }

  lemma CloseStep(s: State, step: Step, c: nat)
    requires WaiterInv(s) && Enabled(s, step) && CountsDown(s, step, c) && Apply(s, step).closed != s.closed
    ensures Closes(s.containers, c).Some? && Closes(s.containers, c).value !in s.closed
    ensures var t := Apply(s, step);
            && t.closed == s.closed + {Closes(s.containers, c).value}
            && StateOf(t.containers, c).execWaiter == None && Counter(t, c) <= 0
  {
  }

  /** A count-down that closes the waiter finds it open and leaves the counter at zero
      or below; with every count-down paired it leaves nothing outstanding. */
  lemma WaiterClosedOnceAtZero(trace: seq<State>, steps: seq<Step>, i: nat, c: nat)
    requires Execution(trace, steps) && i < |steps|
    requires CountsDown(trace[i], steps[i], c) && trace[i + 1].closed != trace[i].closed
    ensures Closes(trace[i].containers, c).Some?
    ensures var ch := Closes(trace[i].containers, c).value;
            ch !in trace[i].closed && trace[i + 1].closed == trace[i].closed + {ch}
    ensures StateOf(trace[i + 1].containers, c).execWaiter == None && Counter(trace[i + 1], c) <= 0
    ensures Strays(trace[i + 1].starts, c) == 0 ==>
              Counter(trace[i + 1], c) == 0 && Outstanding(trace[i + 1].starts, c) == {}
  {
    RunInv(trace, steps, i);
    CloseStep(trace[i], steps[i], c);
    CounterAccounts(trace, steps, i + 1, c);
  }

  // ----- the init exit last

  predicate OnTheRun(life: Life) { life == Running || life == Reported }

  /** The exec exists in the container and its exit is not yet taken from the registry. */
  predicate Runs(s: State, x: nat, c: nat) {
    x in s.execs && s.execs[x].container == c && OnTheRun(s.execs[x].life)
  }

  /** The exec has no PID and may still get one; an exec that does not exist may still be
      created while the init is not set exited. */
  predicate MayRun(s: State, x: nat, c: nat) {
    if x in s.execs then s.execs[x].container == c && s.execs[x].life == Idle && !s.execs[x].removed
    else PhaseOf(s.inits, c) != Published
  }

  /** A start can still come to publish an exit, given that its exec runs, or may still run. */
  predicate Ripens(st: Start, runs: bool, mayRun: bool) {
    !st.published &&
    match st.stage
    case Admitted => runs || mayRun
    case Subscribed => st.seen || runs || mayRun
    case Spawned => st.seen || runs
    case Failed => st.seen || runs
    case Gap => runs
    case Listed => st.taken || runs
    case Up => st.taken || runs
    case Caught => true
    case Over => false
  }

  predicate CanPublish(s: State, st: Start) {
    Ripens(st, Runs(s, st.exec, st.container), MayRun(s, st.exec, st.container))
  }

  /** The starts of a container that have an exit still to publish. */
  ghost function Pending(s: State, c: nat): set<nat> {
    set y | y in s.starts && s.starts[y].container == c && CanPublish(s, s.starts[y])
  }

  /** The pending ones the counter does not know. */
  ghost function Uncounted(s: State, c: nat): set<nat> {
    set y | y in s.starts && s.starts[y].container == c && CanPublish(s, s.starts[y]) && s.starts[y].stage != Up
  }

  /** The container's execs a further start could still make publish. */
  ghost function Startable(s: State, c: nat): set<nat> {
    set x | x in s.execs && (Runs(s, x, c) || MayRun(s, x, c))
  }

  predicate ExecOf(starts: map<nat, Start>, ev: Event, c: nat) {
    ev.ExecExit? && ev.y in starts && starts[ev.y].container == c
  }

  /** No exec exit of the container follows its init exit. */
  ghost predicate InOrder(s: State, c: nat) {
    forall n, m :: 0 <= n < m < |s.log| && s.log[n] == InitExit(c) ==> !ExecOf(s.starts, s.log[m], c)
  }

  ghost predicate Reaches(s: State, t: State) {
    exists trace, steps :: Continues(s, trace, steps) && trace[|steps|] == t
  }

  ghost predicate Reachable(s: State) { Reaches(INITIAL, s) }

  /** The order holds now and in everything that can still happen. */
  ghost predicate SurelyLast(s: State, c: nat) { forall t :: Reaches(s, t) ==> InOrder(t, c) }

  lemma ReachesItself(s: State)
    ensures Reaches(s, s)
  {
    var steps: seq<Step> := [];
    assert Continues(s, [s], steps);
  }

  lemma ReachesNext(s: State, t: State, step: Step)
    requires Reaches(s, t) && Enabled(t, step)
    ensures Reaches(s, Apply(t, step))
  {
    var trace, steps :| Continues(s, trace, steps) && trace[|steps|] == t;
    var t' := Apply(t, step);
    assert Continues(s, trace + [t'], steps + [step]);
    assert (trace + [t'])[|steps + [step]|] == t';
  }

  lemma ReachableInv(s: State)
    requires Reachable(s)
    ensures Inv(s)
  {
    var trace, steps :| Continues(INITIAL, trace, steps) && trace[|steps|] == s;
    RunInv(trace, steps, |steps|);
  }

  /** No start is admitted any more that could publish. */
  ghost predicate Shut(s: State, c: nat) {
    InitHasExited(s.containers, c) || (PhaseOf(s.inits, c) == Published && Startable(s, c) == {})
  }

  ghost predicate Quiet(s: State, c: nat) { Shut(s, c) && Pending(s, c) == {} && InOrder(s, c) }

  lemma AppendKeepsOrder(s: State, s': State, ev: Event, c: nat)
    requires InOrder(s, c) && s'.log == s.log + [ev] && !ExecOf(s'.starts, ev, c)
    requires forall e :: e in s.log && ExecOf(s'.starts, e, c) ==> ExecOf(s.starts, e, c)
    ensures InOrder(s', c)
  {
  }

  lemma SameLogKeepsOrder(s: State, s': State, c: nat)
    requires InOrder(s, c) && s'.log == s.log
    requires forall e :: e in s.log && ExecOf(s'.starts, e, c) ==> ExecOf(s.starts, e, c)
    ensures InOrder(s', c)
  {
  }

  lemma NoNewExecOf(s: State, step: Step, c: nat)
    requires LogInv(s) && Enabled(s, step)
    ensures forall e :: e in s.log && ExecOf(Apply(s, step).starts, e, c) ==> ExecOf(s.starts, e, c)
  {
  }

  lemma OrderStep(s: State, step: Step, c: nat)
    requires LogInv(s) && Enabled(s, step) && InOrder(s, c)
    requires step.PublishExec? ==> s.starts[step.y].container != c
    ensures InOrder(Apply(s, step), c)
  {
    var s' := Apply(s, step);
    NoNewExecOf(s, step, c);
    match step
    case PublishExec(y) => AppendKeepsOrder(s, s', ExecExit(y), c);
    case EarlyInit(d) => AppendKeepsOrder(s, s', InitExit(d), c);
    case PublishInit(d) => AppendKeepsOrder(s, s', InitExit(d), c);
    case _ => SameLogKeepsOrder(s, s', c);
  }

  /** A step gives no exec of c new life, except a creation before the init is set exited
      and the spawn of one that may run. */
  lemma LivesStep(s: State, step: Step, x: nat, c: nat)
    requires Enabled(s, step)
    ensures var s' := Apply(s, step);
            && (Runs(s', x, c) ==> Runs(s, x, c) || MayRun(s, x, c))
            && (MayRun(s', x, c) ==> MayRun(s, x, c))
            && (Runs(s', x, c) && !Runs(s, x, c) ==>
                  step.Spawn? && s.starts[step.y].exec == x && s.starts[step.y].container == c)
  {
  }

  /** A start that cannot publish does not come to by its own steps. */
  lemma OwnStep(s: State, step: Step)
    requires StartInv(s) && Enabled(s, step) && OnStart(step) && !step.Admit? && !CanPublish(s, s.starts[step.y])
    ensures var st := Apply(s, step).starts[step.y];
            && st.exec == s.starts[step.y].exec && st.container == s.starts[step.y].container
            && !Ripens(st, Runs(s, st.exec, st.container), MayRun(s, st.exec, st.container))
  {
    assert StartOk(s, s.starts[step.y]);
  }

  /** Nor by the reaper's. */
  lemma ReaperStep(s: State, step: Step, y: nat)
    requires StartInv(s) && Enabled(s, step)
    requires (step.Report? || step.Reap?) && y in s.starts && !CanPublish(s, s.starts[y])
    ensures Apply(s, step).starts[y].exec == s.starts[y].exec
    ensures Apply(s, step).starts[y].container == s.starts[y].container
    ensures !CanPublish(Apply(s, step), Apply(s, step).starts[y])
  {
    assert StartOk(s, s.starts[y]);
  }

  lemma LivesQuiet(s: State, step: Step, x: nat, c: nat)
    requires StartInv(s) && Enabled(s, step) && Pending(s, c) == {}
    ensures Runs(Apply(s, step), x, c) ==> Runs(s, x, c)
    ensures MayRun(Apply(s, step), x, c) ==> MayRun(s, x, c)
  {
    LivesStep(s, step, x, c);
    forall z | Enabled(s, Spawn(z)) && s.starts[z].container == c
      ensures z in Pending(s, c)
    {
      assert StartOk(s, s.starts[z]);
    }
  }

  lemma FreshStart(s: State, step: Step, c: nat)
    requires Enabled(s, step) && step.Admit? && step.c == c && Shut(s, c)
    ensures !CanPublish(Apply(s, step), Apply(s, step).starts[step.y])
  {
    assert step.x in s.execs ==> step.x !in Startable(s, c);
  }

  lemma UntouchedStart(s: State, step: Step, y: nat)
    requires Enabled(s, step) && !step.Report? && !step.Reap? && (OnStart(step) ==> y != step.y)
    requires y in Apply(s, step).starts
    ensures y in s.starts && Apply(s, step).starts[y] == s.starts[y]
  {
  }

  lemma OwnStepQuiet(s: State, step: Step, c: nat)
    requires StartInv(s) && Enabled(s, step) && OnStart(step) && Shut(s, c) && Pending(s, c) == {}
    requires Apply(s, step).starts[step.y].container == c
    ensures !CanPublish(Apply(s, step), Apply(s, step).starts[step.y])
  {
    if step.Admit? {
      FreshStart(s, step, c);
    } else {
      assert step.y !in Pending(s, c);
      OwnStep(s, step);
      LivesQuiet(s, step, s.starts[step.y].exec, c);
    }
  }

  /** With nothing pending and nothing admitted, no start becomes one that can publish. */
  lemma NothingNew(s: State, step: Step, c: nat, y: nat)
    requires StartInv(s) && Enabled(s, step) && Shut(s, c) && Pending(s, c) == {}
    requires y in Apply(s, step).starts && Apply(s, step).starts[y].container == c
    ensures !CanPublish(Apply(s, step), Apply(s, step).starts[y])
  {
    if OnStart(step) && y == step.y {
      OwnStepQuiet(s, step, c);
    } else if step.Report? || step.Reap? {
      assert y !in Pending(s, c);
      ReaperStep(s, step, y);
    } else {
      UntouchedStart(s, step, y);
      assert y !in Pending(s, c);
      LivesQuiet(s, step, s.starts[y].exec, c);
    }
  }

  lemma ShutStays(s: State, step: Step, c: nat)
    requires Enabled(s, step) && Shut(s, c) && Pending(s, c) == {}
    ensures Shut(Apply(s, step), c)
  {
    if !InitHasExited(s.containers, c) {
      forall x | x in Startable(Apply(s, step), c)
        ensures x in Startable(s, c)
      {
        LivesStep(s, step, x, c);
      }
    }
  }

  lemma QuietOrder(s: State, step: Step, c: nat)
    requires StartInv(s) && LogInv(s) && Enabled(s, step) && Quiet(s, c)
    ensures InOrder(Apply(s, step), c)
  {
    forall y | Enabled(s, PublishExec(y)) && s.starts[y].container == c
      ensures y in Pending(s, c)
    {
      assert StartOk(s, s.starts[y]);
    }
    OrderStep(s, step, c);
  }

  lemma QuietStep(s: State, step: Step, c: nat)
    requires Inv(s) && Enabled(s, step) && Quiet(s, c)
    ensures Quiet(Apply(s, step), c)
  {
    QuietOrder(s, step, c);
    ShutStays(s, step, c);
    forall y | y in Pending(Apply(s, step), c)
      ensures false
    {
      NothingNew(s, step, c, y);
    }
  }

  lemma {:induction false} QuietStays(s: State, trace: seq<State>, steps: seq<Step>, c: nat, i: nat)
    requires Inv(s) && Quiet(s, c) && Continues(s, trace, steps) && i < |trace|
    ensures Quiet(trace[i], c)
  {
    if i > 0 {
      QuietStays(s, trace, steps, c, i - 1);
      InvFrom(s, trace, steps, i - 1);
      QuietStep(trace[i - 1], steps[i - 1], c);
    }
  }

  lemma QuietIsSure(s: State, c: nat)
    requires Inv(s) && Quiet(s, c)
    ensures SurelyLast(s, c)
  {
    forall t | Reaches(s, t)
      ensures InOrder(t, c)
    {
      var trace, steps :| Continues(s, trace, steps) && trace[|steps|] == t;
      QuietStays(s, trace, steps, c, |steps|);
    }
  }

  // ----- a pending start can still publish

  /** What brings a pending start of an existing exec nearer to its publication. */
  function Nearer(s: State, y: nat): Step
    requires y in s.starts && s.starts[y].exec in s.execs
  {
    var st := s.starts[y];
    var x := st.exec;
    var life := s.execs[x].life;
    match st.stage
    case Admitted => Subscribe(y)
    case Subscribed => if life == Idle then Spawn(y) else if life == Running then Report(x) else FailStart(y, true)
    case Spawned => if st.seen then Catch(y) else if life == Running then Report(x) else Complete(y)
    case Failed => if st.seen then Catch(y) else if life == Running then Report(x) else Complete(y)
    case Gap => List(y)
    case _ => if st.stage == Caught || st.taken then PublishExec(y) else if life == Running then Report(x) else Reap(x)
  }

  function StageRank(stage: Stage): nat {
    match stage
    case Admitted => 6
    case Subscribed => 5
    case Spawned => 4
    case Failed => 4
    case Gap => 3
    case Listed => 2
    case Up => 2
    case Caught => 1
    case Over => 0
  }

  function LifeRank(life: Life): nat {
    match life
    case Idle => 3
    case Running => 2
    case Reported => 1
    case Reaped => 0
  }

  function Rank(s: State, y: nat): nat
    requires y in s.starts && s.starts[y].exec in s.execs
  {
    4 * StageRank(s.starts[y].stage) + LifeRank(s.execs[s.starts[y].exec].life)
  }

  /** The step is nearer the publication of y, and touches no init. */
  predicate Brings(s: State, step: Step, t: State, y: nat)
    requires y in s.starts && s.starts[y].exec in s.execs
  {
    && y in t.starts && t.starts[y].exec == s.starts[y].exec && t.starts[y].container == s.starts[y].container
    && t.starts[y].exec in t.execs && t.inits == s.inits
    && (if step == PublishExec(y) then t.log == s.log + [ExecExit(y)]
        else CanPublish(t, t.starts[y]) && Rank(t, y) < Rank(s, y) && t.log == s.log)
  }

  lemma NearerEarly(s: State, y: nat)
    requires StartInv(s) && y in s.starts && s.starts[y].exec in s.execs && CanPublish(s, s.starts[y])
    requires s.starts[y].stage == Admitted || s.starts[y].stage == Subscribed
    ensures Enabled(s, Nearer(s, y)) && Brings(s, Nearer(s, y), Apply(s, Nearer(s, y)), y)
  {
    assert StartOk(s, s.starts[y]);
  }

  lemma NearerMiddle(s: State, y: nat)
    requires StartInv(s) && y in s.starts && s.starts[y].exec in s.execs && CanPublish(s, s.starts[y])
    requires s.starts[y].stage == Spawned || s.starts[y].stage == Failed
    ensures Enabled(s, Nearer(s, y)) && Brings(s, Nearer(s, y), Apply(s, Nearer(s, y)), y)
  {
    assert StartOk(s, s.starts[y]);
  }

  lemma NearerLate(s: State, y: nat)
    requires StartInv(s) && y in s.starts && s.starts[y].exec in s.execs && CanPublish(s, s.starts[y])
    requires InRegistry(s.starts[y]) || s.starts[y].stage == Caught
    ensures Enabled(s, Nearer(s, y)) && Brings(s, Nearer(s, y), Apply(s, Nearer(s, y)), y)
  {
    assert StartOk(s, s.starts[y]);
  }

  lemma NearerGap(s: State, y: nat)
    requires y in s.starts && s.starts[y].exec in s.execs && CanPublish(s, s.starts[y]) && s.starts[y].stage == Gap
    ensures Enabled(s, Nearer(s, y)) && Brings(s, Nearer(s, y), Apply(s, Nearer(s, y)), y)
  {
  }

  lemma NearerStep(s: State, y: nat)
    requires StartInv(s) && y in s.starts && s.starts[y].exec in s.execs && CanPublish(s, s.starts[y])
    ensures Enabled(s, Nearer(s, y)) && Brings(s, Nearer(s, y), Apply(s, Nearer(s, y)), y)
  {
    match s.starts[y].stage
    case Admitted => NearerEarly(s, y);
    case Subscribed => NearerEarly(s, y);
    case Spawned => NearerMiddle(s, y);
    case Failed => NearerMiddle(s, y);
    case Gap => NearerGap(s, y);
    case _ => NearerLate(s, y);
  }

  lemma {:induction false} ComesToPublish(s0: State, s: State, y: nat) returns (t: State)
    requires Reaches(s0, s) && Inv(s)
    requires y in s.starts && s.starts[y].exec in s.execs && CanPublish(s, s.starts[y])
    ensures Reaches(s0, t) && t.log == s.log + [ExecExit(y)] && y in t.starts
    ensures t.starts[y].container == s.starts[y].container
    decreases Rank(s, y)
  {
    NearerStep(s, y);
    var step := Nearer(s, y);
    ReachesNext(s0, s, step);
    InvStep(s, step);
    t := Apply(s, step);
    if step != PublishExec(y) {
      t := ComesToPublish(s0, t, y);
    }
  }

  /** A pending start can publish after an init exit already published. */
  lemma PendingCanFollow(s: State, t: State, c: nat, y: nat)
    requires Reaches(s, t) && Inv(t) && PhaseOf(t.inits, c) == Published && y in Pending(t, c)
    ensures !SurelyLast(s, c)
  {
    assert StartOk(t, t.starts[y]);
    var u := ComesToPublish(s, t, y);
    assert InitExit(c) in t.log;
    var n :| 0 <= n < |t.log| && t.log[n] == InitExit(c);
    assert u.log[n] == InitExit(c) && ExecOf(u.starts, u.log[|t.log|], c);
  }

  predicate LetThrough(s: State, c: nat) {
    PhaseOf(s.inits, c).MayPublish? || (PhaseOf(s.inits, c).WaitingOn? && PhaseOf(s.inits, c).channel in s.closed)
  }

  lemma InitStepKeepsPending(s: State, step: Step, c: nat, y: nat)
    requires Enabled(s, step)
    requires (step == Wake(c) || step == PublishInit(c)) && y in Pending(s, c) && s.starts[y].exec in s.execs
    ensures y in Pending(Apply(s, step), c)
  {
  }

  /** From a state that lets it through, the init exit can be published before a pending
      start publishes. */
  lemma LetThroughCanFollow(s0: State, s: State, c: nat, y: nat)
    requires Reaches(s0, s) && Inv(s) && LetThrough(s, c) && y in Pending(s, c) && s.starts[y].exec in s.execs
    ensures !SurelyLast(s0, c)
    decreases PhaseOf(s.inits, c).WaitingOn?
  {
    var step := if PhaseOf(s.inits, c).WaitingOn? then Wake(c) else PublishInit(c);
    ReachesNext(s0, s, step);
    InvStep(s, step);
    InitStepKeepsPending(s, step, c, y);
    var t := Apply(s, step);
    if step.Wake? {
      LetThroughCanFollow(s0, t, c, y);
    } else {
      PendingCanFollow(s0, t, c, y);
    }
  }

  /** Once let through, the init exit is certain to be the last exactly when no start
      admitted has an exit still to publish. */
  lemma SurelyLastIff(s: State, c: nat)
    requires Reachable(s) && LetThrough(s, c)
    ensures SurelyLast(s, c) <==> Pending(s, c) == {}
  {
    ReachableInv(s);
    assert InOrder(s, c) by {
      assert InitExit(c) !in s.log;
    }
    if Pending(s, c) == {} {
      QuietIsSure(s, c);
    } else {
      var y: nat :| y in Pending(s, c);
      ReachesItself(s);
      var x := s.starts[y].exec;
      if x in s.execs {
        LetThroughCanFollow(s, s, c, y);
      } else {
        assert StartOk(s, s.starts[y]);
        ReachesNext(s, s, Create(x, c));
        InvStep(s, Create(x, c));
        LetThroughCanFollow(s, Apply(s, Create(x, c)), c, y);
      }
    }
  }

  lemma {:induction false} Bound(keys: set<nat>) returns (b: nat)
    ensures forall k :: k in keys ==> k < b
    decreases keys
  {
    if keys == {} {
      b := 0;
    } else {
      var k: nat :| k in keys;
      var b' := Bound(keys - {k});
      assert forall j :: j in keys ==> j == k || j in keys - {k};
      b := if k < b' then b' else k + 1;
    }
  }

  /** An exec that could still run is started anew after the init exit. */
  lemma StartableCanFollow(t: State, c: nat, x: nat)
    requires Inv(t) && PhaseOf(t.inits, c) == Published && !InitHasExited(t.containers, c) && x in Startable(t, c)
    ensures !SurelyLast(t, c)
  {
    ReachesItself(t);
    var y := Bound(t.starts.Keys);
    assert y !in t.starts;
    ReachesNext(t, t, Admit(y, x, c));
    InvStep(t, Admit(y, x, c));
    PendingCanFollow(t, Apply(t, Admit(y, x, c)), c, y);
  }

  /** An init exit published from its start window is not stashed, so starts are still
      admitted. It is certain to be the last exactly when no start has an exit still to
      publish and every exec created has been reaped or was deleted before it ran. */
  lemma EarlyInitIsLastIff(s: State, c: nat)
    requires Reachable(s) && Enabled(s, EarlyInit(c))
    ensures var t := Apply(s, EarlyInit(c)); SurelyLast(t, c) <==> Pending(t, c) == {} && Startable(t, c) == {}
  {
    ReachableInv(s);
    var t := Apply(s, EarlyInit(c));
    InvStep(s, EarlyInit(c));
    assert InOrder(t, c) by {
      assert InitExit(c) !in s.log;
    }
    assert !InitHasExited(t.containers, c);
    if Pending(t, c) != {} {
      var y: nat :| y in Pending(t, c);
      ReachesItself(t);
      PendingCanFollow(t, t, c, y);
    } else if Startable(t, c) != {} {
      var x: nat :| x in Startable(t, c);
      StartableCanFollow(t, c, x);
    } else {
      QuietIsSure(t, c);
    }
  }

  // ----- what the counter's word is worth

  /** The step by which the coordinator lets the init exit of c through: a decision
      without delay, or the count-down that closes its waiter. */
  predicate Lets(s: State, step: Step, c: nat) {
    (step == Decide(c) && PhaseOf(s.inits, c) == Stashed && !MustDelay(s.containers, c))
    || (CountsDown(s, step, c) && Closes(s.containers, c).Some?)
  }

  lemma DecideLets(s: State, c: nat)
    requires WaiterInv(s) && Lets(s, Decide(c), c)
    ensures var t := Apply(s, Decide(c)); LetThrough(t, c) && Counter(t, c) == 0
  {
  }

  lemma CloseLets(s: State, step: Step, c: nat)
    requires WaiterInv(s) && Enabled(s, step) && CountsDown(s, step, c) && Closes(s.containers, c).Some?
    ensures var t := Apply(s, step); LetThrough(t, c) && Counter(t, c) <= 0
  {
  }

  /** Without stray count-downs a counter at zero or below knows of no pending start. */
  lemma PairedLeavesUncounted(s: State, c: nat)
    requires Inv(s) && Strays(s.starts, c) == 0 && Counter(s, c) <= 0
    ensures Pending(s, c) == Uncounted(s, c)
  {
    CounterIs(s, c);
    assert Outstanding(s.starts, c) == {};
    forall y | y in Pending(s, c)
      ensures y in Uncounted(s, c)
    {
      assert StartOk(s, s.starts[y]);
      assert y !in Outstanding(s.starts, c);
    }
  }

  /** On either path the counter is then zero or below, nothing counted up is
      outstanding exactly when the stray count-downs are all that the counter shows,
      and with none of them only starts the counter does not know are pending. */
  lemma LetThroughMeans(trace: seq<State>, steps: seq<Step>, i: nat, c: nat)
    requires Execution(trace, steps) && i < |steps| && Lets(trace[i], steps[i], c)
    ensures var s := trace[i + 1];
            && LetThrough(s, c) && Counter(s, c) <= 0
            && (Outstanding(s.starts, c) == {} <==> Counter(s, c) == 0 - Strays(s.starts, c))
            && (Strays(s.starts, c) == 0 ==> Pending(s, c) == Uncounted(s, c))
  {
    RunInv(trace, steps, i);
    RunInv(trace, steps, i + 1);
    if steps[i] == Decide(c) {
      DecideLets(trace[i], c);
    } else {
      CloseLets(trace[i], steps[i], c);
    }
    CounterIs(trace[i + 1], c);
    if Strays(trace[i + 1].starts, c) == 0 {
      PairedLeavesUncounted(trace[i + 1], c);
    }
  }

  lemma ReachedInRun(trace: seq<State>, steps: seq<Step>, i: nat, j: nat)
    requires Execution(trace, steps) && i <= j < |trace|
    ensures Reachable(trace[i]) && Reaches(trace[i], trace[j])
  {
    assert Continues(INITIAL, trace[..i + 1], steps[..i]);
    assert Continues(trace[i], trace[i..j + 1], steps[i..j]);
  }

  /** With every count-down paired when the init exit is let through, it is certain to be
      the last exactly when no start that can still publish is then short of its count-up. */
  lemma InitExitIsLastIff(trace: seq<State>, steps: seq<Step>, i: nat, c: nat)
    requires Execution(trace, steps) && i < |steps| && Lets(trace[i], steps[i], c)
    requires Strays(trace[i + 1].starts, c) == 0
    ensures SurelyLast(trace[i + 1], c) <==> Uncounted(trace[i + 1], c) == {}
    ensures Uncounted(trace[i + 1], c) == {} ==> forall j :: i < j < |trace| ==> InOrder(trace[j], c)
  {
    LetThroughMeans(trace, steps, i, c);
    ReachedInRun(trace, steps, i + 1, i + 1);
    SurelyLastIff(trace[i + 1], c);
    if Uncounted(trace[i + 1], c) == {} {
      forall j | i < j < |trace|
        ensures InOrder(trace[j], c)
      {
        ReachedInRun(trace, steps, i + 1, j);
      }
    }
  }

  // ----- one run

  lemma PrefixOfPrefix(a: seq<Event>, b: seq<Event>, c: seq<Event>)
    requires a <= b <= c
    ensures a <= c
  {
  }

  lemma LogStepGrows(s: State, step: Step)
    requires Enabled(s, step)
    ensures s.log <= Apply(s, step).log
  {
  }

  lemma {:induction false} LogGrows(trace: seq<State>, steps: seq<Step>, i: nat, j: nat)
    requires Execution(trace, steps) && i <= j < |trace|
    ensures trace[i].log <= trace[j].log
  {
    if i < j {
      LogGrows(trace, steps, i, j - 1);
      LogStepGrows(trace[j - 1], steps[j - 1]);
      PrefixOfPrefix(trace[i].log, trace[j - 1].log, trace[j].log);
    }
  }

  lemma InIsAt(log: seq<Event>, ev: Event) returns (n: nat)
    requires ev in log
    ensures n < |log| && log[n] == ev
  {
    n :| 0 <= n < |log| && log[n] == ev;
  }

  predicate HasPublished(s: State, y: nat, c: nat) {
    y in s.starts && s.starts[y].container == c && s.starts[y].published
  }

  /** In every run: whichever way the init exit is published, no exec exit of the
      container follows it exactly when every start that had published by the end had
      published before. */
  lemma InOrderIff(trace: seq<State>, steps: seq<Step>, p: nat, j: nat, c: nat)
    requires Execution(trace, steps) && p < j < |trace| && (steps[p] == PublishInit(c) || steps[p] == EarlyInit(c))
    ensures InOrder(trace[j], c)
            <==> forall y :: HasPublished(trace[j], y, c) ==> y in trace[p].starts && trace[p].starts[y].published
  {
    RunInv(trace, steps, p);
    RunInv(trace, steps, j);
    LogGrows(trace, steps, p + 1, j);
    var s, t, k := trace[p], trace[j], |trace[p].log|;
    assert t.log[k] == InitExit(c) && t.log[..k] == s.log;
    forall y | HasPublished(t, y, c)
      ensures InOrder(t, c) ==> y in s.starts && s.starts[y].published
    {
      var m := InIsAt(t.log, ExecExit(y));
      assert m < k ==> s.log[m] == ExecExit(y);
      assert ExecOf(t.starts, t.log[m], c);
    }
    forall n, m | 0 <= n < m < |t.log| && t.log[n] == InitExit(c) && ExecOf(t.starts, t.log[m], c)
      ensures ExecExit(t.log[m].y) !in s.log && HasPublished(t, t.log[m].y, c)
    {
      assert n == k;
      assert forall l :: 0 <= l < k ==> s.log[l] == t.log[l];
      assert t.log[m] in t.log;
    }
  }
}
