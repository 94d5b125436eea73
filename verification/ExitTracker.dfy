/** Tracking of process exits in the guest: the windows that catch exits arriving
    before a start completes, the registry of running processes, and the
    coordinator that holds an init exit back until the execs are done. */
module ExitTracker {

  import opened Wrappers

  datatype Exit = Exit(pid: nat, status: int)

  /** A process of a container; `id` tells processes apart whatever their PIDs. */
  datatype Process = Process(id: nat, container: nat, init: bool)

  /** What one subscription has collected: exits by PID. */
  type Window = map<nat, seq<Exit>>

  type Registry = map<nat, seq<Process>>

  /** Per-container coordination. Channels are numbered. */
  datatype ExitState = ExitState(runningExecs: int, execWaiter: Option<nat>, initExit: Option<Exit>)

  const NEW_EXIT_STATE := ExitState(0, None, None)

  function ExitsFor(w: Window, pid: nat): seq<Exit> {
    if pid in w then w[pid] else []
  }

  function ProcessesAt(running: Registry, pid: nat): seq<Process> {
    if pid in running then running[pid] else []
  }

  // ----- the critical sections, one function each

  /** Every open window records the exit. */
  function Broadcast(subs: map<nat, Window>, e: Exit): map<nat, Window> {
    map id | id in subs :: subs[id][e.pid := ExitsFor(subs[id], e.pid) + [e]]
  }

  function AddProcess(running: Registry, pid: nat, p: Process): Registry {
    running[pid := ProcessesAt(running, pid) + [p]]
  }

  function Others(ps: seq<Process>, container: nat): seq<Process> {
    if ps == [] then []
    else (if ps[0].container != container then [ps[0]] else []) + Others(ps[1..], container)
  }

  function RemoveByContainer(running: Registry, pid: nat, container: nat): Registry {
    var remaining := Others(ProcessesAt(running, pid), container);
    if remaining == [] then running - {pid} else running[pid := remaining]
  }

  function ForgetContainer(running: Registry, container: nat): Registry {
    map pid | pid in running && Others(running[pid], container) != [] :: Others(running[pid], container)
  }

  function StateOf(containers: map<nat, ExitState>, c: nat): ExitState {
    if c in containers then containers[c] else NEW_EXIT_STATE
  }

  function IncrementExecs(containers: map<nat, ExitState>, c: nat): map<nat, ExitState> {
    var st := StateOf(containers, c);
    containers[c := st.(runningExecs := st.runningExecs + 1)]
  }

  function StashInitExit(containers: map<nat, ExitState>, c: nat, e: Exit): map<nat, ExitState> {
    containers[c := StateOf(containers, c).(initExit := Some(e))]
  }

  /** The exit is stashed for the container of every init among the processes. */
  function StashInitExits(containers: map<nat, ExitState>, ps: seq<Process>, e: Exit): map<nat, ExitState> {
    if ps == [] then containers
    else
      var before := StashInitExits(containers, ps[..|ps| - 1], e);
      if ps[|ps| - 1].init then StashInitExit(before, ps[|ps| - 1].container, e) else before
  }

  predicate MustDelay(containers: map<nat, ExitState>, c: nat) {
    c in containers && containers[c].runningExecs != 0
  }

  /** The channel a decrement closes: the waiter's, once no exec is left. */
  function Closes(containers: map<nat, ExitState>, c: nat): Option<nat> {
    if c in containers && containers[c].runningExecs - 1 <= 0 then containers[c].execWaiter else None
  }

  function DecrementExecs(containers: map<nat, ExitState>, c: nat): map<nat, ExitState> {
    if c !in containers then containers
    else
      var st := containers[c].(runningExecs := containers[c].runningExecs - 1);
      containers[c := if st.runningExecs > 0 then st else st.(execWaiter := None)]
  }

  /** Stashing reaches the containers whose init is among the processes, and only those. */
  lemma {:induction false} StashReaches(containers: map<nat, ExitState>, ps: seq<Process>, e: Exit, c: nat)
    ensures var after := StateOf(StashInitExits(containers, ps, e), c);
            after == if exists p :: p in ps && p.init && p.container == c
                     then StateOf(containers, c).(initExit := Some(e)) else StateOf(containers, c)
  {
    if ps != [] {
      var last := |ps| - 1;
      StashReaches(containers, ps[..last], e, c);
      assert ps == ps[..last] + [ps[last]];
      if ps[last].init && ps[last].container == c {
        assert ps[last] in ps;
      }
    }
  }

  lemma {:induction false} OthersFilters(ps: seq<Process>, container: nat)
    ensures forall p :: p in Others(ps, container) <==> p in ps && p.container != container
    ensures forall p :: multiset(Others(ps, container))[p] == if p.container == container then 0 else multiset(ps)[p]
  {
    if ps != [] {
      OthersFilters(ps[1..], container);
      assert ps == [ps[0]] + ps[1..];
    }
  }

  lemma {:induction false} OthersAppend(ps: seq<Process>, p: Process, container: nat)
    ensures Others(ps + [p], container) == Others(ps, container) + if p.container != container then [p] else []
  {
    if ps == [] {
      assert Others([p], container) == (if p.container != container then [p] else []) + Others([], container);
    } else {
      assert (ps + [p])[1..] == ps[1..] + [p];
      OthersAppend(ps[1..], p, container);
    }
  }

  /** The tracker object. Each method is a call of the source run alone. */
  class Tracker {
    var nextSubId: nat
    var subscriptions: map<nat, Window>
    var detached: map<nat, Window>  // windows closed and still in their holders' hands
    var running: Registry
    var containers: map<nat, ExitState>
    var nextChannel: nat
    var closed: set<nat>

    ghost predicate Valid()
      reads this
    {
      && (forall id :: id in subscriptions || id in detached ==> id <= nextSubId)
      && (forall ch :: ch in closed ==> ch < nextChannel)
      && (forall c :: c in containers && containers[c].execWaiter.Some? ==>
            containers[c].execWaiter.value < nextChannel && containers[c].execWaiter.value !in closed)
      && (forall c, d :: c in containers && d in containers && c != d && containers[c].execWaiter.Some? ==>
            containers[c].execWaiter != containers[d].execWaiter)
    }

    constructor ()
      ensures Valid() && subscriptions == map[] && detached == map[] && running == map[] && containers == map[]
      ensures closed == {}
    {
      nextSubId := 0;
      subscriptions, detached := map[], map[];
      running := map[];
      containers := map[];
      nextChannel := 0;
      closed := {};
    }

    /** Keeps the processes of other containers, in order. */
    method FilterOut(ps: seq<Process>, container: nat) returns (remaining: seq<Process>)
      ensures remaining == Others(ps, container)
    {
      remaining := [];
      for i := 0 to |ps|
        invariant remaining == Others(ps[..i], container)
      {
        OthersAppend(ps[..i], ps[i], container);
        assert ps[..i + 1] == ps[..i] + [ps[i]];
        if ps[i].container != container {
          remaining := remaining + [ps[i]];
        }
      }
      assert ps[..|ps|] == ps;
    }

    /** Opens a window with a fresh number. Starting the init of a container that
        already exists takes that init out of the registry. */
    method Subscribe(restarting: Option<(nat, nat)>) returns (sub: nat)
      requires Valid()
      modifies this
      ensures Valid()
      ensures sub !in old(subscriptions) && sub !in old(detached) && subscriptions == old(subscriptions)[sub := map[]]
      ensures running == if restarting.None? then old(running)
                         else RemoveByContainer(old(running), restarting.value.1, restarting.value.0)
      ensures unchanged(`containers, `closed, `nextChannel, `detached)
    {
      nextSubId := nextSubId + 1;
      sub := nextSubId;
      subscriptions := subscriptions[sub := map[]];
      if restarting.Some? {
        var (c, pid) := restarting.value;
        var remaining := FilterOut(ProcessesAt(running, pid), c);
        running := if remaining == [] then running - {pid} else running[pid := remaining];
      }
    }

    /** Broadcasts, takes the processes with this PID out of the registry and
        stashes the exit of every init among them. */
    method NotifyExit(e: Exit) returns (cps: seq<Process>)
      requires Valid()
      modifies this
      ensures Valid()
      ensures cps == ProcessesAt(old(running), e.pid) && running == old(running) - {e.pid}
      ensures subscriptions == Broadcast(old(subscriptions), e)
      ensures containers == StashInitExits(old(containers), cps, e)
      ensures unchanged(`closed, `nextChannel, `nextSubId, `detached)
    {
      subscriptions := Broadcast(subscriptions, e);
      cps := ProcessesAt(running, e.pid);
      running := running - {e.pid};
      for i := 0 to |cps|
        invariant Valid()
        invariant unchanged(`closed, `nextChannel, `nextSubId, `detached)
        invariant subscriptions == Broadcast(old(subscriptions), e) && running == old(running) - {e.pid}
        invariant containers == StashInitExits(old(containers), cps[..i], e)
      {
        assert cps[..i + 1][..i] == cps[..i];
        if cps[i].init {
          containers := StashInitExit(containers, cps[i].container, e);
        }
      }
      assert cps[..|cps|] == cps;
    }

    /** What a subscription has collected, open or not. */
    function Collected(sub: nat): Window
      requires sub in subscriptions || sub in detached
      reads this
    {
      if sub in subscriptions then subscriptions[sub] else detached[sub]
    }

    /** Closes the window if it is still open. Either the window already holds the exit,
        and the caller delivers it, or the process is registered (and counted, for an
        exec). */
    method HandleStart(sub: nat, p: Process, pid: nat) returns (early: seq<Exit>)
      requires Valid() && (sub in subscriptions || sub in detached)
      modifies this
      ensures Valid()
      ensures early == ExitsFor(old(Collected(sub)), pid)
      ensures subscriptions == old(subscriptions) - {sub} && detached == old(detached)[sub := old(Collected(sub))]
      ensures var registered := pid != 0 && early == [];
              && running == (if registered then AddProcess(old(running), pid, p) else old(running))
              && containers == (if registered && !p.init then IncrementExecs(old(containers), p.container)
                                else old(containers))
      ensures unchanged(`closed, `nextChannel, `nextSubId)
    {
      var collected := Collected(sub);
      early := ExitsFor(collected, pid);
      subscriptions, detached := subscriptions - {sub}, detached[sub := collected];
      if pid == 0 || |early| > 0 {
        return;
      }
      running := AddProcess(running, pid, p);
      if !p.init {
        containers := IncrementExecs(containers, p.container);
      }
    }

    method Cancel(sub: nat)
      requires Valid() && (sub in subscriptions || sub in detached)
      modifies `subscriptions, `detached
      ensures Valid() && subscriptions == old(subscriptions) - {sub}
      ensures detached == old(detached)[sub := old(Collected(sub))]
    {
      subscriptions, detached := subscriptions - {sub}, detached[sub := Collected(sub)];
    }

    /** Execs still counted: hand out a fresh channel to wait on. */
    method ShouldDelayInitExit(c: nat) returns (delay: bool, channel: nat)
      requires Valid()
      modifies this
      ensures Valid()
      ensures delay == MustDelay(old(containers), c)
      ensures delay ==> channel !in closed
      ensures delay ==> containers == old(containers)[c := old(containers)[c].(execWaiter := Some(channel))]
      ensures !delay ==> containers == old(containers)
      ensures unchanged(`closed, `running, `subscriptions, `detached, `nextSubId)
    {
      channel := nextChannel;
      delay := MustDelay(containers, c);
      if delay {
        containers := containers[c := containers[c].(execWaiter := Some(channel))];
        nextChannel := nextChannel + 1;
      }
    }

    /** Validity makes the close safe: the channel it closes was open. */
    method NotifyExecExit(c: nat)
      requires Valid()
      modifies this
      ensures Valid()
      ensures containers == DecrementExecs(old(containers), c)
      ensures var ch := Closes(old(containers), c);
              closed == old(closed) + (if ch.Some? then {ch.value} else {}) && (ch.Some? ==> ch.value !in old(closed))
      ensures unchanged(`running, `subscriptions, `detached, `nextSubId, `nextChannel)
    {
      if c !in containers {
        return;
      }
      var st := containers[c].(runningExecs := containers[c].runningExecs - 1);
      if st.runningExecs > 0 {
        containers := containers[c := st];
        return;
      }
      if st.execWaiter.Some? {
        closed := closed + {st.execWaiter.value};
      }
      containers := containers[c := st.(execWaiter := None)];
    }

    method GetInitExit(c: nat) returns (exit: Option<Exit>)
      requires Valid()
      modifies `containers
      ensures Valid()
      ensures exit == StateOf(old(containers), c).initExit
      ensures StateOf(containers, c) == StateOf(old(containers), c).(initExit := None)
      ensures forall d :: d != c ==> StateOf(containers, d) == StateOf(old(containers), d)
      ensures containers.Keys == old(containers).Keys
    {
      exit := StateOf(containers, c).initExit;
      if exit.Some? {
        containers := containers[c := containers[c].(initExit := None)];
      }
    }

    method Cleanup(c: nat)
      requires Valid()
      modifies `containers, `running
      ensures Valid()
      ensures containers == old(containers) - {c}
      ensures running == ForgetContainer(old(running), c)
    {
      containers := containers - {c};
      var todo: set<nat> := running.Keys;
      var kept: Registry := map[];
      while todo != {}
        invariant Valid() && containers == old(containers) - {c}
        invariant todo <= running.Keys && running == old(running)
        invariant forall pid :: pid in kept <==> pid in running && pid !in todo && Others(running[pid], c) != []
        invariant forall pid :: pid in kept ==> kept[pid] == Others(running[pid], c)
        decreases todo
      {
        var pid :| pid in todo;
        var remaining := FilterOut(running[pid], c);
        todo := todo - {pid};
        if remaining != [] {
          kept := kept[pid := remaining];
        }
      }
      running := kept;
    }
  }
}
