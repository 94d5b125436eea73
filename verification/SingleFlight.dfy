/** CNI setup and teardown, one at a time for a container: the first caller works,
    the others wait on its tracker. Every step is one critical section or one
    operation on a tracker. */
module SingleFlight {
  import opened Wrappers

  datatype Kind = Setup | Teardown

  datatype Key = Key(kind: Kind, id: string)

  /** A network configuration or an error, as far as callers can tell them apart. */
  datatype Outcome = Good(result: nat) | Bad(error: nat)

  datatype Reply = Own(outcome: Outcome) | Shared(worker: nat, outcome: Outcome) | Cached(result: nat) | Cancelled

  /** Where a call is. Running is the CNI plugin chain; a call works from there until
      its tracker is gone. */
  datatype Pc = Check | Claim | Waiting(worker: nat) | Running | Storing(result: nat) | Recording(outcome: Outcome)
              | Closing | Removing | Returned(reply: Reply)

  datatype Call = Call(key: Key, pc: Pc)

  /** The key is the one the tracker is stored under. */
  datatype Tracker = Tracker(key: Key, outcome: Option<Outcome>, done: bool)

  /** Trackers are named after the call that made them. `made` are the results of
      setups that succeeded. */
  datatype State = State(calls: map<nat, Call>, inFlight: map<Key, nat>, trackers: map<nat, Tracker>,
                         cache: map<string, nat>, made: set<(string, nat)>)

  datatype Step = Arrive(t: nat, key: Key) | Evict(id: string)
                | LookUp(t: nat) | Enter(t: nat) | Finish(t: nat, outcome: Outcome) | Store(t: nat) | Record(t: nat)
                | Close(t: nat) | Remove(t: nat) | Wake(t: nat) | GiveUp(t: nat)

  predicate Works(pc: Pc) { pc.Running? || pc.Storing? || pc.Recording? || pc.Closing? || pc.Removing? }

  predicate Enabled(s: State, st: Step) {
    match st
    case Arrive(t, _) => t !in s.calls
    case Evict(_) => true
    case LookUp(t) => t in s.calls && s.calls[t].pc.Check?
    case Enter(t) => t in s.calls && s.calls[t].pc.Claim?
    case Finish(t, _) => t in s.calls && s.calls[t].pc.Running?
    case Store(t) => t in s.calls && s.calls[t].pc.Storing?
    case Record(t) => t in s.calls && s.calls[t].pc.Recording? && t in s.trackers
    case Close(t) => t in s.calls && s.calls[t].pc.Closing? && t in s.trackers
    case Remove(t) => t in s.calls && s.calls[t].pc.Removing? && t in s.trackers && s.trackers[t].outcome.Some?
    case Wake(t) =>
      && t in s.calls && s.calls[t].pc.Waiting?
      && var w := s.calls[t].pc.worker; w in s.trackers && s.trackers[w].done && s.trackers[w].outcome.Some?
    case GiveUp(t) => t in s.calls && s.calls[t].pc.Waiting?
  }

  function Goto(s: State, t: nat, pc: Pc): map<nat, Call>
    requires t in s.calls
  {
    s.calls[t := s.calls[t].(pc := pc)]
  }

  function Apply(s: State, st: Step): State
    requires Enabled(s, st)
  {
    match st
    case Arrive(t, key) => s.(calls := s.calls[t := Call(key, if key.kind == Setup then Check else Claim)])
    case Evict(id) => s.(cache := s.cache - {id})
    case LookUp(t) =>
      var id := s.calls[t].key.id;
      s.(calls := Goto(s, t, if id in s.cache then Returned(Cached(s.cache[id])) else Claim))
    case Enter(t) =>
      var key := s.calls[t].key;
      if key in s.inFlight then s.(calls := Goto(s, t, Waiting(s.inFlight[key])))
      else s.(calls := Goto(s, t, Running), inFlight := s.inFlight[key := t],
              trackers := s.trackers[t := Tracker(key, None, false)])
    case Finish(t, outcome) =>
      if s.calls[t].key.kind == Setup && outcome.Good?
      then s.(calls := Goto(s, t, Storing(outcome.result)), made := s.made + {(s.calls[t].key.id, outcome.result)})
      else s.(calls := Goto(s, t, Recording(outcome)))
    case Store(t) =>
      var v := s.calls[t].pc.result;
      s.(calls := Goto(s, t, Recording(Good(v))), cache := s.cache[s.calls[t].key.id := v])
    case Record(t) =>
      s.(calls := Goto(s, t, Closing),
         trackers := s.trackers[t := s.trackers[t].(outcome := Some(s.calls[t].pc.outcome))])
    case Close(t) => s.(calls := Goto(s, t, Removing), trackers := s.trackers[t := s.trackers[t].(done := true)])
    case Remove(t) =>
      s.(calls := Goto(s, t, Returned(Own(s.trackers[t].outcome.value))), inFlight := s.inFlight - {s.calls[t].key})
    case Wake(t) =>
      var w := s.calls[t].pc.worker;
      s.(calls := Goto(s, t, Returned(Shared(w, s.trackers[w].outcome.value))))
    case GiveUp(t) => s.(calls := Goto(s, t, Returned(Cancelled)))
  }

  const INITIAL := State(map[], map[], map[], map[], {})

  ghost predicate Execution(trace: seq<State>, steps: seq<Step>) {
    && |trace| == |steps| + 1 && trace[0] == INITIAL
    && forall i :: 0 <= i < |steps| ==> Enabled(trace[i], steps[i]) && trace[i + 1] == Apply(trace[i], steps[i])
  }

  // ----- invariant

  /** What a call's place says about the trackers and the in-flight map. */
  predicate CallOk(trackers: map<nat, Tracker>, inFlight: map<Key, nat>, t: nat, c: Call) {
    match c.pc
    case Check => t !in trackers
    case Claim => t !in trackers
    case Waiting(w) => t !in trackers && w in trackers && trackers[w].key == c.key
    case Running =>
      t in trackers && trackers[t] == Tracker(c.key, None, false) && c.key in inFlight && inFlight[c.key] == t
    case Storing(_) =>
      t in trackers && trackers[t] == Tracker(c.key, None, false) && c.key in inFlight && inFlight[c.key] == t
    case Recording(_) =>
      t in trackers && trackers[t] == Tracker(c.key, None, false) && c.key in inFlight && inFlight[c.key] == t
    case Closing =>
      && t in trackers && trackers[t].key == c.key && trackers[t].outcome.Some? && !trackers[t].done
      && c.key in inFlight && inFlight[c.key] == t
    case Removing =>
      && t in trackers && trackers[t].key == c.key && trackers[t].outcome.Some? && trackers[t].done
      && c.key in inFlight && inFlight[c.key] == t
    case Returned(Own(o)) => t in trackers && trackers[t] == Tracker(c.key, Some(o), true)
    case Returned(Shared(w, o)) => t !in trackers && w in trackers && trackers[w] == Tracker(c.key, Some(o), true)
    case Returned(_) => t !in trackers
  }

  ghost predicate CallsOk(s: State) {
    forall t :: t in s.calls ==> CallOk(s.trackers, s.inFlight, t, s.calls[t])
  }

  /** Every in-flight entry belongs to a call at work on that key. */
  ghost predicate FlightsOk(s: State) {
    && (forall k :: k in s.inFlight ==>
          s.inFlight[k] in s.calls && s.calls[s.inFlight[k]].key == k && Works(s.calls[s.inFlight[k]].pc))
    && forall t :: t in s.trackers ==> t in s.calls
  }

  /** How a step of call t may touch what the other calls rely on. */
  ghost predicate Framed(s: State, s': State, t: nat) {
    && s'.calls.Keys == s.calls.Keys + {t} && (forall u :: u in s.calls && u != t ==> s'.calls[u] == s.calls[u])
    && (forall u :: u in s.trackers ==>
          u in s'.trackers && s'.trackers[u].key == s.trackers[u].key
          && (u != t || s.trackers[u].done ==> s'.trackers[u] == s.trackers[u]))
    && (forall u :: u in s'.trackers && u != t ==> u in s.trackers)
    && (forall k :: k in s.inFlight && s.inFlight[k] != t ==> k in s'.inFlight && s'.inFlight[k] == s.inFlight[k])
  }

  lemma OthersKeep(s: State, s': State, t: nat)
    requires CallsOk(s) && Framed(s, s', t) && CallOk(s'.trackers, s'.inFlight, t, s'.calls[t])
    ensures CallsOk(s')
  {
    forall u | u in s'.calls
      ensures CallOk(s'.trackers, s'.inFlight, u, s'.calls[u])
    {
      if u != t {
        assert CallOk(s.trackers, s.inFlight, u, s.calls[u]);
      }
    }
  }

  lemma FlightsKeep(s: State, s': State, t: nat)
    requires FlightsOk(s) && Framed(s, s', t)
    requires forall k :: k in s'.inFlight && (k !in s.inFlight || s.inFlight[k] == t) ==>
               s'.inFlight[k] == t && s'.calls[t].key == k && Works(s'.calls[t].pc)
    ensures FlightsOk(s')
  {
    forall k | k in s'.inFlight
      ensures s'.inFlight[k] in s'.calls && s'.calls[s'.inFlight[k]].key == k && Works(s'.calls[s'.inFlight[k]].pc)
    {
      if k in s.inFlight && s.inFlight[k] != t {
        assert s'.inFlight[k] == s.inFlight[k];
      }
    }
  }

  ghost predicate Inv(s: State) { CallsOk(s) && FlightsOk(s) }

  lemma NewCall(s: State, t: nat, key: Key)
    requires Inv(s) && Enabled(s, Arrive(t, key))
    ensures Inv(Apply(s, Arrive(t, key)))
  {
    var s' := Apply(s, Arrive(t, key));
    OthersKeep(s, s', t);
    FlightsKeep(s, s', t);
  }

  /** A step that only moves its call, and keeps it at work if it was. */
  lemma MoveOnly(s: State, s': State, t: nat, pc: Pc)
    requires Inv(s) && t in s.calls && (Works(s.calls[t].pc) ==> Works(pc))
    requires s'.calls == Goto(s, t, pc) && s'.trackers == s.trackers && s'.inFlight == s.inFlight
    requires CallOk(s.trackers, s.inFlight, t, s.calls[t].(pc := pc))
    ensures Inv(s')
  {
    OthersKeep(s, s', t);
    FlightsKeep(s, s', t);
  }

  lemma MovingStep(s: State, st: Step)
    requires Inv(s) && Enabled(s, st)
    requires st.Finish? || st.Store? || st.LookUp? || st.Wake? || st.GiveUp?
             || (st.Enter? && s.calls[st.t].key in s.inFlight)
    ensures Inv(Apply(s, st))
  {
    var t, s' := st.t, Apply(s, st);
    assert CallOk(s.trackers, s.inFlight, t, s.calls[t]);
    if st.Enter? {
      var w := s.inFlight[s.calls[t].key];
      assert CallOk(s.trackers, s.inFlight, w, s.calls[w]);
    }
    MoveOnly(s, s', t, s'.calls[t].pc);
  }

  lemma ClaimStep(s: State, t: nat)
    requires Inv(s) && Enabled(s, Enter(t)) && s.calls[t].key !in s.inFlight
    ensures Inv(Apply(s, Enter(t)))
  {
    var s' := Apply(s, Enter(t));
    assert CallOk(s.trackers, s.inFlight, t, s.calls[t]);
    OthersKeep(s, s', t);
    FlightsKeep(s, s', t);
  }

  lemma TrackerStep(s: State, st: Step)
    requires Inv(s) && Enabled(s, st) && (st.Record? || st.Close?)
    ensures Inv(Apply(s, st))
  {
    var t, s' := st.t, Apply(s, st);
    assert CallOk(s.trackers, s.inFlight, t, s.calls[t]);
    OthersKeep(s, s', t);
    FlightsKeep(s, s', t);
  }

  lemma RemoveStep(s: State, t: nat)
    requires Inv(s) && Enabled(s, Remove(t))
    ensures Inv(Apply(s, Remove(t)))
  {
    var s' := Apply(s, Remove(t));
    assert CallOk(s.trackers, s.inFlight, t, s.calls[t]);
    OthersKeep(s, s', t);
    FlightsKeep(s, s', t);
  }

  lemma InvStep(s: State, st: Step)
    requires Inv(s) && Enabled(s, st)
    ensures Inv(Apply(s, st))
  {
    match st
    case Arrive(t, key) => NewCall(s, t, key);
    case Evict(_) =>
    case Enter(t) =>
      if s.calls[t].key in s.inFlight {
        MovingStep(s, st);
      } else {
        ClaimStep(s, t);
      }
    case Record(_) => TrackerStep(s, st);
    case Close(_) => TrackerStep(s, st);
    case Remove(t) => RemoveStep(s, t);
    case _ => MovingStep(s, st);
  }

  lemma {:induction false} RunInv(trace: seq<State>, steps: seq<Step>, i: nat)
    requires Execution(trace, steps) && i < |trace|
    ensures Inv(trace[i])
  {
    if i > 0 {
      RunInv(trace, steps, i - 1);
      InvStep(trace[i - 1], steps[i - 1]);
    }
  }

  /** A call at any place has its step: nothing the guards ask of trackers can fail,
      and a waiter needs only its tracker to be closed. */
  lemma NothingIsStuck(trace: seq<State>, steps: seq<Step>, i: nat, t: nat)
    requires Execution(trace, steps) && i < |trace| && t in trace[i].calls
    ensures var s, pc := trace[i], trace[i].calls[t].pc;
            && (pc.Recording? ==> Enabled(s, Record(t))) && (pc.Closing? ==> Enabled(s, Close(t)))
            && (pc.Removing? ==> Enabled(s, Remove(t)))
            && (pc.Waiting? ==> pc.worker in s.trackers && (s.trackers[pc.worker].done <==> Enabled(s, Wake(t))))
  {
    RunInv(trace, steps, i);
    var s := trace[i];
    assert CallOk(s.trackers, s.inFlight, t, s.calls[t]);
    if s.calls[t].pc.Waiting? {
      var w := s.calls[t].pc.worker;
      assert CallOk(s.trackers, s.inFlight, w, s.calls[w]);
    }
  }

  // ----- the results

  /** At most one call at a time works for a container, and the in-flight map holds
      exactly the containers with a call at work, under that call's tracker. */
  lemma OneAtATime(trace: seq<State>, steps: seq<Step>, i: nat)
    requires Execution(trace, steps) && i < |trace|
    ensures var s := trace[i];
            && (forall t, u | t in s.calls && u in s.calls && s.calls[t].key == s.calls[u].key ::
                  Works(s.calls[t].pc) && Works(s.calls[u].pc) ==> t == u)
            && (forall k ::
                  k in s.inFlight <==> exists t :: t in s.calls && s.calls[t].key == k && Works(s.calls[t].pc))
            && (forall t :: t in s.calls && Works(s.calls[t].pc) ==>
                  s.calls[t].key in s.inFlight && s.inFlight[s.calls[t].key] == t)
  {
    RunInv(trace, steps, i);
    var s := trace[i];
    forall t | t in s.calls && Works(s.calls[t].pc)
      ensures s.calls[t].key in s.inFlight && s.inFlight[s.calls[t].key] == t
    {
      assert CallOk(s.trackers, s.inFlight, t, s.calls[t]);
    }
  }

  /** A tracker that is closed never changes again. */
  lemma {:induction false} ClosedIsFinal(trace: seq<State>, steps: seq<Step>, i: nat, j: nat, w: nat)
    requires Execution(trace, steps) && i <= j < |trace|
    requires w in trace[i].trackers && trace[i].trackers[w].done
    ensures w in trace[j].trackers && trace[j].trackers[w] == trace[i].trackers[w]
  {
    if i < j {
      ClosedIsFinal(trace, steps, i, j - 1, w);
      RunInv(trace, steps, j - 1);
      var s, st := trace[j - 1], steps[j - 1];
      if !st.Arrive? && !st.Evict? {
        assert CallOk(s.trackers, s.inFlight, st.t, s.calls[st.t]);
      }
    }
  }

  /** A waiter that was woken returns exactly what the worker of its tracker returns,
      whenever that is, and both were calls for the same thing. */
  lemma WaiterSharesOutcome(trace: seq<State>, steps: seq<Step>, i: nat, j: nat, t: nat, w: nat, o: Outcome,
                            o': Outcome)
    requires Execution(trace, steps) && i < |trace| && j < |trace|
    requires t in trace[i].calls && trace[i].calls[t].pc == Returned(Shared(w, o))
    requires w in trace[j].calls && trace[j].calls[w].pc == Returned(Own(o'))
    ensures o == o' && trace[i].calls[t].key == trace[j].calls[w].key
  {
    RunInv(trace, steps, i);
    RunInv(trace, steps, j);
    assert CallOk(trace[i].trackers, trace[i].inFlight, t, trace[i].calls[t]);
    assert CallOk(trace[j].trackers, trace[j].inFlight, w, trace[j].calls[w]);
    if i <= j {
      ClosedIsFinal(trace, steps, i, j, w);
    } else {
      ClosedIsFinal(trace, steps, j, i, w);
    }
  }

  // ----- where results come from

  predicate PcMade(made: set<(string, nat)>, key: Key, pc: Pc) {
    match pc
    case Storing(v) => (key.id, v) in made
    case Recording(Good(v)) => key.kind == Setup ==> (key.id, v) in made
    case Returned(Cached(v)) => (key.id, v) in made
    case _ => true
  }

  predicate TrackerMade(made: set<(string, nat)>, tr: Tracker) {
    tr.key.kind == Setup && tr.outcome.Some? && tr.outcome.value.Good? ==> (tr.key.id, tr.outcome.value.result) in made
  }

  ghost predicate MadeOk(s: State) {
    && (forall id :: id in s.cache ==> (id, s.cache[id]) in s.made)
    && (forall t :: t in s.calls ==> PcMade(s.made, s.calls[t].key, s.calls[t].pc))
    && (forall w :: w in s.trackers ==> TrackerMade(s.made, s.trackers[w]))
  }

  /** Steps that make, store or record a result. */
  lemma MakingStep(s: State, st: Step)
    requires Inv(s) && MadeOk(s) && Enabled(s, st) && (st.Finish? || st.Store? || st.Record?)
    ensures MadeOk(Apply(s, st))
  {
    assert CallOk(s.trackers, s.inFlight, st.t, s.calls[st.t]);
    assert PcMade(s.made, s.calls[st.t].key, s.calls[st.t].pc);
  }

  lemma MadeStep(s: State, st: Step)
    requires Inv(s) && MadeOk(s) && Enabled(s, st)
    ensures MadeOk(Apply(s, st))
  {
    if st.Finish? || st.Store? || st.Record? {
      MakingStep(s, st);
    }
  }

  lemma {:induction false} RunMade(trace: seq<State>, steps: seq<Step>, i: nat)
    requires Execution(trace, steps) && i < |trace|
    ensures MadeOk(trace[i])
  {
    if i > 0 {
      RunMade(trace, steps, i - 1);
      RunInv(trace, steps, i - 1);
      MadeStep(trace[i - 1], steps[i - 1]);
    }
  }

  /** The result a call for setup comes back with, if any. */
  function ResultOf(r: Reply): Option<nat> {
    match r
    case Own(Good(v)) => Some(v)
    case Shared(_, Good(v)) => Some(v)
    case Cached(v) => Some(v)
    case _ => None
  }

  /** Whichever way a setup call gets a result, a setup of that container made it. */
  lemma ResultsAreMade(trace: seq<State>, steps: seq<Step>, i: nat, t: nat)
    requires Execution(trace, steps) && i < |trace| && t in trace[i].calls
    requires trace[i].calls[t].key.kind == Setup && trace[i].calls[t].pc.Returned?
    ensures var r := ResultOf(trace[i].calls[t].pc.reply);
            r.Some? ==> (trace[i].calls[t].key.id, r.value) in trace[i].made
  {
    RunInv(trace, steps, i);
    RunMade(trace, steps, i);
    var s := trace[i];
    assert CallOk(s.trackers, s.inFlight, t, s.calls[t]);
    assert PcMade(s.made, s.calls[t].key, s.calls[t].pc);
  }

  // ----- one at a time, not once

  ghost predicate Reachable(s: State) {
    exists trace, steps :: Execution(trace, steps) && trace[|trace| - 1] == s
  }

  lemma ReachNext(s: State, st: Step)
    requires Reachable(s) && Enabled(s, st)
    ensures Reachable(Apply(s, st))
  {
    var trace, steps :| Execution(trace, steps) && trace[|trace| - 1] == s;
    var trace', steps' := trace + [Apply(s, st)], steps + [st];
    assert forall i :: 0 <= i < |steps'| ==> trace'[i] == trace[i];
    assert Execution(trace', steps');
    assert trace'[|trace'| - 1] == Apply(s, st);
  }

  lemma ReachInitial()
    ensures Reachable(INITIAL)
  {
    var steps: seq<Step> := [];
    assert Execution([INITIAL], steps);
  }

  lemma RunsChain(s: State, t: nat, v: nat) returns (s': State)
    requires Reachable(s) && t in s.calls && s.calls[t].key.kind == Setup && s.calls[t].pc == Claim
    requires s.calls[t].key !in s.inFlight
    ensures Reachable(s') && s'.calls == Goto(s, t, Storing(v)) && s'.made == s.made + {(s.calls[t].key.id, v)}
    ensures s'.inFlight == s.inFlight[s.calls[t].key := t]
    ensures s'.trackers == s.trackers[t := Tracker(s.calls[t].key, None, false)]
  {
    ReachNext(s, Enter(t));
    s' := Apply(s, Enter(t));
    ReachNext(s', Finish(t, Good(v)));
    s' := Apply(s', Finish(t, Good(v)));
  }

  lemma Publishes(s: State, t: nat, v: nat) returns (s': State)
    requires Reachable(s) && t in s.calls && t in s.trackers && s.calls[t].pc == Storing(v)
    ensures Reachable(s') && s'.calls == Goto(s, t, Returned(Own(Good(v)))) && s'.made == s.made
    ensures s'.inFlight == s.inFlight - {s.calls[t].key} && s'.cache == s.cache[s.calls[t].key.id := v]
  {
    ReachNext(s, Store(t));
    s' := Apply(s, Store(t));
    ReachNext(s', Record(t));
    s' := Apply(s', Record(t));
    ReachNext(s', Close(t));
    s' := Apply(s', Close(t));
    ReachNext(s', Remove(t));
    s' := Apply(s', Remove(t));
  }

  lemma TwoClaims(key: Key) returns (s: State)
    requires key.kind == Setup
    ensures Reachable(s) && s == INITIAL.(calls := map[0 := Call(key, Claim), 1 := Call(key, Claim)])
  {
    ReachInitial();
    ReachNext(INITIAL, Arrive(0, key));
    s := Apply(INITIAL, Arrive(0, key));
    ReachNext(s, LookUp(0));
    s := Apply(s, LookUp(0));
    ReachNext(s, Arrive(1, key));
    s := Apply(s, Arrive(1, key));
    ReachNext(s, LookUp(1));
    s := Apply(s, LookUp(1));
  }

  /** The cache is not looked at again after the claim: a call that missed it before
      another's success sets the network up a second time. */
  lemma SetUpTwice(id: string) returns (s: State)
    ensures Reachable(s) && 0 in s.calls && s.calls[0].pc == Returned(Own(Good(7)))
    ensures id in s.cache && (id, 7) in s.made && (id, 8) in s.made
  {
    var s0 := TwoClaims(Key(Setup, id));
    var s1 := RunsChain(s0, 0, 7);
    var s2 := Publishes(s1, 0, 7);
    s := RunsChain(s2, 1, 8);
    assert Reachable(s) && (id, 7) in s2.made;
    var s3 := Publishes(s, 1, 8);
    s := s3;
  }

  // ----- when the claim finds the result already there

  /** What a step does to an id's cache entry: Some(true) for a store, Some(false) for
      an eviction. */
  function Touch(s: State, st: Step, id: string): Option<bool> {
    match st
    case Store(t) => if t in s.calls && s.calls[t].key.id == id then Some(true) else None
    case Evict(i) => if i == id then Some(false) else None
    case _ => None
  }

  ghost function LastTouch(trace: seq<State>, steps: seq<Step>, l: nat, n: nat, id: string): Option<bool>
    requires l <= n <= |steps| <= |trace|
  {
    if n == l then None
    else if Touch(trace[n - 1], steps[n - 1], id).Some? then Touch(trace[n - 1], steps[n - 1], id)
    else LastTouch(trace, steps, l, n - 1, id)
  }

  lemma TouchStep(s: State, st: Step, id: string)
    requires Enabled(s, st)
    ensures var touch := Touch(s, st, id);
            id in Apply(s, st).cache <==> if touch.Some? then touch.value else id in s.cache
  {
  }

  lemma {:induction false} CacheSince(trace: seq<State>, steps: seq<Step>, l: nat, n: nat, id: string)
    requires Execution(trace, steps) && l <= n < |trace|
    ensures var last := LastTouch(trace, steps, l, n, id);
            id in trace[n].cache <==> if last.Some? then last.value else id in trace[l].cache
  {
    if l < n {
      CacheSince(trace, steps, l, n - 1, id);
      TouchStep(trace[n - 1], steps[n - 1], id);
    }
  }

  /** How far a call is. */
  function Stage(pc: Pc): nat {
    match pc
    case Check => 0
    case Claim => 1
    case Waiting(_) => 2
    case Running => 3
    case Storing(_) => 4
    case Recording(_) => 5
    case Closing => 6
    case Removing => 7
    case Returned(_) => 8
  }

  lemma StageStep(s: State, st: Step, t: nat)
    requires Enabled(s, st) && t in s.calls
    ensures var s' := Apply(s, st);
            && t in s'.calls && s'.calls[t].key == s.calls[t].key && Stage(s.calls[t].pc) <= Stage(s'.calls[t].pc)
            && (!st.Evict? && st.t == t ==> Stage(s.calls[t].pc) < Stage(s'.calls[t].pc))
  {
  }

  lemma {:induction false} StageRises(trace: seq<State>, steps: seq<Step>, i: nat, j: nat, t: nat)
    requires Execution(trace, steps) && i <= j < |trace| && t in trace[i].calls
    ensures t in trace[j].calls && trace[j].calls[t].key == trace[i].calls[t].key
    ensures Stage(trace[i].calls[t].pc) <= Stage(trace[j].calls[t].pc)
  {
    if i < j {
      StageRises(trace, steps, i, j - 1, t);
      StageStep(trace[j - 1], steps[j - 1], t);
    }
  }

  lemma ComesToClaim(s: State, st: Step, t: nat)
    requires Enabled(s, st) && t in Apply(s, st).calls
    requires Apply(s, st).calls[t].key.kind == Setup && Apply(s, st).calls[t].pc == Claim
    ensures t in s.calls && s.calls[t].key == Apply(s, st).calls[t].key
    ensures (st == LookUp(t) && s.calls[t].key.id !in s.cache) || s.calls[t].pc == Claim
  {
  }

  lemma ComesToWork(s: State, st: Step, t: nat)
    requires Enabled(s, st) && t in Apply(s, st).calls && Works(Apply(s, st).calls[t].pc)
    ensures t in s.calls && s.calls[t].key == Apply(s, st).calls[t].key
    ensures (st == Enter(t) && s.calls[t].key !in s.inFlight) || Works(s.calls[t].pc)
  {
  }

  /** A setup call at its claim has looked in the cache, and missed. */
  lemma {:induction false} LookedUp(trace: seq<State>, steps: seq<Step>, n: nat, t: nat) returns (l: nat)
    requires Execution(trace, steps) && n < |trace| && t in trace[n].calls
    requires trace[n].calls[t].key.kind == Setup && trace[n].calls[t].pc == Claim
    ensures l < n && steps[l] == LookUp(t) && trace[n].calls[t].key.id !in trace[l].cache
  {
    ComesToClaim(trace[n - 1], steps[n - 1], t);
    if trace[n - 1].calls[t].pc == Claim {
      l := LookedUp(trace, steps, n - 1, t);
    } else {
      l := n - 1;
    }
  }

  /** A setup that claims the key finds the result already cached exactly when the last
      thing done to that entry since its own look-up is a store. */
  lemma ClaimFindsResultIff(trace: seq<State>, steps: seq<Step>, n: nat, t: nat) returns (l: nat)
    requires Execution(trace, steps) && n < |steps| && steps[n] == Enter(t)
    requires trace[n].calls[t].key.kind == Setup
    ensures l < n && steps[l] == LookUp(t)
    ensures var id := trace[n].calls[t].key.id;
            id in trace[n].cache <==> LastTouch(trace, steps, l + 1, n, id) == Some(true)
  {
    l := LookedUp(trace, steps, n, t);
    CacheSince(trace, steps, l + 1, n, trace[n].calls[t].key.id);
  }

  /** A call at work entered by claiming a free key. */
  lemma {:induction false} Claimed(trace: seq<State>, steps: seq<Step>, j: nat, t: nat) returns (n: nat)
    requires Execution(trace, steps) && j < |trace| && t in trace[j].calls && Works(trace[j].calls[t].pc)
    ensures n < j && steps[n] == Enter(t) && trace[n].calls[t].key == trace[j].calls[t].key
    ensures trace[j].calls[t].key !in trace[n].inFlight
  {
    ComesToWork(trace[j - 1], steps[j - 1], t);
    if Works(trace[j - 1].calls[t].pc) {
      n := Claimed(trace, steps, j - 1, t);
    } else {
      n := j - 1;
    }
  }

  /** Step i stores a result for the id. */
  predicate Stores(s: State, st: Step, id: string) { Touch(s, st, id) == Some(true) }

  ghost predicate StoredWithin(trace: seq<State>, steps: seq<Step>, l: nat, n: nat, id: string)
    requires n <= |steps| <= |trace|
  {
    exists k :: l < k < n && Stores(trace[k], steps[k], id)
  }

  lemma {:induction false} StaysCached(trace: seq<State>, steps: seq<Step>, i: nat, j: nat, id: string)
    requires Execution(trace, steps) && i < j < |trace| && Stores(trace[i], steps[i], id) && Evict(id) !in steps
    ensures id in trace[j].cache
  {
    if i < j - 1 {
      StaysCached(trace, steps, i, j - 1, id);
      assert steps[j - 1] in steps;
    }
  }

  /** Two stores of one id are not both within one call's work. */
  lemma StoreIsBeforeClaim(trace: seq<State>, steps: seq<Step>, i: nat, n: nat, j: nat, t: nat)
    requires Execution(trace, steps) && i < j < |steps| && n < j && steps[n] == Enter(t) && steps[j] == Store(t)
    requires trace[n].calls[t].key !in trace[n].inFlight
    requires trace[j].calls[t].key.kind == Setup && Stores(trace[i], steps[i], trace[j].calls[t].key.id)
    ensures i < n
  {
    if i > n {
      var u := steps[i].t;
      StageRises(trace, steps, n + 1, i, t);
      StageRises(trace, steps, i, j, t);
      OneAtATime(trace, steps, i);
      RunInv(trace, steps, i);
      assert trace[i].calls[u].key.kind == Setup by {
        StoringIsSetup(trace, steps, i, u);
      }
      assert trace[i].calls[u].key == trace[i].calls[t].key;
      assert t == u;
      StageStep(trace[i], steps[i], t);
      StageRises(trace, steps, i + 1, j, t);
      assert false;
    }
  }

  lemma {:induction false} StoringIsSetup(trace: seq<State>, steps: seq<Step>, i: nat, t: nat)
    requires Execution(trace, steps) && i < |trace| && t in trace[i].calls && trace[i].calls[t].pc.Storing?
    ensures trace[i].calls[t].key.kind == Setup
  {
    if steps[i - 1].Finish? && steps[i - 1].t == t {
    } else {
      StoringIsSetup(trace, steps, i - 1, t);
    }
  }

  /** Without evictions, a store is not the first for its id exactly when the id was
      stored between that call's own look-up and its claim. */
  lemma SecondSetupIff(trace: seq<State>, steps: seq<Step>, j: nat, t: nat) returns (l: nat, n: nat)
    requires Execution(trace, steps) && j < |steps| && steps[j] == Store(t)
    requires Evict(trace[j].calls[t].key.id) !in steps
    ensures l < n < j && steps[l] == LookUp(t) && steps[n] == Enter(t)
    ensures var id := trace[j].calls[t].key.id;
            (exists i :: 0 <= i < j && Stores(trace[i], steps[i], id)) <==> StoredWithin(trace, steps, l, n, id)
  {
    StoringIsSetup(trace, steps, j, t);
    n := Claimed(trace, steps, j, t);
    l := LookedUp(trace, steps, n, t);
    var id := trace[j].calls[t].key.id;
    if i :| 0 <= i < j && Stores(trace[i], steps[i], id) {
      StoreIsBeforeClaim(trace, steps, i, n, j, t);
      if i < l {
        StaysCached(trace, steps, i, l, id);
      }
      assert l < i < n;
    }
  }
}
