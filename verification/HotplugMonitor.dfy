/** The control loop shared by CPU and memory hotplug: cooldowns and stability
    counters between what a controller reads and what it is asked to do. */
module HotplugMonitor {

  import opened Wrappers

  datatype Direction = Up | Down

  /** What the controller's evaluation says on a tick. */
  datatype Reading = Unreadable | Calm | Toward(direction: Direction)

  /** One direction's settings. Scaling up is always enabled. */
  datatype Limits = Limits(cooldown: int, stability: int, enabled: bool)

  datatype Config = Config(up: Limits, down: Limits) {
    function Of(d: Direction): Limits { if d == Up then up else down }
  }

  /** One direction's counter of consecutive readings and time of the last success. */
  datatype Side = Side(count: nat, last: Option<int>)

  datatype State = State(up: Side, down: Side) {
    function Of(d: Direction): Side { if d == Up then up else down }

    function With(d: Direction, own: Side, other: Side): State {
      if d == Up then State(own, other) else State(other, own)
    }
  }

  const INITIAL := State(Side(0, None), Side(0, None))

  function Opposite(d: Direction): Direction { if d == Up then Down else Up }

  /** A tick: the reading, the clock when the cooldown is checked, whether the call
      to the controller succeeds if it is made, and the clock when it returns. */
  datatype Tick = Tick(reading: Reading, checked: int, succeeds: bool, done: int)

  predicate Cool(last: Option<int>, now: int, cooldown: int) { last.None? || now - last.value >= cooldown }

  /** A reading past the cooldown, which counts. */
  predicate Honoured(s: State, c: Config, t: Tick, d: Direction) {
    t.reading == Toward(d) && c.Of(d).enabled && Cool(s.Of(d).last, t.checked, c.Of(d).cooldown)
  }

  predicate Attempts(s: State, c: Config, t: Tick, d: Direction) {
    Honoured(s, c, t, d) && s.Of(d).count + 1 >= c.Of(d).stability
  }

  predicate Scales(s: State, c: Config, t: Tick, d: Direction) { Attempts(s, c, t, d) && t.succeeds }

  function Zeroed(side: Side): Side { side.(count := 0) }

  function Next(s: State, c: Config, t: Tick): State {
    match t.reading
    case Unreadable => s
    case Calm => State(Zeroed(s.up), Zeroed(s.down))
    case Toward(d) =>
      var own, other := s.Of(d), s.Of(Opposite(d));
      if !c.Of(d).enabled then s.With(d, Zeroed(own), other)
      else if !Honoured(s, c, t, d) then s
      else if Scales(s, c, t, d) then s.With(d, Side(0, Some(t.done)), Zeroed(other))
      else s.With(d, own.(count := own.count + 1), Zeroed(other))
  }

  /** The source's object. The controller's answers come in with the tick. */
  class Monitor {
    const config: Config
    var consecutiveHighUsage: nat
    var consecutiveLowUsage: nat
    var lastScaleUp: Option<int>
    var lastScaleDown: Option<int>

    function Value(): State
      reads this
    {
      State(Side(consecutiveHighUsage, lastScaleUp), Side(consecutiveLowUsage, lastScaleDown))
    }

    constructor (config: Config)
      ensures this.config == config && Value() == INITIAL
    {
      this.config := config;
      consecutiveHighUsage, consecutiveLowUsage := 0, 0;
      lastScaleUp, lastScaleDown := None, None;
    }

    method CheckAndAdjust(t: Tick) returns (scaled: bool)
      requires config.up.enabled
      modifies this
      ensures Value() == Next(old(Value()), config, t)
      ensures scaled <==> exists d :: Scales(old(Value()), config, t, d)
    {
      ghost var s := Value();
      scaled := false;
      match t.reading {
        case Unreadable =>
        case Calm =>
          consecutiveHighUsage, consecutiveLowUsage := 0, 0;
        case Toward(Up) =>
          scaled := HandleScaleUp(t);
          assert scaled <==> Scales(s, config, t, Up);
        case Toward(Down) =>
          if config.down.enabled {
            scaled := HandleScaleDown(t);
            assert scaled <==> Scales(s, config, t, Down);
          } else {
            consecutiveLowUsage := 0;
          }
      }
    }

    method HandleScaleUp(t: Tick) returns (scaled: bool)
      requires t.reading == Toward(Up) && config.up.enabled
      modifies this
      ensures Value() == Next(old(Value()), config, t)
      ensures scaled <==> Scales(old(Value()), config, t, Up)
    {
      if !Cool(lastScaleUp, t.checked, config.up.cooldown) {
        return false;
      }
      consecutiveHighUsage := consecutiveHighUsage + 1;
      consecutiveLowUsage := 0;
      if consecutiveHighUsage < config.up.stability || !t.succeeds {
        return false;
      }
      lastScaleUp := Some(t.done);
      consecutiveHighUsage := 0;
      scaled := true;
    }

    method HandleScaleDown(t: Tick) returns (scaled: bool)
      requires t.reading == Toward(Down) && config.down.enabled
      modifies this
      ensures Value() == Next(old(Value()), config, t)
      ensures scaled <==> Scales(old(Value()), config, t, Down)
    {
      if !Cool(lastScaleDown, t.checked, config.down.cooldown) {
        return false;
      }
      consecutiveLowUsage := consecutiveLowUsage + 1;
      consecutiveHighUsage := 0;
      if consecutiveLowUsage < config.down.stability || !t.succeeds {
        return false;
      }
      lastScaleDown := Some(t.done);
      consecutiveLowUsage := 0;
      scaled := true;
    }
  }

  // ----- runs

  function Run(c: Config, ticks: seq<Tick>): State {
    if ticks == [] then INITIAL else Next(Run(c, ticks[..|ticks| - 1]), c, ticks[|ticks| - 1])
  }

  predicate ClockAdvances(ticks: seq<Tick>) {
    && (forall i :: 0 <= i < |ticks| ==> ticks[i].checked <= ticks[i].done)
    && forall i, j :: 0 <= i < j < |ticks| ==> ticks[i].done <= ticks[j].checked
  }

  /** When the successful scalings of a direction happened. */
  function Scalings(c: Config, ticks: seq<Tick>, d: Direction): seq<int> {
    if ticks == [] then []
    else
      var before := ticks[..|ticks| - 1];
      var t := ticks[|ticks| - 1];
      Scalings(c, before, d) + if Scales(Run(c, before), c, t, d) then [t.done] else []
  }

  lemma {:induction false} LastIsLatest(c: Config, ticks: seq<Tick>, d: Direction)
    ensures var times := Scalings(c, ticks, d);
            Run(c, ticks).Of(d).last == if times == [] then None else Some(times[|times| - 1])
  {
    if ticks != [] {
      LastIsLatest(c, ticks[..|ticks| - 1], d);
    }
  }

  /** Successes of a direction are a cooldown apart, so k of them span k - 1 cooldowns. */
  lemma {:induction false} SuccessesAreSpaced(c: Config, ticks: seq<Tick>, d: Direction, i: nat, j: nat)
    requires ClockAdvances(ticks) && i <= j < |Scalings(c, ticks, d)|
    ensures Scalings(c, ticks, d)[j] - Scalings(c, ticks, d)[i] >= (j - i) * c.Of(d).cooldown
  {
    var before, t := ticks[..|ticks| - 1], ticks[|ticks| - 1];
    var times := Scalings(c, before, d);
    if j < |times| {
      SuccessesAreSpaced(c, before, d, i, j);
    } else if i < j {
      SuccessesAreSpaced(c, before, d, i, j - 1);
      LastIsLatest(c, before, d);
      assert t.checked - times[j - 1] >= c.Of(d).cooldown;
      assert (j - i) * c.Of(d).cooldown == (j - 1 - i) * c.Of(d).cooldown + c.Of(d).cooldown;
    }
  }

  /** A window of the given length holds at most length / cooldown + 1 successes. */
  lemma WindowBound(c: Config, ticks: seq<Tick>, d: Direction, i: nat, j: nat, start: int, length: nat)
    requires ClockAdvances(ticks) && i <= j < |Scalings(c, ticks, d)| && c.Of(d).cooldown > 0
    requires start <= Scalings(c, ticks, d)[i] && Scalings(c, ticks, d)[j] <= start + length
    ensures j - i + 1 <= length / c.Of(d).cooldown + 1
  {
    SuccessesAreSpaced(c, ticks, d, i, j);
    FitsInto(j - i, c.Of(d).cooldown, length);
  }

  lemma FitsInto(n: nat, size: nat, length: nat)
    requires size > 0 && n * size <= length
    ensures n <= length / size
  {
    var q := length / size;
    assert length < (q + 1) * size;
    assert n >= q + 1 ==> n * size >= (q + 1) * size;
  }

  // ----- stability

  /** What starts the count of readings towards d afresh: a calm reading, an
      honoured reading the other way, a success, or a reading towards a disabled d. */
  predicate Resets(s: State, c: Config, t: Tick, d: Direction) {
    || t.reading == Calm || Honoured(s, c, t, Opposite(d)) || Scales(s, c, t, d)
    || (t.reading == Toward(d) && !c.Of(d).enabled)
  }

  /** The honoured readings towards d since the last reset. */
  function Stable(c: Config, ticks: seq<Tick>, d: Direction): nat {
    if ticks == [] then 0
    else
      var before := ticks[..|ticks| - 1];
      var s, t := Run(c, before), ticks[|ticks| - 1];
      if Resets(s, c, t, d) then 0 else Stable(c, before, d) + if Honoured(s, c, t, d) then 1 else 0
  }

  lemma {:induction false} CounterIsStable(c: Config, ticks: seq<Tick>, d: Direction)
    ensures Run(c, ticks).Of(d).count == Stable(c, ticks, d)
  {
    if ticks != [] {
      CounterIsStable(c, ticks[..|ticks| - 1], d);
    }
  }

  /** Readings towards d since the last reset, honoured or not. */
  function ReadingsSince(c: Config, ticks: seq<Tick>, d: Direction): nat {
    if ticks == [] then 0
    else
      var before := ticks[..|ticks| - 1];
      var t := ticks[|ticks| - 1];
      if Resets(Run(c, before), c, t, d) then 0
      else ReadingsSince(c, before, d) + if t.reading == Toward(d) then 1 else 0
  }

  lemma {:induction false} StableIsBelow(c: Config, ticks: seq<Tick>, d: Direction)
    ensures Stable(c, ticks, d) <= ReadingsSince(c, ticks, d)
  {
    if ticks != [] {
      StableIsBelow(c, ticks[..|ticks| - 1], d);
    }
  }

  /** The controller is asked to scale exactly when the reading is past the cooldown
      and completes the stability count, which takes that many readings since the
      last reset. A failed attempt is not a reset: the next reading tries again. */
  lemma AttemptIffStable(c: Config, ticks: seq<Tick>, t: Tick, d: Direction)
    ensures Attempts(Run(c, ticks), c, t, d)
            <==> Honoured(Run(c, ticks), c, t, d) && Stable(c, ticks, d) + 1 >= c.Of(d).stability
    ensures Attempts(Run(c, ticks), c, t, d) ==> ReadingsSince(c, ticks, d) + 1 >= c.Of(d).stability
    ensures Attempts(Run(c, ticks), c, t, d) && !t.succeeds ==> Stable(c, ticks + [t], d) == Stable(c, ticks, d) + 1
  {
    CounterIsStable(c, ticks, d);
    StableIsBelow(c, ticks, d);
    assert (ticks + [t])[..|ticks|] == ticks;
  }
}
