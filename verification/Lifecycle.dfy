/** The shim's lifecycle: six states held in one atomic word, moved only by
    compare-and-swap helpers and by the forced swap that shutdown uses. */
module Lifecycle {

  datatype ShimState = Idle | Creating | Created | Running | ShuttingDown | Deleting

  /** The documented transition table. Shutting down is allowed from everywhere. */
  predicate ValidTransition(from: ShimState, to: ShimState) {
    || to == ShuttingDown
    || (from == Idle && to == Creating)
    || (from == Creating && (to == Created || to == Idle))
    || (from == Created && to == Running)
    || (from == Running && to == Deleting)
  }

  /** The moves the service makes. Each compare-and-swap of a helper is one of these. */
  datatype Move = StartCreating | MarkCreated | MarkCreationFailed | MarkStarted
                | DeleteRunning | DeleteCreated | ForceShutdown

  predicate Fires(m: Move, s: ShimState) {
    match m
    case StartCreating => s == Idle
    case MarkCreated => s == Creating
    case MarkCreationFailed => s == Creating
    case MarkStarted => s == Created
    case DeleteRunning => s == Running
    case DeleteCreated => s == Created
    case ForceShutdown => true
  }

  function Destination(m: Move): ShimState {
    match m
    case StartCreating => Creating
    case MarkCreated => Created
    case MarkCreationFailed => Idle
    case MarkStarted => Running
    case DeleteRunning => Deleting
    case DeleteCreated => Deleting
    case ForceShutdown => ShuttingDown
  }

  /** A compare-and-swap that does not fire leaves the state alone. */
  function After(m: Move, s: ShimState): ShimState {
    if Fires(m, s) then Destination(m) else s
  }

  /** The helpers and the table agree on every move except one: deleting a
      container that was created and never started is not in the table. */
  lemma HelpersFollowTableExceptDeleteBeforeStart(m: Move, s: ShimState)
    requires Fires(m, s)
    ensures ValidTransition(s, Destination(m)) <==> m != DeleteCreated
  {
  }

  function AfterAll(moves: seq<Move>, s: ShimState): ShimState {
    if moves == [] then s else AfterAll(moves[1..], After(moves[0], s))
  }

  /** Position of a state on the way from creation to shutdown. Idle and Creating
      share a rank: a failed creation goes back. */
  function Rank(s: ShimState): nat {
    match s
    case Idle => 0
    case Creating => 0
    case Created => 1
    case Running => 2
    case Deleting => 3
    case ShuttingDown => 4
  }

  /** No sequence of moves goes backwards, so a container that exists is never
      un-created, a deletion is never abandoned and shutdown is never left. */
  lemma {:induction false} RankNeverFalls(moves: seq<Move>, s: ShimState)
    ensures Rank(s) <= Rank(AfterAll(moves, s))
    ensures s == ShuttingDown ==> AfterAll(moves, s) == ShuttingDown
    decreases |moves|
  {
    if moves != [] {
      RankNeverFalls(moves[1..], After(moves[0], s));
    }
  }

  /** How often a deletion helper fires in a sequence of moves. */
  function DeletionsFired(moves: seq<Move>, s: ShimState): nat {
    if moves == [] then 0
    else
      (if (moves[0] == DeleteRunning || moves[0] == DeleteCreated) && Fires(moves[0], s) then 1 else 0)
      + DeletionsFired(moves[1..], After(moves[0], s))
  }

  /** A deletion starts at most once in the life of the shim, and not at all once
      the state has reached Deleting. */
  lemma {:induction false} DeletionFiresAtMostOnce(moves: seq<Move>, s: ShimState)
    ensures DeletionsFired(moves, s) <= 1
    ensures Rank(s) >= 3 ==> DeletionsFired(moves, s) == 0
    decreases |moves|
  {
    if moves != [] {
      DeletionFiresAtMostOnce(moves[1..], After(moves[0], s));
    }
  }

  /** The atomic word itself. */
  class StateMachine {
    var state: ShimState
    var intentionalShutdown: bool

    constructor ()
      ensures state == Idle && !intentionalShutdown
    {
      state := Idle;
      intentionalShutdown := false;
    }

    method CompareAndSwap(from: ShimState, to: ShimState) returns (ok: bool)
      modifies `state
      ensures ok == (old(state) == from)
      ensures state == if ok then to else old(state)
    {
      ok := state == from;
      if ok {
        state := to;
      }
    }

    /** The checked transition: refused when the table has no such edge or the
        state is not the expected one. */
    method Transition(from: ShimState, to: ShimState) returns (ok: bool)
      modifies `state
      ensures ok == (ValidTransition(from, to) && old(state) == from)
      ensures state == if ok then to else old(state)
    {
      if !ValidTransition(from, to) {
        return false;
      }
      ok := CompareAndSwap(from, to);
    }

    method ForceTransition(to: ShimState) returns (previous: ShimState)
      modifies `state
      ensures previous == old(state) && state == to
    {
      previous := state;
      state := to;
    }

    method TryStartCreating() returns (ok: bool)
      modifies `state
      ensures ok == Fires(StartCreating, old(state))
      ensures state == After(StartCreating, old(state))
    {
      ok := CompareAndSwap(Idle, Creating);
    }

    /** Two compare-and-swaps, Running first. Alone on the word they act as one. */
    method TryStartDeleting() returns (ok: bool)
      modifies `state
      ensures ok == (Fires(DeleteRunning, old(state)) || Fires(DeleteCreated, old(state)))
      ensures state == AfterAll([DeleteRunning, DeleteCreated], old(state))
      ensures ok ==> state == Deleting
    {
      ghost var was := state;
      assert AfterAll([DeleteRunning, DeleteCreated], was)
          == AfterAll([DeleteCreated], After(DeleteRunning, was))
          == AfterAll([], After(DeleteCreated, After(DeleteRunning, was)));
      ok := CompareAndSwap(Running, Deleting);
      if !ok {
        ok := CompareAndSwap(Created, Deleting);
      }
    }

    method MarkCreationDone(succeeded: bool) returns (ok: bool)
      modifies `state
      ensures ok == (old(state) == Creating)
      ensures state == After(if succeeded then MarkCreated else MarkCreationFailed, old(state))
    {
      ok := CompareAndSwap(Creating, if succeeded then Created else Idle);
    }

    method MarkStarted() returns (ok: bool)
      modifies `state
      ensures ok == Fires(Move.MarkStarted, old(state))
      ensures state == After(Move.MarkStarted, old(state))
    {
      ok := CompareAndSwap(Created, Running);
    }
  }
}
