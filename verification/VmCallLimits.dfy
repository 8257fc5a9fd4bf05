/** A run in which the reconnect of a call destroys the VM that someone else has just created. */
module VmCallLimits {
  import opened VmProtocol
  import opened VmManager
  import opened VmRetry
  import opened VmCalls

  const VM: Name := "vm"

  lemma {:induction false} Extend(call: Call, moves: seq<Move>, move: Move)
    requires Possible(call, moves) && CanMove(Ran(call, moves), move)
    ensures Possible(call, moves + [move]) && Ran(call, moves + [move]) == Moved(Ran(call, moves), move)
    decreases |moves|
  {
    if moves == [] {
      assert moves + [move] == [move] && [move][1..] == [];
    } else {
      assert (moves + [move])[1..] == moves[1..] + [move];
      Extend(Moved(call, moves[0]), moves[1..], move);
    }
  }

  /** The call that the moves lead to, from a manager with the image and no VM. */
  predicate Leads(limit: nat, moves: seq<Move>, call: Call) {
    Possible(Begin(Init(true), VM, limit), moves) && Ran(Begin(Init(true), VM, limit), moves) == call
  }

  lemma Then(limit: nat, moves: seq<Move>, call: Call, move: Move) returns (longer: seq<Move>, next: Call)
    requires Leads(limit, moves, call) && CanMove(call, move)
    ensures next == Moved(call, move) && Leads(limit, longer, next) && longer == moves + [move]
  {
    Extend(Begin(Init(true), VM, limit), moves, move);
    longer, next := moves + [move], Moved(call, move);
  }

  /** Someone else creates a VM under the name, which has none. */
  lemma OthersCreate(limit: nat, moves: seq<Move>, call: Call, c: nat) returns (longer: seq<Move>, next: Call)
    requires Leads(limit, moves, call) && call.s.instances == map[] && call.s.image && c !in call.s.creations
    requires !call.phase.Launching? && !call.phase.Installing?
    ensures Leads(limit, longer, next) && moves <= longer && next == call.(s := next.s)
    ensures next.s == call.s.(nextCid := call.s.nextCid + 1, instances := map[VM := |call.s.incs|],
      incs := call.s.incs + [Incarnation(VM, call.s.nextCid, map[], [], Receiving, [], [])])
  {
    longer, next := Then(limit, moves, call, Other(BeginCreate(c, VM)));
    longer, next := Then(limit, longer, next, Other(Launch(c, true)));
    longer, next := Then(limit, longer, next, Other(Install(c)));
    assert next.s.creations == call.s.creations;
  }

  /** The state in which the call's first attempt has lost its VM. */
  predicate Lost(s: State) {
    && s.instances == map[] && s.image && !s.shutdown && s.creations == map[]
    && |s.incs| == 1 && s.incs[0].table == map[] && s.incs[0].processor.Receiving?
    && s.callers.Keys == {0} && s.callers[0].kind.Execute? && s.callers[0].inc == 0
  }

  /** The first attempt waits for its result. */
  lemma Waiting(limit: nat) returns (moves: seq<Move>, call: Call)
    ensures Leads(limit, moves, call) && call.phase == Attempting(0) && call.tried == [0] && call.delays == []
    ensures call.limit == limit && call.name == VM
    ensures var s := call.s;
      && s.instances == map[VM := 0] && s.image && !s.shutdown && s.creations == map[]
      && |s.incs| == 1 && s.incs[0].name == VM && s.incs[0].processor.Receiving?
      && s.callers == map[0 := Caller(Execute, Cmd(0), 0, Polling)] && s.inbox == map[0 := []]
  {
    moves, call := [], Begin(Init(true), VM, limit);
    moves, call := OthersCreate(limit, moves, call, 0);
    moves, call := Then(limit, moves, call, Own(Register(0, Execute, Cmd(0), VM)));
    moves, call := Then(limit, moves, call, Own(Submit(0)));
  }

  lemma VmLost(limit: nat) returns (moves: seq<Move>, call: Call)
    ensures Leads(limit, moves, call) && call.phase == Attempting(0) && call.tried == [0] && call.delays == []
    ensures call.limit == limit && call.name == VM && Lost(call.s)
    ensures call.s.callers[0].progress.Polling? && call.s.inbox == map[0 := []]
  {
    moves, call := Waiting(limit);
    moves, call := Then(limit, moves, call, Other(Destroy(VM, false)));
  }

  lemma CheckFails(limit: nat) returns (moves: seq<Move>, call: Call)
    requires limit > 0
    ensures Leads(limit, moves, call) && call.phase == Destroying && call.tried == [0] && call.delays == []
    ensures call.limit == limit && call.name == VM && Lost(call.s)
  {
    moves, call := VmLost(limit);
    assert NoSender(call.s, 0);
    moves, call := Then(limit, moves, call, Own(SeeDisconnected(0)));
    RetriedExactly(Disconnected, VM);
    moves, call := Then(limit, moves, call, Judge);
    moves, call := Then(limit, moves, call, Own(Health(VM)));
  }

  lemma NotFoundEnds()
    ensures !DisconnectClass(Outcome.NotFound, VM)
  {
    RetriedExactly(Outcome.NotFound, VM);
    assert forall i: nat | i <= |VM| :: !OccursAt(VM, CLOSED, i) && !OccursAt(VM, GONE, i);
  }

  /** The reconnect destroys the VM that is there, and cannot create another one. */
  lemma ReconnectFails(limit: nat, moves: seq<Move>, call: Call) returns (longer: seq<Move>, next: Call)
    requires Leads(limit, moves, call) && call.phase == Destroying && call.name == VM && InRange(call.s)
    requires call.s.instances.Keys == {VM} && call.s.creations == map[]
    ensures Leads(limit, longer, next) && moves + [Own(Destroy(VM, true))] <= longer
    ensures next.phase == Sleeping(false) && next.name == VM && next.tried == call.tried && next.limit == call.limit
    ensures next.s.instances == map[] && !next.s.image && next.s.creations == map[] && InRange(next.s)
    ensures next.s.callers == call.s.callers && next.s.shutdown == call.s.shutdown
  {
    longer, next := Then(limit, moves, call, Own(Destroy(VM, true)));
    longer, next := Then(limit, longer, next, Own(BeginCreate(2, VM)));
    longer, next := Then(limit, longer, next, Own(Launch(2, false)));
    assert next.s.creations == map[];
  }

  lemma NotFound(limit: nat, moves: seq<Move>, call: Call) returns (longer: seq<Move>, next: Call)
    requires Leads(limit, moves, call) && call.phase == Sleeping(false) && call.name == VM && InRange(call.s)
    requires call.s.instances == map[] && 1 !in call.s.callers
    ensures Leads(limit, longer, next) && moves <= longer && next.phase == Done(Outcome.NotFound)
    ensures next.s == call.s.(callers := next.s.callers)
  {
    longer, next := Then(limit, moves, call, Wake);
    longer, next := Then(limit, longer, next, Own(Register(1, Execute, Cmd(1), VM)));
    NotFoundEnds();
    longer, next := Then(limit, longer, next, Judge);
  }

  /**
    Between the health check of a reconnect and its destroy someone else creates the VM anew.  The reconnect
    takes that healthy VM away and the image with it; its own creation fails, the call ends with "not found",
    and no VM can be created any more.
   */
  lemma ReconnectDestroysNewVm(limit: nat) returns (early: seq<Move>, moves: seq<Move>)
    requires limit > 0
    ensures Possible(Begin(Init(true), VM, limit), early) && Possible(Begin(Init(true), VM, limit), moves)
    ensures var u := Ran(Begin(Init(true), VM, limit), early); InRange(u.s) && Healthy(u.s, VM)
    ensures early + [Own(Destroy(VM, true))] <= moves
    ensures var call := Ran(Begin(Init(true), VM, limit), moves);
      call.phase == Done(Outcome.NotFound) && !call.s.shutdown && call.s.instances == map[]
        && VmTheorems.Barren(call.s)
  {
    var call;
    early, call := CheckFails(limit);
    early, call := OthersCreate(limit, early, call, 1);
    moves, call := ReconnectFails(limit, early, call);
    moves, call := NotFound(limit, moves, call);
  }
}
