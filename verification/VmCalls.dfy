/**
  A whole retrying call as one thread of the manager: attempts, and between them reconnects and waits,
  with any steps of other callers, creators and processors in between.
 */
module VmCalls {
  import opened Prelude
  import opened VmProtocol
  import opened VmSafety
  import opened VmManager
  import opened VmRetry
  import VmTheorems

  /** Where the call is; `healed` is what the reconnect that has just ended reported. */
  datatype Phase =
    | Starting | Attempting(t: nat)
    | Checking | Destroying | Allocating | Launching(c: nat) | Installing(c: nat)
    | Sleeping(healed: bool) | Done(outcome: Outcome)

  /** `limit` is the number of retries allowed, `tried` the callers of the attempts, `delays` the waits so far. */
  datatype Call = Call(s: State, name: Name, limit: nat, phase: Phase, tried: seq<nat>, delays: seq<nat>)

  function Begin(s: State, name: Name, limit: nat): Call { Call(s, name, limit, Starting, [], []) }

  /** A step of some other thread, a step of the call, its judgement of an outcome, and the end of a wait. */
  datatype Move = Other(step: Step) | Own(step: Step) | Judge | Wake

  /** What the call may do next, by where it is. */
  predicate IsNext(call: Call, step: Step) {
    match call.phase
    case Starting => step.Register? && step.kind.Execute? && step.name == call.name
    case Attempting(t) => step == Submit(t) || step == Receive(t) || step == Timeout(t) || step == SeeDisconnected(t)
    case Checking => step == Health(call.name)
    case Destroying => step.Destroy? && step.name == call.name
    case Allocating => step.BeginCreate? && step.name == call.name
    case Launching(c) => step.Launch? && step.c == c
    case Installing(c) => step == Install(c)
    case _ => false
  }

  /** Nobody else acts for the call's callers and creations. */
  predicate IsForeign(call: Call, step: Step) {
    match step
    case Submit(t) => t !in call.tried
    case Receive(t) => t !in call.tried
    case Timeout(t) => t !in call.tried
    case SeeDisconnected(t) => t !in call.tried
    case Launch(c, _) => call.phase != Launching(c)
    case Install(c) => call.phase != Installing(c)
    case _ => true
  }

  predicate CanMove(call: Call, move: Move) {
    match move
    case Other(step) => Enabled(call.s, step) && IsForeign(call, step)
    case Own(step) => Enabled(call.s, step) && IsNext(call, step)
    case Judge => call.phase.Attempting? && HasReturned(call.s, call.phase.t)
    case Wake => call.phase.Sleeping?
  }

  predicate HasReturned(s: State, t: nat) { t in s.callers && s.callers[t].progress.Returned? }

  function OutcomeOf(s: State, t: nat): Outcome
    requires HasReturned(s, t)
  {
    s.callers[t].progress.outcome
  }

  /** The phase after the call's own step. */
  function PhaseAfter(call: Call, step: Step): Phase
    requires Enabled(call.s, step) && IsNext(call, step)
  {
    match call.phase
    case Starting => Attempting(step.t)
    case Checking => if Healthy(call.s, call.name) then Sleeping(true) else Destroying
    case Destroying => Allocating
    case Allocating => Launching(step.c)
    case Launching(c) => if step.ok then Installing(c) else Sleeping(false)
    case Installing(_) => Sleeping(true)
    case _ => call.phase
  }

  predicate Again(call: Call, o: Outcome) { DisconnectClass(o, call.name) && |call.delays| < call.limit }

  function Moved(call: Call, move: Move): Call
    requires CanMove(call, move)
  {
    match move
    case Other(step) => call.(s := Apply(call.s, step))
    case Own(step) =>
      call.(s := Apply(call.s, step), phase := PhaseAfter(call, step),
            tried := if call.phase.Starting? then call.tried + [step.t] else call.tried)
    case Judge =>
      var o := OutcomeOf(call.s, call.phase.t);
      call.(phase := if Again(call, o) then Checking else Done(o))
    case Wake => call.(phase := Starting, delays := call.delays + [Delay(|call.delays|)])
  }

  predicate Possible(call: Call, moves: seq<Move>)
    decreases |moves|
  {
    moves == [] || (CanMove(call, moves[0]) && Possible(Moved(call, moves[0]), moves[1..]))
  }

  function Ran(call: Call, moves: seq<Move>): Call
    requires Possible(call, moves)
    decreases |moves|
  {
    if moves == [] then call else Ran(Moved(call, moves[0]), moves[1..])
  }

  // --- The call's run is a run of the manager ---

  function Steps(moves: seq<Move>): seq<Step> {
    if moves == [] then []
    else (if moves[0].Other? || moves[0].Own? then [moves[0].step] else []) + Steps(moves[1..])
  }

  /** So everything that holds of all runs of the manager holds here. */
  lemma {:induction false} IsRun(call: Call, moves: seq<Move>)
    requires Possible(call, moves)
    ensures Feasible(call.s, Steps(moves)) && Run(call.s, Steps(moves)) == Ran(call, moves).s
    decreases |moves|
  {
    if moves != [] {
      var rest := Steps(moves[1..]);
      IsRun(Moved(call, moves[0]), moves[1..]);
      if moves[0].Other? || moves[0].Own? {
        assert ([moves[0].step] + rest)[0] == moves[0].step && ([moves[0].step] + rest)[1..] == rest;
      } else {
        assert [] + rest == rest;
      }
    }
  }

  // --- A caller that has returned ---

  /** Callers stay; one that has returned keeps its outcome and its inbox. */
  predicate Settled(s: State, u: State) {
    forall t | t in s.callers :: t in u.callers && u.callers[t].kind == s.callers[t].kind
      && (s.callers[t].progress.Returned? ==>
            u.callers[t] == s.callers[t] && (t in s.inbox ==> t in u.inbox && u.inbox[t] == s.inbox[t]))
  }

  /** What an execute caller returns with is what its inbox holds. */
  predicate FromInbox(s: State, t: nat) {
    IsExecute(s, t) && HasReturned(s, t) && (OutcomeOf(s, t).Success? || OutcomeOf(s, t).Failed?) ==>
      t in s.inbox && s.inbox[t] != [] && Verdict(s.inbox[t][0]) == OutcomeOf(s, t)
  }

  predicate AllFromInbox(s: State) { forall t | t in s.callers :: FromInbox(s, t) }

  /** A step that changes at most the progress of caller `t`, which had not returned. */
  lemma OneCaller(s: State, u: State, t: nat)
    requires u.inbox == s.inbox && u.callers.Keys == s.callers.Keys && t in s.callers
    requires !s.callers[t].progress.Returned? && u.callers[t].kind == s.callers[t].kind
    requires forall x | x in s.callers && x != t :: u.callers[x] == s.callers[x]
    requires AllFromInbox(s) && FromInbox(u, t)
    ensures Settled(s, u) && AllFromInbox(u)
  {
    forall x | x in u.callers ensures FromInbox(u, x) { if x != t { assert FromInbox(s, x); } }
  }

  lemma NoCaller(s: State, u: State)
    requires u.inbox == s.inbox && u.callers == s.callers && AllFromInbox(s)
    ensures Settled(s, u) && AllFromInbox(u)
  {
    forall x | x in u.callers ensures FromInbox(u, x) { assert FromInbox(s, x); }
  }

  /** A step that adds caller `t`, with an empty inbox if it waits. */
  lemma NewCaller(s: State, u: State, t: nat, c: Caller)
    requires t !in s.callers && u.callers == s.callers[t := c] && AllFromInbox(s)
    requires c.progress == Registered || c.progress == Returned(NotFound)
    requires u.inbox == s.inbox || u.inbox == s.inbox[t := []]
    ensures Settled(s, u) && AllFromInbox(u)
  {
    forall x | x in u.callers ensures FromInbox(u, x) { if x != t { assert FromInbox(s, x); } }
  }

  lemma RegisterSettles(s: State, t: nat, kind: Kind, id: CmdId, name: Name)
    requires InRange(s) && t !in s.callers && AllFromInbox(s)
    ensures var u := RegisterStep(s, t, kind, id, name); Settled(s, u) && AllFromInbox(u)
  {
    var u := RegisterStep(s, t, kind, id, name);
    NewCaller(s, u, t, u.callers[t]);
  }

  lemma SubmitSettles(s: State, t: nat)
    requires Enabled(s, Submit(t)) && AllFromInbox(s)
    ensures Settled(s, SubmitStep(s, t)) && AllFromInbox(SubmitStep(s, t))
  {
    OneCaller(s, SubmitStep(s, t), t);
  }

  lemma ReturnSettles(s: State, t: nat, outcome: Outcome)
    requires InRange(s) && IsPolling(s, t) && AllFromInbox(s)
    requires outcome.Success? || outcome.Failed? ==> s.inbox[t] != [] && Verdict(s.inbox[t][0]) == outcome
    ensures Settled(s, ReturnStep(s, t, outcome)) && AllFromInbox(ReturnStep(s, t, outcome))
  {
    OneCaller(s, ReturnStep(s, t, outcome), t);
  }

  lemma RespondSettles(s: State, n: nat, exitCode: int, stdout: string, stderr: string)
    requires n < |s.incs| && s.incs[n].processor.Working? && AllFromInbox(s)
    ensures var u := RespondStep(s, n, exitCode, stdout, stderr); Settled(s, u) && AllFromInbox(u)
  {
    var u := RespondStep(s, n, exitCode, stdout, stderr);
    assert u.callers == s.callers;
    forall x | x in u.callers ensures FromInbox(u, x) { assert FromInbox(s, x); }
  }

  lemma DropSettles(s: State, name: Name)
    requires InRange(s)
    ensures DropInstance(s, name).callers == s.callers && DropInstance(s, name).inbox == s.inbox
  {
  }

  lemma StepSettles(s: State, step: Step)
    requires Enabled(s, step) && AllFromInbox(s)
    ensures Settled(s, Apply(s, step)) && AllFromInbox(Apply(s, step))
  {
    match step {
      case Register(t, kind, id, name) => RegisterSettles(s, t, kind, id, name);
      case Submit(t) => SubmitSettles(s, t);
      case Receive(t) => ReturnSettles(s, t, Verdict(s.inbox[t][0]));
      case Timeout(t) => ReturnSettles(s, t, TimedOut);
      case SeeDisconnected(t) => ReturnSettles(s, t, Disconnected);
      case Respond(n, exitCode, stdout, stderr) => RespondSettles(s, n, exitCode, stdout, stderr);
      case _ => OthersSettle(s, step);
    }
  }

  predicate NoCallers(step: Step) {
    VmTheorems.OnCreation(step) || step.BeginShutdown? || step.Health? || step.TakeCommand? || step.CloseReceiver?
  }

  lemma OthersSettle(s: State, step: Step)
    requires Enabled(s, step) && NoCallers(step) && AllFromInbox(s)
    ensures Settled(s, Apply(s, step)) && AllFromInbox(Apply(s, step))
  {
    match step {
      case Install(c) => DropSettles(s, s.creations[c].name);
      case Destroy(name, _) => DropSettles(s, name);
      case _ =>
    }
    NoCaller(s, Apply(s, step));
  }

  lemma {:induction false} RunFromInbox(s: State, steps: seq<Step>)
    requires Feasible(s, steps) && AllFromInbox(s)
    ensures AllFromInbox(Run(s, steps))
    decreases |steps|
  {
    if steps != [] {
      StepSettles(s, steps[0]);
      RunFromInbox(Apply(s, steps[0]), steps[1..]);
    }
  }

  // --- What a call keeps ---

  /** Attempt `k` has been made by a caller of its own, and is over unless it is the one under way. */
  predicate AttemptOk(call: Call, k: nat)
    requires k < |call.tried|
  {
    var t := call.tried[k];
    && IsExecute(call.s, t)
    && (k < |call.tried| - 1 || !call.phase.Attempting? ==> HasReturned(call.s, t))
    && (k < |call.delays| ==> HasReturned(call.s, t) && DisconnectClass(OutcomeOf(call.s, t), call.name))
  }

  /** The number of attempts goes with the number of waits. */
  predicate CountsOk(call: Call) {
    && |call.tried| == |call.delays| + (if call.phase.Starting? then 0 else 1)
    && |call.delays| <= call.limit
    && (forall k | 0 <= k < |call.delays| :: call.delays[k] == Delay(k))
    && Sum(call.delays) == 1000 * (Pow2(|call.delays|) - 1)
    && (forall j, k | 0 <= j < k < |call.tried| :: call.tried[j] != call.tried[k])
  }

  predicate Reconnecting(phase: Phase) {
    || phase.Checking? || phase.Destroying? || phase.Allocating?
    || phase.Launching? || phase.Installing? || phase.Sleeping?
  }

  /** The latest attempt, by where the call is. */
  predicate LatestOk(call: Call) {
    |call.tried| > 0 ==>
      var t := call.tried[|call.tried| - 1];
      && (call.phase.Attempting? ==> call.phase.t == t)
      && (Reconnecting(call.phase) ==>
            HasReturned(call.s, t) && DisconnectClass(OutcomeOf(call.s, t), call.name) && |call.delays| < call.limit)
      && (call.phase.Done? ==>
            HasReturned(call.s, t) && OutcomeOf(call.s, t) == call.phase.outcome
            && (DisconnectClass(call.phase.outcome, call.name) ==> |call.delays| == call.limit))
  }

  predicate CallOk(call: Call) {
    && AllFromInbox(call.s) && CountsOk(call) && LatestOk(call)
    && forall k | 0 <= k < |call.tried| :: AttemptOk(call, k)
  }

  /** A caller that has returned is found again as it was. */
  lemma OutcomeStays(s: State, u: State, t: nat)
    requires Settled(s, u) && IsExecute(s, t)
    ensures IsExecute(u, t) && (HasReturned(s, t) ==> HasReturned(u, t) && OutcomeOf(u, t) == OutcomeOf(s, t))
  {
  }

  lemma AttemptStays(call: Call, u: State, k: nat)
    requires Settled(call.s, u) && k < |call.tried| && AttemptOk(call, k)
    ensures AttemptOk(call.(s := u), k)
  {
    OutcomeStays(call.s, u, call.tried[k]);
  }

  lemma LatestStays(call: Call, u: State)
    requires Settled(call.s, u) && LatestOk(call) && call.tried != [] && AttemptOk(call, |call.tried| - 1)
    ensures LatestOk(call.(s := u))
  {
    OutcomeStays(call.s, u, call.tried[|call.tried| - 1]);
  }

  /** What other threads do leaves the call where it is. */
  lemma SettledKeeps(call: Call, u: State)
    requires CallOk(call) && Settled(call.s, u) && AllFromInbox(u)
    ensures CallOk(call.(s := u))
  {
    forall k | 0 <= k < |call.tried| ensures AttemptOk(call.(s := u), k) { AttemptStays(call, u, k); }
    if call.tried != [] { LatestStays(call, u); }
  }

  /** A new attempt is that of a caller never seen before. */
  lemma AttemptKeeps(call: Call, step: Step)
    requires CallOk(call) && call.phase.Starting? && CanMove(call, Own(step))
    ensures CallOk(Moved(call, Own(step)))
  {
    StepSettles(call.s, step);
    SettledKeeps(call, Apply(call.s, step));
    forall k | 0 <= k < |call.tried| ensures call.tried[k] in call.s.callers { assert AttemptOk(call, k); }
    AttemptAdded(call.(s := Apply(call.s, step)), step.t, call.s);
  }

  lemma AttemptAdded(call: Call, t: nat, before: State)
    requires CallOk(call) && call.phase.Starting? && IsExecute(call.s, t)
    requires t !in before.callers && forall k | 0 <= k < |call.tried| :: call.tried[k] in before.callers
    ensures CallOk(call.(phase := Attempting(t), tried := call.tried + [t]))
  {
    var next := call.(phase := Attempting(t), tried := call.tried + [t]);
    forall k | 0 <= k < |next.tried| ensures AttemptOk(next, k) { if k < |call.tried| { assert AttemptOk(call, k); } }
  }

  lemma OwnKeeps(call: Call, step: Step)
    requires CallOk(call) && !call.phase.Starting? && CanMove(call, Own(step))
    ensures CallOk(Moved(call, Own(step)))
  {
    StepSettles(call.s, step);
    SettledKeeps(call, Apply(call.s, step));
    var mid, next := call.(s := Apply(call.s, step)), Moved(call, Own(step));
    forall k | 0 <= k < |next.tried| ensures AttemptOk(next, k) { assert AttemptOk(mid, k); }
  }

  lemma JudgeKeeps(call: Call)
    requires CallOk(call) && CanMove(call, Judge)
    ensures CallOk(Moved(call, Judge))
  {
    var next := Moved(call, Judge);
    forall k | 0 <= k < |next.tried| ensures AttemptOk(next, k) { assert AttemptOk(call, k); }
  }

  lemma WakeCounts(call: Call)
    requires CountsOk(call) && call.phase.Sleeping? && |call.delays| < call.limit
    ensures CountsOk(Moved(call, Wake))
  {
    SumSnoc(call.delays, Delay(|call.delays|));
  }

  lemma WakeKeeps(call: Call)
    requires CallOk(call) && CanMove(call, Wake)
    ensures CallOk(Moved(call, Wake))
  {
    WakeCounts(call);
    var next := Moved(call, Wake);
    forall k | 0 <= k < |next.tried| ensures AttemptOk(next, k) { assert AttemptOk(call, k); }
  }

  lemma {:induction false} SumSnoc(delays: seq<nat>, d: nat)
    ensures Sum(delays + [d]) == Sum(delays) + d
  {
    assert (delays + [d])[..|delays|] == delays;
  }

  lemma MoveKeeps(call: Call, move: Move)
    requires CallOk(call) && CanMove(call, move)
    ensures CallOk(Moved(call, move))
  {
    match move
    case Other(step) => StepSettles(call.s, step); SettledKeeps(call, Apply(call.s, step));
    case Own(step) => if call.phase.Starting? { AttemptKeeps(call, step); } else { OwnKeeps(call, step); }
    case Judge => JudgeKeeps(call);
    case Wake => WakeKeeps(call);
  }

  lemma {:induction false} CallKeeps(call: Call, moves: seq<Move>)
    requires CallOk(call) && Possible(call, moves)
    ensures CallOk(Ran(call, moves))
    ensures Ran(call, moves).name == call.name && Ran(call, moves).limit == call.limit
    decreases |moves|
  {
    if moves != [] {
      MoveKeeps(call, moves[0]);
      CallKeeps(Moved(call, moves[0]), moves[1..]);
    }
  }

  // --- What holds for every call ---

  /** A call that begins in a reachable state. */
  predicate Reached(image: bool, before: seq<Step>, name: Name, limit: nat, moves: seq<Move>) {
    Feasible(Init(image), before) && Possible(Begin(Run(Init(image), before), name, limit), moves)
  }

  function Reach(image: bool, before: seq<Step>, name: Name, limit: nat, moves: seq<Move>): Call
    requires Reached(image, before, name, limit, moves)
  {
    Ran(Begin(Run(Init(image), before), name, limit), moves)
  }

  lemma {:induction false} ReachKeeps(image: bool, before: seq<Step>, name: Name, limit: nat, moves: seq<Move>)
    requires Reached(image, before, name, limit, moves)
    ensures var call := Reach(image, before, name, limit, moves);
      CallOk(call) && Inv(call.s) && call.name == name && call.limit == limit
  {
    var s := Run(Init(image), before);
    Always(image, before);
    RunFromInbox(Init(image), before);
    CallKeeps(Begin(s, name, limit), moves);
    IsRun(Begin(s, name, limit), moves);
    RunKeeps(s, Steps(moves));
  }

  /**
    In every interleaving a call makes at most `limit` + 1 attempts, each by a caller of its own; all but the
    last one failed in a way that is retried, the waits between them double, and the call ends with the
    outcome of its last attempt, which would be retried only if no retry is left.
   */
  lemma {:induction false} AttemptsExactly(image: bool, before: seq<Step>, name: Name, limit: nat, moves: seq<Move>)
    requires Reached(image, before, name, limit, moves)
    ensures var call := Reach(image, before, name, limit, moves);
      var n := |call.delays|;
      && n <= |call.tried| <= n + 1 <= limit + 1
      && (forall j, k | 0 <= j < k < |call.tried| :: call.tried[j] != call.tried[k])
      && (forall k | 0 <= k < n ::
            && HasReturned(call.s, call.tried[k]) && DisconnectClass(OutcomeOf(call.s, call.tried[k]), name)
            && call.delays[k] == Delay(k))
      && Sum(call.delays) == 1000 * (Pow2(n) - 1)
      && (call.phase.Done? ==>
            && |call.tried| == n + 1 && HasReturned(call.s, call.tried[n])
            && OutcomeOf(call.s, call.tried[n]) == call.phase.outcome
            && (DisconnectClass(call.phase.outcome, name) ==> n == limit))
  {
    ReachKeeps(image, before, name, limit, moves);
    var call := Reach(image, before, name, limit, moves);
    forall k | 0 <= k < |call.delays|
      ensures HasReturned(call.s, call.tried[k]) && DisconnectClass(OutcomeOf(call.s, call.tried[k]), name)
    {
      assert AttemptOk(call, k);
    }
  }

  /** A result delivered to caller `t`: of its own command, run where it registered. */
  predicate OwnDelivery(s: State, t: nat, d: Delivery) {
    t in s.callers && d.to == t && d.cmd == Command(Cmd(t), Some(t)) && d.on == s.callers[t].inc
  }

  /**
    What a call returns is the one result of its last attempt's own command, run by the incarnation that
    attempt registered with: no earlier attempt's result is ever taken for it.
   */
  lemma {:induction false} ResultIsLastAttempts(image: bool, before: seq<Step>, name: Name, limit: nat,
                                                moves: seq<Move>)
    requires Reached(image, before, name, limit, moves)
    requires var p := Reach(image, before, name, limit, moves).phase;
      p.Done? && (p.outcome.Success? || p.outcome.Failed?)
    ensures var call := Reach(image, before, name, limit, moves);
      var (s, n) := (call.s, |call.tried|);
      && n > 0 && call.tried[n - 1] in s.inbox
      && var results := s.inbox[call.tried[n - 1]];
         && |results| == 1 && results[0].id == Cmd(call.tried[n - 1]) && Verdict(results[0]) == call.phase.outcome
         && exists d :: d in s.delivered && OwnDelivery(s, call.tried[n - 1], d)
  {
    ReachKeeps(image, before, name, limit, moves);
    var call := Reach(image, before, name, limit, moves);
    var t := call.tried[|call.tried| - 1];
    assert AttemptOk(call, |call.tried| - 1) && FromInbox(call.s, t);
    ResultDelivered(call.s, t);
  }

  lemma ResultDelivered(s: State, t: nat)
    requires Inv(s) && IsExecute(s, t) && t in s.inbox && s.inbox[t] != []
    ensures |s.inbox[t]| == 1 && s.inbox[t][0].id == Cmd(t)
    ensures exists d :: d in s.delivered && OwnDelivery(s, t, d)
  {
    assert CallerOk(s, t, s.callers[t]) && InboxOk(s, t, s.inbox[t]);
    var d :| d in s.delivered && d.to == t;
    assert DeliveryOk(s, d);
    assert OwnDelivery(s, t, d);
  }

  /** Texts that only look like those of a lost VM. */
  predicate LooksAlike(o: Outcome, name: Name) {
    || (o.Failed? && HasPhrase(o.stderr))
    || (o.NotFound? && (HasPhrase(name) || "disconnected" <= name))
  }

  /** Look-alikes aside, an attempt that was retried had lost its VM, or the manager was shutting down. */
  lemma {:induction false} RetriedAttemptsLost(image: bool, before: seq<Step>, name: Name, limit: nat,
                                               moves: seq<Move>, k: nat)
    requires Reached(image, before, name, limit, moves)
    requires var call := Reach(image, before, name, limit, moves);
      && k < |call.delays| && k < |call.tried| && HasReturned(call.s, call.tried[k])
      && !LooksAlike(OutcomeOf(call.s, call.tried[k]), name)
    ensures var call := Reach(image, before, name, limit, moves);
      call.s.shutdown || !LiveInc(call.s, call.s.callers[call.tried[k]].inc)
  {
    ReachKeeps(image, before, name, limit, moves);
    var call := Reach(image, before, name, limit, moves);
    var t := call.tried[k];
    assert AttemptOk(call, k) && CallerOk(call.s, t, call.s.callers[t]);
    RetriedExactly(OutcomeOf(call.s, t), name);
  }
}
