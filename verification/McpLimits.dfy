/** Runs that show why the conditions of the serial theorem are needed. */
module McpLimits {
  import opened Prelude
  import opened McpFrame
  import opened McpProtocol
  import opened McpSerial

  const TOOLS: map<string, AgentId> := map["tool" := "agent"]

  // --- Building runs step by step ---

  predicate WellBehaved(steps: seq<Step>) {
    forall step | step in steps :: Clean(step) && (step.Activate? ==> step.activation.ok)
  }

  /** What a run that ends in `s` looks like. */
  predicate Reaches(steps: seq<Step>, s: State) {
    Feasible(Init(TOOLS), steps) && AllClean(steps) && Run(Init(TOOLS), steps) == s
  }

  /** The agent of `s`, its stored id and the channels still open, after a run that ends in `s`. */
  predicate At(steps: seq<Step>, s: State, ag: Agent, stored: Option<ReqId>, open: set<ReqId>) {
    && Reaches(steps, s) && s.registry == TOOLS && s.agents == map["agent" := ag] && open == s.channels
    && (if stored.None? then "agent" !in s.ids else "agent" in s.ids && s.ids["agent"] == stored.value)
  }

  /** Properties of runs that `Then` carries along. */
  predicate Kept(steps: seq<Step>, longer: seq<Step>)
    requires Feasible(Init(TOOLS), steps) && Feasible(Init(TOOLS), longer)
  {
    && (WellBehaved(steps) ==> WellBehaved(longer))
    && (SeriallyUsed(Init(TOOLS), steps) ==> SeriallyUsed(Init(TOOLS), longer))
  }

  /** One more step of a run. */
  lemma {:induction false} Extend(s: State, steps: seq<Step>, step: Step)
    requires Feasible(s, steps) && Enabled(Run(s, steps), step)
    ensures Feasible(s, steps + [step]) && Run(s, steps + [step]) == Apply(Run(s, steps), step)
    ensures SeriallyUsed(s, steps) && Serial(Run(s, steps), step) ==> SeriallyUsed(s, steps + [step])
    decreases |steps|
  {
    if steps == [] {
      assert steps + [step] == [step];
      assert [step][1..] == [];
    } else {
      assert (steps + [step])[1..] == steps[1..] + [step];
      Extend(Apply(s, steps[0]), steps[1..], step);
    }
  }

  lemma Then(steps: seq<Step>, s: State, step: Step) returns (longer: seq<Step>, t: State)
    requires Reaches(steps, s) && Enabled(s, step) && Clean(step)
    ensures t == Apply(s, step) && Reaches(longer, t)
    ensures !step.Activate? || step.activation.ok ==> WellBehaved(steps) ==> WellBehaved(longer)
    ensures Serial(s, step) && SeriallyUsed(Init(TOOLS), steps) ==> SeriallyUsed(Init(TOOLS), longer)
  {
    Extend(Init(TOOLS), steps, step);
    longer, t := steps + [step], Apply(s, step);
  }

  function RunMessage(r: ReqId): Message { Message(Some(Frame(r, "{}")), "Run", r) }

  lemma Start() returns (steps: seq<Step>, s: State)
    ensures At(steps, s, NewAgent, None, {}) && s.handlers == map[] && s.sent == []
    ensures WellBehaved(steps) && SeriallyUsed(Init(TOOLS), steps)
  {
    steps, s := [], Init(TOOLS);
    assert TOOLS["tool"] == "agent";
    assert "agent" in TOOLS.Values && forall v | v in TOOLS.Values :: v == "agent";
  }

  /** A request is submitted and its frame sent. */
  lemma Request(steps: seq<Step>, s: State, ag: Agent, stored: Option<ReqId>, open: set<ReqId>, r: ReqId)
    returns (longer: seq<Step>, t: State)
    requires At(steps, s, ag, stored, open) && r !in s.handlers && ':' !in r && !ag.phase.Stopped?
    ensures At(longer, t, ag.(queue := ag.queue + [RunMessage(r)]), stored, open + {r})
    ensures t.handlers == s.handlers[r := Handler("agent", Waiting)] && t.sent == s.sent
    ensures WellBehaved(steps) ==> WellBehaved(longer)
    ensures Serial(s, Submit(r, "tool", "{}")) && SeriallyUsed(Init(TOOLS), steps) ==> SeriallyUsed(Init(TOOLS), longer)
  {
    var u;
    longer, u := Then(steps, s, Submit(r, "tool", "{}"));
    longer, t := Then(longer, u, Send(r));
  }

  /** The agent takes the frame at the head of its queue up to the guest call. */
  lemma Take(steps: seq<Step>, s: State, ag: Agent, stored: Option<ReqId>, open: set<ReqId>, r: ReqId)
    returns (longer: seq<Step>, t: State)
    requires At(steps, s, ag, stored, open) && ag.phase.Idle? && ':' !in r && ag.queue != []
      && ag.queue[0] == RunMessage(r)
    ensures At(longer, t, Took(ag, r), Some(r), open)
    ensures t.handlers == s.handlers && t.sent == s.sent && t.inbox == s.inbox && Kept(steps, longer)
  {
    var u;
    longer, u := Open(steps, s, ag, stored, open, r);
    longer, t := Then(longer, u, Store("agent"));
  }

  function Opening(ag: Agent, r: ReqId): Agent
    requires ag.queue != []
  {
    ag.(queue := ag.queue[1..], requestId := Some(r), last := Some(r), phase := Storing(r, RunMessage(r)))
  }

  lemma OpenStep(s: State, ag: Agent, r: ReqId)
    requires s.agents == map["agent" := ag] && ag.phase.Idle? && ':' !in r && ag.queue != []
      && ag.queue[0] == RunMessage(r)
    ensures Apply(s, Dequeue("agent")) == s.(agents := map["agent" := Opening(ag, r)], taken := s.taken + {r})
  {
    FrameRoundTrip(r, "{}");
  }

  lemma Open(steps: seq<Step>, s: State, ag: Agent, stored: Option<ReqId>, open: set<ReqId>, r: ReqId)
    returns (longer: seq<Step>, t: State)
    requires At(steps, s, ag, stored, open) && ag.phase.Idle? && ':' !in r && ag.queue != []
      && ag.queue[0] == RunMessage(r)
    ensures At(longer, t, Opening(ag, r), stored, open)
    ensures t.handlers == s.handlers && t.sent == s.sent && t.inbox == s.inbox && Kept(steps, longer)
  {
    OpenStep(s, ag, r);
    longer, t := Then(steps, s, Dequeue("agent"));
  }

  /** The guest is called, starts a worker or does nothing, and returns. */
  lemma Call(steps: seq<Step>, s: State, ag: Agent, stored: Option<ReqId>, open: set<ReqId>, act: Activation, w: Worker)
    returns (longer: seq<Step>, t: State)
    requires At(steps, s, ag, stored, open) && ag.phase.Calling? && ag.phase.msg.origin == w.origin
    requires act.ok && (act.call.NoCall? || act.call == Spawn(w.callback))
    ensures At(longer, t, Called(ag, act, w), stored, open)
    ensures t.handlers == s.handlers && t.sent == s.sent && t.inbox == s.inbox && Kept(steps, longer)
  {
    var u;
    longer, u := Then(steps, s, Activate("agent", act));
    longer, t := Then(longer, u, Finish("agent"));
  }

  function Completed(ag: Agent, w: Worker): Agent {
    ag.(queue := [Message(Some("result"), w.callback, w.origin)], workers := ag.workers - multiset{w})
  }

  lemma CompleteWorker(steps: seq<Step>, s: State, ag: Agent, stored: Option<ReqId>, open: set<ReqId>, w: Worker)
    returns (longer: seq<Step>, t: State)
    requires At(steps, s, ag, stored, open) && ag.phase.Idle? && ag.queue == [] && w in ag.workers
    ensures At(longer, t, Completed(ag, w), stored, open) && t.sent == s.sent && Kept(steps, longer)
  {
    longer, t := Then(steps, s, Complete("agent", w, "result"));
    assert ag.queue + Completed(ag, w).queue == Completed(ag, w).queue;
  }

  /** The worker of `w` responds, and the agent takes the response up to the guest call. */
  lemma Respond(steps: seq<Step>, s: State, ag: Agent, stored: Option<ReqId>, open: set<ReqId>, w: Worker)
    returns (longer: seq<Step>, t: State)
    requires At(steps, s, ag, stored, open) && ag.phase.Idle? && ag.queue == [] && w in ag.workers
    ensures At(longer, t, Responded(ag, w), stored, open) && t.sent == s.sent && Kept(steps, longer)
  {
    assert ParseFrame("result").None?;
    var u;
    longer, u := CompleteWorker(steps, s, ag, stored, open, w);
    assert Completed(ag, w).queue[1..] == [];
    longer, t := Then(longer, u, Dequeue("agent"));
  }

  function Responded(ag: Agent, w: Worker): Agent {
    ag.(queue := [], phase := Calling(Message(Some("result"), w.callback, w.origin)),
        workers := ag.workers - multiset{w})
  }

  /** The guest passes the response on as its final result. */
  lemma Conclude(steps: seq<Step>, s: State, ag: Agent, r: ReqId, open: set<ReqId>)
    returns (longer: seq<Step>, t: State)
    requires At(steps, s, ag, Some(r), open) && ag.phase.Calling? && r in open && ag.last == Some(r)
    ensures t.sent == s.sent + [Answer(r, "agent", ag.phase.msg.origin, Some(r), "result")] && Reaches(longer, t)
    ensures Kept(steps, longer)
  {
    var u;
    longer, u := Then(steps, s, Activate("agent", Activation(FinalResult("result"), true)));
    longer, t := Then(longer, u, Deliver("agent"));
  }

  predicate Misrouted(x: Answer) { x.req != x.origin }

  const STARTS_WORKER := Activation(Spawn("callback"), true)
  const DOES_NOTHING := Activation(NoCall, true)

  /** The agent after `Request`, `Take` and `Call`. */
  function Queued(ag: Agent, r: ReqId): Agent { ag.(queue := ag.queue + [RunMessage(r)]) }
  function Took(ag: Agent, r: ReqId): Agent
    requires ag.queue != []
  {
    ag.(queue := ag.queue[1..], requestId := Some(r), last := Some(r), phase := Calling(RunMessage(r)))
  }
  function Called(ag: Agent, act: Activation, w: Worker): Agent {
    ag.(phase := Idle, workers := if act.call.Spawn? then ag.workers + multiset{w} else ag.workers)
  }

  /** The agent takes its next frame and calls the guest for it. */
  lemma TakeAndCall(steps: seq<Step>, s: State, ag: Agent, stored: Option<ReqId>, open: set<ReqId>, act: Activation,
                    w: Worker)
    returns (longer: seq<Step>, t: State)
    requires At(steps, s, ag, stored, open) && ag.phase.Idle? && ag.queue != [] && ag.queue[0] == RunMessage(w.origin)
    requires ':' !in w.origin && act.ok && (act.call.NoCall? || act.call == Spawn(w.callback))
    ensures At(longer, t, Called(Took(ag, w.origin), act, w), Some(w.origin), open) && Kept(steps, longer)
    ensures t.handlers == s.handlers && t.sent == s.sent && t.inbox == s.inbox
  {
    longer, t := Take(steps, s, ag, stored, open, w.origin);
    longer, t := Call(longer, t, Took(ag, w.origin), Some(w.origin), open, act, w);
  }

  const BOTH: set<ReqId> := {"1", "2"}
  const WORKER1 := Worker("callback", "1")
  const WORKER2 := Worker("callback", "2")

  lemma TwoRequests() returns (steps: seq<Step>, s: State)
    ensures At(steps, s, Queued(Queued(NewAgent, "1"), "2"), None, BOTH)
    ensures WellBehaved(steps) && s.sent == []
  {
    steps, s := Start();
    steps, s := Request(steps, s, NewAgent, None, {}, "1");
    steps, s := Request(steps, s, Queued(NewAgent, "1"), None, {} + {"1"}, "2");
    assert {} + {"1"} + {"2"} == BOTH;
  }

  lemma FirstStartsWorker() returns (steps: seq<Step>, s: State)
    ensures At(steps, s, Called(Took(Queued(Queued(NewAgent, "1"), "2"), "1"), STARTS_WORKER, WORKER1), Some("1"), BOTH)
    ensures WellBehaved(steps) && s.sent == []
  {
    steps, s := TwoRequests();
    var a := Queued(Queued(NewAgent, "1"), "2");
    assert a.queue == [RunMessage("1"), RunMessage("2")];
    steps, s := TakeAndCall(steps, s, a, None, BOTH, STARTS_WORKER, WORKER1);
  }

  /** Overlapping calls: the answer of the first request's worker goes to the second request. */
  lemma OverlapMisroutes() returns (steps: seq<Step>)
    ensures Feasible(Init(TOOLS), steps) && WellBehaved(steps)
    ensures exists x :: x in Run(Init(TOOLS), steps).sent && Misrouted(x)
  {
    var s;
    steps, s := FirstStartsWorker();
    var a := Called(Took(Queued(Queued(NewAgent, "1"), "2"), "1"), STARTS_WORKER, WORKER1);
    assert a.queue == [RunMessage("2")] && WORKER1 in a.workers;
    steps, s := TakeAndCall(steps, s, a, Some("1"), BOTH, DOES_NOTHING, WORKER2);
    a := Called(Took(a, "2"), DOES_NOTHING, WORKER2);
    steps, s := Respond(steps, s, a, Some("2"), BOTH, WORKER1);
    steps, s := Conclude(steps, s, Responded(a, WORKER1), "2", BOTH);
    assert Answer("2", "agent", "1", Some("2"), "result") in s.sent;
  }

  // --- A failing activation that has started a worker ---

  const FAILS_WITH_WORKER := Activation(Spawn("callback"), false)

  function Failed(ag: Agent, w: Worker): Agent {
    ag.(phase := Idle, requestId := None, workers := ag.workers + multiset{w})
  }

  /** The first request is about to be run. */
  lemma FirstCalled() returns (steps: seq<Step>, s: State)
    ensures At(steps, s, Took(Queued(NewAgent, "1"), "1"), Some("1"), {"1"})
    ensures SeriallyUsed(Init(TOOLS), steps)
    ensures s.handlers == map["1" := Handler("agent", Waiting)] && s.sent == []
  {
    steps, s := Start();
    steps, s := Request(steps, s, NewAgent, None, {}, "1");
    assert {} + {"1"} == {"1"} && Queued(NewAgent, "1").queue == [RunMessage("1")];
    steps, s := Take(steps, s, Queued(NewAgent, "1"), None, {"1"}, "1");
  }

  /** Its `Run` starts a worker and fails. */
  lemma FirstFails() returns (steps: seq<Step>, s: State)
    ensures At(steps, s, Failing(Took(Queued(NewAgent, "1"), "1"), WORKER1), Some("1"), {"1"})
    ensures SeriallyUsed(Init(TOOLS), steps)
    ensures s.handlers == map["1" := Handler("agent", Waiting)]
  {
    steps, s := FirstCalled();
    steps, s := Then(steps, s, Activate("agent", FAILS_WITH_WORKER));
  }

  function Failing(ag: Agent, w: Worker): Agent {
    ag.(phase := Returned(false, w.origin), workers := ag.workers + multiset{w})
  }

  /** The error answers the request, the worker stays. */
  lemma ErrorAnswered() returns (steps: seq<Step>, s: State)
    ensures At(steps, s, Failed(Took(Queued(NewAgent, "1"), "1"), WORKER1), None, {})
    ensures SeriallyUsed(Init(TOOLS), steps)
    ensures s.handlers == map["1" := Handler("agent", Waiting)] && "1" in s.inbox
  {
    steps, s := FirstFails();
    steps, s := Then(steps, s, Finish("agent"));
    steps, s := Then(steps, s, ClearId("agent"));
  }

  /** The handler of the first request returns Ok with that error. */
  lemma FirstReturned() returns (steps: seq<Step>, s: State)
    ensures At(steps, s, Failed(Took(Queued(NewAgent, "1"), "1"), WORKER1), None, {})
    ensures SeriallyUsed(Init(TOOLS), steps)
    ensures s.handlers.Keys == {"1"} && s.handlers["1"].status.Done?
  {
    steps, s := ErrorAnswered();
    steps, s := Then(steps, s, Receive("1"));
    steps, s := Then(steps, s, CleanChannel("1"));
    steps, s := Then(steps, s, CleanIds("1"));
  }

  /** After a failing `Run` has left its worker behind, the next request is taken and its guest does nothing. */
  lemma NextTaken() returns (steps: seq<Step>, s: State)
    ensures At(steps, s, Called(Took(Queued(Failed(Took(Queued(NewAgent, "1"), "1"), WORKER1), "2"), "2"), DOES_NOTHING,
                                WORKER2), Some("2"), {} + {"2"})
    ensures AllClean(steps) && SeriallyUsed(Init(TOOLS), steps)
  {
    steps, s := FirstReturned();
    var a := Failed(Took(Queued(NewAgent, "1"), "1"), WORKER1);
    steps, s := Request(steps, s, a, None, {}, "2");
    a := Queued(a, "2");
    assert a.queue == [RunMessage("2")];
    steps, s := TakeAndCall(steps, s, a, None, {} + {"2"}, DOES_NOTHING, WORKER2);
  }

  /** Serial use alone is not enough: the left-over worker's response answers the next request. */
  lemma FailingRunMisroutes() returns (steps: seq<Step>)
    ensures Feasible(Init(TOOLS), steps) && AllClean(steps) && SeriallyUsed(Init(TOOLS), steps)
    ensures exists x :: x in Run(Init(TOOLS), steps).sent && Misrouted(x)
  {
    var s;
    steps, s := NextTaken();
    var a := Called(Took(Queued(Failed(Took(Queued(NewAgent, "1"), "1"), WORKER1), "2"), "2"), DOES_NOTHING, WORKER2);
    steps, s := Respond(steps, s, a, Some("2"), {} + {"2"}, WORKER1);
    steps, s := Conclude(steps, s, Responded(a, WORKER1), "2", {} + {"2"});
    assert Answer("2", "agent", "1", Some("2"), "result") in s.sent;
  }

  // --- A response that looks like a frame ---

  /** A request's worker is running and the agent waits. */
  lemma WorkerRuns() returns (steps: seq<Step>, s: State)
    ensures At(steps, s, Called(Took(Queued(NewAgent, "1"), "1"), STARTS_WORKER, WORKER1), Some("1"), {"1"})
    ensures SeriallyUsed(Init(TOOLS), steps) && s.handlers.Keys == {"1"}
  {
    steps, s := FirstCalled();
    steps, s := Call(steps, s, Took(Queued(NewAgent, "1"), "1"), Some("1"), {"1"}, STARTS_WORKER, WORKER1);
  }

  /** A run without `Clean`. */
  lemma ThenAny(steps: seq<Step>, s: State, step: Step) returns (longer: seq<Step>, t: State)
    requires Feasible(Init(TOOLS), steps) && Run(Init(TOOLS), steps) == s && Enabled(s, step)
    ensures t == Apply(s, step) && Feasible(Init(TOOLS), longer) && Run(Init(TOOLS), longer) == t
  {
    Extend(Init(TOOLS), steps, step);
    longer, t := steps + [step], Apply(s, step);
  }

  /** The forged frame is in the agent's queue. */
  lemma Forged() returns (steps: seq<Step>, s: State)
    ensures Feasible(Init(TOOLS), steps) && Run(Init(TOOLS), steps) == s && s.handlers.Keys == {"1"}
    ensures "agent" in s.agents && s.agents["agent"].phase.Idle?
    ensures s.agents["agent"].queue == [Message(Some(Frame("9", "x")), "callback", "1")]
  {
    steps, s := WorkerRuns();
    steps, s := ThenAny(steps, s, Complete("agent", WORKER1, Frame("9", "x")));
  }

  /** It is taken for a request. */
  lemma ForgedTaken() returns (steps: seq<Step>, s: State)
    ensures Feasible(Init(TOOLS), steps) && Run(Init(TOOLS), steps) == s && s.handlers.Keys == {"1"}
    ensures "agent" in s.agents && s.agents["agent"].phase.Storing? && s.agents["agent"].phase.id == "9"
  {
    steps, s := Forged();
    FrameRoundTrip("9", "x");
    steps, s := ThenAny(steps, s, Dequeue("agent"));
  }

  /** A response that begins like a frame puts an id into the table that no handler ever submitted. */
  lemma FramedResponseForgesId() returns (steps: seq<Step>)
    ensures Feasible(Init(TOOLS), steps)
    ensures var s := Run(Init(TOOLS), steps); "agent" in s.ids && s.ids["agent"] == "9" && "9" !in s.handlers
  {
    var s;
    steps, s := ForgedTaken();
    steps, s := ThenAny(steps, s, Store("agent"));
  }
}
