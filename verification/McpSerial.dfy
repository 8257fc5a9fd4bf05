/** Serial use of an agent: every delivered answer derives from that request's own `Run`. */
module McpSerial {
  import opened Prelude
  import opened McpFrame
  import opened McpProtocol
  import opened McpSafety

  /** A request goes to an agent only after every earlier handler of that agent has returned Ok. */
  predicate Serial(s: State, step: Step) {
    step.Submit? && step.tool in s.registry ==>
      forall q | q in s.handlers && s.handlers[q].agent == s.registry[step.tool] :: s.handlers[q].status.Done?
  }

  /** Responses are no frames, and a guest activation that fails has made no host call. */
  predicate Disciplined(step: Step) {
    Clean(step) && (step.Activate? && !step.activation.ok ==> step.activation.call.NoCall?)
  }

  predicate SeriallyUsed(s: State, steps: seq<Step>)
    requires Feasible(s, steps)
    decreases |steps|
  {
    steps != [] ==> Serial(s, steps[0]) && SeriallyUsed(Apply(s, steps[0]), steps[1..])
  }

  predicate AllDisciplined(steps: seq<Step>) { forall step | step in steps :: Disciplined(step) }

  /** The request whose work the event loop holds, if any. */
  function Held(p: Phase): seq<ReqId> {
    match p
    case Storing(_, m) => [m.origin]
    case Calling(m) => [m.origin]
    case Sending(_, _, origin, _) => [origin]
    case Returned(ok, origin) => if ok then [] else [origin]
    case _ => []
  }

  /** How many pieces of unfinished work agent `a` has: queued, in a worker, in hand, or about to be sent. */
  function Load(s: State, a: AgentId, ag: Agent): nat {
    |ag.queue| + |ag.workers| + |Held(ag.phase)| +
    (if a in s.latest && s.latest[a] in s.handlers && s.handlers[s.latest[a]].status.Registered? then 1 else 0)
  }

  /** What the agent holds belongs to request `r`, which, once dequeued, is the last one dequeued. */
  predicate WorksFor(ag: Agent, r: ReqId) {
    && (forall m | m in ag.queue :: m.origin == r && (FrameId(m).None? ==> ag.last == Some(r)))
    && (forall w | w in ag.workers :: w.origin == r && ag.last == Some(r))
    && (Held(ag.phase) != [] ==> Held(ag.phase) == [r] && ag.last == Some(r))
    && (ag.phase.Sending? ==> ag.phase.ok)
  }

  predicate SerialAgent(s: State, a: AgentId, ag: Agent) {
    if a !in s.latest then
      Load(s, a, ag) == 0 && forall q | q in s.handlers :: s.handlers[q].agent != a
    else
      var r := s.latest[a];
      && SubmittedTo(s, a, r)
      && (forall q | q in s.handlers && s.handlers[q].agent == a && q != r :: s.handlers[q].status.Done?)
      && Load(s, a, ag) <= 1
      && (Answered(s, r) ==> Load(s, a, ag) == 0)
      && WorksFor(ag, r)
  }

  predicate OwnAnswers(s: State) { forall x | x in s.sent :: x.req == x.origin }

  predicate SerialInv(s: State) {
    && Inv(s)
    && (forall a {:trigger SerialAgent(s, a, s.agents[a])} | a in s.agents :: SerialAgent(s, a, s.agents[a]))
    && OwnAnswers(s)
  }

  // --- Framing ---

  /** The step says nothing about the requests of agent `b`. */
  predicate Apart(s: State, t: State, b: AgentId) {
    && (forall q | q in s.handlers && s.handlers[q].agent == b :: q in t.handlers && t.handlers[q] == s.handlers[q])
    && (forall q | q in t.handlers && t.handlers[q].agent == b :: q in s.handlers)
    && (b in s.latest <==> b in t.latest)
    && (b in s.latest ==> t.latest[b] == s.latest[b] && (Answered(t, t.latest[b]) ==> Answered(s, s.latest[b])))
  }

  lemma ApartKeeps(s: State, t: State, b: AgentId, ag: Agent)
    requires Apart(s, t, b) && SerialAgent(s, b, ag)
    requires forall q | q in t.handlers && q in s.handlers :: t.handlers[q].agent == s.handlers[q].agent
    ensures SerialAgent(t, b, ag)
  {
    if b in s.latest {
      var r := s.latest[b];
      assert SubmittedTo(s, b, r);
      forall q | q in t.handlers && t.handlers[q].agent == b && q != r ensures t.handlers[q].status.Done? {
        assert q in s.handlers;
      }
    }
  }

  /** Only agent `a` changed, and its own part holds again. */
  lemma Localised(s: State, t: State, a: AgentId)
    requires SerialInv(s) && Inv(t) && OwnAnswers(t) && t.agents.Keys == s.agents.Keys
    requires forall q | q in t.handlers && q in s.handlers :: t.handlers[q].agent == s.handlers[q].agent
    requires forall b | b in s.agents && b != a :: t.agents[b] == s.agents[b] && Apart(s, t, b)
    requires a in t.agents ==> SerialAgent(t, a, t.agents[a])
    ensures SerialInv(t)
  {
    forall b | b in t.agents ensures SerialAgent(t, b, t.agents[b]) {
      if b != a {
        assert SerialAgent(s, b, s.agents[b]);
        ApartKeeps(s, t, b, s.agents[b]);
      }
    }
  }

  /** A change to one handler of agent `a` does not concern other agents. */
  lemma HandlerApart(s: State, t: State, r: ReqId, b: AgentId)
    requires r in s.handlers && b != s.handlers[r].agent
    requires r in t.handlers && t.handlers == s.handlers[r := Handler(s.handlers[r].agent, t.handlers[r].status)]
    requires t.latest == s.latest && t.sent == s.sent
    ensures Apart(s, t, b)
  {
  }

  // --- Handler steps ---

  /** A handler that has not returned Ok belongs to the latest request of its agent. */
  lemma OpenIsLatest(s: State, r: ReqId)
    requires SerialInv(s) && r in s.handlers && !s.handlers[r].status.Done?
    ensures var a := s.handlers[r].agent; a in s.agents && a in s.latest && s.latest[a] == r
  {
    assert HandlerOk(s, r, s.handlers[r]);
    var a := s.handlers[r].agent;
    assert SerialAgent(s, a, s.agents[a]);
  }

  lemma SubmitSerial(s: State, r: ReqId, tool: string, json: string)
    requires SerialInv(s) && Enabled(s, Submit(r, tool, json)) && Serial(s, Submit(r, tool, json))
    ensures SerialInv(Apply(s, Submit(r, tool, json)))
  {
    StepKeeps(s, Submit(r, tool, json));
    if tool in s.registry {
      var t := SubmitStep(s, r, tool, json);
      var a := s.registry[tool];
      assert a in s.registry.Values;
      var ag := s.agents[a];
      assert SerialAgent(s, a, ag);
      NotYetAnswered(s, r);
      assert Load(s, a, ag) == 0 by {
        if a in s.latest { DoneIsAnswered(s, s.latest[a]); }
      }
      IdleWorksFor(ag, r);
      Localised(s, t, a);
    }
  }

  lemma IdleWorksFor(ag: Agent, r: ReqId)
    requires |ag.queue| + |ag.workers| + |Held(ag.phase)| == 0
    ensures WorksFor(ag, r)
  {
    assert ag.workers == multiset{};
  }

  lemma QueuedWorksFor(ag: Agent, m: Message)
    requires |ag.queue| + |ag.workers| + |Held(ag.phase)| == 0 && FrameId(m).Some?
    ensures WorksFor(ag.(queue := [m]), m.origin) && WorksFor(ag, m.origin)
  {
    assert ag.workers == multiset{};
  }

  /** A step of handler `r` that concerns its own agent `a` alone. */
  lemma OneHandler(s: State, t: State, r: ReqId, a: AgentId)
    requires SerialInv(s) && Inv(t) && OwnAnswers(t) && t.agents.Keys == s.agents.Keys
    requires r in s.handlers && a == s.handlers[r].agent
    requires r in t.handlers && t.handlers == s.handlers[r := Handler(a, t.handlers[r].status)]
    requires t.latest == s.latest && t.sent == s.sent
    requires forall b | b in s.agents && b != a :: t.agents[b] == s.agents[b]
    requires a in t.agents ==> SerialAgent(t, a, t.agents[a])
    ensures SerialInv(t)
  {
    forall b | b in s.agents && b != a ensures Apart(s, t, b) { HandlerApart(s, t, r, b); }
    Localised(s, t, a);
  }

  lemma SendSerial(s: State, r: ReqId)
    requires SerialInv(s) && Enabled(s, Send(r))
    ensures SerialInv(SendStep(s, r))
  {
    SendKeeps(s, r);
    OpenIsLatest(s, r);
    SendOwn(s, r);
    SendElsewhere(s, r);
    OneHandler(s, SendStep(s, r), r, s.handlers[r].agent);
  }

  /** What sending leaves alone. */
  lemma SendElsewhere(s: State, r: ReqId)
    requires r in s.handlers && s.handlers[r].status.Registered? && s.handlers[r].agent in s.agents
    ensures var (t, a) := (SendStep(s, r), s.handlers[r].agent);
      && r in t.handlers && t.handlers == s.handlers[r := Handler(a, t.handlers[r].status)]
      && t.latest == s.latest && t.sent == s.sent && t.agents.Keys == s.agents.Keys
      && forall b | b in s.agents && b != a :: t.agents[b] == s.agents[b]
  {
  }

  lemma SendOwn(s: State, r: ReqId)
    requires SerialInv(s) && Enabled(s, Send(r))
    requires var a := s.handlers[r].agent; a in s.agents && a in s.latest && s.latest[a] == r
    ensures var (t, a) := (SendStep(s, r), s.handlers[r].agent); SerialAgent(t, a, t.agents[a])
  {
    var (h, a) := (s.handlers[r], s.handlers[r].agent);
    var ag := s.agents[a];
    assert SerialAgent(s, a, ag) && HandlerOk(s, r, h);
    FrameRoundTrip(r, h.status.json);
    QueuedWorksFor(ag, Message(Some(Frame(r, h.status.json)), "Run", r));
    SendKeepsSerialAgent(s, r, a, ag);
  }

  lemma SendKeepsSerialAgent(s: State, r: ReqId, a: AgentId, ag: Agent)
    requires r in s.handlers && s.handlers[r] == Handler(a, s.handlers[r].status) && s.handlers[r].status.Registered?
    requires a in s.agents && s.agents[a] == ag && a in s.latest && s.latest[a] == r && SerialAgent(s, a, ag)
    requires var m := Message(Some(Frame(r, s.handlers[r].status.json)), "Run", r);
      WorksFor(ag.(queue := [m]), r) && WorksFor(ag, r)
    ensures SerialAgent(SendStep(s, r), a, SendStep(s, r).agents[a])
  {
    var t := SendStep(s, r);
    assert ag.queue == [];
    var m := Message(Some(Frame(r, s.handlers[r].status.json)), "Run", r);
    assert t.agents[a] == if ag.phase.Stopped? then ag else ag.(queue := [m]);
  }

  lemma HandlerStepSerial(s: State, step: Step)
    requires SerialInv(s) && Enabled(s, step)
    requires step.Receive? || step.Timeout? || step.CleanChannel? || step.CleanIds?
    ensures SerialInv(Apply(s, step))
  {
    HandlerStepKeeps(s, step);
    var r := step.req;
    OpenIsLatest(s, r);
    var t := Apply(s, step);
    var a := s.handlers[r].agent;
    assert SerialAgent(s, a, s.agents[a]);
    MovedOnSerial(s, t, r, a);
    OneHandler(s, t, r, a);
  }

  /** Handler `r`, the latest of agent `a`, takes a status other than `Registered`. */
  lemma MovedOnSerial(s: State, t: State, r: ReqId, a: AgentId)
    requires a in s.agents && SerialAgent(s, a, s.agents[a]) && t.agents == s.agents && t.sent == s.sent
    requires a in s.latest && s.latest[a] == r && t.latest == s.latest
    requires r in t.handlers && !t.handlers[r].status.Registered?
    requires t.handlers == s.handlers[r := Handler(a, t.handlers[r].status)]
    ensures SerialAgent(t, a, t.agents[a])
  {
  }

  // --- Agent steps ---

  /** A step of agent `a` that leaves handlers and answers alone. */
  lemma QuietSerial(s: State, t: State, a: AgentId)
    requires SerialInv(s) && Inv(t) && a in s.agents
    requires t.handlers == s.handlers && t.latest == s.latest && t.sent == s.sent && t.agents.Keys == s.agents.Keys
    requires forall b | b in s.agents && b != a :: t.agents[b] == s.agents[b]
    requires Load(t, a, t.agents[a]) <= Load(s, a, s.agents[a])
    requires a in s.latest && WorksFor(s.agents[a], s.latest[a]) ==> WorksFor(t.agents[a], s.latest[a])
    ensures SerialInv(t)
  {
    assert SerialAgent(s, a, s.agents[a]);
    Localised(s, t, a);
  }

  lemma DequeueSerial(s: State, a: AgentId)
    requires SerialInv(s) && Enabled(s, Dequeue(a))
    ensures SerialInv(DequeueStep(s, a))
  {
    DequeueKeeps(s, a);
    var ag := s.agents[a];
    var t := DequeueStep(s, a);
    assert AgentOk(s, a, ag) && MessageOk(s, a, ag.queue[0]) && SerialAgent(s, a, ag);
    if a in s.latest { DequeuedWorksFor(ag, t.agents[a], s.latest[a]); }
    QuietSerial(s, t, a);
  }

  lemma DequeuedWorksFor(ag: Agent, next: Agent, r: ReqId)
    requires WorksFor(ag, r) && |ag.queue| == 1 && ag.workers == multiset{}
    requires next.queue == [] && next.workers == ag.workers && !next.phase.Sending?
    requires Held(next.phase) == [ag.queue[0].origin]
    requires next.last == if FrameId(ag.queue[0]).Some? then Some(ag.queue[0].origin) else ag.last
    ensures WorksFor(next, r)
  {
    assert ag.queue[0] in ag.queue;
  }

  lemma StoreSerial(s: State, a: AgentId)
    requires SerialInv(s) && Enabled(s, Store(a))
    ensures SerialInv(Apply(s, Store(a)))
  {
    StoreKeeps(s, a);
    QuietSerial(s, Apply(s, Store(a)), a);
  }

  lemma ActivateSerial(s: State, a: AgentId, act: Activation)
    requires SerialInv(s) && Enabled(s, Activate(a, act)) && (!act.ok ==> act.call.NoCall?)
    ensures SerialInv(ActivateStep(s, a, act))
  {
    ActivateKeeps(s, a, act);
    var ag, stored := s.agents[a], if a in s.ids then Some(s.ids[a]) else None;
    assert SerialAgent(s, a, ag);
    ActivatedAgent(ag, act, stored);
    if a in s.latest { ActivatedWorksFor(ag, AfterCall(ag, act, stored), s.latest[a]); }
    QuietSerial(s, SetAgent(s, a, AfterCall(ag, act, stored)), a);
  }

  /** What an activation that failed only without a host call leaves: at most the one piece of work. */
  lemma ActivatedAgent(ag: Agent, act: Activation, stored: Option<ReqId>)
    requires ag.phase.Calling? && (!act.ok ==> act.call.NoCall?)
    ensures var next := AfterCall(ag, act, stored);
      && next.queue == ag.queue && next.last == ag.last && Held(next.phase) <= Held(ag.phase)
      && |next.workers| + |Held(next.phase)| <= |ag.workers| + 1
      && (forall w | w in next.workers :: w in ag.workers || w.origin == Held(ag.phase)[0])
      && (next.phase.Sending? ==> next.phase.ok)
  {
  }

  lemma ActivatedWorksFor(ag: Agent, next: Agent, r: ReqId)
    requires WorksFor(ag, r) && Held(ag.phase) == [r] && ag.queue == [] && ag.workers == multiset{}
    requires next.queue == [] && next.last == ag.last && Held(next.phase) <= [r]
    requires forall w | w in next.workers :: w.origin == r
    requires next.phase.Sending? ==> next.phase.ok
    ensures WorksFor(next, r)
  {
  }

  lemma ClearSerial(s: State, a: AgentId)
    requires SerialInv(s) && Enabled(s, ClearId(a))
    ensures SerialInv(ClearStep(s, a))
  {
    ClearKeeps(s, a);
    QuietSerial(s, ClearStep(s, a), a);
  }

  lemma StopSerial(s: State, a: AgentId)
    requires SerialInv(s) && Enabled(s, Stop(a))
    ensures SerialInv(Apply(s, Stop(a)))
  {
    StopKeeps(s, a);
    QuietSerial(s, Apply(s, Stop(a)), a);
  }

  lemma CompleteSerial(s: State, a: AgentId, w: Worker, response: string)
    requires SerialInv(s) && Enabled(s, Complete(a, w, response)) && ParseFrame(response).None?
    ensures SerialInv(CompleteStep(s, a, w, response))
  {
    CompleteKeeps(s, a, w, response);
    QuietSerial(s, CompleteStep(s, a, w, response), a);
  }

  /** An agent that holds work for `r`, its latest request, answers `r`, and holds nothing afterwards. */
  lemma AnswerSerial(s: State, t: State, a: AgentId, text: string, p: Phase)
    requires SerialInv(s) && a in s.agents && Held(s.agents[a].phase) != [] && Held(p) == [] && !p.Sending?
    requires s.agents[a].last.Some?
    requires var r := s.agents[a].last.value; t == SetPhase(SendAnswer(s, a, r, text, Held(s.agents[a].phase)[0]), a, p)
    requires Inv(t)
    ensures SerialInv(t)
  {
    var ag := s.agents[a];
    var r := ag.last.value;
    assert SerialAgent(s, a, ag) && AgentOk(s, a, ag);
    assert Reqs(t.sent) <= Reqs(s.sent) + {r};
    forall b | b in s.agents && b != a ensures Apart(s, t, b) {
      assert SerialAgent(s, b, s.agents[b]);
      AnswerApart(s, t, r, a, b);
    }
    EmptiedSerial(s, t, a);
    AnswerOwn(s, a, r, text, Held(ag.phase)[0]);
    Localised(s, t, a);
  }

  lemma AnswerOwn(s: State, a: AgentId, r: ReqId, text: string, origin: ReqId)
    requires a in s.agents && OwnAnswers(s) && origin == r
    ensures OwnAnswers(SendAnswer(s, a, r, text, origin))
  {
  }

  /** Answering a request of agent `a` does not concern other agents. */
  lemma AnswerApart(s: State, t: State, r: ReqId, a: AgentId, b: AgentId)
    requires t.handlers == s.handlers && t.latest == s.latest && SubmittedTo(s, a, r) && b != a
    requires Reqs(t.sent) <= Reqs(s.sent) + {r} && (b in s.latest ==> SubmittedTo(s, b, s.latest[b]))
    ensures Apart(s, t, b)
  {
  }

  lemma EmptiedSerial(s: State, t: State, a: AgentId)
    requires a in s.agents && SerialAgent(s, a, s.agents[a]) && Held(s.agents[a].phase) != []
    requires t.handlers == s.handlers && t.latest == s.latest && a in t.agents
    requires var p := t.agents[a].phase; t.agents[a] == s.agents[a].(phase := p) && Held(p) == [] && !p.Sending?
    ensures SerialAgent(t, a, t.agents[a])
  {
    assert s.agents[a].workers == multiset{};
  }

  lemma DeliverSerial(s: State, a: AgentId)
    requires SerialInv(s) && Enabled(s, Deliver(a))
    ensures SerialInv(DeliverStep(s, a))
  {
    DeliverKeeps(s, a);
    var ag := s.agents[a];
    assert AgentOk(s, a, ag) && SerialAgent(s, a, ag);
    var p := ag.phase;
    if p.found.Some? {
      AnswerSerial(s, DeliverStep(s, a), a, p.text, Returned(p.ok, p.origin));
    } else {
      QuietSerial(s, DeliverStep(s, a), a);
    }
  }

  lemma FinishSerial(s: State, a: AgentId)
    requires SerialInv(s) && Enabled(s, Finish(a))
    ensures SerialInv(FinishStep(s, a))
  {
    FinishKeeps(s, a);
    var ag := s.agents[a];
    assert AgentOk(s, a, ag) && SerialAgent(s, a, ag);
    if ag.phase.ok || ag.requestId.None? {
      QuietSerial(s, FinishStep(s, a), a);
    } else {
      AnswerSerial(s, FinishStep(s, a), a, "Error: callback failed", Clearing);
    }
  }

  lemma StepSerial(s: State, step: Step)
    requires SerialInv(s) && Enabled(s, step) && Serial(s, step) && Disciplined(step)
    ensures SerialInv(Apply(s, step))
  {
    match step
    case Submit(r, tool, json) => SubmitSerial(s, r, tool, json);
    case Send(r) => SendSerial(s, r);
    case Receive(_) => HandlerStepSerial(s, step);
    case Timeout(_) => HandlerStepSerial(s, step);
    case CleanChannel(_) => HandlerStepSerial(s, step);
    case CleanIds(_) => HandlerStepSerial(s, step);
    case Dequeue(a) => DequeueSerial(s, a);
    case Store(a) => StoreSerial(s, a);
    case Activate(a, act) => ActivateSerial(s, a, act);
    case Deliver(a) => DeliverSerial(s, a);
    case Finish(a) => FinishSerial(s, a);
    case ClearId(a) => ClearSerial(s, a);
    case Complete(a, w, response) => CompleteSerial(s, a, w, response);
    case Stop(a) => StopSerial(s, a);
  }

  lemma {:induction false} RunSerial(s: State, steps: seq<Step>)
    requires SerialInv(s) && Feasible(s, steps) && SeriallyUsed(s, steps) && AllDisciplined(steps)
    ensures SerialInv(Run(s, steps))
    decreases |steps|
  {
    if steps != [] {
      StepSerial(s, steps[0]);
      RunSerial(Apply(s, steps[0]), steps[1..]);
    }
  }

  /** In every serial run with disciplined guests, whatever is sent to a request derives from its own `Run`. */
  lemma {:induction false} AnswersAreOwn(registry: map<string, AgentId>, steps: seq<Step>)
    requires Feasible(Init(registry), steps) && SeriallyUsed(Init(registry), steps) && AllDisciplined(steps)
    ensures forall x | x in Run(Init(registry), steps).sent :: x.origin == x.req
  {
    InitInv(registry);
    var s := Init(registry);
    forall a | a in s.agents ensures SerialAgent(s, a, s.agents[a]) { }
    RunSerial(s, steps);
  }
}
