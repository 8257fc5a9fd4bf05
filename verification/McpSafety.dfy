/** What every run of the MCP protocol keeps: one answer per request, and the exact routing rule. */
module McpSafety {
  import opened Prelude
  import opened McpFrame
  import opened McpProtocol

  /** Request `r` was submitted to agent `a`. */
  predicate SubmittedTo(s: State, a: AgentId, r: ReqId) { r in s.handlers && s.handlers[r].agent == a }

  /** ... and that agent has dequeued it. */
  predicate Taken(s: State, a: AgentId, r: ReqId) { SubmittedTo(s, a, r) && r in s.taken }

  function Reqs(sent: seq<Answer>): set<ReqId> { set x | x in sent :: x.req }

  predicate Answered(s: State, r: ReqId) { r in Reqs(s.sent) }

  /** A framed message is the one copy of a request that its agent has not dequeued yet. */
  predicate MessageOk(s: State, a: AgentId, m: Message) {
    && SubmittedTo(s, a, m.origin)
    && (FrameId(m).Some? ==>
      FrameId(m) == Some(m.origin) && m.origin !in s.taken && !s.handlers[m.origin].status.Registered?)
  }

  predicate QueueOk(s: State, a: AgentId, queue: seq<Message>) {
    && (forall m {:trigger MessageOk(s, a, m)} | m in queue :: MessageOk(s, a, m))
    && (forall i, j | 0 <= i < j < |queue| && FrameId(queue[i]).Some? :: FrameId(queue[i]) != FrameId(queue[j]))
  }

  predicate PhaseOk(s: State, a: AgentId, ag: Agent) {
    match ag.phase
    case Storing(id, m) => ag.requestId == Some(id) && m.origin == id && !Answered(s, id)
    case Calling(m) => SubmittedTo(s, a, m.origin)
    case Sending(found, _, origin, _) => SubmittedTo(s, a, origin) && (found.Some? ==> ag.requestId == found)
    case Returned(_, origin) => SubmittedTo(s, a, origin)
    case _ => true
  }

  /** The id table entry of `a` is the agent's own id, except while that one is being stored. */
  predicate IdsOk(s: State, a: AgentId, ag: Agent) {
    a in s.ids ==> Taken(s, a, s.ids[a]) && (!ag.phase.Storing? ==> ag.requestId == Some(s.ids[a]))
  }

  predicate AgentOk(s: State, a: AgentId, ag: Agent) {
    && QueueOk(s, a, ag.queue)
    && (forall w {:trigger SubmittedTo(s, a, w.origin)} | w in ag.workers :: SubmittedTo(s, a, w.origin))
    && (ag.requestId.Some? ==> ag.last == ag.requestId)
    && (ag.last.Some? ==> Taken(s, a, ag.last.value))
    && PhaseOk(s, a, ag)
    && IdsOk(s, a, ag)
  }

  predicate HasAnswer(s: State, r: ReqId, text: string) { exists x | x in s.sent :: x.req == r && x.text == text }

  predicate HandlerOk(s: State, r: ReqId, h: Handler) {
    && ':' !in r && h.agent in s.agents
    && (r in s.channels ==> !Answered(s, r))
    && (h.status.Registered? || h.status.Waiting? ==> r in s.channels || r in s.inbox)
    && (h.status.Registered? ==> r !in s.taken)
    && (r in s.inbox ==> HasAnswer(s, r, s.inbox[r]))
    && (h.status.Received? || h.status.ChannelCleaned? || h.status.Done? ==>
      r in s.inbox && s.inbox[r] == h.status.text)
    && (h.status.ChannelCleaned? || h.status.Done? ==> r !in s.channels)
    && (h.status.Done? ==> forall a | a in s.ids :: s.ids[a] != r)
  }

  predicate AnswerOk(s: State, x: Answer) {
    Taken(s, x.agent, x.req) && x.last == Some(x.req) && SubmittedTo(s, x.agent, x.origin)
  }

  predicate SentOk(s: State) {
    && (forall x {:trigger AnswerOk(s, x)} | x in s.sent :: AnswerOk(s, x))
    && (forall i, j | 0 <= i < j < |s.sent| :: s.sent[i].req != s.sent[j].req)
  }

  predicate Wf(s: State) {
    && s.registry.Values <= s.agents.Keys
    && s.channels <= s.handlers.Keys
    && s.inbox.Keys <= s.handlers.Keys
    && s.taken <= s.handlers.Keys
    && s.ids.Keys <= s.agents.Keys
  }

  predicate AgentsOk(s: State) {
    forall a {:trigger AgentOk(s, a, s.agents[a])} | a in s.agents :: AgentOk(s, a, s.agents[a])
  }

  predicate HandlersOk(s: State) {
    forall r {:trigger HandlerOk(s, r, s.handlers[r])} | r in s.handlers :: HandlerOk(s, r, s.handlers[r])
  }

  predicate Inv(s: State) { Wf(s) && AgentsOk(s) && HandlersOk(s) && SentOk(s) }

  // --- Framing: what a step leaves alone ---

  /** From `s` to `t` nothing happened that the invariant of agent `b` depends on. */
  predicate Stable(s: State, t: State, b: AgentId) {
    && (forall r | r in s.handlers :: r in t.handlers && t.handlers[r].agent == s.handlers[r].agent)
    && (forall r | r in s.handlers && t.handlers[r].status.Registered? :: s.handlers[r].status.Registered?)
    && s.taken <= t.taken
    && (forall r | r in t.taken && r !in s.taken :: !SubmittedTo(s, b, r))
    && (forall r | r in Reqs(t.sent) && r !in Reqs(s.sent) :: !SubmittedTo(s, b, r))
  }

  predicate SameId(s: State, t: State, b: AgentId) { b in t.ids ==> b in s.ids && t.ids[b] == s.ids[b] }

  lemma QueueStable(s: State, t: State, b: AgentId, queue: seq<Message>)
    requires Stable(s, t, b) && QueueOk(s, b, queue)
    ensures QueueOk(t, b, queue)
  {
    forall m | m in queue ensures MessageOk(t, b, m) { assert MessageOk(s, b, m); }
  }

  lemma AgentStable(s: State, t: State, b: AgentId, ag: Agent)
    requires Stable(s, t, b) && SameId(s, t, b) && AgentOk(s, b, ag)
    ensures AgentOk(t, b, ag)
  {
    QueueStable(s, t, b, ag.queue);
    forall w | w in ag.workers ensures SubmittedTo(t, b, w.origin) { assert SubmittedTo(s, b, w.origin); }
    if ag.phase.Storing? { assert SubmittedTo(s, b, ag.phase.id); }
  }

  lemma OtherAgentsStable(s: State, t: State, a: AgentId)
    requires AgentsOk(s) && t.agents.Keys == s.agents.Keys && (a in s.agents ==> AgentOk(t, a, t.agents[a]))
    requires forall b | b in s.agents && b != a :: t.agents[b] == s.agents[b] && Stable(s, t, b) && SameId(s, t, b)
    ensures AgentsOk(t)
  {
    forall b | b in t.agents ensures AgentOk(t, b, t.agents[b]) {
      if b != a {
        assert AgentOk(s, b, s.agents[b]);
        AgentStable(s, t, b, s.agents[b]);
      }
    }
  }

  lemma HandlerStable(s: State, t: State, r: ReqId, h: Handler)
    requires HandlerOk(s, r, h) && s.agents.Keys <= t.agents.Keys
    requires r in t.channels ==> r in s.channels && !Answered(t, r)
    requires (h.status.Registered? || h.status.Waiting?) && r in s.channels ==> r in t.channels || r in t.inbox
    requires h.status.Registered? && r in t.taken ==> r in s.taken
    requires r in s.inbox ==> r in t.inbox
    requires r in t.inbox ==> HasAnswer(t, r, t.inbox[r]) && (r in s.inbox ==> t.inbox[r] == s.inbox[r])
    requires h.status.Done? ==> forall a | a in t.ids :: t.ids[a] == r ==> a in s.ids && s.ids[a] == r
    ensures HandlerOk(t, r, h)
  {
  }

  lemma AnswersStable(s: State, t: State)
    requires SentOk(s) && t.sent == s.sent && s.taken <= t.taken
    requires forall r | r in s.handlers :: r in t.handlers && t.handlers[r].agent == s.handlers[r].agent
    ensures SentOk(t)
  {
    forall x | x in t.sent ensures AnswerOk(t, x) { assert AnswerOk(s, x); }
  }

  lemma AnswerGrows(s: State, t: State, r: ReqId, text: string)
    requires HasAnswer(s, r, text) && forall x | x in s.sent :: x in t.sent
    ensures HasAnswer(t, r, text)
  {
  }

  /** A received answer was sent. */
  lemma DoneIsAnswered(s: State, r: ReqId)
    requires HandlersOk(s) && r in s.handlers && s.handlers[r].status.Done?
    ensures Answered(s, r)
  {
    assert HandlerOk(s, r, s.handlers[r]);
    assert HasAnswer(s, r, s.inbox[r]);
  }

  /** A step of agent `a` that changes nothing but that agent and the id table. */
  lemma LocalKeeps(s: State, t: State, a: AgentId)
    requires Inv(s) && a in s.agents && t == s.(agents := t.agents, ids := t.ids)
    requires t.agents.Keys == s.agents.Keys && AgentOk(t, a, t.agents[a]) && t.ids.Keys <= t.agents.Keys
    requires forall b | b in s.agents && b != a :: t.agents[b] == s.agents[b] && SameId(s, t, b)
    requires a in t.ids ==> SameId(s, t, a) || !Answered(s, t.ids[a])
    ensures Inv(t)
  {
    OtherAgentsStable(s, t, a);
    forall r | r in t.handlers ensures HandlerOk(t, r, t.handlers[r]) {
      assert HandlerOk(s, r, s.handlers[r]);
      if s.handlers[r].status.Done? { DoneIsAnswered(s, r); }
      if r in t.inbox { AnswerGrows(s, t, r, t.inbox[r]); }
      HandlerStable(s, t, r, s.handlers[r]);
    }
    AnswersStable(s, t);
  }

  // --- The steps ---

  lemma SubmitKeeps(s: State, r: ReqId, tool: string, json: string)
    requires Inv(s) && Enabled(s, Submit(r, tool, json))
    ensures Inv(Apply(s, Submit(r, tool, json)))
  {
    if tool in s.registry {
      var t := Apply(s, Submit(r, tool, json));
      assert s.registry[tool] in s.registry.Values;
      NotYetAnswered(s, r);
      OtherAgentsStableAll(s, t);
      forall q | q in t.handlers ensures HandlerOk(t, q, t.handlers[q]) {
        if q != r {
          assert HandlerOk(s, q, s.handlers[q]);
          if q in t.inbox { AnswerGrows(s, t, q, t.inbox[q]); }
          HandlerStable(s, t, q, s.handlers[q]);
        }
      }
      AnswersStable(s, t);
    }
  }

  /** Only dequeued requests are answered. */
  lemma NotYetAnswered(s: State, r: ReqId)
    requires SentOk(s)
    ensures Answered(s, r) ==> r in s.taken
  {
    forall x | x in s.sent ensures x.req in s.taken { assert AnswerOk(s, x); }
  }

  lemma OtherAgentsStableAll(s: State, t: State)
    requires AgentsOk(s) && t.agents == s.agents
    requires forall b | b in s.agents :: Stable(s, t, b) && SameId(s, t, b)
    ensures AgentsOk(t)
  {
    forall b | b in t.agents ensures AgentOk(t, b, t.agents[b]) {
      assert AgentOk(s, b, s.agents[b]);
      AgentStable(s, t, b, s.agents[b]);
    }
  }

  /** The frame of a request that was only registered so far is not in the queue yet. */
  lemma EnqueueFrame(s: State, t: State, a: AgentId, queue: seq<Message>, m: Message)
    requires QueueOk(s, a, queue) && QueueOk(t, a, queue) && MessageOk(t, a, m)
    requires FrameId(m) == Some(m.origin) && m.origin in s.handlers && s.handlers[m.origin].status.Registered?
    ensures QueueOk(t, a, queue + [m])
  {
    forall i | 0 <= i < |queue| && FrameId(queue[i]).Some? ensures FrameId(queue[i]) != FrameId(m) {
      assert MessageOk(s, a, queue[i]);
    }
  }

  /** A handler moves on; `t` may also have lost table entries of request `r`. */
  lemma StatusKeeps(s: State, t: State, r: ReqId, status: Status)
    requires Inv(s) && r in s.handlers && !status.Registered?
    requires t == SetStatus(s, r, status).(channels := t.channels, ids := t.ids)
    requires s.channels - {r} <= t.channels <= s.channels && forall b | b in t.ids :: b in s.ids && t.ids[b] == s.ids[b]
    requires HandlerOk(s, r, s.handlers[r]) ==> HandlerOk(t, r, t.handlers[r])
    ensures Inv(t)
  {
    OtherAgentsStableAll(s, t);
    forall q | q in t.handlers ensures HandlerOk(t, q, t.handlers[q]) {
      assert HandlerOk(s, q, s.handlers[q]);
      if q in t.inbox { AnswerGrows(s, t, q, t.inbox[q]); }
      if q != r { HandlerStable(s, t, q, s.handlers[q]); }
    }
    AnswersStable(s, t);
  }

  lemma SendKeeps(s: State, r: ReqId)
    requires Inv(s) && r in s.handlers && s.handlers[r].status.Registered? && s.handlers[r].agent in s.agents
    ensures Inv(SendStep(s, r))
  {
    var h := s.handlers[r];
    var a := h.agent;
    var ag := s.agents[a];
    if ag.phase.Stopped? {
      StatusKeeps(s, SendStep(s, r), r, SendFailed);
    } else {
      var u := SetStatus(s, r, Waiting);
      StatusKeeps(s, u, r, Waiting);
      assert HandlerOk(s, r, h) && AgentOk(s, a, ag) && AgentOk(u, a, u.agents[a]);
      FrameRoundTrip(r, h.status.json);
      var m := Message(Some(Frame(r, h.status.json)), "Run", r);
      EnqueueFrame(s, u, a, ag.queue, m);
      AddMessage(u, a, ag, m);
    }
  }

  lemma AddMessage(u: State, a: AgentId, ag: Agent, m: Message)
    requires Inv(u) && a in u.agents && u.agents[a] == ag && QueueOk(u, a, ag.queue + [m])
    ensures Inv(SetAgent(u, a, ag.(queue := ag.queue + [m])))
  {
    var t := SetAgent(u, a, ag.(queue := ag.queue + [m]));
    assert AgentOk(u, a, ag);
    AgentStable(u, t, a, ag);
    QueueStable(u, t, a, ag.queue + [m]);
    LocalKeeps(u, t, a);
  }

  lemma HandlerStepKeeps(s: State, step: Step)
    requires Inv(s) && Enabled(s, step)
    requires step.Receive? || step.Timeout? || step.CleanChannel? || step.CleanIds?
    ensures Inv(Apply(s, step))
  {
    var t := Apply(s, step);
    StatusKeeps(s, t, step.req, t.handlers[step.req].status);
  }

  lemma DequeueKeeps(s: State, a: AgentId)
    requires Inv(s) && a in s.agents && s.agents[a].phase.Idle? && s.agents[a].queue != []
    ensures Inv(DequeueStep(s, a))
  {
    var ag := s.agents[a];
    var m, rest := ag.queue[0], ag.queue[1..];
    assert AgentOk(s, a, ag) && MessageOk(s, a, m);
    if FrameId(m).None? {
      DequeueCallbackKeeps(s, a, ag, m);
    } else {
      NotYetAnswered(s, m.origin);
      DequeueFrameKeeps(s, a, m, rest);
      TakenKeeps(s, DequeueStep(s, a), a, m.origin);
    }
  }

  lemma DequeueCallbackKeeps(s: State, a: AgentId, ag: Agent, m: Message)
    requires Inv(s) && a in s.agents && s.agents[a] == ag && AgentOk(s, a, ag) && MessageOk(s, a, m)
    requires ag.phase.Idle? && ag.queue != []
    ensures Inv(SetAgent(s, a, ag.(queue := ag.queue[1..], phase := Calling(m))))
  {
    var t := SetAgent(s, a, ag.(queue := ag.queue[1..], phase := Calling(m)));
    AgentStable(s, t, a, ag);
    QueueTail(s, a, ag.queue);
    QueueStable(s, t, a, ag.queue[1..]);
    LocalKeeps(s, t, a);
  }

  lemma QueueTail(s: State, a: AgentId, queue: seq<Message>)
    requires QueueOk(s, a, queue) && queue != []
    ensures QueueOk(s, a, queue[1..])
  {
    var rest := queue[1..];
    forall m | m in rest ensures MessageOk(s, a, m) { assert m in queue; }
    assert forall i | 0 <= i < |rest| :: rest[i] == queue[i + 1];
  }

  /** Agent `a` dequeues request `r`. */
  lemma TakenKeeps(s: State, t: State, a: AgentId, r: ReqId)
    requires Inv(s) && a in s.agents && SubmittedTo(s, a, r) && !s.handlers[r].status.Registered?
    requires t == s.(agents := t.agents, taken := s.taken + {r}) && t.agents.Keys == s.agents.Keys
    requires AgentOk(t, a, t.agents[a]) && forall b | b in s.agents && b != a :: t.agents[b] == s.agents[b]
    ensures Inv(t)
  {
    OtherAgentsStable(s, t, a);
    forall q | q in t.handlers ensures HandlerOk(t, q, t.handlers[q]) {
      assert HandlerOk(s, q, s.handlers[q]);
      if q in t.inbox { AnswerGrows(s, t, q, t.inbox[q]); }
      HandlerStable(s, t, q, s.handlers[q]);
    }
    AnswersStable(s, t);
  }

  lemma DequeueFrameKeeps(s: State, a: AgentId, m: Message, rest: seq<Message>)
    requires Inv(s) && a in s.agents && s.agents[a].phase.Idle? && s.agents[a].queue == [m] + rest
    requires FrameId(m).Some? && MessageOk(s, a, m) && !Answered(s, m.origin)
    ensures var t := DequeueStep(s, a); AgentOk(t, a, t.agents[a])
  {
    var t := DequeueStep(s, a);
    var ag := s.agents[a];
    assert AgentOk(s, a, ag) && ag.queue[0] == m && ag.queue[1..] == rest;
    forall i | 0 <= i < |rest| ensures MessageOk(t, a, rest[i]) {
      assert rest[i] == ag.queue[i + 1];
      assert MessageOk(s, a, ag.queue[i + 1]);
    }
    forall w | w in ag.workers ensures SubmittedTo(t, a, w.origin) { assert SubmittedTo(s, a, w.origin); }
  }

  lemma StoreKeeps(s: State, a: AgentId)
    requires Inv(s) && Enabled(s, Store(a))
    ensures Inv(Apply(s, Store(a)))
  {
    var t := Apply(s, Store(a));
    var ag := s.agents[a];
    assert AgentOk(s, a, ag);
    QueueStable(s, t, a, ag.queue);
    forall w | w in ag.workers ensures SubmittedTo(t, a, w.origin) { assert SubmittedTo(s, a, w.origin); }
    LocalKeeps(s, t, a);
  }

  lemma PhaseKeeps(s: State, a: AgentId, p: Phase)
    requires Inv(s) && a in s.agents && !s.agents[a].phase.Storing? && !p.Storing?
    requires PhaseOk(s, a, s.agents[a].(phase := p))
    ensures Inv(SetPhase(s, a, p))
  {
    var t := SetPhase(s, a, p);
    assert AgentOk(s, a, s.agents[a]);
    AgentStable(s, t, a, s.agents[a].(phase := p));
    LocalKeeps(s, t, a);
  }

  lemma ActivateKeeps(s: State, a: AgentId, act: Activation)
    requires Inv(s) && a in s.agents && s.agents[a].phase.Calling?
    ensures Inv(ActivateStep(s, a, act))
  {
    var ag := s.agents[a];
    var origin := ag.phase.msg.origin;
    assert AgentOk(s, a, ag);
    match act.call
    case NoCall => PhaseKeeps(s, a, Returned(act.ok, origin));
    case FinalResult(text) =>
      PhaseKeeps(s, a, Sending(if a in s.ids then Some(s.ids[a]) else None, text, origin, act.ok));
    case Spawn(cb) => SpawnKeeps(s, a, ag, act.ok, Worker(cb, origin));
  }

  lemma SpawnKeeps(s: State, a: AgentId, ag: Agent, ok: bool, w: Worker)
    requires Inv(s) && a in s.agents && s.agents[a] == ag && ag.phase.Calling? && ag.phase.msg.origin == w.origin
    ensures Inv(SetAgent(s, a, ag.(phase := Returned(ok, w.origin), workers := ag.workers + multiset{w})))
  {
    var t := SetAgent(s, a, ag.(phase := Returned(ok, w.origin), workers := ag.workers + multiset{w}));
    assert AgentOk(s, a, ag);
    AgentStable(s, t, a, ag);
    LocalKeeps(s, t, a);
  }

  lemma SendAnswerKeeps(s: State, a: AgentId, r: ReqId, text: string, origin: ReqId)
    requires Inv(s) && a in s.agents && !s.agents[a].phase.Storing?
    requires s.agents[a].last == Some(r) && SubmittedTo(s, a, origin)
    ensures Inv(SendAnswer(s, a, r, text, origin))
  {
    var t := SendAnswer(s, a, r, text, origin);
    if r in s.channels {
      var x := Answer(r, a, origin, s.agents[a].last, text);
      var ag := s.agents[a];
      assert AgentOk(s, a, ag) && HandlerOk(s, r, s.handlers[r]);
      assert t.sent == s.sent + [x] && x in t.sent && forall y | y in s.sent :: y in t.sent;
      assert Reqs(t.sent) == Reqs(s.sent) + {r};
      assert AgentOk(t, a, ag) by { AnswerOwn(s, t, a, ag); }
      OtherAgentsStable(s, t, a);
      forall q | q in t.handlers ensures HandlerOk(t, q, t.handlers[q]) {
        assert HandlerOk(s, q, s.handlers[q]);
        if q in s.inbox { AnswerGrows(s, t, q, s.inbox[q]); }
        if q == r { assert HasAnswer(t, r, text); }
        HandlerStable(s, t, q, s.handlers[q]);
      }
      SentSnoc(s, t, x);
    }
  }

  lemma AnswerOwn(s: State, t: State, a: AgentId, ag: Agent)
    requires AgentOk(s, a, ag) && !ag.phase.Storing?
    requires t.handlers == s.handlers && t.taken == s.taken && t.ids == s.ids
    ensures AgentOk(t, a, ag)
  {
    forall m | m in ag.queue ensures MessageOk(t, a, m) { assert MessageOk(s, a, m); }
    forall w | w in ag.workers ensures SubmittedTo(t, a, w.origin) { assert SubmittedTo(s, a, w.origin); }
  }

  lemma SentSnoc(s: State, t: State, x: Answer)
    requires SentOk(s) && t.sent == s.sent + [x] && t.handlers == s.handlers && t.taken == s.taken
    requires AnswerOk(s, x) && !Answered(s, x.req)
    ensures SentOk(t)
  {
    forall y | y in t.sent ensures AnswerOk(t, y) { assert y in s.sent ==> AnswerOk(s, y); }
    forall i | 0 <= i < |s.sent| ensures s.sent[i].req != x.req { assert s.sent[i] in s.sent; }
  }

  lemma DeliverKeeps(s: State, a: AgentId)
    requires Inv(s) && Enabled(s, Deliver(a))
    ensures Inv(Apply(s, Deliver(a)))
  {
    assert AgentOk(s, a, s.agents[a]);
    var p := s.agents[a].phase;
    var t := s;
    if p.found.Some? {
      SendAnswerKeeps(s, a, p.found.value, p.text, p.origin);
      t := SendAnswer(s, a, p.found.value, p.text, p.origin);
    }
    PhaseKeeps(t, a, Returned(p.ok, p.origin));
  }

  lemma FinishKeeps(s: State, a: AgentId)
    requires Inv(s) && Enabled(s, Finish(a))
    ensures Inv(Apply(s, Finish(a)))
  {
    var ag := s.agents[a];
    assert AgentOk(s, a, ag);
    if ag.phase.ok || ag.requestId.None? {
      PhaseKeeps(s, a, Idle);
    } else {
      var (r, text) := (ag.requestId.value, "Error: callback failed");
      SendAnswerKeeps(s, a, r, text, ag.phase.origin);
      PhaseKeeps(SendAnswer(s, a, r, text, ag.phase.origin), a, Clearing);
    }
  }

  lemma ClearKeeps(s: State, a: AgentId)
    requires Inv(s) && Enabled(s, ClearId(a))
    ensures Inv(Apply(s, ClearId(a)))
  {
    var t := Apply(s, ClearId(a));
    var ag := s.agents[a];
    assert AgentOk(s, a, ag);
    AgentStable(s, t, a, ag);
    assert AgentOk(t, a, t.agents[a]);
    LocalKeeps(s, t, a);
  }

  lemma StopKeeps(s: State, a: AgentId)
    requires Inv(s) && Enabled(s, Stop(a))
    ensures Inv(Apply(s, Stop(a)))
  {
    var t := Apply(s, Stop(a));
    var ag := s.agents[a];
    assert AgentOk(s, a, ag);
    AgentStable(s, t, a, ag);
    LocalKeeps(s, t, a);
  }

  lemma WorkerEndsKeeps(s: State, a: AgentId, ag: Agent, workers: multiset<Worker>)
    requires Inv(s) && a in s.agents && s.agents[a] == ag && workers <= ag.workers
    ensures Inv(SetAgent(s, a, ag.(workers := workers)))
  {
    var t := SetAgent(s, a, ag.(workers := workers));
    assert AgentOk(s, a, ag);
    AgentStable(s, t, a, ag);
    LocalKeeps(s, t, a);
  }

  lemma CompleteKeeps(s: State, a: AgentId, w: Worker, response: string)
    requires Inv(s) && a in s.agents && w in s.agents[a].workers && ParseFrame(response).None?
    ensures Inv(CompleteStep(s, a, w, response))
  {
    var ag := s.agents[a];
    var left := ag.(workers := ag.workers - multiset{w});
    var u := SetAgent(s, a, left);
    WorkerEndsKeeps(s, a, ag, left.workers);
    if !ag.phase.Stopped? {
      var m := Message(Some(response), w.callback, w.origin);
      assert AgentOk(s, a, ag) && AgentOk(u, a, u.agents[a]);
      assert SubmittedTo(s, a, w.origin);
      assert m.content.value == response && FrameId(m).None?;
      assert MessageOk(u, a, m);
      assert CompleteStep(s, a, w, response) == SetAgent(u, a, left.(queue := left.queue + [m]));
      AddMessage(u, a, left, m);
    }
  }

  lemma StepKeeps(s: State, step: Step)
    requires Inv(s) && Enabled(s, step) && Clean(step)
    ensures Inv(Apply(s, step))
  {
    match step
    case Submit(r, tool, json) => SubmitKeeps(s, r, tool, json);
    case Send(r) => SendKeeps(s, r);
    case Receive(_) => HandlerStepKeeps(s, step);
    case Timeout(_) => HandlerStepKeeps(s, step);
    case CleanChannel(_) => HandlerStepKeeps(s, step);
    case CleanIds(_) => HandlerStepKeeps(s, step);
    case Dequeue(a) => DequeueKeeps(s, a);
    case Store(a) => StoreKeeps(s, a);
    case Activate(a, act) => ActivateKeeps(s, a, act);
    case Deliver(a) => DeliverKeeps(s, a);
    case Finish(a) => FinishKeeps(s, a);
    case ClearId(a) => ClearKeeps(s, a);
    case Complete(a, w, response) => CompleteKeeps(s, a, w, response);
    case Stop(a) => StopKeeps(s, a);
  }

  lemma InitInv(registry: map<string, AgentId>)
    ensures Inv(Init(registry))
  {
    var s := Init(registry);
    forall a | a in s.agents ensures AgentOk(s, a, s.agents[a]) { }
  }

  lemma {:induction false} RunKeeps(s: State, steps: seq<Step>)
    requires Inv(s) && Feasible(s, steps) && AllClean(steps)
    ensures Inv(Run(s, steps))
    decreases |steps|
  {
    if steps != [] {
      StepKeeps(s, steps[0]);
      RunKeeps(Apply(s, steps[0]), steps[1..]);
    }
  }

  // --- Main results, for every interleaving ---

  /**
    Each request is answered at most once, only by the agent it was submitted to, and only while it is
    the last MCP request that agent has dequeued; the work behind the answer stems from a request to the
    same agent.
   */
  lemma {:induction false} RoutingRule(registry: map<string, AgentId>, steps: seq<Step>)
    requires Feasible(Init(registry), steps) && AllClean(steps)
    ensures var s := Run(Init(registry), steps);
      && (forall x | x in s.sent :: s.handlers.Keys >= {x.req, x.origin} && s.handlers[x.req].agent == x.agent
            && s.handlers[x.origin].agent == x.agent && x.last == Some(x.req))
      && (forall i, j | 0 <= i < j < |s.sent| :: s.sent[i].req != s.sent[j].req)
  {
    InitInv(registry);
    RunKeeps(Init(registry), steps);
    var s := Run(Init(registry), steps);
    forall x | x in s.sent ensures AnswerOk(s, x) { }
  }

  /** Between event-loop iterations the global entry of an agent, if present, is its own request id. */
  lemma {:induction false} IdTableAgrees(registry: map<string, AgentId>, steps: seq<Step>, a: AgentId)
    requires Feasible(Init(registry), steps) && AllClean(steps)
    ensures var s := Run(Init(registry), steps);
      a in s.ids ==> a in s.agents && (s.agents[a].phase.Idle? ==> s.agents[a].requestId == Some(s.ids[a]))
  {
    InitInv(registry);
    RunKeeps(Init(registry), steps);
    var s := Run(Init(registry), steps);
    if a in s.ids { assert AgentOk(s, a, s.agents[a]); }
  }

  predicate InNeitherTable(s: State, r: ReqId) { r !in s.channels && r !in s.ids.Values }

  lemma AgentStepsKeepHandlers(s: State, step: Step)
    requires Enabled(s, step)
    requires !(step.Submit? || step.Send? || step.Receive? || step.Timeout? || step.CleanChannel? || step.CleanIds?)
    ensures Apply(s, step).handlers == s.handlers && Apply(s, step).latest == s.latest
  {
    match step {
      case Dequeue(a) => DequeueKeepsHandlers(s, a);
      case Activate(a, act) => assert ActivateStep(s, a, act).handlers == s.handlers;
      case Deliver(a) => DeliverKeepsHandlers(s, a);
      case Finish(a) => FinishKeepsHandlers(s, a);
      case ClearId(a) => assert ClearStep(s, a).handlers == s.handlers;
      case Complete(a, w, response) => assert CompleteStep(s, a, w, response).handlers == s.handlers;
      case _ =>
    }
  }

  lemma DequeueKeepsHandlers(s: State, a: AgentId)
    requires a in s.agents && s.agents[a].queue != []
    ensures DequeueStep(s, a).handlers == s.handlers && DequeueStep(s, a).latest == s.latest
  {
  }

  lemma DeliverKeepsHandlers(s: State, a: AgentId)
    requires a in s.agents && s.agents[a].phase.Sending?
    ensures DeliverStep(s, a).handlers == s.handlers && DeliverStep(s, a).latest == s.latest
  {
  }

  lemma FinishKeepsHandlers(s: State, a: AgentId)
    requires a in s.agents && s.agents[a].phase.Returned?
    ensures FinishStep(s, a).handlers == s.handlers && FinishStep(s, a).latest == s.latest
  {
  }

  lemma DoneStays(s: State, step: Step, r: ReqId)
    requires Enabled(s, step) && r in s.handlers && s.handlers[r].status.Done?
    ensures var t := Apply(s, step); r in t.handlers && t.handlers[r] == s.handlers[r]
  {
    match step
    case Submit(_, _, _) =>
    case Send(_) =>
    case Receive(_) =>
    case Timeout(_) =>
    case CleanChannel(_) =>
    case CleanIds(_) =>
    case _ => AgentStepsKeepHandlers(s, step);
  }

  lemma {:induction false} DoneStaysForever(s: State, steps: seq<Step>, r: ReqId)
    requires Inv(s) && Feasible(s, steps) && AllClean(steps)
    requires r in s.handlers && s.handlers[r].status.Done?
    ensures var t := Run(s, steps);
      InNeitherTable(t, r) && r in t.handlers && t.handlers[r] == s.handlers[r]
        && HasAnswer(t, r, s.handlers[r].status.text)
    decreases |steps|
  {
    if steps == [] {
      assert HandlerOk(s, r, s.handlers[r]);
    } else {
      StepKeeps(s, steps[0]);
      DoneStays(s, steps[0], r);
      DoneStaysForever(Apply(s, steps[0]), steps[1..], r);
    }
  }

  lemma {:induction false} FeasibleSplit(s: State, first: seq<Step>, more: seq<Step>)
    requires Feasible(s, first + more)
    ensures Feasible(s, first) && Feasible(Run(s, first), more)
    ensures Run(s, first + more) == Run(Run(s, first), more)
    decreases |first|
  {
    if first == [] {
      assert first + more == more;
    } else {
      assert (first + more)[1..] == first[1..] + more;
      FeasibleSplit(Apply(s, first[0]), first[1..], more);
    }
  }

  /**
    Once a handler has returned Ok, its request id is in neither global table and never reappears,
    and the text it returned is the one answer sent to that request.
   */
  lemma {:induction false} ReturnedIdNeverReappears(registry: map<string, AgentId>, steps: seq<Step>, more: seq<Step>,
                                                    r: ReqId)
    requires Feasible(Init(registry), steps + more) && AllClean(steps) && AllClean(more)
    requires Feasible(Init(registry), steps)
    requires var s := Run(Init(registry), steps); r in s.handlers && s.handlers[r].status.Done?
    ensures var t := Run(Init(registry), steps + more);
      InNeitherTable(t, r) && r in t.handlers && t.handlers[r].status.Done?
        && HasAnswer(t, r, t.handlers[r].status.text)
  {
    FeasibleSplit(Init(registry), steps, more);
    InitInv(registry);
    RunKeeps(Init(registry), steps);
    DoneStaysForever(Run(Init(registry), steps), more, r);
  }

  /** The "channel was dropped" arm of `wait_for_response` is never taken. */
  lemma {:induction false} WaiterIsNeverDropped(registry: map<string, AgentId>, steps: seq<Step>, r: ReqId)
    requires Feasible(Init(registry), steps) && AllClean(steps)
    ensures var s := Run(Init(registry), steps);
      r in s.handlers && s.handlers[r].status.Waiting? ==> r in s.channels || r in s.inbox
  {
    InitInv(registry);
    RunKeeps(Init(registry), steps);
    var s := Run(Init(registry), steps);
    if r in s.handlers { assert HandlerOk(s, r, s.handlers[r]); }
  }
}
