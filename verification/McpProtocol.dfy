/**
  The MCP request/answer protocol as an interleaved transition system.  Handlers, agents and worker
  threads take atomic steps; a step is one critical section or one channel operation of the source.
 */
module McpProtocol {
  import opened Prelude
  import opened McpFrame

  type ReqId = string
  type AgentId = string

  /** An item of an agent's channel; `origin` is the MCP request whose processing led to it. */
  datatype Message = Message(content: Option<string>, callback: string, origin: ReqId)

  /** A detached thread that will send its response to `callback`. */
  datatype Worker = Worker(callback: string, origin: ReqId)

  /** One activation of the guest: the host call it makes, if any, and whether it returns Ok. */
  datatype Call = NoCall | Spawn(callback: string) | FinalResult(text: string)
  datatype Activation = Activation(call: Call, ok: bool)

  /** Where an agent's event loop is. */
  datatype Phase =
    | Idle
    | Storing(id: ReqId, msg: Message)                                        // local id set, global id not yet
    | Calling(msg: Message)                                                   // about to call the guest
    | Sending(found: Option<ReqId>, text: string, origin: ReqId, ok: bool)       // FinalResult has looked up the id
    | Returned(ok: bool, origin: ReqId)
    | Clearing                                                                // error answered, id still stored
    | Stopped

  datatype Agent = Agent(queue: seq<Message>, requestId: Option<ReqId>, phase: Phase, workers: multiset<Worker>,
                         last: Option<ReqId>)

  datatype Status =
    | Registered(json: string) | Waiting | SendFailed | TimedOut
    | Received(text: string) | ChannelCleaned(text: string) | Done(text: string)

  datatype Handler = Handler(agent: AgentId, status: Status)

  /** One use of a response channel; `last` is the MCP request the agent had dequeued last. */
  datatype Answer = Answer(req: ReqId, agent: AgentId, origin: ReqId, last: Option<ReqId>, text: string)

  /**
    `channels` is MCP_RESPONSE_CHANNELS and `ids` is MCP_AGENT_REQUEST_IDS; `inbox` holds what the
    one-shot channels carried to a live receiver.  `taken`, `sent` and `latest` are history: requests
    dequeued, answers sent, and the request submitted last to each agent.
   */
  datatype State = State(registry: map<string, AgentId>, agents: map<AgentId, Agent>, channels: set<ReqId>,
                         ids: map<AgentId, ReqId>, handlers: map<ReqId, Handler>, inbox: map<ReqId, string>,
                         taken: set<ReqId>, sent: seq<Answer>, latest: map<AgentId, ReqId>)

  datatype Step =
    | Submit(req: ReqId, tool: string, json: string)
    | Send(req: ReqId)
    | Receive(req: ReqId)
    | Timeout(req: ReqId)
    | CleanChannel(req: ReqId)
    | CleanIds(req: ReqId)
    | Dequeue(agent: AgentId)
    | Store(agent: AgentId)
    | Activate(agent: AgentId, activation: Activation)
    | Deliver(agent: AgentId)
    | Finish(agent: AgentId)
    | ClearId(agent: AgentId)
    | Complete(agent: AgentId, worker: Worker, response: string)
    | Stop(agent: AgentId)

  // --- Handler steps ---

  /** Registers the response channel; an unknown tool is refused without any effect. */
  function SubmitStep(s: State, r: ReqId, tool: string, json: string): State {
    if tool !in s.registry then s
    else
      var a := s.registry[tool];
      s.(channels := s.channels + {r}, handlers := s.handlers[r := Handler(a, Registered(json))],
         latest := s.latest[a := r])
  }

  function SetStatus(s: State, r: ReqId, status: Status): State
    requires r in s.handlers
  {
    s.(handlers := s.handlers[r := s.handlers[r].(status := status)])
  }

  function SetAgent(s: State, a: AgentId, ag: Agent): State { s.(agents := s.agents[a := ag]) }

  /** Sends the framed request; fails when the agent's receiver is gone. */
  function SendStep(s: State, r: ReqId): State
    requires r in s.handlers && s.handlers[r].status.Registered? && s.handlers[r].agent in s.agents
  {
    var h := s.handlers[r];
    var ag := s.agents[h.agent];
    if ag.phase.Stopped? then SetStatus(s, r, SendFailed)
    else
      var m := Message(Some(Frame(r, h.status.json)), "Run", r);
      SetStatus(SetAgent(s, h.agent, ag.(queue := ag.queue + [m])), r, Waiting)
  }

  /** Removes from the id table every agent whose entry is `r`. */
  function WithoutId(ids: map<AgentId, ReqId>, r: ReqId): map<AgentId, ReqId> {
    map a | a in ids && ids[a] != r :: ids[a]
  }

  // --- Agent steps ---

  /** The request id of a framed message. */
  function FrameId(m: Message): Option<ReqId> {
    if m.content.Some? && ParseFrame(m.content.value).Some? then Some(ParseFrame(m.content.value).value.0) else None
  }

  /** `try_recv` and, for a frame, setting `agent.request_id`. */
  function DequeueStep(s: State, a: AgentId): State
    requires a in s.agents && s.agents[a].queue != []
  {
    var ag := s.agents[a];
    var m, rest := ag.queue[0], ag.queue[1..];
    if FrameId(m).Some? then
      var id := FrameId(m).value;
      SetAgent(s, a, ag.(queue := rest, requestId := Some(id), phase := Storing(id, m), last := Some(id)))
        .(taken := s.taken + {id})
    else SetAgent(s, a, ag.(queue := rest, phase := Calling(m)))
  }

  /** Agent `ag` after the guest call, up to the point where a host function would take its second lock. */
  function AfterCall(ag: Agent, act: Activation, stored: Option<ReqId>): Agent
    requires ag.phase.Calling?
  {
    var origin := ag.phase.msg.origin;
    match act.call
    case NoCall => ag.(phase := Returned(act.ok, origin))
    case Spawn(cb) => ag.(phase := Returned(act.ok, origin), workers := ag.workers + multiset{Worker(cb, origin)})
    case FinalResult(text) => ag.(phase := Sending(stored, text, origin, act.ok))
  }

  /** FinalResult looks the request id up in the global table. */
  function ActivateStep(s: State, a: AgentId, act: Activation): State
    requires a in s.agents && s.agents[a].phase.Calling?
  {
    SetAgent(s, a, AfterCall(s.agents[a], act, if a in s.ids then Some(s.ids[a]) else None))
  }

  /** `channels.remove(r)` and, if there was a sender, `tx.send`; a dropped receiver loses the text. */
  function SendAnswer(s: State, a: AgentId, r: ReqId, text: string, origin: ReqId): State
    requires a in s.agents
  {
    if r !in s.channels then s
    else
      var alive := r in s.handlers && (s.handlers[r].status.Registered? || s.handlers[r].status.Waiting?);
      s.(channels := s.channels - {r},
         sent := s.sent + [Answer(r, a, origin, s.agents[a].last, text)],
         inbox := if alive then s.inbox[r := text] else s.inbox)
  }

  function SetPhase(s: State, a: AgentId, p: Phase): State
    requires a in s.agents
  {
    SetAgent(s, a, s.agents[a].(phase := p))
  }

  function DeliverStep(s: State, a: AgentId): State
    requires a in s.agents && s.agents[a].phase.Sending?
  {
    var p := s.agents[a].phase;
    var t := if p.found.Some? then SendAnswer(s, a, p.found.value, p.text, p.origin) else s;
    SetPhase(t, a, Returned(p.ok, p.origin))
  }

  /** `handle_callback_result`: on an error with an active request, answer it with the error text. */
  function FinishStep(s: State, a: AgentId): State
    requires a in s.agents && s.agents[a].phase.Returned?
  {
    var ag := s.agents[a];
    if ag.phase.ok || ag.requestId.None? then SetPhase(s, a, Idle)
    else SetPhase(SendAnswer(s, a, ag.requestId.value, "Error: callback failed", ag.phase.origin), a, Clearing)
  }

  function ClearStep(s: State, a: AgentId): State
    requires a in s.agents
  {
    SetAgent(s, a, s.agents[a].(phase := Idle, requestId := None)).(ids := map b | b in s.ids && b != a :: s.ids[b])
  }

  /** A worker sends its response, unless the agent is gone, and ends. */
  function CompleteStep(s: State, a: AgentId, w: Worker, response: string): State
    requires a in s.agents && w in s.agents[a].workers
  {
    var ag := s.agents[a];
    var m := Message(Some(response), w.callback, w.origin);
    SetAgent(s, a, ag.(workers := ag.workers - multiset{w},
                       queue := if ag.phase.Stopped? then ag.queue else ag.queue + [m]))
  }

  // --- The transition system ---

  predicate Enabled(s: State, step: Step) {
    match step
    case Submit(r, _, _) => r !in s.handlers && ':' !in r                       // a fresh uuid
    case Send(r) => r in s.handlers && s.handlers[r].status.Registered? && s.handlers[r].agent in s.agents
    case Receive(r) => r in s.handlers && s.handlers[r].status.Waiting? && r in s.inbox
    case Timeout(r) => r in s.handlers && s.handlers[r].status.Waiting?
    case CleanChannel(r) => r in s.handlers && s.handlers[r].status.Received?
    case CleanIds(r) => r in s.handlers && s.handlers[r].status.ChannelCleaned?
    case Dequeue(a) => a in s.agents && s.agents[a].phase.Idle? && s.agents[a].queue != []
    case Store(a) => a in s.agents && s.agents[a].phase.Storing?
    case Activate(a, _) => a in s.agents && s.agents[a].phase.Calling?
    case Deliver(a) => a in s.agents && s.agents[a].phase.Sending?
    case Finish(a) => a in s.agents && s.agents[a].phase.Returned?
    case ClearId(a) => a in s.agents && s.agents[a].phase.Clearing?
    case Complete(a, w, _) => a in s.agents && w in s.agents[a].workers
    case Stop(a) => a in s.agents && s.agents[a].phase.Idle?
  }

  function Apply(s: State, step: Step): State
    requires Enabled(s, step)
  {
    match step
    case Submit(r, tool, json) => SubmitStep(s, r, tool, json)
    case Send(r) => SendStep(s, r)
    case Receive(r) => SetStatus(s, r, Received(s.inbox[r]))
    case Timeout(r) => SetStatus(s, r, TimedOut)
    case CleanChannel(r) => SetStatus(s, r, ChannelCleaned(s.handlers[r].status.text)).(channels := s.channels - {r})
    case CleanIds(r) => SetStatus(s, r, Done(s.handlers[r].status.text)).(ids := WithoutId(s.ids, r))
    case Dequeue(a) => DequeueStep(s, a)
    case Store(a) =>
      SetPhase(s, a, Calling(s.agents[a].phase.msg)).(ids := s.ids[a := s.agents[a].phase.id])
    case Activate(a, act) => ActivateStep(s, a, act)
    case Deliver(a) => DeliverStep(s, a)
    case Finish(a) => FinishStep(s, a)
    case ClearId(a) => ClearStep(s, a)
    case Complete(a, w, response) => CompleteStep(s, a, w, response)
    case Stop(a) => SetAgent(s, a, s.agents[a].(phase := Stopped, queue := []))
  }

  predicate Feasible(s: State, steps: seq<Step>)
    decreases |steps|
  {
    steps == [] || (Enabled(s, steps[0]) && Feasible(Apply(s, steps[0]), steps[1..]))
  }

  function Run(s: State, steps: seq<Step>): State
    requires Feasible(s, steps)
    decreases |steps|
  {
    if steps == [] then s else Run(Apply(s, steps[0]), steps[1..])
  }

  /** No worker response looks like a framed request. */
  predicate Clean(step: Step) { step.Complete? ==> ParseFrame(step.response).None? }

  predicate AllClean(steps: seq<Step>) { forall step | step in steps :: Clean(step) }

  const NewAgent := Agent([], None, Idle, multiset{}, None)

  /** Agents with distinct ids, registered under their tool names; no request yet. */
  function Init(registry: map<string, AgentId>): State {
    State(registry, map a | a in registry.Values :: NewAgent, {}, map[], map[], map[], {}, [], map[])
  }
}
