/**
  The objects behind the protocol: the global tables, the agents' channels and the code that updates
  them in place.  Every method is tied to the transition system's steps.
 */
module McpHost {
  import opened Prelude
  import opened McpFrame
  import opened McpProtocol
  import opened McpSafety

  // --- One iteration of the event loop, as the agent's own steps ---

  /** Up to the guest call. */
  function TakeSteps(s: State, a: AgentId): (t: State)
    requires a in s.agents && s.agents[a].phase.Idle? && s.agents[a].queue != []
    ensures a in t.agents && t.agents[a].phase.Calling?
  {
    var s1 := DequeueStep(s, a);
    if s1.agents[a].phase.Storing? then Apply(s1, Store(a)) else s1
  }

  /** For a frame both steps change the agent once. */
  lemma FrameTaken(s: State, a: AgentId, id: ReqId)
    requires a in s.agents && s.agents[a].phase.Idle? && s.agents[a].queue != []
      && FrameId(s.agents[a].queue[0]) == Some(id)
    ensures var ag := s.agents[a];
      TakeSteps(s, a).agents ==
        s.agents[a := ag.(queue := ag.queue[1..], phase := Calling(ag.queue[0]),
                          requestId := Some(id), last := Some(id))]
  {
    var ag := s.agents[a];
    var s1 := DequeueStep(s, a);
    assert s1.agents == s.agents[a := s1.agents[a]];
    assert TakeSteps(s, a) == Apply(s1, Store(a));
    assert TakeSteps(s, a).agents == s1.agents[a := s1.agents[a].(phase := Calling(ag.queue[0]))];
  }

  /** The guest call, with FinalResult run inside it. */
  function CallSteps(s: State, a: AgentId, act: Activation): (t: State)
    requires a in s.agents && s.agents[a].phase.Calling?
    ensures a in t.agents && t.agents[a].phase.Returned?
  {
    var s1 := ActivateStep(s, a, act);
    if s1.agents[a].phase.Sending? then DeliverStep(s1, a) else s1
  }

  /** `handle_callback_result`. */
  function ResultSteps(s: State, a: AgentId): (t: State)
    requires a in s.agents && s.agents[a].phase.Returned?
    ensures a in t.agents && t.agents[a].phase.Idle?
  {
    var s1 := FinishStep(s, a);
    if s1.agents[a].phase.Clearing? then ClearStep(s1, a) else s1
  }

  function Iteration(s: State, a: AgentId, act: Activation): State
    requires a in s.agents && s.agents[a].phase.Idle? && s.agents[a].queue != []
  {
    ResultSteps(CallSteps(TakeSteps(s, a), a, act), a)
  }

  class Host {
    const registry: map<string, AgentId>
    var agents: map<AgentId, Agent>
    var channels: set<ReqId>
    var ids: map<AgentId, ReqId>
    var handlers: map<ReqId, Handler>
    var inbox: map<ReqId, string>
    ghost var taken: set<ReqId>
    ghost var sent: seq<Answer>
    ghost var latest: map<AgentId, ReqId>

    ghost function Abs(): State
      reads this
    {
      State(registry, agents, channels, ids, handlers, inbox, taken, sent, latest)
    }

    constructor (tools: map<string, AgentId>)
      ensures registry == tools && Abs() == Init(tools)
    {
      registry := tools;
      agents := map a | a in tools.Values :: NewAgent;
      channels, ids, handlers, inbox := {}, map[], map[], map[];
      taken, sent, latest := {}, [], map[];
    }

    // --- handle_call_tool_request ---

    /** Looks the tool up and registers the response channel. */
    method Register(r: ReqId, tool: string, json: string) returns (found: bool)
      requires Enabled(Abs(), Submit(r, tool, json))
      modifies this
      ensures found == (tool in registry)
      ensures Abs() == Apply(old(Abs()), Submit(r, tool, json))
    {
      found := tool in registry;
      if found {
        var a := registry[tool];
        channels := channels + {r};
        handlers := handlers[r := Handler(a, Registered(json))];
        latest := latest[a := r];
      }
    }

    /** Sends the framed request to the agent's channel. */
    method SendRequest(r: ReqId) returns (ok: bool)
      requires Enabled(Abs(), Send(r))
      modifies this
      ensures ok == !old(Abs()).agents[old(Abs()).handlers[r].agent].phase.Stopped?
      ensures Abs() == Apply(old(Abs()), Send(r))
    {
      var h := handlers[r];
      var ag := agents[h.agent];
      ok := !ag.phase.Stopped?;
      if ok {
        agents := agents[h.agent := ag.(queue := ag.queue + [Message(Some(Frame(r, h.status.json)), "Run", r)])];
      }
      handlers := handlers[r := h.(status := if ok then Waiting else SendFailed)];
    }

    /** `wait_for_response`: the text if it has arrived, otherwise, when time is up, nothing. */
    method WaitForResponse(r: ReqId, expired: bool) returns (response: Option<string>)
      requires r in handlers && handlers[r].status.Waiting? && (expired || r in inbox)
      modifies this
      ensures response == if r in old(inbox) then Some(old(inbox)[r]) else None
      ensures Abs() == Apply(old(Abs()), if r in old(inbox) then Receive(r) else Timeout(r))
    {
      var h := handlers[r];
      if r in inbox {
        response := Some(inbox[r]);
        handlers := handlers[r := h.(status := Received(inbox[r]))];
      } else {
        response := None;
        handlers := handlers[r := h.(status := TimedOut)];
      }
    }

    /** Removes whatever the tables still hold for `r`, and returns the text. */
    method CleanUp(r: ReqId) returns (text: string)
      requires r in handlers && handlers[r].status.Received?
      modifies this
      ensures text == old(Abs()).handlers[r].status.text
      ensures Enabled(Apply(old(Abs()), CleanChannel(r)), CleanIds(r))
      ensures Abs() == Apply(Apply(old(Abs()), CleanChannel(r)), CleanIds(r))
    {
      var h := handlers[r];
      text := h.status.text;
      channels := channels - {r};
      handlers := handlers[r := h.(status := ChannelCleaned(text))];
      label locked:
      var agentsToClear := set a | a in ids && ids[a] == r;
      ids := ids - agentsToClear;
      assert ids == WithoutId(old@locked(ids), r);
      handlers := handlers[r := h.(status := Done(text))];
    }

    // --- The agent's thread ---

    /** `try_recv`, and for a frame the local and then the global request id; returns what to call. */
    method TakeMessage(a: AgentId) returns (msg: Message)
      requires Enabled(Abs(), Dequeue(a))
      modifies this
      ensures Abs() == TakeSteps(old(Abs()), a)
      ensures a in agents && agents[a].phase == Calling(msg)
    {
      var ag := agents[a];
      msg := ag.queue[0];
      ag := ag.(queue := ag.queue[1..], phase := Calling(msg));
      if FrameId(msg).Some? {
        var id := FrameId(msg).value;
        FrameTaken(Abs(), a, id);
        ag := ag.(requestId := Some(id), last := Some(id));
        ids := ids[a := id];
        taken := taken + {id};
      }
      agents := agents[a := ag];
    }

    /** `channels.remove(r)` and `tx.send(text)`. */
    method Answer(a: AgentId, r: ReqId, text: string, origin: ReqId)
      requires a in agents
      modifies this`channels, this`inbox, this`sent
      ensures Abs() == SendAnswer(old(Abs()), a, r, text, origin)
    {
      if r in channels {
        channels := channels - {r};
        sent := sent + [McpProtocol.Answer(r, a, origin, agents[a].last, text)];
        if r in handlers && (handlers[r].status.Registered? || handlers[r].status.Waiting?) {
          inbox := inbox[r := text];
        }
      }
    }

    /** The guest call, with the `FinalResult` host function run inside it. */
    method CallGuest(a: AgentId, act: Activation)
      requires a in agents && agents[a].phase.Calling?
      modifies this
      ensures Abs() == CallSteps(old(Abs()), a, act)
      ensures a in agents && agents[a].phase.Returned?
    {
      var ag := agents[a];
      var origin := ag.phase.msg.origin;
      match act.call {
        case NoCall =>
        case Spawn(cb) =>
          ag := ag.(workers := ag.workers + multiset{Worker(cb, origin)});
        case FinalResult(text) =>
          if a in ids {
            Answer(a, ids[a], text, origin);
          }
      }
      agents := agents[a := ag.(phase := Returned(act.ok, origin))];
      assert agents == CallSteps(old(Abs()), a, act).agents;
    }

    /** `handle_callback_result`. */
    method HandleCallbackResult(a: AgentId)
      requires a in agents && agents[a].phase.Returned?
      modifies this
      ensures Abs() == ResultSteps(old(Abs()), a)
      ensures a in agents && agents[a].phase.Idle?
    {
      var ag := agents[a];
      if !ag.phase.ok && ag.requestId.Some? {
        Answer(a, ag.requestId.value, "Error: callback failed", ag.phase.origin);
        ids := ids - {a};
        ag := ag.(requestId := None);
      }
      agents := agents[a := ag.(phase := Idle)];
      assert agents == ResultSteps(old(Abs()), a).agents && ids == ResultSteps(old(Abs()), a).ids;
    }

    /** The body of `run_agent_event_loop` for one message. */
    method ProcessMessage(a: AgentId, act: Activation)
      requires Enabled(Abs(), Dequeue(a))
      modifies this
      ensures Abs() == Iteration(old(Abs()), a, act)
      ensures a in agents && agents[a].phase.Idle?
    {
      var msg := TakeMessage(a);
      CallGuest(a, act);
      HandleCallbackResult(a);
    }

    /** A worker thread sends its response and ends. */
    method WorkerDone(a: AgentId, w: Worker, response: string)
      requires Enabled(Abs(), Complete(a, w, response))
      modifies this`agents
      ensures Abs() == Apply(old(Abs()), Complete(a, w, response))
    {
      var ag := agents[a];
      var queue := if ag.phase.Stopped? then ag.queue else ag.queue + [Message(Some(response), w.callback, w.origin)];
      agents := agents[a := ag.(workers := ag.workers - multiset{w}, queue := queue)];
    }
  }

  lemma TakeStepsKeep(s: State, a: AgentId)
    requires Inv(s) && a in s.agents && s.agents[a].phase.Idle? && s.agents[a].queue != []
    ensures Inv(TakeSteps(s, a))
  {
    DequeueKeeps(s, a);
    var s1 := DequeueStep(s, a);
    if s1.agents[a].phase.Storing? { StoreKeeps(s1, a); }
  }

  lemma CallStepsKeep(s: State, a: AgentId, act: Activation)
    requires Inv(s) && a in s.agents && s.agents[a].phase.Calling?
    ensures Inv(CallSteps(s, a, act))
  {
    ActivateKeeps(s, a, act);
    var s1 := ActivateStep(s, a, act);
    if s1.agents[a].phase.Sending? { DeliverKeeps(s1, a); }
  }

  lemma ResultStepsKeep(s: State, a: AgentId)
    requires Inv(s) && a in s.agents && s.agents[a].phase.Returned?
    ensures Inv(ResultSteps(s, a))
  {
    FinishKeeps(s, a);
    var s1 := FinishStep(s, a);
    if s1.agents[a].phase.Clearing? { ClearKeeps(s1, a); }
  }

  /** An iteration keeps the protocol's invariant and leaves the agent ready for the next one. */
  lemma IterationKeeps(s: State, a: AgentId, act: Activation)
    requires Inv(s) && a in s.agents && s.agents[a].phase.Idle? && s.agents[a].queue != []
    ensures var t := Iteration(s, a, act);
      Inv(t) && a in t.agents && t.agents[a].phase.Idle? && (a in t.ids ==> t.agents[a].requestId == Some(t.ids[a]))
  {
    TakeStepsKeep(s, a);
    CallStepsKeep(TakeSteps(s, a), a, act);
    ResultStepsKeep(CallSteps(TakeSteps(s, a), a, act), a);
    var t := Iteration(s, a, act);
    assert AgentOk(t, a, t.agents[a]);
  }
}
