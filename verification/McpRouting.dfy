/** Which request an answer goes to, told from the state before it and from the run up to it. */
module McpRouting {
  import opened Prelude
  import opened McpProtocol
  import opened McpSafety

  // --- From the state in which the guest is called ---

  predicate OnHandler(step: Step) {
    step.Submit? || step.Send? || step.Receive? || step.Timeout? || step.CleanChannel? || step.CleanIds?
  }

  /** What a step may do to agent `a`'s loop: nothing, unless it is a step of that loop. */
  predicate LoopKept(s: State, t: State, a: AgentId)
    requires a in s.agents
  {
    a in t.agents && t.agents[a].phase == s.agents[a].phase && t.agents[a].last == s.agents[a].last
      && s.taken <= t.taken
  }

  lemma HandlerSteps(s: State, step: Step, a: AgentId)
    requires Enabled(s, step) && OnHandler(step) && a in s.agents
    ensures LoopKept(s, Apply(s, step), a)
  {
  }

  lemma OtherLoops(s: State, step: Step, a: AgentId)
    requires Enabled(s, step) && !OnHandler(step) && a in s.agents && (step.agent != a || step.Complete?)
    ensures LoopKept(s, Apply(s, step), a)
  {
    match step {
      case Dequeue(b) =>
      case Store(b) =>
      case Activate(b, _) =>
      case Deliver(b) => DeliverOthers(s, b, a);
      case Finish(b) => FinishOthers(s, b, a);
      case ClearId(b) =>
      case Complete(b, w, response) =>
      case Stop(b) =>
    }
  }

  lemma DeliverOthers(s: State, b: AgentId, a: AgentId)
    requires Enabled(s, Deliver(b)) && a in s.agents
    ensures var t := DeliverStep(s, b); a in t.agents && t.agents[a].last == s.agents[a].last && t.taken == s.taken
    ensures a != b ==> DeliverStep(s, b).agents[a] == s.agents[a]
  {
  }

  lemma AnswerOnly(s: State, a: AgentId, r: ReqId, text: string, origin: ReqId)
    requires a in s.agents
    ensures var t := SendAnswer(s, a, r, text, origin); t.agents == s.agents && t.taken == s.taken
  {
  }

  lemma FinishOthers(s: State, b: AgentId, a: AgentId)
    requires Enabled(s, Finish(b)) && a in s.agents
    ensures var t := FinishStep(s, b); a in t.agents && t.agents[a].last == s.agents[a].last && t.taken == s.taken
    ensures a != b ==> FinishStep(s, b).agents[a] == s.agents[a]
  {
    var ag := s.agents[b];
    if !ag.phase.ok && ag.requestId.Some? {
      AnswerOnly(s, b, ag.requestId.value, "Error: callback failed", ag.phase.origin);
    }
  }

  lemma SendingStays(s: State, step: Step, a: AgentId)
    requires Enabled(s, step) && a in s.agents && s.agents[a].phase.Sending? && step != Deliver(a)
    ensures var t := Apply(s, step); a in t.agents && t.agents[a].phase == s.agents[a].phase
  {
    if OnHandler(step) { HandlerSteps(s, step, a); } else { OtherLoops(s, step, a); }
  }

  lemma {:induction false} SendingStaysForRun(s: State, steps: seq<Step>, a: AgentId)
    requires Feasible(s, steps) && a in s.agents && s.agents[a].phase.Sending? && Deliver(a) !in steps
    ensures var t := Run(s, steps); a in t.agents && t.agents[a].phase == s.agents[a].phase
    decreases |steps|
  {
    if steps != [] {
      SendingStays(s, steps[0], a);
      SendingStaysForRun(Apply(s, steps[0]), steps[1..], a);
    }
  }

  /** The answer that a step adds, if any. */
  function Added(u: State, t: State): Option<Answer> {
    if |t.sent| > |u.sent| then Some(t.sent[|u.sent|]) else None
  }

  /**
    A `FinalResult` call while the guest works on message `m`, with anything in between up to its sending:
    it is sent exactly if the id table held an entry for the agent when it was called and that request's
    channel is still open, and then to that request; so to the request the work stems from exactly if the
    entry was that one's.
   */
  lemma {:induction false} FinalResultExactly(s: State, a: AgentId, text: string, ok: bool, middle: seq<Step>)
    requires a in s.agents && s.agents[a].phase.Calling?
    requires Feasible(ActivateStep(s, a, Activation(FinalResult(text), ok)), middle) && Deliver(a) !in middle
    ensures var u := Run(ActivateStep(s, a, Activation(FinalResult(text), ok)), middle);
      var m := s.agents[a].phase.msg;
      && Enabled(u, Deliver(a))
      && var x := Added(u, Apply(u, Deliver(a)));
         && (x.Some? <==> a in s.ids && s.ids[a] in u.channels)
         && (x.Some? ==> x.value.req == s.ids[a] && x.value.origin == m.origin && x.value.text == text)
         && (x.Some? && x.value.req == m.origin <==> a in s.ids && s.ids[a] == m.origin && m.origin in u.channels)
  {
    SendingStaysForRun(ActivateStep(s, a, Activation(FinalResult(text), ok)), middle, a);
  }

  // --- From the run ---

  predicate TakesFrame(s: State, step: Step, a: AgentId)
    requires Enabled(s, step)
  {
    step == Dequeue(a) && FrameId(s.agents[a].queue[0]).Some?
  }

  /** The agent dequeues no MCP request. */
  predicate NoFrame(s: State, steps: seq<Step>, a: AgentId)
    requires Feasible(s, steps)
    decreases |steps|
  {
    steps != [] ==> !TakesFrame(s, steps[0], a) && NoFrame(Apply(s, steps[0]), steps[1..], a)
  }

  lemma LastStep(s: State, step: Step, a: AgentId)
    requires Enabled(s, step) && a in s.agents && !TakesFrame(s, step, a)
    ensures var t := Apply(s, step); a in t.agents && t.agents[a].last == s.agents[a].last && s.taken <= t.taken
  {
    if OnHandler(step) {
      HandlerSteps(s, step, a);
    } else if step.agent != a || step.Complete? {
      OtherLoops(s, step, a);
    } else {
      OwnLoop(s, step, a);
    }
  }

  lemma OwnLoop(s: State, step: Step, a: AgentId)
    requires Enabled(s, step) && !OnHandler(step) && step.agent == a && !step.Complete? && !TakesFrame(s, step, a)
    ensures var t := Apply(s, step); a in t.agents && t.agents[a].last == s.agents[a].last && s.taken <= t.taken
  {
    match step {
      case Dequeue(_) =>
      case Store(_) =>
      case Activate(_, _) =>
      case Deliver(_) => DeliverOthers(s, a, a);
      case Finish(_) => FinishOthers(s, a, a);
      case ClearId(_) =>
      case Stop(_) =>
    }
  }

  lemma FrameStep(s: State, a: AgentId)
    requires Inv(s) && Enabled(s, Dequeue(a)) && TakesFrame(s, Dequeue(a), a)
    ensures var t := Apply(s, Dequeue(a));
      var id := FrameId(s.agents[a].queue[0]).value;
      a in t.agents && t.agents[a].last == Some(id) && id !in s.taken && t.taken == s.taken + {id}
  {
    var ag := s.agents[a];
    assert AgentOk(s, a, ag);
    assert ag.queue[0] in ag.queue && MessageOk(s, a, ag.queue[0]);
  }

  /** The last request dequeued stays the same exactly if none is dequeued; else it is one never dequeued before. */
  lemma {:induction false} LastExactly(s: State, steps: seq<Step>, a: AgentId)
    requires Inv(s) && Feasible(s, steps) && AllClean(steps) && a in s.agents
    ensures a in Run(s, steps).agents
    ensures var last := Run(s, steps).agents[a].last;
      if NoFrame(s, steps, a) then last == s.agents[a].last else last.Some? && last.value !in s.taken
    decreases |steps|
  {
    if steps != [] {
      assert Clean(steps[0]);
      StepKeeps(s, steps[0]);
      if TakesFrame(s, steps[0], a) { FrameStep(s, a); } else { LastStep(s, steps[0], a); }
      LastExactly(Apply(s, steps[0]), steps[1..], a);
    }
  }

  /**
    For every run: whatever an agent answers after it has dequeued the frame of `r` goes to `r` exactly if
    it has dequeued no other frame since.  With an answer that stems from `r` this is the exact condition
    for reaching the right caller.
   */
  lemma {:induction false} OwnAnswerExactly(registry: map<string, AgentId>, before: seq<Step>, a: AgentId, r: ReqId,
                                            middle: seq<Step>, answers: Step)
    requires Feasible(Init(registry), before) && AllClean(before) && AllClean(middle)
    requires var s := Run(Init(registry), before);
      Enabled(s, Dequeue(a)) && FrameId(s.agents[a].queue[0]) == Some(r)
    requires var s1 := Apply(Run(Init(registry), before), Dequeue(a));
      Feasible(s1, middle) && (answers == Deliver(a) || answers == Finish(a)) && Enabled(Run(s1, middle), answers)
    ensures var s1 := Apply(Run(Init(registry), before), Dequeue(a));
      var u := Run(s1, middle);
      var x := Added(u, Apply(u, answers));
      x.Some? ==> (x.value.req == r <==> NoFrame(s1, middle, a))
  {
    InitInv(registry);
    RunKeeps(Init(registry), before);
    var s := Run(Init(registry), before);
    StepKeeps(s, Dequeue(a));
    FrameStep(s, a);
    var s1 := Apply(s, Dequeue(a));
    RunKeeps(s1, middle);
    LastExactly(s1, middle, a);
    AnswersLast(Run(s1, middle), a, answers);
  }

  /** What an agent's step answers is the request it has dequeued last. */
  lemma AnswersLast(u: State, a: AgentId, answers: Step)
    requires Inv(u) && (answers == Deliver(a) || answers == Finish(a)) && Enabled(u, answers)
    ensures var x := Added(u, Apply(u, answers)); x.Some? ==> u.agents[a].last == Some(x.value.req)
  {
    assert AgentOk(u, a, u.agents[a]);
  }
}
