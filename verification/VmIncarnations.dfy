/** Which incarnation a queued command runs on: exactly, for every run. */
module VmIncarnations {
  import opened VmProtocol
  import opened VmSafety
  import VmTheorems

  /** The step takes incarnation `n`'s name away: its VM is destroyed or replaced, or all are cleared. */
  predicate TakesName(s: State, step: Step, n: nat)
    requires n < |s.incs| && Enabled(s, step)
  {
    match step
    case Destroy(name, _) => name == s.incs[n].name
    case Install(c) => s.creations[c].name == s.incs[n].name
    case ClearInstances => true
    case _ => false
  }

  /** No step of the run does. */
  predicate NameKept(s: State, steps: seq<Step>, n: nat)
    requires n < |s.incs| && Inv(s) && Feasible(s, steps)
    decreases |steps|
  {
    steps != [] ==>
      && !TakesName(s, steps[0], n)
      && (StepKeeps(s, steps[0]); StepNames(s, steps[0]); NameKept(Apply(s, steps[0]), steps[1..], n))
  }

  /** Names of incarnations never change, and none is lost. */
  predicate SameNames(s: State, t: State) {
    |s.incs| <= |t.incs| && forall n | 0 <= n < |s.incs| :: t.incs[n].name == s.incs[n].name
  }

  /** A name stands for its newest incarnation. */
  predicate Newest(s: State) {
    forall n | 0 <= n < |s.incs| && s.incs[n].name in s.instances :: n <= s.instances[s.incs[n].name]
  }

  lemma StepNames(s: State, step: Step)
    requires Inv(s) && Enabled(s, step)
    ensures SameNames(s, Apply(s, step))
  {
    if VmTheorems.OnCreation(step) { CreationNames(s, step); } else { VmTheorems.OtherSteps(s, step); }
  }

  lemma CreationNames(s: State, step: Step)
    requires Inv(s) && Enabled(s, step) && VmTheorems.OnCreation(step)
    ensures SameNames(s, Apply(s, step))
  {
  }

  lemma StepNewest(s: State, step: Step)
    requires Inv(s) && Newest(s) && Enabled(s, step)
    ensures Newest(Apply(s, step))
  {
    if VmTheorems.OnCreation(step) { CreationNewest(s, step); } else { VmTheorems.OtherSteps(s, step); }
  }

  lemma CreationNewest(s: State, step: Step)
    requires Inv(s) && Newest(s) && Enabled(s, step) && VmTheorems.OnCreation(step)
    ensures Newest(Apply(s, step))
  {
    CreationNames(s, step);
    NameTable(s, step);
    if step.Install? { InstallNewest(s, Apply(s, step), s.creations[step.c].name); }
  }

  lemma InstallNewest(s: State, t: State, name: Name)
    requires Newest(s) && SameNames(s, t) && |t.incs| == |s.incs| + 1 && t.incs[|s.incs|].name == name
    requires t.instances == s.instances[name := |s.incs|]
    ensures Newest(t)
  {
  }

  lemma {:induction false} RunNewest(s: State, steps: seq<Step>)
    requires Inv(s) && Newest(s) && Feasible(s, steps)
    ensures Newest(Run(s, steps))
    decreases |steps|
  {
    if steps != [] {
      StepKeeps(s, steps[0]);
      StepNewest(s, steps[0]);
      RunNewest(Apply(s, steps[0]), steps[1..]);
    }
  }

  /** An incarnation stays behind its name exactly if it was there and the step does not take the name away. */
  lemma LiveStep(s: State, step: Step, n: nat)
    requires Inv(s) && Enabled(s, step) && n < |s.incs|
    ensures LiveInc(Apply(s, step), n) <==> LiveInc(s, n) && !TakesName(s, step, n)
  {
    if !VmTheorems.OnCreation(step) { VmTheorems.OtherSteps(s, step); } else { StepNames(s, step); NameTable(s, step); }
  }

  /** What the steps of creators do to the table of names. */
  lemma NameTable(s: State, step: Step)
    requires Inv(s) && Enabled(s, step) && VmTheorems.OnCreation(step)
    ensures Apply(s, step).instances ==
      match step
      case Destroy(name, _) => s.instances - {name}
      case Install(c) => s.instances[s.creations[c].name := |s.incs|]
      case ClearInstances => map[]
      case _ => s.instances
  {
  }

  lemma {:induction false} LiveExactly(s: State, steps: seq<Step>, n: nat)
    requires Inv(s) && Feasible(s, steps) && n < |s.incs|
    ensures SameNames(s, Run(s, steps))
    ensures LiveInc(Run(s, steps), n) <==> LiveInc(s, n) && NameKept(s, steps, n)
    decreases |steps|
  {
    if steps != [] {
      StepKeeps(s, steps[0]);
      StepNames(s, steps[0]);
      LiveStep(s, steps[0], n);
      LiveExactly(Apply(s, steps[0]), steps[1..], n);
    }
  }

  /**
    Where a command goes when its incarnation's processor takes it, in every reachable state: it runs on its
    own incarnation exactly if that is still behind its name, on a later one exactly if the name stands for
    another, and on none exactly if the name has no VM; a processor that sees the shutdown ends instead.
   */
  lemma {:induction false} WhereTaken(image: bool, steps: seq<Step>, n: nat)
    requires Feasible(Init(image), steps) && Enabled(Run(Init(image), steps), TakeCommand(n))
    ensures var s := Run(Init(image), steps);
      var inc, p := s.incs[n], Apply(s, TakeCommand(n)).incs[n].processor;
      && (p.Working? ==> p.cmd == inc.queue[0])
      && (p.Working? && p.on == n <==> !s.shutdown && LiveInc(s, n))
      && (p.Working? && p.on > n <==> !s.shutdown && inc.name in s.instances && s.instances[inc.name] != n)
      && (p.Receiving? <==> !s.shutdown && inc.name !in s.instances)
      && (p.Exited? <==> s.shutdown)
  {
    Always(image, steps);
    RunKeeps(Init(image), steps);
    RunNewest(Init(image), steps);
  }

  lemma TakenOnOwn(s: State, n: nat)
    requires Enabled(s, TakeCommand(n))
    ensures var p := Apply(s, TakeCommand(n)).incs[n].processor;
      p.Working? && p.on == n <==> !s.shutdown && LiveInc(s, n)
  {
  }

  /**
    A caller's command runs on the incarnation the caller registered with exactly if, from then until the
    command is taken, no step takes that incarnation's name away and no shutdown has begun.
   */
  lemma {:induction false} RunsOnOwnExactly(image: bool, before: seq<Step>, t: nat, kind: Kind, id: CmdId, name: Name,
                                            middle: seq<Step>, n: nat)
    requires Feasible(Init(image), before)
    requires var s := Run(Init(image), before);
      Enabled(s, Register(t, kind, id, name)) && name in s.instances && s.instances[name] == n
    requires var s1 := Apply(Run(Init(image), before), Register(t, kind, id, name));
      Feasible(s1, middle) && Enabled(Run(s1, middle), TakeCommand(n))
    ensures var s1 := Apply(Run(Init(image), before), Register(t, kind, id, name));
      var s2 := Run(s1, middle);
      var p := Apply(s2, TakeCommand(n)).incs[n].processor;
      && Inv(s1) && n < |s1.incs|
      && (p.Working? && p.on == n <==> !s2.shutdown && NameKept(s1, middle, n))
  {
    Always(image, before);
    var s := Run(Init(image), before);
    StepKeeps(s, Register(t, kind, id, name));
    var s1 := Apply(s, Register(t, kind, id, name));
    VmTheorems.OtherSteps(s, Register(t, kind, id, name));
    LiveExactly(s1, middle, n);
    TakenOnOwn(Run(s1, middle), n);
  }

  /**
    A VM that has been inserted, by a reconnect or otherwise and whatever runs in between: before shutdown
    it is the healthy VM behind its name exactly if no step since then has taken the name away.
   */
  lemma {:induction false} InstalledExactly(image: bool, before: seq<Step>, c: nat, more: seq<Step>)
    requires Feasible(Init(image), before) && Enabled(Run(Init(image), before), Install(c))
    requires Feasible(Apply(Run(Init(image), before), Install(c)), more)
    ensures var s := Run(Init(image), before);
      var (s1, n, name) := (Apply(s, Install(c)), |s.incs|, s.creations[c].name);
      var t := Run(s1, more);
      && Inv(s1) && n < |s1.incs| && n < |t.incs|
      && (!t.shutdown ==>
            (name in t.instances && t.instances[name] == n && !t.incs[n].processor.Exited? <==> NameKept(s1, more, n)))
  {
    Always(image, before);
    var s := Run(Init(image), before);
    var (s1, n, name) := (Apply(s, Install(c)), |s.incs|, s.creations[c].name);
    StepKeeps(s, Install(c));
    LiveExactly(s1, more, n);
    RunKeeps(s1, more);
    var t := Run(s1, more);
    assert IncOk(t, n, t.incs[n]);
  }
}
