/** A run that shows what replacing a VM does to a command that is still queued. */
module VmLimits {
  import opened Prelude
  import opened VmProtocol
  import VmTheorems

  lemma {:induction false} Extend(s: State, steps: seq<Step>, step: Step)
    requires Feasible(s, steps) && Enabled(Run(s, steps), step)
    ensures Feasible(s, steps + [step]) && Run(s, steps + [step]) == Apply(Run(s, steps), step)
    decreases |steps|
  {
    if steps == [] {
      assert steps + [step] == [step] && [step][1..] == [];
    } else {
      assert (steps + [step])[1..] == steps[1..] + [step];
      Extend(Apply(s, steps[0]), steps[1..], step);
    }
  }

  predicate Reaches(steps: seq<Step>, s: State) {
    Feasible(Init(true), steps) && Run(Init(true), steps) == s
  }

  lemma Then(steps: seq<Step>, s: State, step: Step) returns (longer: seq<Step>, t: State)
    requires Reaches(steps, s) && Enabled(s, step)
    ensures t == Apply(s, step) && Reaches(longer, t)
  {
    Extend(Init(true), steps, step);
    longer, t := steps + [step], Apply(s, step);
  }

  const VM: Name := "vm"

  /** One more VM is created under the name, over the one that is there. */
  lemma Create(steps: seq<Step>, s: State, c: nat) returns (longer: seq<Step>, t: State)
    requires Reaches(steps, s) && InRange(s) && c !in s.creations && s.image
    ensures Reaches(longer, t) && t.creations.Keys == s.creations.Keys && t.image && t.shutdown == s.shutdown
    ensures t.callers == s.callers && t.inbox == s.inbox && InRange(t)
    ensures var d := DropInstance(s, VM);
      t.incs == d.incs + [Incarnation(VM, s.nextCid, map[], [], Receiving, [], [])]
        && t.instances == d.instances[VM := |d.incs|]
  {
    var u;
    longer, u := Then(steps, s, BeginCreate(c, VM));
    longer, u := Then(longer, u, Launch(c, true));
    longer, t := Then(longer, u, Install(c));
  }

  /** Destroying the only VM takes the image with it; from then on no VM can be created. */
  lemma DestroyingEndsCreation() returns (steps: seq<Step>)
    ensures Feasible(Init(true), steps) && !Run(Init(true), steps).shutdown && Run(Init(true), steps).instances == map[]
    ensures VmTheorems.Barren(Run(Init(true), steps))
  {
    var s;
    steps, s := Create([], Init(true), 0);
    steps, s := Then(steps, s, Destroy(VM, true));
  }

  const COMMAND := Command(Cmd(0), Some(0))

  /** A caller has submitted a command to the first VM. */
  lemma Submitted() returns (steps: seq<Step>, s: State)
    ensures Reaches(steps, s) && InRange(s) && 1 !in s.creations && s.image && !s.shutdown
    ensures s.instances == map[VM := 0] && |s.incs| == 1 && s.incs[0].name == VM
    ensures s.incs[0].queue == [COMMAND] && s.incs[0].processor.Receiving? && s.incs[0].table == map[Cmd(0) := 0]
    ensures s.callers == map[0 := Caller(Execute, Cmd(0), 0, Polling)] && s.inbox == map[0 := []]
  {
    steps, s := [], Init(true);
    steps, s := Create(steps, s, 0);
    steps, s := Then(steps, s, Register(0, Execute, Cmd(0), VM));
    steps, s := Then(steps, s, Submit(0));
  }

  /** The VM is replaced before the command is taken. */
  lemma Replaced() returns (steps: seq<Step>, s: State)
    ensures Reaches(steps, s) && InRange(s) && !s.shutdown
    ensures s.instances == map[VM := 1] && |s.incs| == 2 && s.incs[0].name == VM
    ensures s.incs[0].queue == [COMMAND] && s.incs[0].processor.Receiving?
    ensures s.incs[0].table == map[] && s.incs[1].table == map[] && s.incs[1].processor.Receiving?
    ensures s.callers == map[0 := Caller(Execute, Cmd(0), 0, Polling)] && s.inbox == map[0 := []]
  {
    steps, s := Submitted();
    steps, s := Create(steps, s, 1);
  }

  /**
    The old incarnation's processor sends the command to the new VM, where nobody is registered for it,
    while the caller is told that the VM disconnected, which the retry loop answers by submitting again.
   */
  lemma CommandRunsOnReplacement() returns (steps: seq<Step>)
    ensures Feasible(Init(true), steps)
    ensures var s := Run(Init(true), steps);
      && 0 in s.callers && s.callers[0].inc == 0 && s.callers[0].progress.Polling?
      && |s.incs| == 2 && s.incs[0].processor == Working(Command(Cmd(0), Some(0)), None, 1)
      && Enabled(s, SeeDisconnected(0))
  {
    var s;
    steps, s := Replaced();
    steps, s := Then(steps, s, TakeCommand(0));
    assert 0 !in s.incs[0].table.Values && 0 !in s.incs[1].table.Values;
    assert NoSender(s, 0);
  }
}
