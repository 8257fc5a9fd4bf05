/** The main results about the VM manager, for every interleaving. */
module VmTheorems {
  import opened Prelude
  import opened VmProtocol
  import opened VmSafety

  /**
    An execute caller receives at most one result, and it is that of its own command, run by the
    incarnation the caller registered with.
   */
  lemma {:induction false} OwnResultAtMostOnce(image: bool, steps: seq<Step>, t: nat)
    requires Feasible(Init(image), steps)
    requires var s := Run(Init(image), steps); IsExecute(s, t) && t in s.inbox
    ensures var s := Run(Init(image), steps);
      && |s.inbox[t]| <= 1 && (forall r | r in s.inbox[t] :: r.id == Cmd(t))
      && (forall d | d in s.delivered && d.to == t :: d.cmd == Command(Cmd(t), Some(t)) && d.on == s.callers[t].inc)
      && (forall i, j | 0 <= i < j < |s.delivered| && s.delivered[i].to == t :: s.delivered[j].to != t)
  {
    Always(image, steps);
    var s := Run(Init(image), steps);
    assert CallerOk(s, t, s.callers[t]) && InboxOk(s, t, s.inbox[t]);
    forall d | d in s.delivered && d.to == t ensures d.cmd == Command(Cmd(t), Some(t)) && d.on == s.callers[t].inc {
      assert DeliveryOk(s, d);
    }
  }

  /** The commands of one incarnation are processed in the order they were submitted, each once. */
  lemma {:induction false} SubmissionOrder(image: bool, steps: seq<Step>, n: nat)
    requires Feasible(Init(image), steps) && n < |Run(Init(image), steps).incs|
    ensures var inc := Run(Init(image), steps).incs[n];
      && inc.submitted == inc.finished + InHand(inc.processor) + inc.queue
      && (forall i, j | 0 <= i < j < |inc.submitted| && inc.submitted[i].caller.Some? ::
            inc.submitted[i] != inc.submitted[j])
  {
    Always(image, steps);
    var s := Run(Init(image), steps);
    assert IncOk(s, n, s.incs[n]);
  }

  /**
    An execute caller can see "VM disconnected" only if the incarnation it registered with no longer
    stands behind its name, and a closed command channel only after shutdown has begun.
   */
  lemma {:induction false} DisconnectMeansGone(image: bool, steps: seq<Step>, t: nat)
    requires Feasible(Init(image), steps)
    requires IsExecute(Run(Init(image), steps), t)
    ensures var s := Run(Init(image), steps);
      && (Enabled(s, SeeDisconnected(t)) || s.callers[t].progress == Returned(Disconnected) ==>
        !LiveInc(s, s.callers[t].inc))
      && (s.callers[t].progress == Returned(SendFailed) ==> s.shutdown)
  {
    Always(image, steps);
    var s := Run(Init(image), steps);
    assert CallerOk(s, t, s.callers[t]);
    if Enabled(s, SeeDisconnected(t)) { DeadWithoutEntry(s, t, s.callers[t]); }
  }

  /** While the manager is not shutting down, a health check fails only for a name without a VM. */
  lemma {:induction false} LiveProcessorRuns(image: bool, steps: seq<Step>, name: Name)
    requires Feasible(Init(image), steps)
    ensures var s := Run(Init(image), steps);
      !s.shutdown && name in s.instances ==>
        s.instances[name] < |s.incs| && !s.incs[s.instances[name]].processor.Exited?
  {
    Always(image, steps);
    var s := Run(Init(image), steps);
    if name in s.instances { assert IncOk(s, s.instances[name], s.incs[s.instances[name]]); }
  }

  /** Before shutdown a result table holds only active execute calls, past spawns, and the list and stop ids. */
  lemma {:induction false} TableKeys(image: bool, steps: seq<Step>, n: nat, id: CmdId)
    requires Feasible(Init(image), steps)
    requires var s := Run(Init(image), steps); !s.shutdown && n < |s.incs| && id in s.incs[n].table
    ensures var s := Run(Init(image), steps);
      || id.ListId? || id.StopId?
      || (id.Cmd? && id.n in s.callers && s.callers[id.n].inc == n
          && (s.callers[id.n].kind.SpawnProcess? || (s.callers[id.n].kind.Execute? && s.callers[id.n].Active())))
  {
    Always(image, steps);
    var s := Run(Init(image), steps);
    assert IncOk(s, n, s.incs[n]);
    var t := s.incs[n].table[id];
    assert EntryOk(s, n, id, t) && CallerOk(s, t, s.callers[t]);
  }

  /** All CIDs in use, by VMs past and present and by creations under way, are distinct and below the next one. */
  lemma {:induction false} CidsDistinct(image: bool, steps: seq<Step>)
    requires Feasible(Init(image), steps)
    ensures var s := Run(Init(image), steps);
      && (forall m, n | 0 <= m < n < |s.incs| :: s.incs[m].cid != s.incs[n].cid)
      && (forall c, n | c in s.creations && 0 <= n < |s.incs| :: s.creations[c].cid != s.incs[n].cid)
      && (forall c, d | c in s.creations && d in s.creations && c != d :: s.creations[c].cid != s.creations[d].cid)
      && (forall n | 0 <= n < |s.incs| :: FIRST_CID <= s.incs[n].cid < s.nextCid)
  {
    Always(image, steps);
    var s := Run(Init(image), steps);
    forall n | 0 <= n < |s.incs| ensures FIRST_CID <= s.incs[n].cid < s.nextCid { assert IncOk(s, n, s.incs[n]); }
    forall c | c in s.creations ensures CreationOk(s, c, s.creations[c]) { }
  }

  /** How many creations a run begins, whether or not they succeed. */
  function Creations(steps: seq<Step>): nat {
    if steps == [] then 0 else (if steps[0].BeginCreate? then 1 else 0) + Creations(steps[1..])
  }

  /** The counter counts the creations begun and nothing else. */
  lemma {:induction false} CidCounts(s: State, steps: seq<Step>)
    requires Feasible(s, steps)
    ensures Run(s, steps).nextCid == s.nextCid + Creations(steps)
    decreases |steps|
  {
    if steps != [] {
      if OnCreation(steps[0]) { CidOnCreation(s, steps[0]); } else { OtherSteps(s, steps[0]); }
      CidCounts(Apply(s, steps[0]), steps[1..]);
    }
  }

  /**
    So the source's 32-bit counter agrees with the model's unbounded one exactly as long as 2^32 - 101
    creations last.
   */
  lemma {:induction false} CidFitsExactly(image: bool, steps: seq<Step>)
    requires Feasible(Init(image), steps)
    ensures Run(Init(image), steps).nextCid < 0x1_0000_0000 <==> Creations(steps) <= 0x1_0000_0000 - 101
  {
    CidCounts(Init(image), steps);
  }

  lemma CidOnCreation(s: State, step: Step)
    requires Enabled(s, step) && OnCreation(step)
    ensures Apply(s, step).nextCid == s.nextCid + if step.BeginCreate? then 1 else 0
  {
    match step {
      case Destroy(name, removed) => assert DestroyStep(s, name, removed).nextCid == s.nextCid;
      case Install(c) => assert InstallStep(s, c).nextCid == s.nextCid;
      case Launch(c, ok) => assert LaunchStep(s, c, ok).nextCid == s.nextCid;
      case ClearInstances => assert ClearStep(s).nextCid == s.nextCid;
      case _ =>
    }
  }

  /** A CID once handed out, even to a creation that then fails, is never handed out again. */
  lemma {:induction false} HandedOutOnce(s: State, c: nat, name: Name, more: seq<Step>)
    requires Enabled(s, BeginCreate(c, name)) && Feasible(Apply(s, BeginCreate(c, name)), more)
    ensures var t := Run(Apply(s, BeginCreate(c, name)), more);
      forall d, other :: Enabled(t, BeginCreate(d, other)) ==>
        Apply(t, BeginCreate(d, other)).creations[d].cid != Apply(s, BeginCreate(c, name)).creations[c].cid
  {
    CidCounts(Apply(s, BeginCreate(c, name)), more);
  }

  // --- Incarnations ---

  /** A command that runs on a later incarnation than its own has nobody to answer to. */
  lemma {:induction false} ForeignRunIsUnanswered(image: bool, steps: seq<Step>, n: nat)
    requires Feasible(Init(image), steps)
    requires var s := Run(Init(image), steps);
      n < |s.incs| && s.incs[n].processor.Working? && s.incs[n].processor.cmd.id.Cmd?
    ensures var p := Run(Init(image), steps).incs[n].processor; p.on != n ==> p.sender == None
  {
    Always(image, steps);
    var s := Run(Init(image), steps);
    var inc := s.incs[n];
    var cmd := inc.processor.cmd;
    assert IncOk(s, n, inc) && inc.submitted[|inc.finished|] == cmd;
    assert CommandOk(s, n, cmd);
    assert CallerOk(s, cmd.caller.value, s.callers[cmd.caller.value]);
    if inc.processor.sender.Some? {
      var x := inc.processor.sender.value;
      assert CallerOk(s, x, s.callers[x]);
    }
  }

  // --- The shared image ---

  /** The image is gone and no creation has got past the check for it. */
  predicate Barren(s: State) {
    !s.image && forall c | c in s.creations :: !s.creations[c].launched
  }

  predicate OnCreation(step: Step) {
    step.BeginCreate? || step.Launch? || step.Install? || step.Destroy? || step.ClearInstances?
  }

  /** What callers and processors do concerns neither names nor creations nor the image nor the CID counter. */
  predicate Aside(s: State, t: State) {
    && |t.incs| == |s.incs| && t.nextCid == s.nextCid && t.instances == s.instances
    && t.creations == s.creations && t.image == s.image
    && forall n | 0 <= n < |s.incs| :: t.incs[n].name == s.incs[n].name
  }

  lemma RegisterAside(s: State, t: nat, kind: Kind, id: CmdId, name: Name)
    requires InRange(s)
    ensures Aside(s, RegisterStep(s, t, kind, id, name))
  {
  }

  lemma HealthAside(s: State, name: Name)
    requires InRange(s)
    ensures Aside(s, HealthStep(s, name))
  {
  }

  lemma SubmitAside(s: State, t: nat)
    requires t in s.callers && s.callers[t].inc < |s.incs|
    ensures Aside(s, SubmitStep(s, t))
  {
  }

  lemma ReturnAside(s: State, t: nat, outcome: Outcome)
    requires InRange(s) && t in s.callers && s.callers[t].inc < |s.incs|
    ensures Aside(s, ReturnStep(s, t, outcome))
  {
  }

  lemma TakeAside(s: State, n: nat)
    requires InRange(s) && n < |s.incs| && s.incs[n].queue != []
    ensures Aside(s, TakeStep(s, n))
  {
  }

  lemma RespondAside(s: State, n: nat, exitCode: int, stdout: string, stderr: string)
    requires n < |s.incs| && s.incs[n].processor.Working?
    ensures Aside(s, RespondStep(s, n, exitCode, stdout, stderr))
  {
  }

  lemma OtherSteps(s: State, step: Step)
    requires Enabled(s, step) && !OnCreation(step)
    ensures Aside(s, Apply(s, step))
  {
    match step {
      case Register(t, kind, id, name) => RegisterAside(s, t, kind, id, name);
      case Submit(t) => SubmitAside(s, t);
      case Health(name) => HealthAside(s, name);
      case TakeCommand(n) => TakeAside(s, n);
      case Respond(n, exitCode, stdout, stderr) => RespondAside(s, n, exitCode, stdout, stderr);
      case Receive(t) => ReturnAside(s, t, Verdict(s.inbox[t][0]));
      case Timeout(t) => ReturnAside(s, t, TimedOut);
      case SeeDisconnected(t) => ReturnAside(s, t, Disconnected);
      case _ =>
    }
  }

  lemma BarrenStep(s: State, step: Step)
    requires Barren(s) && Enabled(s, step)
    ensures var t := Apply(s, step);
      && Barren(t) && |t.incs| == |s.incs|
      && forall k | k in t.instances :: k in s.instances && t.instances[k] == s.instances[k]
  {
    if !OnCreation(step) { OtherSteps(s, step); }
  }

  /** Once the image has been removed, no VM is ever added again: destroying one VM ends all creation. */
  lemma {:induction false} NoCreationWithoutImage(s: State, steps: seq<Step>)
    requires Barren(s) && Feasible(s, steps)
    ensures var t := Run(s, steps);
      && Barren(t) && |t.incs| == |s.incs|
      && forall k | k in t.instances :: k in s.instances && t.instances[k] == s.instances[k]
    decreases |steps|
  {
    if steps != [] {
      BarrenStep(s, steps[0]);
      NoCreationWithoutImage(Apply(s, steps[0]), steps[1..]);
    }
  }

  /** Once past the check for the image, a creation adds its VM. */
  lemma {:induction false} InstallAdds(s: State, c: nat)
    requires InRange(s) && c in s.creations && s.creations[c].launched
    ensures Feasible(s, [Install(c)]) && |Run(s, [Install(c)]).incs| > |s.incs|
  {
    assert [Install(c)][1..] == [];
  }

  lemma CreateAdds(s: State, c: nat, name: Name) returns (steps: seq<Step>)
    requires InRange(s) && s.image && c !in s.creations
    ensures Feasible(s, steps) && |Run(s, steps).incs| > |s.incs|
  {
    var s1 := Apply(s, BeginCreate(c, name));
    var s2 := Apply(s1, Launch(c, true));
    InstallAdds(s2, c);
    var last := [Install(c)];
    var two := [Launch(c, true)] + last;
    assert two[1..] == last && Feasible(s1, two) && Run(s1, two) == Run(s2, last);
    steps := [BeginCreate(c, name)] + two;
    assert steps[1..] == two;
  }

  lemma {:induction false} Above(used: set<nat>) returns (b: nat)
    ensures forall x | x in used :: x < b
  {
    if used == {} {
      b := 0;
    } else {
      var x :| x in used;
      b := Above(used - {x});
      assert forall y | y in used :: y == x || y in used - {x};
      if x >= b { b := x + 1; }
    }
  }

  /** A VM can still be added, by some continuation, exactly if the image is there or a creation is past the check. */
  lemma {:induction false} CreationPossibleExactly(s: State)
    requires InRange(s)
    ensures (exists steps :: Feasible(s, steps) && |Run(s, steps).incs| > |s.incs|) <==> !Barren(s)
  {
    if Barren(s) {
      forall steps | Feasible(s, steps) ensures |Run(s, steps).incs| == |s.incs| { NoCreationWithoutImage(s, steps); }
    } else {
      if c :| c in s.creations && s.creations[c].launched {
        InstallAdds(s, c);
      } else {
        var c := Above(s.creations.Keys);
        var steps := CreateAdds(s, c, "vm");
      }
    }
  }
}
