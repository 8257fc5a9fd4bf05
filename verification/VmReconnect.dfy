/** The reconnects of a call, with anything in between their steps: when they heal and what they destroy. */
module VmReconnect {
  import opened VmProtocol
  import opened VmSafety
  import opened VmManager
  import opened VmCalls
  import VmIncarnations

  // --- The image ---

  /** The step deletes the image: a VM is destroyed and the removal of the file succeeds. */
  predicate Deletes(s: State, step: Step) { step.Destroy? && step.removed && step.name in s.instances }

  /** Some step of the run does. */
  predicate ImageLost(call: Call, moves: seq<Move>)
    requires Possible(call, moves)
    decreases |moves|
  {
    && moves != []
    && (|| ((moves[0].Other? || moves[0].Own?) && Deletes(call.s, moves[0].step))
        || ImageLost(Moved(call, moves[0]), moves[1..]))
  }

  lemma ImageStep(s: State, step: Step)
    requires Enabled(s, step)
    ensures Apply(s, step).image <==> s.image && !Deletes(s, step)
  {
    if VmTheorems.OnCreation(step) { ImageOnCreation(s, step); } else { VmTheorems.OtherSteps(s, step); }
  }

  lemma ImageOnCreation(s: State, step: Step)
    requires Enabled(s, step) && VmTheorems.OnCreation(step)
    ensures Apply(s, step).image <==> s.image && !Deletes(s, step)
  {
  }

  /** The image is there exactly if it was and nobody deleted it: it never comes back. */
  lemma {:induction false} ImageExactly(call: Call, moves: seq<Move>)
    requires Possible(call, moves)
    ensures Ran(call, moves).s.image <==> call.s.image && !ImageLost(call, moves)
    decreases |moves|
  {
    if moves != [] {
      if moves[0].Other? || moves[0].Own? { ImageStep(call.s, moves[0].step); }
      ImageExactly(Moved(call, moves[0]), moves[1..]);
    }
  }

  // --- The call's own creation ---

  /** The creation under way is the call's and as far as the call's phase says. */
  predicate CreationMatches(call: Call) {
    && (call.phase.Launching? ==>
          call.phase.c in call.s.creations && !call.s.creations[call.phase.c].launched
          && call.s.creations[call.phase.c].name == call.name)
    && (call.phase.Installing? ==>
          call.phase.c in call.s.creations && call.s.creations[call.phase.c].launched
          && call.s.creations[call.phase.c].name == call.name)
  }

  lemma CreationStays(s: State, step: Step, c: nat)
    requires Enabled(s, step) && c in s.creations && !(step.Launch? && step.c == c) && !(step.Install? && step.c == c)
    ensures c in Apply(s, step).creations && Apply(s, step).creations[c] == s.creations[c]
  {
    if VmTheorems.OnCreation(step) { OtherCreation(s, step, c); } else { VmTheorems.OtherSteps(s, step); }
  }

  lemma OtherCreation(s: State, step: Step, c: nat)
    requires Enabled(s, step) && c in s.creations && !(step.Launch? && step.c == c) && !(step.Install? && step.c == c)
    requires VmTheorems.OnCreation(step)
    ensures c in Apply(s, step).creations && Apply(s, step).creations[c] == s.creations[c]
  {
  }

  lemma CreationKeeps(call: Call, move: Move)
    requires CreationMatches(call) && CanMove(call, move)
    ensures CreationMatches(Moved(call, move))
  {
    match move {
      case Other(step) =>
        if call.phase.Launching? || call.phase.Installing? { CreationStays(call.s, step, call.phase.c); }
      case _ =>
    }
  }

  lemma {:induction false} CreationRun(call: Call, moves: seq<Move>)
    requires CreationMatches(call) && Possible(call, moves)
    ensures CreationMatches(Ran(call, moves)) && Ran(call, moves).name == call.name
    decreases |moves|
  {
    if moves != [] {
      CreationKeeps(call, moves[0]);
      CreationRun(Moved(call, moves[0]), moves[1..]);
    }
  }

  /**
    Whatever runs in between: when a reconnect comes to starting its new VM, that can succeed exactly if the
    image was there when the reconnect began and nobody, the reconnect itself included, has deleted it since.
   */
  lemma {:induction false} LaunchExactly(call: Call, moves: seq<Move>)
    requires Inv(call.s) && CreationMatches(call) && Possible(call, moves) && Ran(call, moves).phase.Launching?
    ensures var u := Ran(call, moves);
      Enabled(u.s, Launch(u.phase.c, true)) <==> call.s.image && !ImageLost(call, moves)
  {
    CreationRun(call, moves);
    ImageExactly(call, moves);
    IsRun(call, moves);
    RunKeeps(call.s, Steps(moves));
  }

  lemma HealedStep(call: Call, step: Step)
    requires CreationMatches(call) && CanMove(call, Own(step)) && Moved(call, Own(step)).phase == Sleeping(true)
    ensures InRange(Moved(call, Own(step)).s) && Healthy(Moved(call, Own(step)).s, call.name)
  {
    if call.phase.Checking? {
      assert HealthStep(call.s, call.name).instances == call.s.instances;
    } else {
      var d := DropInstance(call.s, call.name);
      assert |d.incs| == |call.s.incs| && d.instances == call.s.instances - {call.name};
    }
  }

  /** In every run: a reconnect that reports success leaves a healthy VM under its name, at that moment. */
  lemma {:induction false} HealedIsHealthy(image: bool, before: seq<Step>, name: Name, limit: nat, moves: seq<Move>,
                                           step: Step)
    requires Reached(image, before, name, limit, moves)
    requires var call := Reach(image, before, name, limit, moves);
      CanMove(call, Own(step)) && Moved(call, Own(step)).phase == Sleeping(true)
    ensures var s := Moved(Reach(image, before, name, limit, moves), Own(step)).s; InRange(s) && Healthy(s, name)
  {
    ReachKeeps(image, before, name, limit, moves);
    CreationRun(Begin(Run(Init(image), before), name, limit), moves);
    HealedStep(Reach(image, before, name, limit, moves), step);
  }

  /** The reconnect starts a VM of its own. */
  predicate Starts(moves: seq<Move>) { exists m :: m in moves && m.Own? && m.step.Launch? && m.step.ok }

  predicate NoWake(moves: seq<Move>) { Wake !in moves }

  lemma StartsCons(m: Move, rest: seq<Move>)
    ensures Starts([m] + rest) <==> (m.Own? && m.step.Launch? && m.step.ok) || Starts(rest)
  {
    assert m in [m] + rest && forall x | x in rest :: x in [m] + rest;
  }

  /** What becomes of a reconnect that has found no healthy VM. */
  lemma {:induction false} Outcome(call: Call, moves: seq<Move>)
    requires Possible(call, moves) && NoWake(moves) && Ran(call, moves).phase.Sleeping?
    requires Reconnecting(call.phase) && !call.phase.Checking?
    ensures var healed := Ran(call, moves).phase.healed;
      match call.phase
      case Sleeping(h) => healed == h && !Starts(moves)
      case Installing(_) => healed
      case _ => healed <==> Starts(moves)
    decreases |moves|
  {
    if moves != [] {
      assert moves == [moves[0]] + moves[1..];
      StartsCons(moves[0], moves[1..]);
      Outcome(Moved(call, moves[0]), moves[1..]);
    }
  }

  /** A reconnect reports success exactly if it found a healthy VM or started one, whatever ran in between. */
  lemma {:induction false} ReconnectExactly(call: Call, moves: seq<Move>)
    requires call.phase.Checking? && CanMove(call, Own(Health(call.name)))
    requires Possible(Moved(call, Own(Health(call.name))), moves) && NoWake(moves)
    requires Ran(Moved(call, Own(Health(call.name))), moves).phase.Sleeping?
    ensures Ran(Moved(call, Own(Health(call.name))), moves).phase.healed
      <==> Healthy(call.s, call.name) || Starts(moves)
  {
    Outcome(Moved(call, Own(Health(call.name))), moves);
  }

  // --- What it destroys ---

  /** Whether the name has a VM after the run, if it had one, or none, before. */
  predicate Stands(call: Call, moves: seq<Move>, before: bool)
    requires Possible(call, moves)
    decreases |moves|
  {
    if moves == [] then before
    else Stands(Moved(call, moves[0]), moves[1..], StandsAfter(call, moves[0], before))
  }

  predicate StandsAfter(call: Call, move: Move, before: bool)
    requires CanMove(call, move)
  {
    if !(move.Other? || move.Own?) then before
    else
      match move.step
      case Install(c) => before || call.s.creations[c].name == call.name
      case Destroy(name, _) => before && name != call.name
      case ClearInstances => false
      case _ => before
  }

  lemma StandsStep(call: Call, move: Move)
    requires Inv(call.s) && CanMove(call, move)
    ensures call.name in Moved(call, move).s.instances <==> StandsAfter(call, move, call.name in call.s.instances)
  {
    if move.Other? || move.Own? {
      if VmTheorems.OnCreation(move.step) {
        VmIncarnations.NameTable(call.s, move.step);
      } else {
        VmTheorems.OtherSteps(call.s, move.step);
      }
    }
  }

  lemma {:induction false} StandsExactly(call: Call, moves: seq<Move>)
    requires Inv(call.s) && Possible(call, moves)
    ensures call.name in Ran(call, moves).s.instances <==> Stands(call, moves, call.name in call.s.instances)
    decreases |moves|
  {
    if moves != [] {
      StandsStep(call, moves[0]);
      if moves[0].Other? || moves[0].Own? { StepKeeps(call.s, moves[0].step); }
      StandsExactly(Moved(call, moves[0]), moves[1..]);
    }
  }

  /** Before shutdown every VM in the table is healthy. */
  lemma HealthyIsThere(s: State, name: Name)
    requires Inv(s) && !s.shutdown
    ensures InRange(s) && (Healthy(s, name) <==> name in s.instances)
  {
    if name in s.instances { assert IncOk(s, s.instances[name], s.incs[s.instances[name]]); }
  }

  /**
    Before shutdown a health check fails only for a name without a VM.  So what the destroy that follows
    takes away is a VM that others have put there since the check: it finds one exactly if, after the check,
    a VM was installed under the name and not taken away again.
   */
  lemma {:induction false} DestroysExactly(call: Call, moves: seq<Move>)
    requires Inv(call.s) && !call.s.shutdown && call.phase.Checking? && !Healthy(call.s, call.name)
    requires CanMove(call, Own(Health(call.name))) && Possible(Moved(call, Own(Health(call.name))), moves)
    requires Ran(Moved(call, Own(Health(call.name))), moves).phase.Destroying?
    ensures var checked := Moved(call, Own(Health(call.name)));
      call.name in Ran(checked, moves).s.instances <==> Stands(checked, moves, false)
  {
    var checked := Moved(call, Own(Health(call.name)));
    HealthyIsThere(call.s, call.name);
    StepKeeps(call.s, Health(call.name));
    StandsStep(call, Own(Health(call.name)));
    StandsExactly(checked, moves);
  }
}
