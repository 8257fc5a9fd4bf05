/**
  The manager object: its tables, and the code between two locks as methods that update them in place.
  Every method is tied to the transition system's steps, so what holds for all runs holds for the object.
 */
module VmManager {
  import opened Prelude
  import opened VmProtocol

  /** `create_vm`, when nothing else runs in between. */
  function Created(s: State, c: nat, name: Name, started: bool): State
    requires InRange(s) && c !in s.creations
  {
    var b := Apply(s, BeginCreate(c, name));
    if started && b.image then InstallStep(LaunchStep(b, c, true), c) else LaunchStep(b, c, false)
  }

  /** `reconnect_vm_channels`, when nothing else runs in between. */
  function Reconnected(s: State, c: nat, name: Name, removed: bool, started: bool): State
    requires InRange(s) && c !in s.creations
  {
    if Healthy(s, name) then HealthStep(s, name) else Created(DestroyStep(s, name, removed), c, name, started)
  }

  predicate Healthy(s: State, name: Name)
    requires InRange(s)
  {
    name in s.instances && !s.incs[s.instances[name]].processor.Exited?
  }

  lemma CreatedIsHealthy(s: State, c: nat, name: Name, started: bool)
    requires InRange(s) && c !in s.creations && !Healthy(s, name)
    ensures var t := Created(s, c, name, started); InRange(t) && (Healthy(t, name) <==> started && s.image)
  {
    var b := Apply(s, BeginCreate(c, name));
    if started && b.image {
      var l := LaunchStep(b, c, true);
      assert DropInstance(l, name).instances == l.instances - {name};
      assert Created(s, c, name, started) == InstallStep(l, c);
    }
  }

  /**
    Reconnecting leaves a healthy VM behind exactly when there was one, or a new one can start: the
    image must be there and must not have been deleted on the way, when a dead instance was destroyed.
   */
  lemma ReconnectHealsExactly(s: State, c: nat, name: Name, removed: bool, started: bool)
    requires InRange(s) && c !in s.creations
    ensures var t := Reconnected(s, c, name, removed, started);
      InRange(t)
        && (Healthy(t, name) <==> Healthy(s, name) || (started && s.image && !(name in s.instances && removed)))
  {
    if !Healthy(s, name) { CreatedIsHealthy(DestroyStep(s, name, removed), c, name, started); }
  }

  class Manager {
    var instances: map<Name, nat>
    var incs: seq<Incarnation>
    var callers: map<nat, Caller>
    var inbox: map<nat, seq<CommandResult>>
    var creations: map<nat, Creation>
    var nextCid: nat
    var shutdown: bool
    var image: bool
    ghost var delivered: seq<Delivery>

    ghost function Abs(): State
      reads this
    {
      State(instances, incs, callers, inbox, creations, nextCid, shutdown, image, delivered)
    }

    constructor (hasImage: bool)
      ensures Abs() == Init(hasImage)
    {
      instances, incs, callers, inbox, creations := map[], [], map[], map[], map[];
      nextCid, shutdown, image, delivered := FIRST_CID, false, hasImage, [];
    }

    // --- create_vm and destroy_vm ---

    method AllocateCid(c: nat, name: Name) returns (cid: nat)
      requires Enabled(Abs(), BeginCreate(c, name))
      modifies this`nextCid, this`creations
      ensures cid == old(nextCid) && Abs() == Apply(old(Abs()), BeginCreate(c, name))
    {
      cid := nextCid;
      nextCid := nextCid + 1;
      creations := creations[c := Creation(name, cid, false)];
    }

    /** `start_firecracker_vm`; `spawned` tells whether starting the process would succeed. */
    method StartVm(c: nat, spawned: bool) returns (ok: bool)
      requires InRange(Abs()) && c in creations && !creations[c].launched
      modifies this`creations
      ensures ok == (image && spawned)
      ensures Enabled(old(Abs()), Launch(c, ok)) && Abs() == Apply(old(Abs()), Launch(c, ok))
    {
      ok := image && spawned;
      creations := if ok then creations[c := creations[c].(launched := true)] else creations - {c};
    }

    /** Takes the instance out of the table; its result senders go with it. */
    method RemoveInstance(name: Name) returns (found: bool)
      requires InRange(Abs())
      modifies this`instances, this`incs
      ensures found == (name in old(instances)) && name !in instances && |incs| == |old(incs)|
      ensures Abs() == DropInstance(old(Abs()), name) && InRange(Abs())
    {
      found := name in instances;
      if found {
        var n := instances[name];
        incs := incs[n := incs[n].(table := map[])];
        instances := instances - {name};
      }
    }

    /** Inserts the new instance over whatever the name stood for, and starts its processor. */
    method InsertInstance(c: nat)
      requires Enabled(Abs(), Install(c))
      modifies this`instances, this`incs, this`creations
      ensures Abs() == Apply(old(Abs()), Install(c))
    {
      var cr := creations[c];
      var _ := RemoveInstance(cr.name);
      incs := incs + [Incarnation(cr.name, cr.cid, map[], [], Receiving, [], [])];
      instances := instances[cr.name := |incs| - 1];
      creations := creations - {c};
    }

    /** `removed` tells whether deleting the image file would succeed. */
    method DestroyVm(name: Name, removed: bool) returns (found: bool)
      requires InRange(Abs())
      modifies this`instances, this`incs, this`image
      ensures found == (name in old(instances)) && Abs() == Apply(old(Abs()), Destroy(name, removed)) && InRange(Abs())
    {
      found := RemoveInstance(name);
      if found { image := image && !removed; }
    }

    method Shutdown()
      requires InRange(Abs())
      modifies this
      ensures Enabled(Apply(old(Abs()), BeginShutdown), ClearInstances)
      ensures Abs() == Apply(Apply(old(Abs()), BeginShutdown), ClearInstances)
    {
      shutdown := true;
      var n := 0;
      var cleared: seq<Incarnation> := [];
      while n < |incs|
        invariant n == |cleared| <= |incs|
        invariant forall k | 0 <= k < n ::
          cleared[k] == if k in instances.Values then incs[k].(table := map[]) else incs[k]
      {
        cleared := cleared + [if n in instances.Values then incs[n].(table := map[]) else incs[n]];
        n := n + 1;
      }
      incs, instances := cleared, map[];
      assert incs == Apply(Apply(old(Abs()), BeginShutdown), ClearInstances).incs;
    }

    // --- Callers ---

    /** Looks the VM up and puts a result sender into its table. */
    method RegisterSender(t: nat, kind: Kind, id: CmdId, name: Name) returns (found: bool)
      requires Enabled(Abs(), Register(t, kind, id, name))
      modifies this`incs, this`callers, this`inbox
      ensures found == (name in instances) && Abs() == Apply(old(Abs()), Register(t, kind, id, name))
    {
      found := name in instances;
      if !found {
        callers := callers[t := Caller(kind, id, 0, Returned(NotFound))];
      } else {
        var n := instances[name];
        incs := incs[n := incs[n].(table := incs[n].table[id := t])];
        callers := callers[t := Caller(kind, id, n, Registered)];
        inbox := inbox[t := []];
      }
    }

    /** `command_sender.send`: fails when the processor has dropped its receiver. */
    method SendCommand(n: nat, cmd: Command) returns (ok: bool)
      requires n < |incs|
      modifies this`incs
      ensures ok == !old(incs)[n].processor.Exited?
      ensures incs == if ok then old(incs)[n := Enqueue(old(incs)[n], cmd)] else old(incs)
    {
      ok := !incs[n].processor.Exited?;
      if ok {
        incs := incs[n := incs[n].(queue := incs[n].queue + [cmd], submitted := incs[n].submitted + [cmd])];
      }
    }

    method SubmitCommand(t: nat) returns (ok: bool)
      requires Enabled(Abs(), Submit(t))
      modifies this`incs, this`callers
      ensures ok == !old(incs)[old(callers)[t].inc].processor.Exited?
      ensures Abs() == Apply(old(Abs()), Submit(t))
    {
      var c := callers[t];
      ok := SendCommand(c.inc, Command(c.id, Some(t)));
      var next := if !ok then Returned(SendFailed) else if c.kind.SpawnProcess? then Returned(Success("")) else Polling;
      callers := callers[t := c.(progress := next)];
    }

    method CheckHealth(name: Name) returns (healthy: bool)
      requires InRange(Abs())
      modifies this`incs
      ensures healthy == Healthy(old(Abs()), name) && Abs() == Apply(old(Abs()), Health(name)) && InRange(Abs())
    {
      healthy := false;
      if name in instances {
        healthy := SendCommand(instances[name], Command(HealthId, None));
      }
    }

    /** Removes the command's sender from whatever the name stands for now. */
    method UnregisterSender(name: Name, id: CmdId)
      requires InRange(Abs())
      modifies this`incs
      ensures Abs() == Unregister(old(Abs()), name, id)
    {
      if name in instances {
        var n := instances[name];
        incs := incs[n := incs[n].(table := incs[n].table - {id})];
      }
    }

    /** An execute caller takes its sender out of the table, except when all senders are gone. */
    method Return(t: nat, outcome: Outcome)
      requires InRange(Abs()) && IsPolling(Abs(), t)
      modifies this`incs, this`callers
      ensures Abs() == ReturnStep(old(Abs()), t, outcome)
    {
      var c := callers[t];
      if c.kind.Execute? && !outcome.Disconnected? {
        UnregisterSender(incs[c.inc].name, c.id);
      }
      callers := callers[t := c.(progress := Returned(outcome))];
    }

    /** One turn of the polling loop: the outcome the caller returns with, or nothing when it sleeps and polls again. */
    method Poll(t: nat, expired: bool) returns (outcome: Option<Outcome>)
      requires InRange(Abs()) && IsPolling(Abs(), t)
      modifies this`incs, this`callers
      ensures old(inbox)[t] != [] ==>
        outcome == Some(Verdict(old(inbox)[t][0])) && Abs() == Apply(old(Abs()), Receive(t))
      ensures old(inbox)[t] == [] && NoSender(old(Abs()), t) ==>
        outcome == Some(Disconnected) && Abs() == Apply(old(Abs()), SeeDisconnected(t))
      ensures old(inbox)[t] == [] && !NoSender(old(Abs()), t) ==>
        if expired then outcome == Some(TimedOut) && Abs() == Apply(old(Abs()), Timeout(t))
        else outcome == None && Abs() == old(Abs())
    {
      var noSender := forall n | 0 <= n < |incs| ::
        t !in incs[n].table.Values && !(incs[n].processor.Working? && incs[n].processor.sender == Some(t));
      assert noSender == NoSender(Abs(), t);
      outcome :=
        if inbox[t] != [] then Some(Verdict(inbox[t][0]))
        else if noSender then Some(Disconnected)
        else if expired then Some(TimedOut)
        else None;
      if outcome.Some? { Return(t, outcome.value); }
    }

    // --- A processor thread ---

    /**
      Takes the next command and looks its VM up by name; `go` is false when the thread ends because
      the manager is shutting down or skips the command because the name has no VM.
     */
    method NextCommand(n: nat) returns (go: bool)
      requires Enabled(Abs(), TakeCommand(n))
      modifies this`incs
      ensures go == (!shutdown && old(incs)[n].name in instances)
      ensures Abs() == Apply(old(Abs()), TakeCommand(n))
    {
      var inc := incs[n];
      go := false;
      if shutdown {
        incs := incs[n := inc.(processor := Exited)];
      } else {
        var cmd := inc.queue[0];
        if inc.name in instances {
          go := true;
          var on := instances[inc.name];
          var sender := if cmd.id in incs[on].table then Some(incs[on].table[cmd.id]) else None;
          incs := incs[n := inc.(queue := inc.queue[1..], processor := Working(cmd, sender, on))];
        } else {
          incs := incs[n := inc.(queue := inc.queue[1..], finished := inc.finished + [cmd])];
        }
      }
    }

    /** Sends the result of the command in hand to whoever was registered for it and still listens. */
    method SendResult(n: nat, exitCode: int, stdout: string, stderr: string) returns (heard: bool)
      requires Enabled(Abs(), Respond(n, exitCode, stdout, stderr))
      modifies this`incs, this`inbox, this`delivered
      ensures Abs() == Apply(old(Abs()), Respond(n, exitCode, stdout, stderr))
      ensures heard <==> |delivered| > |old(delivered)|
    {
      var inc := incs[n];
      var p := inc.processor;
      incs := incs[n := inc.(processor := Receiving, finished := inc.finished + [p.cmd])];
      heard := p.sender.Some? && p.sender.value in callers && p.sender.value in inbox
        && callers[p.sender.value].Active();
      if heard {
        var to := p.sender.value;
        inbox := inbox[to := inbox[to] + [CommandResult(p.cmd.id, exitCode, stdout, stderr)]];
        delivered := delivered + [Delivery(to, p.cmd, p.on)];
      }
    }

    // --- reconnect_vm_channels ---

    method ReconnectVmChannels(c: nat, name: Name, removed: bool, spawned: bool) returns (ok: bool)
      requires InRange(Abs()) && c !in creations
      modifies this
      ensures Abs() == Reconnected(old(Abs()), c, name, removed, spawned)
      ensures InRange(Abs()) && (ok <==> Healthy(Abs(), name))
    {
      ok := CheckHealth(name);
      if !ok {
        var _ := DestroyVm(name, removed);
        var _ := AllocateCid(c, name);
        ok := StartVm(c, spawned);
        if ok { InsertInstance(c); }
      }
      ReconnectHealsExactly(old(Abs()), c, name, removed, spawned);
    }
  }
}
