/** What every run of the VM manager keeps. */
module VmSafety {
  import opened Prelude
  import opened VmProtocol

  /** Incarnation `n` is the one its name stands for. */
  predicate LiveInc(s: State, n: nat) {
    n < |s.incs| && s.incs[n].name in s.instances && s.instances[s.incs[n].name] == n
  }

  function InHand(p: Processor): seq<Command> { if p.Working? then [p.cmd] else [] }

  /** A table entry belongs to a caller of this incarnation; before shutdown no execute caller leaves one behind. */
  predicate EntryOk(s: State, n: nat, id: CmdId, t: nat) {
    && t in s.callers && s.callers[t].id == id && s.callers[t].inc == n
    && (s.callers[t].kind.Execute? && !s.shutdown ==> s.callers[t].Active())
  }

  predicate CommandOk(s: State, n: nat, cmd: Command) {
    if cmd.caller.None? then cmd.id == HealthId
    else
      var t := cmd.caller.value;
      t in s.callers && s.callers[t].id == cmd.id && s.callers[t].inc == n && !s.callers[t].progress.Registered?
  }

  predicate OncePerCaller(cmds: seq<Command>) {
    forall i, j | 0 <= i < j < |cmds| && cmds[i].caller.Some? :: cmds[i].caller != cmds[j].caller
  }

  predicate ProcessorOk(s: State, n: nat, inc: Incarnation) {
    match inc.processor
    case Receiving => true
    case Working(cmd, sender, on) =>
      && on < |s.incs|
      && (sender.Some? ==> sender.value in s.callers && s.callers[sender.value].id == cmd.id
                           && s.callers[sender.value].inc == on)
    case Exited =>
      s.shutdown
        || (!LiveInc(s, n) && forall t | t in s.callers && s.callers[t].inc == n :: !s.callers[t].progress.Registered?)
  }

  predicate IncOk(s: State, n: nat, inc: Incarnation) {
    && (inc.table != map[] ==> LiveInc(s, n))
    && (forall id {:trigger inc.table[id]} | id in inc.table :: EntryOk(s, n, id, inc.table[id]))
    && inc.submitted == inc.finished + InHand(inc.processor) + inc.queue
    && (forall cmd {:trigger CommandOk(s, n, cmd)} | cmd in inc.submitted :: CommandOk(s, n, cmd))
    && OncePerCaller(inc.submitted)
    && ProcessorOk(s, n, inc)
    && FIRST_CID <= inc.cid < s.nextCid
  }

  predicate IdOfKind(c: Caller, t: nat) {
    match c.kind
    case Execute => c.id == Cmd(t)
    case SpawnProcess => c.id == Cmd(t)
    case ListProcesses => c.id == ListId
    case StopProcess => c.id.StopId?
  }

  predicate CallerOk(s: State, t: nat, c: Caller) {
    && IdOfKind(c, t)
    && (c.progress == Returned(NotFound) || c.inc < |s.incs|)
    && (c.Active() ==> t in s.inbox)
    && (c.kind.Execute? && c.Active() && LiveInc(s, c.inc) ==>
      c.id in s.incs[c.inc].table && s.incs[c.inc].table[c.id] == t)
    && (c.kind.Execute? && c.progress == Returned(Disconnected) ==> !LiveInc(s, c.inc))
    && (c.progress == Returned(SendFailed) ==> s.shutdown)
  }

  predicate HasDelivery(s: State, t: nat) { exists d :: d in s.delivered && d.to == t }

  predicate InboxOk(s: State, t: nat, results: seq<CommandResult>) {
    && t in s.callers
    && (forall r | r in results :: r.id == s.callers[t].id)
    && (results != [] ==> HasDelivery(s, t))
    && (s.callers[t].kind.Execute? ==> |results| <= 1)
  }

  predicate IsExecute(s: State, t: nat) { t in s.callers && s.callers[t].kind.Execute? }

  /** A delivered result answers a finished command with the receiver's own id, run where the receiver registered. */
  predicate DeliveryOk(s: State, d: Delivery) {
    && d.to in s.callers && s.callers[d.to].id == d.cmd.id && s.callers[d.to].inc == d.on
    && (d.cmd.caller.Some? ==>
          var q := d.cmd.caller.value;
          q in s.callers && s.callers[q].inc < |s.incs| && d.cmd in s.incs[s.callers[q].inc].finished)
    && (IsExecute(s, d.to) ==> d.cmd.caller == Some(d.to))
  }

  predicate DeliveriesOk(s: State) {
    && (forall d {:trigger DeliveryOk(s, d)} | d in s.delivered :: DeliveryOk(s, d))
    && (forall i, j | 0 <= i < j < |s.delivered| && IsExecute(s, s.delivered[i].to) ::
          s.delivered[i].to != s.delivered[j].to)
  }

  predicate CreationOk(s: State, c: nat, cr: Creation) {
    && FIRST_CID <= cr.cid < s.nextCid
    && (forall d | d in s.creations && d != c :: s.creations[d].cid != cr.cid)
    && (forall n | 0 <= n < |s.incs| :: s.incs[n].cid != cr.cid)
  }

  predicate CidsOk(s: State) {
    && s.nextCid >= FIRST_CID
    && (forall c {:trigger CreationOk(s, c, s.creations[c])} | c in s.creations :: CreationOk(s, c, s.creations[c]))
    && (forall m, n | 0 <= m < n < |s.incs| :: s.incs[m].cid != s.incs[n].cid)
  }

  predicate NamesOk(s: State) {
    forall name | name in s.instances :: s.instances[name] < |s.incs| && s.incs[s.instances[name]].name == name
  }

  predicate IncsOk(s: State) {
    forall n {:trigger IncOk(s, n, s.incs[n])} | 0 <= n < |s.incs| :: IncOk(s, n, s.incs[n])
  }
  predicate CallersOk(s: State) {
    forall t {:trigger CallerOk(s, t, s.callers[t])} | t in s.callers :: CallerOk(s, t, s.callers[t])
  }
  predicate InboxesOk(s: State) {
    forall t {:trigger InboxOk(s, t, s.inbox[t])} | t in s.inbox :: InboxOk(s, t, s.inbox[t])
  }

  predicate Inv(s: State) { NamesOk(s) && IncsOk(s) && CallersOk(s) && InboxesOk(s) && DeliveriesOk(s) && CidsOk(s) }

  // --- How states evolve ---

  predicate SameCaller(c: Caller, d: Caller) {
    c.kind == d.kind && c.id == d.id && c.inc == d.inc && (d.progress.Registered? ==> c.progress.Registered?)
  }

  predicate SameInc(i: Incarnation, j: Incarnation) { i.name == j.name && i.cid == j.cid && i.finished <= j.finished }

  /** Facts that only grow: every step has this shape. */
  predicate Evolves(s: State, t: State) {
    && (forall x | x in s.callers :: x in t.callers && SameCaller(s.callers[x], t.callers[x]))
    && (forall x | x in t.callers && x !in s.callers && t.callers[x].progress.Registered? ::
          LiveInc(s, t.callers[x].inc))
    && |s.incs| <= |t.incs| && (forall n | 0 <= n < |s.incs| :: SameInc(s.incs[n], t.incs[n]))
    && (forall n: nat | n < |s.incs| && !LiveInc(s, n) :: !LiveInc(t, n))
    && (s.shutdown ==> t.shutdown) && s.nextCid <= t.nextCid
  }

  /** An incarnation that the step did not touch. */
  lemma IncKept(s: State, t: State, n: nat, inc: Incarnation)
    requires Evolves(s, t) && n < |s.incs| && IncOk(s, n, inc)
    requires inc.table != map[] ==> LiveInc(t, n)
    requires forall id | id in inc.table :: EntryOk(t, n, id, inc.table[id])
    ensures IncOk(t, n, inc)
  {
    forall cmd | cmd in inc.submitted ensures CommandOk(t, n, cmd) { assert CommandOk(s, n, cmd); }
  }

  lemma DeliveriesKept(s: State, t: State)
    requires Evolves(s, t) && DeliveriesOk(s) && t.delivered == s.delivered
    ensures DeliveriesOk(t)
  {
    forall d | d in t.delivered ensures DeliveryOk(t, d) { assert DeliveryOk(s, d); }
    forall i, j | 0 <= i < j < |t.delivered| && IsExecute(t, t.delivered[i].to)
      ensures t.delivered[i].to != t.delivered[j].to
    {
      assert DeliveryOk(s, s.delivered[i]);
    }
  }

  lemma InboxesKept(s: State, t: State)
    requires Evolves(s, t) && InboxesOk(s) && t.delivered == s.delivered && t.inbox == s.inbox
    ensures InboxesOk(t)
  {
    forall x | x in t.inbox ensures InboxOk(t, x, t.inbox[x]) { assert InboxOk(s, x, s.inbox[x]); }
  }

  lemma CidsKept(s: State, t: State)
    requires CidsOk(s) && t.nextCid == s.nextCid && |t.incs| == |s.incs| && t.creations == s.creations
    requires forall n | 0 <= n < |s.incs| :: t.incs[n].cid == s.incs[n].cid
    ensures CidsOk(t)
  {
    forall c | c in t.creations ensures CreationOk(t, c, t.creations[c]) { assert CreationOk(s, c, s.creations[c]); }
  }

  // --- Creating and destroying ---

  /** Instances disappear and their tables with them; nothing else changes. */
  predicate Dropped(s: State, t: State) {
    && t == s.(instances := t.instances, incs := t.incs, image := t.image) && |t.incs| == |s.incs|
    && (forall k | k in t.instances :: k in s.instances && t.instances[k] == s.instances[k])
    && (forall n: nat | n < |s.incs| ::
          t.incs[n] == s.incs[n].(table := if LiveInc(t, n) then s.incs[n].table else map[]))
  }

  lemma DroppedEvolves(s: State, t: State)
    requires Dropped(s, t)
    ensures Evolves(s, t)
  {
    forall n: nat | n < |s.incs| ensures SameInc(s.incs[n], t.incs[n]) {
      assert t.incs[n] == s.incs[n].(table := if LiveInc(t, n) then s.incs[n].table else map[]);
    }
  }

  lemma DroppedKeeps(s: State, t: State)
    requires Inv(s) && Dropped(s, t)
    ensures Inv(t) && Evolves(s, t)
  {
    DroppedEvolves(s, t);
    forall n | 0 <= n < |t.incs| ensures IncOk(t, n, t.incs[n]) {
      assert IncOk(s, n, s.incs[n]);
      assert t.incs[n] == s.incs[n].(table := if LiveInc(t, n) then s.incs[n].table else map[]);
      DroppedIncOk(s, t, n);
    }
    forall x | x in t.callers ensures CallerOk(t, x, t.callers[x]) { assert CallerOk(s, x, s.callers[x]); }
    DeliveriesKept(s, t);
    InboxesKept(s, t);
    CidsKept(s, t);
  }

  lemma DroppedIncOk(s: State, t: State, n: nat)
    requires Evolves(s, t) && Dropped(s, t) && n < |s.incs| && IncOk(s, n, s.incs[n])
    ensures IncOk(t, n, t.incs[n])
  {
    var inc := s.incs[n];
    forall cmd | cmd in inc.submitted ensures CommandOk(t, n, cmd) { assert CommandOk(s, n, cmd); }
    forall id | id in t.incs[n].table ensures EntryOk(t, n, id, t.incs[n].table[id]) {
      assert EntryOk(s, n, id, inc.table[id]);
    }
  }

  lemma DropIsDropped(s: State, name: Name)
    requires NamesOk(s) && IncsOk(s)
    ensures InRange(s) && Dropped(s, DropInstance(s, name))
  {
    var t := DropInstance(s, name);
    forall n: nat | n < |s.incs|
      ensures t.incs[n] == s.incs[n].(table := if LiveInc(t, n) then s.incs[n].table else map[])
    {
      assert IncOk(s, n, s.incs[n]);
    }
  }

  lemma ClearKeeps(s: State)
    requires Inv(s)
    ensures Inv(ClearStep(s)) && Evolves(s, ClearStep(s))
  {
    var t := ClearStep(s);
    forall n: nat | n < |s.incs|
      ensures t.incs[n] == s.incs[n].(table := if LiveInc(t, n) then s.incs[n].table else map[])
    {
      assert IncOk(s, n, s.incs[n]);
      if n !in s.instances.Values { assert s.incs[n].table == map[]; }
    }
    DroppedKeeps(s, t);
  }

  lemma DestroyKeeps(s: State, name: Name, removed: bool)
    requires Inv(s)
    ensures InRange(s) && Inv(DestroyStep(s, name, removed)) && Evolves(s, DestroyStep(s, name, removed))
  {
    DropIsDropped(s, name);
    var t := DestroyStep(s, name, removed);
    var u := DropInstance(s, name);
    assert forall n: nat | n < |s.incs| :: LiveInc(t, n) == LiveInc(u, n);
    DroppedKeeps(s, t);
  }

  lemma TakeOverEvolves(s: State, c: nat, name: Name, cid: nat)
    requires NamesOk(s) && name !in s.instances
    ensures Evolves(s, TakeOver(s, c, name, cid))
    ensures forall n: nat | LiveInc(s, n) :: LiveInc(TakeOver(s, c, name, cid), n)
    ensures NamesOk(TakeOver(s, c, name, cid))
  {
  }

  lemma TakeOverCids(s: State, c: nat, name: Name, cid: nat)
    requires CidsOk(s) && c in s.creations && s.creations[c].cid == cid
    ensures CidsOk(TakeOver(s, c, name, cid))
  {
    var t := TakeOver(s, c, name, cid);
    assert CreationOk(s, c, s.creations[c]);
    forall d | d in t.creations ensures CreationOk(t, d, t.creations[d]) { assert CreationOk(s, d, s.creations[d]); }
  }

  /** The new incarnation takes over the name, and the creation's CID. */
  lemma TakeOverKeeps(s: State, c: nat, name: Name, cid: nat)
    requires Inv(s) && c in s.creations && s.creations[c].cid == cid && name !in s.instances
    ensures Inv(TakeOver(s, c, name, cid))
  {
    var t := TakeOver(s, c, name, cid);
    TakeOverEvolves(s, c, name, cid);
    TakeOverCids(s, c, name, cid);
    assert CreationOk(s, c, s.creations[c]);
    forall n | 0 <= n < |t.incs| ensures IncOk(t, n, t.incs[n]) {
      if n < |s.incs| {
        assert IncOk(s, n, s.incs[n]);
        TableKept(s, t, n, s.incs[n]);
        IncKept(s, t, n, s.incs[n]);
      }
    }
    TakeOverCallers(s, t, |s.incs|);
    DeliveriesKept(s, t);
    InboxesKept(s, t);
  }

  lemma TakeOverCallers(s: State, t: State, k: nat)
    requires CallersOk(s) && Evolves(s, t) && t.callers == s.callers && t.inbox == s.inbox && t.shutdown == s.shutdown
    requires |s.incs| == k <= |t.incs| && forall n: nat | n < k :: t.incs[n].table == s.incs[n].table
    ensures CallersOk(t)
  {
    forall x | x in t.callers ensures CallerOk(t, x, t.callers[x]) { assert CallerOk(s, x, s.callers[x]); }
  }

  function TakeOver(s: State, c: nat, name: Name, cid: nat): State {
    s.(incs := s.incs + [Incarnation(name, cid, map[], [], Receiving, [], [])],
       instances := s.instances[name := |s.incs|], creations := s.creations - {c})
  }

  lemma InstallKeeps(s: State, c: nat)
    requires Inv(s) && c in s.creations
    ensures InRange(s) && Inv(InstallStep(s, c))
  {
    var cr := s.creations[c];
    DropIsDropped(s, cr.name);
    var u := DropInstance(s, cr.name);
    DroppedKeeps(s, u);
    TakeOverKeeps(u, c, cr.name, cr.cid);
  }

  /** Steps that change only the creations under way, the next CID or the shutdown flag. */
  lemma AsideKeeps(s: State, t: State)
    requires Inv(s) && t == s.(creations := t.creations, nextCid := t.nextCid, shutdown := t.shutdown)
    requires (s.shutdown ==> t.shutdown) && s.nextCid <= t.nextCid && CidsOk(t)
    ensures Inv(t)
  {
    forall n | 0 <= n < |t.incs| ensures IncOk(t, n, t.incs[n]) {
      assert IncOk(s, n, s.incs[n]);
      forall id | id in s.incs[n].table ensures EntryOk(t, n, id, s.incs[n].table[id]) {
        assert EntryOk(s, n, id, s.incs[n].table[id]);
      }
      IncKept(s, t, n, s.incs[n]);
    }
    forall x | x in t.callers ensures CallerOk(t, x, t.callers[x]) { assert CallerOk(s, x, s.callers[x]); }
    DeliveriesKept(s, t);
    InboxesKept(s, t);
  }

  lemma BeginCreateKeeps(s: State, c: nat, name: Name)
    requires Inv(s) && c !in s.creations
    ensures Inv(s.(creations := s.creations[c := Creation(name, s.nextCid, false)], nextCid := s.nextCid + 1))
  {
    var t := s.(creations := s.creations[c := Creation(name, s.nextCid, false)], nextCid := s.nextCid + 1);
    forall d | d in t.creations ensures CreationOk(t, d, t.creations[d]) {
      if d != c { assert CreationOk(s, d, s.creations[d]); }
      forall e | e in t.creations && e != d ensures t.creations[e].cid != t.creations[d].cid {
        if e != c { assert CreationOk(s, e, s.creations[e]); }
      }
      forall n | 0 <= n < |s.incs| ensures t.incs[n].cid != t.creations[d].cid { assert IncOk(s, n, s.incs[n]); }
    }
    AsideKeeps(s, t);
  }

  lemma LaunchKeeps(s: State, c: nat, ok: bool)
    requires Inv(s) && c in s.creations
    ensures Inv(LaunchStep(s, c, ok))
  {
    var t := LaunchStep(s, c, ok);
    forall d | d in t.creations ensures CreationOk(t, d, t.creations[d]) { assert CreationOk(s, d, s.creations[d]); }
    AsideKeeps(s, t);
  }

  // --- One incarnation changes ---

  /** Only incarnation `n` changes; callers and tables of the others stay. */
  lemma OneIncKeeps(s: State, n: nat, inc: Incarnation)
    requires Inv(s) && n < |s.incs| && SameInc(s.incs[n], inc) && IncOk(SetInc(s, n, inc), n, inc)
    requires inc.table == s.incs[n].table
    ensures Inv(SetInc(s, n, inc))
  {
    var t := SetInc(s, n, inc);
    forall m | 0 <= m < |t.incs| ensures IncOk(t, m, t.incs[m]) {
      if m != n {
        assert IncOk(s, m, s.incs[m]);
        forall id | id in s.incs[m].table ensures EntryOk(t, m, id, s.incs[m].table[id]) {
          assert EntryOk(s, m, id, s.incs[m].table[id]);
        }
        IncKept(s, t, m, s.incs[m]);
      }
    }
    forall x | x in t.callers ensures CallerOk(t, x, t.callers[x]) { assert CallerOk(s, x, s.callers[x]); }
    DeliveriesKept(s, t);
    InboxesKept(s, t);
    CidsKept(s, t);
  }

  lemma TableKept(s: State, t: State, n: nat, inc: Incarnation)
    requires IncOk(s, n, inc) && t.callers == s.callers && t.shutdown == s.shutdown
    ensures forall id | id in inc.table :: EntryOk(t, n, id, inc.table[id])
    ensures forall cmd | cmd in inc.submitted :: CommandOk(t, n, cmd)
  {
    forall id | id in inc.table ensures EntryOk(t, n, id, inc.table[id]) { assert EntryOk(s, n, id, inc.table[id]); }
    forall cmd | cmd in inc.submitted ensures CommandOk(t, n, cmd) { assert CommandOk(s, n, cmd); }
  }

  /** The processor of `n` takes its next command. */
  lemma TakenKeeps(s: State, n: nat, inc: Incarnation, next: Incarnation, cmd: Command)
    requires Inv(s) && n < |s.incs| && s.incs[n] == inc && inc.processor.Receiving? && inc.queue != []
      && inc.queue[0] == cmd
    requires next == inc.(queue := inc.queue[1..], processor := next.processor, finished := next.finished)
    requires next.finished + InHand(next.processor) == inc.finished + [cmd] && inc.finished <= next.finished
    requires ProcessorOk(SetInc(s, n, next), n, next)
    ensures Inv(SetInc(s, n, next))
  {
    assert IncOk(s, n, inc);
    var t := SetInc(s, n, next);
    TableKept(s, t, n, inc);
    assert inc.queue == [cmd] + next.queue;
    assert inc.finished + [cmd] + next.queue == inc.submitted;
    OneIncKeeps(s, n, next);
  }

  lemma TakeKeeps(s: State, n: nat)
    requires Inv(s) && n < |s.incs| && s.incs[n].processor.Receiving? && s.incs[n].queue != []
    ensures InRange(s) && Inv(TakeStep(s, n))
  {
    var inc := s.incs[n];
    var cmd, rest := inc.queue[0], inc.queue[1..];
    if s.shutdown {
      assert IncOk(s, n, inc);
      var next := inc.(processor := Exited);
      TableKept(s, SetInc(s, n, next), n, inc);
      OneIncKeeps(s, n, next);
    } else if inc.name !in s.instances {
      TakenKeeps(s, n, inc, inc.(queue := rest, finished := inc.finished + [cmd]), cmd);
    } else {
      var m := s.instances[inc.name];
      var table := s.incs[m].table;
      assert IncOk(s, m, s.incs[m]);
      if cmd.id in table { assert EntryOk(s, m, cmd.id, table[cmd.id]); }
      var p := Working(cmd, if cmd.id in table then Some(table[cmd.id]) else None, m);
      TakenKeeps(s, n, inc, inc.(queue := rest, processor := p), cmd);
    }
  }

  lemma CloseKeeps(s: State, n: nat)
    requires Inv(s) && Enabled(s, CloseReceiver(n))
    ensures Inv(Apply(s, CloseReceiver(n)))
  {
    var inc := s.incs[n];
    assert IncOk(s, n, inc);
    var t := SetInc(s, n, inc.(processor := Exited));
    TableKept(s, t, n, inc);
    OneIncKeeps(s, n, inc.(processor := Exited));
  }

  lemma HealthKeeps(s: State, name: Name)
    requires Inv(s)
    ensures InRange(s) && Inv(HealthStep(s, name))
  {
    if name in s.instances && !s.incs[s.instances[name]].processor.Exited? {
      var n := s.instances[name];
      var inc := s.incs[n];
      assert IncOk(s, n, inc);
      var next := Enqueue(inc, Command(HealthId, None));
      var t := SetInc(s, n, next);
      TableKept(s, t, n, inc);
      assert CommandOk(t, n, Command(HealthId, None));
      assert next.submitted == next.finished + InHand(next.processor) + next.queue;
      OneIncKeeps(s, n, next);
    }
  }

  // --- A caller changes ---

  predicate NoEntry(s: State, t: nat) { forall n | 0 <= n < |s.incs| :: t !in s.incs[n].table.Values }

  lemma CallerEvolves(s: State, t: nat, c: Caller)
    requires t in s.callers && SameCaller(s.callers[t], c)
    ensures Evolves(s, SetCaller(s, t, c))
  {
  }

  lemma EntriesAfterMove(s: State, t: nat, c: Caller, n: nat, inc: Incarnation)
    requires IncOk(s, n, inc) && t in s.callers && SameCaller(s.callers[t], c)
    requires c.Active() || s.shutdown || !c.kind.Execute? || t !in inc.table.Values
    ensures forall id | id in inc.table :: EntryOk(SetCaller(s, t, c), n, id, inc.table[id])
  {
    forall id | id in inc.table ensures EntryOk(SetCaller(s, t, c), n, id, inc.table[id]) {
      assert EntryOk(s, n, id, inc.table[id]);
      assert inc.table[id] in inc.table.Values;
    }
  }

  /** A caller moves on; one that returns has left no execute entry behind, or shutdown has begun. */
  lemma CallerMoves(s: State, t: nat, c: Caller)
    requires Inv(s) && t in s.callers && SameCaller(s.callers[t], c) && CallerOk(SetCaller(s, t, c), t, c)
    requires c.Active() || s.shutdown || !c.kind.Execute? || NoEntry(s, t)
    ensures Inv(SetCaller(s, t, c))
  {
    var u := SetCaller(s, t, c);
    CallerEvolves(s, t, c);
    forall n | 0 <= n < |u.incs| ensures IncOk(u, n, u.incs[n]) {
      assert IncOk(s, n, s.incs[n]);
      EntriesAfterMove(s, t, c, n, s.incs[n]);
      IncKept(s, u, n, s.incs[n]);
    }
    forall x | x in u.callers ensures CallerOk(u, x, u.callers[x]) {
      if x != t { assert CallerOk(s, x, s.callers[x]); }
    }
    DeliveriesKept(s, u);
    InboxesKept(s, u);
    CidsKept(s, u);
  }

  /** A command joins the queue: its caller has not submitted one before. */
  lemma EnqueueKeeps(s: State, n: nat, inc: Incarnation, cmd: Command)
    requires Inv(s) && n < |s.incs| && s.incs[n] == inc && !inc.processor.Exited? && CommandOk(s, n, cmd)
    requires forall c | c in inc.submitted && c.caller.Some? :: c.caller != cmd.caller
    ensures Inv(SetInc(s, n, Enqueue(inc, cmd)))
  {
    assert IncOk(s, n, inc);
    var next := Enqueue(inc, cmd);
    var t := SetInc(s, n, next);
    TableKept(s, t, n, inc);
    assert next.submitted == next.finished + InHand(next.processor) + next.queue;
    assert OncePerCaller(next.submitted) by {
      forall i | 0 <= i < |inc.submitted| && inc.submitted[i].caller.Some?
        ensures inc.submitted[i].caller != cmd.caller
      {
        assert inc.submitted[i] in inc.submitted;
      }
    }
    assert CommandOk(t, n, cmd);
    OneIncKeeps(s, n, next);
  }

  lemma SubmitKeeps(s: State, t: nat)
    requires Inv(s) && t in s.callers && s.callers[t].progress.Registered? && s.callers[t].inc < |s.incs|
    ensures Inv(SubmitStep(s, t))
  {
    var c := s.callers[t];
    var n := c.inc;
    var inc := s.incs[n];
    assert IncOk(s, n, inc) && CallerOk(s, t, c);
    if inc.processor.Exited? {
      CallerMoves(s, t, c.(progress := Returned(SendFailed)));
    } else {
      var d := c.(progress := if c.kind.SpawnProcess? then Returned(Success("")) else Polling);
      forall x | x in inc.submitted && x.caller.Some? ensures x.caller != Some(t) { assert CommandOk(s, n, x); }
      CallerMoves(s, t, d);
      var u := SetCaller(s, t, d);
      EnqueueKeeps(u, n, inc, Command(c.id, Some(t)));
    }
  }

  // --- Registering ---

  /** Caller `t` appears; if it holds a sender, incarnation `c.inc` is live and has it in its table. */
  predicate Appears(s: State, u: State, t: nat, c: Caller) {
    && t !in s.callers && IdOfKind(c, t) && |u.incs| == |s.incs|
    && u == s.(callers := s.callers[t := c], incs := u.incs, inbox := u.inbox)
    && (forall n: nat | n < |s.incs| && n != c.inc :: u.incs[n] == s.incs[n])
    && if c.Active() then
         && LiveInc(s, c.inc) && u.inbox == s.inbox[t := []]
         && u.incs[c.inc] == s.incs[c.inc].(table := s.incs[c.inc].table[c.id := t])
       else u.incs == s.incs && u.inbox == s.inbox && c.progress == Returned(NotFound)
  }

  lemma AppearsEvolves(s: State, u: State, t: nat, c: Caller)
    requires Appears(s, u, t, c)
    ensures Evolves(s, u) && forall n: nat :: LiveInc(s, n) == LiveInc(u, n)
  {
    if c.Active() { assert SameInc(s.incs[c.inc], u.incs[c.inc]); }
  }

  lemma AppearsCallers(s: State, u: State, t: nat, c: Caller)
    requires Appears(s, u, t, c) && CallersOk(s)
    ensures CallersOk(u)
  {
    AppearsEvolves(s, u, t, c);
    forall x | x in u.callers ensures CallerOk(u, x, u.callers[x]) {
      if x != t { assert CallerOk(s, x, s.callers[x]); }
    }
  }

  lemma AppearsKeeps(s: State, u: State, t: nat, c: Caller)
    requires Inv(s) && Appears(s, u, t, c)
    ensures Inv(u)
  {
    AppearsEvolves(s, u, t, c);
    AppearsCallers(s, u, t, c);
    forall n | 0 <= n < |u.incs| ensures IncOk(u, n, u.incs[n]) {
      assert IncOk(s, n, s.incs[n]);
      RegisteredIncOk(s, u, t, n);
    }
    DeliveriesKept(s, u);
    AppearsInboxes(s, u, t, c);
    CidsKept(s, u);
  }

  lemma AppearsInboxes(s: State, u: State, t: nat, c: Caller)
    requires Appears(s, u, t, c) && InboxesOk(s)
    ensures InboxesOk(u)
  {
    forall x | x in u.inbox ensures InboxOk(u, x, u.inbox[x]) {
      if x in s.inbox { assert InboxOk(s, x, s.inbox[x]); }
    }
  }

  lemma RegisterKeeps(s: State, t: nat, kind: Kind, id: CmdId, name: Name)
    requires Inv(s) && t !in s.callers && IdOfKind(Caller(kind, id, 0, Registered), t)
    ensures InRange(s) && Inv(RegisterStep(s, t, kind, id, name))
  {
    var u := RegisterStep(s, t, kind, id, name);
    RegisterAppears(s, t, kind, id, name);
    AppearsKeeps(s, u, t, u.callers[t]);
  }

  lemma RegisterAppears(s: State, t: nat, kind: Kind, id: CmdId, name: Name)
    requires NamesOk(s) && t !in s.callers && IdOfKind(Caller(kind, id, 0, Registered), t)
    ensures InRange(s) && t in RegisterStep(s, t, kind, id, name).callers
    ensures Appears(s, RegisterStep(s, t, kind, id, name), t, RegisterStep(s, t, kind, id, name).callers[t])
  {
    if name in s.instances {
      RegisterFound(s, t, kind, id, name);
    } else {
      var c := Caller(kind, id, 0, Returned(NotFound));
      assert Appears(s, SetCaller(s, t, c), t, c);
    }
  }

  lemma RegisterFound(s: State, t: nat, kind: Kind, id: CmdId, name: Name)
    requires NamesOk(s) && t !in s.callers && IdOfKind(Caller(kind, id, 0, Registered), t) && name in s.instances
    ensures InRange(s) && t in RegisterStep(s, t, kind, id, name).callers
    ensures Appears(s, RegisterStep(s, t, kind, id, name), t, RegisterStep(s, t, kind, id, name).callers[t])
  {
    var n := s.instances[name];
    var c := Caller(kind, id, n, Registered);
    assert LiveInc(s, n) && IdOfKind(c, t);
    assert RegisterStep(s, t, kind, id, name).callers[t] == c;
  }

  lemma RegisteredIncOk(s: State, u: State, t: nat, n: nat)
    requires Evolves(s, u) && n < |s.incs| && |u.incs| == |s.incs| && IncOk(s, n, s.incs[n])
    requires t in u.callers && t !in s.callers && u.callers == s.callers[t := u.callers[t]] && u.shutdown == s.shutdown
    requires u.instances == s.instances && u.nextCid == s.nextCid
    requires u.incs[n] == s.incs[n].(table := u.incs[n].table)
    requires u.incs[n].table == s.incs[n].table ||
      (LiveInc(s, n) && u.callers[t].Active() && u.callers[t].inc == n
        && u.incs[n].table == s.incs[n].table[u.callers[t].id := t])
    requires forall m | 0 <= m < |s.incs| :: u.incs[m].name == s.incs[m].name
    ensures IncOk(u, n, u.incs[n])
  {
    var inc := u.incs[n];
    forall id | id in inc.table ensures EntryOk(u, n, id, inc.table[id]) {
      if inc.table[id] != t { assert EntryOk(s, n, id, s.incs[n].table[id]); }
    }
    forall cmd | cmd in inc.submitted ensures CommandOk(u, n, cmd) { assert CommandOk(s, n, cmd); }
  }

  // --- Responding ---

  /** The command in the hand of processor `n` has not been answered before. */
  lemma NotDeliveredYet(s: State, n: nat, to: nat)
    requires Inv(s) && n < |s.incs| && s.incs[n].processor.Working? && s.incs[n].processor.sender == Some(to)
    requires IsExecute(s, to)
    ensures s.incs[n].processor.cmd.caller == Some(to) && s.callers[to].inc == n
    ensures forall d | d in s.delivered :: d.to != to
  {
    var inc := s.incs[n];
    var cmd := inc.processor.cmd;
    assert IncOk(s, n, inc) && CallerOk(s, to, s.callers[to]);
    var k := |inc.finished|;
    assert inc.submitted[k] == cmd && CommandOk(s, n, cmd);
    assert CallerOk(s, cmd.caller.value, s.callers[cmd.caller.value]);
    forall i | 0 <= i < k ensures inc.finished[i].caller != Some(to) { assert inc.submitted[i] == inc.finished[i]; }
    forall d | d in s.delivered ensures d.to != to {
      assert DeliveryOk(s, d);
      assert d.to == to ==> d.cmd in inc.finished && d.cmd.caller == Some(to);
    }
  }

  lemma FinishKeeps(s: State, n: nat, inc: Incarnation)
    requires Inv(s) && n < |s.incs| && s.incs[n] == inc && inc.processor.Working?
    ensures Inv(SetInc(s, n, inc.(processor := Receiving, finished := inc.finished + [inc.processor.cmd])))
  {
    assert IncOk(s, n, inc);
    var next := inc.(processor := Receiving, finished := inc.finished + [inc.processor.cmd]);
    TableKept(s, SetInc(s, n, next), n, inc);
    OneIncKeeps(s, n, next);
  }

  lemma DeliverKeeps(s: State, to: nat, d: Delivery, r: CommandResult)
    requires Inv(s) && to in s.callers && to in s.inbox && d.to == to && DeliveryOk(s, d) && r.id == s.callers[to].id
    requires IsExecute(s, to) ==> forall e | e in s.delivered :: e.to != to
    ensures Inv(s.(inbox := s.inbox[to := s.inbox[to] + [r]], delivered := s.delivered + [d]))
  {
    var t := s.(inbox := s.inbox[to := s.inbox[to] + [r]], delivered := s.delivered + [d]);
    forall n | 0 <= n < |t.incs| ensures IncOk(t, n, t.incs[n]) {
      assert IncOk(s, n, s.incs[n]);
      TableKept(s, t, n, s.incs[n]);
      IncKept(s, t, n, s.incs[n]);
    }
    forall x | x in t.callers ensures CallerOk(t, x, t.callers[x]) { assert CallerOk(s, x, s.callers[x]); }
    DeliverInboxes(s, t, to, d, r);
    forall e | e in t.delivered ensures DeliveryOk(t, e) { assert e in s.delivered ==> DeliveryOk(s, e); }
    assert forall i | 0 <= i < |s.delivered| :: s.delivered[i] in s.delivered;
    CidsKept(s, t);
  }

  lemma DeliverInboxes(s: State, t: State, to: nat, d: Delivery, r: CommandResult)
    requires InboxesOk(s) && to in s.callers && to in s.inbox && d.to == to && r.id == s.callers[to].id
    requires IsExecute(s, to) ==> forall e | e in s.delivered :: e.to != to
    requires t == s.(inbox := s.inbox[to := s.inbox[to] + [r]], delivered := s.delivered + [d])
    ensures InboxesOk(t)
  {
    assert d in t.delivered && forall e | e in s.delivered :: e in t.delivered;
    forall x | x in t.inbox ensures InboxOk(t, x, t.inbox[x]) {
      assert InboxOk(s, x, s.inbox[x]);
      if s.inbox[x] != [] { assert HasDelivery(s, x); }
      assert x == to ==> HasDelivery(t, x);
    }
  }

  lemma RespondKeeps(s: State, n: nat, exitCode: int, stdout: string, stderr: string)
    requires Inv(s) && n < |s.incs| && s.incs[n].processor.Working?
    ensures Inv(RespondStep(s, n, exitCode, stdout, stderr))
  {
    var inc := s.incs[n];
    var p := inc.processor;
    assert IncOk(s, n, inc);
    FinishKeeps(s, n, inc);
    var u := SetInc(s, n, inc.(processor := Receiving, finished := inc.finished + [p.cmd]));
    if p.sender.Some? && p.sender.value in s.inbox && s.callers[p.sender.value].Active() {
      var to := p.sender.value;
      if IsExecute(s, to) { NotDeliveredYet(s, n, to); }
      assert IncOk(u, n, u.incs[n]);
      assert inc.submitted[|inc.finished|] == p.cmd && CommandOk(s, n, p.cmd);
      assert DeliveryOk(u, Delivery(to, p.cmd, p.on));
      DeliverKeeps(u, to, Delivery(to, p.cmd, p.on), CommandResult(p.cmd.id, exitCode, stdout, stderr));
    }
  }

  // --- Returning ---

  lemma LiveHasEntry(s: State, t: nat, c: Caller)
    requires CallerOk(s, t, c) && c.Active() && c.kind.Execute? && LiveInc(s, c.inc)
    ensures t in s.incs[c.inc].table.Values
  {
    assert s.incs[c.inc].table[c.id] == t;
  }

  lemma DeadWithoutEntry(s: State, t: nat, c: Caller)
    requires CallerOk(s, t, c) && c.Active() && c.kind.Execute? && NoEntry(s, t)
    ensures !LiveInc(s, c.inc)
  {
    if LiveInc(s, c.inc) { LiveHasEntry(s, t, c); }
  }

  /** Removing an execute caller's entry from whatever incarnation now has its VM's name. */
  lemma ReturnKeeps(s: State, t: nat, outcome: Outcome)
    requires Inv(s) && IsPolling(s, t) && outcome != NotFound && outcome != SendFailed
    requires outcome.Disconnected? ==> NoSender(s, t)
    ensures InRange(s) && Inv(ReturnStep(s, t, outcome))
  {
    var c := s.callers[t];
    assert CallerOk(s, t, c);
    var d := c.(progress := Returned(outcome));
    if c.kind.Execute? && !outcome.Disconnected? {
      UnregisterKeeps(s, t, c, d);
    } else {
      assert c.kind.Execute? ==> NoEntry(s, t);
      if c.kind.Execute? { DeadWithoutEntry(s, t, c); }
      CallerMoves(s, t, d);
    }
  }

  /** A caller's entries are all in its own incarnation, under its own id. */
  lemma OwnEntry(s: State, t: nat, c: Caller, n: nat)
    requires IncsOk(s) && n < |s.incs| && t in s.callers && s.callers[t] == c
    ensures t in s.incs[n].table.Values ==>
      n == c.inc && LiveInc(s, n) && c.id in s.incs[n].table && s.incs[n].table[c.id] == t
    ensures IdOfKind(c, t) && c.kind.Execute? && c.id in s.incs[n].table && CallersOk(s) ==>
      n == c.inc && s.incs[n].table[c.id] == t
  {
    var inc := s.incs[n];
    assert IncOk(s, n, inc);
    if t in inc.table.Values {
      var id :| id in inc.table && inc.table[id] == t;
      assert EntryOk(s, n, id, inc.table[id]);
    }
    if c.id in inc.table && CallersOk(s) {
      assert EntryOk(s, n, c.id, inc.table[c.id]);
      assert CallerOk(s, inc.table[c.id], s.callers[inc.table[c.id]]);
    }
  }

  lemma UnregisterKeeps(s: State, t: nat, c: Caller, d: Caller)
    requires Inv(s) && t in s.callers && s.callers[t] == c && c.kind.Execute? && c.inc < |s.incs| && InRange(s)
    requires d == c.(progress := d.progress) && d.progress.Returned? && CallerOk(s, t, c)
    requires !d.progress.outcome.Disconnected? && d.progress.outcome != SendFailed && d.progress.outcome != NotFound
    ensures Inv(SetCaller(Unregister(s, s.incs[c.inc].name, c.id), t, d))
  {
    var name := s.incs[c.inc].name;
    var u := SetCaller(s, t, d);
    forall n | 0 <= n < |s.incs| ensures t in s.incs[n].table.Values ==> n == c.inc && LiveInc(s, n) {
      OwnEntry(s, t, c, n);
    }
    if LiveInc(s, c.inc) {
      EntryRemoved(s, t, c, d);
    } else {
      CallerMoves(s, t, d);
      if name in s.instances {
        var m := s.instances[name];
        OwnEntry(s, t, c, m);
        assert s.incs[m].table - {c.id} == s.incs[m].table;
        assert s.incs[m := s.incs[m]] == s.incs;
      }
    }
  }

  lemma EntryRemovedEvolves(s: State, t: nat, c: Caller, d: Caller)
    requires t in s.callers && s.callers[t] == c && c.inc < |s.incs|
    requires d == c.(progress := d.progress) && d.progress.Returned?
    ensures var u := SetCaller(SetInc(s, c.inc, s.incs[c.inc].(table := s.incs[c.inc].table - {c.id})), t, d);
      Evolves(s, u) && forall n: nat :: LiveInc(s, n) == LiveInc(u, n)
  {
  }

  /** Other execute callers keep their entries, which are under other ids. */
  lemma EntryRemovedCallers(s: State, u: State, t: nat, c: Caller)
    requires CallersOk(s) && t in s.callers && s.callers[t] == c && c.kind.Execute? && c.inc < |s.incs| == |u.incs|
    requires t in u.callers && u.callers == s.callers[t := u.callers[t]] && CallerOk(u, t, u.callers[t])
    requires u.inbox == s.inbox && u.shutdown == s.shutdown && forall n: nat :: LiveInc(s, n) == LiveInc(u, n)
    requires forall n: nat | n < |s.incs| ::
      u.incs[n].table == if n == c.inc then s.incs[n].table - {c.id} else s.incs[n].table
    ensures CallersOk(u)
  {
    assert CallerOk(s, t, c);
    forall x | x in u.callers ensures CallerOk(u, x, u.callers[x]) {
      if x != t { assert CallerOk(s, x, s.callers[x]); }
    }
  }

  lemma EntryRemoved(s: State, t: nat, c: Caller, d: Caller)
    requires Inv(s) && t in s.callers && s.callers[t] == c && c.kind.Execute? && LiveInc(s, c.inc)
    requires d == c.(progress := d.progress) && d.progress.Returned? && CallerOk(s, t, c)
    requires !d.progress.outcome.Disconnected? && d.progress.outcome != SendFailed && d.progress.outcome != NotFound
    requires forall n | 0 <= n < |s.incs| :: t in s.incs[n].table.Values ==> n == c.inc
    ensures Inv(SetCaller(SetInc(s, c.inc, s.incs[c.inc].(table := s.incs[c.inc].table - {c.id})), t, d))
  {
    var u := SetCaller(SetInc(s, c.inc, s.incs[c.inc].(table := s.incs[c.inc].table - {c.id})), t, d);
    EntryRemovedEvolves(s, t, c, d);
    EntryRemovedCallers(s, u, t, c);
    forall n | 0 <= n < |u.incs| ensures IncOk(u, n, u.incs[n]) {
      assert IncOk(s, n, s.incs[n]);
      EntryRemovedInc(s, u, t, c, n);
    }
    DeliveriesKept(s, u);
    InboxesKept(s, u);
    CidsKept(s, u);
  }

  lemma EntryRemovedInc(s: State, u: State, t: nat, c: Caller, n: nat)
    requires Evolves(s, u) && n < |s.incs| && IncOk(s, n, s.incs[n]) && t in s.callers && s.callers[t] == c
    requires |u.incs| == |s.incs| && u.instances == s.instances && u.shutdown == s.shutdown && u.nextCid == s.nextCid
    requires u.incs[n] == s.incs[n].(table := if n == c.inc then s.incs[n].table - {c.id} else s.incs[n].table)
    requires t in u.callers && u.callers == s.callers[t := u.callers[t]]
      && (n != c.inc ==> t !in s.incs[n].table.Values)
    requires forall m: nat | m < |s.incs| :: u.incs[m].name == s.incs[m].name
    ensures IncOk(u, n, u.incs[n])
  {
    var inc := u.incs[n];
    forall id | id in inc.table ensures EntryOk(u, n, id, inc.table[id]) {
      assert EntryOk(s, n, id, s.incs[n].table[id]);
      assert inc.table[id] in s.incs[n].table.Values;
    }
    forall cmd | cmd in inc.submitted ensures CommandOk(u, n, cmd) { assert CommandOk(s, n, cmd); }
  }

  // --- Every step, every run ---

  lemma StepKeeps(s: State, step: Step)
    requires Inv(s) && Enabled(s, step)
    ensures Inv(Apply(s, step))
  {
    match step
    case BeginCreate(c, name) => BeginCreateKeeps(s, c, name);
    case Launch(c, ok) => LaunchKeeps(s, c, ok);
    case Install(c) => InstallKeeps(s, c);
    case Destroy(name, removed) => DestroyKeeps(s, name, removed);
    case BeginShutdown => CidsKept(s, s.(shutdown := true)); AsideKeeps(s, s.(shutdown := true));
    case ClearInstances => ClearKeeps(s);
    case Register(t, kind, id, name) => RegisterKeeps(s, t, kind, id, name);
    case Submit(t) => SubmitKeeps(s, t);
    case Health(name) => HealthKeeps(s, name);
    case TakeCommand(n) => TakeKeeps(s, n);
    case Respond(n, exitCode, stdout, stderr) => RespondKeeps(s, n, exitCode, stdout, stderr);
    case CloseReceiver(_) => CloseKeeps(s, step.n);
    case Receive(t) => ReturnKeeps(s, t, Verdict(s.inbox[t][0]));
    case Timeout(t) => ReturnKeeps(s, t, TimedOut);
    case SeeDisconnected(t) => ReturnKeeps(s, t, Disconnected);
  }

  lemma {:induction false} RunKeeps(s: State, steps: seq<Step>)
    requires Inv(s) && Feasible(s, steps)
    ensures Inv(Run(s, steps))
    decreases |steps|
  {
    if steps != [] {
      StepKeeps(s, steps[0]);
      RunKeeps(Apply(s, steps[0]), steps[1..]);
    }
  }

  /** The invariant holds in every reachable state. */
  lemma {:induction false} Always(image: bool, steps: seq<Step>)
    requires Feasible(Init(image), steps)
    ensures Inv(Run(Init(image), steps))
  {
    RunKeeps(Init(image), steps);
  }
}
