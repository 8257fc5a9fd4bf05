/**
  The VM manager as an interleaved transition system: creates, destroys and shutdown, callers that
  submit commands and poll for results, and one command-processor thread per VM incarnation.  A VM name
  may have many incarnations over time; a processor looks its VM up by name when it takes a command.
 */
module VmProtocol {
  import opened Prelude

  type Name = string

  /** `cmd_<nanos>` (taken to be unique, so numbered by its caller), and the fixed ids of the other calls. */
  datatype CmdId = Cmd(n: nat) | ListId | StopId(pid: string) | HealthId

  datatype Kind = Execute | SpawnProcess | ListProcesses | StopProcess

  datatype Command = Command(id: CmdId, caller: Option<nat>)

  datatype CommandResult = CommandResult(id: CmdId, exitCode: int, stdout: string, stderr: string)

  datatype Outcome =
    | Success(stdout: string) | Failed(exitCode: int, stderr: string)
    | NotFound | SendFailed | TimedOut | Disconnected

  datatype Progress = Registered | Polling | Returned(outcome: Outcome)

  /** A caller of the manager; `inc` is the incarnation it registered with. */
  datatype Caller = Caller(kind: Kind, id: CmdId, inc: nat, progress: Progress) {
    predicate Active() { !progress.Returned? }
  }

  /** A processor thread; `on` is the incarnation the name stood for when the command was taken. */
  datatype Processor = Receiving | Working(cmd: Command, sender: Option<nat>, on: nat) | Exited

  /** `table` is the result-sender table, by the caller that holds the receiving end; `finished` is history. */
  datatype Incarnation = Incarnation(name: Name, cid: nat, table: map<CmdId, nat>, queue: seq<Command>,
                                     processor: Processor, submitted: seq<Command>, finished: seq<Command>)

  /** A `create_vm` under way. */
  datatype Creation = Creation(name: Name, cid: nat, launched: bool)

  /** A result put into a caller's channel: the command it answers and where that ran. */
  datatype Delivery = Delivery(to: nat, cmd: Command, on: nat)

  datatype State = State(instances: map<Name, nat>, incs: seq<Incarnation>, callers: map<nat, Caller>,
                         inbox: map<nat, seq<CommandResult>>, creations: map<nat, Creation>, nextCid: nat,
                         shutdown: bool, image: bool, delivered: seq<Delivery>)

  const FIRST_CID: nat := 100

  function Init(image: bool): State {
    State(map[], [], map[], map[], map[], FIRST_CID, false, image, [])
  }

  datatype Step =
    | BeginCreate(c: nat, name: Name)
    | Launch(c: nat, ok: bool)
    | Install(c: nat)
    | Destroy(name: Name, removed: bool)
    | BeginShutdown
    | ClearInstances
    | Register(t: nat, kind: Kind, id: CmdId, name: Name)
    | Submit(t: nat)
    | Health(name: Name)
    | TakeCommand(n: nat)
    | Respond(n: nat, exitCode: int, stdout: string, stderr: string)
    | CloseReceiver(n: nat)
    | Receive(t: nat)
    | Timeout(t: nat)
    | SeeDisconnected(t: nat)

  function SetInc(s: State, n: nat, inc: Incarnation): State
    requires n < |s.incs|
  {
    s.(incs := s.incs[n := inc])
  }

  function SetCaller(s: State, t: nat, c: Caller): State { s.(callers := s.callers[t := c]) }

  // --- Creating and destroying ---

  /** Dropping a `VmInstance` drops its result senders. */
  function DropInstance(s: State, name: Name): State
    requires forall k | k in s.instances :: s.instances[k] < |s.incs|
  {
    if name !in s.instances then s
    else
      var n := s.instances[name];
      SetInc(s, n, s.incs[n].(table := map[])).(instances := s.instances - {name})
  }

  function InstallStep(s: State, c: nat): State
    requires c in s.creations && forall k | k in s.instances :: s.instances[k] < |s.incs|
  {
    var cr := s.creations[c];
    var t := DropInstance(s, cr.name);
    var inc := Incarnation(cr.name, cr.cid, map[], [], Receiving, [], []);
    t.(incs := t.incs + [inc], instances := t.instances[cr.name := |t.incs|], creations := s.creations - {c})
  }

  function LaunchStep(s: State, c: nat, ok: bool): State
    requires c in s.creations
  {
    s.(creations := if ok then s.creations[c := s.creations[c].(launched := true)] else s.creations - {c})
  }

  function DestroyStep(s: State, name: Name, removed: bool): State
    requires forall k | k in s.instances :: s.instances[k] < |s.incs|
  {
    if name in s.instances then DropInstance(s, name).(image := s.image && !removed) else s
  }

  function ClearStep(s: State): State {
    s.(instances := map[], incs := seq(|s.incs|, n requires 0 <= n < |s.incs| =>
         if n in s.instances.Values then s.incs[n].(table := map[]) else s.incs[n]))
  }

  // --- Callers ---

  function RegisterStep(s: State, t: nat, kind: Kind, id: CmdId, name: Name): State
    requires forall k | k in s.instances :: s.instances[k] < |s.incs|
  {
    if name !in s.instances then SetCaller(s, t, Caller(kind, id, 0, Returned(NotFound)))
    else
      var n := s.instances[name];
      SetCaller(SetInc(s, n, s.incs[n].(table := s.incs[n].table[id := t])), t, Caller(kind, id, n, Registered))
        .(inbox := s.inbox[t := []])
  }

  function Enqueue(inc: Incarnation, cmd: Command): Incarnation {
    inc.(queue := inc.queue + [cmd], submitted := inc.submitted + [cmd])
  }

  /** `command_sender.send`; a spawning caller returns at once and drops its receiver. */
  function SubmitStep(s: State, t: nat): State
    requires t in s.callers && s.callers[t].inc < |s.incs|
  {
    var c := s.callers[t];
    if s.incs[c.inc].processor.Exited? then SetCaller(s, t, c.(progress := Returned(SendFailed)))
    else
      SetCaller(SetInc(s, c.inc, Enqueue(s.incs[c.inc], Command(c.id, Some(t)))), t,
                c.(progress := if c.kind.SpawnProcess? then Returned(Success("")) else Polling))
  }

  /** `check_vm_health_internal`: a command that no caller waits for. */
  function HealthStep(s: State, name: Name): State
    requires forall k | k in s.instances :: s.instances[k] < |s.incs|
  {
    if name !in s.instances || s.incs[s.instances[name]].processor.Exited? then s
    else SetInc(s, s.instances[name], Enqueue(s.incs[s.instances[name]], Command(HealthId, None)))
  }

  /** Removes a command id from the table of whatever incarnation the name stands for now. */
  function Unregister(s: State, name: Name, id: CmdId): State
    requires forall k | k in s.instances :: s.instances[k] < |s.incs|
  {
    if name !in s.instances then s
    else SetInc(s, s.instances[name], s.incs[s.instances[name]].(table := s.incs[s.instances[name]].table - {id}))
  }

  /** An execute caller unregisters when it returns; the others leave their entry behind. */
  function ReturnStep(s: State, t: nat, outcome: Outcome): State
    requires t in s.callers && s.callers[t].inc < |s.incs|
    requires forall k | k in s.instances :: s.instances[k] < |s.incs|
  {
    var c := s.callers[t];
    var u := if c.kind.Execute? && !outcome.Disconnected? then Unregister(s, s.incs[c.inc].name, c.id) else s;
    SetCaller(u, t, c.(progress := Returned(outcome)))
  }

  function Verdict(r: CommandResult): Outcome {
    if r.exitCode == 0 then Success(r.stdout) else Failed(r.exitCode, r.stderr)
  }

  // --- Processors ---

  function TakeStep(s: State, n: nat): State
    requires n < |s.incs| && s.incs[n].queue != [] && forall k | k in s.instances :: s.instances[k] < |s.incs|
  {
    var inc := s.incs[n];
    var cmd, rest := inc.queue[0], inc.queue[1..];
    if s.shutdown then SetInc(s, n, inc.(processor := Exited))
    else if inc.name !in s.instances then
      SetInc(s, n, inc.(queue := rest, finished := inc.finished + [cmd]))
    else
      var m := s.instances[inc.name];
      var table := s.incs[m].table;
      var sender := if cmd.id in table then Some(table[cmd.id]) else None;
      SetInc(s, n, inc.(queue := rest, processor := Working(cmd, sender, m)))
  }

  function RespondStep(s: State, n: nat, exitCode: int, stdout: string, stderr: string): State
    requires n < |s.incs| && s.incs[n].processor.Working?
  {
    var inc := s.incs[n];
    var p := inc.processor;
    var u := SetInc(s, n, inc.(processor := Receiving, finished := inc.finished + [p.cmd]));
    if p.sender.Some? && p.sender.value in s.callers && p.sender.value in s.inbox
      && s.callers[p.sender.value].Active() then
      var to := p.sender.value;
      u.(inbox := s.inbox[to := s.inbox[to] + [CommandResult(p.cmd.id, exitCode, stdout, stderr)]],
         delivered := s.delivered + [Delivery(to, p.cmd, p.on)])
    else u
  }

  /** No sender for caller `t` is left: neither in a table nor in a processor's hand. */
  predicate NoSender(s: State, t: nat) {
    forall n | 0 <= n < |s.incs| ::
      t !in s.incs[n].table.Values && !(s.incs[n].processor.Working? && s.incs[n].processor.sender == Some(t))
  }

  // --- The transition system ---

  predicate InRange(s: State) { forall k | k in s.instances :: s.instances[k] < |s.incs| }

  predicate IsPolling(s: State, t: nat) {
    t in s.callers && s.callers[t].progress.Polling? && t in s.inbox && s.callers[t].inc < |s.incs|
  }

  predicate Enabled(s: State, step: Step) {
    && InRange(s)
    && match step
       case BeginCreate(c, _) => c !in s.creations
       case Launch(c, ok) => c in s.creations && !s.creations[c].launched && (ok ==> s.image)
       case Install(c) => c in s.creations && s.creations[c].launched
       case Destroy(_, _) => true
       case BeginShutdown => true
       case ClearInstances => s.shutdown
       case Register(t, kind, id, _) =>
         t !in s.callers &&
         (match kind case Execute => id == Cmd(t) case SpawnProcess => id == Cmd(t)
          case ListProcesses => id == ListId case StopProcess => id.StopId?)
       case Submit(t) => t in s.callers && s.callers[t].progress.Registered? && s.callers[t].inc < |s.incs|
       case Health(_) => true
       case TakeCommand(n) => n < |s.incs| && s.incs[n].processor.Receiving? && s.incs[n].queue != []
       case Respond(n, _, _, _) => n < |s.incs| && s.incs[n].processor.Working?
       case CloseReceiver(n) =>
         n < |s.incs| && s.incs[n].processor.Receiving? && s.incs[n].queue == [] && n !in s.instances.Values &&
         forall t | t in s.callers && s.callers[t].inc == n :: s.callers[t].progress.Returned?
       case Receive(t) => IsPolling(s, t) && s.inbox[t] != []
       case Timeout(t) => IsPolling(s, t) && s.inbox[t] == []
       case SeeDisconnected(t) => IsPolling(s, t) && s.inbox[t] == [] && NoSender(s, t)
  }

  function Apply(s: State, step: Step): State
    requires Enabled(s, step)
  {
    match step
    case BeginCreate(c, name) =>
      s.(creations := s.creations[c := Creation(name, s.nextCid, false)], nextCid := s.nextCid + 1)
    case Launch(c, ok) => LaunchStep(s, c, ok)
    case Install(c) => InstallStep(s, c)
    case Destroy(name, removed) => DestroyStep(s, name, removed)
    case BeginShutdown => s.(shutdown := true)
    case ClearInstances => ClearStep(s)
    case Register(t, kind, id, name) => RegisterStep(s, t, kind, id, name)
    case Submit(t) => SubmitStep(s, t)
    case Health(name) => HealthStep(s, name)
    case TakeCommand(n) => TakeStep(s, n)
    case Respond(n, exitCode, stdout, stderr) => RespondStep(s, n, exitCode, stdout, stderr)
    case CloseReceiver(n) => SetInc(s, n, s.incs[n].(processor := Exited))
    case Receive(t) => ReturnStep(s, t, Verdict(s.inbox[t][0]))
    case Timeout(t) => ReturnStep(s, t, TimedOut)
    case SeeDisconnected(t) => ReturnStep(s, t, Disconnected)
  }

  predicate Feasible(s: State, steps: seq<Step>)
    decreases |steps|
  {
    steps == [] || (Enabled(s, steps[0]) && Feasible(Apply(s, steps[0]), steps[1..]))
  }

  function Run(s: State, steps: seq<Step>): State
    requires Feasible(s, steps)
    decreases |steps|
  {
    if steps == [] then s else Run(Apply(s, steps[0]), steps[1..])
  }
}
