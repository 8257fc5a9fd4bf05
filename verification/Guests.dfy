/**
  The two guests as event-loop activations.  The serial theorem rests on two habits of a guest: at most
  one host call per activation, and none that took effect when the activation fails.
 */
module Guests {
  import opened Prelude
  import opened Json
  import M = VsockMessages
  import TitleLinks
  import opened McpProtocol
  import opened McpSerial

  datatype Param = Text(text: string) | OtherParam

  datatype HostCall =
    | FetchData(url: string, callback: string)
    | CreateVm(vmId: string, callback: string)
    | ExecuteVmCommand(vmId: string, command: string, callback: string)
    | SpawnCommand(vmId: string, command: string, callback: string)
    | ListSpawnedProcesses(vmId: string, callback: string)
    | StopSpawnedProcess(vmId: string, command: string, callback: string)
    | DestroyVm(vmId: string, callback: string)
    | ListVms(callback: string)
    | Final(message: string)

  /** The host calls an activation makes, in order, and whether it returns Ok. */
  datatype Outcome = Outcome(calls: seq<HostCall>, ok: bool)

  /** Whether the host function returns Ok; one that fails has no effect. */
  type Host = HostCall -> bool

  // --- vm_builder ---

  datatype VmAction = VmAction(action: string, vmId: string, command: string)

  function ReadAction(text: string): Option<VmAction> {
    var j :- Parse(text);
    if !j.Obj? then None
    else
      var action :- M.Field(j.members, "action", M.ReadString);
      var vmId :- M.OptionField(j.members, "vm_id", M.ReadString);
      var command :- M.OptionField(j.members, "command", M.ReadString);
      Some(VmAction(action, if vmId.Some? then vmId.value else "default_vm",
                    if command.Some? then command.value else ""))
  }

  function VmCall(a: VmAction): Option<HostCall> {
    match a.action
    case "create_vm" => Some(CreateVm(a.vmId, "ProcessVmCreationResult"))
    case "execute_vm_command" => Some(ExecuteVmCommand(a.vmId, a.command, "ProcessVmCommandResult"))
    case "spawn_command" => Some(SpawnCommand(a.vmId, a.command, "ProcessVmCommandResult"))
    case "list_spawned_processes" => Some(ListSpawnedProcesses(a.vmId, "ProcessVmListResult"))
    case "stop_spawned_process" => Some(StopSpawnedProcess(a.vmId, a.command, "ProcessVmCommandResult"))
    case "destroy_vm" => Some(DestroyVm(a.vmId, "ProcessVmDestructionResult"))
    case "list_vms" => Some(ListVms("ProcessVmListResult"))
    case _ => None
  }

  function FirstText(params: Option<seq<Param>>): Option<string> {
    if params.Some? && params.value != [] && params.value[0].Text? then Some(params.value[0].text) else None
  }

  /** `guest_run`: a failed host call is reported in an Ok result. */
  function RunVmBuilder(params: Option<seq<Param>>): Outcome {
    var text := FirstText(params);
    var action := if text.None? then None else ReadAction(text.value);
    var call := if action.None? then None else VmCall(action.value);
    if call.None? then Outcome([], false) else Outcome([call.value], true)
  }

  /** `process_result` */
  function ProcessResult(params: Option<seq<Param>>, host: Host): Outcome {
    var text := FirstText(params);
    if text.None? then Outcome([], true) else Outcome([Final(text.value)], host(Final(text.value)))
  }

  /** `show` is the debug form of the parameters. */
  function ProcessList(params: Option<seq<Param>>, host: Host, show: seq<Param> -> string): Outcome {
    if params.None? then Outcome([], true)
    else
      var call := Final("Available VMs: " + show(params.value));
      Outcome([call], host(call))
  }

  function VmBuilder(callback: string, params: Option<seq<Param>>, host: Host, show: seq<Param> -> string): Outcome {
    match callback
    case "Run" => RunVmBuilder(params)
    case "GetMCPTool" => Outcome([], true)
    case "ProcessVmCreationResult" => ProcessResult(params, host)
    case "ProcessVmCommandResult" => ProcessResult(params, host)
    case "ProcessVmDestructionResult" => ProcessResult(params, host)
    case "ProcessVmListResult" => ProcessList(params, host, show)
    case _ => Outcome([], false)
  }

  // --- top_hn_links ---

  function TopHnLinks(callback: string, params: Option<seq<Param>>, host: Host): Outcome {
    match callback
    case "Run" =>
      var call := FetchData("https://news.ycombinator.com/", "ProcessHttpResponse");
      Outcome([call], host(call))
    case "GetMCPTool" => Outcome([], true)
    case "ProcessHttpResponse" =>
      var body := FirstText(params);
      if body.None? then Outcome([], false)
      else
        var call := Final(TitleLinks.HEADER + Flatten(TitleLinks.Numbered(TitleLinks.Stories(body.value))));
        Outcome([call], host(call))
    case _ => Outcome([], false)
  }

  // --- As activations of the event loop ---

  /** What the host function does: answers the request, or starts a worker that will call back. */
  function Effect(call: HostCall): Call {
    match call
    case Final(message) => FinalResult(message)
    case _ => Spawn(call.callback)
  }

  /** The first host call that took effect. */
  function AsActivation(o: Outcome, host: Host): Activation {
    Activation(if o.calls != [] && host(o.calls[0]) then Effect(o.calls[0]) else NoCall, o.ok)
  }

  datatype Guest = VmBuilderGuest | TopHnLinksGuest

  function Outcomes(g: Guest, callback: string, params: Option<seq<Param>>, host: Host,
                    show: seq<Param> -> string): Outcome {
    if g.VmBuilderGuest? then VmBuilder(callback, params, host, show) else TopHnLinks(callback, params, host)
  }

  /**
    At most one host call in every activation, so that the activation says all about it; none that worked
    if it fails.
   */
  lemma GuestDiscipline(g: Guest, callback: string, params: Option<seq<Param>>, host: Host, show: seq<Param> -> string)
    ensures var o := Outcomes(g, callback, params, host, show);
      && |o.calls| <= 1
      && (!o.ok ==> AsActivation(o, host).call == NoCall)
      && (o.calls != [] && !host(o.calls[0]) ==> AsActivation(o, host).call == NoCall)
  {
  }

  /**
    An answer is given in a callback only, never by `Run`; a worker is started by `Run` only, and calls back
    into the guest.
   */
  lemma RunStartsCallbackAnswers(g: Guest, callback: string, params: Option<seq<Param>>, host: Host,
                                 show: seq<Param> -> string)
    ensures var act := AsActivation(Outcomes(g, callback, params, host, show), host);
      && (act.call.FinalResult? ==> callback != "Run")
      && (act.call.Spawn? ==> callback == "Run" && act.ok && act.call.callback != "Run")
      && (act.call.Spawn? ==> (act.call.callback == "ProcessHttpResponse" <==> g.TopHnLinksGuest?))
  {
  }

  ghost predicate IsGuestActivation(act: Activation) {
    exists g, callback, params, host, show :: act == AsActivation(Outcomes(g, callback, params, host, show), host)
  }

  /** With these guests, serial use alone gives every request its own answer. */
  lemma {:induction false} GuestAnswersAreOwn(registry: map<string, AgentId>, steps: seq<Step>)
    requires Feasible(Init(registry), steps) && SeriallyUsed(Init(registry), steps) && AllClean(steps)
    requires forall step | step in steps && step.Activate? :: IsGuestActivation(step.activation)
    ensures forall x | x in Run(Init(registry), steps).sent :: x.origin == x.req
  {
    forall step | step in steps ensures Disciplined(step) {
      if step.Activate? {
        var g, callback, params, host, show :|
          step.activation == AsActivation(Outcomes(g, callback, params, host, show), host);
        GuestDiscipline(g, callback, params, host, show);
      }
    }
    AnswersAreOwn(registry, steps);
  }
}
