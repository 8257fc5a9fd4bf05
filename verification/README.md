# Verified model of the agent host, the VM manager and the VM agent

The repository runs MCP tool calls in sandboxed guests and lets the guests drive Firecracker VMs. This
project models the parts of it that carry state, protocol or framing logic, and proves what they keep in
every interleaving and for every division of a byte stream into reads. Sockets, processes, clocks, the
sandbox and HTTP are inputs of the model: chunks, end of stream, errors, "time is up", guest activations.

`dafny verify dfyconfig.toml` checks everything. One module per file:

| modules | what they hold |
|---|---|
| `Prelude`, `Decimals`, `Utf8`, `Strings`, `Lines` | options and chunks, decimal texts, sections 3 and 4 of RFC 3629, byte offsets into strings, splitting at `\n` and `\r` |
| `VmLogger`, `LogListener`, `LogPipeline` | the log pipeline: bounded queue in the VM, reassembly and line splitting on the host, both together |
| `McpFrame`, `McpProtocol`, `McpSafety`, `McpRouting`, `McpSerial`, `McpLimits`, `McpHost`, `Guests` | MCP requests and answers: the transition system, its invariant, what holds for all runs, exactly where answers go, what needs serial use, runs that show why, the objects updated in place, the two guests |
| `VmProtocol`, `VmSafety`, `VmTheorems`, `VmIncarnations`, `VmLimits`, `VmManager` | the VM manager: incarnations, command queues, result tables, image and CIDs; exactly which incarnation runs a command; the object |
| `VmRetry`, `VmCalls`, `VmReconnect`, `VmCallLimits` | the retry loop; a whole retrying call as one thread among all others; what its reconnects heal and destroy; a run in which one destroys another's VM |
| `Json`, `JsonPrefix`, `JsonPrint`, `VsockMessages` | `serde_json`'s reader and compact writer (sections 2 to 7 of RFC 8259), prefix-freeness, round trips, the messages on vsock |
| `Lossy`, `Blur`, `BlurJson`, `BlurMessages` | chunk-wise lossy decoding character by character, and what the JSON reader and the message types make of its result |
| `AgentConnection`, `ProxyConnection`, `VsockFraming`, `SplitCharacters`, `CommandReplies` | incremental framing on the three readers, and the way of a command and of a proxied request there and back |
| `Relay`, `HostRelay` | both ends of a CONNECT tunnel |
| `TitleLinks` | the story pattern of the Hacker News guest |

The protocols are transition systems: a `State`, a `Step` for each critical section or channel operation,
`Feasible` runs of any length and order. History fields (`taken`, `sent`, `latest`, `submitted`, `finished`,
`delivered`, `offers`, `written`, `swaps`) record what happened and never influence the fields that stand
for the code's own. The classes (`Host`, `Manager`, `Tasks`,
`BoundedVsockLogger`, `LogConnection`) hold the source's fields, and each of their methods is proved to
do exactly the steps named in its contract, so the theorems about runs apply to them.

## What the model assumes

* MCP request ids are fresh and hold no colon (`req-` and a UUID); command ids are unique (the source uses
  the nanosecond clock).
* Agent ids are distinct. An id is the last component of the guest's path (host/src/agents/agent.rs:68) and the
  model has one queue and one event loop for each id; two guests with one file name would be two loops with one
  entry in the id table, and neither `McpSafety.IdTableAgrees` nor `McpSafety.RoutingRule` would hold of them.
* A worker's response does not begin with `mcp_request:` followed by a second colon. `McpLimits.FramedResponseForgesId`
  shows what happens otherwise.
* A host function that fails has had no effect. The real ones return Ok once their thread is started.
* The CID counter is unbounded; `VmTheorems.CidFitsExactly` says exactly for how many creations the source's
  32 bits agree with it.

## Where the code does not do what it seems meant to do

* Overlapping calls to one agent, and a failing `Run` that has started a worker, send an answer to the wrong
  request (`McpLimits.OverlapMisroutes`, `McpLimits.FailingRunMisroutes`). An answer reaches the right request
  exactly if the id table names it when the guest gives the answer (`McpRouting.FinalResultExactly`), and, over
  whole runs, exactly if the agent has dequeued no other request since (`McpRouting.OwnAnswerExactly`).
* Bytes that cannot be completed to UTF-8 silence a log connection for good: the lines logged can never change again
  exactly if the undecoded bytes are not well-formed sequences followed by at most the beginning of one
  (`LogListener.SilentExactly`).
* A queued command can run on the VM that replaced its own, unanswered, while its caller is told that the VM
  disconnected and submits it again (`VmLimits.CommandRunsOnReplacement`). It runs on its own VM exactly if nothing
  takes the VM's name away between registering and running (`VmIncarnations.RunsOnOwnExactly`).
* Destroying a VM deletes the shared image; from then on a VM can be created exactly if a start had already got past
  the check for it (`VmTheorems.CreationPossibleExactly`; `VmLimits.DestroyingEndsCreation` is a run that gets there).
* A reconnect that nobody interrupts destroys nothing before shutdown, because its health check fails only for a name
  without a VM (`VmTheorems.LiveProcessorRuns`). With other threads in between it destroys a VM exactly if one was
  installed under the name after the check and not taken away again (`VmReconnect.DestroysExactly`): a healthy VM,
  and the image with it. `VmCallLimits.ReconnectDestroysNewVm` is a run that ends there, with "not found" for the caller.
* The retry test also matches a failed command whose error output contains one of its two phrases, and a missing
  VM whose id contains one or begins with `disconnected` (`VmRetry.RetriedExactly`).
* The agent's final error reply is meant for "no response was sent", but follows the timeout reply too; the host
  can then read neither (`AgentConnection.RepliesExactly`, `CommandReplies.DoubleReplyIsLost`).
* The VM agent and its proxy client decode each chunk by itself: they take the message sent exactly if every chunk is
  valid UTF-8, and otherwise another message of the same kind, mode, timeout, body and status code
  (`VsockFraming.DispatchedExactly`, `VsockFraming.ClientReceives`); for a command line
  `SplitCharacters.SplitCharacterChangesCommand` says which.
* A CONNECT line whose first read is shorter than eight bytes is never answered (`ProxyConnection.TunnelExactly`).
* The VM's proxy drops whatever its one read of the reply to CONNECT returns, so a tunnel starts with the server's
  first byte exactly if that read ends where the reply ends (`Relay.HandshakeExactly`, and `Relay.HandshakeLoses` for a
  run in which it does not).
* A foreground command runs its command line alone, for 15 seconds at most: `args`, `working_dir` and
  `timeout_seconds` are ignored (`CommandReplies.OnlyTheLineMatters`).

## Model

| member | source | states |
|---|---|---|
| Utf8.DecodeEncode | host/src/host_functions/vm_functions/log_listener.rs:114 | Decoding inverts encoding for every string. |
| Utf8.EncodeDecode | host/src/host_functions/vm_functions/log_listener.rs:114 | A valid byte sequence is the encoding of what it decodes to, so no two byte sequences give one text. |
| Utf8.DecodeSplits | host/src/host_functions/vm_functions/log_listener.rs:113-115 | After a valid prefix the stream is valid exactly if the rest is, and decoding distributes over the cut. |
| Utf8.ExtendableExactly | host/src/host_functions/vm_functions/log_listener.rs:113-114 | Some continuation makes the bytes valid UTF-8 exactly if they are well-formed sequences followed by at most a proper front of one. |
| Strings.SliceBetween | host/src/host_functions/vm_functions/log_listener.rs:118-128 | Slicing between the byte offsets of two characters is in range, on boundaries, and yields the characters between them. |
| Lines.SplitContinues | host/src/host_functions/vm_functions/log_listener.rs:115-128 | Splitting a stream in two goes, with the open piece carried over, gives the pieces of splitting it once. |
| Lines.SplitJoin | host/src/host_functions/vm_functions/log_listener.rs:118-126 | Splitting recovers every list of break-free pieces, whichever breaks join them and whatever stays open. |
| LogListener.SplitOff | host/src/host_functions/vm_functions/log_listener.rs:117-128 | The offset-based scan returns exactly the non-blank closed pieces and the open one; every slice it takes is proved in range and on character boundaries. |
| LogListener.LogConnection.Receive | host/src/host_functions/vm_functions/log_listener.rs:112-130 | After each read, buffer, incomplete line and logged lines are the functions of all chunks received so far that `Streaming` names, valid UTF-8 or not. |
| LogListener.LogConnection.Close | host/src/host_functions/vm_functions/log_listener.rs:139-142 | The last unterminated line completes the output. |
| LogListener.HandleConnection | host/src/host_functions/vm_functions/log_listener.rs:101-145 | The lines logged are the non-blank pieces of the longest chunk-boundary prefix that is valid UTF-8. |
| LogListener.SettledIsLongest | host/src/host_functions/vm_functions/log_listener.rs:113-129 | No longer prefix of chunks is valid. |
| LogListener.ReceivedBytes | host/src/host_functions/vm_functions/log_listener.rs:109-131 | At every moment the bytes received are the encoding of the text taken so far plus the undecoded buffer. |
| LogListener.ValidStreamSettles | host/src/host_functions/vm_functions/log_listener.rs:109-142 | A valid stream is logged as decoded and split at once, for every division into reads. |
| LogListener.StreamedIsPrefix | host/src/host_functions/vm_functions/log_listener.rs:118-126 | What has been logged at any moment stays a prefix of what is logged later and in the end. |
| LogListener.SilentExactly | host/src/host_functions/vm_functions/log_listener.rs:113-129 | Nothing received later can change the lines logged, nor the text taken, exactly if the undecoded bytes are not extendable to UTF-8; otherwise some bytes get a further line logged. |
| LogListener.Silenced | host/src/host_functions/vm_functions/log_listener.rs:113-129 | In particular once a byte that no UTF-8 text contains has arrived; a special case of `SilentExactly`. |
| VmLogger.BoundedVsockLogger.Enqueue | vm-agent/src/logger/bounded_logger.rs:51-54 | A record passing the level filter is queued exactly if fewer than 1000 messages are, else dropped. |
| VmLogger.BoundedVsockLogger.Take | vm-agent/src/logger/bounded_logger.rs:39-40 | The writer takes the oldest message. |
| VmLogger.BoundedVsockLogger.WriteAll | vm-agent/src/logger/bounded_logger.rs:41-43 | A write puts some front of the message on the wire, its outcome is ignored, and the message is done. |
| VmLogger.AlwaysConserved | vm-agent/src/logger/bounded_logger.rs:39-54 | In every reachable state accepted = written + in hand + queued, in order, at most 1000 queued, and a record is missing only if 1000 were queued when it came. |
| VmLogger.WireRun | vm-agent/src/logger/bounded_logger.rs:39-45 | While writes succeed the wire holds exactly the messages written, in order. |
| LogPipeline.EndToEnd | host/src/host_functions/vm_functions/log_listener.rs:109-142 | For every logger run and every division of its bytes, the host's lines are a prefix of the records written, each intact, all of them once all bytes arrived; the records written are the first of those accepted. |
| McpFrame.FrameRoundTrip | host/src/mcp/mcp_handler.rs:138 | The frame of a colon-free id and any content is parsed back to them by `splitn(3, ':')`. |
| McpFrame.FrameOnly | host/src/agents/agent.rs:473-475 | Whatever is recognised as a frame is the frame of a colon-free id. |
| McpHost.Host.Register | host/src/mcp/mcp_handler.rs:102-128 | An unknown tool changes nothing; otherwise the request's response channel is open. |
| McpHost.Host.SendRequest | host/src/mcp/mcp_handler.rs:136-156 | The framed request is appended to the agent's queue, or the handler fails if the agent is gone. |
| McpHost.Host.WaitForResponse | host/src/mcp/mcp_handler.rs:170-188 | Returns the text that arrived, and nothing only when time is up without one. |
| McpHost.Host.CleanUp | host/src/mcp/mcp_handler.rs:191-213 | Removes the request's channel and every id-table entry that names it. |
| McpHost.Host.TakeMessage | host/src/agents/agent.rs:460-490 | Dequeues one message and, for a frame, sets the local and the global request id. |
| McpHost.Host.CallGuest | host/src/agents/agent.rs:136-173 | A guest's FinalResult answers the request that the id table names for the agent; other calls start a worker. |
| McpHost.Host.HandleCallbackResult | host/src/agents/agent.rs:562-597 | A failed call with an active request answers it and clears the id in both places; otherwise nothing changes. |
| McpHost.Host.ProcessMessage | host/src/agents/agent.rs:460-536 | One iteration of the event loop is these steps in this order. |
| McpHost.Host.WorkerDone | host/src/agents/agent.rs:106-126 | A worker's response is appended to its own agent's queue unless the agent is gone. |
| McpHost.IterationKeeps | host/src/agents/agent.rs:460-536 | An iteration keeps the protocol's invariant and ends with the agent's table entry, if any, equal to its local id. |
| McpSafety.StepKeeps | host/src/agents/agent.rs:447-597 | Every step of every handler, agent and worker keeps the protocol's invariant. |
| McpSafety.RoutingRule | host/src/agents/agent.rs:143-170 | In every interleaving a request is answered at most once, only by its own agent, and only while it is the last one that agent dequeued. |
| McpRouting.FinalResultExactly | host/src/agents/agent.rs:143-170 | Whatever happens until it is sent, a `FinalResult` is sent exactly if the id table names a request with an open channel, then to that one, and to the request it was worked out for exactly if the table named that when the guest called. |
| McpRouting.OwnAnswerExactly | host/src/agents/agent.rs:460-597 | For every run: an answer given after dequeuing a request goes to that request exactly if the agent dequeued no other one in between. |
| McpSafety.IdTableAgrees | host/src/agents/agent.rs:476-490 | Between iterations an agent's entry in the global id table equals its local request id. |
| McpSafety.ReturnedIdNeverReappears | host/src/mcp/mcp_handler.rs:190-213 | Once a handler returned Ok its id is in neither table for ever, and what it returned is the one answer sent to it. |
| McpSafety.WaiterIsNeverDropped | host/src/mcp/mcp_handler.rs:223-250 | A waiting handler's channel is open or has delivered: the "channel was dropped" arm is never taken. |
| McpSerial.AnswersAreOwn | host/src/agents/agent.rs:143-170 | With serial use of each agent and guests whose failing activations made no host call, every answer derives from its own request's `Run`. |
| McpLimits.OverlapMisroutes | host/src/agents/agent.rs:476-490 | A run with two overlapping, well-behaved calls whose first answer goes to the second request. |
| McpLimits.FailingRunMisroutes | host/src/agents/agent.rs:574-595 | A serial run in which a failing `Run` leaves a worker behind whose response answers the next request. |
| McpLimits.FramedResponseForgesId | host/src/agents/agent.rs:471-490 | A run in which a worker's response that looks like a frame puts an id into the table that was never submitted. |
| Guests.GuestDiscipline | guest/src/bin/vm_builder.rs:34-121 | Every activation of either guest makes at most one host call, and a failing one none that took effect. |
| Guests.RunStartsCallbackAnswers | guest/src/bin/top_hn_links.rs:27-62 | Workers are started by `Run` only and answers given by callbacks only. |
| Guests.GuestAnswersAreOwn | guest/src/bin/vm_builder.rs:169-206 | With these guests serial use alone makes every answer derive from its own request. |
| VmManager.Manager.AllocateCid | host/src/host_functions/vm_functions/firecracker.rs:22-27 | Hands out the next CID and moves on. |
| VmManager.Manager.StartVm | host/src/host_functions/vm_functions/firecracker.rs:60-131 | Starting succeeds only if the image is there. |
| VmManager.Manager.InsertInstance | host/src/host_functions/vm_functions/firecracker.rs:45-55 | The new instance takes the name over; the old one's senders are dropped and its processor keeps its queue. |
| VmManager.Manager.DestroyVm | host/src/host_functions/vm_functions/firecracker.rs:496-512 | Takes the instance out and deletes the image it was started from. |
| VmManager.Manager.Shutdown | host/src/host_functions/vm_functions/mod.rs:189-217 | Sets the flag, then drops every instance and its senders. |
| VmManager.Manager.RegisterSender | host/src/host_functions/vm_functions/firecracker.rs:249-262 | Puts a sender for the command's id into the table of the incarnation the name stands for, or reports a missing VM. |
| VmManager.Manager.SubmitCommand | host/src/host_functions/vm_functions/firecracker.rs:273-275 | Queues the command on the incarnation registered with; fails exactly if its processor is gone; a spawning caller returns at once. |
| VmManager.Manager.CheckHealth | host/src/host_functions/vm_functions/firecracker.rs:518-531 | True exactly if the name has a VM whose processor lives, and then a command nobody waits for is queued. |
| VmManager.Manager.Poll | host/src/host_functions/vm_functions/firecracker.rs:280-315 | A delivered result wins, then a disconnected channel, then the timeout; the execute caller unregisters except when disconnected. |
| VmManager.Manager.NextCommand | host/src/host_functions/vm_functions/firecracker.rs:142-162 | Looks the VM up by name when the command is taken; ends at shutdown, skips the command if the name has no VM. |
| VmManager.Manager.SendResult | host/src/host_functions/vm_functions/firecracker.rs:232-234 | Delivers the result to the sender found at that time, if its caller still listens. |
| VmManager.Manager.ReconnectVmChannels | host/src/host_functions/vm_functions/mod.rs:274-283 | Health check, else destroy and create; it reports success exactly if a healthy VM stands under the name afterwards. |
| VmManager.ReconnectHealsExactly | host/src/host_functions/vm_functions/mod.rs:274-283 | A healthy VM stands there afterwards exactly if one did before, or one can start and the image is there and was not deleted by destroying a dead instance. |
| VmSafety.StepKeeps | host/src/host_functions/vm_functions/firecracker.rs:135-315 | Every step of creators, callers and processors keeps the manager's invariant. |
| VmTheorems.OwnResultAtMostOnce | host/src/host_functions/vm_functions/firecracker.rs:247-315 | In every interleaving an execute caller gets at most one result, of its own command, run on the incarnation it registered with. |
| VmTheorems.SubmissionOrder | host/src/host_functions/vm_functions/firecracker.rs:142-235 | One incarnation's commands are processed in the order submitted, each once. |
| VmTheorems.DisconnectMeansGone | host/src/host_functions/vm_functions/firecracker.rs:311-313 | "VM disconnected" is seen only if the incarnation no longer stands behind its name, a closed command channel only after shutdown began. |
| VmTheorems.LiveProcessorRuns | host/src/host_functions/vm_functions/firecracker.rs:518-531 | Before shutdown the processor behind a name is alive, so health fails only for a missing VM. |
| VmTheorems.TableKeys | host/src/host_functions/vm_functions/firecracker.rs:253-307 | Before shutdown a result table holds only active execute calls, past spawns and the list and stop ids. |
| VmTheorems.CidsDistinct | host/src/host_functions/vm_functions/firecracker.rs:22-48 | CIDs of all VMs and creations under way are pairwise distinct, from 100 up and below the next one. |
| VmTheorems.CidCounts | host/src/host_functions/vm_functions/firecracker.rs:22-27 | The counter moves by the number of creations begun, whether or not they succeed, and by nothing else. |
| VmTheorems.CidFitsExactly | host/src/host_functions/vm_functions/mod.rs:73 | In every run the counter fits 32 bits exactly if at most 2^32 - 101 creations have begun. |
| VmTheorems.HandedOutOnce | host/src/host_functions/vm_functions/firecracker.rs:22-27 | A CID handed out, even to a creation that fails, is never handed out again. |
| VmTheorems.ForeignRunIsUnanswered | host/src/host_functions/vm_functions/firecracker.rs:147-162 | A command that runs on a later incarnation has nobody to answer to. |
| VmTheorems.NoCreationWithoutImage | host/src/host_functions/vm_functions/firecracker.rs:505-507 | Once the image is gone and no start has got past the check for it, no VM is ever added again. |
| VmTheorems.CreationPossibleExactly | host/src/host_functions/vm_functions/firecracker.rs:60-131 | Some continuation adds a VM exactly if the image is there or a start has got past the check. |
| VmIncarnations.WhereTaken | host/src/host_functions/vm_functions/firecracker.rs:142-162 | In every reachable state a command taken runs on its own incarnation exactly if that is still behind its name, on a later one exactly if the name stands for another, on none exactly if the name has no VM, and not at all exactly after shutdown. |
| VmIncarnations.RunsOnOwnExactly | host/src/host_functions/vm_functions/firecracker.rs:142-275 | For every run: a caller's command runs on the incarnation registered with exactly if no destroy, replacement or clearing took its name away between registering and taking, and no shutdown began. |
| VmIncarnations.InstalledExactly | host/src/host_functions/vm_functions/mod.rs:274-283 | Whatever runs in between: before shutdown a VM that was inserted is the healthy one behind its name exactly if nothing has taken the name away since. |
| VmLimits.DestroyingEndsCreation | host/src/host_functions/vm_functions/firecracker.rs:496-512 | A run that creates and destroys one VM, before any shutdown, after which none can be created. |
| VmLimits.CommandRunsOnReplacement | host/src/host_functions/vm_functions/firecracker.rs:147-162 | A run in which the replacement runs a queued command while its caller can only see "VM disconnected". |
| VmRetry.RetriedExactly | host/src/host_functions/vm_functions/mod.rs:257-262 | Exactly which outcomes pass the retry test on the error's text. |
| VmRetry.RetriedOnlyWhenGone | host/src/host_functions/vm_functions/mod.rs:257-262 | Look-alike texts aside, an attempt is retried only if its incarnation is gone or the manager is shutting down. |
| VmRetry.RetryLoop | host/src/host_functions/vm_functions/mod.rs:243-271 | At most `max_retries` + 1 attempts; the last one's outcome is returned, all earlier ones passed the test; it stops early only on one that does not; the waits are 1000 ms times powers of two and add up to 1000 (2^k - 1). |
| VmRetry.ExecuteWithRetry | host/src/host_functions/vm_functions/mod.rs:234-272 | The same for the source's test and any limit. |
| VmCalls.IsRun | host/src/host_functions/vm_functions/mod.rs:234-283 | A retrying call, with any steps of others between its own, is a run of the manager, so all theorems about runs hold of it. |
| VmCalls.AttemptsExactly | host/src/host_functions/vm_functions/mod.rs:243-271 | In every interleaving: at most `limit` + 1 attempts, each by a caller of its own, all but the last one with an outcome that is retried, doubling waits in between, and the call ends with its last attempt's outcome. |
| VmCalls.ResultIsLastAttempts | host/src/host_functions/vm_functions/firecracker.rs:237-315 | What a call returns is the one result of its last attempt's own command, run by the incarnation that attempt registered with, never an earlier attempt's. |
| VmCalls.RetriedAttemptsLost | host/src/host_functions/vm_functions/mod.rs:257-262 | Look-alike texts aside, an attempt of a call that was retried had lost its incarnation, or the manager was shutting down. |
| VmReconnect.ImageExactly | host/src/host_functions/vm_functions/firecracker.rs:496-512 | Through any interleaving the image is there exactly if it was and no destroy deleted it. |
| VmReconnect.LaunchExactly | host/src/host_functions/vm_functions/mod.rs:274-283 | With anything in between, a reconnect's start can succeed exactly if the image was there when the reconnect began and nobody, itself included, has deleted it since. |
| VmReconnect.ReconnectExactly | host/src/host_functions/vm_functions/mod.rs:274-283 | With anything in between, a reconnect reports success exactly if it found a healthy VM or started one. |
| VmReconnect.HealedIsHealthy | host/src/host_functions/vm_functions/mod.rs:274-283 | In every run a healthy VM stands under the name at the moment a reconnect reports success. |
| VmReconnect.DestroysExactly | host/src/host_functions/vm_functions/mod.rs:278-282 | Before shutdown, a reconnect whose health check failed finds a VM to destroy exactly if others installed one under the name after the check and nothing took it away again. |
| VmCallLimits.ReconnectDestroysNewVm | host/src/host_functions/vm_functions/mod.rs:274-283 | A run in which a reconnect destroys the healthy VM that was created between its check and its destroy, cannot create another, and the call ends with "not found". |
| VmRetry.DelaysFitExactly | host/src/host_functions/vm_functions/mod.rs:264 | Every delay fits 64 bits exactly if at most 55 retries are allowed; the source allows 30. |
| JsonPrefix.ValueExtends | vm-agent/src/main.rs:79 | A value that has been read is read the same way when more text follows, except a number that goes on. |
| JsonPrefix.PrefixFree | vm-agent/src/main.rs:75-79 | No proper prefix of an object, array, string or keyword text is read as a document. |
| JsonPrint.RoundTrip | host/src/host_functions/vm_functions/firecracker.rs:189-191 | What the compact writer prints within the nesting limit is read back unchanged, with every escape. |
| VsockMessages.RequestRoundTrip | vm-agent/src/main.rs:15-20 | Every request, whatever the order of its headers, prints as one object text that reads back as that request. |
| VsockMessages.ResponseRoundTrip | vm-agent/src/http_proxy/mod.rs:22-29 | Every proxy response prints as one object text that reads back as that response. |
| Lossy.Cells | vm-agent/src/main.rs:65-66 | Decoded chunk by chunk, each character of a text is shown as it is or as at least two replacement characters; all of them as they are exactly if every chunk is valid UTF-8. |
| Lossy.LossyExactly | vm-agent/src/main.rs:65-66 | Chunk-wise lossy decoding gives the text sent exactly if every chunk is valid UTF-8. |
| BlurJson.ValueBlurs | vm-agent/src/main.rs:75-79 | A JSON text shown that way is read whenever the text itself is, up to the same place and as the same value but for the characters of its strings. |
| BlurMessages.RequestBlurs | vm-agent/src/main.rs:65-79 | Every request sent in any chunks is read as a request of the same kind with the same mode, timeout and body, and as the one sent exactly if every chunk is valid. |
| BlurMessages.ResponseBlurs | vm-agent/src/http_proxy/mod.rs:54-72 | The same for every proxy response, which keeps its status code and body. |
| AgentConnection.HandleConnection | vm-agent/src/main.rs:33-204 | The loop's replies are those of the recursive `Session`, and none is sent while it still reads. |
| AgentConnection.RepliesExactly | vm-agent/src/main.rs:185-204 | The replies by the first deciding event: one answer; on a close one error exactly if there was data; on timeout or read error one error, and a second exactly if there was data. |
| VsockFraming.DispatchedExactly | vm-agent/src/main.rs:55-147 | For every request and every division into chunks the agent answers once, at the last chunk and not before, to a request of the same kind, mode, timeout and body; it answers the request sent exactly if every chunk is valid UTF-8. |
| SplitCharacters.SplitCharacterChangesCommand | vm-agent/src/main.rs:65-66 | For every command line, every non-ASCII character in it and a cut any number of bytes into it, the agent takes the command with replacement characters, one more than bytes behind the cut, in its place. |
| CommandReplies.ResultExactly | host/src/host_functions/vm_functions/firecracker.rs:196-211 | The host reads exactly the exit code and outputs the agent wrote. |
| CommandReplies.DoubleReplyIsLost | vm-agent/src/main.rs:185-204 | Two replies on one connection are read as neither: exit code -1 and no text. |
| CommandReplies.CommandRoundTrip | host/src/host_functions/vm_functions/firecracker.rs:187-211 | A foreground command in any chunks, end to end: the line of one foreground command runs once, after the last chunk, and the host gets that run's result; it is the command sent exactly if every chunk is valid UTF-8. |
| CommandReplies.OnlyTheLineMatters | vm-agent/src/main.rs:86-89 | Two foreground commands of which one command line arrives give the host the same result, whatever their other fields and their chunks. |
| ProxyConnection.ReadLine | host/src/host_functions/vm_functions/http_proxy.rs:134-136 | The line is read up to its newline or the end of the stream; what the reader had read beyond it is lost. |
| ProxyConnection.HandleConnect | host/src/host_functions/vm_functions/http_proxy.rs:132-161 | Tunnel, 400, 502 or closing without a word, as `ConnectOutcome` gives it. |
| ProxyConnection.HandleProxyOrConnect | host/src/host_functions/vm_functions/http_proxy.rs:120-188 | The byte-level loop is the function `HostOutcome`, all branches of the CONNECT line included. |
| ProxyConnection.TunnelExactly | host/src/host_functions/vm_functions/http_proxy.rs:124-160 | Exactly when a tunnel opens and to which target, when 400 and when 502 is sent; a first read that holds only a front of "CONNECT " is never answered. |
| ProxyConnection.ConnectReaches | vm-agent/src/http_proxy/mod.rs:100-101 | The VM's own CONNECT message, however it is cut behind its first eight bytes, opens a tunnel to exactly its target, or gives 502 if that cannot be reached, and only bytes of its last line end are lost. |
| ProxyConnection.MakeRequest | vm-agent/src/http_proxy/mod.rs:54-79 | The client's loop is the recursive `ReadResponses`. |
| VsockFraming.HostServes | host/src/host_functions/vm_functions/http_proxy.rs:162-188 | The host executes exactly the request sent, at its last chunk, wherever the chunks are cut, even inside characters. |
| VsockFraming.ClientReceives | vm-agent/src/http_proxy/mod.rs:54-72 | For every response and every division into chunks the client returns one at the last chunk and not before, with the status code and body sent, and the response sent exactly if every chunk is valid UTF-8. |
| VsockFraming.ProxyRoundTrip | vm-agent/src/http_proxy/mod.rs:41-85 | Both directions for every chunking: the host executes the client's request once, and the client returns the response produced exactly if every chunk of it is valid UTF-8, as with an ASCII text. |
| Relay.Tasks.ReadChunk | vm-agent/src/http_proxy/mod.rs:131-144 | A read is held for sending; end of input or an error ends the reader. |
| Relay.Tasks.SendChunk | vm-agent/src/http_proxy/mod.rs:137-139 | Waits exactly while two chunks are queued, fails exactly if the writer is gone. |
| Relay.Tasks.ReceiveChunk | vm-agent/src/http_proxy/mod.rs:148-149 | Takes the oldest chunk; ends exactly if the reader is gone and nothing is queued. |
| Relay.Tasks.WriteChunk | vm-agent/src/http_proxy/mod.rs:149-151 | Writes the chunk; a failure drops the channel. |
| Relay.AlwaysConserved | vm-agent/src/http_proxy/mod.rs:128-176 | In every interleaving read = written + in the writer's hand + queued + in the reader's hand, at most two queued chunks of 1 to 4096 bytes, and written is always a front of read. |
| Relay.StepBound | vm-agent/src/http_proxy/mod.rs:131-176 | A run takes at most four steps for each chunk read, and two more. |
| Relay.NoDeadlock | vm-agent/src/http_proxy/mod.rs:131-176 | A direction that is not finished can always take a step. |
| Relay.AllWritten | vm-agent/src/http_proxy/mod.rs:131-152 | A finished direction without a failed write has written exactly what it read. |
| Relay.DirectionsProject | vm-agent/src/http_proxy/mod.rs:128-184 | Every run of the tunnel is a run of each direction by itself, whenever the `select!` is left. |
| Relay.TunnelDelivers | vm-agent/src/http_proxy/mod.rs:128-184 | Both together: after any run of the tunnel a finished direction with working writes has passed on every byte. |
| Relay.DeliveryNeedsDetach | vm-agent/src/http_proxy/mod.rs:179-184 | Every run that comes to rest with working writes has passed on all bytes in both directions, exactly because leaving the `select!` detaches the other tasks instead of aborting them. |
| Relay.HandshakeExactly | vm-agent/src/http_proxy/mod.rs:104-116 | The client gets exactly the server's bytes exactly if the one read of the reply to CONNECT ends where the reply ends. |
| Relay.HandshakeLoses | vm-agent/src/http_proxy/mod.rs:104-116 | For every reply shorter than the read's 1024 bytes, a run whose read takes the server's only byte along, which the client never gets. |
| HostRelay.OneShutdown | host/src/host_functions/vm_functions/http_proxy.rs:268-304 | At most one write side is shut down, that of the thread that swapped the flag first, and exactly that one once both are gone. |
| HostRelay.EndOfFileExactly | host/src/host_functions/vm_functions/http_proxy.rs:268-304 | In every run a direction's peer reads end of file exactly if the direction swapped first and its thread is gone, or both threads are gone and the handler has returned. |
| HostRelay.PassedOnExactly | host/src/host_functions/vm_functions/http_proxy.rs:268-304 | So a direction that has ended passes that on exactly if it swapped first or the other one has ended too. |
| TitleLinks.MatchExactly | guest/src/bin/top_hn_links.rs:15 | The matcher finds exactly the pattern's occurrence that starts at a place. |
| TitleLinks.UniqueOccurrence | guest/src/bin/top_hn_links.rs:15 | An occurrence has one url and one title. |
| TitleLinks.NoOverlap | guest/src/bin/top_hn_links.rs:15-18 | No occurrence begins inside another. |
| TitleLinks.Captures | guest/src/bin/top_hn_links.rs:18-22 | A scan that goes on behind each match finds what a scan of every place finds, for any pattern without overlaps. |
| TitleLinks.FindTitleLinks | guest/src/bin/top_hn_links.rs:14-25 | Returns every story link of the page. |
| TitleLinks.StoriesExactly | guest/src/bin/top_hn_links.rs:14-25 | The links are in page order, one for each place where an occurrence begins, and for no other place. |
| TitleLinks.ListStories | guest/src/bin/top_hn_links.rs:30-34 | The message lists all of them, numbered from 1. |

## Left out

* `handle_vm_connection` (host/src/host_functions/vm_functions/mod.rs:285-317): it looks up the VM with the empty id, and no VM is assumed to have it.
* Listing and stopping spawned processes in the VM agent and its process table: the connection handler never dispatches to them.
* Replies of the VM agent to `Spawn` commands and to proxy requests: their content only adds shapes; that each is sent once is covered by `AgentConnection`.
* The second registration of `SpawnCommand`, which repeats the first, and the channel-disconnected arm of the event loop, which the agent's own sender keeps from happening.
* Tool metadata, listing tools, agent loading, the HTTP client, the sandbox, processes, files, sleeping, logging of progress: inputs of the model or without effect on its state.
* Liveness under a real scheduler and lock poisoning; progress is stated as step bounds and absence of deadlock.
* Guest memory, timeouts of the sandbox and the wording of guest errors: the event loop's error text is a constant.
* JSON numbers that overflow a double, and messages written as JSON arrays, which `serde` would also accept for these types; every message sent is an object.
* The text of `process_vm_list_result` is an uninterpreted function of its parameters, and so is everything a VM command or an HTTP request returns.
* VmManager.Manager.ReconnectVmChannels: states a reconnect with nothing in between; with others' steps between its health check, destroy and creation it is `VmReconnect.ReconnectExactly`, `VmReconnect.LaunchExactly` and `VmReconnect.DestroysExactly`.
* VmManager.ReconnectHealsExactly: the same, and its case of a dead instance can be met only after shutdown; `VmReconnect` and `VmIncarnations.InstalledExactly` hold with anything in between.
* VmRetry.ExecuteWithRetry: the attempts are any function from attempt to outcome there; `VmCalls` makes them the callers of a run.
* SplitCharacters.SplitCharacterChangesCommand: two chunks and the command line only, to say which command is run instead; that it is another one for every request and division is `VsockFraming.DispatchedExactly`.
* HostRelay.OneShutdown: calls of `shutdown` only; what the peers see is `HostRelay.EndOfFileExactly`. The bytes are copied by the standard library.
* VmTheorems.CidCounts: the model's counter goes on where the source's would overflow; `VmTheorems.CidFitsExactly` says when.
