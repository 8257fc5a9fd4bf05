/**
  The way back of a command: what the VM agent writes, and how the host's command processor takes exit
  code and outputs out of whatever it read before the connection closed.
 */
module CommandReplies {
  import opened Prelude
  import opened Utf8
  import opened Json
  import opened JsonPrint
  import opened VsockMessages
  import Agent = AgentConnection
  import VsockFraming

  // --- What the agent writes ---

  function ResponseMembers(r: CommandResponse): seq<Member> {
    [Member("exit_code", IntegerJson(r.exitCode)), Member("stdout", Str(r.stdout)), Member("stderr", Str(r.stderr))]
  }

  /** An executed command is answered with the tagged enum, an error with the bare struct. */
  function ResponseJson(r: CommandResponse, tagged: bool): Json {
    Obj((if tagged then [Member("type", Str("Command"))] else []) + ResponseMembers(r))
  }

  /** A process as `std::process::Command` starts it, and when it is killed. */
  datatype Invocation = Invocation(program: string, args: seq<string>, workingDir: Option<string>, timeoutSeconds: nat)

  /** What `execute_command` starts for a foreground command. */
  function Shell(c: VmCommand): Invocation { Invocation("sh", ["-c", c.command], None, 15) }

  /** `execute` gives the outcome of a process, `readError` the error's text. */
  function ReplyJson(reply: Agent.Reply, execute: Invocation -> CommandResponse, readError: string): Json
    requires reply.Answer? ==> reply.request.Command? && reply.request.command.mode.Foreground?
  {
    match reply
    case Answer(request) => ResponseJson(execute(Shell(request.command)), true)
    case ReadTimeout => ResponseJson(CommandResponse(-1, "", "Read timeout waiting for complete command"), false)
    case ReadError => ResponseJson(CommandResponse(-1, "", "Read error: " + readError), false)
    case InvalidJson(text) => ResponseJson(CommandResponse(-1, "", "Invalid JSON request: " + text), false)
  }

  // --- What the host takes out of it ---

  /** `json[key]` of a `serde_json::Value`: of a key given twice the last value counts; no value is null. */
  function Index(ms: seq<Member>, key: string): Json {
    if ms == [] then Null
    else if ms[|ms| - 1].key == key then ms[|ms| - 1].value
    else Index(ms[..|ms| - 1], key)
  }

  /** `as i32` */
  function WrapI32(n: int): int { (n + 0x8000_0000) % 0x1_0000_0000 - 0x8000_0000 }

  function ReadI64(j: Json): Option<int> { ReadInteger(j, -0x8000_0000_0000_0000, 0x8000_0000_0000_0000) }

  /** What the processor starts with and keeps when nothing can be read. */
  const UNREAD: CommandResponse := CommandResponse(-1, "", "")

  function FromJson(j: Json): CommandResponse {
    if !j.Obj? then UNREAD
    else
      var code := ReadI64(Index(j.members, "exit_code"));
      var out, err := Index(j.members, "stdout"), Index(j.members, "stderr");
      CommandResponse(WrapI32(if code.Some? then code.value else -1),
                      if out.Str? then out.text else "", if err.Str? then err.text else "")
  }

  /** From all bytes read until the agent closed the connection. */
  function HostResult(b: seq<byte>): CommandResponse {
    var text := Decode(b);
    if text.None? then UNREAD
    else
      var j := Parse(text.value);
      if j.None? then UNREAD else FromJson(j.value)
  }

  // --- One reply is read exactly, two replies are not read at all ---

  predicate InI32(n: int) { -0x8000_0000 <= n < 0x8000_0000 }

  lemma {:induction false} IndexAt(ms: seq<Member>, i: nat)
    requires DistinctKeys(ms) && i < |ms|
    ensures Index(ms, ms[i].key) == ms[i].value
  {
    if i < |ms| - 1 { IndexAt(ms[..|ms| - 1], i); }
  }

  lemma FromResponseJson(r: CommandResponse, tagged: bool)
    requires InI32(r.exitCode)
    ensures FromJson(ResponseJson(r, tagged)) == r
  {
    var ms := ResponseJson(r, tagged).members;
    var k := |ms| - 3;
    assert ms[k] == Member("exit_code", IntegerJson(r.exitCode));
    assert ms[k + 1] == Member("stdout", Str(r.stdout)) && ms[k + 2] == Member("stderr", Str(r.stderr));
    assert DistinctKeys(ms);
    IndexAt(ms, k);
    IndexAt(ms, k + 1);
    IndexAt(ms, k + 2);
    IntegerBack(r.exitCode, -0x8000_0000_0000_0000, 0x8000_0000_0000_0000);
  }

  lemma ResponseReadable(r: CommandResponse, tagged: bool)
    ensures Readable(ResponseJson(r, tagged), NESTING)
  {
    DecimalIsNumber(r.exitCode);
  }

  /** The host's result is exactly the agent's response. */
  lemma ResultExactly(r: CommandResponse, tagged: bool)
    requires InI32(r.exitCode)
    ensures HostResult(Encode(Print(ResponseJson(r, tagged)))) == r
  {
    ResponseReadable(r, tagged);
    RoundTrip(ResponseJson(r, tagged));
    DecodeEncode(Print(ResponseJson(r, tagged)));
    FromResponseJson(r, tagged);
  }

  /** Two object texts in a row are no document. */
  lemma {:induction false} TwoTexts(a: Json, b: Json)
    requires Readable(a, NESTING) && !a.Num? && Readable(b, NESTING)
    ensures Parse(Print(a) + Print(b)) == None
  {
    ValueRoundTrip(a, Print(b), NESTING);
    PrintStart(b, NESTING);
  }

  /** All that the agent wrote on one connection. */
  function Written(replies: seq<Agent.Reply>, execute: Invocation -> CommandResponse, readError: string): string
    requires forall i | 0 <= i < |replies| && replies[i].Answer? ::
      replies[i].request.Command? && replies[i].request.command.mode.Foreground?
  {
    if replies == [] then ""
    else Print(ReplyJson(replies[0], execute, readError)) + Written(replies[1..], execute, readError)
  }

  /**
    After a timeout or read error with data left over, the agent's two replies run together, and the host
    can read neither: it reports exit code -1 without any text.
   */
  lemma {:induction false} DoubleReplyIsLost(first: Agent.Reply, text: string, execute: Invocation -> CommandResponse,
                                             readError: string)
    requires first.ReadTimeout? || first.ReadError?
    ensures HostResult(Encode(Written([first, Agent.InvalidJson(text)], execute, readError))) == UNREAD
  {
    var second := Agent.InvalidJson(text);
    var a, b := ReplyJson(first, execute, readError), ReplyJson(second, execute, readError);
    assert [first, second][1..] == [second] && [second][1..] == [];
    assert Written([second], execute, readError) == Print(b) + "" == Print(b);
    ReplyReadable(first, execute, readError);
    ReplyReadable(second, execute, readError);
    TwoTexts(a, b);
    DecodeEncode(Print(a) + Print(b));
  }

  lemma ReplyReadable(reply: Agent.Reply, execute: Invocation -> CommandResponse, readError: string)
    requires !reply.Answer?
    ensures Readable(ReplyJson(reply, execute, readError), NESTING) && ReplyJson(reply, execute, readError).Obj?
  {
    match reply {
      case ReadTimeout => ResponseReadable(CommandResponse(-1, "", "Read timeout waiting for complete command"), false);
      case ReadError => ResponseReadable(CommandResponse(-1, "", "Read error: " + readError), false);
      case InvalidJson(text) => ResponseReadable(CommandResponse(-1, "", "Invalid JSON request: " + text), false);
    }
  }

  /** The message of a foreground command arrives in these chunks. */
  predicate Arrives(c: VmCommand, events: seq<Agent.Event>, last: seq<byte>) {
    && c.mode.Foreground? && VsockFraming.Sendable(Command(c), []) && VsockFraming.Flowing(events)
    && VsockFraming.Carries(PrintRequest(Command(c), []), Agent.Chunks(events), last)
  }

  /** Exit codes of processes are 32-bit numbers. */
  ghost predicate ExitsFit(execute: Invocation -> CommandResponse) { forall i :: InI32(execute(i).exitCode) }

  /**
    A foreground command end to end, wherever its message is cut: the agent runs the line of one foreground
    command once, after the last chunk, and the host gets exactly the exit code and outputs of that run; the
    command is the one sent exactly if every chunk is valid UTF-8.
   */
  lemma {:induction false} CommandRoundTrip(c: VmCommand, events: seq<Agent.Event>, last: seq<byte>,
                                            after: seq<Agent.Event>, execute: Invocation -> CommandResponse)
    returns (taken: VmCommand)
    requires Arrives(c, events, last) && ExitsFit(execute)
    ensures Agent.Session("", events) == []
    ensures taken.mode.Foreground?
    ensures var replies := Agent.Session("", events + [Agent.Chunk(last)] + after);
      && replies == [Agent.Answer(Command(taken))]
      && HostResult(Encode(Written(replies, execute, ""))) == execute(Shell(taken))
    ensures taken == c <==> Valid(last) && forall b | b in Agent.Chunks(events) :: Valid(b)
  {
    var request := VsockFraming.DispatchedExactly(Command(c), [], events, last, after);
    taken := request.command;
    assert events[..|events|] == events;
    AnswerRead(taken, execute);
  }

  lemma AnswerRead(c: VmCommand, execute: Invocation -> CommandResponse)
    requires c.mode.Foreground? && InI32(execute(Shell(c)).exitCode)
    ensures HostResult(Encode(Written([Agent.Answer(Command(c))], execute, ""))) == execute(Shell(c))
  {
    var reply := Agent.Answer(Command(c));
    var r := execute(Shell(c));
    assert [reply][1..] == [];
    assert Written([reply], execute, "") == Print(ResponseJson(r, true)) + "" == Print(ResponseJson(r, true));
    ResultExactly(r, true);
  }

  /**
    Whatever their ids, `args`, `working_dir` and `timeout_seconds` and wherever their messages are cut:
    commands of which one line arrives have one result.
   */
  lemma {:induction false} OnlyTheLineMatters(c: VmCommand, events: seq<Agent.Event>, last: seq<byte>, d: VmCommand,
                                              events': seq<Agent.Event>, last': seq<byte>,
                                              execute: Invocation -> CommandResponse)
    returns (x: VmCommand, y: VmCommand)
    requires Arrives(c, events, last) && Arrives(d, events', last') && ExitsFit(execute)
    ensures Agent.Session("", events + [Agent.Chunk(last)]) == [Agent.Answer(Command(x))] && x.mode.Foreground?
    ensures Agent.Session("", events' + [Agent.Chunk(last')]) == [Agent.Answer(Command(y))] && y.mode.Foreground?
    ensures x.command == y.command ==>
      HostResult(Encode(Written([Agent.Answer(Command(x))], execute, ""))) ==
      HostResult(Encode(Written([Agent.Answer(Command(y))], execute, "")))
    ensures (Valid(last) && forall b | b in Agent.Chunks(events) :: Valid(b)) ==> x == c
    ensures (Valid(last') && forall b | b in Agent.Chunks(events') :: Valid(b)) ==> y == d
  {
    x := CommandRoundTrip(c, events, last, [], execute);
    y := CommandRoundTrip(d, events', last', [], execute);
    assert events + [Agent.Chunk(last)] + [] == events + [Agent.Chunk(last)];
    assert events' + [Agent.Chunk(last')] + [] == events' + [Agent.Chunk(last')];
  }
}
