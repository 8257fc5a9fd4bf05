/**
  The two ends of the HTTP proxy's vsock connection: the host reads bytes and parses them after each
  chunk, the VM client decodes each chunk by itself and parses the text so far.
 */
module ProxyConnection {
  import opened Prelude
  import opened Strings
  import opened Utf8
  import opened Lossy
  import opened VsockMessages

  datatype Event = Chunk(bytes: seq<byte>) | Closed | NotReady | Failed

  // --- The host: handle_http_proxy_or_connect ---

  /**
    What the host does: relays to the target of a CONNECT, where `lost` is what its line reader had read
    beyond the line; refuses a line without a target; reports a target it cannot reach; executes one
    request; closes without a word.
   */
  datatype Outcome =
    | Tunnel(target: string, lost: seq<byte>) | BadRequest | BadGateway
    | Served(request: HttpProxyRequest) | Silent | StillReading

  const CONNECT: seq<byte> := [67, 79, 78, 78, 69, 67, 84, 32]
  const NEWLINE: byte := 10

  /** `from_slice::<VsockRequest>`: text that is not UTF-8 is refused. */
  function FromSlice(b: seq<byte>): Option<VsockRequest> {
    var text :- Decode(b);
    ParseRequest(text)
  }

  /** From the bytes in the buffer, when the connection is not a CONNECT. */
  function ReadRequests(buffer: seq<byte>, events: seq<Event>): Outcome
    decreases |events|
  {
    if events == [] then StillReading
    else if !events[0].Chunk? then Silent
    else
      var b := buffer + events[0].bytes;
      var r := FromSlice(b);
      if r.None? then ReadRequests(b, events[1..]) else if r.value.HttpProxy? then Served(r.value.request) else Silent
  }

  // --- CONNECT lines ---

  /** `read_line`: up to a newline or the end; the rest of that read stays in the reader, which is dropped. */
  datatype LineRead = Whole(line: seq<byte>, lost: seq<byte>) | Broken | Unfinished

  /** The position of the first newline, or the length. */
  function FindNewline(b: seq<byte>): (i: nat)
    ensures i <= |b| && (i < |b| ==> b[i] == NEWLINE) && forall j | 0 <= j < i :: b[j] != NEWLINE
  {
    if b == [] || b[0] == NEWLINE then 0 else 1 + FindNewline(b[1..])
  }

  function Line(sofar: seq<byte>, events: seq<Event>): LineRead
    decreases |events|
  {
    if events == [] then Unfinished
    else
      match events[0]
      case Chunk(b) =>
        var i := FindNewline(b);
        if i < |b| then Whole(sofar + b[..i + 1], b[i + 1..]) else Line(sofar + b, events[1..])
      case Closed => Whole(sofar, [])
      case _ => Broken
  }

  function SkipWhite(s: string): (r: string)
    ensures |r| <= |s| && (r != "" ==> !IsWhitespace(r[0]))
  {
    if s != "" && IsWhitespace(s[0]) then SkipWhite(s[1..]) else s
  }

  function Word(s: string): (w: string)
    ensures |w| <= |s| && (s != "" && !IsWhitespace(s[0]) ==> w != "")
  {
    if s == "" || IsWhitespace(s[0]) then "" else [s[0]] + Word(s[1..])
  }

  /** `split_whitespace` */
  function Words(s: string): seq<string>
    decreases |s|
  {
    var t := SkipWhite(s);
    if t == "" then [] else [Word(t)] + Words(t[|Word(t)|..])
  }

  /** The words of the CONNECT line, if one was read and is UTF-8. */
  function LineWords(peek: seq<byte>, events: seq<Event>): Option<seq<string>> {
    var l := Line([], events);
    if !l.Whole? then None
    else
      var text :- Decode(l.line);
      Some(Words(LossyDecode(peek) + text))
  }

  /** `connects` tells whether the target can be reached. */
  function ConnectOutcome(peek: seq<byte>, events: seq<Event>, connects: string -> bool): Outcome {
    var words := LineWords(peek, events);
    if Line([], events).Unfinished? then StillReading
    else if words.None? then Silent
    else if |words.value| < 2 then BadRequest
    else if connects(words.value[1]) then Tunnel(words.value[1], Line([], events).lost)
    else BadGateway
  }

  /** `peek` is what the first read of at most eight bytes gives. */
  function HostOutcome(peek: seq<byte>, events: seq<Event>, connects: string -> bool): Outcome {
    if peek == [] then Silent
    else if CONNECT <= peek then ConnectOutcome(peek, events, connects)
    else ReadRequests(peek, events)
  }

  method ReadLine(events: seq<Event>) returns (r: LineRead)
    ensures r == Line([], events)
  {
    var line: seq<byte> := [];
    var i := 0;
    while i < |events|
      invariant 0 <= i <= |events|
      invariant Line([], events) == Line(line, events[i..])
    {
      assert events[i..][1..] == events[i + 1..];
      match events[i] {
        case Chunk(b) =>
          var k := FindNewline(b);
          if k < |b| { return Whole(line + b[..k + 1], b[k + 1..]); }
          line := line + b;
        case Closed => return Whole(line, []);
        case _ => return Broken;
      }
      i := i + 1;
    }
    return Unfinished;
  }

  method HandleConnect(peek: seq<byte>, events: seq<Event>, connects: string -> bool) returns (outcome: Outcome)
    ensures outcome == ConnectOutcome(peek, events, connects)
  {
    var r := ReadLine(events);
    if r.Unfinished? { return StillReading; }
    if r.Broken? { return Silent; }
    var text := Decode(r.line);
    if text.None? { return Silent; }
    var parts := Words(LossyDecode(peek) + text.value);
    if |parts| < 2 { return BadRequest; }
    return if connects(parts[1]) then Tunnel(parts[1], r.lost) else BadGateway;
  }

  method HandleProxyOrConnect(peek: seq<byte>, events: seq<Event>, connects: string -> bool) returns (outcome: Outcome)
    ensures outcome == HostOutcome(peek, events, connects)
  {
    if peek == [] { return Silent; }
    if CONNECT <= peek {
      outcome := HandleConnect(peek, events, connects);
      return;
    }
    var buffer := peek;
    var i := 0;
    while i < |events|
      invariant 0 <= i <= |events|
      invariant ReadRequests(peek, events) == ReadRequests(buffer, events[i..])
    {
      if !events[i].Chunk? { return Silent; }
      buffer := buffer + events[i].bytes;
      assert events[i..][1..] == events[i + 1..];
      var request := FromSlice(buffer);
      if request.Some? {
        return if request.value.HttpProxy? then Served(request.value.request) else Silent;
      }
      i := i + 1;
    }
    return StillReading;
  }

  // --- The client: VsockHttpClient::make_request ---

  datatype Response = Got(response: HttpProxyResponse) | NoResponse | Awaiting

  /** From the text accumulated so far. */
  function ReadResponses(text: string, events: seq<Event>): Response
    decreases |events|
  {
    if events == [] then Awaiting
    else
      match events[0]
      case Chunk(b) =>
        var t := text + LossyDecode(b);
        var r := ParseResponse(t);
        if r.Some? && r.value.HttpProxied? then Got(r.value.response) else ReadResponses(t, events[1..])
      case NotReady => ReadResponses(text, events[1..])
      case _ => NoResponse
  }

  method MakeRequest(events: seq<Event>) returns (response: Response)
    ensures response == ReadResponses("", events)
  {
    var text := "";
    var i := 0;
    while i < |events|
      invariant 0 <= i <= |events|
      invariant ReadResponses("", events) == ReadResponses(text, events[i..])
    {
      assert events[i..][1..] == events[i + 1..];
      match events[i] {
        case Chunk(b) =>
          text := text + LossyDecode(b);
          var r := ParseResponse(text);
          if r.Some? && r.value.HttpProxied? { return Got(r.value.response); }
        case NotReady =>
        case _ => return NoResponse;
      }
      i := i + 1;
    }
    return Awaiting;
  }

  // --- A CONNECT line whose first read is short ---

  lemma CapitalNeverParses(rest: seq<byte>)
    ensures FromSlice([67] + rest) == None
  {
    var b := [67] + rest;
    if Decode(b).Some? {
      assert DecodeOne(b) == Some(('C', 1));
      assert Decode(b).value[0] == 'C';
    }
  }

  lemma {:induction false} CapitalStaysUnread(buffer: seq<byte>, events: seq<Event>)
    requires buffer != [] && buffer[0] == 67
    ensures ReadRequests(buffer, events).Silent? || ReadRequests(buffer, events).StillReading?
    decreases |events|
  {
    if events != [] && events[0].Chunk? {
      var b := buffer + events[0].bytes;
      assert b == [67] + b[1..];
      CapitalNeverParses(b[1..]);
      CapitalStaysUnread(b, events[1..]);
    }
  }

  /**
    The outcomes of a CONNECT exactly.  A tunnel is opened only if the first read alone holds the eight bytes
    of "CONNECT "; when it holds only a part of them, nothing that follows is ever answered.
   */
  lemma TunnelExactly(peek: seq<byte>, events: seq<Event>, connects: string -> bool)
    ensures var o, words := HostOutcome(peek, events, connects), LineWords(peek, events);
      && (o.Tunnel? <==> CONNECT <= peek && words.Some? && |words.value| >= 2 && connects(words.value[1]))
      && (o.Tunnel? ==> o.target == words.value[1])
      && (o.BadGateway? <==> CONNECT <= peek && words.Some? && |words.value| >= 2 && !connects(words.value[1]))
      && (o.BadRequest? <==> CONNECT <= peek && words.Some? && |words.value| < 2)
    ensures peek != [] && peek < CONNECT ==> HostOutcome(peek, events, connects) in {Silent, StillReading}
  {
    ServesOrWaits(peek, events);
    if peek != [] && peek < CONNECT {
      assert peek[0] == CONNECT[0];
      CapitalStaysUnread(peek, events);
    }
  }

  lemma {:induction false} ServesOrWaits(buffer: seq<byte>, events: seq<Event>)
    ensures var o := ReadRequests(buffer, events); o.Served? || o.Silent? || o.StillReading?
    decreases |events|
  {
    if events != [] && events[0].Chunk? { ServesOrWaits(buffer + events[0].bytes, events[1..]); }
  }

  // --- The CONNECT line of the VM's proxy ---

  function Events(chunks: seq<seq<byte>>): (es: seq<Event>)
    ensures |es| == |chunks| && forall i | 0 <= i < |chunks| :: es[i] == Chunk(chunks[i])
  {
    seq(|chunks|, i requires 0 <= i < |chunks| => Chunk(chunks[i]))
  }

  lemma EventsCons(c: seq<byte>, rest: seq<seq<byte>>, after: seq<Event>)
    ensures Events([c] + rest) + after == [Chunk(c)] + (Events(rest) + after)
  {
  }

  lemma {:induction false} LineStep(sofar: seq<byte>, b: seq<byte>, after: seq<Event>)
    ensures NEWLINE !in b ==> Line(sofar, [Chunk(b)] + after) == Line(sofar + b, after)
  {
    assert FindNewline(b) < |b| ==> b[FindNewline(b)] in b;
    assert ([Chunk(b)] + after)[1..] == after;
  }

  lemma {:induction false} FirstNewline(front: seq<byte>, back: seq<byte>)
    requires NEWLINE !in front
    ensures FindNewline(front + [NEWLINE] + back) == |front|
  {
    var b := front + [NEWLINE] + back;
    assert b[|front|] == NEWLINE && forall j | 0 <= j < |front| :: b[j] == front[j];
  }

  /** The newline is in this read. */
  lemma {:induction false} LineEnds(sofar: seq<byte>, c: seq<byte>, after: seq<Event>, front: seq<byte>,
                                    back: seq<byte>)
    requires c == front + [NEWLINE] + back && NEWLINE !in front
    ensures Line(sofar, [Chunk(c)] + after) == Whole(sofar + front + [NEWLINE], back)
  {
    FirstNewline(front, back);
    assert c[..|front| + 1] == front + [NEWLINE] && c[|front| + 1..] == back;
    Associative(sofar, front, [NEWLINE]);
  }

  /** For every division into reads the line is read up to its newline, and only bytes behind that can be lost. */
  lemma {:induction false} LineOfChunks(sofar: seq<byte>, chunks: seq<seq<byte>>, after: seq<Event>, front: seq<byte>,
                                        back: seq<byte>)
    requires Flatten(chunks) == (front + [NEWLINE]) + back && NEWLINE !in front
    ensures var l := Line(sofar, Events(chunks) + after);
      l.Whole? && l.line == sofar + front + [NEWLINE] && l.lost <= back
    decreases |chunks|
  {
    assert chunks != [];
    var c, rest := chunks[0], chunks[1..];
    assert chunks == [c] + rest;
    FlattenCons(c, rest);
    EventsCons(c, rest, after);
    if |c| <= |front| {
      var front' := front[|c|..];
      Associative(front, [NEWLINE], back);
      PrefixOf(c, Flatten(rest), front, [NEWLINE] + back);
      Associative(front', [NEWLINE], back);
      LineStep(sofar, c, Events(rest) + after);
      LineOfChunks(sofar + c, rest, after, front', back);
      assert sofar + c + front' == sofar + front;
    } else {
      PrefixOf(front + [NEWLINE], back, c, Flatten(rest));
      LineEnds(sofar, c, Events(rest) + after, front, c[|front| + 1..]);
    }
  }

  lemma {:induction false} WordOf(w: string, rest: string)
    requires (forall c | c in w :: !IsWhitespace(c)) && (rest == "" || IsWhitespace(rest[0]))
    ensures Word(w + rest) == w
  {
    if w == "" {
      assert w + rest == rest;
    } else {
      assert (w + rest)[1..] == w[1..] + rest;
      WordOf(w[1..], rest);
      assert [w[0]] + w[1..] == w;
    }
  }

  /** The words of a text that begins with a word. */
  lemma {:induction false} FirstWord(w: string, rest: string)
    requires w != "" && (forall c | c in w :: !IsWhitespace(c)) && (rest == "" || IsWhitespace(rest[0]))
    ensures Words(w + rest) == [w] + Words(rest)
  {
    var s := w + rest;
    assert s[0] in w && SkipWhite(s) == s;
    WordOf(w, rest);
    assert s[|w|..] == rest;
  }

  lemma {:induction false} BlankFirst(s: string)
    requires s != "" && IsWhitespace(s[0])
    ensures Words(s) == Words(s[1..])
  {
  }

  lemma {:induction false} SecondWord(first: string, target: string, rest: string)
    requires first != "" && (forall c | c in first :: !IsWhitespace(c))
    requires target != "" && (forall c | c in target :: !IsWhitespace(c)) && rest != "" && IsWhitespace(rest[0])
    ensures var words := Words(first + (" " + (target + rest))); |words| >= 2 && words[1] == target
  {
    FirstWord(first, " " + (target + rest));
    BlankFirst(" " + (target + rest));
    assert (" " + (target + rest))[1..] == target + rest;
    FirstWord(target, rest);
  }

  lemma {:induction false} NoNewline(s: string)
    requires '\n' !in s
    ensures NEWLINE !in Encode(s)
  {
    if s != "" { NoNewline(s[1..]); }
  }

  lemma {:induction false} AsciiBytes(s: string)
    requires forall i | 0 <= i < |s| :: s[i] < 0x80 as char
    ensures |Encode(s)| == |s| && forall i | 0 <= i < |s| :: Encode(s)[i] == s[i] as int
  {
    if s != "" { AsciiBytes(s[1..]); }
  }

  lemma ConnectText()
    ensures LossyDecode(CONNECT) == "CONNECT "
  {
    AsciiBytes("CONNECT ");
    assert Encode("CONNECT ") == CONNECT;
    DecodeEncode("CONNECT ");
    LossyOfValid(CONNECT);
  }

  /** What the VM's proxy writes behind the target. */
  const VERSION: string := " HTTP/1.1\r"
  const CRLF: seq<byte> := [13, 10]

  lemma {:induction false} DecodeLine(s: string)
    ensures Decode(Encode(s) + [NEWLINE]) == Some(s + "\n")
  {
    assert Encode("\n") == [NEWLINE];
    EncodeAppend(s, "\n");
    DecodeEncode(s + "\n");
  }

  lemma {:induction false} LineTarget(target: string)
    requires target != "" && forall c | c in target :: !IsWhitespace(c)
    ensures var words := Words("CONNECT " + (target + VERSION + "\n")); |words| >= 2 && words[1] == target
  {
    SecondWord("CONNECT", target, VERSION + "\n");
    LineText(target, VERSION, "\n");
  }

  lemma LineText(target: string, version: string, end: string)
    ensures "CONNECT" + (" " + (target + (version + end))) == "CONNECT " + (target + version + end)
  {
    Associative("CONNECT", " ", target + (version + end));
    Associative(target, version, end);
  }

  /**
    A CONNECT of the VM's proxy, however its bytes are divided after the first eight: a tunnel to exactly its
    target if that can be reached, else the error reply; of the message only its last line end can be lost.
   */
  lemma {:induction false} ConnectReaches(target: string, chunks: seq<seq<byte>>, after: seq<Event>,
                                          connects: string -> bool)
    requires target != "" && forall c | c in target :: !IsWhitespace(c)
    requires Flatten(chunks) == Encode(target + VERSION) + [NEWLINE] + CRLF
    ensures var o := HostOutcome(CONNECT, Events(chunks) + after, connects);
      if connects(target) then o.Tunnel? && o.target == target && o.lost <= CRLF else o.BadGateway?
  {
    var front := Encode(target + VERSION);
    assert '\n' !in target + VERSION;
    NoNewline(target + VERSION);
    LineOfChunks([], chunks, after, front, CRLF);
    assert [] + front + [NEWLINE] == front + [NEWLINE];
    DecodeLine(target + VERSION);
    LineTarget(target);
    ConnectText();
  }
}
