/**
  "Append a chunk, try to parse, stop on success", on all three readers: because no proper prefix of an
  object text parses, a message is taken exactly at its last chunk, whatever the chunks.
 */
module VsockFraming {
  import opened Prelude
  import opened Utf8
  import opened Lossy
  import opened JsonPrefix
  import opened VsockMessages
  import opened BlurMessages
  import Agent = AgentConnection
  import Proxy = ProxyConnection

  lemma NeverEarly(p: string, x: string)
    requires Exact(p + x) && x != []
    ensures ParseRequest(p) == None && ParseResponse(p) == None
  {
    PrefixFree(p, x);
  }

  /** A valid front of an encoded text encodes a front of the text, and a proper one if bytes are missing. */
  lemma {:induction false} FrontOfText(text: string, a: seq<byte>, b: seq<byte>)
    requires Encode(text) == a + b && Valid(a)
    ensures Valid(b) && text == Decode(a).value + Decode(b).value
    ensures b != [] ==> Decode(b).value != []
  {
    DecodeEncode(text);
    DecodeSplits(a, b);
    EncodeDecode(b);
  }

  lemma {:induction false} NeverEarlyBytes(text: string, a: seq<byte>, b: seq<byte>)
    requires Exact(text) && Encode(text) == a + b && b != []
    ensures Valid(a) ==> ParseRequest(Decode(a).value) == None && ParseResponse(Decode(a).value) == None
    ensures Proxy.FromSlice(a) == None
  {
    if Valid(a) {
      FrontOfText(text, a, b);
      NeverEarly(Decode(a).value, Decode(b).value);
    }
  }

  // --- Commands to the VM agent ---

  /** Data and waiting, as long as the message is under way. */
  predicate Flowing(events: seq<Agent.Event>) {
    forall e | e in events :: e.Chunk? || e == Agent.NotReady(false)
  }

  lemma {:induction false} ChunksSnoc(events: seq<Agent.Event>, e: Agent.Event)
    ensures Agent.Chunks(events + [e]) == Agent.Chunks(events) + if e.Chunk? then [e.bytes] else []
  {
    assert (events + [e])[..|events|] == events;
  }

  lemma {:induction false} ChunksAppend(a: seq<Agent.Event>, b: seq<Agent.Event>)
    ensures Agent.Chunks(a + b) == Agent.Chunks(a) + Agent.Chunks(b)
    decreases |b|
  {
    if b == [] {
      assert a + b == a;
    } else {
      var front, e := b[..|b| - 1], b[|b| - 1];
      assert b == front + [e];
      ChunksAppend(a, front);
      ChunksSnoc(front, e);
      ChunksSnoc(a + front, e);
      Associative(a, front, [e]);
      Associative(Agent.Chunks(a), Agent.Chunks(front), if e.Chunk? then [e.bytes] else []);
    }
  }

  /** Whatever the chunks of a message are read as in the end, no front of it is read as anything. */
  lemma {:induction false} NotYet(events: seq<Agent.Event>, last: seq<byte>, k: nat)
    requires Exact(LossyText(Agent.Chunks(events) + [last])) && last != [] && k <= |events|
    ensures ParseRequest(Agent.Received(events[..k])) == None
  {
    var a, b := events[..k], events[k..];
    assert events == a + b;
    ChunksAppend(a, b);
    Associative(Agent.Chunks(a), Agent.Chunks(b), [last]);
    LossyTextAppend(Agent.Chunks(a), Agent.Chunks(b) + [last]);
    LossySnoc(Agent.Chunks(b), last);
    NeverEarly(Agent.Received(a), LossyText(Agent.Chunks(b) + [last]));
  }

  lemma {:induction false} UndecidedBefore(events: seq<Agent.Event>, last: seq<byte>)
    requires Exact(LossyText(Agent.Chunks(events) + [last])) && last != [] && Flowing(events)
    ensures Agent.Undecided(events)
  {
    forall k | 0 <= k < |events| ensures !Agent.Completes(events, k) && !Agent.GivesUp(events[k]) {
      NotYet(events, last, k + 1);
      assert events[k] in events;
    }
  }

  /** `chunks` and `last` carry the text. */
  predicate Carries(text: string, chunks: seq<seq<byte>>, last: seq<byte>) {
    Flatten(chunks) + last == Encode(text) && last != []
  }

  predicate Sendable(r: VsockRequest, order: seq<string>) {
    && (r.HttpProxy? ==> Enumerates(order, r.request.headers))
    && (r.Command? && r.command.timeoutSeconds.Some? ==> r.command.timeoutSeconds.value < U64)
  }

  lemma AllSnoc(chunks: seq<seq<byte>>, last: seq<byte>)
    ensures (forall c | c in chunks + [last] :: Valid(c)) <==> Valid(last) && forall c | c in chunks :: Valid(c)
  {
    assert last in chunks + [last] && forall c | c in chunks :: c in chunks + [last];
  }

  /** The first text that is read as a request decides what the agent says: one answer. */
  lemma {:induction false} AnsweredWith(r: VsockRequest, events: seq<Agent.Event>, last: seq<byte>,
                                        after: seq<Agent.Event>)
    requires Agent.Undecided(events) && ParseRequest(LossyText(Agent.Chunks(events) + [last])) == Some(r)
    ensures Agent.Session("", events + [Agent.Chunk(last)] + after) == [Agent.Answer(r)]
  {
    var all := events + [Agent.Chunk(last)];
    Agent.ReceivedSnoc(events, Agent.Chunk(last));
    LossySnoc(Agent.Chunks(events), last);
    assert all[..|events| + 1] == all;
    Agent.RepliesExactly(events, Agent.Chunk(last), after);
  }

  /**
    No reply while the message is incomplete, and one answer at its last chunk, wherever the chunks are cut:
    to exactly the request sent if every chunk is valid UTF-8, and to another one of its kind if one is not.
   */
  lemma {:induction false} DispatchedExactly(r: VsockRequest, order: seq<string>, events: seq<Agent.Event>,
                                             last: seq<byte>, after: seq<Agent.Event>)
    returns (taken: VsockRequest)
    requires Sendable(r, order) && Flowing(events) && last != []
    requires Flatten(Agent.Chunks(events)) + last == Encode(PrintRequest(r, order))
    ensures forall k | 0 <= k <= |events| :: Agent.Session("", events[..k]) == []
    ensures Agent.Session("", events + [Agent.Chunk(last)] + after) == [Agent.Answer(taken)] && SameKind(r, taken)
    ensures taken == r <==> Valid(last) && forall c | c in Agent.Chunks(events) :: Valid(c)
  {
    var chunks := Agent.Chunks(events) + [last];
    FlattenSnoc(Agent.Chunks(events), last);
    taken := RequestBlurs(r, order, chunks);
    UndecidedBefore(events, last);
    forall k | 0 <= k <= |events| ensures Agent.Session("", events[..k]) == [] { QuietBefore(events, k); }
    AnsweredWith(taken, events, last, after);
    AllSnoc(Agent.Chunks(events), last);
  }

  lemma QuietBefore(events: seq<Agent.Event>, k: nat)
    requires Agent.Undecided(events) && k <= |events|
    ensures Agent.Session("", events[..k]) == []
  {
    var front := events[..k];
    forall j | 0 <= j < |front| ensures !Agent.Completes(front, j) && !Agent.GivesUp(front[j]) {
      assert front[..j + 1] == events[..j + 1];
      assert !Agent.Completes(events, j);
    }
    Agent.SessionFrom(front, []);
    assert front + [] == front;
  }

  // --- The proxy ---

  lemma {:induction false} HostStep(buffer: seq<byte>, c: seq<byte>, after: seq<Proxy.Event>)
    requires Proxy.FromSlice(buffer + c) == None
    ensures Proxy.ReadRequests(buffer, [Proxy.Chunk(c)] + after) == Proxy.ReadRequests(buffer + c, after)
  {
    assert ([Proxy.Chunk(c)] + after)[1..] == after;
  }

  /** The bytes of a front of the chunks, the first of them taken apart. */
  lemma {:induction false} FlattenedFront(buffer: seq<byte>, c: seq<byte>, rest: seq<seq<byte>>, missing: seq<byte>)
    ensures buffer + (Flatten([c] + rest) + missing) == (buffer + c) + (Flatten(rest) + missing)
    ensures buffer + Flatten([c] + rest) == (buffer + c) + Flatten(rest)
  {
    FlattenCons(c, rest);
    Associative(buffer, c, Flatten(rest));
    Associative(c, Flatten(rest), missing);
    Associative(buffer, c, Flatten(rest) + missing);
  }

  /** Chunks that leave the message incomplete only fill the host's buffer, wherever they are cut. */
  lemma {:induction false} HostReadsOn(text: string, buffer: seq<byte>, chunks: seq<seq<byte>>, missing: seq<byte>,
                                       after: seq<Proxy.Event>)
    requires Exact(text) && buffer + (Flatten(chunks) + missing) == Encode(text) && missing != []
    ensures Proxy.ReadRequests(buffer, Proxy.Events(chunks) + after) ==
      Proxy.ReadRequests(buffer + Flatten(chunks), after)
    decreases |chunks|
  {
    if chunks == [] {
      assert Proxy.Events(chunks) + after == after && buffer + Flatten(chunks) == buffer;
    } else {
      var c, rest := chunks[0], chunks[1..];
      assert chunks == [c] + rest;
      FlattenedFront(buffer, c, rest, missing);
      NeverEarlyBytes(text, buffer + c, Flatten(rest) + missing);
      HostReadsOn(text, buffer + c, rest, missing, after);
      Proxy.EventsCons(c, rest, after);
      HostStep(buffer, c, Proxy.Events(rest) + after);
    }
  }

  /** A printed object begins with a brace, so it is no CONNECT line. */
  lemma NoConnect(r: HttpProxyRequest, order: seq<string>, peek: seq<byte>, b: seq<byte>)
    requires Enumerates(order, r.headers) && peek + b == Encode(PrintRequest(HttpProxy(r), order))
    ensures !(Proxy.CONNECT <= peek)
  {
    var text := PrintRequest(HttpProxy(r), order);
    assert text[0] == '{' && Encode(text)[0] == 0x7B;
    assert peek != [] ==> peek[0] == Encode(text)[0];
  }

  /** The host executes exactly the request sent, at its last chunk and no earlier, wherever the chunks are cut. */
  lemma {:induction false} HostServes(r: HttpProxyRequest, order: seq<string>, peek: seq<byte>,
                                      chunks: seq<seq<byte>>, last: seq<byte>, after: seq<Proxy.Event>,
                                      connects: string -> bool)
    requires Enumerates(order, r.headers) && peek != [] && last != []
    requires peek + (Flatten(chunks) + last) == Encode(PrintRequest(HttpProxy(r), order))
    ensures Proxy.HostOutcome(peek, Proxy.Events(chunks), connects) == Proxy.StillReading
    ensures Proxy.HostOutcome(peek, Proxy.Events(chunks) + ([Proxy.Chunk(last)] + after), connects) == Proxy.Served(r)
  {
    RequestRoundTrip(HttpProxy(r), order);
    NoConnect(r, order, peek, Flatten(chunks) + last);
    HostServesText(HttpProxy(r), PrintRequest(HttpProxy(r), order), peek, chunks, last, after);
  }

  lemma {:induction false} HostServesText(r: VsockRequest, text: string, peek: seq<byte>, chunks: seq<seq<byte>>,
                                          last: seq<byte>, after: seq<Proxy.Event>)
    requires Exact(text) && ParseRequest(text) == Some(r) && r.HttpProxy?
    requires peek + (Flatten(chunks) + last) == Encode(text) && last != []
    ensures Proxy.ReadRequests(peek, Proxy.Events(chunks)) == Proxy.StillReading
    ensures Proxy.ReadRequests(peek, Proxy.Events(chunks) + ([Proxy.Chunk(last)] + after)) == Proxy.Served(r.request)
  {
    HostStillReads(text, peek, chunks, last);
    HostReadsOn(text, peek, chunks, last, [Proxy.Chunk(last)] + after);
    Associative(peek, Flatten(chunks), last);
    HostTakes(r, text, peek + Flatten(chunks), last, after);
  }

  lemma {:induction false} HostStillReads(text: string, peek: seq<byte>, chunks: seq<seq<byte>>, last: seq<byte>)
    requires Exact(text) && peek + (Flatten(chunks) + last) == Encode(text) && last != []
    ensures Proxy.ReadRequests(peek, Proxy.Events(chunks)) == Proxy.StillReading
  {
    HostReadsOn(text, peek, chunks, last, []);
    assert Proxy.Events(chunks) + [] == Proxy.Events(chunks);
  }

  lemma {:induction false} HostTakes(r: VsockRequest, text: string, buffer: seq<byte>, last: seq<byte>,
                                     after: seq<Proxy.Event>)
    requires buffer + last == Encode(text) && ParseRequest(text) == Some(r) && r.HttpProxy?
    ensures Proxy.ReadRequests(buffer, [Proxy.Chunk(last)] + after) == Proxy.Served(r.request)
  {
    DecodeEncode(text);
  }

  lemma {:induction false} ClientStep(text: string, c: seq<byte>, after: seq<Proxy.Event>)
    requires ParseResponse(text + LossyDecode(c)) == None
    ensures Proxy.ReadResponses(text, [Proxy.Chunk(c)] + after) == Proxy.ReadResponses(text + LossyDecode(c), after)
  {
    assert ([Proxy.Chunk(c)] + after)[1..] == after;
  }

  /** The client reads on while the response is incomplete. */
  lemma {:induction false} ClientReadsOn(full: string, text: string, chunks: seq<seq<byte>>, missing: string,
                                         after: seq<Proxy.Event>)
    requires Exact(full) && text + (LossyText(chunks) + missing) == full && missing != ""
    ensures Proxy.ReadResponses(text, Proxy.Events(chunks) + after) ==
      Proxy.ReadResponses(text + LossyText(chunks), after)
    decreases |chunks|
  {
    if chunks == [] {
      assert Proxy.Events(chunks) + after == after && text + LossyText(chunks) == text;
    } else {
      var c, rest := chunks[0], chunks[1..];
      var t := text + LossyDecode(c);
      assert chunks == [c] + rest;
      LossyCons(c, rest);
      Associative(text, LossyDecode(c), LossyText(rest));
      Associative(LossyDecode(c), LossyText(rest), missing);
      Associative(text, LossyDecode(c), LossyText(rest) + missing);
      NeverEarly(t, LossyText(rest) + missing);
      ClientReadsOn(full, t, rest, missing, after);
      Proxy.EventsCons(c, rest, after);
      ClientStep(text, c, Proxy.Events(rest) + after);
    }
  }

  /** The first text that is read as a response is returned, and nothing before it. */
  lemma {:induction false} ClientTakes(got: HttpProxyResponse, chunks: seq<seq<byte>>, last: seq<byte>,
                                       after: seq<Proxy.Event>)
    requires Exact(LossyText(chunks + [last])) && last != []
    requires ParseResponse(LossyText(chunks + [last])) == Some(HttpProxied(got))
    ensures Proxy.ReadResponses("", Proxy.Events(chunks)) == Proxy.Awaiting
    ensures Proxy.ReadResponses("", Proxy.Events(chunks) + ([Proxy.Chunk(last)] + after)) == Proxy.Got(got)
  {
    var text := LossyText(chunks);
    LossySnoc(chunks, last);
    assert "" + (text + LossyDecode(last)) == text + LossyDecode(last) && "" + text == text;
    ClientReadsOn(text + LossyDecode(last), "", chunks, LossyDecode(last), [Proxy.Chunk(last)] + after);
    ClientReadsOn(text + LossyDecode(last), "", chunks, LossyDecode(last), []);
    assert Proxy.Events(chunks) + [] == Proxy.Events(chunks);
  }

  /**
    The client returns a response at the last chunk and no earlier, wherever the chunks are cut: exactly the
    response sent if every chunk is valid UTF-8, and another one if one is not.
   */
  lemma {:induction false} ClientReceives(r: HttpProxyResponse, order: seq<string>, chunks: seq<seq<byte>>,
                                          last: seq<byte>, after: seq<Proxy.Event>)
    returns (got: HttpProxyResponse)
    requires Enumerates(order, r.headers) && r.statusCode < 0x1_0000
    requires Carries(PrintProxyResponse(r, order), chunks, last)
    ensures Proxy.ReadResponses("", Proxy.Events(chunks)) == Proxy.Awaiting
    ensures Proxy.ReadResponses("", Proxy.Events(chunks) + ([Proxy.Chunk(last)] + after)) == Proxy.Got(got)
    ensures got.statusCode == r.statusCode && got.body == r.body
    ensures got == r <==> Valid(last) && forall c | c in chunks :: Valid(c)
  {
    FlattenSnoc(chunks, last);
    got := ResponseBlurs(r, order, chunks + [last]);
    ClientTakes(got, chunks, last, after);
    AllSnoc(chunks, last);
  }

  // --- ASCII texts ---

  predicate Ascii(b: seq<byte>) { forall i | 0 <= i < |b| :: b[i] < 0x80 }

  predicate AsciiText(s: string) { forall i | 0 <= i < |s| :: s[i] < 0x80 as char }

  lemma {:induction false} AsciiValid(b: seq<byte>)
    requires Ascii(b)
    ensures Valid(b)
  {
    if b != [] { AsciiValid(b[1..]); }
  }

  lemma {:induction false} AsciiEncoded(text: string)
    requires AsciiText(text)
    ensures Ascii(Encode(text))
  {
    if text != [] { AsciiEncoded(text[1..]); }
  }

  /** Every chunk of an ASCII text is valid, so the client's condition holds for all its chunkings. */
  lemma {:induction false} AsciiChunks(chunks: seq<seq<byte>>)
    requires Ascii(Flatten(chunks))
    ensures forall c | c in chunks :: Valid(c)
  {
    if chunks != [] {
      var front, last := chunks[..|chunks| - 1], chunks[|chunks| - 1];
      var all := Flatten(chunks);
      assert all == Flatten(front) + last;
      assert forall i | 0 <= i < |Flatten(front)| :: Flatten(front)[i] == all[i];
      assert forall i | 0 <= i < |last| :: last[i] == all[|Flatten(front)| + i];
      AsciiChunks(front);
      AsciiValid(last);
    }
  }

  /** An ASCII text meets the condition however it is cut. */
  lemma {:induction false} AsciiCarried(text: string, chunks: seq<seq<byte>>, last: seq<byte>)
    requires Carries(text, chunks, last) && AsciiText(text)
    ensures Valid(last) && forall c | c in chunks :: Valid(c)
  {
    AsciiEncoded(text);
    FlattenSnoc(chunks, last);
    AsciiChunks(chunks + [last]);
    assert last in chunks + [last] && forall c | c in chunks :: c in chunks + [last];
  }

  lemma HostServesCarried(r: HttpProxyRequest, order: seq<string>, peek: seq<byte>, chunks: seq<seq<byte>>,
                          last: seq<byte>, connects: string -> bool)
    requires Enumerates(order, r.headers) && peek != []
    requires Carries(PrintRequest(HttpProxy(r), order), [peek] + chunks, last)
    ensures Proxy.HostOutcome(peek, Proxy.Events(chunks), connects) == Proxy.StillReading
    ensures Proxy.HostOutcome(peek, Proxy.Events(chunks) + [Proxy.Chunk(last)], connects) == Proxy.Served(r)
  {
    FlattenCons(peek, chunks);
    Associative(peek, Flatten(chunks), last);
    HostServes(r, order, peek, chunks, last, [], connects);
    assert [Proxy.Chunk(last)] + [] == [Proxy.Chunk(last)];
  }

  /**
    The round trip: whatever the chunks in both directions, the host executes the request the client was
    given, once, and the client returns the response it produced exactly if every chunk of the response is
    valid UTF-8, as with a response that prints as ASCII.
   */
  lemma {:induction false} ProxyRoundTrip(r: HttpProxyRequest, order: seq<string>, peek: seq<byte>,
                                          chunks: seq<seq<byte>>, last: seq<byte>,
                                          execute: HttpProxyRequest -> HttpProxyResponse, order': seq<string>,
                                          chunks': seq<seq<byte>>, last': seq<byte>, after: seq<Proxy.Event>,
                                          connects: string -> bool)
    returns (got: HttpProxyResponse)
    requires Enumerates(order, r.headers) && peek != []
    requires Carries(PrintRequest(HttpProxy(r), order), [peek] + chunks, last)
    requires Enumerates(order', execute(r).headers) && execute(r).statusCode < 0x1_0000
    requires Carries(PrintProxyResponse(execute(r), order'), chunks', last')
    ensures Proxy.HostOutcome(peek, Proxy.Events(chunks), connects) == Proxy.StillReading
    ensures Proxy.HostOutcome(peek, Proxy.Events(chunks) + [Proxy.Chunk(last)], connects) == Proxy.Served(r)
    ensures Proxy.ReadResponses("", Proxy.Events(chunks') + ([Proxy.Chunk(last')] + after)) == Proxy.Got(got)
    ensures got.statusCode == execute(r).statusCode && got.body == execute(r).body
    ensures got == execute(r) <==> Valid(last') && forall c | c in chunks' :: Valid(c)
    ensures AsciiText(PrintProxyResponse(execute(r), order')) ==> got == execute(r)
  {
    HostServesCarried(r, order, peek, chunks, last, connects);
    got := ClientReceives(execute(r), order', chunks', last', after);
    if AsciiText(PrintProxyResponse(execute(r), order')) {
      AsciiCarried(PrintProxyResponse(execute(r), order'), chunks', last');
    }
  }
}
