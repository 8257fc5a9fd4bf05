/**
  The VM agent's side of a command connection (`handle_connection`): it appends chunk after chunk,
  tries to parse after each, and answers once, except where a timeout or read error leaves data behind.
 */
module AgentConnection {
  import opened Prelude
  import opened Strings
  import opened Lossy
  import opened VsockMessages

  /** What one `read` yields; `expired` tells whether the 30 seconds are over. */
  datatype Event = Chunk(bytes: seq<byte>) | Closed | NotReady(expired: bool) | Failed

  /** What is written to the stream. */
  datatype Reply = Answer(request: VsockRequest) | ReadTimeout | ReadError | InvalidJson(text: string)

  /** What follows the loop when no answer was sent. */
  function Leftover(text: string): seq<Reply> {
    if IsBlank(text) || ParseRequest(text).Some? then [] else [InvalidJson(text)]
  }

  /** All replies, from the text accumulated so far. */
  function Session(text: string, events: seq<Event>): seq<Reply>
    decreases |events|
  {
    if events == [] then []
    else
      match events[0]
      case Chunk(b) =>
        var t := text + LossyDecode(b);
        var r := ParseRequest(t);
        if r.Some? then [Answer(r.value)] else Session(t, events[1..])
      case Closed => Leftover(text)
      case NotReady(expired) => if expired then [ReadTimeout] + Leftover(text) else Session(text, events[1..])
      case Failed => [ReadError] + Leftover(text)
  }

  /** `handle_connection`; `waiting` means that it is still in its loop when the events end. */
  method HandleConnection(events: seq<Event>) returns (replies: seq<Reply>, waiting: bool)
    ensures replies == Session("", events)
    ensures waiting ==> replies == []
  {
    replies := [];
    var text := "";
    var responseSent := false;
    var i := 0;
    waiting := true;
    NothingParsesFromNothing();
    while i < |events| && waiting
      invariant 0 <= i <= |events| && (waiting ==> !responseSent)
      invariant ParseRequest(text).Some? ==> responseSent
      invariant waiting ==> replies == [] && Session("", events) == Session(text, events[i..])
      invariant !waiting ==> Session("", events) == replies + if responseSent then [] else Leftover(text)
      decreases |events| - i
    {
      var event := events[i];
      assert events[i..][1..] == events[i + 1..];
      match event {
        case Chunk(bytes) =>
          text := text + LossyDecode(bytes);
          var request := ParseRequest(text);
          if request.Some? {
            replies := replies + [Answer(request.value)];
            responseSent := true;
            waiting := false;
          }
        case Closed =>
          waiting := false;
        case NotReady(expired) =>
          if expired {
            replies := replies + [ReadTimeout];
            waiting := false;
          }
        case Failed =>
          replies := replies + [ReadError];
          waiting := false;
      }
      i := i + 1;
    }
    if !waiting && !responseSent && !IsBlank(text) {
      assert ParseRequest(text).None?;
      replies := replies + [InvalidJson(text)];
    }
  }

  lemma NothingParsesFromNothing()
    ensures ParseRequest("") == None && IsBlank("")
  {
  }

  // --- The exact number of replies ---

  /** The chunks among the events. */
  function Chunks(events: seq<Event>): seq<seq<byte>> {
    if events == [] then []
    else
      var last := events[|events| - 1];
      Chunks(events[..|events| - 1]) + if last.Chunk? then [last.bytes] else []
  }

  function Received(events: seq<Event>): string { LossyText(Chunks(events)) }

  /** Event `k` completes a request. */
  predicate Completes(events: seq<Event>, k: nat)
    requires k < |events|
  {
    events[k].Chunk? && ParseRequest(Received(events[..k + 1])).Some?
  }

  /** Event `k` ends the loop without a request. */
  predicate GivesUp(event: Event) { event.Closed? || event.Failed? || event == NotReady(true) }

  predicate Undecided(events: seq<Event>) {
    forall k | 0 <= k < |events| :: !Completes(events, k) && !GivesUp(events[k])
  }

  lemma ReceivedSnoc(events: seq<Event>, e: Event)
    ensures Received(events + [e]) == if e.Chunk? then Received(events) + LossyDecode(e.bytes) else Received(events)
  {
    assert (events + [e])[..|events|] == events;
    if e.Chunk? { LossySnoc(Chunks(events), e.bytes); } else { assert Chunks(events) + [] == Chunks(events); }
  }

  lemma {:induction false} SessionFrom(events: seq<Event>, more: seq<Event>)
    requires Undecided(events)
    ensures Session("", events + more) == Session(Received(events), more)
    decreases |events|
  {
    if events == [] {
      assert events + more == more;
    } else {
      var front, e := events[..|events| - 1], events[|events| - 1];
      forall k | 0 <= k < |front| ensures !Completes(front, k) && !GivesUp(front[k]) {
        assert front[..k + 1] == events[..k + 1];
        assert !Completes(events, k);
      }
      assert events + more == front + ([e] + more) && ([e] + more)[1..] == more;
      SessionFrom(front, [e] + more);
      assert front + [e] == events && events[..|events|] == events;
      ReceivedSnoc(front, e);
      assert !Completes(events, |events| - 1);
    }
  }

  lemma {:induction false} UndecidedUnparsed(events: seq<Event>)
    requires Undecided(events)
    ensures ParseRequest(Received(events)) == None
    decreases |events|
  {
    if events == [] {
      NothingParsesFromNothing();
    } else {
      var front, e := events[..|events| - 1], events[|events| - 1];
      forall k | 0 <= k < |front| ensures !Completes(front, k) && !GivesUp(front[k]) {
        assert front[..k + 1] == events[..k + 1];
        assert !Completes(events, k);
      }
      UndecidedUnparsed(front);
      assert front + [e] == events && events[..|events|] == events;
      ReceivedSnoc(front, e);
      assert !Completes(events, |events| - 1);
    }
  }

  /** An event that decides the connection. */
  lemma {:induction false} Decides(text: string, e: Event, after: seq<Event>)
    ensures var replies := Session(text, [e] + after);
      && (e.Chunk? && ParseRequest(text + LossyDecode(e.bytes)).Some? ==>
            replies == [Answer(ParseRequest(text + LossyDecode(e.bytes)).value)])
      && (e.Closed? ==> replies == Leftover(text))
      && (e == NotReady(true) ==> replies == [ReadTimeout] + Leftover(text))
      && (e.Failed? ==> replies == [ReadError] + Leftover(text))
  {
    assert ([e] + after)[0] == e;
  }

  /**
    The replies of a connection, by the first event that decides it: one answer for a request; on a
    close one error exactly if there was data; on a timeout or read error one error, and a second one
    exactly if there was data, although the code means to send that one only if nothing was sent.
   */
  lemma {:induction false} RepliesExactly(before: seq<Event>, e: Event, after: seq<Event>)
    requires Undecided(before)
    ensures Session("", before) == []
    ensures var replies, text := Session("", before + [e] + after), Received(before);
      var second := if IsBlank(text) then [] else [InvalidJson(text)];
      && (Completes(before + [e], |before|) ==>
            var r := ParseRequest(Received(before + [e])); r.Some? && replies == [Answer(r.value)])
      && (e.Closed? ==> replies == second)
      && (e == NotReady(true) ==> replies == [ReadTimeout] + second)
      && (e.Failed? ==> replies == [ReadError] + second)
  {
    assert before + [] == before;
    SessionFrom(before, []);
    Associative(before, [e], after);
    SessionFrom(before, [e] + after);
    Decides(Received(before), e, after);
    UndecidedUnparsed(before);
    ReceivedSnoc(before, e);
    assert (before + [e])[..|before| + 1] == before + [e];
  }
}
