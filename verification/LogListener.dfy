/**
  The host side of the log pipeline (`handle_log_listener_unix_connection`): bytes arrive in arbitrary
  reads, are kept until they form valid UTF-8, and are split into lines as they become text.
 */
module LogListener {
  import opened Prelude
  import opened Utf8
  import opened Strings
  import opened Lines

  /** One return of `stream.read`: a chunk, end of stream, or an error. */
  datatype Read = Data(bytes: seq<byte>) | Eof | Failed

  /** The chunks the loop consumes: those before the first end of stream or error. */
  function Chunks(events: seq<Read>): seq<seq<byte>> {
    if events == [] || !events[0].Data? then [] else [events[0].bytes] + Chunks(events[1..])
  }

  /** How many leading chunks make up the longest prefix, cut at a chunk boundary, that is valid UTF-8. */
  function Settled(chunks: seq<seq<byte>>): (k: nat)
    ensures k <= |chunks| && Valid(Flatten(chunks[..k]))
  {
    if Valid(Flatten(chunks)) then (assert chunks[..|chunks|] == chunks; |chunks|)
    else
      var front := chunks[..|chunks| - 1];
      assert forall k | 0 <= k < |chunks| :: chunks[..k] == front[..k];
      Settled(front)
  }

  /** The text of that prefix. */
  function SettledText(chunks: seq<seq<byte>>): string { Decode(Flatten(chunks[..Settled(chunks)])).value }

  /** The bytes received after that prefix. */
  function Unsettled(chunks: seq<seq<byte>>): seq<byte> { Flatten(chunks[Settled(chunks)..]) }

  /** What is logged while the connection is open, and what is logged in all once it has closed. */
  function Streamed(chunks: seq<seq<byte>>): seq<string> { NonBlank(Closed(SettledText(chunks))) }
  function Final(chunks: seq<seq<byte>>): seq<string> { NonBlank(Split(SettledText(chunks))) }

  lemma {:induction false} ChunksAt(events: seq<Read>, i: nat)
    requires i <= |Chunks(events)|
    ensures |Chunks(events)| <= |events|
    ensures i < |Chunks(events)| ==> events[i] == Data(Chunks(events)[i])
    ensures i == |Chunks(events)| < |events| ==> !events[i].Data?
  {
    if events != [] && events[0].Data? {
      if i > 0 { ChunksAt(events[1..], i - 1); } else { ChunksAt(events[1..], 0); }
    }
  }

  // --- The settled prefix ---

  /** No longer prefix of chunks is valid. */
  lemma {:induction false} SettledIsLongest(chunks: seq<seq<byte>>, k: nat)
    requires k <= |chunks| && Valid(Flatten(chunks[..k]))
    ensures k <= Settled(chunks)
  {
    assert chunks[..|chunks|] == chunks;
    if !Valid(Flatten(chunks)) {
      var front := chunks[..|chunks| - 1];
      assert chunks[..k] == front[..k];
      SettledIsLongest(front, k);
    }
  }

  /** How one more chunk changes the prefix: it takes in everything or stays. */
  lemma {:induction false} SettledUnfold(chunks: seq<seq<byte>>, chunk: seq<byte>)
    ensures Settled(chunks + [chunk]) == if Valid(Flatten(chunks + [chunk])) then |chunks| + 1 else Settled(chunks)
  {
    var all := chunks + [chunk];
    assert all[..|all| - 1] == chunks;
  }

  lemma {:induction false} ReceivedSnoc(chunks: seq<seq<byte>>, chunk: seq<byte>)
    ensures Flatten(chunks + [chunk]) == Flatten(chunks[..Settled(chunks)]) + (Unsettled(chunks) + chunk)
  {
    var k := Settled(chunks);
    FlattenSnoc(chunks, chunk);
    assert chunks == chunks[..k] + chunks[k..];
    FlattenAppend(chunks[..k], chunks[k..]);
    Associative(Flatten(chunks[..k]), Unsettled(chunks), chunk);
  }

  lemma {:induction false} SettledTakes(chunks: seq<seq<byte>>, chunk: seq<byte>)
    requires Valid(Unsettled(chunks) + chunk)
    ensures SettledText(chunks + [chunk]) == SettledText(chunks) + Decode(Unsettled(chunks) + chunk).value
    ensures Unsettled(chunks + [chunk]) == []
  {
    var all := chunks + [chunk];
    ReceivedSnoc(chunks, chunk);
    DecodeSplits(Flatten(chunks[..Settled(chunks)]), Unsettled(chunks) + chunk);
    SettledUnfold(chunks, chunk);
    assert all[..|all|] == all && all[|all|..] == [];
  }

  lemma SettledStays(chunks: seq<seq<byte>>, chunk: seq<byte>)
    requires !Valid(Unsettled(chunks) + chunk)
    ensures SettledText(chunks + [chunk]) == SettledText(chunks)
    ensures Unsettled(chunks + [chunk]) == Unsettled(chunks) + chunk
  {
    var k := Settled(chunks);
    ReceivedSnoc(chunks, chunk);
    DecodeSplits(Flatten(chunks[..k]), Unsettled(chunks) + chunk);
    SettledUnfold(chunks, chunk);
    assert (chunks + [chunk])[..k] == chunks[..k] && (chunks + [chunk])[k..] == chunks[k..] + [chunk];
    FlattenSnoc(chunks[k..], chunk);
  }

  lemma {:induction false} SettledSnoc(chunks: seq<seq<byte>>, chunk: seq<byte>)
    ensures Valid(Flatten(chunks + [chunk])) <==> Valid(Unsettled(chunks) + chunk)
    ensures Valid(Unsettled(chunks) + chunk) ==>
      && SettledText(chunks + [chunk]) == SettledText(chunks) + Decode(Unsettled(chunks) + chunk).value
      && Unsettled(chunks + [chunk]) == []
    ensures !Valid(Unsettled(chunks) + chunk) ==>
      && SettledText(chunks + [chunk]) == SettledText(chunks)
      && Unsettled(chunks + [chunk]) == Unsettled(chunks) + chunk
  {
    ReceivedSnoc(chunks, chunk);
    DecodeSplits(Flatten(chunks[..Settled(chunks)]), Unsettled(chunks) + chunk);
    if Valid(Unsettled(chunks) + chunk) { SettledTakes(chunks, chunk); } else { SettledStays(chunks, chunk); }
  }

  /** Received bytes = the encoding of the text taken so far + the bytes still undecoded. */
  lemma {:induction false} ReceivedBytes(chunks: seq<seq<byte>>)
    ensures Flatten(chunks) == Encode(SettledText(chunks)) + Unsettled(chunks)
  {
    var k := Settled(chunks);
    assert chunks == chunks[..k] + chunks[k..];
    FlattenAppend(chunks[..k], chunks[k..]);
    EncodeDecode(Flatten(chunks[..k]));
  }

  /** A valid stream settles completely, however it was divided into reads. */
  lemma {:induction false} ValidStreamSettles(chunks: seq<seq<byte>>)
    requires Valid(Flatten(chunks))
    ensures SettledText(chunks) == Decode(Flatten(chunks)).value
    ensures Final(chunks) == NonBlank(Split(Decode(Flatten(chunks)).value))
  {
    assert chunks[..|chunks|] == chunks;
  }

  // --- The connection ---

  /** The scan of `t` has passed `k` characters; the open line starts at character `start`. */
  ghost predicate Scanned(t: string, k: nat, start: nat, idx: nat, lastIndex: nat, lines: seq<string>) {
    && start <= k <= |t|
    && idx == ByteLen(t[..k]) && lastIndex == ByteLen(t[..start])
    && t[start..k] == Open(t[..k])
    && lines == NonBlank(Closed(t[..k]))
  }

  lemma ScanPlain(t: string, k: nat, start: nat, idx: nat, lastIndex: nat, lines: seq<string>)
    requires Scanned(t, k, start, idx, lastIndex, lines) && k < |t| && !IsBreak(t[k])
    ensures Scanned(t, k + 1, start, idx + |EncodeChar(t[k])|, lastIndex, lines)
  {
    assert t[..k + 1] == t[..k] + [t[k]];
    SplitSnoc(t[..k], t[k]);
    BoundaryAt(t, k);
    assert t[start..k + 1] == t[start..k] + [t[k]];
  }

  lemma ScanBreak(t: string, k: nat, start: nat, idx: nat, lastIndex: nat, lines: seq<string>)
    requires Scanned(t, k, start, idx, lastIndex, lines) && k < |t| && IsBreak(t[k])
    ensures var line := t[start..k];
      Scanned(t, k + 1, k + 1, idx + 1, idx + 1, if IsBlank(line) then lines else lines + [line])
    ensures |EncodeChar(t[k])| == 1
  {
    assert t[..k + 1] == t[..k] + [t[k]];
    SplitSnoc(t[..k], t[k]);
    BoundaryAt(t, k);
    SplitIsClosedOpen(t[..k]);
    NonBlankSnoc(Closed(t[..k]), t[start..k]);
  }

  lemma ScanDone(t: string, start: nat, idx: nat, lastIndex: nat, lines: seq<string>)
    requires Scanned(t, |t|, start, idx, lastIndex, lines)
    ensures t[..|t|] == t && idx == ByteLen(t)
    ensures lines == NonBlank(Closed(t)) && t[start..|t|] == Open(t)
  {
    assert t[..|t|] == t;
  }

  /** `&s[lo..hi]` between the offsets of characters `j` and `k`; the slice cannot panic. */
  method SliceOut(s: string, lo: nat, hi: nat, ghost j: nat, ghost k: nat) returns (piece: string)
    requires j <= k <= |s| && lo == ByteLen(s[..j]) && hi == ByteLen(s[..k])
    ensures piece == s[j..k]
  {
    SliceBetween(s, j, k, lo, hi);
    piece := Slice(s, lo, hi);
  }

  /** The branch of the scan for a line break at character `k`. */
  method TakeLine(t: string, ghost k: nat, ghost start: nat, idx: nat, lastIndex: nat, lines: seq<string>)
    returns (r: seq<string>)
    requires Scanned(t, k, start, idx, lastIndex, lines) && k < |t| && IsBreak(t[k])
    ensures Scanned(t, k + 1, k + 1, idx + 1, idx + 1, r) && |EncodeChar(t[k])| == 1
  {
    ScanBreak(t, k, start, idx, lastIndex, lines);
    var line := SliceOut(t, lastIndex, idx, start, k);
    r := if IsBlank(line) then lines else lines + [line];
  }

  /** The `char_indices` loop: byte offsets, every slice checked against character boundaries. */
  method SplitOff(incomplete: string) returns (lines: seq<string>, rest: string)
    ensures lines == NonBlank(Closed(incomplete))
    ensures rest == Open(incomplete)
  {
    var lastIndex: nat, idx: nat := 0, 0;
    ghost var start: nat := 0;
    lines := [];
    for k := 0 to |incomplete|
      invariant Scanned(incomplete, k, start, idx, lastIndex, lines)
    {
      var c := incomplete[k];
      if IsBreak(c) {
        lines := TakeLine(incomplete, k, start, idx, lastIndex, lines);
        lastIndex := idx + 1;
        start := k + 1;
      } else {
        ScanPlain(incomplete, k, start, idx, lastIndex, lines);
      }
      idx := idx + |EncodeChar(c)|;
    }
    ScanDone(incomplete, start, idx, lastIndex, lines);
    rest := SliceOut(incomplete, lastIndex, ByteLen(incomplete), start, |incomplete|);
  }

  /** The local variables of the handler, and every line passed to `log::info!`. */
  class LogConnection {
    var buffer: seq<byte>
    var incomplete: string
    var logged: seq<string>
    ghost var received: seq<seq<byte>>

    /** The state between two reads is a function of the chunks received so far. */
    ghost predicate Streaming()
      reads this
    {
      && buffer == Unsettled(received)
      && incomplete == Open(SettledText(received))
      && logged == Streamed(received)
    }

    constructor ()
      ensures Streaming() && received == []
    {
      buffer, incomplete, logged, received := [], [], [], [];
      new;
      assert received[..0] == [];
    }

    /** The `Ok(n)` arm. */
    method Receive(chunk: seq<byte>)
      requires Streaming()
      modifies this
      ensures Streaming() && received == old(received) + [chunk]
    {
      SettledSnoc(received, chunk);
      ghost var text := SettledText(received);
      buffer := buffer + chunk;
      var message := Decode(buffer);
      received := received + [chunk];
      if message.Some? {
        SplitContinues(text, message.value);
        NonBlankAppend(Closed(text), Closed(Open(text) + message.value));
        var lines, rest := SplitOff(incomplete + message.value);
        logged := logged + lines;
        incomplete := rest;
        buffer := [];
      }
    }

    /** After the loop: the last, unterminated line. */
    method Close()
      requires Streaming()
      modifies this`logged
      ensures logged == Final(received)
    {
      ghost var text := SettledText(received);
      SplitIsClosedOpen(text);
      NonBlankSnoc(Closed(text), Open(text));
      if !IsBlank(incomplete) {
        logged := logged + [incomplete];
      }
    }
  }

  method HandleConnection(events: seq<Read>) returns (lines: seq<string>)
    ensures lines == Final(Chunks(events))
  {
    ghost var chunks := Chunks(events);
    var connection := new LogConnection();
    var i := 0;
    ChunksAt(events, 0);
    while i < |events| && events[i].Data?
      invariant 0 <= i <= |chunks| <= |events|
      invariant connection.Streaming() && connection.received == chunks[..i]
    {
      ChunksAt(events, i);
      TakeNext(chunks, i);
      connection.Receive(events[i].bytes);
      i := i + 1;
    }
    ChunksAt(events, i);
    assert i == |chunks| && chunks[..i] == chunks;
    connection.Close();
    lines := connection.logged;
  }

  // --- What holds while bytes still arrive ---

  lemma SettledGrows(chunks: seq<seq<byte>>, more: seq<seq<byte>>)
    ensures SettledText(chunks) <= SettledText(chunks + more)
    decreases |more|
  {
    if more == [] {
      assert chunks + more == chunks;
    } else {
      var front, last := more[..|more| - 1], more[|more| - 1];
      SettledGrows(chunks, front);
      assert chunks + more == (chunks + front) + [last];
      SettledSnoc(chunks + front, last);
    }
  }

  /** Whatever arrives later, the lines already logged stay a prefix of what is logged in the end. */
  lemma StreamedIsPrefix(chunks: seq<seq<byte>>, more: seq<seq<byte>>)
    ensures Streamed(chunks) <= Streamed(chunks + more) <= Final(chunks + more)
  {
    SettledGrows(chunks, more);
    var s, all := SettledText(chunks), SettledText(chunks + more);
    var t := all[|s|..];
    assert all == s + t;
    SplitContinues(s, t);
    NonBlankAppend(Closed(s), Closed(Open(s) + t));
    SplitIsClosedOpen(all);
    NonBlankSnoc(Closed(all), Open(all));
  }

  // --- When nothing more can be logged ---

  lemma {:induction false} NeverValid(u: seq<byte>, a: seq<byte>, b: seq<byte>)
    requires !Extendable(u)
    ensures !Valid((u + a) + b) && (u + a) + b == u + (a + b)
  {
    Associative(u, a, b);
    if Valid(u + (a + b)) { ExtendableIfValid(u, a + b); }
  }

  /** Of what has arrived since, nothing has been taken. */
  predicate HeldUp(chunks: seq<seq<byte>>, more: seq<seq<byte>>) {
    && SettledText(chunks + more) == SettledText(chunks)
    && Unsettled(chunks + more) == Unsettled(chunks) + Flatten(more)
  }

  lemma {:induction false} HeldUpSnoc(chunks: seq<seq<byte>>, more: seq<seq<byte>>, last: seq<byte>)
    requires !Extendable(Unsettled(chunks)) && HeldUp(chunks, more)
    ensures HeldUp(chunks, more + [last])
  {
    NeverValid(Unsettled(chunks), Flatten(more), last);
    SettledStays(chunks + more, last);
    Associative(chunks, more, [last]);
    FlattenSnoc(more, last);
  }

  /** Bytes that cannot become valid hold up everything behind them. */
  lemma {:induction false} Stuck(chunks: seq<seq<byte>>, more: seq<seq<byte>>)
    requires !Extendable(Unsettled(chunks))
    ensures HeldUp(chunks, more)
    decreases |more|
  {
    if more == [] {
      assert chunks + more == chunks && Unsettled(chunks) + Flatten(more) == Unsettled(chunks);
    } else {
      var front, last := more[..|more| - 1], more[|more| - 1];
      assert more == front + [last];
      Stuck(chunks, front);
      HeldUpSnoc(chunks, front, last);
    }
  }

  /** The end of the open line and another one of one letter. */
  function NextLine(letter: char): string { "\n" + [letter] }

  lemma {:induction false} SplitNextLine(t: string, letter: char)
    requires 'A' <= letter <= 'Z'
    ensures Split(t + NextLine(letter)) == Split(t) + [[letter]]
  {
    Associative(t, "\n", [letter]);
    SplitSnoc(t, '\n');
    SplitSnoc(t + "\n", letter);
    SplitIsClosedOpen((t + "\n") + [letter]);
    assert Open((t + "\n") + [letter]) == [letter];
  }

  lemma {:induction false} LastPiece(t: string, letter: char)
    requires 'A' <= letter <= 'Z'
    ensures NonBlank(Split(t + NextLine(letter))) == NonBlank(Split(t)) + [[letter]]
  {
    SplitNextLine(t, letter);
    assert [letter][0] in [letter] && !IsWhitespace(letter);
    NonBlankSnoc(Split(t), [letter]);
  }

  /** Behind a settled stream that line is the last one logged. */
  lemma LastLine(chunks: seq<seq<byte>>, letter: char)
    requires Unsettled(chunks) == [] && 'A' <= letter <= 'Z'
    ensures Final(chunks + [Encode(NextLine(letter))]) == Final(chunks) + [[letter]]
  {
    var b := Encode(NextLine(letter));
    DecodeEncode(NextLine(letter));
    assert Unsettled(chunks) + b == b;
    SettledTakes(chunks, b);
    LastPiece(SettledText(chunks), letter);
  }

  /** What can be completed can be completed so that the last line logged is this letter. */
  lemma Completed(chunks: seq<seq<byte>>, letter: char) returns (more: seq<seq<byte>>)
    requires Extendable(Unsettled(chunks)) && 'A' <= letter <= 'Z'
    ensures var lines := Final(chunks + more); lines != [] && lines[|lines| - 1] == [letter]
  {
    var m := ValidIfExtendable(Unsettled(chunks));
    SettledTakes(chunks, m);
    LastLine(chunks + [m], letter);
    more := [m] + [Encode(NextLine(letter))];
    Associative(chunks, [m], [Encode(NextLine(letter))]);
  }

  lemma Moves(chunks: seq<seq<byte>>) returns (more: seq<seq<byte>>)
    requires Extendable(Unsettled(chunks))
    ensures Final(chunks + more) != Final(chunks)
  {
    more := Completed(chunks, 'A');
    if Final(chunks + more) == Final(chunks) { more := Completed(chunks, 'B'); }
  }

  /**
    A connection is silent for good, whatever is received later, exactly if the undecoded bytes are not
    well-formed sequences with at most the beginning of one more behind them: neither the text taken nor
    the lines logged in the end can change.
   */
  lemma SilentExactly(chunks: seq<seq<byte>>)
    ensures (forall more :: Final(chunks + more) == Final(chunks)) <==> !Extendable(Unsettled(chunks))
    ensures (forall more :: SettledText(chunks + more) == SettledText(chunks)) <==> !Extendable(Unsettled(chunks))
  {
    if Extendable(Unsettled(chunks)) {
      var more := Moves(chunks);
    } else {
      forall more ensures SettledText(chunks + more) == SettledText(chunks) && Final(chunks + more) == Final(chunks) {
        Stuck(chunks, more);
      }
    }
  }

  /** In particular after a byte that UTF-8 never uses. */
  lemma Silenced(chunks: seq<seq<byte>>, bad: seq<byte>, x: byte, more: seq<seq<byte>>)
    requires x in bad && NeverUsed(x)
    ensures var all := chunks + [bad] + more;
      && SettledText(all) == SettledText(chunks) && x in Unsettled(all)
      && Streamed(all) == Streamed(chunks) && Final(all) == Final(chunks)
  {
    var b := Unsettled(chunks) + bad;
    assert x in b;
    if Extendable(b) {
      var rest := ValidIfExtendable(b);
      NotValidWith(b + rest, x);
    }
    NotValidWith(b, x);
    SettledSnoc(chunks, bad);
    Stuck(chunks + [bad], more);
  }

  lemma NotValidWith(b: seq<byte>, x: byte)
    requires x in b && NeverUsed(x)
    ensures !Valid(b)
  {
    var i :| 0 <= i < |b| && b[i] == x;
    if Valid(b) { ValidBytes(b, i); }
  }
}
