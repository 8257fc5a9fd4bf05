/** The log pipeline end to end: what the host logs against what the VM agent recorded. */
module LogPipeline {
  import opened Prelude
  import opened Utf8
  import opened Strings
  import opened Lines
  import opened LogListener
  import VmLogger

  function LinesOf(rs: seq<VmLogger.Record>): seq<string> {
    if rs == [] then [] else LinesOf(rs[..|rs| - 1]) + [rs[|rs| - 1].Line()]
  }

  /** No record contains a line break. */
  predicate OneLineEach(rs: seq<VmLogger.Record>) { forall r | r in rs :: BreakFree(r.args) }

  lemma LineProperties(r: VmLogger.Record)
    requires BreakFree(r.args)
    ensures BreakFree(r.Line()) && !IsBlank(r.Line())
  {
    assert BreakFree(r.level.Name()) && BreakFree(" - ");
    assert r.Line()[0] == r.level.Name()[0] && r.Line()[0] in r.Line();
  }

  /** Splitting the written messages gives back their lines, with nothing left open. */
  lemma {:induction false} SplitMessages(rs: seq<VmLogger.Record>)
    requires OneLineEach(rs)
    ensures Closed(VmLogger.Messages(rs)) == LinesOf(rs) && Open(VmLogger.Messages(rs)) == []
    ensures NonBlank(LinesOf(rs)) == LinesOf(rs)
  {
    if rs != [] {
      var front, r := rs[..|rs| - 1], rs[|rs| - 1];
      SplitMessages(front);
      LineProperties(r);
      SplitBreakFree(r.Line());
      SplitSnoc(r.Line(), '\n');
      SplitContinues(VmLogger.Messages(front), r.Message());
      assert [] + r.Message() == r.Message();
      NonBlankSnoc(LinesOf(front), r.Line());
    }
  }

  /** A prefix of the bytes decodes to a prefix of the text. */
  lemma {:induction false} EncodedPrefix(s: string, t: string)
    requires Encode(s) <= Encode(t)
    ensures s <= t
  {
    var rest := Encode(t)[|Encode(s)|..];
    assert Encode(t) == Encode(s) + rest;
    DecodeAfterEncoded(s, rest);
    DecodeEncode(t);
  }

  lemma NonBlankClosedPrefix(s: string, t: string)
    requires s <= t
    ensures NonBlank(Closed(s)) <= NonBlank(Closed(t))
  {
    assert t == s + t[|s|..];
    SplitContinues(s, t[|s|..]);
    NonBlankAppend(Closed(s), Closed(Open(s) + t[|s|..]));
  }

  lemma {:induction false} SettledIsWritten(chunks: seq<seq<byte>>, text: string)
    requires Flatten(chunks) <= Encode(text)
    ensures SettledText(chunks) <= text
    ensures Flatten(chunks) == Encode(text) ==> SettledText(chunks) == text
  {
    ReceivedBytes(chunks);
    EncodedPrefix(SettledText(chunks), text);
    if Flatten(chunks) == Encode(text) {
      DecodeEncode(text);
      ValidStreamSettles(chunks);
    }
  }

  /**
    For every run of the VM logger, every cut of the bytes it wrote and every division of them into
    reads: what the host has logged is a prefix of the records written, each intact and in order; once
    all written bytes have arrived it is exactly those records.  The records written are the first
    ones of those that found room in the queue.
   */
  lemma {:induction false} EndToEnd(filter: nat, steps: seq<VmLogger.Step>, chunks: seq<seq<byte>>)
    requires VmLogger.Feasible(VmLogger.Init(filter), steps)
    requires VmLogger.AllWritesSucceed(VmLogger.Init(filter), steps)
    requires Flatten(chunks) <= VmLogger.Run(VmLogger.Init(filter), steps).wire
    requires OneLineEach(VmLogger.Run(VmLogger.Init(filter), steps).written)
    ensures var s := VmLogger.Run(VmLogger.Init(filter), steps);
      && Streamed(chunks) <= LinesOf(s.written)
      && (Flatten(chunks) == s.wire ==> Final(chunks) == LinesOf(s.written))
      && s.written <= VmLogger.Accepted(s.offers)
  {
    var s := VmLogger.Run(VmLogger.Init(filter), steps);
    VmLogger.AlwaysConserved(filter, steps);
    VmLogger.WireRun(VmLogger.Init(filter), steps);
    var text := VmLogger.Messages(s.written);
    SplitMessages(s.written);
    SettledIsWritten(chunks, text);
    NonBlankClosedPrefix(SettledText(chunks), text);
    SplitIsClosedOpen(text);
    NonBlankSnoc(Closed(text), Open(text));
  }
}
