/**
  What happens when a chunk boundary does fall inside a character of a command: the VM agent, which
  decodes each chunk by itself, parses and runs a different command.
 */
module SplitCharacters {
  import opened Prelude
  import opened Utf8
  import opened Lossy
  import opened Json
  import opened JsonPrefix
  import opened JsonPrint
  import opened VsockMessages
  import Agent = AgentConnection
  import VsockFraming

  // --- Lossy decoding around the cut ---

  lemma {:induction false} LossyAfterEncoded(s: string, q: seq<byte>)
    ensures LossyDecode(Encode(s) + q) == s + LossyDecode(q)
  {
    if s == [] {
      assert Encode(s) + q == q;
    } else {
      var rest := Encode(s[1..]) + q;
      assert Encode(s) + q == EncodeChar(s[0]) + rest;
      LossyStep(s[0], rest);
      LossyAfterEncoded(s[1..], q);
      PutBack(s, LossyDecode(q));
    }
  }

  lemma PutBack(s: string, t: string)
    requires s != []
    ensures [s[0]] + (s[1..] + t) == s + t
  {
  }

  // --- The place of the command text in the message ---

  function EscapedAll(s: string): string { if s == [] then "" else Escaped(s[0]) + EscapedAll(s[1..]) }

  lemma {:induction false} PrintTailSplits(s: string, t: string)
    ensures PrintTail(s + t) == EscapedAll(s) + PrintTail(t)
  {
    if s == [] {
      assert s + t == t;
    } else {
      assert (s + t)[1..] == s[1..] + t;
      PrintTailSplits(s[1..], t);
    }
  }

  lemma {:induction false} PlainText(s: string)
    requires forall i | 0 <= i < |s| :: s[i] >= 0x80 as char
    ensures EscapedAll(s) == s
  {
    if s != [] { PlainText(s[1..]); }
  }

  /** What is printed before the value of a member. */
  function Lead(before: seq<Member>, key: string, first: bool): string {
    if before == [] then Comma(first) + (PrintString(key) + ":")
    else Comma(first) + (PrintString(before[0].key) + (":" + (Print(before[0].value) + Lead(before[1..], key, false))))
  }

  lemma {:induction false} PrintedAround(before: seq<Member>, m: Member, behind: seq<Member>, first: bool)
    ensures PrintMembers(before + ([m] + behind), first) ==
      Lead(before, m.key, first) + (Print(m.value) + PrintMembers(behind, false))
  {
    var ms := before + ([m] + behind);
    var r := Print(m.value) + PrintMembers(behind, false);
    if before == [] {
      assert ms == [m] + behind && ms[1..] == behind;
      assert PrintString(m.key) + (":" + r) == (PrintString(m.key) + ":") + r;
      assert Comma(first) + ((PrintString(m.key) + ":") + r) == Comma(first) + (PrintString(m.key) + ":") + r;
    } else {
      assert ms[0] == before[0] && ms[1..] == before[1..] + ([m] + behind);
      PrintedAround(before[1..], m, behind, false);
      Regroup(Comma(first), PrintString(before[0].key), Print(before[0].value), Lead(before[1..], m.key, false), r);
    }
  }

  /** The text of an object around the value of a string member. */
  lemma {:induction false} ObjectAround(before: seq<Member>, key: string, behind: seq<Member>, s: string, u: string,
                                        t: string)
    requires forall i | 0 <= i < |u| :: u[i] >= 0x80 as char
    ensures Print(Obj(before + ([Member(key, Str(s + (u + t)))] + behind))) ==
      (("{" + Lead(before, key, true) + "\"") + EscapedAll(s)) +
        (u + (EscapedAll(t) + ("\"" + PrintMembers(behind, false))))
  {
    PrintedAround(before, Member(key, Str(s + (u + t))), behind, true);
    PrintTailSplits(s, u + t);
    PrintTailSplits(u, t);
    PlainText(u);
    assert t + "" == t;
    PrintTailSplits(t, "");
    RegroupText("{", Lead(before, key, true), EscapedAll(s), u, EscapedAll(t), PrintMembers(behind, false));
  }

  /** The text of a command message around its command line. */
  function Prefix(c: VmCommand): string { "{" + Lead(CommandMembers(c)[..2], "command", true) + "\"" }
  function Suffix(c: VmCommand): string { "\"" + PrintMembers(CommandMembers(c)[3..], false) }

  lemma {:induction false} MessageAround(c: VmCommand, s: string, u: string, t: string)
    requires forall i | 0 <= i < |u| :: u[i] >= 0x80 as char
    ensures var d := c.(command := s + (u + t));
      PrintRequest(Command(d), []) == (Prefix(c) + EscapedAll(s)) + (u + (EscapedAll(t) + Suffix(c)))
  {
    var line := s + (u + t);
    MembersAround(c, line);
    ObjectAround(CommandMembers(c)[..2], "command", CommandMembers(c)[3..], s, u, t);
  }

  lemma MembersAround(c: VmCommand, line: string)
    ensures CommandMembers(c.(command := line)) ==
      CommandMembers(c)[..2] + ([Member("command", Str(line))] + CommandMembers(c)[3..])
  {
  }

  lemma RegroupText(a: string, l: string, s: string, u: string, t: string, rest: string)
    ensures a + (l + (("\"" + (s + (u + (t + "\"")))) + rest)) == ((a + l + "\"") + s) + (u + (t + ("\"" + rest)))
  {
  }

  // --- The result ---

  /** The bytes of a message, cut inside character `ch`. */
  function Head(a: string, ch: char, k: nat): seq<byte>
    requires k <= |EncodeChar(ch)|
  {
    Encode(a) + EncodeChar(ch)[..k]
  }

  function Tail(ch: char, k: nat, b: string): seq<byte>
    requires k <= |EncodeChar(ch)|
  {
    EncodeChar(ch)[k..] + Encode(b)
  }

  lemma {:induction false} CutBytes(a: string, ch: char, k: nat, b: string)
    requires k <= |EncodeChar(ch)|
    ensures Head(a, ch, k) + Tail(ch, k, b) == Encode(a + ([ch] + b))
  {
    var e := EncodeChar(ch);
    EncodeAppend(a, [ch] + b);
    assert ([ch] + b)[1..] == b;
    assert e == e[..k] + e[k..];
    Associative(e[..k], e[k..], Encode(b));
    Associative(Encode(a), e[..k], e[k..] + Encode(b));
  }

  lemma CutHead(a: string, ch: char, k: nat)
    requires 0 < k < |EncodeChar(ch)|
    ensures LossyDecode(Head(a, ch, k)) == a + [REPLACEMENT]
  {
    LossyAfterEncoded(a, EncodeChar(ch)[..k]);
    LossyHead(ch, k);
  }

  lemma {:induction false} CutTail(ch: char, k: nat, b: string)
    requires 0 < k < |EncodeChar(ch)|
    ensures LossyDecode(Tail(ch, k, b)) == Replacements(|EncodeChar(ch)| - k) + b
  {
    var x := EncodeChar(ch)[k..];
    forall i | 0 <= i < |x| ensures IsContinuation(x[i]) { ContinuationBytes(ch, k + i); }
    LossyTail(x, Encode(b));
    LossyAfterEncoded(b, []);
    assert Encode(b) + [] == Encode(b) && b + "" == b;
  }

  /** The text that two chunks around a cut are decoded to. */
  lemma {:induction false} CutText(a: string, ch: char, k: nat, b: string)
    requires 0 < k < |EncodeChar(ch)|
    ensures LossyDecode(Head(a, ch, k)) + LossyDecode(Tail(ch, k, b)) ==
      a + (Replacements(1 + |EncodeChar(ch)| - k) + b)
    ensures LossyDecode(Tail(ch, k, b)) != ""
  {
    var n := |EncodeChar(ch)| - k;
    CutHead(a, ch, k);
    CutTail(ch, k, b);
    Associative([REPLACEMENT], Replacements(n), b);
    Associative(a, [REPLACEMENT], Replacements(n) + b);
  }

  /** A message in two chunks. */
  lemma {:induction false} TwoChunks(first: seq<byte>, last: seq<byte>, text: string, r: VsockRequest)
    requires LossyDecode(first) + LossyDecode(last) == text && LossyDecode(last) != ""
    requires Exact(text) && ParseRequest(text) == Some(r)
    ensures Agent.Session("", [Agent.Chunk(first), Agent.Chunk(last)]) == [Agent.Answer(r)]
  {
    var events := [Agent.Chunk(first), Agent.Chunk(last)];
    VsockFraming.NeverEarly(LossyDecode(first), LossyDecode(last));
    assert "" + LossyDecode(first) == LossyDecode(first) && events[1..] == [Agent.Chunk(last)];
  }

  lemma {:induction false} CutDispatches(a: string, ch: char, k: nat, b: string, n: nat, r: VsockRequest)
    requires 0 < k < |EncodeChar(ch)| && n == 1 + |EncodeChar(ch)| - k
    requires Exact(a + (Replacements(n) + b)) && ParseRequest(a + (Replacements(n) + b)) == Some(r)
    ensures Agent.Session("", [Agent.Chunk(Head(a, ch, k)), Agent.Chunk(Tail(ch, k, b))]) == [Agent.Answer(r)]
  {
    CutText(a, ch, k, b);
    TwoChunks(Head(a, ch, k), Tail(ch, k, b), a + (Replacements(n) + b), r);
  }

  lemma {:induction false} OtherDispatches(c: VmCommand, s: string, ch: char, t: string, k: nat, n: nat)
    requires 0 < k < |EncodeChar(ch)| && n == 1 + |EncodeChar(ch)| - k
    requires c.timeoutSeconds.Some? ==> c.timeoutSeconds.value < U64
    ensures var first, last := Head(Prefix(c) + EscapedAll(s), ch, k), Tail(ch, k, EscapedAll(t) + Suffix(c));
      Agent.Session("", [Agent.Chunk(first), Agent.Chunk(last)]) ==
        [Agent.Answer(Command(c.(command := s + (Replacements(n) + t))))]
  {
    OtherMessage(c, s, n, t);
    CutDispatches(Prefix(c) + EscapedAll(s), ch, k, EscapedAll(t) + Suffix(c), n,
                  Command(c.(command := s + (Replacements(n) + t))));
  }

  /**
    For every command line, every non-ASCII character in it and every cut `k` bytes into that character: the
    agent takes the message whole, but with replacement characters in the character's place, and answers that.
   */
  lemma {:induction false} SplitCharacterChangesCommand(c: VmCommand, s: string, ch: char, t: string, k: nat)
    requires c.command == s + ([ch] + t) && 0 < k < |EncodeChar(ch)|
    requires c.timeoutSeconds.Some? ==> c.timeoutSeconds.value < U64
    ensures var first, last := Head(Prefix(c) + EscapedAll(s), ch, k), Tail(ch, k, EscapedAll(t) + Suffix(c));
      && first + last == Encode(PrintRequest(Command(c), []))
      && Agent.Session("", [Agent.Chunk(first), Agent.Chunk(last)]) ==
         [Agent.Answer(Command(c.(command := s + (Replacements(1 + |EncodeChar(ch)| - k) + t))))]
  {
    CutMessage(c, s, ch, t, k);
    OtherDispatches(c, s, ch, t, k, 1 + |EncodeChar(ch)| - k);
  }

  lemma {:induction false} CutMessage(c: VmCommand, s: string, ch: char, t: string, k: nat)
    requires c.command == s + ([ch] + t) && 0 < k < |EncodeChar(ch)|
    ensures Head(Prefix(c) + EscapedAll(s), ch, k) + Tail(ch, k, EscapedAll(t) + Suffix(c)) ==
      Encode(PrintRequest(Command(c), []))
  {
    MessageAround(c, s, [ch], t);
    assert c.(command := c.command) == c;
    CutBytes(Prefix(c) + EscapedAll(s), ch, k, EscapedAll(t) + Suffix(c));
  }

  /** The message with replacement characters is the message of the other command. */
  lemma {:induction false} OtherMessage(c: VmCommand, s: string, n: nat, t: string)
    requires c.timeoutSeconds.Some? ==> c.timeoutSeconds.value < U64
    ensures var text := (Prefix(c) + EscapedAll(s)) + (Replacements(n) + (EscapedAll(t) + Suffix(c)));
      Exact(text) && ParseRequest(text) == Some(Command(c.(command := s + (Replacements(n) + t))))
  {
    MessageAround(c, s, Replacements(n), t);
    RequestRoundTrip(Command(c.(command := s + (Replacements(n) + t))), []);
  }
}
