/**
  `String::from_utf8_lossy` on a stream that arrives in chunks: decoding each chunk on its own gives
  the text that was sent exactly when no chunk boundary falls inside a character.
 */
module Lossy {
  import opened Prelude
  import opened Utf8

  const REPLACEMENT: char := '\U{FFFD}'

  function Replacements(n: nat): (r: string)
    ensures |r| == n && forall i | 0 <= i < n :: r[i] >= 0x80 as char
  {
    if n == 0 then "" else [REPLACEMENT] + Replacements(n - 1)
  }

  lemma {:induction false} ReplacementsAppend(m: nat, n: nat)
    ensures Replacements(m + n) == Replacements(m) + Replacements(n)
  {
    if m > 0 { ReplacementsAppend(m - 1, n); }
  }

  /** How many bytes of an ill-formed sequence one replacement character stands for (its maximal subpart). */
  function BadLength(b: seq<byte>): (n: nat)
    requires b != [] && !WellFormed(b)
    ensures 1 <= n <= |b| && forall i | 1 <= i < n :: IsContinuation(b[i])
  {
    if Width(b[0]) == 0 || |b| < 2 || !SecondOk(b[0], b[1]) then 1
    else if |b| < 3 || !IsContinuation(b[2]) then 2
    else 3
  }

  function LossyDecode(b: seq<byte>): string
    decreases |b|
  {
    if b == [] then ""
    else if WellFormed(b) then [DecodeScalar(b) as char] + LossyDecode(b[Width(b[0])..])
    else [REPLACEMENT] + LossyDecode(b[BadLength(b)..])
  }

  /** The text accumulated from chunks decoded one by one. */
  function LossyText(chunks: seq<seq<byte>>): string {
    if chunks == [] then "" else LossyText(chunks[..|chunks| - 1]) + LossyDecode(chunks[|chunks| - 1])
  }

  lemma {:induction false} LossyOfValid(b: seq<byte>)
    requires Valid(b)
    ensures LossyDecode(b) == Decode(b).value
    decreases |b|
  {
    if b != [] { LossyOfValid(b[Width(b[0])..]); }
  }

  lemma {:induction false} LossySnoc(chunks: seq<seq<byte>>, c: seq<byte>)
    ensures LossyText(chunks + [c]) == LossyText(chunks) + LossyDecode(c)
  {
    assert (chunks + [c])[..|chunks|] == chunks;
  }

  lemma {:induction false} LossyTextAppend(a: seq<seq<byte>>, b: seq<seq<byte>>)
    ensures LossyText(a + b) == LossyText(a) + LossyText(b)
    decreases |b|
  {
    if b == [] {
      assert a + b == a;
    } else {
      var front, last := b[..|b| - 1], b[|b| - 1];
      LossyTextAppend(a, front);
      assert b == front + [last];
      Associative(a, front, [last]);
      LossySnoc(a + front, last);
      LossySnoc(front, last);
      Associative(LossyText(a), LossyText(front), LossyDecode(last));
    }
  }

  /** `LossyText` read from the front. */
  lemma {:induction false} LossyCons(c: seq<byte>, chunks: seq<seq<byte>>)
    ensures LossyText([c] + chunks) == LossyDecode(c) + LossyText(chunks)
  {
    LossyTextAppend([c], chunks);
    assert [c][..0] == [] && LossyText([c]) == LossyDecode(c);
  }

  // --- Decoding the parts of a character ---

  lemma {:induction false} LossyStep(c: char, rest: seq<byte>)
    ensures LossyDecode(EncodeChar(c) + rest) == [c] + LossyDecode(rest)
    ensures Valid(EncodeChar(c) + rest) <==> Valid(rest)
  {
    var e := EncodeChar(c);
    DecodeEncodedChar(c, rest);
    assert (e + rest)[|e|..] == rest;
  }

  /** The bytes of a character up to a cut are one incomplete sequence. */
  lemma LossyHead(c: char, k: nat)
    requires 0 < k < |EncodeChar(c)|
    ensures LossyDecode(EncodeChar(c)[..k]) == [REPLACEMENT] && !Valid(EncodeChar(c)[..k])
  {
    var e := EncodeChar(c);
    var b := e[..k];
    DecodeEncodedScalar(c as int, []);
    assert e + [] == e;
    assert b[0] == e[0] && (k > 1 ==> b[1] == e[1]) && (k > 2 ==> b[2] == e[2]);
    assert !WellFormed(b) && BadLength(b) == k;
    assert b[k..] == [];
  }

  lemma ContinuationBytes(c: char, i: nat)
    requires 0 < i < |EncodeChar(c)|
    ensures IsContinuation(EncodeChar(c)[i])
  {
  }

  predicate Continues(b: seq<byte>) { forall i | 0 <= i < |b| :: IsContinuation(b[i]) }

  lemma {:induction false} LossyContinuation(b: seq<byte>)
    requires b != [] && IsContinuation(b[0])
    ensures LossyDecode(b) == [REPLACEMENT] + LossyDecode(b[1..])
  {
  }

  /** Each byte behind the cut stands for itself. */
  lemma {:induction false} LossyTail(x: seq<byte>, q: seq<byte>)
    requires Continues(x)
    ensures LossyDecode(x + q) == Replacements(|x|) + LossyDecode(q)
  {
    if x == [] {
      assert x + q == q;
    } else {
      assert (x + q)[1..] == x[1..] + q;
      LossyContinuation(x + q);
      LossyTail(x[1..], q);
      Associative([REPLACEMENT], Replacements(|x[1..]|), LossyDecode(q));
    }
  }

  // --- What becomes of each character ---

  /** A character, shown as it is or, with `n` above 0, as a run of `n` replacement characters. */
  datatype Cell = Cell(c: char, n: nat)

  predicate Wf(x: seq<Cell>) {
    forall i | 0 <= i < |x| :: x[i].n == 0 || (x[i].n >= 2 && x[i].c >= 0x80 as char)
  }

  function Plain(x: seq<Cell>): (s: string)
    ensures |s| == |x| && forall i | 0 <= i < |x| :: s[i] == x[i].c
  {
    seq(|x|, i requires 0 <= i < |x| => x[i].c)
  }

  function One(c: Cell): string { if c.n == 0 then [c.c] else Replacements(c.n) }

  function Shown(x: seq<Cell>): string { if x == [] then "" else One(x[0]) + Shown(x[1..]) }

  /** How many characters longer the text is shown. */
  function Extra(x: seq<Cell>): nat {
    if x == [] then 0 else (if x[0].n == 0 then 0 else x[0].n - 1) + Extra(x[1..])
  }

  lemma {:induction false} ShownLength(x: seq<Cell>)
    requires Wf(x)
    ensures |Shown(x)| == |Plain(x)| + Extra(x)
    ensures Extra(x) == 0 ==> Shown(x) == Plain(x)
  {
    if x != [] {
      ShownLength(x[1..]);
      assert Plain(x) == [x[0].c] + Plain(x[1..]);
    }
  }

  lemma ConsPlain(c: Cell, more: seq<Cell>)
    ensures Plain([c] + more) == [c.c] + Plain(more)
  {
  }

  lemma {:induction false} ConsCell(c: Cell, more: seq<Cell>)
    requires Wf(more) && (c.n == 0 || (c.n >= 2 && c.c >= 0x80 as char))
    ensures var v := [c] + more;
      && Wf(v) && Plain(v) == [c.c] + Plain(more) && Shown(v) == One(c) + Shown(more)
      && Extra(v) == (if c.n == 0 then 0 else c.n - 1) + Extra(more)
  {
    ConsPlain(c, more);
    assert ([c] + more)[1..] == more;
  }

  /** Two ways of cutting the same sequence. */
  lemma {:induction false} PrefixOf<T>(a: seq<T>, b: seq<T>, c: seq<T>, d: seq<T>)
    requires a + b == c + d && |a| <= |c|
    ensures a == c[..|a|] && b == c[|a|..] + d
  {
    assert a == (a + b)[..|a|] && b == (a + b)[|a|..];
    assert (c + d)[..|a|] == c[..|a|] && (c + d)[|a|..] == c[|a|..] + d;
  }

  /** A first chunk of continuation bytes only. */
  lemma {:induction false} AllContinue(c: seq<byte>, rest: seq<seq<byte>>, n: nat, more: seq<seq<byte>>)
    requires Continues(c) && LossyText(rest) == Replacements(n) + LossyText(more)
    ensures LossyText([c] + rest) == Replacements(|c| + n) + LossyText(more)
  {
    LossyCons(c, rest);
    LossyTail(c, []);
    assert c + [] == c && Replacements(|c|) + "" == Replacements(|c|);
    ReplacementsAppend(|c|, n);
    Associative(Replacements(|c|), Replacements(n), LossyText(more));
  }

  /** A first chunk that goes on behind the continuation bytes `b`. */
  lemma {:induction false} SomeContinue(b: seq<byte>, d: seq<byte>, rest: seq<seq<byte>>)
    requires Continues(b)
    ensures LossyText([b + d] + rest) == Replacements(|b|) + LossyText([d] + rest)
  {
    LossyTail(b, d);
    LossyCons(b + d, rest);
    LossyCons(d, rest);
    Associative(Replacements(|b|), LossyDecode(d), LossyText(rest));
  }

  /** What follows continuation bytes, wherever the chunks were cut; each of the bytes was replaced. */
  lemma {:induction false} PastContinuation(b: seq<byte>, t: seq<byte>, chunks: seq<seq<byte>>)
    returns (more: seq<seq<byte>>)
    requires Continues(b) && Flatten(chunks) == b + t
    ensures Flatten(more) == t && LossyText(chunks) == Replacements(|b|) + LossyText(more)
    decreases |chunks|
  {
    if chunks == [] {
      more := [];
    } else {
      var c, rest := chunks[0], chunks[1..];
      assert chunks == [c] + rest;
      FlattenCons(c, rest);
      if |c| <= |b| {
        PrefixOf(c, Flatten(rest), b, t);
        more := PastContinuation(b[|c|..], t, rest);
        AllContinue(c, rest, |b| - |c|, more);
      } else {
        PrefixOf(b, t, c, Flatten(rest));
        var d := c[|b|..];
        assert c == b + d;
        SomeContinue(b, d, rest);
        more := [d] + rest;
        FlattenCons(d, rest);
      }
    }
  }

  /** A first chunk that begins with a whole character. */
  lemma {:induction false} WholeCharacter(ch: char, t: seq<byte>, c: seq<byte>, rest: seq<seq<byte>>)
    returns (d: seq<byte>)
    requires c + Flatten(rest) == EncodeChar(ch) + t && |EncodeChar(ch)| <= |c|
    ensures Flatten([d] + rest) == t && LossyText([c] + rest) == [ch] + LossyText([d] + rest)
    ensures Valid(c) <==> Valid(d)
  {
    var e := EncodeChar(ch);
    PrefixOf(e, t, c, Flatten(rest));
    d := c[|e|..];
    assert c == e + d;
    LossyStep(ch, d);
    FlattenCons(d, rest);
    LossyCons(c, rest);
    LossyCons(d, rest);
    Associative([ch], LossyDecode(d), LossyText(rest));
  }

  /** A first chunk that ends inside the character. */
  lemma {:induction false} BrokenCharacter(ch: char, t: seq<byte>, c: seq<byte>, rest: seq<seq<byte>>)
    returns (more: seq<seq<byte>>, n: nat)
    requires c + Flatten(rest) == EncodeChar(ch) + t && 0 < |c| < |EncodeChar(ch)|
    ensures Flatten(more) == t && LossyText([c] + rest) == Replacements(n) + LossyText(more)
    ensures n >= 2 && !Valid(c)
  {
    var e := EncodeChar(ch);
    var b := e[|c|..];
    PrefixOf(c, Flatten(rest), e, t);
    LossyHead(ch, |c|);
    forall i | 0 <= i < |b| ensures IsContinuation(b[i]) { ContinuationBytes(ch, |c| + i); }
    more := PastContinuation(b, t, rest);
    LossyCons(c, rest);
    n := 1 + |b|;
    Associative([REPLACEMENT], Replacements(|b|), LossyText(more));
  }

  /**
    Each character of a text sent in chunks is shown as it is, or as a run of at least two replacement
    characters; all of them as they are exactly if every chunk is valid UTF-8.
   */
  lemma {:induction false} Cells(text: string, chunks: seq<seq<byte>>) returns (x: seq<Cell>)
    requires Flatten(chunks) == Encode(text)
    ensures Wf(x) && Plain(x) == text && Shown(x) == LossyText(chunks)
    ensures Extra(x) == 0 <==> forall c | c in chunks :: Valid(c)
    decreases |text|, |chunks|
  {
    if chunks == [] {
      x := [];
    } else {
      var c, rest := chunks[0], chunks[1..];
      assert chunks == [c] + rest;
      FlattenCons(c, rest);
      if c == [] {
        x := Cells(text, rest);
        LossyCons(c, rest);
      } else if |EncodeChar(text[0])| <= |c| {
        var d := WholeCharacter(text[0], Encode(text[1..]), c, rest);
        var more := Cells(text[1..], [d] + rest);
        x := [Cell(text[0], 0)] + more;
        ConsCell(Cell(text[0], 0), more);
      } else {
        var later, n := BrokenCharacter(text[0], Encode(text[1..]), c, rest);
        var more := Cells(text[1..], later);
        x := [Cell(text[0], n)] + more;
        ConsCell(Cell(text[0], n), more);
      }
    }
  }

  /** The exact condition under which chunk-wise lossy decoding gives the text that was sent. */
  lemma {:induction false} LossyExactly(text: string, chunks: seq<seq<byte>>)
    requires Flatten(chunks) == Encode(text)
    ensures LossyText(chunks) == text <==> forall c | c in chunks :: Valid(c)
  {
    var x := Cells(text, chunks);
    ShownLength(x);
  }
}
