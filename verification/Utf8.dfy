/**
  UTF-8 as the log listener and the vsock readers use it: the encoding of section 3 of RFC 3629 and the
  byte syntax of section 4.  A Dafny `char` is a Unicode scalar value, as is a Rust `char`.
 */
module Utf8 {
  import opened Prelude

  predicate IsContinuation(b: byte) { 0x80 <= b <= 0xBF }

  /** The six-bit groups of a scalar value, least significant first. */
  function Low6(v: nat): (r: nat) ensures r < 0x40 { v % 0x40 }
  function High6(v: nat): nat { v / 0x40 }

  function EncodeScalar(v: nat): (r: seq<byte>)
    requires v < 0x110000
    ensures 1 <= |r| <= 4
  {
    if v < 0x80 then [v]
    else
      var (v1, t0) := (High6(v), 0x80 + Low6(v));
      if v < 0x800 then [0xC0 + v1, t0]
      else
        var (v2, t1) := (High6(v1), 0x80 + Low6(v1));
        if v < 0x10000 then [0xE0 + v2, t1, t0]
        else [0xF0 + High6(v2), 0x80 + Low6(v2), t1, t0]
  }

  function EncodeChar(c: char): (r: seq<byte>)
    ensures 1 <= |r| <= 4
  {
    EncodeScalar(c as int)
  }

  function Encode(s: string): seq<byte> {
    if s == [] then [] else EncodeChar(s[0]) + Encode(s[1..])
  }

  /** The second bytes that may follow lead byte `b0` (the tables of section 4). */
  predicate SecondOk(b0: byte, b1: byte) {
    if b0 == 0xE0 then 0xA0 <= b1 <= 0xBF
    else if b0 == 0xED then 0x80 <= b1 <= 0x9F
    else if b0 == 0xF0 then 0x90 <= b1 <= 0xBF
    else if b0 == 0xF4 then 0x80 <= b1 <= 0x8F
    else IsContinuation(b1)
  }

  /** Length of the sequence that lead byte `b` announces; 0 when `b` starts none. */
  function Width(b: byte): nat {
    if b < 0x80 then 1 else if 0xC2 <= b <= 0xDF then 2 else if 0xE0 <= b <= 0xEF then 3
    else if 0xF0 <= b <= 0xF4 then 4 else 0
  }

  /** Appends the six payload bits of a continuation byte. */
  function Push6(v: int, b: byte): int { v * 0x40 + (b as int - 0x80) }

  /** The bytes `b[..Width(b[0])]` follow the syntax of section 4. */
  predicate WellFormed(b: seq<byte>)
    requires b != []
  {
    var n := Width(b[0]);
    && 1 <= n <= |b|
    && (n >= 2 ==> SecondOk(b[0], b[1]))
    && (n >= 3 ==> IsContinuation(b[2]))
    && (n == 4 ==> IsContinuation(b[3]))
  }

  function DecodeScalar(b: seq<byte>): (v: nat)
    requires b != [] && WellFormed(b)
    ensures v < 0xD800 || 0xE000 <= v < 0x110000
  {
    var b0: int := b[0];
    match Width(b[0])
    case 1 => b0
    case 2 => Push6(b0 - 0xC0, b[1])
    case 3 => Push6(Push6(b0 - 0xE0, b[1]), b[2])
    case _ => Push6(Push6(Push6(b0 - 0xF0, b[1]), b[2]), b[3])
  }

  /** One character from the front of `b`, and the number of bytes it takes. */
  function DecodeOne(b: seq<byte>): (r: Option<(char, nat)>)
    ensures r.Some? ==> 1 <= r.value.1 <= |b|
  {
    if b == [] || !WellFormed(b) then None else Some((DecodeScalar(b) as char, Width(b[0])))
  }

  /** `String::from_utf8`: the whole sequence or nothing. */
  function Decode(b: seq<byte>): Option<string> {
    if b == [] then Some([])
    else
      var first := DecodeOne(b);
      if first.None? then None
      else
        var rest := Decode(b[first.value.1..]);
        if rest.None? then None else Some([first.value.0] + rest.value)
  }

  predicate Valid(b: seq<byte>) { Decode(b).Some? }

  // --- One character ---

  lemma Pop6(v: nat, b: byte)
    requires IsContinuation(b)
    ensures Push6(v, b) >= 0 && High6(Push6(v, b)) == v && 0x80 + Low6(Push6(v, b)) == b
  {
  }

  lemma DecodeEncodedScalar(v: nat, rest: seq<byte>)
    requires v < 0xD800 || 0xE000 <= v < 0x110000
    ensures var b := EncodeScalar(v) + rest;
      WellFormed(b) && DecodeScalar(b) == v && Width(b[0]) == |EncodeScalar(v)|
  {
    var e := EncodeScalar(v);
    var b := e + rest;
    assert b[0] == e[0];
    assert |e| >= 2 ==> b[1] == e[1];
    assert |e| >= 3 ==> b[2] == e[2];
    assert |e| >= 4 ==> b[3] == e[3];
  }

  lemma DecodeEncodedChar(c: char, rest: seq<byte>)
    ensures DecodeOne(EncodeChar(c) + rest) == Some((c, |EncodeChar(c)|))
  {
    DecodeEncodedScalar(c as int, rest);
  }

  lemma EncodeDecoded3(b: seq<byte>)
    requires b != [] && WellFormed(b) && Width(b[0]) == 3
    ensures EncodeScalar(DecodeScalar(b)) == b[..3]
  {
    var v2: nat := b[0] as int - 0xE0;
    var v1 := Push6(v2, b[1]);
    Pop6(v2, b[1]);
    Pop6(v1, b[2]);
    assert 0x800 <= DecodeScalar(b) < 0x10000;
    assert EncodeScalar(DecodeScalar(b)) == [b[0], b[1], b[2]];
  }

  lemma Push6Bounds(v: nat, b: byte, low: nat, high: nat)
    requires low <= v < high && IsContinuation(b)
    ensures low * 64 <= Push6(v, b) < high * 64
  {
  }

  lemma EncodeFour(v2: nat, c: byte, d: byte)
    requires 0x10 <= v2 < 0x110 && IsContinuation(c) && IsContinuation(d)
    ensures var v := Push6(Push6(v2, c), d);
      0x10000 <= v < 0x110000 && EncodeScalar(v) == [0xF0 + High6(v2), 0x80 + Low6(v2), c, d]
  {
    var v1 := Push6(v2, c);
    Pop6(v2, c);
    Pop6(v1, d);
    Push6Bounds(v2, c, 0x10, 0x110);
    Push6Bounds(v1, d, 0x400, 0x4400);
    EncodeParts(Push6(v1, d), v1, v2, c, d);
  }

  /** The encoding of a large scalar value by its groups of bits. */
  lemma EncodeParts(v: nat, v1: nat, v2: nat, c: byte, d: byte)
    requires 0x10000 <= v < 0x110000 && High6(v) == v1 && High6(v1) == v2
    requires 0x80 + Low6(v) == d && 0x80 + Low6(v1) == c
    ensures High6(v2) < 5 && EncodeScalar(v) == [0xF0 + High6(v2), 0x80 + Low6(v2), c, d]
  {
  }

  /** The first two bytes of a sequence of four. */
  lemma FirstTwo(b0: byte, b1: byte)
    requires 0xF0 <= b0 <= 0xF4 && SecondOk(b0, b1)
    ensures var v2 := Push6(b0 as int - 0xF0, b1);
      0x10 <= v2 < 0x110 && 0xF0 + High6(v2) == b0 && 0x80 + Low6(v2) == b1
  {
    Pop6(b0 - 0xF0, b1);
  }

  lemma FourBytes(b0: byte, b1: byte, b2: byte, b3: byte)
    requires 0xF0 <= b0 <= 0xF4 && SecondOk(b0, b1) && IsContinuation(b2) && IsContinuation(b3)
    ensures var v := Push6(Push6(Push6(b0 as int - 0xF0, b1), b2), b3);
      0x10000 <= v < 0x110000 && EncodeScalar(v) == [b0, b1, b2, b3]
  {
    hide EncodeScalar, Low6, High6;
    FirstTwo(b0, b1);
    EncodeFour(Push6(b0 as int - 0xF0, b1), b2, b3);
  }

  lemma DecodeFour(b: seq<byte>)
    requires b != [] && WellFormed(b) && Width(b[0]) == 4
    ensures DecodeScalar(b) == Push6(Push6(Push6(b[0] as int - 0xF0, b[1]), b[2]), b[3])
    ensures b[..4] == [b[0], b[1], b[2], b[3]]
  {
  }

  lemma EncodeDecoded4(b: seq<byte>)
    requires b != [] && WellFormed(b) && Width(b[0]) == 4
    ensures EncodeScalar(DecodeScalar(b)) == b[..4]
  {
    FourBytes(b[0], b[1], b[2], b[3]);
    DecodeFour(b);
  }

  lemma EncodeDecodedScalar(b: seq<byte>)
    requires b != [] && WellFormed(b)
    ensures EncodeScalar(DecodeScalar(b)) == b[..Width(b[0])]
  {
    match Width(b[0]) {
      case 1 =>
      case 2 => Pop6(b[0] - 0xC0, b[1]);
      case 3 => EncodeDecoded3(b);
      case _ => EncodeDecoded4(b);
    }
  }

  // --- Whole strings ---

  lemma {:induction false} EncodeAppend(s: string, t: string)
    ensures Encode(s + t) == Encode(s) + Encode(t)
  {
    if s == [] {
      assert s + t == t;
    } else {
      EncodeAppend(s[1..], t);
      assert (s + t)[1..] == s[1..] + t;
      Associative(EncodeChar(s[0]), Encode(s[1..]), Encode(t));
    }
  }

  /** `Decode`'s result when one more character precedes what was decoded. */
  function Prepend(s: string, r: Option<string>): Option<string> {
    if r.None? then None else Some(s + r.value)
  }

  lemma {:induction false} DecodeStep(c: char, tail: seq<byte>)
    ensures Decode(EncodeChar(c) + tail) == Prepend([c], Decode(tail))
  {
    var e := EncodeChar(c);
    DecodeEncodedChar(c, tail);
    assert (e + tail)[|e|..] == tail;
  }

  lemma PrependPrepend(a: string, b: string, r: Option<string>)
    ensures Prepend(a, Prepend(b, r)) == Prepend(a + b, r)
  {
    if r.Some? { assert a + (b + r.value) == (a + b) + r.value; }
  }

  /** The encoding is a prefix code: decoding after an encoded prefix continues with what follows it. */
  lemma {:induction false} DecodeAfterEncoded(s: string, q: seq<byte>)
    ensures Decode(Encode(s) + q) == Prepend(s, Decode(q))
  {
    if s == [] {
      assert Encode(s) + q == q;
      if Decode(q).Some? { assert s + Decode(q).value == Decode(q).value; }
    } else {
      assert Encode(s) + q == EncodeChar(s[0]) + (Encode(s[1..]) + q);
      DecodeStep(s[0], Encode(s[1..]) + q);
      DecodeAfterEncoded(s[1..], q);
      PrependPrepend([s[0]], s[1..], Decode(q));
      assert [s[0]] + s[1..] == s;
    }
  }

  lemma {:induction false} DecodeEncode(s: string)
    ensures Decode(Encode(s)) == Some(s)
  {
    DecodeAfterEncoded(s, []);
    assert Encode(s) + [] == Encode(s);
    assert s + [] == s;
  }

  /** The first character of a valid sequence and what follows its bytes. */
  lemma DecodeHead(b: seq<byte>) returns (c: char, rest: seq<byte>)
    requires Valid(b) && b != []
    ensures b == EncodeChar(c) + rest && Valid(rest) && |rest| < |b| && Decode(b).value == [c] + Decode(rest).value
  {
    var n := Width(b[0]);
    c, rest := DecodeScalar(b) as char, b[n..];
    EncodeDecodedScalar(b);
    assert b == b[..n] + rest;
  }

  lemma {:induction false} EncodeHead(c: char, s: string)
    ensures Encode([c] + s) == EncodeChar(c) + Encode(s)
  {
    assert ([c] + s)[1..] == s;
  }

  lemma {:induction false} EncodeDecode(b: seq<byte>)
    requires Valid(b)
    ensures Encode(Decode(b).value) == b
    decreases |b|
  {
    if b != [] {
      var c, rest := DecodeHead(b);
      EncodeDecode(rest);
      EncodeHead(c, Decode(rest).value);
    }
  }

  /** After a valid prefix `p`, the stream is valid iff its remainder is, and decoding distributes. */
  lemma {:induction false} DecodeSplits(p: seq<byte>, q: seq<byte>)
    requires Valid(p)
    ensures Valid(p + q) <==> Valid(q)
    ensures Valid(q) ==> Decode(p + q).value == Decode(p).value + Decode(q).value
  {
    EncodeDecode(p);
    DecodeAfterEncoded(Decode(p).value, q);
  }

  /** Bytes that no encoding contains. */
  predicate NeverUsed(b: byte) { b == 0xC0 || b == 0xC1 || b >= 0xF5 }

  lemma {:induction false} ValidBytes(b: seq<byte>, i: nat)
    requires Valid(b) && i < |b|
    ensures !NeverUsed(b[i])
    decreases |b|
  {
    var n := DecodeOne(b).value.1;
    if i >= n { ValidBytes(b[n..], i - n); }
  }

  // --- Which byte sequences can still become valid ---

  /** A proper front of one well-formed sequence. */
  predicate Beginning(b: seq<byte>) {
    && 1 <= |b| < (if b == [] then 0 else Width(b[0]))
    && (|b| >= 2 ==> SecondOk(b[0], b[1]))
    && (|b| >= 3 ==> IsContinuation(b[2]))
  }

  /** Well-formed sequences, and behind them at most the beginning of one more. */
  predicate Extendable(b: seq<byte>)
    decreases |b|
  {
    b == [] || (if WellFormed(b) then Extendable(b[Width(b[0])..]) else Beginning(b))
  }

  /** Bytes that complete a beginning. */
  function Completion(b: seq<byte>): (c: seq<byte>)
    requires Beginning(b)
    ensures c != [] && WellFormed(b + c) && Width(b[0]) == |b + c|
  {
    var second: byte := if b[0] == 0xE0 then 0xA0 else if b[0] == 0xF0 then 0x90 else 0x80;
    if |b| == 1 then [second, 0x80, 0x80][..Width(b[0]) - 1]
    else if |b| == 2 then [0x80, 0x80][..Width(b[0]) - 2]
    else [0x80]
  }

  lemma {:induction false} ExtendableIfValid(b: seq<byte>, more: seq<byte>)
    requires Valid(b + more)
    ensures Extendable(b)
    decreases |b|
  {
    if b != [] {
      var all := b + more;
      var w := Width(all[0]);
      assert WellFormed(all) && all[0] == b[0];
      if w <= |b| {
        assert all[w..] == b[w..] + more;
        ExtendableIfValid(b[w..], more);
      }
    }
  }

  lemma {:induction false} ValidBehind(b: seq<byte>, more: seq<byte>)
    requires b != [] && WellFormed(b) && Valid(b[Width(b[0])..] + more)
    ensures Valid(b + more)
  {
    assert (b + more)[Width(b[0])..] == b[Width(b[0])..] + more;
  }

  /** What makes an extendable sequence valid. */
  lemma {:induction false} ValidIfExtendable(b: seq<byte>) returns (more: seq<byte>)
    requires Extendable(b)
    ensures more != [] && Valid(b + more)
    decreases |b|
  {
    if b == [] {
      more := [0x41];
      assert b + more == [0x41] && [0x41][1..] == [];
    } else if WellFormed(b) {
      more := ValidIfExtendable(b[Width(b[0])..]);
      ValidBehind(b, more);
    } else {
      more := Completion(b);
      assert (b + more)[Width(b[0])..] == [];
    }
  }

  /** Exactly which bytes can become valid by what still follows. */
  lemma {:induction false} ExtendableExactly(b: seq<byte>)
    ensures (exists more :: Valid(b + more)) <==> Extendable(b)
  {
    if Extendable(b) {
      var more := ValidIfExtendable(b);
      assert Valid(b + more);
    }
    forall more | Valid(b + more) ensures Extendable(b) { ExtendableIfValid(b, more); }
  }
}
