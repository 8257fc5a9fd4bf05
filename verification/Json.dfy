/**
  The JSON texts of `serde_json`: the recursive-descent reader of `from_str`, with its nesting limit,
  and the compact writer of `to_string`.  A text that continues after a value is read the same way,
  which makes object texts prefix-free, and what the writer prints is read back.
 */
module Json {
  import opened Prelude

  /** A number is kept as its text, an object as its members in order. */
  datatype Json =
    | Null | Bool(b: bool) | Num(lexeme: string) | Str(text: string)
    | Arr(items: seq<Json>) | Obj(members: seq<Member>)

  datatype Member = Member(key: string, value: Json)

  datatype Parsed<T> = Fail | Ok(value: T, rest: string)

  // --- Characters ---

  predicate IsSpace(c: char) { c == ' ' || c == '\n' || c == '\t' || c == '\r' }

  predicate IsDigit(c: char) { '0' <= c <= '9' }

  predicate IsHex(c: char) { IsDigit(c) || 'a' <= c <= 'f' || 'A' <= c <= 'F' }

  function HexValue(c: char): (n: nat)
    requires IsHex(c)
    ensures n < 16
  {
    if IsDigit(c) then c as nat - '0' as nat
    else if 'a' <= c <= 'f' then c as nat - 'a' as nat + 10
    else c as nat - 'A' as nat + 10
  }

  function SkipSpace(s: string): (r: string)
    ensures |r| <= |s| && (r != [] ==> !IsSpace(r[0]))
  {
    if s != [] && IsSpace(s[0]) then SkipSpace(s[1..]) else s
  }

  // --- Reading strings ---

  function Hex4(s: string): (p: Parsed<nat>)
    ensures p.Ok? ==> p.value < 0x1_0000 && |p.rest| < |s|
  {
    if |s| < 4 || !IsHex(s[0]) || !IsHex(s[1]) || !IsHex(s[2]) || !IsHex(s[3]) then Fail
    else Ok(((HexValue(s[0]) * 16 + HexValue(s[1])) * 16 + HexValue(s[2])) * 16 + HexValue(s[3]), s[4..])
  }

  /** The escape after `\u`: a lone surrogate is an error, a pair makes one character. */
  function UnicodeEscape(s: string): (p: Parsed<char>)
    ensures p.Ok? ==> |p.rest| < |s|
  {
    var hi := Hex4(s);
    if hi.Fail? then Fail
    else if 0xDC00 <= hi.value < 0xE000 then Fail
    else if 0xD800 <= hi.value < 0xDC00 then
      if |hi.rest| < 2 || hi.rest[0] != '\\' || hi.rest[1] != 'u' then Fail
      else
        var lo := Hex4(hi.rest[2..]);
        if lo.Fail? || !(0xDC00 <= lo.value < 0xE000) then Fail
        else Ok((0x1_0000 + (hi.value - 0xD800) * 0x400 + (lo.value - 0xDC00)) as char, lo.rest)
    else Ok(hi.value as char, hi.rest)
  }

  /** The escape after a backslash. */
  function Escape(s: string): (p: Parsed<char>)
    ensures p.Ok? ==> |p.rest| < |s|
  {
    if s == [] then Fail
    else
      match s[0]
      case '\"' => Ok('\"', s[1..])
      case '\\' => Ok('\\', s[1..])
      case '/' => Ok('/', s[1..])
      case 'b' => Ok(8 as char, s[1..])
      case 'f' => Ok(12 as char, s[1..])
      case 'n' => Ok('\n', s[1..])
      case 'r' => Ok('\r', s[1..])
      case 't' => Ok('\t', s[1..])
      case 'u' => UnicodeEscape(s[1..])
      case _ => Fail
  }

  function Prepend(c: char, p: Parsed<string>): Parsed<string> {
    if p.Ok? then Ok([c] + p.value, p.rest) else Fail
  }

  /** A string after its opening quote. */
  function StringTail(s: string): (p: Parsed<string>)
    ensures p.Ok? ==> |p.rest| < |s|
    decreases |s|
  {
    if s == [] || s[0] < ' ' then Fail
    else if s[0] == '\"' then Ok("", s[1..])
    else if s[0] == '\\' then
      var e := Escape(s[1..]);
      if e.Fail? then Fail else Prepend(e.value, StringTail(e.rest))
    else Prepend(s[0], StringTail(s[1..]))
  }

  // --- Reading numbers ---

  function SkipDigits(s: string): (r: string)
    ensures |r| <= |s| && (r != [] ==> !IsDigit(r[0]))
  {
    if s != [] && IsDigit(s[0]) then SkipDigits(s[1..]) else s
  }

  /** What follows at least one digit. */
  function Digits1(s: string): (r: Option<string>)
    ensures r.Some? ==> |r.value| < |s|
  {
    if s != [] && IsDigit(s[0]) then Some(SkipDigits(s[1..])) else None
  }

  /** What follows the integer part: no digit may follow a leading zero. */
  function IntPart(s: string): (r: Option<string>)
    ensures r.Some? ==> |r.value| < |s|
  {
    if s != [] && s[0] == '0' then
      if |s| > 1 && IsDigit(s[1]) then None else Some(s[1..])
    else Digits1(s)
  }

  function Signed(s: string): (r: Option<string>)
    ensures r.Some? ==> |r.value| < |s|
  {
    if s != [] && s[0] == '-' then IntPart(s[1..]) else IntPart(s)
  }

  function Fraction(s: string): (r: Option<string>)
    ensures r.Some? ==> |r.value| <= |s|
  {
    if s != [] && s[0] == '.' then Digits1(s[1..]) else Some(s)
  }

  function SkipSign(s: string): (r: string)
    ensures |r| <= |s|
  {
    if s != [] && (s[0] == '+' || s[0] == '-') then s[1..] else s
  }

  function Exponent(s: string): (r: Option<string>)
    ensures r.Some? ==> |r.value| <= |s|
  {
    if s != [] && (s[0] == 'e' || s[0] == 'E') then Digits1(SkipSign(s[1..])) else Some(s)
  }

  /** What follows the fraction and the exponent, either of which may be missing. */
  function Scale(s: string): (r: Option<string>)
    ensures r.Some? ==> |r.value| <= |s|
  {
    var a := Fraction(s);
    if a.None? then None else Exponent(a.value)
  }

  /** What follows a number. */
  function AfterNumber(s: string): (r: Option<string>)
    ensures r.Some? ==> |r.value| < |s|
  {
    var a := Signed(s);
    if a.None? then None else Scale(a.value)
  }

  function Number(s: string): (p: Parsed<Json>)
    ensures p.Ok? ==> |p.rest| < |s|
  {
    var r := AfterNumber(s);
    if r.None? then Fail else Ok(Num(s[..|s| - |r.value|]), r.value)
  }

  // --- Reading values ---

  function Keyword(s: string, word: string, v: Json): (p: Parsed<Json>)
    requires word != []
    ensures p.Ok? ==> |p.rest| < |s|
  {
    if word <= s then Ok(v, s[|word|..]) else Fail
  }

  /** A string, a keyword or a number. */
  function Scalar(t: string): (p: Parsed<Json>)
    requires t != []
    ensures p.Ok? ==> |p.rest| < |t|
  {
    match t[0]
    case '\"' =>
      var m := StringTail(t[1..]);
      if m.Fail? then Fail else Ok(Str(m.value), m.rest)
    case 'n' => Keyword(t, "null", Null)
    case 't' => Keyword(t, "true", Bool(true))
    case 'f' => Keyword(t, "false", Bool(false))
    case _ => Number(t)
  }

  const NESTING: nat := 128

  /** A value after leading space; `depth` is what remains of the nesting limit. */
  function Value(s: string, depth: nat): (p: Parsed<Json>)
    ensures p.Ok? ==> |p.rest| < |s|
    decreases |s|, 0
  {
    var t := SkipSpace(s);
    if t == [] then Fail
    else
      match t[0]
      case '{' =>
        if depth <= 1 then Fail
        else
          var m := Members(t[1..], depth - 1, true);
          if m.Fail? then Fail else Ok(Obj(m.value), m.rest)
      case '[' =>
        if depth <= 1 then Fail
        else
          var m := Items(t[1..], depth - 1, true);
          if m.Fail? then Fail else Ok(Arr(m.value), m.rest)
      case _ => Scalar(t)
  }

  /** What is left of the text for the next entry of an array or object, past the comma if one is due. */
  function NextEntry(t: string, first: bool): (r: Option<string>)
    ensures r.Some? ==> |r.value| <= |t|
  {
    if first then Some(t) else if t != [] && t[0] == ',' then Some(t[1..]) else None
  }

  /** The entries of an array up to its closing bracket; `first` after the opening one. */
  function Items(s: string, depth: nat, first: bool): (p: Parsed<seq<Json>>)
    ensures p.Ok? ==> |p.rest| < |s|
    decreases |s|, 1
  {
    var t := SkipSpace(s);
    if t != [] && t[0] == ']' then Ok([], t[1..])
    else
      var u := NextEntry(t, first);
      if u.None? then Fail
      else
        var v := Value(u.value, depth);
        if v.Fail? then Fail
        else
          var more := Items(v.rest, depth, false);
          if more.Fail? then Fail else Ok([v.value] + more.value, more.rest)
  }

  /** What follows a colon. */
  function Colon(s: string): (r: Option<string>)
    ensures r.Some? ==> |r.value| < |s|
  {
    var t := SkipSpace(s);
    if t != [] && t[0] == ':' then Some(t[1..]) else None
  }

  /** A key and the colon behind it. */
  function Key(s: string): (p: Parsed<string>)
    ensures p.Ok? ==> |p.rest| < |s|
  {
    var t := SkipSpace(s);
    if t == [] || t[0] != '\"' then Fail
    else
      var k := StringTail(t[1..]);
      if k.Fail? || Colon(k.rest).None? then Fail else Ok(k.value, Colon(k.rest).value)
  }

  function Members(s: string, depth: nat, first: bool): (p: Parsed<seq<Member>>)
    ensures p.Ok? ==> |p.rest| < |s|
    decreases |s|, 1
  {
    var t := SkipSpace(s);
    if t != [] && t[0] == '}' then Ok([], t[1..])
    else
      var u := NextEntry(t, first);
      if u.None? then Fail
      else
        var k := Key(u.value);
        if k.Fail? then Fail
        else
          var v := Value(k.rest, depth);
          if v.Fail? then Fail
          else
            var more := Members(v.rest, depth, false);
            if more.Fail? then Fail else Ok([Member(k.value, v.value)] + more.value, more.rest)
  }

  /** `from_str`: one value with nothing but space behind it. */
  function Parse(s: string): Option<Json> {
    var v := Value(s, NESTING);
    if v.Ok? && SkipSpace(v.rest) == [] then Some(v.value) else None
  }
}
