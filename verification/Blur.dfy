/**
  What the JSON reader makes of the strings in a text of which some characters were replaced: the same
  strings, blurred.
 */
module Blur {
  import opened Prelude
  import opened Lossy
  import opened Json

  lemma {:induction false} Head(x: seq<Cell>)
    requires Wf(x) && x != []
    ensures Plain(x)[0] == x[0].c && Plain(x)[1..] == Plain(x[1..]) && Shown(x) != "" && Wf(x[1..])
    ensures x[0].n == 0 ==> Shown(x)[0] == x[0].c && Shown(x)[1..] == Shown(x[1..]) && Extra(x) == Extra(x[1..])
    ensures x[0].n > 0 ==> Shown(x)[0] == REPLACEMENT
    ensures x[0].c < 0x80 as char ==> x[0].n == 0
  {
    assert x[0].n > 0 ==> Replacements(x[0].n)[0] == REPLACEMENT;
  }

  lemma TakeCons<T>(c: T, s: seq<T>, t: seq<T>, k: nat)
    requires s != [] && s[0] == c && s[1..] == t && 0 < k <= |s|
    ensures s[..k] == [c] + t[..k - 1]
  {
  }

  lemma {:induction false} FrontShown(x: seq<Cell>, k: nat)
    requires Wf(x) && k <= |x| && forall i | 0 <= i < k :: x[i].c < 0x80 as char
    ensures Wf(x[k..]) && Extra(x) == Extra(x[k..]) && Shown(x) == Plain(x)[..k] + Shown(x[k..])
  {
    if k == 0 {
      assert x[0..] == x && Plain(x)[..0] + Shown(x) == Shown(x);
    } else {
      Head(x);
      var rest := x[1..];
      FrontShown(rest, k - 1);
      assert rest[k - 1..] == x[k..];
      TakeCons(x[0].c, Plain(x), Plain(rest), k);
      Associative([x[0].c], Plain(rest)[..k - 1], Shown(x[k..]));
    }
  }

  /** A front of ASCII characters is shown as it is. */
  lemma {:induction false} CleanFront(x: seq<Cell>, k: nat)
    requires Wf(x) && k <= |x| && forall i | 0 <= i < k :: x[i].c < 0x80 as char
    ensures Wf(x[k..]) && Plain(x)[k..] == Plain(x[k..]) && Extra(x) == Extra(x[k..])
    ensures k <= |Shown(x)| && Shown(x)[k..] == Shown(x[k..]) && forall i | 0 <= i < k :: Shown(x)[i] == x[i].c
  {
    FrontShown(x, k);
  }

  // --- Strings ---

  predicate Skipped(x: seq<Cell>, y: seq<Cell>) {
    && Wf(y) && Plain(y) == SkipSpace(Plain(x)) && Shown(y) == SkipSpace(Shown(x))
    && Extra(y) == Extra(x) && |y| <= |x|
  }

  lemma {:induction false} SkipSpaceBlurs(x: seq<Cell>) returns (y: seq<Cell>)
    requires Wf(x)
    ensures Skipped(x, y)
  {
    y := x;
    if x != [] {
      Head(x);
      if IsSpace(x[0].c) { y := SkipSpaceBlurs(x[1..]); }
    }
  }

  lemma Hex4Ascii(s: string)
    requires Hex4(s).Ok?
    ensures |s| >= 4 && Hex4(s).rest == s[4..] && forall i | 0 <= i < 4 :: s[i] < 0x80 as char
  {
  }

  lemma Hex4Same(s: string, t: string)
    requires Hex4(s).Ok? && |t| >= 4 && |s| >= 4 && s[0] == t[0] && s[1] == t[1] && s[2] == t[2] && s[3] == t[3]
    ensures Hex4(t) == Ok(Hex4(s).value, t[4..])
  {
  }

  lemma {:induction false} Hex4Blurs(x: seq<Cell>)
    requires Wf(x) && Hex4(Plain(x)).Ok?
    ensures |x| >= 4 && Wf(x[4..]) && Extra(x) == Extra(x[4..])
    ensures Hex4(Plain(x)).rest == Plain(x[4..]) && Hex4(Shown(x)) == Ok(Hex4(Plain(x)).value, Shown(x[4..]))
  {
    Hex4Ascii(Plain(x));
    assert forall i | 0 <= i < 4 :: x[i].c == Plain(x)[i];
    CleanFront(x, 4);
    Hex4Same(Plain(x), Shown(x));
  }

  /** The second half of a surrogate pair. */
  lemma LowBlurs(x: seq<Cell>) returns (y: seq<Cell>)
    requires Wf(x) && |x| >= 2 && x[0].c == '\\' && x[1].c == 'u' && Hex4(Plain(x)[2..]).Ok?
    ensures Wf(y) && Extra(y) == Extra(x) && |y| < |x| && |Shown(x)| >= 2 && Shown(x)[0] == '\\' && Shown(x)[1] == 'u'
    ensures Hex4(Plain(x)[2..]).rest == Plain(y) && Hex4(Shown(x)[2..]) == Ok(Hex4(Plain(x)[2..]).value, Shown(y))
  {
    CleanFront(x, 2);
    Hex4Blurs(x[2..]);
    y := x[2..][4..];
  }

  lemma UnicodeEscapeBlurs(x: seq<Cell>) returns (y: seq<Cell>)
    requires Wf(x) && UnicodeEscape(Plain(x)).Ok?
    ensures Wf(y) && Extra(y) == Extra(x) && |y| < |x|
    ensures UnicodeEscape(Plain(x)).rest == Plain(y)
    ensures UnicodeEscape(Shown(x)) == Ok(UnicodeEscape(Plain(x)).value, Shown(y))
  {
    Hex4Blurs(x);
    y := x[4..];
    if 0xD800 <= Hex4(Plain(x)).value < 0xDC00 { y := LowBlurs(y); }
  }

  lemma EscapeBlurs(x: seq<Cell>) returns (y: seq<Cell>)
    requires Wf(x) && Escape(Plain(x)).Ok?
    ensures Wf(y) && Extra(y) == Extra(x) && |y| < |x|
    ensures Escape(Plain(x)).rest == Plain(y) && Escape(Shown(x)) == Ok(Escape(Plain(x)).value, Shown(y))
  {
    Head(x);
    EscapeRead(Plain(x));
    EscapeRead(Shown(x));
    if x[0].c == 'u' { y := UnicodeEscapeBlurs(x[1..]); } else { y := x[1..]; }
  }

  /** The value of an escape of one character. */
  function ShortEscape(c: char): char {
    match c
    case 'b' => 8 as char
    case 'f' => 12 as char
    case 'n' => '\n'
    case 'r' => '\r'
    case 't' => '\t'
    case _ => c
  }

  lemma EscapeRead(s: string)
    requires s != ""
    ensures s[0] == 'u' ==> Escape(s) == UnicodeEscape(s[1..])
    ensures s[0] != 'u' ==> Escape(s) == if s[0] in "\"\\/bfnrt" then Ok(ShortEscape(s[0]), s[1..]) else Fail
  {
  }

  lemma {:induction false} ReplacementsRead(n: nat, r: string)
    requires StringTail(r).Ok?
    ensures StringTail(Replacements(n) + r) == Ok(Replacements(n) + StringTail(r).value, StringTail(r).rest)
  {
    if n == 0 {
      assert Replacements(n) + r == r && Replacements(n) + StringTail(r).value == StringTail(r).value;
    } else {
      var t := Replacements(n - 1) + r;
      assert Replacements(n) + r == [REPLACEMENT] + t && ([REPLACEMENT] + t)[1..] == t;
      ReplacementsRead(n - 1, r);
      Associative([REPLACEMENT], Replacements(n - 1), StringTail(r).value);
    }
  }

  /** `y` is what is left of `x` behind something that is shown `g` characters longer. */
  predicate Behind(x: seq<Cell>, g: nat, y: seq<Cell>) { Wf(y) && g + Extra(y) == Extra(x) && |y| < |x| }

  /** A string is read up to the same quote; its characters are shown as they are in the text. */
  predicate StringBlurred(x: seq<Cell>, v: seq<Cell>, y: seq<Cell>) {
    && Wf(v) && Behind(x, Extra(v), y)
    && StringTail(Plain(x)) == Ok(Plain(v), Plain(y)) && StringTail(Shown(x)) == Ok(Shown(v), Shown(y))
  }

  lemma {:induction false} StringTailBlurs(x: seq<Cell>) returns (v: seq<Cell>, y: seq<Cell>)
    requires Wf(x) && StringTail(Plain(x)).Ok?
    ensures StringBlurred(x, v, y)
    decreases |x|
  {
    Head(x);
    if x[0].c == '\"' {
      v, y := [], x[1..];
    } else {
      var c, rest := x[0], x[1..];
      if x[0].c == '\\' {
        rest := EscapeBlurs(x[1..]);
        c := Cell(Escape(Plain(x)[1..]).value, 0);
      }
      var more;
      more, y := StringTailBlurs(rest);
      v := [c] + more;
      ConsCell(c, more);
      if c.n > 0 { ReplacementsRead(c.n, Shown(rest)); }
    }
  }
}
