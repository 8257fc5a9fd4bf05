/** Reading on: a value that has been read is read the same way when more text follows. */
module JsonPrefix {
  import opened Prelude
  import opened Json

  lemma {:induction false} SkipSpaceExtends(s: string, x: string)
    requires SkipSpace(s) != []
    ensures SkipSpace(s + x) == SkipSpace(s) + x
  {
    if IsSpace(s[0]) {
      assert (s + x)[1..] == s[1..] + x;
      SkipSpaceExtends(s[1..], x);
    }
  }

  lemma Hex4Extends(s: string, x: string)
    requires Hex4(s).Ok?
    ensures Hex4(s + x) == Ok(Hex4(s).value, Hex4(s).rest + x)
  {
    assert (s + x)[4..] == s[4..] + x;
  }

  lemma UnicodeEscapeExtends(s: string, x: string)
    requires UnicodeEscape(s).Ok?
    ensures UnicodeEscape(s + x) == Ok(UnicodeEscape(s).value, UnicodeEscape(s).rest + x)
  {
    Hex4Extends(s, x);
    var hi := Hex4(s);
    if 0xD800 <= hi.value < 0xDC00 {
      Hex4Extends(hi.rest[2..], x);
      assert (hi.rest + x)[2..] == hi.rest[2..] + x;
    }
  }

  lemma EscapeExtends(s: string, x: string)
    requires Escape(s).Ok?
    ensures Escape(s + x) == Ok(Escape(s).value, Escape(s).rest + x)
  {
    assert (s + x)[1..] == s[1..] + x;
    if s[0] == 'u' { UnicodeEscapeExtends(s[1..], x); }
  }

  lemma {:induction false} StringTailExtends(s: string, x: string)
    requires StringTail(s).Ok?
    ensures StringTail(s + x) == Ok(StringTail(s).value, StringTail(s).rest + x)
    decreases |s|
  {
    assert (s + x)[1..] == s[1..] + x;
    if s[0] == '\\' {
      EscapeExtends(s[1..], x);
      StringTailExtends(Escape(s[1..]).rest, x);
    } else if s[0] != '\"' {
      StringTailExtends(s[1..], x);
    }
  }

  // --- Numbers: the text behind must not look like more of the number ---

  predicate NumberChar(c: char) { IsDigit(c) || c == '.' || c == 'e' || c == 'E' }

  /** What follows the number already read decides where it ends. */
  predicate Ends(rest: string, x: string) { rest != [] || x == [] || !NumberChar(x[0]) }

  lemma {:induction false} SkipDigitsExtends(s: string, x: string)
    requires Ends(SkipDigits(s), x)
    ensures SkipDigits(s + x) == SkipDigits(s) + x
  {
    if s == [] {
      assert s + x == x;
    } else if IsDigit(s[0]) {
      assert (s + x)[1..] == s[1..] + x;
      SkipDigitsExtends(s[1..], x);
    }
  }

  lemma Digits1Extends(s: string, x: string)
    requires Digits1(s).Some? && Ends(Digits1(s).value, x)
    ensures Digits1(s + x) == Some(Digits1(s).value + x)
  {
    assert (s + x)[1..] == s[1..] + x;
    SkipDigitsExtends(s[1..], x);
  }

  lemma SignedExtends(s: string, x: string)
    requires Signed(s).Some? && Ends(Signed(s).value, x)
    ensures Signed(s + x) == Some(Signed(s).value + x)
  {
    assert (s + x)[1..] == s[1..] + x;
    if s[0] == '-' { IntPartExtends(s[1..], x); } else { IntPartExtends(s, x); }
  }

  lemma IntPartExtends(s: string, x: string)
    requires IntPart(s).Some? && Ends(IntPart(s).value, x)
    ensures IntPart(s + x) == Some(IntPart(s).value + x)
  {
    assert (s + x)[1..] == s[1..] + x;
    if s[0] != '0' { Digits1Extends(s, x); }
  }

  lemma FractionExtends(s: string, x: string)
    requires Fraction(s).Some? && Ends(Fraction(s).value, x)
    ensures Fraction(s + x) == Some(Fraction(s).value + x)
  {
    if s == [] {
      assert s + x == x;
    } else if s[0] == '.' {
      assert (s + x)[1..] == s[1..] + x;
      Digits1Extends(s[1..], x);
    }
  }

  lemma SkipSignExtends(s: string, x: string)
    requires s != []
    ensures SkipSign(s + x) == SkipSign(s) + x
  {
    assert (s + x)[1..] == s[1..] + x;
  }

  lemma ExponentExtends(s: string, x: string)
    requires Exponent(s).Some? && Ends(Exponent(s).value, x)
    ensures Exponent(s + x) == Some(Exponent(s).value + x)
  {
    if s == [] {
      assert s + x == x;
    } else if s[0] == 'e' || s[0] == 'E' {
      assert (s + x)[1..] == s[1..] + x;
      SkipSignExtends(s[1..], x);
      Digits1Extends(SkipSign(s[1..]), x);
    }
  }

  lemma ScaleExtends(s: string, x: string)
    requires Scale(s).Some? && Ends(Scale(s).value, x)
    ensures Scale(s + x) == Some(Scale(s).value + x)
  {
    FractionExtends(s, x);
    ExponentExtends(Fraction(s).value, x);
  }

  lemma AfterNumberExtends(s: string, x: string)
    requires AfterNumber(s).Some? && Ends(AfterNumber(s).value, x)
    ensures AfterNumber(s + x) == Some(AfterNumber(s).value + x)
  {
    SignedExtends(s, x);
    ScaleExtends(Signed(s).value, x);
  }

  lemma NumberExtends(s: string, x: string)
    requires Number(s).Ok? && Ends(Number(s).rest, x)
    ensures Number(s + x) == Ok(Number(s).value, Number(s).rest + x)
  {
    var r := Number(s).rest;
    AfterNumberExtends(s, x);
    assert (s + x)[..|s + x| - |r + x|] == s[..|s| - |r|];
  }

  // --- Values ---

  lemma KeywordExtends(s: string, x: string, word: string, v: Json)
    requires word != [] && word <= s
    ensures Keyword(s + x, word, v) == Ok(v, s[|word|..] + x)
  {
    assert (s + x)[..|word|] == s[..|word|] == word;
    assert (s + x)[|word|..] == s[|word|..] + x;
  }

  lemma ColonExtends(s: string, x: string)
    requires Colon(s).Some?
    ensures Colon(s + x) == Some(Colon(s).value + x)
  {
    SkipSpaceExtends(s, x);
    assert (SkipSpace(s) + x)[1..] == SkipSpace(s)[1..] + x;
  }

  lemma KeyExtends(s: string, x: string)
    requires Key(s).Ok?
    ensures Key(s + x) == Ok(Key(s).value, Key(s).rest + x)
  {
    var t := SkipSpace(s);
    SkipSpaceExtends(s, x);
    assert (t + x)[1..] == t[1..] + x;
    StringTailExtends(t[1..], x);
    ColonExtends(StringTail(t[1..]).rest, x);
  }

  lemma ScalarExtends(t: string, x: string)
    requires t != [] && Scalar(t).Ok? && (!Scalar(t).value.Num? || Ends(Scalar(t).rest, x))
    ensures Scalar(t + x) == Ok(Scalar(t).value, Scalar(t).rest + x)
  {
    assert (t + x)[1..] == t[1..] + x;
    match t[0] {
      case '\"' => StringTailExtends(t[1..], x);
      case 'n' => KeywordExtends(t, x, "null", Null);
      case 't' => KeywordExtends(t, x, "true", Bool(true));
      case 'f' => KeywordExtends(t, x, "false", Bool(false));
      case _ => NumberExtends(t, x);
    }
  }

  lemma {:induction false} ValueExtends(s: string, x: string, depth: nat)
    requires var v := Value(s, depth); v.Ok? && (!v.value.Num? || Ends(v.rest, x))
    ensures var v := Value(s, depth); Value(s + x, depth) == Ok(v.value, v.rest + x)
    decreases |s|, 0
  {
    var t := SkipSpace(s);
    SkipSpaceExtends(s, x);
    assert (t + x)[1..] == t[1..] + x;
    match t[0] {
      case '{' => MembersExtend(t[1..], x, depth - 1, true);
      case '[' => ItemsExtend(t[1..], x, depth - 1, true);
      case _ => ScalarExtends(t, x);
    }
  }

  lemma {:induction false} NextEntryExtends(s: string, x: string, first: bool)
    requires SkipSpace(s) != [] && NextEntry(SkipSpace(s), first).Some?
    ensures SkipSpace(s + x) == SkipSpace(s) + x
    ensures NextEntry(SkipSpace(s + x), first) == Some(NextEntry(SkipSpace(s), first).value + x)
  {
    SkipSpaceExtends(s, x);
    if !first { assert (SkipSpace(s) + x)[1..] == SkipSpace(s)[1..] + x; }
  }

  lemma {:induction false} ItemsExtend(s: string, x: string, depth: nat, first: bool)
    requires Items(s, depth, first).Ok?
    ensures var p := Items(s, depth, first); Items(s + x, depth, first) == Ok(p.value, p.rest + x)
    decreases |s|, 1
  {
    var t := SkipSpace(s);
    if t != [] && t[0] == ']' {
      SkipSpaceExtends(s, x);
      assert (t + x)[1..] == t[1..] + x;
    } else {
      NextEntryExtends(s, x, first);
      var u := NextEntry(t, first).value;
      ValueExtends(u, x, depth);
      ItemsExtend(Value(u, depth).rest, x, depth, false);
    }
  }

  lemma {:induction false} MembersExtend(s: string, x: string, depth: nat, first: bool)
    requires Members(s, depth, first).Ok?
    ensures var p := Members(s, depth, first); Members(s + x, depth, first) == Ok(p.value, p.rest + x)
    decreases |s|, 1
  {
    var t := SkipSpace(s);
    if t != [] && t[0] == '}' {
      SkipSpaceExtends(s, x);
      assert (t + x)[1..] == t[1..] + x;
    } else {
      NextEntryExtends(s, x, first);
      var u := NextEntry(t, first).value;
      KeyExtends(u, x);
      var k := Key(u);
      ValueExtends(k.rest, x, depth);
      MembersExtend(Value(k.rest, depth).rest, x, depth, false);
    }
  }

  // --- Prefixes ---

  /** A text that a value fills to its last character. */
  predicate Exact(s: string) {
    var v := Value(s, NESTING);
    v.Ok? && !v.value.Num? && v.rest == []
  }

  /** No proper prefix of an array, object, string or keyword text is read as a document. */
  lemma PrefixFree(p: string, x: string)
    requires Exact(p + x) && x != []
    ensures Parse(p) == None
  {
    if Parse(p).Some? {
      var v := Value(p, NESTING);
      NumberHead(p, x, NESTING);
      ValueExtends(p, x, NESTING);
    }
  }

  /** Whether a number is read is decided by the first character behind the space. */
  lemma {:induction false} NumberHead(p: string, x: string, depth: nat)
    requires Value(p, depth).Ok? && Value(p + x, depth).Ok?
    ensures Value(p, depth).value.Num? == Value(p + x, depth).value.Num?
  {
    SkipSpaceExtends(p, x);
  }
}
