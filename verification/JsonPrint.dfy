/** The compact writer, and that the reader gives back what it printed. */
module JsonPrint {
  import opened Prelude
  import opened Json
  import opened JsonPrefix

  // --- The writer ---

  function HexDigit(n: nat): char
    requires n < 16
  {
    if n < 10 then (n + '0' as nat) as char else (n - 10 + 'a' as nat) as char
  }

  function Escaped(c: char): string {
    if c == '\"' then "\\\""
    else if c == '\\' then "\\\\"
    else if c >= ' ' then [c]
    else if c == 8 as char then "\\b"
    else if c == '\t' then "\\t"
    else if c == '\n' then "\\n"
    else if c == 12 as char then "\\f"
    else if c == '\r' then "\\r"
    else "\\u00" + [HexDigit(c as nat / 16), HexDigit(c as nat % 16)]
  }

  /** The characters of a string and its closing quote. */
  function PrintTail(s: string): string {
    if s == [] then "\"" else Escaped(s[0]) + PrintTail(s[1..])
  }

  function PrintString(s: string): string { "\"" + PrintTail(s) }

  function Print(j: Json): string
    decreases j
  {
    match j
    case Null => "null"
    case Bool(b) => if b then "true" else "false"
    case Num(lexeme) => lexeme
    case Str(text) => PrintString(text)
    case Arr(items) => "[" + PrintItems(items, true)
    case Obj(members) => "{" + PrintMembers(members, true)
  }

  function Comma(first: bool): string { if first then "" else "," }

  /** The entries and the closing bracket. */
  function PrintItems(items: seq<Json>, first: bool): string
    decreases items
  {
    if items == [] then "]"
    else Comma(first) + (Print(items[0]) + PrintItems(items[1..], false))
  }

  function PrintMembers(members: seq<Member>, first: bool): string
    decreases members
  {
    if members == [] then "}"
    else
      Comma(first) +
        (PrintString(members[0].key) + (":" + (Print(members[0].value) + PrintMembers(members[1..], false))))
  }

  // --- What can be printed and read back ---

  /** A number text that the reader takes whole, and that does not begin like anything else. */
  predicate IsNumber(lexeme: string) {
    Number(lexeme) == Ok(Num(lexeme), [])
  }

  /** Well-formed numbers, and no deeper than the reader's limit. */
  predicate Readable(j: Json, depth: nat)
    decreases j
  {
    match j
    case Num(lexeme) => IsNumber(lexeme)
    case Arr(items) => depth > 1 && forall v | v in items :: Readable(v, depth - 1)
    case Obj(members) => depth > 1 && forall m | m in members :: Readable(m.value, depth - 1)
    case _ => true
  }

  // --- Round trips ---

  lemma HexDigitValue(n: nat)
    requires n < 16
    ensures IsHex(HexDigit(n)) && HexValue(HexDigit(n)) == n
  {
  }

  /** The four hexadecimal digits of a control character. */
  function Code(c: char): string
    requires c < ' '
  {
    "00" + [HexDigit(c as nat / 16), HexDigit(c as nat % 16)]
  }

  lemma ControlRoundTrip(c: char, r: string)
    requires c < ' '
    ensures UnicodeEscape(Code(c) + r) == Ok(c, r)
  {
    HexDigitValue(c as nat / 16);
    HexDigitValue(c as nat % 16);
    var t := Code(c) + r;
    assert HexValue('0') == 0 && t[4..] == r;
    assert Hex4(t) == Ok(c as nat, r);
  }

  lemma ControlText(c: char)
    requires c < ' ' && |Escaped(c)| != 2
    ensures Escaped(c) == "\\" + ("u" + Code(c))
  {
  }

  lemma {:induction false} PlainStep(c: char, r: string)
    requires c >= ' ' && c != '\"' && c != '\\'
    ensures StringTail([c] + r) == Prepend(c, StringTail(r))
  {
    assert ([c] + r)[1..] == r;
  }

  /** An escape read behind its backslash. */
  lemma {:induction false} AfterBackslash(e: string, c: char, r: string)
    requires Escape(e) == Ok(c, r)
    ensures StringTail("\\" + e) == Prepend(c, StringTail(r))
  {
    assert ("\\" + e)[1..] == e;
  }

  lemma {:induction false} ShortEscapeStep(c: char, r: string)
    requires |Escaped(c)| == 2
    ensures StringTail(Escaped(c) + r) == Prepend(c, StringTail(r))
  {
    var e := [Escaped(c)[1]] + r;
    assert e[1..] == r;
    AfterBackslash(e, c, r);
    assert Escaped(c) + r == "\\" + e;
  }

  lemma {:induction false} ControlStep(c: char, r: string)
    requires c < ' ' && |Escaped(c)| != 2
    ensures StringTail(Escaped(c) + r) == Prepend(c, StringTail(r))
  {
    ControlText(c);
    CodeStep(c, Code(c), r);
    Associative("u", Code(c), r);
    Associative("\\", "u" + Code(c), r);
  }

  lemma {:induction false} CodeStep(c: char, code: string, r: string)
    requires c < ' ' && code == Code(c)
    ensures StringTail("\\" + ("u" + (code + r))) == Prepend(c, StringTail(r))
  {
    ControlRoundTrip(c, r);
    assert ("u" + (code + r))[1..] == code + r;
    AfterBackslash("u" + (code + r), c, r);
  }

  lemma {:induction false} EscapedStep(c: char, r: string)
    ensures StringTail(Escaped(c) + r) == Prepend(c, StringTail(r))
  {
    if c >= ' ' && c != '\"' && c != '\\' {
      PlainStep(c, r);
    } else if |Escaped(c)| == 2 {
      ShortEscapeStep(c, r);
    } else {
      ControlStep(c, r);
    }
  }

  lemma {:induction false} StringRoundTrip(s: string, y: string)
    ensures StringTail(PrintTail(s) + y) == Ok(s, y)
  {
    if s == [] {
      assert ("\"" + y)[1..] == y;
    } else {
      Associative(Escaped(s[0]), PrintTail(s[1..]), y);
      EscapedStep(s[0], PrintTail(s[1..]) + y);
      StringRoundTrip(s[1..], y);
      assert [s[0]] + s[1..] == s;
    }
  }

  lemma NumberFirst(lexeme: string)
    requires IsNumber(lexeme)
    ensures lexeme != [] && (IsDigit(lexeme[0]) || lexeme[0] == '-')
  {
  }

  lemma {:induction false} NumberDispatch(t: string, depth: nat)
    requires t != [] && (IsDigit(t[0]) || t[0] == '-')
    ensures Value(t, depth) == Number(t)
  {
  }

  lemma {:induction false} NumberRoundTrip(lexeme: string, y: string, depth: nat)
    requires IsNumber(lexeme) && Ends([], y)
    ensures Value(lexeme + y, depth) == Ok(Num(lexeme), y)
  {
    NumberExtends(lexeme, y);
    NumberFirst(lexeme);
    NumberDispatch(lexeme + y, depth);
    assert [] + y == y;
  }

  lemma {:induction false} KeywordRoundTrip(y: string, depth: nat)
    ensures Value("null" + y, depth) == Ok(Null, y)
    ensures Value("true" + y, depth) == Ok(Bool(true), y)
    ensures Value("false" + y, depth) == Ok(Bool(false), y)
  {
    KeywordExtends("null", y, "null", Null);
    KeywordExtends("true", y, "true", Bool(true));
    KeywordExtends("false", y, "false", Bool(false));
    assert [] + y == y;
  }

  /** The next entry of a list begins with a comma or ends the list, so it ends a number before it. */
  lemma {:induction false} EntriesEnd(items: seq<Json>, members: seq<Member>, y: string)
    ensures var t := PrintItems(items, false) + y; Ends([], t)
    ensures var t := PrintMembers(members, false) + y; Ends([], t)
  {
  }

  /** What is read behind the first character of a string, an array or an object. */
  lemma {:induction false} Opened(t: string, depth: nat)
    requires t != []
    ensures t[0] == '\"' && StringTail(t[1..]).Ok? ==>
      Value(t, depth) == Ok(Str(StringTail(t[1..]).value), StringTail(t[1..]).rest)
    ensures t[0] == '[' && depth > 1 && Items(t[1..], depth - 1, true).Ok? ==>
      Value(t, depth) == Ok(Arr(Items(t[1..], depth - 1, true).value), Items(t[1..], depth - 1, true).rest)
    ensures t[0] == '{' && depth > 1 && Members(t[1..], depth - 1, true).Ok? ==>
      Value(t, depth) == Ok(Obj(Members(t[1..], depth - 1, true).value), Members(t[1..], depth - 1, true).rest)
  {
  }

  lemma {:induction false} StrRoundTrip(text: string, y: string, depth: nat)
    ensures Value(Print(Str(text)) + y, depth) == Ok(Str(text), y)
  {
    var t := Print(Str(text)) + y;
    assert t[1..] == PrintTail(text) + y;
    StringRoundTrip(text, y);
    Opened(t, depth);
  }

  lemma {:induction false} ValueRoundTrip(j: Json, y: string, depth: nat)
    requires Readable(j, depth) && (j.Num? ==> Ends([], y))
    ensures Value(Print(j) + y, depth) == Ok(j, y)
    decreases j
  {
    var t := Print(j) + y;
    match j {
      case Null => KeywordRoundTrip(y, depth);
      case Bool(_) => KeywordRoundTrip(y, depth);
      case Num(lexeme) => NumberRoundTrip(lexeme, y, depth);
      case Str(text) => StrRoundTrip(text, y, depth);
      case Arr(items) =>
        assert t[1..] == PrintItems(items, true) + y;
        ItemsRoundTrip(items, y, depth - 1, true);
        Opened(t, depth);
      case Obj(members) =>
        assert t[1..] == PrintMembers(members, true) + y;
        MembersRoundTrip(members, y, depth - 1, true);
        Opened(t, depth);
    }
  }

  lemma {:induction false} PrintStart(j: Json, depth: nat)
    requires Readable(j, depth)
    ensures Print(j) != [] && !IsSpace(Print(j)[0]) && Print(j)[0] != ']'
  {
    if j.Num? { NumberFirst(j.lexeme); }
  }

  /** An entry that does not begin with space is found behind its comma. */
  lemma EntryOf(entry: string, first: bool)
    requires entry != [] && !IsSpace(entry[0])
    ensures var t := Comma(first) + entry;
      t != [] && SkipSpace(t) == t && NextEntry(t, first) == Some(entry) && t[0] == if first then entry[0] else ','
  {
    var t := Comma(first) + entry;
    if first { assert t == entry; } else { assert t[1..] == entry; }
  }

  lemma {:induction false} ItemsRoundTrip(items: seq<Json>, y: string, depth: nat, first: bool)
    requires forall v | v in items :: Readable(v, depth)
    ensures Items(PrintItems(items, first) + y, depth, first) == Ok(items, y)
    decreases items
  {
    var t := PrintItems(items, first) + y;
    if items == [] {
      assert t == "]" + y && t[1..] == y;
    } else {
      var more := PrintItems(items[1..], false) + y;
      var entry := Print(items[0]) + more;
      assert t == Comma(first) + entry;
      EntriesEnd(items[1..], [], y);
      PrintStart(items[0], depth);
      EntryOf(entry, first);
      ValueRoundTrip(items[0], more, depth);
      ItemsRoundTrip(items[1..], y, depth, false);
      assert [items[0]] + items[1..] == items;
    }
  }

  lemma KeyRoundTrip(key: string, r: string)
    ensures Key(PrintString(key) + (":" + r)) == Ok(key, r)
  {
    var t := PrintString(key) + (":" + r);
    assert t[1..] == PrintTail(key) + (":" + r);
    StringRoundTrip(key, ":" + r);
    assert (":" + r)[1..] == r;
  }

  lemma Regroup(a: string, b: string, v: string, l: string, r: string)
    ensures a + (b + (":" + (v + (l + r)))) == (a + (b + (":" + (v + l)))) + r
  {
    var x := v + l;
    assert v + (l + r) == x + r;
    var y := ":" + x;
    assert ":" + (x + r) == y + r;
    var z := b + y;
    assert b + (y + r) == z + r;
  }

  lemma {:induction false} MembersPrinted(members: seq<Member>, y: string, first: bool)
    requires members != []
    ensures var m := members[0];
      PrintMembers(members, first) + y ==
      Comma(first) + (PrintString(m.key) + (":" + (Print(m.value) + (PrintMembers(members[1..], false) + y))))
  {
    var m := members[0];
    Regroup(Comma(first), PrintString(m.key), Print(m.value), PrintMembers(members[1..], false), y);
  }

  lemma {:induction false} MembersStep(t: string, entry: string, value: string, more: string, m: Member, depth: nat,
                                       first: bool)
    requires t != [] && SkipSpace(t) == t && t[0] != '}' && NextEntry(t, first) == Some(entry)
    requires Key(entry) == Ok(m.key, value) && Value(value, depth) == Ok(m.value, more)
    requires Members(more, depth, false).Ok?
    ensures var p := Members(more, depth, false); Members(t, depth, first) == Ok([m] + p.value, p.rest)
  {
  }

  /** A member and what follows it, read from its key on. */
  lemma {:induction false} EntryRead(m: Member, more: string, first: bool)
    ensures var value := Print(m.value) + more;
      var t := Comma(first) + (PrintString(m.key) + (":" + value));
      && t != [] && SkipSpace(t) == t && t[0] != '}'
      && NextEntry(t, first) == Some(PrintString(m.key) + (":" + value))
      && Key(PrintString(m.key) + (":" + value)) == Ok(m.key, value)
  {
    var value := Print(m.value) + more;
    EntryOf(PrintString(m.key) + (":" + value), first);
    KeyRoundTrip(m.key, value);
  }

  lemma {:induction false} MembersCons(members: seq<Member>, y: string, depth: nat, first: bool)
    requires members != []
    requires var more := PrintMembers(members[1..], false) + y;
      && Value(Print(members[0].value) + more, depth) == Ok(members[0].value, more)
      && Members(more, depth, false) == Ok(members[1..], y)
    ensures Members(PrintMembers(members, first) + y, depth, first) == Ok(members, y)
  {
    hide *;
    var m := members[0];
    var more := PrintMembers(members[1..], false) + y;
    var value := Print(m.value) + more;
    MembersPrinted(members, y, first);
    EntryRead(m, more, first);
    MembersStep(PrintMembers(members, first) + y, PrintString(m.key) + (":" + value), value, more, m, depth, first);
    assert [m] + members[1..] == members;
  }

  lemma {:induction false} MembersRoundTrip(members: seq<Member>, y: string, depth: nat, first: bool)
    requires forall m | m in members :: Readable(m.value, depth)
    ensures Members(PrintMembers(members, first) + y, depth, first) == Ok(members, y)
    decreases members
  {
    if members == [] {
      var t := PrintMembers(members, first) + y;
      assert t == "}" + y && t[1..] == y;
    } else {
      EntriesEnd([], members[1..], y);
      ValueRoundTrip(members[0].value, PrintMembers(members[1..], false) + y, depth);
      MembersRoundTrip(members[1..], y, depth, false);
      MembersCons(members, y, depth, first);
    }
  }

  /** What is printed is read back, for every value within the nesting limit. */
  lemma {:induction false} RoundTrip(j: Json)
    requires Readable(j, NESTING)
    ensures Parse(Print(j)) == Some(j)
    ensures !j.Num? ==> Exact(Print(j))
  {
    ValueRoundTrip(j, "", NESTING);
    assert Print(j) + "" == Print(j);
  }
}
