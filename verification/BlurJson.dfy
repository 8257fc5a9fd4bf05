/** Reading a blurred JSON text gives the blurred value: nothing but the characters of strings differs. */
module BlurJson {
  import opened Prelude
  import opened Lossy
  import opened Json
  import opened Blur

  // --- Numbers: what is read is ASCII, and what stops the reader still stops it ---

  /** `y` is `x` without a front of ASCII characters. */
  predicate Rest(x: seq<Cell>, y: seq<Cell>) {
    x == y || (x != [] && x[0].c < 0x80 as char && Rest(x[1..], y))
  }

  lemma {:induction false} RestAppend(x: seq<Cell>, y: seq<Cell>, z: seq<Cell>)
    requires Rest(x, y) && Rest(y, z)
    ensures Rest(x, z)
  {
    if x != y { RestAppend(x[1..], y, z); }
  }

  /** That front is shown as it is. */
  lemma {:induction false} RestFront(x: seq<Cell>, y: seq<Cell>) returns (front: string)
    requires Wf(x) && Rest(x, y)
    ensures Wf(y) && Extra(y) == Extra(x) && |front| + |y| == |x|
    ensures Plain(x) == front + Plain(y) && Shown(x) == front + Shown(y)
  {
    front := "";
    if x != y {
      Head(x);
      var more := RestFront(x[1..], y);
      front := [x[0].c] + more;
      assert Plain(x) == [x[0].c] + Plain(x[1..]);
      Associative([x[0].c], more, Plain(y));
      Associative([x[0].c], more, Shown(y));
    }
  }

  lemma {:induction false} RestKeeps(x: seq<Cell>, y: seq<Cell>)
    requires Wf(x) && Rest(x, y)
    ensures Wf(y)
  {
    if x != y { RestKeeps(x[1..], y); }
  }

  lemma {:induction false} SkipDigitsBlurs(x: seq<Cell>) returns (y: seq<Cell>)
    requires Wf(x)
    ensures Rest(x, y) && SkipDigits(Plain(x)) == Plain(y) && SkipDigits(Shown(x)) == Shown(y)
  {
    y := x;
    if x != [] {
      Head(x);
      if IsDigit(x[0].c) { y := SkipDigitsBlurs(x[1..]); }
    }
  }

  lemma Digits1Blurs(x: seq<Cell>) returns (y: seq<Cell>)
    requires Wf(x) && Digits1(Plain(x)).Some?
    ensures Rest(x, y) && Digits1(Plain(x)) == Some(Plain(y)) && Digits1(Shown(x)) == Some(Shown(y))
  {
    Head(x);
    y := SkipDigitsBlurs(x[1..]);
  }

  lemma IntPartBlurs(x: seq<Cell>) returns (y: seq<Cell>)
    requires Wf(x) && IntPart(Plain(x)).Some?
    ensures Rest(x, y) && IntPart(Plain(x)) == Some(Plain(y)) && IntPart(Shown(x)) == Some(Shown(y))
  {
    Head(x);
    if x[0].c == '0' {
      y := x[1..];
      if y != [] { Head(y); }
      assert |Shown(x)| > 1 ==> Shown(x)[1] == Shown(x)[1..][0];
    } else {
      y := Digits1Blurs(x);
    }
  }

  lemma SignedBlurs(x: seq<Cell>) returns (y: seq<Cell>)
    requires Wf(x) && Signed(Plain(x)).Some?
    ensures Rest(x, y) && Signed(Plain(x)) == Some(Plain(y)) && Signed(Shown(x)) == Some(Shown(y))
  {
    Head(x);
    y := if x[0].c == '-' then x[1..] else x;
    y := IntPartBlurs(y);
  }

  lemma FractionBlurs(x: seq<Cell>) returns (y: seq<Cell>)
    requires Wf(x) && Fraction(Plain(x)).Some?
    ensures Rest(x, y) && Fraction(Plain(x)) == Some(Plain(y)) && Fraction(Shown(x)) == Some(Shown(y))
  {
    y := x;
    if x != [] {
      Head(x);
      if x[0].c == '.' { y := Digits1Blurs(x[1..]); }
    }
  }

  lemma SkipSignBlurs(x: seq<Cell>) returns (y: seq<Cell>)
    requires Wf(x)
    ensures Rest(x, y) && SkipSign(Plain(x)) == Plain(y) && SkipSign(Shown(x)) == Shown(y)
  {
    y := x;
    if x != [] {
      Head(x);
      if x[0].c == '+' || x[0].c == '-' { y := x[1..]; }
    }
  }

  lemma PowerBlurs(x: seq<Cell>) returns (y: seq<Cell>)
    requires Wf(x) && Digits1(SkipSign(Plain(x))).Some?
    ensures Rest(x, y)
    ensures Digits1(SkipSign(Plain(x))) == Some(Plain(y)) && Digits1(SkipSign(Shown(x))) == Some(Shown(y))
  {
    var digits := SkipSignBlurs(x);
    RestKeeps(x, digits);
    y := Digits1Blurs(digits);
    RestAppend(x, digits, y);
  }

  lemma ExponentBlurs(x: seq<Cell>) returns (y: seq<Cell>)
    requires Wf(x) && Exponent(Plain(x)).Some?
    ensures Rest(x, y) && Exponent(Plain(x)) == Some(Plain(y)) && Exponent(Shown(x)) == Some(Shown(y))
  {
    y := x;
    if x != [] {
      Head(x);
      if x[0].c == 'e' || x[0].c == 'E' { y := PowerBlurs(x[1..]); }
    }
  }

  lemma ScaleBlurs(x: seq<Cell>) returns (y: seq<Cell>)
    requires Wf(x) && Scale(Plain(x)).Some?
    ensures Rest(x, y) && Scale(Plain(x)) == Some(Plain(y)) && Scale(Shown(x)) == Some(Shown(y))
  {
    var a := FractionBlurs(x);
    RestKeeps(x, a);
    y := ExponentBlurs(a);
    RestAppend(x, a, y);
  }

  lemma AfterNumberBlurs(x: seq<Cell>) returns (y: seq<Cell>)
    requires Wf(x) && AfterNumber(Plain(x)).Some?
    ensures Rest(x, y) && AfterNumber(Plain(x)) == Some(Plain(y)) && AfterNumber(Shown(x)) == Some(Shown(y))
  {
    var a := SignedBlurs(x);
    RestKeeps(x, a);
    y := ScaleBlurs(a);
    RestAppend(x, a, y);
  }

  /** The text of a number is what stands before its rest. */
  lemma NumberIs(s: string, lexeme: string, rest: string)
    requires AfterNumber(s) == Some(rest) && s == lexeme + rest
    ensures Number(s) == Ok(Num(lexeme), rest)
  {
  }

  lemma NumberBlurs(x: seq<Cell>) returns (y: seq<Cell>)
    requires Wf(x) && Number(Plain(x)).Ok?
    ensures Wf(y) && Extra(y) == Extra(x) && |y| < |x|
    ensures Number(Plain(x)).rest == Plain(y) && Number(Shown(x)) == Ok(Number(Plain(x)).value, Shown(y))
  {
    y := AfterNumberBlurs(x);
    var front := RestFront(x, y);
    NumberIs(Plain(x), front, Plain(y));
    NumberIs(Shown(x), front, Shown(y));
  }

  lemma KeywordBlurs(x: seq<Cell>, word: string, v: Json) returns (y: seq<Cell>)
    requires Wf(x) && word != "" && word <= Plain(x) && forall i | 0 <= i < |word| :: word[i] < 0x80 as char
    ensures Wf(y) && Extra(y) == Extra(x) && |y| < |x|
    ensures Keyword(Plain(x), word, v) == Ok(v, Plain(y)) && Keyword(Shown(x), word, v) == Ok(v, Shown(y))
  {
    var k := |word|;
    y := x[k..];
    assert forall i | 0 <= i < k :: x[i].c == Plain(x)[i] == word[i];
    CleanFront(x, k);
    assert Shown(x)[..k] == word;
  }

  // --- Values ---

  /** A JSON value over cells. */
  datatype Tree =
    | TNull | TBool(b: bool) | TNum(lexeme: string) | TStr(text: seq<Cell>)
    | TArr(items: seq<Tree>) | TObj(members: seq<TMember>)

  datatype TMember = TMember(key: seq<Cell>, value: Tree)

  function Text(x: seq<Cell>, shown: bool): string { if shown then Shown(x) else Plain(x) }

  /** The value as it was sent, or as it is shown. */
  function View(t: Tree, shown: bool): Json
    decreases t
  {
    match t
    case TNull => Null
    case TBool(b) => Bool(b)
    case TNum(lexeme) => Num(lexeme)
    case TStr(text) => Str(Text(text, shown))
    case TArr(items) => Arr(ViewItems(items, shown))
    case TObj(members) => Obj(ViewMembers(members, shown))
  }

  function ViewItems(items: seq<Tree>, shown: bool): (r: seq<Json>)
    ensures |r| == |items|
    decreases items
  {
    if items == [] then [] else [View(items[0], shown)] + ViewItems(items[1..], shown)
  }

  function ViewMembers(members: seq<TMember>, shown: bool): (r: seq<Member>)
    ensures |r| == |members|
    decreases members
  {
    if members == [] then []
    else [Member(Text(members[0].key, shown), View(members[0].value, shown))] + ViewMembers(members[1..], shown)
  }

  predicate WfTree(t: Tree)
    decreases t
  {
    match t
    case TStr(text) => Wf(text)
    case TArr(items) => WfItems(items)
    case TObj(members) => WfMembers(members)
    case _ => true
  }

  predicate WfItems(items: seq<Tree>)
    decreases items
  {
    items == [] || (WfTree(items[0]) && WfItems(items[1..]))
  }

  predicate WfMembers(members: seq<TMember>)
    decreases members
  {
    members == [] || (Wf(members[0].key) && WfTree(members[0].value) && WfMembers(members[1..]))
  }

  function Growth(t: Tree): nat
    decreases t
  {
    match t
    case TStr(text) => Extra(text)
    case TArr(items) => GrowthItems(items)
    case TObj(members) => GrowthMembers(members)
    case _ => 0
  }

  function GrowthItems(items: seq<Tree>): nat
    decreases items
  {
    if items == [] then 0 else Growth(items[0]) + GrowthItems(items[1..])
  }

  function GrowthMembers(members: seq<TMember>): nat
    decreases members
  {
    if members == [] then 0 else Extra(members[0].key) + Growth(members[0].value) + GrowthMembers(members[1..])
  }

  lemma ColonBlurs(x: seq<Cell>) returns (y: seq<Cell>)
    requires Wf(x) && Colon(Plain(x)).Some?
    ensures Wf(y) && Extra(y) == Extra(x) && |y| < |x|
    ensures Colon(Plain(x)) == Some(Plain(y)) && Colon(Shown(x)) == Some(Shown(y))
  {
    y := SkipSpaceBlurs(x);
    Head(y);
    y := y[1..];
  }

  predicate KeyBlurred(x: seq<Cell>, k: seq<Cell>, y: seq<Cell>) {
    && Wf(k) && Behind(x, Extra(k), y)
    && Key(Plain(x)) == Ok(Plain(k), Plain(y)) && Key(Shown(x)) == Ok(Shown(k), Shown(y))
  }

  lemma KeyBlurs(x: seq<Cell>) returns (k: seq<Cell>, y: seq<Cell>)
    requires Wf(x) && Key(Plain(x)).Ok?
    ensures KeyBlurred(x, k, y)
  {
    var t := SkipSpaceBlurs(x);
    Head(t);
    k, y := StringTailBlurs(t[1..]);
    y := ColonBlurs(y);
  }

  lemma NextEntryBlurs(x: seq<Cell>, first: bool) returns (y: seq<Cell>)
    requires Wf(x) && NextEntry(Plain(x), first).Some?
    ensures Wf(y) && Extra(y) == Extra(x) && |y| <= |x|
    ensures NextEntry(Plain(x), first) == Some(Plain(y)) && NextEntry(Shown(x), first) == Some(Shown(y))
  {
    y := x;
    if !first {
      Head(x);
      y := x[1..];
    }
  }

  function ObjectRead(m: Parsed<seq<Member>>): Parsed<Json> { if m.Ok? then Ok(Obj(m.value), m.rest) else Fail }
  function ArrayRead(m: Parsed<seq<Json>>): Parsed<Json> { if m.Ok? then Ok(Arr(m.value), m.rest) else Fail }

  /** What the reader does behind leading space, by the first character. */
  lemma {:induction false} ReadsOn(s: string, t: string, depth: nat)
    requires t == SkipSpace(s) && t != ""
    ensures t[0] == '{' && depth > 1 ==> Value(s, depth) == ObjectRead(Members(t[1..], depth - 1, true))
    ensures t[0] == '[' && depth > 1 ==> Value(s, depth) == ArrayRead(Items(t[1..], depth - 1, true))
    ensures t[0] != '{' && t[0] != '[' ==> Value(s, depth) == Scalar(t)
  {
  }

  lemma WordBlurs(u: seq<Cell>, word: string, v: Json) returns (y: seq<Cell>)
    requires Wf(u) && (word == "null" || word == "true" || word == "false") && Keyword(Plain(u), word, v).Ok?
    ensures Wf(y) && Extra(y) == Extra(u) && |y| < |u|
    ensures Keyword(Plain(u), word, v) == Ok(v, Plain(y)) && Keyword(Shown(u), word, v) == Ok(v, Shown(y))
  {
    y := KeywordBlurs(u, word, v);
  }

  predicate IsWordStart(c: char) { c == 'n' || c == 't' || c == 'f' }

  /** Strings, keywords and numbers. */
  predicate ScalarBlurred(x: seq<Cell>, t: Tree, y: seq<Cell>)
    requires Plain(x) != "" && Shown(x) != ""
  {
    && WfTree(t) && Behind(x, Growth(t), y)
    && Scalar(Plain(x)) == Ok(View(t, false), Plain(y)) && Scalar(Shown(x)) == Ok(View(t, true), Shown(y))
  }

  lemma ScalarBlurs(x: seq<Cell>) returns (t: Tree, y: seq<Cell>)
    requires Wf(x) && x != [] && Scalar(Plain(x)).Ok?
    ensures Shown(x) != "" && ScalarBlurred(x, t, y)
  {
    Head(x);
    if x[0].c == '\"' {
      var text;
      text, y := StringTailBlurs(x[1..]);
      t := TStr(text);
    } else if IsWordStart(x[0].c) {
      t := if x[0].c == 'n' then TNull else TBool(x[0].c == 't');
      y := WordBlurs(x, if x[0].c == 'n' then "null" else if x[0].c == 't' then "true" else "false", View(t, false));
    } else {
      y := NumberBlurs(x);
      t := TNum(Number(Plain(x)).value.lexeme);
    }
  }

  lemma {:induction false} ConsMember(k: seq<Cell>, t: Tree, more: seq<TMember>)
    ensures var ms := [TMember(k, t)] + more;
      && (forall shown :: ViewMembers(ms, shown) == [Member(Text(k, shown), View(t, shown))] + ViewMembers(more, shown))
      && GrowthMembers(ms) == Extra(k) + Growth(t) + GrowthMembers(more)
      && (WfMembers(ms) <==> Wf(k) && WfTree(t) && WfMembers(more))
  {
    assert ([TMember(k, t)] + more)[1..] == more;
  }

  /** A value is read up to the same place; nothing but the characters of its strings differs. */
  predicate ValueBlurred(x: seq<Cell>, depth: nat, t: Tree, y: seq<Cell>) {
    && WfTree(t) && Behind(x, Growth(t), y)
    && Value(Plain(x), depth) == Ok(View(t, false), Plain(y)) && Value(Shown(x), depth) == Ok(View(t, true), Shown(y))
  }

  predicate ItemsBlurred(x: seq<Cell>, depth: nat, first: bool, ts: seq<Tree>, y: seq<Cell>) {
    && WfItems(ts) && Behind(x, GrowthItems(ts), y)
    && Items(Plain(x), depth, first) == Ok(ViewItems(ts, false), Plain(y))
    && Items(Shown(x), depth, first) == Ok(ViewItems(ts, true), Shown(y))
  }

  predicate MembersBlurred(x: seq<Cell>, depth: nat, first: bool, ms: seq<TMember>, y: seq<Cell>) {
    && WfMembers(ms) && Behind(x, GrowthMembers(ms), y)
    && Members(Plain(x), depth, first) == Ok(ViewMembers(ms, false), Plain(y))
    && Members(Shown(x), depth, first) == Ok(ViewMembers(ms, true), Shown(y))
  }

  lemma ObjectBlurs(x: seq<Cell>, u: seq<Cell>, depth: nat) returns (t: Tree, y: seq<Cell>)
    requires Skipped(x, u) && u != [] && u[0].c == '{' && Value(Plain(x), depth).Ok?
    ensures ValueBlurred(x, depth, t, y)
    decreases |u|, 0
  {
    Head(u);
    ReadsOn(Plain(x), Plain(u), depth);
    var members;
    members, y := MembersBlur(u[1..], depth - 1, true);
    t := TObj(members);
    ReadsOn(Shown(x), Shown(u), depth);
  }

  lemma ArrayBlurs(x: seq<Cell>, u: seq<Cell>, depth: nat) returns (t: Tree, y: seq<Cell>)
    requires Skipped(x, u) && u != [] && u[0].c == '[' && Value(Plain(x), depth).Ok?
    ensures ValueBlurred(x, depth, t, y)
    decreases |u|, 0
  {
    Head(u);
    ReadsOn(Plain(x), Plain(u), depth);
    var items;
    items, y := ItemsBlur(u[1..], depth - 1, true);
    t := TArr(items);
    ReadsOn(Shown(x), Shown(u), depth);
  }

  lemma {:induction false} ValueBlurs(x: seq<Cell>, depth: nat) returns (t: Tree, y: seq<Cell>)
    requires Wf(x) && Value(Plain(x), depth).Ok?
    ensures ValueBlurred(x, depth, t, y)
    decreases |x|, 1
  {
    var u := SkipSpaceBlurs(x);
    Head(u);
    if u[0].c == '{' {
      t, y := ObjectBlurs(x, u, depth);
    } else if u[0].c == '[' {
      t, y := ArrayBlurs(x, u, depth);
    } else {
      ReadsOn(Plain(x), Plain(u), depth);
      t, y := ScalarBlurs(u);
      ReadsOn(Shown(x), Shown(u), depth);
    }
  }

  lemma {:induction false} ConsItem(t: Tree, more: seq<Tree>)
    ensures var ts := [t] + more;
      && (forall shown :: ViewItems(ts, shown) == [View(t, shown)] + ViewItems(more, shown))
      && GrowthItems(ts) == Growth(t) + GrowthItems(more) && (WfItems(ts) <==> WfTree(t) && WfItems(more))
  {
    assert ([t] + more)[1..] == more;
  }

  /** One entry and what follows it. */
  lemma {:induction false} ItemsOn(s: string, u: string, v: Json, r: string, more: seq<Json>, rest: string,
                                   depth: nat, first: bool)
    requires var t := SkipSpace(s); (t == "" || t[0] != ']') && NextEntry(t, first) == Some(u)
    requires Value(u, depth) == Ok(v, r) && Items(r, depth, false) == Ok(more, rest)
    ensures Items(s, depth, first) == Ok([v] + more, rest)
  {
  }

  lemma {:induction false} MembersOn(s: string, u: string, m: Member, q: string, r: string, more: seq<Member>,
                                     rest: string, depth: nat, first: bool)
    requires var t := SkipSpace(s); (t == "" || t[0] != '}') && NextEntry(t, first) == Some(u)
    requires Key(u) == Ok(m.key, q) && Value(q, depth) == Ok(m.value, r) && Members(r, depth, false) == Ok(more, rest)
    ensures Members(s, depth, first) == Ok([m] + more, rest)
  {
  }

  lemma {:induction false} ItemsBlur(x: seq<Cell>, depth: nat, first: bool) returns (ts: seq<Tree>, y: seq<Cell>)
    requires Wf(x) && Items(Plain(x), depth, first).Ok?
    ensures ItemsBlurred(x, depth, first, ts, y)
    decreases |x|, 2
  {
    var u := SkipSpaceBlurs(x);
    if u != [] { Head(u); }
    if u != [] && u[0].c == ']' {
      ts, y := [], u[1..];
    } else {
      var e := NextEntryBlurs(u, first);
      var t, z := ValueBlurs(e, depth);
      var more;
      more, y := ItemsBlur(z, depth, false);
      ts := [t] + more;
      ConsItem(t, more);
      ItemsOn(Plain(x), Plain(e), View(t, false), Plain(z), ViewItems(more, false), Plain(y), depth, first);
      ItemsOn(Shown(x), Shown(e), View(t, true), Shown(z), ViewItems(more, true), Shown(y), depth, first);
    }
  }

  lemma {:induction false} MembersBlur(x: seq<Cell>, depth: nat, first: bool)
    returns (ms: seq<TMember>, y: seq<Cell>)
    requires Wf(x) && Members(Plain(x), depth, first).Ok?
    ensures MembersBlurred(x, depth, first, ms, y)
    decreases |x|, 2
  {
    var u := SkipSpaceBlurs(x);
    if u != [] { Head(u); }
    if u != [] && u[0].c == '}' {
      ms, y := [], u[1..];
    } else {
      var e := NextEntryBlurs(u, first);
      var k, w := KeyBlurs(e);
      var t, z := ValueBlurs(w, depth);
      var more;
      more, y := MembersBlur(z, depth, false);
      ms := [TMember(k, t)] + more;
      ConsMember(k, t, more);
      MembersOn(Plain(x), Plain(e), Member(Plain(k), View(t, false)), Plain(w), Plain(z), ViewMembers(more, false),
                Plain(y), depth, first);
      MembersOn(Shown(x), Shown(e), Member(Shown(k), View(t, true)), Shown(w), Shown(z), ViewMembers(more, true),
                Shown(y), depth, first);
    }
  }
}
