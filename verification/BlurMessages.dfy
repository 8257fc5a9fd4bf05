/**
  Reading a blurred message: the fields of the same message, some of their strings blurred, and the message
  that was sent exactly if nothing was.
 */
module BlurMessages {
  import opened Prelude
  import opened Utf8
  import opened Lossy
  import opened Json
  import opened JsonPrefix
  import opened JsonPrint
  import opened VsockMessages
  import opened BlurJson

  // --- Trees ---

  lemma {:induction false} MemberAt(ms: seq<TMember>, i: nat, shown: bool)
    requires i < |ms|
    ensures ViewMembers(ms, shown)[i] == Member(Text(ms[i].key, shown), View(ms[i].value, shown))
  {
    if i > 0 { MemberAt(ms[1..], i - 1, shown); }
  }

  lemma {:induction false} WfAt(ms: seq<TMember>, i: nat)
    requires WfMembers(ms) && i < |ms|
    ensures Wf(ms[i].key) && WfTree(ms[i].value)
  {
    if i > 0 { WfAt(ms[1..], i - 1); }
  }

  predicate MemberGrows(m: TMember) { Extra(m.key) + Growth(m.value) > 0 }

  lemma {:induction false} GrowthSum(ms: seq<TMember>)
    ensures GrowthMembers(ms) > 0 <==> exists i :: 0 <= i < |ms| && MemberGrows(ms[i])
  {
    if ms != [] {
      GrowthSum(ms[1..]);
      if i :| 0 <= i < |ms[1..]| && MemberGrows(ms[1..][i]) { assert MemberGrows(ms[i + 1]); }
      if i :| 0 <= i < |ms| && MemberGrows(ms[i]) { assert i > 0 ==> MemberGrows(ms[1..][i - 1]); }
    }
  }

  /** Without growth nothing differs. */
  lemma {:induction false} NoGrowth(t: Tree)
    requires WfTree(t) && Growth(t) == 0
    ensures View(t, true) == View(t, false)
    decreases t
  {
    match t {
      case TStr(text) => ShownLength(text);
      case TArr(items) => NoGrowthItems(items);
      case TObj(members) => NoGrowthMembers(members);
      case _ =>
    }
  }

  lemma {:induction false} NoGrowthItems(items: seq<Tree>)
    requires WfItems(items) && GrowthItems(items) == 0
    ensures ViewItems(items, true) == ViewItems(items, false)
    decreases items
  {
    if items != [] {
      NoGrowth(items[0]);
      NoGrowthItems(items[1..]);
    }
  }

  lemma {:induction false} NoGrowthMembers(members: seq<TMember>)
    requires WfMembers(members) && GrowthMembers(members) == 0
    ensures ViewMembers(members, true) == ViewMembers(members, false)
    decreases members
  {
    if members != [] {
      ShownLength(members[0].key);
      NoGrowth(members[0].value);
      NoGrowthMembers(members[1..]);
    }
  }

  // --- Values without non-ASCII characters ---

  predicate AsciiString(s: string) { forall i | 0 <= i < |s| :: s[i] < 0x80 as char }

  lemma {:induction false} AsciiClean(x: seq<Cell>)
    requires Wf(x) && AsciiString(Plain(x))
    ensures Extra(x) == 0 && Shown(x) == Plain(x)
  {
    forall i | 0 <= i < |x| ensures x[i].n == 0 { assert Plain(x)[i] < 0x80 as char; }
    NoCuts(x);
    ShownLength(x);
  }

  lemma {:induction false} NoCuts(x: seq<Cell>)
    requires forall i | 0 <= i < |x| :: x[i].n == 0
    ensures Extra(x) == 0
  {
    if x != [] { NoCuts(x[1..]); }
  }

  /** Numbers, keywords, ASCII strings and arrays of numbers. */
  predicate Clean(j: Json) {
    match j
    case Str(text) => AsciiString(text)
    case Arr(items) => forall i | 0 <= i < |items| :: items[i].Num?
    case Obj(_) => false
    case _ => true
  }

  lemma {:induction false} NumbersClean(items: seq<Tree>)
    requires forall i | 0 <= i < |items| :: ViewItems(items, false)[i].Num?
    ensures GrowthItems(items) == 0
  {
    if items != [] {
      assert ViewItems(items, false)[0].Num?;
      forall i | 0 <= i < |items[1..]| ensures ViewItems(items[1..], false)[i].Num? {
        assert ViewItems(items, false)[i + 1] == ViewItems(items[1..], false)[i];
      }
      NumbersClean(items[1..]);
    }
  }

  lemma {:induction false} CleanStays(t: Tree)
    requires WfTree(t) && Clean(View(t, false))
    ensures Growth(t) == 0 && View(t, true) == View(t, false)
  {
    match t {
      case TStr(text) => AsciiClean(text);
      case TArr(items) => NumbersClean(items);
      case _ =>
    }
    NoGrowth(t);
  }

  // --- Fields ---

  /** The object of a message: its keys are ASCII and distinct. */
  predicate Struct(ms: seq<Member>) { DistinctKeys(ms) && forall k | 0 <= k < |ms| :: AsciiString(ms[k].key) }

  /** The keys of a struct are ASCII, so they are found in the blurred object too, each at its place. */
  lemma {:induction false} FieldAt(ms: seq<TMember>, i: nat)
    requires WfMembers(ms) && i < |ms| && Struct(ViewMembers(ms, false))
    ensures Find(ViewMembers(ms, true), ViewMembers(ms, false)[i].key) == Once(View(ms[i].value, true))
    ensures WfTree(ms[i].value) && View(ms[i].value, false) == ViewMembers(ms, false)[i].value && Extra(ms[i].key) == 0
  {
    var plain, shown := ViewMembers(ms, false), ViewMembers(ms, true);
    forall k | 0 <= k < |ms| ensures shown[k].key == plain[k].key && Extra(ms[k].key) == 0 {
      MemberAt(ms, k, false);
      MemberAt(ms, k, true);
      WfAt(ms, k);
      AsciiClean(ms[k].key);
    }
    assert DistinctKeys(shown);
    FindAt(shown, i);
    MemberAt(ms, i, false);
    MemberAt(ms, i, true);
    WfAt(ms, i);
  }

  lemma StringBlurs(t: Tree, s: string) returns (s': string)
    requires WfTree(t) && View(t, false) == Str(s)
    ensures View(t, true) == Str(s') && (s' == s <==> Growth(t) == 0)
  {
    s' := Shown(t.text);
    ShownLength(t.text);
  }

  lemma {:induction false} MapTail<A, B>(f: A -> B, xs: seq<A>)
    requires xs != []
    ensures MapSeq(f, xs)[0] == f(xs[0]) && MapSeq(f, xs)[1..] == MapSeq(f, xs[1..])
  {
  }

  lemma {:induction false} ViewTail(items: seq<Tree>, shown: bool)
    requires items != []
    ensures ViewItems(items, shown)[0] == View(items[0], shown)
    ensures ViewItems(items, shown)[1..] == ViewItems(items[1..], shown)
  {
  }

  lemma ConsSame<T>(x: T, xs: seq<T>, ys: seq<T>)
    requires ys != []
    ensures [x] + xs == ys <==> x == ys[0] && xs == ys[1..]
  {
    assert ([x] + xs)[1..] == xs;
  }

  lemma {:induction false} StringsBlur(items: seq<Tree>, ss: seq<string>) returns (ss': seq<string>)
    requires WfItems(items) && ViewItems(items, false) == MapSeq(StringJson, ss)
    ensures ReadAll(ViewItems(items, true), ReadString) == Some(ss') && (ss' == ss <==> GrowthItems(items) == 0)
  {
    ss' := [];
    if items != [] {
      MapTail(StringJson, ss);
      ViewTail(items, false);
      ViewTail(items, true);
      var first := StringBlurs(items[0], ss[0]);
      var rest := StringsBlur(items[1..], ss[1..]);
      ss' := [first] + rest;
      ConsSame(first, rest, ss);
    } else {
      assert ss == [];
    }
  }

  // --- Headers ---

  predicate AllStrings(ms: seq<Member>) { forall i | 0 <= i < |ms| :: ms[i].value.Str? }

  lemma {:induction false} EntriesRead(ms: seq<Member>)
    requires AllStrings(ms)
    ensures ReadEntries(ms).Some?
    ensures forall k :: k in ReadEntries(ms).value <==> exists i :: 0 <= i < |ms| && ms[i].key == k
  {
    if ms != [] {
      var front, last := ms[..|ms| - 1], ms[|ms| - 1];
      EntriesRead(front);
      forall k ensures k in ReadEntries(ms).value <==> exists i :: 0 <= i < |ms| && ms[i].key == k {
        if k in ReadEntries(front).value {
          var i :| 0 <= i < |front| && front[i].key == k;
          assert ms[i].key == k;
        }
        if i :| 0 <= i < |ms| && ms[i].key == k {
          assert i < |front| ==> front[i].key == k;
        }
      }
    }
  }

  lemma {:induction false} EntryAt(ms: seq<Member>, i: nat)
    requires AllStrings(ms) && DistinctKeys(ms) && i < |ms|
    ensures ReadEntries(ms).Some? && ms[i].key in ReadEntries(ms).value
    ensures ReadEntries(ms).value[ms[i].key] == ms[i].value.text
  {
    EntriesRead(ms);
    if i < |ms| - 1 { EntryAt(ms[..|ms| - 1], i); }
  }

  /** If the map of the blurred headers has the keys of the plain ones, then no key is blurred. */
  lemma {:induction false} NoKeyGrows(ms: seq<TMember>, i: nat)
    requires WfMembers(ms) && i < |ms| && DistinctKeys(ViewMembers(ms, false))
    requires forall k | 0 <= k < |ms| ::
      exists m :: 0 <= m < |ms| && ViewMembers(ms, true)[m].key == ViewMembers(ms, false)[k].key
    ensures Extra(ms[i].key) == 0
    decreases |ms[i].key|
  {
    var m :| 0 <= m < |ms| && ViewMembers(ms, true)[m].key == ViewMembers(ms, false)[i].key;
    MemberAt(ms, m, true);
    MemberAt(ms, i, false);
    MemberAt(ms, m, false);
    WfAt(ms, m);
    ShownLength(ms[m].key);
    if m != i && Extra(ms[m].key) > 0 { NoKeyGrows(ms, m); }
  }

  lemma HeadersBlur(t: Tree, h: Headers, order: seq<string>) returns (h': Headers)
    requires WfTree(t) && Enumerates(order, h) && View(t, false) == HeadersJson(h, order)
    ensures ReadHeaders(View(t, true)) == Some(h') && (h' == h <==> Growth(t) == 0)
  {
    var ms := t.members;
    var plain, shown := ViewMembers(ms, false), ViewMembers(ms, true);
    forall k | 0 <= k < |ms| ensures shown[k].value.Str? && WfTree(ms[k].value) && plain[k].value == Str(h[order[k]]) {
      MemberAt(ms, k, false);
      MemberAt(ms, k, true);
      WfAt(ms, k);
      var _ := StringBlurs(ms[k].value, h[order[k]]);
    }
    EntriesRead(shown);
    h' := ReadEntries(shown).value;
    if Growth(t) == 0 {
      NoGrowth(t);
      HeadersBack(h, order);
    }
    if h' == h { SameHeaders(ms, h, order); }
  }

  lemma {:induction false} KeyFound(ms: seq<TMember>, h: Headers, order: seq<string>, k: nat) returns (m: nat)
    requires Enumerates(order, h) && Obj(ViewMembers(ms, false)) == HeadersJson(h, order)
    requires AllStrings(ViewMembers(ms, true)) && ReadEntries(ViewMembers(ms, true)) == Some(h) && k < |ms|
    ensures m < |ms| && ViewMembers(ms, true)[m].key == ViewMembers(ms, false)[k].key
  {
    EntriesRead(ViewMembers(ms, true));
    assert ViewMembers(ms, false)[k].key == order[k] && order[k] in h;
    m :| m < |ms| && ViewMembers(ms, true)[m].key == order[k];
  }

  /** Keys that are found again unblurred are not blurred, so every value is found under its own key. */
  lemma {:induction false} KeysStay(ms: seq<TMember>, h: Headers, order: seq<string>, i: nat)
    requires WfMembers(ms) && Enumerates(order, h) && Obj(ViewMembers(ms, false)) == HeadersJson(h, order)
    requires AllStrings(ViewMembers(ms, true)) && ReadEntries(ViewMembers(ms, true)) == Some(h) && i < |ms|
    ensures Extra(ms[i].key) == 0 && ViewMembers(ms, true)[i].key == ViewMembers(ms, false)[i].key
  {
    forall k | 0 <= k < |ms|
      ensures exists m :: 0 <= m < |ms| && ViewMembers(ms, true)[m].key == ViewMembers(ms, false)[k].key
    {
      var m := KeyFound(ms, h, order, k);
    }
    NoKeyGrows(ms, i);
    WfAt(ms, i);
    ShownLength(ms[i].key);
    MemberAt(ms, i, true);
    MemberAt(ms, i, false);
  }

  lemma {:induction false} ValueStays(ms: seq<TMember>, h: Headers, order: seq<string>, i: nat)
    requires WfMembers(ms) && Enumerates(order, h) && Obj(ViewMembers(ms, false)) == HeadersJson(h, order)
    requires AllStrings(ViewMembers(ms, true)) && ReadEntries(ViewMembers(ms, true)) == Some(h) && i < |ms|
    requires DistinctKeys(ViewMembers(ms, true)) && ViewMembers(ms, true)[i].key == ViewMembers(ms, false)[i].key
    ensures Growth(ms[i].value) == 0
  {
    EntryAt(ViewMembers(ms, true), i);
    MemberAt(ms, i, true);
    MemberAt(ms, i, false);
    WfAt(ms, i);
    assert ViewMembers(ms, false)[i] == Member(order[i], Str(h[order[i]]));
    var _ := StringBlurs(ms[i].value, h[order[i]]);
  }

  lemma {:induction false} SameHeaders(ms: seq<TMember>, h: Headers, order: seq<string>)
    requires WfMembers(ms) && Enumerates(order, h) && Obj(ViewMembers(ms, false)) == HeadersJson(h, order)
    requires AllStrings(ViewMembers(ms, true)) && ReadEntries(ViewMembers(ms, true)) == Some(h)
    ensures GrowthMembers(ms) == 0
  {
    forall k | 0 <= k < |ms|
      ensures Extra(ms[k].key) == 0 && ViewMembers(ms, true)[k].key == order[k]
    {
      KeysStay(ms, h, order, k);
    }
    assert DistinctKeys(ViewMembers(ms, true));
    forall k | 0 <= k < |ms| ensures !MemberGrows(ms[k]) { ValueStays(ms, h, order, k); }
    GrowthSum(ms);
  }

  // --- Messages ---

  /** The members `p` of a struct and the blurred ones `q`. */
  predicate Viewed(ms: seq<TMember>, p: seq<Member>, q: seq<Member>) {
    WfMembers(ms) && Struct(p) && p == ViewMembers(ms, false) && q == ViewMembers(ms, true)
  }

  /** A field with a clean value. */
  lemma {:induction false} CleanField(ms: seq<TMember>, p: seq<Member>, q: seq<Member>, i: nat)
    requires Viewed(ms, p, q) && i < |p| == |ms| && Clean(p[i].value)
    ensures Find(q, p[i].key) == Once(p[i].value) && !MemberGrows(ms[i])
  {
    FieldAt(ms, i);
    CleanStays(ms[i].value);
  }

  lemma StringField(ms: seq<TMember>, p: seq<Member>, q: seq<Member>, i: nat, s: string) returns (s': string)
    requires Viewed(ms, p, q) && i < |p| == |ms| && p[i].value == Str(s)
    ensures Find(q, p[i].key) == Once(Str(s')) && (s' == s <==> !MemberGrows(ms[i]))
  {
    FieldAt(ms, i);
    s' := StringBlurs(ms[i].value, s);
  }

  lemma OptionStringField(ms: seq<TMember>, p: seq<Member>, q: seq<Member>, i: nat, o: Option<string>)
    returns (o': Option<string>)
    requires Viewed(ms, p, q) && i < |p| == |ms| && p[i].value == OptionJson(o, StringJson)
    ensures Find(q, p[i].key) == Once(OptionJson(o', StringJson)) && (o' == o <==> !MemberGrows(ms[i]))
  {
    if o.Some? {
      var s := StringField(ms, p, q, i, o.value);
      o' := Some(s);
    } else {
      CleanField(ms, p, q, i);
      o' := None;
    }
  }

  lemma StringsField(ms: seq<TMember>, p: seq<Member>, q: seq<Member>, i: nat, ss: seq<string>)
    returns (j: Json, ss': seq<string>)
    requires Viewed(ms, p, q) && i < |p| == |ms| && p[i].value == Arr(MapSeq(StringJson, ss))
    ensures Find(q, p[i].key) == Once(j) && ReadStrings(j) == Some(ss') && (ss' == ss <==> !MemberGrows(ms[i]))
  {
    FieldAt(ms, i);
    j := View(ms[i].value, true);
    ss' := StringsBlur(ms[i].value.items, ss);
  }

  lemma HeadersField(ms: seq<TMember>, p: seq<Member>, q: seq<Member>, i: nat, h: Headers, order: seq<string>)
    returns (j: Json, h': Headers)
    requires Viewed(ms, p, q) && i < |p| == |ms| && Enumerates(order, h) && p[i].value == HeadersJson(h, order)
    ensures Find(q, p[i].key) == Once(j) && ReadHeaders(j) == Some(h') && (h' == h <==> !MemberGrows(ms[i]))
  {
    FieldAt(ms, i);
    j := View(ms[i].value, true);
    h' := HeadersBlur(ms[i].value, h, order);
  }

  lemma {:induction false} FiveGrow(ms: seq<TMember>)
    requires |ms| == 5
    ensures GrowthMembers(ms) == 0 <==>
      !(MemberGrows(ms[0]) || MemberGrows(ms[1]) || MemberGrows(ms[2]) || MemberGrows(ms[3]) || MemberGrows(ms[4]))
  {
    GrowthSum(ms);
  }

  lemma {:induction false} SevenGrow(ms: seq<TMember>)
    requires |ms| == 7
    ensures GrowthMembers(ms) == 0 <==>
      !(MemberGrows(ms[0]) || MemberGrows(ms[1]) || MemberGrows(ms[2]) || MemberGrows(ms[3]) || MemberGrows(ms[4])
        || MemberGrows(ms[5]) || MemberGrows(ms[6]))
  {
    GrowthSum(ms);
  }

  lemma AsciiKeys()
    ensures AsciiString("type") && AsciiString("id") && AsciiString("command") && AsciiString("args")
    ensures AsciiString("working_dir") && AsciiString("timeout_seconds") && AsciiString("mode")
    ensures AsciiString("method") && AsciiString("url") && AsciiString("headers") && AsciiString("body")
    ensures AsciiString("status_code") && AsciiString("error")
  {
  }

  lemma CommandParts(c: VmCommand)
    ensures var p := CommandMembers(c);
      && Struct(p) && |p| == 7 && p[0] == Member("type", Str("Command"))
      && p[1] == Member("id", Str(c.id)) && p[2] == Member("command", Str(c.command))
      && p[3] == Member("args", Arr(MapSeq(StringJson, c.args)))
      && p[4] == Member("working_dir", OptionJson(c.workingDir, StringJson))
      && p[5] == Member("timeout_seconds", OptionJson(c.timeoutSeconds, (n: nat) => IntegerJson(n)))
      && p[6] == Member("mode", ModeJson(c.mode))
  {
    AsciiKeys();
  }

  lemma CommandClean(c: VmCommand)
    ensures Clean(Str("Command")) && Clean(ModeJson(c.mode))
    ensures Clean(OptionJson(c.timeoutSeconds, (n: nat) => IntegerJson(n)))
  {
  }

  /** The members of a command, whatever their keys. */
  predicate CommandGiven(p: seq<Member>, c: VmCommand) {
    && Struct(p) && |p| == 7
    && Clean(p[0].value) && p[1].value == Str(c.id) && p[2].value == Str(c.command)
    && p[3].value == Arr(MapSeq(StringJson, c.args)) && p[4].value == OptionJson(c.workingDir, StringJson)
    && Clean(p[5].value) && Clean(p[6].value)
  }

  /** The members of a command found in `q` under the keys of `p`. */
  predicate CommandFound(q: seq<Member>, p: seq<Member>, c: VmCommand, args: Json) {
    && |p| == 7 && Find(q, p[0].key) == Once(p[0].value)
    && Find(q, p[1].key) == Once(Str(c.id)) && Find(q, p[2].key) == Once(Str(c.command))
    && Find(q, p[3].key) == Once(args) && ReadStrings(args) == Some(c.args)
    && Find(q, p[4].key) == Once(OptionJson(c.workingDir, StringJson))
    && Find(q, p[5].key) == Once(p[5].value) && Find(q, p[6].key) == Once(p[6].value)
  }

  lemma CommandMembersBlur(ms: seq<TMember>, p: seq<Member>, c: VmCommand) returns (c': VmCommand, args: Json)
    requires WfMembers(ms) && p == ViewMembers(ms, false) && CommandGiven(p, c)
    ensures CommandFound(ViewMembers(ms, true), p, c', args)
    ensures c'.timeoutSeconds == c.timeoutSeconds && c'.mode == c.mode && (c' == c <==> GrowthMembers(ms) == 0)
  {
    var q := ViewMembers(ms, true);
    CleanField(ms, p, q, 0);
    var id := StringField(ms, p, q, 1, c.id);
    var command := StringField(ms, p, q, 2, c.command);
    var strings;
    args, strings := StringsField(ms, p, q, 3, c.args);
    var workingDir := OptionStringField(ms, p, q, 4, c.workingDir);
    CleanField(ms, p, q, 5);
    CleanField(ms, p, q, 6);
    c' := VmCommand(id, command, strings, workingDir, c.timeoutSeconds, c.mode);
    SevenGrow(ms);
  }

  /** A request of the same kind: what holds no text is the same. */
  predicate SameKind(r: VsockRequest, q: VsockRequest) {
    && (r.Command? <==> q.Command?)
    && (r.Command? ==> q.command.mode == r.command.mode && q.command.timeoutSeconds == r.command.timeoutSeconds)
    && (r.HttpProxy? ==> q.request.body == r.request.body)
  }

  lemma CommandBlurs(c: VmCommand, t: Tree) returns (c': VmCommand)
    requires WfTree(t) && View(t, false) == Obj(CommandMembers(c))
    requires c.timeoutSeconds.Some? ==> c.timeoutSeconds.value < U64
    ensures ReadRequest(View(t, true)) == Some(Command(c')) && (c' == c <==> Growth(t) == 0)
    ensures SameKind(Command(c), Command(c'))
  {
    CommandParts(c);
    CommandClean(c);
    var args;
    c', args := CommandMembersBlur(t.members, CommandMembers(c), c);
    CommandRead(ViewMembers(t.members, true), c', args);
  }

  lemma ProxyRequestParts(r: HttpProxyRequest, order: seq<string>)
    requires Enumerates(order, r.headers)
    ensures var p := ProxyRequestMembers(r, order);
      && Struct(p) && |p| == 5 && p[0] == Member("type", Str("HttpProxy"))
      && p[1] == Member("method", Str(r.httpMethod)) && p[2] == Member("url", Str(r.url))
      && p[3] == Member("headers", HeadersJson(r.headers, order))
      && p[4] == Member("body", OptionJson(r.body, BytesJson))
    ensures Clean(Str("HttpProxy")) && Clean(OptionJson(r.body, BytesJson))
  {
    AsciiKeys();
  }

  predicate ProxyRequestGiven(p: seq<Member>, r: HttpProxyRequest, order: seq<string>) {
    && Enumerates(order, r.headers) && Struct(p) && |p| == 5
    && Clean(p[0].value) && p[1].value == Str(r.httpMethod) && p[2].value == Str(r.url)
    && p[3].value == HeadersJson(r.headers, order) && Clean(p[4].value)
  }

  predicate ProxyRequestFound(q: seq<Member>, p: seq<Member>, r: HttpProxyRequest, headers: Json) {
    && |p| == 5 && Find(q, p[0].key) == Once(p[0].value)
    && Find(q, p[1].key) == Once(Str(r.httpMethod)) && Find(q, p[2].key) == Once(Str(r.url))
    && Find(q, p[3].key) == Once(headers) && ReadHeaders(headers) == Some(r.headers)
    && Find(q, p[4].key) == Once(p[4].value)
  }

  lemma ProxyRequestMembersBlur(ms: seq<TMember>, p: seq<Member>, r: HttpProxyRequest, order: seq<string>)
    returns (r': HttpProxyRequest, headers: Json)
    requires WfMembers(ms) && p == ViewMembers(ms, false) && ProxyRequestGiven(p, r, order)
    ensures ProxyRequestFound(ViewMembers(ms, true), p, r', headers)
    ensures r'.body == r.body && (r' == r <==> GrowthMembers(ms) == 0)
  {
    var q := ViewMembers(ms, true);
    CleanField(ms, p, q, 0);
    var httpMethod := StringField(ms, p, q, 1, r.httpMethod);
    var url := StringField(ms, p, q, 2, r.url);
    var h;
    headers, h := HeadersField(ms, p, q, 3, r.headers, order);
    CleanField(ms, p, q, 4);
    r' := HttpProxyRequest(httpMethod, url, h, r.body);
    FiveGrow(ms);
  }

  lemma ProxyRequestBlurs(r: HttpProxyRequest, order: seq<string>, t: Tree) returns (r': HttpProxyRequest)
    requires Enumerates(order, r.headers) && WfTree(t) && View(t, false) == Obj(ProxyRequestMembers(r, order))
    ensures ReadRequest(View(t, true)) == Some(HttpProxy(r')) && (r' == r <==> Growth(t) == 0)
    ensures SameKind(HttpProxy(r), HttpProxy(r'))
  {
    ProxyRequestParts(r, order);
    var headers;
    r', headers := ProxyRequestMembersBlur(t.members, ProxyRequestMembers(r, order), r, order);
    ProxyRequestRead(ViewMembers(t.members, true), r', headers);
  }

  lemma ProxyResponseParts(r: HttpProxyResponse, order: seq<string>)
    requires Enumerates(order, r.headers)
    ensures var p := ProxyResponseMembers(r, order);
      && Struct(p) && |p| == 5 && p[0] == Member("type", Str("HttpProxy"))
      && p[1] == Member("status_code", IntegerJson(r.statusCode))
      && p[2] == Member("headers", HeadersJson(r.headers, order)) && p[3] == Member("body", BytesJson(r.body))
      && p[4] == Member("error", OptionJson(r.error, StringJson))
    ensures Clean(Str("HttpProxy")) && Clean(IntegerJson(r.statusCode)) && Clean(BytesJson(r.body))
  {
    AsciiKeys();
  }

  predicate ProxyResponseGiven(p: seq<Member>, r: HttpProxyResponse, order: seq<string>) {
    && Enumerates(order, r.headers) && Struct(p) && |p| == 5
    && Clean(p[0].value) && Clean(p[1].value) && p[2].value == HeadersJson(r.headers, order)
    && Clean(p[3].value) && p[4].value == OptionJson(r.error, StringJson)
  }

  predicate ProxyResponseFound(q: seq<Member>, p: seq<Member>, r: HttpProxyResponse, headers: Json) {
    && |p| == 5 && Find(q, p[0].key) == Once(p[0].value) && Find(q, p[1].key) == Once(p[1].value)
    && Find(q, p[2].key) == Once(headers) && ReadHeaders(headers) == Some(r.headers)
    && Find(q, p[3].key) == Once(p[3].value) && Find(q, p[4].key) == Once(OptionJson(r.error, StringJson))
  }

  lemma ProxyResponseMembersBlur(ms: seq<TMember>, p: seq<Member>, r: HttpProxyResponse, order: seq<string>)
    returns (r': HttpProxyResponse, headers: Json)
    requires WfMembers(ms) && p == ViewMembers(ms, false) && ProxyResponseGiven(p, r, order)
    ensures ProxyResponseFound(ViewMembers(ms, true), p, r', headers)
    ensures r'.statusCode == r.statusCode && r'.body == r.body && (r' == r <==> GrowthMembers(ms) == 0)
  {
    var q := ViewMembers(ms, true);
    CleanField(ms, p, q, 0);
    CleanField(ms, p, q, 1);
    var h;
    headers, h := HeadersField(ms, p, q, 2, r.headers, order);
    CleanField(ms, p, q, 3);
    var error := OptionStringField(ms, p, q, 4, r.error);
    r' := HttpProxyResponse(r.statusCode, h, r.body, error);
    FiveGrow(ms);
  }

  lemma ProxyResponseBlurs(r: HttpProxyResponse, order: seq<string>, t: Tree) returns (r': HttpProxyResponse)
    requires Enumerates(order, r.headers) && WfTree(t) && View(t, false) == Obj(ProxyResponseMembers(r, order))
    requires r.statusCode < 0x1_0000
    ensures ReadResponse(View(t, true)) == Some(HttpProxied(r')) && (r' == r <==> Growth(t) == 0)
    ensures r'.statusCode == r.statusCode && r'.body == r.body
  {
    ProxyResponseParts(r, order);
    var headers;
    r', headers := ProxyResponseMembersBlur(t.members, ProxyResponseMembers(r, order), r, order);
    ProxyResponseRead(ViewMembers(t.members, true), r', headers);
  }

  // --- Texts ---

  /** A text sent in chunks is read as the blurred value, and blurred exactly if a chunk is invalid. */
  lemma {:induction false} TextBlurs(text: string, v: Json, chunks: seq<seq<byte>>) returns (t: Tree)
    requires Flatten(chunks) == Encode(text) && Parse(text) == Some(v) && Exact(text)
    ensures WfTree(t) && View(t, false) == v
    ensures Parse(LossyText(chunks)) == Some(View(t, true)) && Exact(LossyText(chunks))
    ensures Growth(t) == 0 <==> forall c | c in chunks :: Valid(c)
  {
    var x := Cells(text, chunks);
    var y;
    t, y := ValueBlurs(x, NESTING);
    assert Plain(y) == "" && y == [];
  }

  /** A request sent in chunks is read as one of its kind, and as another one exactly if a chunk is invalid. */
  lemma {:induction false} RequestBlurs(r: VsockRequest, order: seq<string>, chunks: seq<seq<byte>>)
    returns (taken: VsockRequest)
    requires r.HttpProxy? ==> Enumerates(order, r.request.headers)
    requires r.Command? && r.command.timeoutSeconds.Some? ==> r.command.timeoutSeconds.value < U64
    requires Flatten(chunks) == Encode(PrintRequest(r, order))
    ensures ParseRequest(LossyText(chunks)) == Some(taken) && Exact(LossyText(chunks)) && SameKind(r, taken)
    ensures taken == r <==> forall c | c in chunks :: Valid(c)
  {
    RequestText(r, order);
    if r.Command? {
      var t := TextBlurs(PrintRequest(r, order), Obj(CommandMembers(r.command)), chunks);
      var c := CommandBlurs(r.command, t);
      taken := Command(c);
    } else {
      var t := TextBlurs(PrintRequest(r, order), Obj(ProxyRequestMembers(r.request, order)), chunks);
      var q := ProxyRequestBlurs(r.request, order, t);
      taken := HttpProxy(q);
    }
  }

  lemma {:induction false} ResponseBlurs(r: HttpProxyResponse, order: seq<string>, chunks: seq<seq<byte>>)
    returns (taken: HttpProxyResponse)
    requires Enumerates(order, r.headers) && r.statusCode < 0x1_0000
    requires Flatten(chunks) == Encode(PrintProxyResponse(r, order))
    ensures ParseResponse(LossyText(chunks)) == Some(HttpProxied(taken)) && Exact(LossyText(chunks))
    ensures taken.statusCode == r.statusCode && taken.body == r.body
    ensures taken == r <==> forall c | c in chunks :: Valid(c)
  {
    ProxyResponseReadable(r, order);
    RoundTrip(Obj(ProxyResponseMembers(r, order)));
    var t := TextBlurs(PrintProxyResponse(r, order), Obj(ProxyResponseMembers(r, order)), chunks);
    taken := ProxyResponseBlurs(r, order, t);
  }
}
