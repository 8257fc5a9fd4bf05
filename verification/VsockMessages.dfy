/**
  The messages on the vsock connections and their JSON form: internally tagged enums (`tag = "type"`)
  over plain structs.  Reading ignores unknown fields, refuses a field given twice and takes a missing
  optional field as `None`; writing gives the fields in order of declaration.
 */
module VsockMessages {
  import opened Prelude
  import opened Decimals
  import opened Json
  import opened JsonPrefix
  import opened JsonPrint

  const U64: nat := 0x1_0000_0000_0000_0000

  datatype Mode = Foreground | Spawn

  datatype VmCommand = VmCommand(id: string, command: string, args: seq<string>, workingDir: Option<string>,
                                 timeoutSeconds: Option<nat>, mode: Mode)

  type Headers = map<string, string>

  datatype HttpProxyRequest = HttpProxyRequest(httpMethod: string, url: string, headers: Headers,
                                               body: Option<seq<byte>>)

  datatype HttpProxyResponse = HttpProxyResponse(statusCode: nat, headers: Headers, body: seq<byte>,
                                                 error: Option<string>)

  datatype VsockRequest = Command(command: VmCommand) | HttpProxy(request: HttpProxyRequest)

  datatype CommandResponse = CommandResponse(exitCode: int, stdout: string, stderr: string)

  datatype VsockResponse =
    | CommandDone(result: CommandResponse) | HttpProxied(response: HttpProxyResponse)
    | SpawnedProcess(id: nat, spawned: string) | StoppedProcess(pid: nat, stopped: CommandResponse)

  // --- Reading fields ---

  datatype Lookup = Absent | Once(value: Json) | Repeated

  function Find(ms: seq<Member>, key: string): Lookup {
    if ms == [] then Absent
    else
      var rest := Find(ms[1..], key);
      if ms[0].key != key then rest else if rest.Absent? then Once(ms[0].value) else Repeated
  }

  /** A field that must be there. */
  function Field<T>(ms: seq<Member>, key: string, read: Json -> Option<T>): Option<T> {
    match Find(ms, key)
    case Once(j) => read(j)
    case _ => None
  }

  /** An optional field: absent or `null` is `None`. */
  function OptionField<T>(ms: seq<Member>, key: string, read: Json -> Option<T>): Option<Option<T>> {
    match Find(ms, key)
    case Absent => Some(None)
    case Repeated => None
    case Once(j) => if j.Null? then Some(None) else if read(j).Some? then Some(read(j)) else None
  }

  function ReadString(j: Json): Option<string> { if j.Str? then Some(j.text) else None }

  function ReadInteger(j: Json, lo: int, hi: int): Option<int> {
    if j.Num? && Integer(j.lexeme).Some? && lo <= Integer(j.lexeme).value < hi then Integer(j.lexeme) else None
  }

  function ReadU64(j: Json): Option<nat> {
    var n :- ReadInteger(j, 0, U64);
    if n >= 0 then Some(n) else None
  }

  function ReadByte(j: Json): Option<byte> {
    var n :- ReadInteger(j, 0, 256);
    if 0 <= n < 256 then Some(n) else None
  }

  function ReadStatus(j: Json): Option<nat> {
    var n :- ReadInteger(j, 0, 0x1_0000);
    if n >= 0 then Some(n) else None
  }

  function ReadI32(j: Json): Option<int> { ReadInteger(j, -0x8000_0000, 0x8000_0000) }

  function ReadAll<T>(js: seq<Json>, read: Json -> Option<T>): Option<seq<T>> {
    if js == [] then Some([])
    else
      var first :- read(js[0]);
      var rest :- ReadAll(js[1..], read);
      Some([first] + rest)
  }

  function ReadStrings(j: Json): Option<seq<string>> { if j.Arr? then ReadAll(j.items, ReadString) else None }

  function ReadBytes(j: Json): Option<seq<byte>> { if j.Arr? then ReadAll(j.items, ReadByte) else None }

  /** A `HashMap`: of a key given twice the last value stays. */
  function ReadEntries(ms: seq<Member>): Option<Headers> {
    if ms == [] then Some(map[])
    else
      var front :- ReadEntries(ms[..|ms| - 1]);
      var last := ms[|ms| - 1];
      var v :- ReadString(last.value);
      Some(front[last.key := v])
  }

  function ReadHeaders(j: Json): Option<Headers> { if j.Obj? then ReadEntries(j.members) else None }

  function ReadMode(j: Json): Option<Mode> {
    if j == Str("Foreground") then Some(Foreground) else if j == Str("Spawn") then Some(Spawn) else None
  }

  // --- Reading messages ---

  function ReadCommand(ms: seq<Member>): Option<VmCommand> {
    var id :- Field(ms, "id", ReadString);
    var command :- Field(ms, "command", ReadString);
    var args :- Field(ms, "args", ReadStrings);
    var workingDir :- OptionField(ms, "working_dir", ReadString);
    var timeoutSeconds :- OptionField(ms, "timeout_seconds", ReadU64);
    var mode :- Field(ms, "mode", ReadMode);
    Some(VmCommand(id, command, args, workingDir, timeoutSeconds, mode))
  }

  function ReadProxyRequest(ms: seq<Member>): Option<HttpProxyRequest> {
    var httpMethod :- Field(ms, "method", ReadString);
    var url :- Field(ms, "url", ReadString);
    var headers :- Field(ms, "headers", ReadHeaders);
    var body :- OptionField(ms, "body", ReadBytes);
    Some(HttpProxyRequest(httpMethod, url, headers, body))
  }

  function ReadProxyResponse(ms: seq<Member>): Option<HttpProxyResponse> {
    var statusCode :- Field(ms, "status_code", ReadStatus);
    var headers :- Field(ms, "headers", ReadHeaders);
    var body :- Field(ms, "body", ReadBytes);
    var error :- OptionField(ms, "error", ReadString);
    Some(HttpProxyResponse(statusCode, headers, body, error))
  }

  function ReadCommandResponse(ms: seq<Member>): Option<CommandResponse> {
    var exitCode :- Field(ms, "exit_code", ReadI32);
    var stdout :- Field(ms, "stdout", ReadString);
    var stderr :- Field(ms, "stderr", ReadString);
    Some(CommandResponse(exitCode, stdout, stderr))
  }

  function ReadRequest(j: Json): Option<VsockRequest> {
    if !j.Obj? then None
    else
      var tag :- Field(j.members, "type", ReadString);
      if tag == "Command" then
        var c :- ReadCommand(j.members);
        Some(Command(c))
      else if tag == "HttpProxy" then
        var r :- ReadProxyRequest(j.members);
        Some(HttpProxy(r))
      else None
  }

  function ReadResponse(j: Json): Option<VsockResponse> {
    if !j.Obj? then None
    else
      var tag :- Field(j.members, "type", ReadString);
      if tag == "Command" then
        var r :- ReadCommandResponse(j.members);
        Some(CommandDone(r))
      else if tag == "HttpProxy" then
        var r :- ReadProxyResponse(j.members);
        Some(HttpProxied(r))
      else if tag == "SpawnedProcess" then
        var id :- Field(j.members, "id", ReadU64);
        var command :- Field(j.members, "command", ReadString);
        Some(SpawnedProcess(id, command))
      else if tag == "StoppedProcess" then
        var id :- Field(j.members, "id", ReadU64);
        var r :- ReadCommandResponse(j.members);
        Some(StoppedProcess(id, r))
      else None
  }

  /** `from_str::<VsockRequest>` and `from_str::<VsockResponse>`. */
  function ParseRequest(text: string): Option<VsockRequest> {
    var j :- Parse(text);
    ReadRequest(j)
  }

  function ParseResponse(text: string): Option<VsockResponse> {
    var j :- Parse(text);
    ReadResponse(j)
  }

  // --- Writing messages ---

  function MapSeq<A, B>(f: A -> B, xs: seq<A>): (r: seq<B>)
    ensures |r| == |xs| && forall i | 0 <= i < |xs| :: r[i] == f(xs[i])
  {
    seq(|xs|, i requires 0 <= i < |xs| => f(xs[i]))
  }

  function StringJson(s: string): Json { Str(s) }
  function IntegerJson(n: int): Json { Num(Decimal(n)) }
  function OptionJson<T>(o: Option<T>, write: T -> Json): Json { if o.None? then Null else write(o.value) }
  function BytesJson(b: seq<byte>): Json { Arr(MapSeq((x: byte) => IntegerJson(x), b)) }

  /** `order` is the order in which the hash map happens to be walked. */
  predicate Enumerates(order: seq<string>, h: Headers) {
    && (forall i, j | 0 <= i < j < |order| :: order[i] != order[j])
    && (forall k | k in order :: k in h) && (forall k | k in h :: k in order)
  }

  function HeadersJson(h: Headers, order: seq<string>): Json
    requires Enumerates(order, h)
  {
    Obj(seq(|order|, i requires 0 <= i < |order| => Member(order[i], Str(h[order[i]]))))
  }

  function ModeJson(m: Mode): Json { Str(if m.Foreground? then "Foreground" else "Spawn") }

  function CommandMembers(c: VmCommand): seq<Member> {
    [Member("type", Str("Command")), Member("id", Str(c.id)), Member("command", Str(c.command)),
     Member("args", Arr(MapSeq(StringJson, c.args))), Member("working_dir", OptionJson(c.workingDir, StringJson)),
     Member("timeout_seconds", OptionJson(c.timeoutSeconds, (n: nat) => IntegerJson(n))),
     Member("mode", ModeJson(c.mode))]
  }

  function ProxyRequestMembers(r: HttpProxyRequest, order: seq<string>): seq<Member>
    requires Enumerates(order, r.headers)
  {
    [Member("type", Str("HttpProxy")), Member("method", Str(r.httpMethod)), Member("url", Str(r.url)),
     Member("headers", HeadersJson(r.headers, order)), Member("body", OptionJson(r.body, BytesJson))]
  }

  function ProxyResponseMembers(r: HttpProxyResponse, order: seq<string>): seq<Member>
    requires Enumerates(order, r.headers)
  {
    [Member("type", Str("HttpProxy")), Member("status_code", IntegerJson(r.statusCode)),
     Member("headers", HeadersJson(r.headers, order)), Member("body", BytesJson(r.body)),
     Member("error", OptionJson(r.error, StringJson))]
  }

  function PrintRequest(r: VsockRequest, order: seq<string>): string
    requires r.HttpProxy? ==> Enumerates(order, r.request.headers)
  {
    Print(Obj(if r.Command? then CommandMembers(r.command) else ProxyRequestMembers(r.request, order)))
  }

  /** `VsockResponse::HttpProxy`, the response the host sends. */
  function PrintProxyResponse(r: HttpProxyResponse, order: seq<string>): string
    requires Enumerates(order, r.headers)
  {
    Print(Obj(ProxyResponseMembers(r, order)))
  }

  // --- Round trips ---

  predicate DistinctKeys(ms: seq<Member>) { forall i, j | 0 <= i < j < |ms| :: ms[i].key != ms[j].key }

  lemma {:induction false} FindAbsent(ms: seq<Member>, key: string)
    requires forall m | m in ms :: m.key != key
    ensures Find(ms, key) == Absent
  {
    if ms != [] { FindAbsent(ms[1..], key); }
  }

  lemma {:induction false} FindAt(ms: seq<Member>, i: nat)
    requires DistinctKeys(ms) && i < |ms|
    ensures Find(ms, ms[i].key) == Once(ms[i].value)
  {
    if i == 0 { FindAbsent(ms[1..], ms[0].key); } else { FindAt(ms[1..], i - 1); }
  }

  lemma {:induction false} ReadAllBack<T>(xs: seq<T>, write: T -> Json, read: Json -> Option<T>)
    requires forall x | x in xs :: read(write(x)) == Some(x)
    ensures ReadAll(MapSeq(write, xs), read) == Some(xs)
  {
    var js := MapSeq(write, xs);
    if xs != [] {
      assert js[1..] == MapSeq(write, xs[1..]);
      assert js[0] == write(xs[0]) && xs[0] in xs;
      ReadAllBack(xs[1..], write, read);
      assert [xs[0]] + xs[1..] == xs;
    } else {
      assert js == [];
    }
  }

  lemma IntegerBack(n: int, lo: int, hi: int)
    requires lo <= n < hi
    ensures ReadInteger(IntegerJson(n), lo, hi) == Some(n)
  {
    IntegerOfDecimal(n);
  }

  lemma BytesBack(b: seq<byte>)
    ensures ReadBytes(BytesJson(b)) == Some(b)
  {
    forall x | x in b ensures ReadByte(IntegerJson(x)) == Some(x) { IntegerBack(x, 0, 256); }
    ReadAllBack(b, (x: byte) => IntegerJson(x), ReadByte);
  }

  lemma StringsBack(ss: seq<string>)
    ensures ReadStrings(Arr(MapSeq(StringJson, ss))) == Some(ss)
  {
    ReadAllBack(ss, StringJson, ReadString);
  }

  lemma {:induction false} EntriesSnoc(ms: seq<Member>, key: string, text: string)
    requires ReadEntries(ms).Some?
    ensures ReadEntries(ms + [Member(key, Str(text))]) == Some(ReadEntries(ms).value[key := text])
  {
    assert (ms + [Member(key, Str(text))])[..|ms|] == ms;
  }

  lemma {:induction false} EntriesBack(h: Headers, order: seq<string>, k: nat)
    requires Enumerates(order, h) && k <= |order|
    ensures ReadEntries(HeadersJson(h, order).members[..k]) == Some(map i | i in order[..k] :: h[i])
  {
    var ms := HeadersJson(h, order).members;
    if k == 0 {
      assert ms[..0] == [];
      assert order[..0] == [];
    } else {
      EntriesBack(h, order, k - 1);
      TakeNext(ms, k - 1);
      EntriesSnoc(ms[..k - 1], order[k - 1], h[order[k - 1]]);
      OneMoreEntry(h, order, k);
    }
  }

  lemma OneMoreEntry(h: Headers, order: seq<string>, k: nat)
    requires Enumerates(order, h) && 0 < k <= |order|
    ensures var front := map i | i in order[..k - 1] :: h[i];
      front[order[k - 1] := h[order[k - 1]]] == map i | i in order[..k] :: h[i]
  {
    assert order[..k] == order[..k - 1] + [order[k - 1]];
  }

  lemma HeadersBack(h: Headers, order: seq<string>)
    requires Enumerates(order, h)
    ensures ReadHeaders(HeadersJson(h, order)) == Some(h)
  {
    EntriesBack(h, order, |order|);
    var ms := HeadersJson(h, order).members;
    assert ms[..|order|] == ms && order[..|order|] == order;
    assert (map i | i in order :: h[i]) == h;
  }

  lemma CommandKeys(c: VmCommand)
    ensures DistinctKeys(CommandMembers(c))
  {
  }

  lemma CommandFields(c: VmCommand)
    ensures var ms := CommandMembers(c);
      && Find(ms, "type") == Once(Str("Command")) && Find(ms, "id") == Once(Str(c.id))
      && Find(ms, "command") == Once(Str(c.command)) && Find(ms, "args") == Once(Arr(MapSeq(StringJson, c.args)))
      && Find(ms, "working_dir") == Once(OptionJson(c.workingDir, StringJson))
      && Find(ms, "timeout_seconds") == Once(OptionJson(c.timeoutSeconds, (n: nat) => IntegerJson(n)))
      && Find(ms, "mode") == Once(ModeJson(c.mode))
  {
    var ms := CommandMembers(c);
    CommandKeys(c);
    FindAt(ms, 0); FindAt(ms, 1); FindAt(ms, 2); FindAt(ms, 3); FindAt(ms, 4); FindAt(ms, 5); FindAt(ms, 6);
  }

  lemma {:induction false} FieldBack<T>(ms: seq<Member>, key: string, j: Json, read: Json -> Option<T>, v: T)
    requires Find(ms, key) == Once(j) && read(j) == Some(v)
    ensures Field(ms, key, read) == Some(v)
  {
  }

  lemma {:induction false} OptionFieldBack<T>(ms: seq<Member>, key: string, o: Option<T>, write: T -> Json,
                                              read: Json -> Option<T>)
    requires Find(ms, key) == Once(OptionJson(o, write))
    requires o.Some? ==> !write(o.value).Null? && read(write(o.value)) == o
    ensures OptionField(ms, key, read) == Some(o)
  {
  }

  /** The fields of a command, found in any object. */
  lemma {:induction false} CommandRead(ms: seq<Member>, c: VmCommand, args: Json)
    requires c.timeoutSeconds.Some? ==> c.timeoutSeconds.value < U64
    requires Find(ms, "type") == Once(Str("Command")) && Find(ms, "id") == Once(Str(c.id))
    requires Find(ms, "command") == Once(Str(c.command)) && Find(ms, "args") == Once(args)
    requires ReadStrings(args) == Some(c.args) && Find(ms, "working_dir") == Once(OptionJson(c.workingDir, StringJson))
    requires Find(ms, "timeout_seconds") == Once(OptionJson(c.timeoutSeconds, (n: nat) => IntegerJson(n)))
    requires Find(ms, "mode") == Once(ModeJson(c.mode))
    ensures ReadRequest(Obj(ms)) == Some(Command(c))
  {
    if c.timeoutSeconds.Some? { IntegerBack(c.timeoutSeconds.value, 0, U64); }
    FieldBack(ms, "type", Str("Command"), ReadString, "Command");
    FieldBack(ms, "id", Str(c.id), ReadString, c.id);
    FieldBack(ms, "command", Str(c.command), ReadString, c.command);
    FieldBack(ms, "args", args, ReadStrings, c.args);
    OptionFieldBack(ms, "working_dir", c.workingDir, StringJson, ReadString);
    OptionFieldBack(ms, "timeout_seconds", c.timeoutSeconds, (n: nat) => IntegerJson(n), ReadU64);
    FieldBack(ms, "mode", ModeJson(c.mode), ReadMode, c.mode);
  }

  lemma CommandBack(c: VmCommand)
    requires c.timeoutSeconds.Some? ==> c.timeoutSeconds.value < U64
    ensures ReadRequest(Obj(CommandMembers(c))) == Some(Command(c))
  {
    CommandFields(c);
    StringsBack(c.args);
    CommandRead(CommandMembers(c), c, Arr(MapSeq(StringJson, c.args)));
  }

  lemma ProxyRequestFields(r: HttpProxyRequest, order: seq<string>)
    requires Enumerates(order, r.headers)
    ensures var ms := ProxyRequestMembers(r, order);
      && Find(ms, "type") == Once(Str("HttpProxy")) && Find(ms, "method") == Once(Str(r.httpMethod))
      && Find(ms, "url") == Once(Str(r.url)) && Find(ms, "headers") == Once(HeadersJson(r.headers, order))
      && Find(ms, "body") == Once(OptionJson(r.body, BytesJson))
  {
    var ms := ProxyRequestMembers(r, order);
    assert DistinctKeys(ms);
    FindAt(ms, 0); FindAt(ms, 1); FindAt(ms, 2); FindAt(ms, 3); FindAt(ms, 4);
  }

  lemma {:induction false} ProxyRequestRead(ms: seq<Member>, r: HttpProxyRequest, headers: Json)
    requires Find(ms, "type") == Once(Str("HttpProxy")) && Find(ms, "method") == Once(Str(r.httpMethod))
    requires Find(ms, "url") == Once(Str(r.url)) && Find(ms, "headers") == Once(headers)
    requires ReadHeaders(headers) == Some(r.headers) && Find(ms, "body") == Once(OptionJson(r.body, BytesJson))
    ensures ReadRequest(Obj(ms)) == Some(HttpProxy(r))
  {
    if r.body.Some? { BytesBack(r.body.value); }
    FieldBack(ms, "type", Str("HttpProxy"), ReadString, "HttpProxy");
    FieldBack(ms, "method", Str(r.httpMethod), ReadString, r.httpMethod);
    FieldBack(ms, "url", Str(r.url), ReadString, r.url);
    FieldBack(ms, "headers", headers, ReadHeaders, r.headers);
    OptionFieldBack(ms, "body", r.body, BytesJson, ReadBytes);
  }

  lemma ProxyRequestBack(r: HttpProxyRequest, order: seq<string>)
    requires Enumerates(order, r.headers)
    ensures ReadRequest(Obj(ProxyRequestMembers(r, order))) == Some(HttpProxy(r))
  {
    ProxyRequestFields(r, order);
    HeadersBack(r.headers, order);
    ProxyRequestRead(ProxyRequestMembers(r, order), r, HeadersJson(r.headers, order));
  }

  lemma ProxyResponseFields(r: HttpProxyResponse, order: seq<string>)
    requires Enumerates(order, r.headers)
    ensures var ms := ProxyResponseMembers(r, order);
      && Find(ms, "type") == Once(Str("HttpProxy")) && Find(ms, "status_code") == Once(IntegerJson(r.statusCode))
      && Find(ms, "headers") == Once(HeadersJson(r.headers, order)) && Find(ms, "body") == Once(BytesJson(r.body))
      && Find(ms, "error") == Once(OptionJson(r.error, StringJson))
  {
    var ms := ProxyResponseMembers(r, order);
    assert DistinctKeys(ms);
    FindAt(ms, 0); FindAt(ms, 1); FindAt(ms, 2); FindAt(ms, 3); FindAt(ms, 4);
  }

  lemma {:induction false} ProxyResponseRead(ms: seq<Member>, r: HttpProxyResponse, headers: Json)
    requires r.statusCode < 0x1_0000
    requires Find(ms, "type") == Once(Str("HttpProxy")) && Find(ms, "status_code") == Once(IntegerJson(r.statusCode))
    requires Find(ms, "headers") == Once(headers) && ReadHeaders(headers) == Some(r.headers)
    requires Find(ms, "body") == Once(BytesJson(r.body)) && Find(ms, "error") == Once(OptionJson(r.error, StringJson))
    ensures ReadResponse(Obj(ms)) == Some(HttpProxied(r))
  {
    BytesBack(r.body);
    IntegerBack(r.statusCode, 0, 0x1_0000);
    FieldBack(ms, "type", Str("HttpProxy"), ReadString, "HttpProxy");
    FieldBack(ms, "status_code", IntegerJson(r.statusCode), ReadStatus, r.statusCode);
    FieldBack(ms, "headers", headers, ReadHeaders, r.headers);
    FieldBack(ms, "body", BytesJson(r.body), ReadBytes, r.body);
    OptionFieldBack(ms, "error", r.error, StringJson, ReadString);
  }

  lemma ProxyResponseBack(r: HttpProxyResponse, order: seq<string>)
    requires Enumerates(order, r.headers) && r.statusCode < 0x1_0000
    ensures ReadResponse(Obj(ProxyResponseMembers(r, order))) == Some(HttpProxied(r))
  {
    ProxyResponseFields(r, order);
    HeadersBack(r.headers, order);
    ProxyResponseRead(ProxyResponseMembers(r, order), r, HeadersJson(r.headers, order));
  }

  // --- The printed texts ---

  lemma {:induction false} AllDigitsSkip(s: string)
    requires AllDigits(s)
    ensures SkipDigits(s) == []
  {
    if s != [] { AllDigitsSkip(s[1..]); }
  }

  lemma {:induction false} DigitsAreNumber(n: nat)
    ensures Digits1(Digits(n)) == Some([]) && IntPart(Digits(n)) == Some([]) && IsNumber(Digits(n))
  {
    var d := Digits(n);
    AllDigitsSkip(d[1..]);
    DigitsLead(n);
    assert d[..|d|] == d;
  }

  /** Every printed integer is a number the reader takes whole. */
  lemma DecimalIsNumber(n: int)
    ensures IsNumber(Decimal(n))
  {
    if n < 0 {
      DigitsAreNumber(-n);
      MinusIsNumber(Digits(-n));
    } else {
      DigitsAreNumber(n);
    }
  }

  lemma MinusIsNumber(d: string)
    requires IntPart(d) == Some([])
    ensures IsNumber("-" + d)
  {
    var m := "-" + d;
    assert m[1..] == d && m[..|m|] == m;
  }

  lemma {:induction false} BytesReadable(b: seq<byte>, depth: nat)
    requires depth > 1
    ensures Readable(BytesJson(b), depth)
  {
    forall i | 0 <= i < |b| ensures Readable(BytesJson(b).items[i], depth - 1) { DecimalIsNumber(b[i]); }
  }

  lemma {:induction false} StringsReadable(ss: seq<string>, depth: nat)
    requires depth > 1
    ensures Readable(Arr(MapSeq(StringJson, ss)), depth)
  {
  }

  lemma {:induction false} ObjectReadable(ms: seq<Member>, depth: nat)
    requires depth > 1 && forall i | 0 <= i < |ms| :: Readable(ms[i].value, depth - 1)
    ensures Readable(Obj(ms), depth)
  {
  }

  lemma CommandReadable(c: VmCommand)
    ensures Readable(Obj(CommandMembers(c)), NESTING)
  {
    var ms := CommandMembers(c);
    forall i | 0 <= i < |ms| ensures Readable(ms[i].value, NESTING - 1) {
      if i == 3 {
        StringsReadable(c.args, NESTING - 1);
      } else if i == 5 && c.timeoutSeconds.Some? {
        DecimalIsNumber(c.timeoutSeconds.value);
      } else {
        assert ms[i].value.Str? || ms[i].value.Null?;
      }
    }
    ObjectReadable(ms, NESTING);
  }

  lemma ProxyRequestReadable(r: HttpProxyRequest, order: seq<string>)
    requires Enumerates(order, r.headers)
    ensures Readable(Obj(ProxyRequestMembers(r, order)), NESTING)
  {
    if r.body.Some? { BytesReadable(r.body.value, NESTING - 1); }
  }

  lemma ProxyResponseReadable(r: HttpProxyResponse, order: seq<string>)
    requires Enumerates(order, r.headers)
    ensures Readable(Obj(ProxyResponseMembers(r, order)), NESTING)
  {
    DecimalIsNumber(r.statusCode);
    BytesReadable(r.body, NESTING - 1);
  }

  /** The text of a request. */
  lemma RequestText(r: VsockRequest, order: seq<string>)
    requires r.HttpProxy? ==> Enumerates(order, r.request.headers)
    ensures Exact(PrintRequest(r, order))
    ensures Parse(PrintRequest(r, order)) ==
      Some(Obj(if r.Command? then CommandMembers(r.command) else ProxyRequestMembers(r.request, order)))
  {
    if r.Command? {
      CommandReadable(r.command);
      RoundTrip(Obj(CommandMembers(r.command)));
    } else {
      ProxyRequestReadable(r.request, order);
      RoundTrip(Obj(ProxyRequestMembers(r.request, order)));
    }
  }

  /** What is sent for a request is one object text, and reading it gives the request back. */
  lemma RequestRoundTrip(r: VsockRequest, order: seq<string>)
    requires r.HttpProxy? ==> Enumerates(order, r.request.headers)
    requires r.Command? && r.command.timeoutSeconds.Some? ==> r.command.timeoutSeconds.value < U64
    ensures ParseRequest(PrintRequest(r, order)) == Some(r) && Exact(PrintRequest(r, order))
  {
    RequestText(r, order);
    if r.Command? { CommandBack(r.command); } else { ProxyRequestBack(r.request, order); }
  }

  lemma ResponseRoundTrip(r: HttpProxyResponse, order: seq<string>)
    requires Enumerates(order, r.headers) && r.statusCode < 0x1_0000
    ensures ParseResponse(PrintProxyResponse(r, order)) == Some(HttpProxied(r)) && Exact(PrintProxyResponse(r, order))
  {
    ProxyResponseReadable(r, order);
    RoundTrip(Obj(ProxyResponseMembers(r, order)));
    ProxyResponseBack(r, order);
  }
}
