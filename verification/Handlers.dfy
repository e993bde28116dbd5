/** The handlers of src/api.c as code: buffers, the store connection and the socket. Each does on store and
    wire what the handler of the same name in Api says. */
module Handlers {
  import opened CText
  import opened Numbers
  import opened HttpParse
  import HttpQuery
  import opened Json
  import opened JsonObject
  import opened JsonReply
  import opened HttpSend
  import opened Store
  import opened Listing
  import opened Api
  import opened ApiFacts

  // ---------- replies on the wire ----------

  const PAGE_TYPE: CString := "text/html"

  function RefusedBody(allow: string): string {
    TwoEntries(ERROR_FIELD, Code(MethodNotAllowed), MESSAGE_FIELD, "use " + allow)
  }

  /** The bytes of a reply. */
  function Bytes(r: Reply): string {
    match r
    case ErrorReply(e, detail) => ErrorText(e, detail)
    case JsonReply(status, body) => Head(status, JSON_TYPE, |body|, None) + body
    case NoContent => Head(204, JSON_TYPE, 0, None) + []
    case PageReply(body) => Head(200, PAGE_TYPE, |body|, None) + body
    case NotAllowed(allow) => Head(405, JSON_TYPE, |RefusedBody(allow)|, Some(allow)) + RefusedBody(allow)
  }

  /** The reply went out, or a proper prefix of it did; a success whose reply did not go out is reported as an
      internal error. */
  ghost predicate Replied(before: string, after: string, error: ApiError, reply: Reply, returned: ApiError) {
    exists result: int ::
      WentOut(before, after, Bytes(reply), result) &&
      returned == if error == Ok && result != 0 then Internal else error
  }

  /** What the code left on store and wire is the outcome `o`. */
  ghost predicate Does(o: Outcome, db: Db, before: string, after: string, returned: ApiError) {
    |o.sent| == 1 && o.db == db && Replied(before, after, o.error, o.sent[0], returned)
  }

  // ---------- what the bytes of a reply tell a client ----------

  /** The type, the body and the allowed methods of a reply. */
  function TypeOf(r: Reply): CString {
    if r.PageReply? then PAGE_TYPE else JSON_TYPE
  }

  function BodyOfReply(r: Reply): string {
    match r
    case ErrorReply(e, detail) => ErrorBody(e, detail)
    case JsonReply(_, body) => body
    case NoContent => []
    case PageReply(body) => body
    case NotAllowed(allow) => RefusedBody(allow)
  }

  /** The Allow lists that the server writes. */
  predicate CleanReply(r: Reply) {
    (r.NotAllowed? ==> ValidType(r.allow)) && (r.JsonReply? ==> r.status <= LONG_MAX)
  }

  /** A client that reads the bytes up to the first CRLFCRLF finds a header block with the reply's status, type,
      length and allowed methods, and after it the reply's body. */
  predicate Tells(text: string, status: nat, contentType: string, body: string, allow: Option<string>) {
    && Announces(text, status, contentType, |body|, allow)
    && exists e: nat :: e + 4 <= |text| && FirstBlank(text, e) && text[e + 4..] == body
  }

  lemma FramingTells(status: nat, contentType: string, body: string, allow: Option<string>)
    requires ValidType(contentType) && (allow.Some? ==> ValidType(allow.value)) && status <= LONG_MAX
    ensures Tells(Head(status, contentType, |body|, allow) + body, status, contentType, body, allow)
  {
    Framing(status, contentType, body, allow);
    var head := Head(status, contentType, |body|, allow);
    assert FirstBlank(head + body, |head| - 4) && (head + body)[(|head| - 4) + 4..] == body;
  }

  lemma TypesAreValid()
    ensures ValidType(JSON_TYPE) && ValidType(PAGE_TYPE) && ValidType(ALLOW_ALL)
  {
  }

  lemma BytesTell(r: Reply)
    requires CleanReply(r)
    ensures Tells(Bytes(r), StatusOf(r), TypeOf(r), BodyOfReply(r), AllowOf(r))
  {
    TypesAreValid();
    match r
    case ErrorReply(e, detail) => FramingTells(Status(Shown(e)), JSON_TYPE, ErrorBody(e, detail), ErrorAllow(e));
    case JsonReply(status, body) => FramingTells(status, JSON_TYPE, body, None);
    case NoContent => FramingTells(204, JSON_TYPE, [], None);
    case PageReply(body) => FramingTells(200, PAGE_TYPE, body, None);
    case NotAllowed(allow) => FramingTells(405, JSON_TYPE, RefusedBody(allow), Some(allow));
  }

  method Report(wire: Wire, e: ApiError, detail: CString)
    requires e != Ok
    modifies wire
    ensures Replied(old(wire.sent), wire.sent, e, ErrorReply(e, detail), e)
  {
    ErrorBodyFits(e, detail);
    ErrorHeadFits(e, |ErrorBody(e, detail)|);
    var result := RespondError(wire, e, detail);
    assert WentOut(old(wire.sent), wire.sent, Bytes(ErrorReply(e, detail)), result);
  }

  lemma ErrorHeadFits(e: ApiError, n: nat)
    requires n < 1024
    ensures |Head(Status(Shown(e)), JSON_TYPE, n, ErrorAllow(e))| < HEADER_CAP
  {
    SmallIsBelowPower(n);
    HeadFits(Status(Shown(e)), JSON_TYPE, n, ErrorAllow(e));
  }

  lemma SmallIsBelowPower(n: nat)
    requires n < 1000000
    ensures n < Power10(10)
  {
    assert Power10(4) == 10000 && Power10(8) == 10000 * Power10(4) && Power10(10) == 100 * Power10(8);
  }

  method Send(wire: Wire, status: nat, body: string) returns (error: ApiError)
    requires status < 1000 && |body| < 1000000
    modifies wire
    ensures Replied(old(wire.sent), wire.sent, Ok, JsonReply(status, body), error)
  {
    SmallIsBelowPower(|body|);
    HeadFits(status, JSON_TYPE, |body|, None);
    var result := Respond(wire, status, JSON_TYPE, body, None);
    assert WentOut(old(wire.sent), wire.sent, Bytes(JsonReply(status, body)), result);
    return if result != 0 then Internal else Ok;
  }

  method SendNoContent(wire: Wire) returns (error: ApiError)
    modifies wire
    ensures Replied(old(wire.sent), wire.sent, Ok, NoContent, error)
  {
    SmallIsBelowPower(0);
    HeadFits(204, JSON_TYPE, 0, None);
    var result := Respond(wire, 204, JSON_TYPE, "", None);
    assert WentOut(old(wire.sent), wire.sent, Bytes(NoContent), result);
    return if result != 0 then Internal else Ok;
  }

  method SendPage(wire: Wire, page: string) returns (error: ApiError)
    requires |page| < 1000000
    modifies wire
    ensures Replied(old(wire.sent), wire.sent, Ok, PageReply(page), error)
  {
    SmallIsBelowPower(|page|);
    HeadFits(200, PAGE_TYPE, |page|, None);
    var result := Respond(wire, 200, PAGE_TYPE, page, None);
    assert WentOut(old(wire.sent), wire.sent, Bytes(PageReply(page)), result);
    return if result != 0 then Internal else Ok;
  }

  /** send_method_not_allowed with one of the lists of this file. */
  method SendRefusal(wire: Wire, allow: CString)
    requires |allow| <= 22
    modifies wire
    ensures Replied(old(wire.sent), wire.sent, MethodNotAllowed, NotAllowed(allow), MethodNotAllowed)
  {
    var body := RefusedBody(allow);
    SmallIsBelowPower(|body|);
    HeadFits(405, JSON_TYPE, |body|, Some(allow));
    var result := Respond(wire, 405, JSON_TYPE, body, Some(allow));
    assert WentOut(old(wire.sent), wire.sent, Bytes(NotAllowed(allow)), result);
  }

  // ---------- parameters ----------

  /** api_require_json with a required body. */
  method CheckJson(req: Request) returns (error: ApiError)
    requires CleanRequest(req)
    ensures error == RequireJson(req)
  {
    if req.contentLength < 0 {
      return LengthRequired;
    }
    if req.body == None {
      return BadRequest;
    }
    var kept := Truncate(req.contentType, 127);
    var lowered := new char[128];
    CopyTo(lowered, 0, kept + "\0");
    assert lowered[..][..|kept| + 1] == kept + "\0";
    LowerInPlace(lowered, kept);
    assert lowered[..|kept|] == lowered[..][..|kept| + 1][..|kept|];
    return if Contains(lowered[..|kept|], JSON_NAME) then Ok else UnsupportedMedia;
  }

  /** json_get_string on the body of a request, into a local buffer of `cap` bytes. */
  method TakeField(req: Request, field: CString, cap: nat) returns (lookup: Lookup)
    requires req.body.Some?
    ensures lookup == Field(req, field, cap) && Sane(lookup, cap)
  {
    FieldSane(req, field, cap);
    var out := new char[cap];
    var error := JsonGetString(req.body.value, field, out);
    if error != Ok {
      return Failed(error);
    }
    ghost var value := Field(req, field, cap).value;
    CStrOfCString(value);
    var text := Load(out, value);
    return Found(text);
  }

  method ReadLimit(query: CString) returns (n: Number)
    ensures n == ParseLimit(query)
  {
    var answer := HttpQuery.Query(query, LIMIT_NAME, 32);
    match answer
    case TooLong => n := Bad;
    case Absent => n := Good(50);
    case Value(text) => n := ParseNumber(text, 1, MAX_LIST);
  }

  method ReadOffset(query: CString) returns (n: Number)
    ensures n == ParseOffset(query)
  {
    var answer := HttpQuery.Query(query, OFFSET_NAME, 32);
    match answer
    case TooLong => n := Bad;
    case Absent => n := Good(0);
    case Value(text) => n := ParseNumber(text, 0, 1000000);
  }

  // ---------- echo ----------

  method SendEcho(wire: Wire, data: CString) returns (error: ApiError)
    modifies wire
    ensures Replied(old(wire.sent), wire.sent, EchoReply(data).0, EchoReply(data).1, error)
  {
    var ok, escaped := EscapeLocal(data, MAX_BODY + 128);
    if !ok {
      Report(wire, Internal, OVERFLOW);
      return Internal;
    }
    EchoFits(escaped);
    error := Send(wire, 200, OneEntry(DATA_FIELD, escaped));
  }

  lemma EchoFits(escaped: string)
    requires |escaped| < MAX_BODY + 128
    ensures |OneEntry(DATA_FIELD, escaped)| < MAX_BODY + 256
  {
    assert |OneEntry(DATA_FIELD, escaped)| == |escaped| + 11;
  }

  method DoEcho(wire: Wire, req: Request, ghost db: Db) returns (error: ApiError)
    requires CleanRequest(req)
    modifies wire
    ensures Does(HandleEcho(db, req), db, old(wire.sent), wire.sent, error)
  {
    error := CheckJson(req);
    if error != Ok {
      Report(wire, error, if error == UnsupportedMedia then USE_JSON else NEED_BODY);
      return;
    }
    var data := TakeField(req, DATA_FIELD, MAX_BODY);
    if data.Failed? {
      Report(wire, data.error, if data.error == MissingField then NO_DATA else BAD_JSON);
      return data.error;
    }
    error := SendEcho(wire, data.value);
  }

  // ---------- key/value items ----------

  /** Escape key and value into their buffers and send the object: the end of PUT and GET. Once both texts fit
      their buffers the object fits its own. */
  method SendEntry(wire: Wire, key: CString, value: CString) returns (error: ApiError)
    modifies wire
    ensures Replied(old(wire.sent), wire.sent, EntryReply(key, value).0, EntryReply(key, value).1, error)
  {
    var valueOk, escaped := EscapeLocal(value, 2 * MAX_VALUE + 1);
    if !valueOk {
      Report(wire, Internal, OVERFLOW);
      return Internal;
    }
    var keyOk, ekey := EscapeLocal(key, KEY_BUF);
    if !keyOk {
      Report(wire, Internal, OVERFLOW);
      return Internal;
    }
    EntryFits(key, value);
    error := Send(wire, 200, TwoEntries(KEY_FIELD, ekey, VALUE_FIELD, escaped));
  }

  lemma EntryFits(key: string, value: string)
    requires Escapes(key, KEY_BUF) && Escapes(value, 2 * MAX_VALUE + 1)
    ensures |KvText(KvRow(key, value))| < 2 * MAX_VALUE + 512
    ensures EntryReply(key, value) == (Ok, JsonReply(200, KvText(KvRow(key, value))))
  {
    assert |KvText(KvRow(key, value))| == |Escape(key)| + |Escape(value)| + 21;
  }

  /** What a handler does from its store call on. */
  ghost predicate Serves(db: Db, db': Db, fault: bool, call: KvCall, before: string, after: string, returned: ApiError) {
    var (e, value, next) := KvStep(db, fault, call);
    var (error, reply) := KvAnswer(call, e, value);
    db' == next && Replied(before, after, error, reply, returned)
  }

  method DoGet(wire: Wire, conn: Connection, fault: bool, key: CString) returns (error: ApiError)
    requires conn.Valid()
    modifies wire
    ensures Serves(old(conn.Abs()), conn.Abs(), fault, GetCall(key), old(wire.sent), wire.sent, error)
  {
    var value := new char[MAX_VALUE + 1];
    var got := conn.Get(fault, key, value);
    ghost var stored := KvGet(conn.Abs(), fault, key, MAX_VALUE + 1).1;
    var text := "";
    if got == Ok {
      CStrOfCString(stored);
      text := Load(value, stored);
    }
    assert KvStep(conn.Abs(), fault, GetCall(key)) == (got, stored, conn.Abs());
    error := AnswerGet(wire, key, got, text);
  }

  method AnswerGet(wire: Wire, key: CString, got: ApiError, value: CString) returns (error: ApiError)
    modifies wire
    ensures var (e, reply) := KvAnswer(GetCall(key), got, value); Replied(old(wire.sent), wire.sent, e, reply, error)
  {
    if got != Ok {
      Report(wire, got, if got == NotFound then NO_SUCH_KEY else NO_READ);
      return got;
    }
    error := SendEntry(wire, key, value);
  }

  method DoDel(wire: Wire, conn: Connection, fault: bool, key: CString) returns (error: ApiError)
    requires conn.Valid()
    modifies wire, conn
    ensures conn.Valid()
    ensures Serves(old(conn.Abs()), conn.Abs(), fault, DelCall(key), old(wire.sent), wire.sent, error)
  {
    ghost var db := conn.Abs();
    var deleted := conn.Del(fault, key);
    assert KvStep(db, fault, DelCall(key)) == (deleted, "", conn.Abs());
    error := AnswerDel(wire, key, deleted);
  }

  method AnswerDel(wire: Wire, key: CString, deleted: ApiError) returns (error: ApiError)
    modifies wire
    ensures var (e, reply) := KvAnswer(DelCall(key), deleted, ""); Replied(old(wire.sent), wire.sent, e, reply, error)
  {
    if deleted != Ok {
      Report(wire, deleted, if deleted == NotFound then NO_SUCH_KEY else NO_DELETE);
      return deleted;
    }
    error := SendNoContent(wire);
  }

  method StoreAndSend(wire: Wire, conn: Connection, fault: bool, key: CString, value: CString) returns (error: ApiError)
    requires conn.Valid()
    modifies wire, conn
    ensures conn.Valid()
    ensures Serves(old(conn.Abs()), conn.Abs(), fault, PutCall(key, value), old(wire.sent), wire.sent, error)
  {
    error := conn.Put(fault, key, value);
    if error != Ok {
      Report(wire, error, if error == InvalidKey then BAD_KEY else NO_WRITE);
      return;
    }
    error := SendEntry(wire, key, value);
  }

  /** The outcome of a plan, on the store and on the wire. */
  ghost predicate Carries(db: Db, db': Db, fault: bool, plan: Plan, before: string, after: string, returned: ApiError) {
    match plan
    case Early(e, detail) => db' == db && Replied(before, after, e, ErrorReply(e, detail), returned)
    case Refused => db' == db && Replied(before, after, MethodNotAllowed, NotAllowed(ALLOW_ITEM), returned)
    case Call(call) => Serves(db, db', fault, call, before, after, returned)
  }

  method DoPut(wire: Wire, conn: Connection, fault: bool, req: Request, key: CString) returns (error: ApiError)
    requires conn.Valid() && CleanRequest(req)
    modifies wire, conn
    ensures conn.Valid()
    ensures Carries(old(conn.Abs()), conn.Abs(), fault, PlanPut(req, key), old(wire.sent), wire.sent, error)
  {
    error := CheckJson(req);
    if error != Ok {
      Report(wire, error, NEED_VALUE);
      return;
    }
    var value := TakeField(req, VALUE_FIELD, MAX_VALUE + 1);
    if value.Failed? {
      Report(wire, value.error, if value.error == MissingField then NO_VALUE else BAD_JSON);
      return value.error;
    }
    error := StoreAndSend(wire, conn, fault, key, value.value);
  }

  /** The code carries out what the sequential handler says. */
  lemma CarriesRunPlan(db: Db, db': Db, fault: bool, plan: Plan, before: string, after: string, returned: ApiError)
    requires Carries(db, db', fault, plan, before, after, returned)
    ensures Does(RunPlan(db, fault, plan), db', before, after, returned)
  {
  }

  method DoItem(wire: Wire, conn: Connection, fault: bool, req: Request, key: CString) returns (error: ApiError)
    requires conn.Valid() && CleanRequest(req)
    modifies wire, conn
    ensures conn.Valid()
    ensures Does(RunPlan(old(conn.Abs()), fault, KvPlan(req, key)), conn.Abs(), old(wire.sent), wire.sent, error)
  {
    ghost var db, before := conn.Abs(), wire.sent;
    match req.verb {
      case Get => error := DoGet(wire, conn, fault, key);
      case Put => error := DoPut(wire, conn, fault, req, key);
      case Delete => error := DoDel(wire, conn, fault, key);
      case _ =>
        SendRefusal(wire, ALLOW_ITEM);
        error := MethodNotAllowed;
    }
    CarriesRunPlan(db, conn.Abs(), fault, KvPlan(req, key), before, wire.sent, error);
  }

  /** A prefix that is there must be a valid key, or empty. */
  method CheckPrefix(prefix: HttpQuery.Answer) returns (ok: bool)
    requires prefix.Value? ==> NulFree(prefix.text)
    ensures !ok <==> prefix.Value? && !ValidKey(prefix.text) && prefix.text != []
  {
    if !prefix.Value? {
      return true;
    }
    var valid := ValidateKey(prefix.text);
    return valid == Ok || prefix.text == [];
  }

  method DoKvList(wire: Wire, env: Env, req: Request, ghost db: Db) returns (error: ApiError)
    requires CleanRequest(req) && KvRowsClean(env.kvRows)
    modifies wire
    ensures Does(HandleKvList(db, env, req), db, old(wire.sent), wire.sent, error)
  {
    var prefix := HttpQuery.Query(req.query, PREFIX_NAME, MAX_KEY + 1);
    if prefix.TooLong? {
      Report(wire, InvalidQuery, LONG_PREFIX);
      return InvalidQuery;
    }
    var charset := CheckPrefix(prefix);
    if !charset {
      Report(wire, InvalidQuery, BAD_PREFIX);
      return InvalidQuery;
    }
    var limit := ReadLimit(req.query);
    if limit.Bad? {
      Report(wire, InvalidQuery, BAD_LIMIT);
      return InvalidQuery;
    }
    error := ShowKvRows(wire, env);
  }

  method ShowKvRows(wire: Wire, env: Env) returns (error: ApiError)
    requires KvRowsClean(env.kvRows)
    modifies wire
    ensures Replied(old(wire.sent), wire.sent, KvRowsReply(env).0, KvRowsReply(env).1, error)
  {
    var items := new char[MAX_BODY];
    var listed := Internal;
    if !env.fault {
      listed := KvList(env.kvRows, items);
    }
    if listed != Ok {
      Report(wire, listed, NO_LIST);
      return listed;
    }
    ghost var text := KvListText(env.kvRows);
    KvListNulFree(env.kvRows);
    CStrOfCString(text);
    var loaded := Load(items, text);
    var body := ItemsText(loaded);
    if |body| >= MAX_BODY {
      Report(wire, Internal, OVERFLOW);
      return Internal;
    }
    error := Send(wire, 200, body);
  }
}
