/** The router and the handlers of src/api.c as decisions over the request and steps on the store. */
module Api {
  import opened CText
  import opened Numbers
  import opened HttpParse
  import HttpQuery
  import opened Json
  import opened JsonObject
  import opened JsonReply
  import opened HttpSend
  import opened Store
  import opened Listing
  import opened NotePages
  import Auth

  /** A response, before it is put on the wire. */
  datatype Reply =
    | ErrorReply(error: ApiError, detail: string)  // http_respond_error
    | JsonReply(status: nat, body: string)
    | NoContent
    | PageReply(body: string)
    | NotAllowed(allow: string)                    // send_method_not_allowed

  function StatusOf(r: Reply): nat {
    match r
    case ErrorReply(e, _) => Status(Shown(e))
    case JsonReply(status, _) => status
    case NoContent => 204
    case PageReply(_) => 200
    case NotAllowed(_) => 405
  }

  /** The Allow header of the response. */
  function AllowOf(r: Reply): Option<string> {
    match r
    case ErrorReply(e, _) => if Shown(e) == MethodNotAllowed then Some(ALLOW_ALL) else None
    case NotAllowed(allow) => Some(allow)
    case _ => None
  }

  /** What a handler leaves behind: its return value, the store, and the responses it sent. */
  datatype Outcome = Outcome(error: ApiError, db: Db, sent: seq<Reply>)

  /** What the handlers get from outside: the clock, whether the first or the second SQLite call fails, the
      rows that a key/value listing selects, and the texts of the pages that are not modelled. */
  datatype Env = Env(now: int, fault: bool, laterFault: bool, kvRows: seq<KvRow>,
                     page: string, health: string, metrics: string)


  // ---------- fixed texts ----------

  const USE_JSON: CString := "use application/json"
  const NEED_BODY: CString := "body required"
  const NO_DATA: CString := "missing field: data"
  const NEED_VALUE: CString := "body with {\"value\"} " + "required as application/json"
  const NO_VALUE: CString := "missing field: value"
  const BAD_JSON: CString := "invalid JSON"
  const BAD_KEY: CString := "invalid key"
  const NO_WRITE: CString := "store write failed"
  const NO_READ: CString := "store read failed"
  const NO_DELETE: CString := "store delete failed"
  const NO_SUCH_KEY: CString := "key not found"
  const OVERFLOW: CString := "encode overflow"
  const LONG_PREFIX: CString := "prefix too long"
  const BAD_PREFIX: CString := "invalid prefix charset"
  const BAD_LIMIT: CString := "limit must be 1..100"
  const NO_LIST: CString := "store list failed"
  const NEED_NOTE: CString := "body with {\"title\"," + "\"body\"} required"
  const NO_TITLE: CString := "missing field: title"
  const NO_BODY: CString := "missing field: body"
  const NOTE_LIMITS: CString := "title 1..200, body 0..8192"
  const TITLE_LIMITS: CString := "title must be 1..200 chars"
  const NO_REREAD: CString := "created but re-read failed"
  const NO_SUCH_NOTE: CString := "note not found"
  const BAD_ID: CString := "invalid id"
  const NO_FIELDS: CString := "missing field: title/body"
  const BAD_FIELDS: CString := "invalid title/body"
  const BAD_PAGE: CString := "limit 1..100, offset >= 0"
  const NO_ROUTE: CString := "unknown route"
  const KEY_RULE: CString := "key must match " + "[A-Za-z0-9._-]{1,128}"
  const ID_RULE: CString := "id must be a positive integer"
  const NO_COUNT: CString := "store count failed"
  const NO_API_KEY: CString := "missing X-API-Key header"
  const WRONG_API_KEY: CString := "invalid API key"
  const ALLOW_GET: CString := "GET"
  const ALLOW_POST: CString := "POST"
  const ALLOW_GET_POST: CString := "GET, POST"
  const ALLOW_ITEM: CString := "GET, PUT, DELETE"
  const LIMIT_NAME: CString := "limit"
  const OFFSET_NAME: CString := "offset"
  const PREFIX_NAME: CString := "prefix"

  function Fail(db: Db, e: ApiError, detail: string): Outcome {
    Outcome(e, db, [ErrorReply(e, detail)])
  }

  function Succeed(db: Db, r: Reply): Outcome {
    Outcome(Ok, db, [r])
  }

  function Refuse(db: Db, allow: string): Outcome {
    Outcome(MethodNotAllowed, db, [NotAllowed(allow)])
  }

  // ---------- parameters ----------

  const DATA_FIELD: CString := "data"
  const TITLE_FIELD: CString := "title"
  const BODY_FIELD: CString := "body"

  const JSON_NAME := "application/json"

  predicate IsJsonType(contentType: string) {
    Contains(ToLower(Truncate(contentType, 127)), JSON_NAME)
  }

  /** api_require_json with a required body. */
  function RequireJson(req: Request): ApiError {
    if req.contentLength < 0 then LengthRequired
    else if req.body.None? then BadRequest
    else if !IsJsonType(req.contentType) then UnsupportedMedia
    else Ok
  }

  /** json_get_string on the body; only called once RequireJson has passed. */
  function Field(req: Request, field: CString, cap: nat): Lookup {
    match req.body
    case None => Failed(BadRequest)
    case Some(body) => GetString(body, field, cap)
  }

  datatype Number = Bad | Good(n: int)

  function ParseNumber(text: string, least: int, most: int): Number {
    var r := StrTol(text);
    if r.end == 0 || r.end < |text| || r.value < least || r.value > most then Bad else Good(r.value)
  }

  function ParseLimit(query: string): (r: Number)
    ensures r.Good? ==> 1 <= r.n <= MAX_LIST
  {
    match HttpQuery.Lookup(query, LIMIT_NAME, 32)
    case TooLong => Bad
    case Absent => Good(50)
    case Value(text) => ParseNumber(text, 1, MAX_LIST)
  }

  function ParseOffset(query: string): (r: Number)
    ensures r.Good? ==> 0 <= r.n <= MAX_OFFSET
  {
    match HttpQuery.Lookup(query, OFFSET_NAME, 32)
    case TooLong => Bad
    case Absent => Good(0)
    case Value(text) => ParseNumber(text, 0, MAX_OFFSET)
  }

  // ---------- echo ----------

  function EchoReply(data: string): (ApiError, Reply) {
    var body := OneEntry(DATA_FIELD, Escape(data));
    if !Escapes(data, MAX_BODY + 128) || |body| >= MAX_BODY + 256 then (Internal, ErrorReply(Internal, OVERFLOW))
    else (Ok, JsonReply(200, body))
  }

  function HandleEcho(db: Db, req: Request): Outcome {
    var checked := RequireJson(req);
    if checked != Ok then
      Fail(db, checked, if checked == UnsupportedMedia then USE_JSON else NEED_BODY)
    else
      match Field(req, DATA_FIELD, MAX_BODY)
      case Failed(e) => Fail(db, e, if e == MissingField then NO_DATA else BAD_JSON)
      case Found(data) => Outcome(EchoReply(data).0, db, [EchoReply(data).1])
  }


  // ---------- key/value requests: what precedes the store call, the call, what follows it ----------

  datatype KvCall = PutCall(key: string, value: string) | GetCall(key: string) | DelCall(key: string)

  /** Before the store call a request may be answered already, or refused for its method. */
  datatype Plan = Early(error: ApiError, detail: string) | Refused | Call(call: KvCall)

  function PlanPut(req: Request, key: string): Plan {
    var checked := RequireJson(req);
    if checked != Ok then Early(checked, NEED_VALUE)
    else
      match Field(req, VALUE_FIELD, MAX_VALUE + 1)
      case Failed(e) => Early(e, if e == MissingField then NO_VALUE else BAD_JSON)
      case Found(value) => Call(PutCall(key, value))
  }

  function KvPlan(req: Request, key: string): Plan {
    match req.verb
    case Get => Call(GetCall(key))
    case Put => PlanPut(req, key)
    case Delete => Call(DelCall(key))
    case _ => Refused
  }

  /** The store call, one step under the store's mutex. */
  function KvStep(db: Db, fault: bool, call: KvCall): (ApiError, string, Db) {
    match call
    case PutCall(key, value) =>
      var (e, db') := KvPut(db, fault, key, value);
      (e, value, db')
    case GetCall(key) =>
      var (e, value) := KvGet(db, fault, key, MAX_VALUE + 1);
      (e, value, db)
    case DelCall(key) =>
      var (e, db') := KvDel(db, fault, key);
      (e, "", db')
  }

  /** The body of a key/value reply and its buffers. */
  function EntryReply(key: string, value: string): (ApiError, Reply) {
    var body := KvText(KvRow(key, value));
    if !Escapes(value, 2 * MAX_VALUE + 1) || !Escapes(key, KEY_BUF) || |body| >= 2 * MAX_VALUE + 512 then
      (Internal, ErrorReply(Internal, OVERFLOW))
    else (Ok, JsonReply(200, body))
  }

  /** What is sent after the store call, from the handler's own variables. */
  function KvAnswer(call: KvCall, e: ApiError, value: string): (ApiError, Reply) {
    match call
    case PutCall(key, v) =>
      if e != Ok then (e, ErrorReply(e, if e == InvalidKey then BAD_KEY else NO_WRITE))
      else EntryReply(key, v)
    case GetCall(key) =>
      if e != Ok then (e, ErrorReply(e, if e == NotFound then NO_SUCH_KEY else NO_READ))
      else EntryReply(key, value)
    case DelCall(key) =>
      if e != Ok then (e, ErrorReply(e, if e == NotFound then NO_SUCH_KEY else NO_DELETE))
      else (Ok, NoContent)
  }

  function RunPlan(db: Db, fault: bool, plan: Plan): Outcome {
    match plan
    case Early(e, detail) => Fail(db, e, detail)
    case Refused => Refuse(db, ALLOW_ITEM)
    case Call(call) =>
      var (e, value, db') := KvStep(db, fault, call);
      var (error, reply) := KvAnswer(call, e, value);
      Outcome(error, db', [reply])
  }

  const ITEMS_LABEL := "{\"items\":"

  function ItemsText(items: string): string {
    ITEMS_LABEL + (items + ['}'])
  }

  /** What handle_kv_list does after its parameters were checked. */
  function KvRowsReply(env: Env): (ApiError, Reply) {
    var listed := if env.fault then Internal else KvListError(env.kvRows, MAX_BODY);
    if listed != Ok then (listed, ErrorReply(listed, NO_LIST))
    else if |ItemsText(KvListText(env.kvRows))| >= MAX_BODY then (Internal, ErrorReply(Internal, OVERFLOW))
    else (Ok, JsonReply(200, ItemsText(KvListText(env.kvRows))))
  }

  function HandleKvList(db: Db, env: Env, req: Request): Outcome {
    var prefix := HttpQuery.Lookup(req.query, PREFIX_NAME, MAX_KEY + 1);
    if prefix.TooLong? then Fail(db, InvalidQuery, LONG_PREFIX)
    else if prefix.Value? && !ValidKey(prefix.text) && prefix.text != [] then Fail(db, InvalidQuery, BAD_PREFIX)
    else if ParseLimit(req.query).Bad? then Fail(db, InvalidQuery, BAD_LIMIT)
    else Outcome(KvRowsReply(env).0, db, [KvRowsReply(env).1])
  }

  // ---------- notes ----------

  const NOTE_CAP := 2 * MAX_NOTE + 1024

  /** store_note_get */
  function NoteGet(db: Db, fault: bool, id: int): (ApiError, string) {
    if id <= 0 then (InvalidId, "")
    else if fault then (Internal, "")
    else if id !in db.notes then (NotFound, "")
    else
      var row := NoteRow(id, db.notes[id]);
      if !NoteOk(row) then (Internal, "")
      else if |NoteText(row)| >= NOTE_CAP then (PayloadTooLarge, "")
      else (Ok, NoteText(row))
  }

  function HandleNoteGet(db: Db, fault: bool, id: int): Outcome {
    var (e, text) := NoteGet(db, fault, id);
    if e != Ok then Fail(db, e, if e == NotFound then NO_SUCH_NOTE else BAD_ID)
    else Succeed(db, JsonReply(200, text))
  }

  /** Two store calls: the row is created, then read again. */
  function CreateNote(db: Db, env: Env, title: string, body: string): Outcome {
    var (e, db') := NoteCreate(db, env.fault, env.now, title, body);
    if e != Ok then
      Fail(db', e, if e == PayloadTooLarge then NOTE_LIMITS
                   else if e == BadRequest then TITLE_LIMITS else NO_WRITE)
    else
      var (got, text) := NoteGet(db', env.laterFault, db'.lastId);
      if got != Ok then Fail(db', got, NO_REREAD)
      else Succeed(db', JsonReply(201, text))
  }

  /** What follows from the check of the request and the two fields. */
  function CreateFrom(db: Db, env: Env, checked: ApiError, title: Lookup, body: Lookup): Outcome {
    if checked != Ok then Fail(db, checked, NEED_NOTE)
    else if title.Failed? then Fail(db, title.error, if title.error == MissingField then NO_TITLE else BAD_JSON)
    else if body.Failed? then Fail(db, body.error, if body.error == MissingField then NO_BODY else BAD_JSON)
    else CreateNote(db, env, title.value, body.value)
  }

  function HandleNoteCreate(db: Db, env: Env, req: Request): Outcome {
    CreateFrom(db, env, RequireJson(req), Field(req, TITLE_FIELD, MAX_TITLE + 1), Field(req, BODY_FIELD, MAX_NOTE + 1))
  }

  function UpdateNote(db: Db, env: Env, id: int, title: string, body: string): Outcome {
    var (e, db') := NoteUpdate(db, env.fault, env.now, id, title, body);
    if e != Ok then Fail(db', e, if e == NotFound then NO_SUCH_NOTE else BAD_FIELDS)
    else HandleNoteGet(db', env.laterFault, id)
  }

  function UpdateFrom(db: Db, env: Env, id: int, checked: ApiError, title: Lookup, body: Lookup): Outcome {
    if checked != Ok then Fail(db, checked, NEED_NOTE)
    else if title.Failed? || body.Failed? then Fail(db, BadRequest, NO_FIELDS)
    else UpdateNote(db, env, id, title.value, body.value)
  }

  function HandleNoteUpdate(db: Db, env: Env, req: Request, id: int): Outcome {
    UpdateFrom(db, env, id, RequireJson(req), Field(req, TITLE_FIELD, MAX_TITLE + 1), Field(req, BODY_FIELD, MAX_NOTE + 1))
  }

  function HandleNoteDel(db: Db, env: Env, id: int): Outcome {
    var (e, db') := NoteDel(db, env.fault, id);
    if e != Ok then Fail(db', e, if e == NotFound then NO_SUCH_NOTE else BAD_ID)
    else Succeed(db', NoContent)
  }

  /** What handle_note_list does after its parameters were checked. */
  function NotePageReply(db: Db, fault: bool, limit: nat, offset: nat): (ApiError, Reply) {
    var rows, total := PageRows(db, limit, offset), |db.notes|;
    ListReply(if fault then Internal else NoteListError(rows, total, MAX_BODY), NoteListText(rows, total))
  }

  function ListReply(listed: ApiError, text: string): (ApiError, Reply) {
    if listed != Ok then (listed, ErrorReply(listed, NO_LIST)) else (Ok, JsonReply(200, text))
  }

  function HandleNoteList(db: Db, env: Env, req: Request): Outcome {
    var limit, offset := ParseLimit(req.query), ParseOffset(req.query);
    if limit.Bad? || offset.Bad? then Fail(db, InvalidQuery, BAD_PAGE)
    else
      var (e, reply) := NotePageReply(db, env.fault, limit.n, offset.n);
      Outcome(e, db, [reply])
  }

  // ---------- routing ----------

  /** What a path names, whatever the method. */
  datatype Route =
    | Page | Health | Metrics | Echo
    | KvAll | KvKey(key: string) | KvUnknown | KvInvalid
    | NoteAll | NoteId(id: int) | NoteUnknown | NoteInvalid
    | Nowhere

  function KvRoute(path: string): Route {
    if path == "/api/kv" || path == "/api/kv/" then KvAll
    else if !At(path, 0, "/api/kv/") then KvUnknown
    else if '/' in path[8..] || !ValidKey(path[8..]) then KvInvalid
    else KvKey(path[8..])
  }

  /** parse_note_id after the collection itself was ruled out. */
  function NoteRoute(path: string): Route {
    if path == "/api/notes" || path == "/api/notes/" then NoteAll
    else if !At(path, 0, "/api/notes/") then NoteInvalid
    else if '/' in path[11..] then NoteUnknown
    else
      match ParseNumber(path[11..], 1, LONG_MAX)
      case Bad => NoteInvalid
      case Good(id) => NoteId(id)
  }

  function RouteOf(path: string): Route {
    if path == "/" || path == "/index.html" then Page
    else if path == "/health" then Health
    else if path == "/metrics" then Metrics
    else if path == "/api/echo" then Echo
    else if At(path, 0, "/api/kv") then KvRoute(path)
    else if At(path, 0, "/api/notes") then NoteRoute(path)
    else Nowhere
  }

  function DispatchKv(db: Db, env: Env, req: Request, route: Route): Outcome {
    match route
    case KvAll => if req.verb != Get then Refuse(db, ALLOW_GET) else HandleKvList(db, env, req)
    case KvUnknown => Fail(db, NotFound, NO_ROUTE)
    case KvKey(key) => RunPlan(db, env.fault, KvPlan(req, key))
    case _ => Fail(db, InvalidKey, KEY_RULE)
  }

  function NoteCollection(db: Db, env: Env, req: Request): Outcome {
    match req.verb
    case Post => HandleNoteCreate(db, env, req)
    case Get => HandleNoteList(db, env, req)
    case _ => Refuse(db, ALLOW_GET_POST)
  }

  function NoteItem(db: Db, env: Env, req: Request, id: int): Outcome {
    match req.verb
    case Get => HandleNoteGet(db, env.fault, id)
    case Put => HandleNoteUpdate(db, env, req, id)
    case Delete => HandleNoteDel(db, env, id)
    case _ => Refuse(db, ALLOW_ITEM)
  }

  function DispatchNotes(db: Db, env: Env, req: Request, route: Route): Outcome {
    match route
    case NoteAll => NoteCollection(db, env, req)
    case NoteUnknown => Fail(db, NotFound, NO_ROUTE)
    case NoteId(id) => NoteItem(db, env, req, id)
    case _ => Fail(db, InvalidId, ID_RULE)
  }

  const HEALTH_CAP := 256
  const METRICS_CAP := 512

  /** A text that snprintf writes to a buffer of `cap` bytes. */
  function ShowText(db: Db, text: string, cap: nat): Outcome {
    if |text| >= cap then Fail(db, Internal, OVERFLOW) else Succeed(db, JsonReply(200, text))
  }

  /** Everything after the check of the API key. */
  function Handle(db: Db, env: Env, req: Request, route: Route): Outcome {
    match route
    case Page => if req.verb != Get then Refuse(db, ALLOW_GET) else Succeed(db, PageReply(env.page))
    case Health => if req.verb != Get then Refuse(db, ALLOW_GET) else ShowText(db, env.health, HEALTH_CAP)
    case Metrics =>
      if req.verb != Get then Refuse(db, ALLOW_GET)
      else if env.fault then Fail(db, Internal, NO_COUNT)
      else ShowText(db, env.metrics, METRICS_CAP)
    case Echo => if req.verb != Post then Refuse(db, ALLOW_POST) else HandleEcho(db, req)
    case KvAll => DispatchKv(db, env, req, route)
    case KvKey(_) => DispatchKv(db, env, req, route)
    case KvUnknown => DispatchKv(db, env, req, route)
    case KvInvalid => DispatchKv(db, env, req, route)
    case NoteAll => DispatchNotes(db, env, req, route)
    case NoteId(_) => DispatchNotes(db, env, req, route)
    case NoteUnknown => DispatchNotes(db, env, req, route)
    case NoteInvalid => DispatchNotes(db, env, req, route)
    case Nowhere => Fail(db, NotFound, NO_ROUTE)
  }

  /** Writes under /api/ need the key. */
  predicate Guarded(req: Request) {
    req.verb != Get && At(req.path, 0, "/api/")
  }

  /** api_dispatch */
  function Dispatch(key: string, db: Db, env: Env, req: Request): Outcome {
    var auth := Auth.Verdict(key, req.apiKey);
    if RouteOf(req.path) != Page && Guarded(req) && auth != Ok then
      Fail(db, auth, if auth == Unauthorized then NO_API_KEY else WRONG_API_KEY)
    else Handle(db, env, req, RouteOf(req.path))
  }
}
