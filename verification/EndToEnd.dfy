/** From one client's bytes to another client's answer: a value that was put is read back, across the request
    codec, the JSON codec, the key check, the store and whatever requests come between. */
module EndToEnd {
  import opened CText
  import opened Numbers
  import opened HttpParse
  import opened HttpRead
  import opened HttpRoundTrip
  import opened Json
  import opened JsonObject
  import opened JsonGrammar
  import opened JsonReply
  import HttpSend
  import opened Store
  import opened Listing
  import opened Api
  import opened ApiFacts
  import opened ApiRuns
  import Answers

  // ---------- what requests for other things leave alone ----------

  /** The request writes the entry of `name`: it is a PUT or a DELETE of it that passes the key check and its own
      checks, and the store call does not fail. */
  predicate WritesEntry(key: string, v: Visit, name: string) {
    && RouteOf(v.req.path) == KvKey(name) && v.req.verb != Get && KvPlan(v.req, name).Call?
    && (key == [] || v.req.apiKey == key) && !v.env.fault
  }

  ghost predicate SameEntry(db: Db, after: Db, name: string) {
    (name in db.kv <==> name in after.kv) && (name in db.kv ==> db.kv[name] == after.kv[name])
  }

  lemma PlanSpares(db: Db, fault: bool, plan: Plan, other: string, name: string)
    requires SanePlan(plan, other) && other != name
    ensures SameEntry(db, RunPlan(db, fault, plan).db, name)
  {
  }

  lemma NotesSpare(db: Db, env: Env, req: Request, route: Route)
    requires route.NoteAll? || route.NoteId?
    ensures DispatchNotes(db, env, req, route).db.kv == db.kv
  {
    if route.NoteAll? {
      CollectionSpares(db, env, req);
    } else {
      ItemSpares(db, env, req, route.id);
    }
  }

  lemma CreateSpares(db: Db, env: Env, req: Request)
    ensures HandleNoteCreate(db, env, req).db.kv == db.kv
  {
  }

  lemma CollectionSpares(db: Db, env: Env, req: Request)
    ensures NoteCollection(db, env, req).db.kv == db.kv
  {
    match req.verb
    case Post => CreateSpares(db, env, req);
    case Get => NoteListTruthful(db, env, req);
    case _ =>
  }

  lemma ItemSpares(db: Db, env: Env, req: Request, id: int)
    ensures NoteItem(db, env, req, id).db.kv == db.kv
  {
    NoteGetTruthful(db, env.fault, id);
  }

  lemma HandleSpares(db: Db, env: Env, req: Request, route: Route, name: string)
    requires req.verb == Get || route != KvKey(name)
    ensures SameEntry(db, Handle(db, env, req, route).db, name)
  {
    if req.verb == Get {
      GetKeeps(db, env, req, route);
    } else if route.KvKey? {
      Planned(req, route.key);
      PlanSpares(db, env.fault, KvPlan(req, route.key), route.key, name);
    } else if Writable(route) {
      NotesSpare(db, env, req, route);
    } else {
      OtherRoutesKeep(db, env, req, route);
    }
  }

  /** A plan that makes no store call, or one whose store call fails, changes nothing. */
  lemma IdlePlanKeeps(db: Db, fault: bool, plan: Plan)
    requires !plan.Call? || fault
    ensures RunPlan(db, fault, plan).db == db
  {
  }

  lemma DispatchSpares(key: string, db: Db, v: Visit, name: string)
    requires !WritesEntry(key, v, name)
    ensures SameEntry(db, Dispatch(key, db, v.env, v.req).db, name)
  {
    var route := RouteOf(v.req.path);
    if key != [] && !Authorised(key, v) {
      UnauthorisedKeeps(key, db, v);
    } else if v.req.verb == Get || route != KvKey(name) {
      HandleSpares(db, v.env, v.req, route, name);
    } else {
      IdlePlanKeeps(db, v.env.fault, KvPlan(v.req, name));
    }
  }

  /** Over any run of requests that do not write the entry it stays as it was. */
  lemma {:induction false} RunSpares(key: string, db: Db, run: seq<Visit>, name: string)
    requires forall i | 0 <= i < |run| :: !WritesEntry(key, run[i], name)
    ensures SameEntry(db, Final(key, db, run), name)
    decreases |run|
  {
    if run != [] {
      DispatchSpares(key, db, run[0], name);
      RunSpares(key, Dispatch(key, db, run[0].env, run[0].req).db, run[1..], name);
    }
  }

  // ---------- the path of an entry ----------

  const KV_PREFIX := "/api/kv/"

  function PathOf(name: string): string {
    KV_PREFIX + name
  }

  predicate PathChar(c: char) {
    !Numbers.IsSpace(c) && c != '\r' && c != '\n' && c != '\0' && c != '?'
  }

  lemma PathChars(name: string)
    requires ValidKey(name)
    ensures forall i | 0 <= i < |PathOf(name)| :: PathChar(PathOf(name)[i])
  {
    assert forall i | 0 <= i < |KV_PREFIX| :: PathChar(KV_PREFIX[i]);
    assert forall i | 0 <= i < |name| :: PathChar(name[i]);
  }

  lemma PathIsWord(name: string)
    requires ValidKey(name)
    ensures Word(PathOf(name), TARGET_WIDTH) && PathOf(name)[0] == '/'
    ensures SplitTarget(PathOf(name)) == (PathOf(name), "")
  {
    PathChars(name);
    IndexIs(PathOf(name), '?', |PathOf(name)|);
  }

  lemma PathRoutes(name: string)
    requires ValidKey(name)
    ensures RouteOf(PathOf(name)) == KvKey(name)
  {
    Answers.KvRoutes(name);
  }

  // ---------- the requests of a client ----------

  /** A request as a client writes it: request line, header fields and body, and what the fields say. */
  datatype Asking = Asking(opening: Opening, fields: seq<Field>, headers: Headers, body: string)

  /** The request is about that path, keeps to the syntax and fits the server's buffers. The target may have a query;
      the fields may stand in any order and case, with any others among them. */
  predicate AsksAt(a: Asking, m: Method, path: string) {
    && m != Unknown && a.opening.verb == MethodName(m) && ValidOpening(a.opening) && SplitTarget(a.opening.target).0 == path
    && Spells(a.fields, a.headers) && |a.body| == OrElse(a.headers.length, 0) <= 65536
    && |Printed(a.opening, a.fields)| + 4 < 16384
  }

  predicate AsksFor(a: Asking, m: Method, name: string) {
    AsksAt(a, m, PathOf(name))
  }

  predicate SendsJson(a: Asking) {
    a.headers.length.Some? && a.headers.contentType.Some? && IsJsonType(a.headers.contentType.value)
  }

  /** The body is a JSON object, in any notation that the grammar allows, in which the field occurs once, with that
      value. */
  ghost predicate CarriesField(a: Asking, field: CString, value: string) {
    SendsJson(a) && exists d :: IsText(a.body, d) && Occurrences(d.rest, field) == [value]
  }

  ghost predicate Carries(a: Asking, value: string) {
    CarriesField(a, VALUE_FIELD, value)
  }

  /** The request passes the key check: the server is open, or the client sends its key. */
  predicate Authorises(key: string, a: Asking) {
    key == [] || OrElse(a.headers.key, "") == key
  }

  /** The bytes of the request, and whatever the client sends after them. */
  function BytesOf(a: Asking, extra: string): string {
    Stream(RequestLine(a.opening), a.fields, a.body + extra)
  }

  /** What the server makes of it. */
  function Understood(m: Method, a: Asking): Request {
    Received(m, a.opening, a.headers).(body := BodyOf(a.body))
  }

  /** However the stream is split, the request arrives as it was meant. */
  lemma AskingArrives(m: Method, a: Asking, path: string, extra: string, r: Parsed)
    requires AsksAt(a, m, path) && ReadsAs(BytesOf(a, extra), MAX_HEADERS, MAX_BODY, r)
    ensures r == Parsed(Ok, Understood(m, a))
  {
    StreamRoundTrip(m, a.opening, a.fields, a.headers, a.body, extra, MAX_HEADERS, MAX_BODY, r);
  }

  // ---------- what the server does with them ----------

  /** A value that a request carries is found, if the handler has room for it, and is too large otherwise; it is a C
      string of at most 8191 bytes. */
  lemma CarriedIsRead(m: Method, a: Asking, field: CString, value: string, cap: nat)
    requires CarriesField(a, field, value) && cap > 0
    ensures Api.Field(Understood(m, a), field, cap) == if |value| + 1 <= cap then Found(value) else Failed(PayloadTooLarge)
    ensures RequireJson(Understood(m, a)) == Ok && |value| < VALUE_CAP
  {
    var d :| IsText(a.body, d) && Occurrences(d.rest, field) == [value];
    OccurrencesShort(d.rest, field);
    assert value in Occurrences(d.rest, field);
    DocumentComplete(a.body, d, field, cap);
  }

  lemma CarriedIsFound(a: Asking, value: string)
    requires Carries(a, value)
    ensures Api.Field(Understood(Put, a), VALUE_FIELD, MAX_VALUE + 1) == Found(value) && GoodText(value)
  {
    CarriedIsRead(Put, a, VALUE_FIELD, value, MAX_VALUE + 1);
    GetStringSane(a.body, VALUE_FIELD, MAX_VALUE + 1);
  }

  lemma {:induction false} OccurrencesShort(rest: Rest, field: CString)
    requires ValidRest(rest)
    ensures forall v | v in Occurrences(rest, field) :: |v| < VALUE_CAP
    decreases rest
  {
    if rest.More? {
      OccurrencesShort(rest.next, field);
    }
  }

  lemma PutIsPlanned(a: Asking, name: string, value: string)
    requires Carries(a, value)
    ensures KvPlan(Understood(Put, a), name) == Call(PutCall(name, value))
  {
    CarriedIsFound(a, value);
    PlanPutIs(Understood(Put, a), name, value);
  }

  lemma PlanPutIs(req: Request, name: string, value: string)
    requires RequireJson(req) == Ok && Api.Field(req, VALUE_FIELD, MAX_VALUE + 1) == Found(value)
    ensures PlanPut(req, name) == Call(PutCall(name, value))
  {
  }

  lemma DispatchesItem(key: string, db: Db, env: Env, req: Request, name: string)
    requires ValidKey(name) && req.path == PathOf(name) && (req.verb == Get || key == [] || req.apiKey == key)
    ensures Dispatch(key, db, env, req) == RunPlan(db, env.fault, KvPlan(req, name))
  {
    PathRoutes(name);
  }

  /** The reply about an entry, to the client that put it and to every client that gets it. */
  function EntryOutcome(db: Db, name: string, value: string): Outcome {
    Outcome(EntryReply(name, value).0, db, [EntryReply(name, value).1])
  }

  lemma PutRuns(db: Db, name: string, value: string)
    requires ValidKey(name) && GoodText(value)
    ensures RunPlan(db, false, Call(PutCall(name, value))) == EntryOutcome(db.(kv := db.kv[name := value]), name, value)
  {
  }

  lemma PutIsServed(key: string, db: Db, env: Env, a: Asking, name: string, value: string)
    requires ValidKey(name) && AsksFor(a, Put, name) && Authorises(key, a) && !env.fault
    requires Carries(a, value)
    ensures Dispatch(key, db, env, Understood(Put, a)) == EntryOutcome(db.(kv := db.kv[name := value]), name, value)
  {
    CarriedIsFound(a, value);
    PutIsPlanned(a, name, value);
    PutRuns(db, name, value);
    DispatchesItem(key, db, env, Understood(Put, a), name);
  }

  lemma GetIsServed(key: string, db: Db, env: Env, a: Asking, name: string, value: string)
    requires ValidKey(name) && AsksFor(a, Get, name) && !env.fault
    requires GoodText(value) && name in db.kv && db.kv[name] == value
    ensures Dispatch(key, db, env, Understood(Get, a)) == EntryOutcome(db, name, value)
  {
    DispatchesItem(key, db, env, Understood(Get, a), name);
  }

  /** A put value is read back. One client puts a value, in any JSON notation and with any headers that pass the key
      check; then any requests are served that do not write this entry; then any client gets it, with or without
      a key. However the two streams are split, the value is stored, both clients get the same 200 response, and
      its body parses back to the value; if the value has a control byte without an escape, both get 500 although
      it is stored. */
  lemma PutThenGet(key: string, db: Db, name: string, value: string, put: Asking, putEnv: Env, between: seq<Visit>,
                   get: Asking, getEnv: Env, extra1: string, extra2: string, r1: Parsed, r2: Parsed)
    requires ValidKey(name) && !putEnv.fault && !getEnv.fault
    requires AsksFor(put, Put, name) && Carries(put, value) && Authorises(key, put)
    requires AsksFor(get, Get, name)
    requires forall i | 0 <= i < |between| :: !WritesEntry(key, between[i], name)
    requires ReadsAs(BytesOf(put, extra1), MAX_HEADERS, MAX_BODY, r1)
    requires ReadsAs(BytesOf(get, extra2), MAX_HEADERS, MAX_BODY, r2)
    ensures r1.error == Ok && r2.error == Ok
    ensures var stored := Dispatch(key, db, putEnv, r1.request);
            var shown := Dispatch(key, Final(key, stored.db, between), getEnv, r2.request);
            && stored.db == db.(kv := db.kv[name := value])
            && shown.sent == stored.sent && shown.error == stored.error
            && (shown.error == Ok <==> Escapable(value))
            && (Escapable(value) ==> shown.sent == [JsonReply(200, KvText(KvRow(name, value)))])
    ensures GetString(KvText(KvRow(name, value)), VALUE_FIELD, VALUE_CAP) == Found(value)
  {
    AskingArrives(Put, put, PathOf(name), extra1, r1);
    AskingArrives(Get, get, PathOf(name), extra2, r2);
    PutIsServed(key, db, putEnv, put, name, value);
    CarriedIsFound(put, value);
    var stored := db.(kv := db.kv[name := value]);
    RunSpares(key, stored, between, name);
    GetIsServed(key, Final(key, stored, between), getEnv, get, name, value);
    EntryEncodes(name, value);
    EntryParsesBack(name, value);
  }

  // ---------- deleting ----------

  lemma AbsentIsServed(key: string, db: Db, env: Env, m: Method, a: Asking, name: string)
    requires ValidKey(name) && AsksFor(a, m, name) && (m == Get || (m == Delete && Authorises(key, a)))
    requires !env.fault && name !in db.kv
    ensures Dispatch(key, db, env, Understood(m, a)) == Outcome(NotFound, db, [ErrorReply(NotFound, "key not found")])
  {
    DispatchesItem(key, db, env, Understood(m, a), name);
  }

  /** A deletion answers 204, removes the entry and leaves everything else. */
  lemma DeleteIsServed(key: string, db: Db, env: Env, a: Asking, name: string)
    requires ValidKey(name) && AsksFor(a, Delete, name) && Authorises(key, a) && !env.fault && name in db.kv
    ensures var o := Dispatch(key, db, env, Understood(Delete, a));
            && o.error == Ok && o.sent == [NoContent] && o.db.notes == db.notes && o.db.lastId == db.lastId
            && (forall k :: k in o.db.kv <==> k in db.kv && k != name)
            && (forall k | k in o.db.kv :: o.db.kv[k] == db.kv[k])
  {
    DispatchesItem(key, db, env, Understood(Delete, a), name);
  }

  /** A deleted entry is gone. One client deletes an entry that is there and gets 204; then any requests are served
      that do not write this entry; then a GET by any client, and a further DELETE, is 404 and changes nothing. */
  lemma DeleteThenAsk(key: string, db: Db, name: string, del: Asking, delEnv: Env, between: seq<Visit>,
                      m: Method, ask: Asking, askEnv: Env, extra1: string, extra2: string, r1: Parsed, r2: Parsed)
    requires ValidKey(name) && name in db.kv && !delEnv.fault && !askEnv.fault
    requires AsksFor(del, Delete, name) && Authorises(key, del)
    requires AsksFor(ask, m, name) && (m == Get || (m == Delete && Authorises(key, ask)))
    requires forall i | 0 <= i < |between| :: !WritesEntry(key, between[i], name)
    requires ReadsAs(BytesOf(del, extra1), MAX_HEADERS, MAX_BODY, r1)
    requires ReadsAs(BytesOf(ask, extra2), MAX_HEADERS, MAX_BODY, r2)
    ensures r1.error == Ok && r2.error == Ok
    ensures var deleted := Dispatch(key, db, delEnv, r1.request);
            var later := Final(key, deleted.db, between);
            && deleted.error == Ok && deleted.sent == [NoContent]
            && Dispatch(key, later, askEnv, r2.request) == Outcome(NotFound, later, [ErrorReply(NotFound, "key not found")])
  {
    AskingArrives(Delete, del, PathOf(name), extra1, r1);
    AskingArrives(m, ask, PathOf(name), extra2, r2);
    DeleteIsServed(key, db, delEnv, del, name);
    var deleted := Dispatch(key, db, delEnv, r1.request).db;
    RunSpares(key, deleted, between, name);
    AbsentIsServed(key, Final(key, deleted, between), askEnv, m, ask, name);
  }

  // ---------- such clients exist ----------

  const HTTP11 := "HTTP/1.1"
  const HOST_NAME := "host"
  const LOCALHOST := "localhost"

  /** A client that sends Host first and writes the header names in lower case. */
  function PlainFields(n: nat, key: string): seq<Field> {
    [Field(HOST_NAME, LOCALHOST), Field(KEY_NAME, key), Field(TYPE_NAME, HttpSend.JSON_TYPE),
     Field(LENGTH_NAME, Decimal(n))]
  }

  function PlainPut(name: string, value: string, key: string): Asking {
    var body := OneEntry(VALUE_FIELD, Escape(value));
    Asking(Opening(MethodName(Put), PathOf(name), HTTP11), PlainFields(|body|, key),
           Headers(Some(|body|), Some(HttpSend.JSON_TYPE), Some(key)), body)
  }

  function PlainGet(name: string): Asking {
    Asking(Opening(MethodName(Get), PathOf(name), HTTP11), [Field("Host", "localhost")], Headers(None, None, None), [])
  }

  lemma TypeIsJson()
    ensures ValidValue(HttpSend.JSON_TYPE, 127) && IsJsonType(HttpSend.JSON_TYPE)
  {
    var t := HttpSend.JSON_TYPE;
    assert Truncate(t, 127) == t && ToLower(t) == t;
    assert At(t, 0, JSON_NAME);
  }

  lemma PlainOpening(name: string)
    requires ValidKey(name)
    ensures ValidOpening(Opening(MethodName(Put), PathOf(name), HTTP11)) && ValidOpening(Opening(MethodName(Get), PathOf(name), HTTP11))
  {
    PathIsWord(name);
    assert At(HTTP11, 0, "HTTP/1.");
  }

  lemma PutLength(value: string)
    requires GoodText(value)
    ensures |OneEntry(VALUE_FIELD, Escape(value))| <= MAX_BODY
  {
    assert |OneEntry(VALUE_FIELD, Escape(value))| == |Escape(value)| + 12;
  }

  lemma PutBlockIsShort(name: string, n: nat, key: string)
    requires ValidKey(name) && n <= MAX_BODY && |key| <= 255
    ensures |Printed(Opening(MethodName(Put), PathOf(name), HTTP11), PlainFields(n, key))| + 4 < MAX_HEADERS
  {
    assert Power10(5) == 100000;
    DecimalLength(n, 5, Power10(5));
    HttpSend.FieldsLength(PlainFields(n, key), 0, 300);
  }

  predicate LowerName(name: string) {
    0 < |name| < NAME_LIMIT && forall i | 0 <= i < |name| :: 'a' <= name[i] <= 'z' || name[i] == '-'
  }

  lemma LowerField(name: string, value: string)
    requires LowerName(name) && CleanText(value) && (value != [] ==> value[0] != ' ' && value[0] != '\t')
    ensures ValidField(Field(name, value)) && ToLower(name) == name
  {
  }

  lemma LowerNames()
    ensures LowerName(HOST_NAME) && LowerName(LENGTH_NAME) && LowerName(TYPE_NAME) && LowerName(KEY_NAME)
  {
  }

  lemma NamesDiffer()
    ensures LENGTH_NAME != TYPE_NAME && LENGTH_NAME != KEY_NAME && TYPE_NAME != KEY_NAME
    ensures HOST_NAME != LENGTH_NAME && HOST_NAME != TYPE_NAME && HOST_NAME != KEY_NAME && HOST_NAME != ENCODING_NAME
  {
    assert HOST_NAME[0] == 'h' && LENGTH_NAME[0] == 'c' && TYPE_NAME[0] == 'c' && KEY_NAME[0] == 'x' && ENCODING_NAME[0] == 't';
    assert |LENGTH_NAME| == 14 && |TYPE_NAME| == 12;
  }

  predicate Fits(f: Field, name: string, h: Headers) {
    ValidField(f) && ToLower(f.name) == name && Agrees(f, h)
  }

  lemma HostFits(h: Headers)
    ensures Fits(Field(HOST_NAME, LOCALHOST), HOST_NAME, h)
  {
    LowerNames();
    NamesDiffer();
    LowerField(HOST_NAME, LOCALHOST);
  }

  lemma KeyFits(key: string, h: Headers)
    requires ValidValue(key, 255) && h.key == Some(key)
    ensures Fits(Field(KEY_NAME, key), KEY_NAME, h)
  {
    LowerNames();
    NamesDiffer();
    LowerField(KEY_NAME, key);
  }

  lemma TypeFits(t: string, h: Headers)
    requires ValidValue(t, 127) && h.contentType == Some(t)
    ensures Fits(Field(TYPE_NAME, t), TYPE_NAME, h)
  {
    LowerNames();
    NamesDiffer();
    LowerField(TYPE_NAME, t);
  }

  lemma LengthFits(n: nat, h: Headers)
    requires n <= MAX_BODY && h.length == Some(n)
    ensures Fits(Field(LENGTH_NAME, Decimal(n)), LENGTH_NAME, h)
  {
    LowerNames();
    LowerField(LENGTH_NAME, Decimal(n));
  }

  /** Four fields that fit spell the headers. */
  lemma FourSpell(fs: seq<Field>, h: Headers)
    requires |fs| == 4 && Fits(fs[0], HOST_NAME, h) && Fits(fs[1], KEY_NAME, h) && Fits(fs[2], TYPE_NAME, h)
    requires Fits(fs[3], LENGTH_NAME, h)
    ensures Spells(fs, h)
  {
  }

  lemma PlainSpells(n: nat, key: string)
    requires n <= MAX_BODY && ValidValue(key, 255)
    ensures Spells(PlainFields(n, key), Headers(Some(n), Some(HttpSend.JSON_TYPE), Some(key)))
  {
    var h := Headers(Some(n), Some(HttpSend.JSON_TYPE), Some(key));
    TypeIsJson();
    HostFits(h);
    KeyFits(key, h);
    TypeFits(HttpSend.JSON_TYPE, h);
    LengthFits(n, h);
    FourSpell(PlainFields(n, key), h);
  }

  lemma PlainPutAsks(name: string, value: string, key: string)
    requires ValidKey(name) && GoodText(value) && ValidValue(key, 255)
    ensures AsksFor(PlainPut(name, value, key), Put, name) && Authorises(key, PlainPut(name, value, key))
  {
    PathIsWord(name);
    PlainOpening(name);
    PutLength(value);
    PlainSpells(|PlainPut(name, value, key).body|, key);
    PutBlockIsShort(name, |PlainPut(name, value, key).body|, key);
  }

  lemma PlainPutCarries(name: string, value: string, key: string)
    requires GoodText(value)
    ensures Carries(PlainPut(name, value, key), value)
  {
    TypeIsJson();
    CStrOfCString(value);
    FieldNamesPlain();
    OneReads(VALUE_FIELD, TokensOf(value), VALUE_FIELD, MAX_VALUE + 1);
    FoundExactly(OneEntry(VALUE_FIELD, Escape(value)), VALUE_FIELD, MAX_VALUE + 1, value);
  }

  lemma PlainGetSpells()
    ensures Spells([Field("Host", "localhost")], Headers(None, None, None))
  {
    assert ToLower("Host") == "host";
  }

  lemma PlainGetAsks(name: string)
    requires ValidKey(name)
    ensures AsksFor(PlainGet(name), Get, name)
  {
    PathIsWord(name);
    PlainOpening(name);
    PlainGetSpells();
    HttpSend.FieldsLength(PlainGet(name).fields, 0, 300);
  }

  /** Every value of up to 8191 bytes can be put, and every entry asked for: plain requests qualify. */
  lemma PlainClients(name: string, value: string, key: string)
    requires ValidKey(name) && GoodText(value) && ValidValue(key, 255)
    ensures AsksFor(PlainPut(name, value, key), Put, name) && Carries(PlainPut(name, value, key), value)
    ensures Authorises(key, PlainPut(name, value, key)) && AsksFor(PlainGet(name), Get, name)
  {
    PlainPutAsks(name, value, key);
    PlainPutCarries(name, value, key);
    PlainGetAsks(name);
  }
}
