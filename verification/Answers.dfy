/** What particular requests get, in the numbers and texts that clients see. */
module Answers {
  import opened CText
  import opened Numbers
  import opened HttpParse
  import HttpQuery
  import opened JsonObject
  import JsonGrammar
  import JsonReply
  import opened Json
  import opened HttpSend
  import opened Store
  import opened Listing
  import opened NotePages
  import opened Api
  import opened ApiFacts
  import opened ApiRuns
  import Auth

  // ---------- paths ----------

  lemma FixedRoutes()
    ensures RouteOf("/") == Page && RouteOf("/index.html") == Page
    ensures RouteOf("/health") == Health && RouteOf("/metrics") == Metrics && RouteOf("/api/echo") == Echo
    ensures RouteOf("/api/kv") == KvAll && RouteOf("/api/kv/") == KvAll
    ensures RouteOf("/api/notes") == NoteAll && RouteOf("/api/notes/") == NoteAll
  {
    assert "/api/kv"[5] == 'k' && "/api/notes"[5] == 'n' && "/api/notes/"[5] == 'n';
    assert At("/api/kv", 0, "/api/kv") && At("/api/kv/", 0, "/api/kv");
    assert At("/api/notes", 0, "/api/notes") && At("/api/notes/", 0, "/api/notes");
    assert "/api/kv"[5] != "/api/notes"[5];
  }

  const NOTES := "/api/notes/"

  lemma NumberIs(n: nat, least: int, most: int)
    requires n <= LONG_MAX
    ensures ParseNumber(Decimal(n), least, most) == if least <= n <= most then Good(n) else Bad
  {
    assert Decimal(n) + [] == Decimal(n);
    StrTolDecimal(n, []);
  }

  lemma JunkIsBad(n: nat, junk: string, least: int, most: int)
    requires n <= LONG_MAX && junk != [] && !IsDigit(junk[0])
    ensures ParseNumber(Decimal(n) + junk, least, most) == Bad
  {
    StrTolDecimal(n, junk);
  }

  /** A path under /api/notes/ that has more than that. */
  lemma NotePath(rest: string)
    requires rest != []
    ensures RouteOf(NOTES + rest) == NoteRoute(NOTES + rest) && (NOTES + rest)[11..] == rest
    ensures At(NOTES + rest, 0, "/api/notes/") && NOTES + rest != "/api/notes" && NOTES + rest != "/api/notes/"
  {
    var path := NOTES + rest;
    assert |NOTES| == 11 && NOTES[1] == 'a' && NOTES[5] == 'n';
    assert path[0 + 1] == 'a' && path[0 + 5] == 'n' && "/api/kv"[5] == 'k' && "/api/echo"[5] == 'e';
    assert At(path, 0, NOTES);
    AtPrefix(path, NOTES, 10);
    assert NOTES[..10] == "/api/notes";
    assert !At(path, 0, "/api/kv") by {
      assert path[0 + 5] != "/api/kv"[5];
    }
  }

  /** /api/notes/<id> for every positive long is that note; zero, and anything after the number, is no note. */
  lemma NoteRoutes(id: nat, junk: string)
    requires id <= LONG_MAX && (forall i | 0 <= i < |junk| :: junk[i] != '/') && (junk != [] ==> !IsDigit(junk[0]))
    ensures RouteOf(NOTES + (Decimal(id) + junk)) == if id > 0 && junk == [] then NoteId(id) else NoteInvalid
  {
    var rest := Decimal(id) + junk;
    NotePath(rest);
    assert forall i | 0 <= i < |rest| :: rest[i] != '/';
    if junk == [] {
      assert rest == Decimal(id);
      NumberIs(id, 1, LONG_MAX);
    } else {
      JunkIsBad(id, junk, 1, LONG_MAX);
    }
  }

  /** A further slash leads nowhere. */
  lemma NoteSlash(rest: string)
    requires '/' in rest
    ensures RouteOf(NOTES + rest) == NoteUnknown
  {
    NotePath(rest);
  }

  const KVS := "/api/kv/"

  /** /api/kv/<key> is that entry exactly if the key is valid, and a bad key otherwise. */
  lemma KvRoutes(rest: string)
    requires rest != []
    ensures RouteOf(KVS + rest) == if ValidKey(rest) then KvKey(rest) else KvInvalid
  {
    var path := KVS + rest;
    assert |KVS| == 8 && KVS[1] == 'a' && KVS[5] == 'k';
    assert path[0 + 1] == 'a' && path[0 + 5] == 'k';
    assert At(path, 0, KVS) && path[8..] == rest;
    AtPrefix(path, KVS, 7);
    assert KVS[..7] == "/api/kv";
    assert ValidKey(rest) ==> forall i | 0 <= i < |rest| :: rest[i] != '/';
    assert KvRoute(path) == if ValidKey(rest) then KvKey(rest) else KvInvalid;
  }

  /** Paths that begin like an entry or a note but are none, and paths that begin with neither. */
  lemma OtherRoutes(path: string)
    requires path !in {"/", "/index.html", "/health", "/metrics", "/api/echo"}
    ensures !At(path, 0, "/api/kv") && !At(path, 0, "/api/notes") ==> RouteOf(path) == Nowhere
    ensures At(path, 0, "/api/kv") && path != "/api/kv" && !At(path, 0, "/api/kv/") ==> RouteOf(path) == KvUnknown
  {
  }

  // ---------- limit and offset ----------

  lemma SpacedNumber(v: string, n: nat)
    requires HttpQuery.Spaced(v, Decimal(n))
    ensures v == Decimal(n)
  {
    forall i | 0 <= i < |v|
      ensures v[i] == Decimal(n)[i]
    {
      assert IsDigit(Decimal(n)[i]);
    }
  }

  predicate ValidPairs(ps: seq<HttpQuery.Pair>) {
    forall i | 0 <= i < |ps| :: HttpQuery.ValidPair(ps[i])
  }

  /** The number that the first pair with that name gives. */
  predicate Gives(ps: seq<HttpQuery.Pair>, name: string, i: nat, n: nat) {
    n <= LONG_MAX && HttpQuery.FirstNamed(ps, 0, name, i) && ps[i].value == Decimal(n)
  }

  lemma NumberLookup(ps: seq<HttpQuery.Pair>, name: string, i: nat, n: nat)
    requires ValidPairs(ps) && Gives(ps, name, i, n)
    ensures HttpQuery.Lookup(HttpQuery.PairsText(ps, 0), name, 32) == HttpQuery.Value(Decimal(n))
  {
    HttpQuery.PrintedLookup(ps, name, 32);
    LongLength(n);
    var answer := HttpQuery.Lookup(HttpQuery.PairsText(ps, 0), name, 32);
    assert forall j: nat | HttpQuery.FirstNamed(ps, 0, name, j) :: j == i;
    if answer.Value? {
      var j: nat :| HttpQuery.FirstNamed(ps, 0, name, j) && HttpQuery.Spaced(answer.text, ps[j].value);
      SpacedNumber(answer.text, n);
    }
  }

  /** A limit is taken exactly from 1 to 100, and is 50 if there is none. */
  lemma LimitIs(ps: seq<HttpQuery.Pair>, i: nat, n: nat)
    requires ValidPairs(ps)
    ensures Gives(ps, "limit", i, n) ==>
              ParseLimit(HttpQuery.PairsText(ps, 0)) == if 1 <= n <= 100 then Good(n) else Bad
    ensures (forall j | 0 <= j < |ps| :: ps[j].name != "limit") ==> ParseLimit(HttpQuery.PairsText(ps, 0)) == Good(50)
  {
    if Gives(ps, "limit", i, n) {
      NumberLookup(ps, "limit", i, n);
      NumberIs(n, 1, 100);
    }
    HttpQuery.PrintedLookup(ps, "limit", 32);
  }

  /** An offset is taken exactly up to 1000000, and is 0 if there is none. */
  lemma OffsetIs(ps: seq<HttpQuery.Pair>, i: nat, n: nat)
    requires ValidPairs(ps)
    ensures Gives(ps, "offset", i, n) ==>
              ParseOffset(HttpQuery.PairsText(ps, 0)) == if n <= 1000000 then Good(n) else Bad
    ensures (forall j | 0 <= j < |ps| :: ps[j].name != "offset") ==> ParseOffset(HttpQuery.PairsText(ps, 0)) == Good(0)
  {
    if Gives(ps, "offset", i, n) {
      NumberLookup(ps, "offset", i, n);
      NumberIs(n, 0, 1000000);
    }
    HttpQuery.PrintedLookup(ps, "offset", 32);
  }

  // ---------- the key check ----------

  /** In protected mode every request under /api/ that is no GET needs the key: 401 without a key, 403 with another
      one, and nothing changes. */
  lemma KeyNeeded(key: string, db: Db, env: Env, req: Request)
    requires key != [] && req.verb != Get && At(req.path, 0, "/api/") && req.apiKey != key
    ensures Dispatch(key, db, env, req) ==
            if req.apiKey == [] then Outcome(Unauthorized, db, [ErrorReply(Unauthorized, "missing X-API-Key header")])
            else Outcome(Forbidden, db, [ErrorReply(Forbidden, "invalid API key")])
    ensures StatusOf(Dispatch(key, db, env, req).sent[0]) == if req.apiKey == [] then 401 else 403
  {
    NotThePage(req.path);
  }

  lemma NotThePage(path: string)
    requires At(path, 0, "/api/")
    ensures RouteOf(path) != Page
  {
    assert path[0 + 1] == "/api/"[1] && "/index.html"[1] == 'i';
  }

  /** In open mode, with the right key, for reads and outside /api/ the key plays no role. */
  lemma KeyNotNeeded(key: string, db: Db, env: Env, req: Request)
    requires key == [] || req.verb == Get || req.apiKey == key || !At(req.path, 0, "/api/")
    ensures Dispatch(key, db, env, req) == Handle(db, env, req, RouteOf(req.path))
  {
  }

  // ---------- methods ----------

  /** The methods of a route, and the list that a 405 gives. */
  function MethodsOf(route: Route): (set<Method>, string) {
    match route
    case Page => ({Get}, "GET")
    case Health => ({Get}, "GET")
    case Metrics => ({Get}, "GET")
    case KvAll => ({Get}, "GET")
    case Echo => ({Post}, "POST")
    case NoteAll => ({Get, Post}, "GET, POST")
    case _ => ({Get, Put, Delete}, "GET, PUT, DELETE")
  }

  /** A route that names something. */
  predicate Named(route: Route) {
    !(route.KvUnknown? || route.KvInvalid? || route.NoteUnknown? || route.NoteInvalid? || route.Nowhere?)
  }

  /** A method that the route does not have: 405 with the list of those that it has. */
  lemma MethodsAre(db: Db, env: Env, req: Request, route: Route)
    requires Named(route) && req.verb !in MethodsOf(route).0
    ensures Handle(db, env, req, route) == Outcome(MethodNotAllowed, db, [NotAllowed(MethodsOf(route).1)])
  {
  }

  /** A path that names nothing: 404 or 400, whatever the method. */
  lemma NamesNothing(db: Db, env: Env, req: Request, route: Route)
    requires !Named(route)
    ensures var o := Handle(db, env, req, route);
            && o.db == db && |o.sent| == 1 && o.sent[0].ErrorReply? && o.error == o.sent[0].error
            && o.error == if route.KvInvalid? then InvalidKey else if route.NoteInvalid? then InvalidId else NotFound
  {
  }

  // ---------- JSON bodies ----------

  /** The requests that need a JSON body. */
  predicate NeedsBody(req: Request, route: Route) {
    || (route.Echo? && req.verb == Post) || (route.KvKey? && req.verb == Put)
    || (route.NoteAll? && req.verb == Post) || (route.NoteId? && req.verb == Put)
  }

  /** Without a length 411, without a body 400, without application/json in the first 127 bytes of the type, in any
      case, 415. */
  lemma BodyNeeded(db: Db, env: Env, req: Request, route: Route)
    requires NeedsBody(req, route)
    ensures req.contentLength < 0 ==> Handle(db, env, req, route).error == LengthRequired
    ensures req.contentLength >= 0 && req.body == None ==> Handle(db, env, req, route).error == BadRequest
    ensures req.contentLength >= 0 && req.body != None
            && !Contains(ToLower(if |req.contentType| <= 127 then req.contentType else req.contentType[..127]), "application/json") ==>
              Handle(db, env, req, route).error == UnsupportedMedia
  {
    BodyChecked(req);
    if route.KvKey? && RequireJson(req) != Ok {
      PlanNeedsBody(db, env.fault, req, route.key);
    }
  }

  lemma BodyChecked(req: Request)
    ensures RequireJson(req) ==
            if req.contentLength < 0 then LengthRequired else if req.body == None then BadRequest
            else if Contains(ToLower(if |req.contentType| <= 127 then req.contentType else req.contentType[..127]), "application/json")
            then Ok else UnsupportedMedia
  {
    var t := req.contentType;
    assert Truncate(t, 127) == if |t| <= 127 then t else t[..127];
  }

  lemma PlanNeedsBody(db: Db, fault: bool, req: Request, key: string)
    requires req.verb == Put && RequireJson(req) != Ok
    ensures RunPlan(db, fault, KvPlan(req, key)).error == RequireJson(req)
  {
  }

  // ---------- pages without tables ----------

  /** The page, health and metrics are shown as they are, unless the text does not fit its buffer. */
  lemma PlainPages(db: Db, env: Env, req: Request)
    requires req.verb == Get
    ensures Handle(db, env, req, Page) == Outcome(Ok, db, [PageReply(env.page)])
    ensures |env.health| < 256 ==> Handle(db, env, req, Health) == Outcome(Ok, db, [JsonReply(200, env.health)])
    ensures |env.metrics| < 512 && !env.fault ==> Handle(db, env, req, Metrics) == Outcome(Ok, db, [JsonReply(200, env.metrics)])
  {
  }

  // ---------- keys ----------

  const DIGITS := "0123456789"

  lemma InUpper(c: char)
    ensures 'A' <= c <= 'Z' <==> c in UPPER
  {
    LowersTheAlphabet(c);
    if 'A' <= c <= 'Z' {
      assert UPPER[c as int - 'A' as int] == c;
    }
  }

  lemma InLower(c: char)
    ensures 'a' <= c <= 'z' <==> c in LOWER
  {
    if 'a' <= c <= 'z' {
      assert LOWER[c as int - 'a' as int] == c;
    }
  }

  lemma InDigits(c: char)
    ensures '0' <= c <= '9' <==> c in DIGITS
  {
    if '0' <= c <= '9' {
      assert DIGITS[c as int - '0' as int] == c;
    }
  }

  /** Keys are 1 to 128 bytes of letters, digits, dot, underscore and dash. */
  lemma KeysAre(key: string)
    ensures ValidKey(key) <==>
            1 <= |key| <= 128
            && forall i | 0 <= i < |key| :: key[i] in UPPER || key[i] in LOWER || key[i] in DIGITS || key[i] in {'.', '_', '-'}
  {
    forall i | 0 <= i < |key|
      ensures KeyChar(key[i]) <==> key[i] in UPPER || key[i] in LOWER || key[i] in DIGITS || key[i] in {'.', '_', '-'}
    {
      InUpper(key[i]);
      InLower(key[i]);
      InDigits(key[i]);
    }
  }

  // ---------- the documented statuses ----------

  predicate FailsWith(o: Outcome, errors: set<ApiError>) {
    o.error == Ok || o.error in errors
  }

  lemma EchoFails(db: Db, req: Request)
    ensures FailsWith(HandleEcho(db, req), {LengthRequired, BadRequest, UnsupportedMedia, MissingField, Internal})
  {
    FieldSane(req, DATA_FIELD, MAX_BODY);
    if Field(req, DATA_FIELD, MAX_BODY).Failed? {
      NeverTooLarge(req, DATA_FIELD, MAX_BODY);
    }
  }

  /** With room for 8192 bytes no value is too large for the caller. */
  lemma NeverTooLarge(req: Request, field: CString, cap: nat)
    requires cap >= VALUE_CAP
    ensures Field(req, field, cap) != Failed(PayloadTooLarge)
  {
    if req.body.Some? {
      RoomyString(req.body.value, field, cap);
    }
  }

  lemma RoomyString(body: string, field: CString, cap: nat)
    requires cap >= VALUE_CAP
    ensures GetString(body, field, cap) != Failed(PayloadTooLarge)
  {
    if GetString(body, field, cap) == Failed(PayloadTooLarge) {
      JsonGrammar.TooLargeExactly(body, field, cap);
      var lead, q :| JsonGrammar.StartsPartial(body, lead, q, field, cap);
      PartialFits(q, field, cap);
    }
  }

  lemma {:induction false} PartialFits(q: JsonGrammar.Partial, field: CString, cap: nat)
    requires JsonGrammar.ValidPartial(q, field, cap) && cap >= VALUE_CAP
    ensures false
    decreases q
  {
    if q.Then? {
      PartialFits(q.next, field, cap);
    }
  }

  lemma KvFails(db: Db, fault: bool, req: Request, key: string)
    requires GoodStore(db) && ValidKey(key)
    ensures req.verb == Put ==>
              FailsWith(RunPlan(db, fault, KvPlan(req, key)), {LengthRequired, BadRequest, UnsupportedMedia, MissingField, Internal})
    ensures req.verb == Get || req.verb == Delete ==> FailsWith(RunPlan(db, fault, KvPlan(req, key)), {NotFound, Internal})
  {
    if req.verb == Put {
      PutFails(req, key);
      Planned(req, key);
      CallFails(db, fault, KvPlan(req, key), key);
    } else if req.verb == Get || req.verb == Delete {
      CallFails(db, fault, KvPlan(req, key), key);
    }
  }

  lemma PutFails(req: Request, key: string)
    ensures PlanPut(req, key).Early? ==>
              PlanPut(req, key).error in {LengthRequired, BadRequest, UnsupportedMedia, MissingField}
  {
    FieldSane(req, VALUE_FIELD, MAX_VALUE + 1);
    NeverTooLarge(req, VALUE_FIELD, MAX_VALUE + 1);
  }

  lemma CallFails(db: Db, fault: bool, plan: Plan, key: string)
    requires GoodStore(db) && ValidKey(key) && SanePlan(plan, key)
    ensures plan.Call? ==> FailsWith(RunPlan(db, fault, plan), if plan.call.PutCall? then {Internal} else {NotFound, Internal})
    ensures plan.Early? ==> RunPlan(db, fault, plan).error == plan.error
  {
  }

  lemma KvListFails(db: Db, env: Env, req: Request)
    ensures FailsWith(HandleKvList(db, env, req), {InvalidQuery, PayloadTooLarge, Internal})
  {
    RowsSucceed(env.kvRows, KvText, KvOk, false, 0, 1, MAX_BODY);
  }

  lemma PageFails(db: Db, fault: bool, limit: nat, offset: nat)
    ensures NotePageReply(db, fault, limit, offset).0 in {Ok, PayloadTooLarge, Internal}
  {
    RowsSucceed(PageRows(db, limit, offset), NoteText, NoteOk, true, 0, |ITEMS|, MAX_BODY);
  }

  lemma NoteListFails(db: Db, env: Env, req: Request)
    ensures FailsWith(HandleNoteList(db, env, req), {InvalidQuery, PayloadTooLarge, Internal})
  {
    var limit, offset := ParseLimit(req.query), ParseOffset(req.query);
    if limit.Good? && offset.Good? {
      PageFails(db, env.fault, limit.n, offset.n);
    }
  }

  lemma NoteGetFails(db: Db, fault: bool, id: int)
    requires GoodStore(db) && 0 < id && InLong(id)
    ensures NoteGet(db, fault, id).0 in {Ok, NotFound, Internal}
    ensures id in db.notes ==> NoteGet(db, fault, id).0 != NotFound
  {
    if !fault && id in db.notes {
      NoteGetReply(db, id);
    }
  }

  lemma CreateFromFails(db: Db, env: Env, checked: ApiError, title: Lookup, body: Lookup)
    requires checked in {Ok, LengthRequired, BadRequest, UnsupportedMedia} && Sane(title, MAX_TITLE + 1) && Sane(body, MAX_NOTE + 1)
    ensures FailsWith(CreateFrom(db, env, checked, title, body),
                      {LengthRequired, BadRequest, UnsupportedMedia, MissingField, PayloadTooLarge, Internal})
  {
  }

  lemma NoteCreateFails(db: Db, env: Env, req: Request)
    ensures FailsWith(HandleNoteCreate(db, env, req),
                      {LengthRequired, BadRequest, UnsupportedMedia, MissingField, PayloadTooLarge, Internal})
  {
    FieldSane(req, TITLE_FIELD, MAX_TITLE + 1);
    FieldSane(req, BODY_FIELD, MAX_NOTE + 1);
    CreateFromFails(db, env, RequireJson(req), Field(req, TITLE_FIELD, MAX_TITLE + 1), Field(req, BODY_FIELD, MAX_NOTE + 1));
  }

  lemma UpdateFromFails(db: Db, env: Env, id: int, checked: ApiError, title: Lookup, body: Lookup)
    requires GoodStore(db) && InLong(env.now) && 0 < id && InLong(id)
    requires checked in {Ok, LengthRequired, BadRequest, UnsupportedMedia} && Sane(title, MAX_TITLE + 1) && Sane(body, MAX_NOTE + 1)
    ensures FailsWith(UpdateFrom(db, env, id, checked, title, body), {LengthRequired, BadRequest, UnsupportedMedia, NotFound, Internal})
  {
    UpdateFromKeepsGood(db, env, id, checked, title, body);
    if checked == Ok && title.Found? && body.Found? {
      var db' := NoteUpdate(db, env.fault, env.now, id, title.value, body.value).1;
      UpdatedGood(db, env, id, title.value, body.value);
      NoteGetFails(db', env.laterFault, id);
    }
  }

  lemma UpdatedGood(db: Db, env: Env, id: int, title: string, body: string)
    requires GoodStore(db) && InLong(env.now) && GoodText(body) && NulFree(title) && |title| <= MAX_TITLE
    ensures GoodStore(NoteUpdate(db, env.fault, env.now, id, title, body).1)
  {
  }

  lemma NoteUpdateFails(db: Db, env: Env, req: Request, id: int)
    requires GoodStore(db) && InLong(env.now) && 0 < id && InLong(id)
    ensures FailsWith(HandleNoteUpdate(db, env, req, id), {LengthRequired, BadRequest, UnsupportedMedia, NotFound, Internal})
  {
    FieldSane(req, TITLE_FIELD, MAX_TITLE + 1);
    FieldSane(req, BODY_FIELD, MAX_NOTE + 1);
    UpdateFromFails(db, env, id, RequireJson(req), Field(req, TITLE_FIELD, MAX_TITLE + 1), Field(req, BODY_FIELD, MAX_NOTE + 1));
  }

  /** The errors of a route, from the handler on. */
  function ErrorsOf(m: Method, route: Route): set<ApiError> {
    match route
    case Page => {}
    case Health => {Internal}
    case Metrics => {Internal}
    case Echo => {LengthRequired, BadRequest, UnsupportedMedia, MissingField, Internal}
    case KvAll => {InvalidQuery, PayloadTooLarge, Internal}
    case KvKey(_) =>
      if m == Put then {LengthRequired, BadRequest, UnsupportedMedia, MissingField, Internal} else {NotFound, Internal}
    case NoteAll =>
      if m == Post then {LengthRequired, BadRequest, UnsupportedMedia, MissingField, PayloadTooLarge, Internal}
      else {InvalidQuery, PayloadTooLarge, Internal}
    case _ => if m == Put then {LengthRequired, BadRequest, UnsupportedMedia, NotFound, Internal} else {NotFound, Internal}
  }

  lemma NoteItemFails(db: Db, env: Env, req: Request, id: int)
    requires GoodStore(db) && InLong(env.now) && 0 < id && InLong(id) && req.verb in {Get, Put, Delete}
    ensures FailsWith(NoteItem(db, env, req, id), ErrorsOf(req.verb, NoteId(id)))
  {
    match req.verb
    case Get => NoteGetFails(db, env.fault, id);
    case Put => NoteUpdateFails(db, env, req, id);
    case Delete =>
  }

  lemma RouteIdInLong(path: string)
    ensures RouteOf(path).NoteId? ==> 0 < RouteOf(path).id && InLong(RouteOf(path).id)
    ensures RouteOf(path).KvKey? ==> ValidKey(RouteOf(path).key)
  {
  }

  lemma HandleFails(db: Db, env: Env, req: Request, route: Route)
    requires GoodStore(db) && InLong(env.now) && Named(route) && req.verb in MethodsOf(route).0
    requires (route.NoteId? ==> 0 < route.id && InLong(route.id)) && (route.KvKey? ==> ValidKey(route.key))
    ensures FailsWith(Handle(db, env, req, route), ErrorsOf(req.verb, route))
  {
    match route
    case Echo => EchoFails(db, req);
    case KvAll => KvListFails(db, env, req);
    case KvKey(key) =>
      assert Handle(db, env, req, route) == RunPlan(db, env.fault, KvPlan(req, key));
      KvFails(db, env.fault, req, key);
    case NoteAll =>
      assert Handle(db, env, req, route) == NoteCollection(db, env, req);
      CollectionFails(db, env, req);
    case NoteId(id) =>
      assert Handle(db, env, req, route) == NoteItem(db, env, req, id);
      NoteItemFails(db, env, req, id);
    case _ =>
  }

  lemma CollectionFails(db: Db, env: Env, req: Request)
    requires req.verb == Get || req.verb == Post
    ensures FailsWith(NoteCollection(db, env, req), ErrorsOf(req.verb, NoteAll))
  {
    match req.verb
    case Post => NoteCreateFails(db, env, req);
    case Get => NoteListFails(db, env, req);
  }

  /** The success and error statuses that the table of endpoints gives for a route and one of its methods. */
  function Documented(m: Method, route: Route): set<nat> {
    match route
    case Echo => {200, 400, 411, 415}
    case KvAll => {200, 400}
    case KvKey(_) =>
      if m == Put then {200, 400, 401, 403, 411, 413, 415} else if m == Delete then {204, 400, 401, 403, 404} else {200, 400, 404}
    case NoteAll => if m == Post then {201, 400, 401, 403, 411, 413, 415} else {200, 400}
    case NoteId(_) =>
      if m == Put then {200, 400, 401, 403, 404, 411, 415} else if m == Delete then {204, 400, 401, 403, 404} else {200, 400, 404}
    case _ => {200}
  }

  /** What the code answers beyond that table: 500; 401 and 403 for echo in protected mode; 413 for listings. */
  function Undocumented(route: Route): set<nat> {
    match route
    case Echo => {401, 403, 500}
    case KvAll => {413, 500}
    case NoteAll => {413, 500}
    case _ => {500}
  }

  lemma StatusesOfErrors(m: Method, route: Route, e: ApiError)
    requires Named(route) && m in MethodsOf(route).0 && e in ErrorsOf(m, route)
    ensures Status(e) in Documented(m, route) + Undocumented(route)
  {
    StatusNumbers(e);
  }

  predicate SendsOneOf(o: Outcome, statuses: set<nat>) {
    |o.sent| == 1 && StatusOf(o.sent[0]) in statuses
  }

  /** In every good store, every request to a documented endpoint gets a documented status, or one of the few that
      the table leaves out. */
  lemma StatusesAreDocumented(key: string, db: Db, env: Env, req: Request)
    requires GoodStore(db) && InLong(env.now)
    requires Named(RouteOf(req.path)) && req.verb in MethodsOf(RouteOf(req.path)).0
    ensures Dispatch(key, db, env, req).error != Ok ==>
              SendsOneOf(Dispatch(key, db, env, req), Documented(req.verb, RouteOf(req.path)) + Undocumented(RouteOf(req.path)))
  {
    var route := RouteOf(req.path);
    OneTruthfulResponse(key, db, env, req);
    RouteIdInLong(req.path);
    if key == [] || req.verb == Get || req.apiKey == key || !At(req.path, 0, "/api/") {
      KeyNotNeeded(key, db, env, req);
      HandleFails(db, env, req, route);
      if Dispatch(key, db, env, req).error != Ok {
        StatusesOfErrors(req.verb, route, Dispatch(key, db, env, req).error);
      }
    } else {
      KeyNeeded(key, db, env, req);
      GuardedRoutes(req.path);
    }
  }

  /** The routes under /api/ that a write can name. */
  lemma GuardedRoutes(path: string)
    requires At(path, 0, "/api/") && Named(RouteOf(path))
    ensures RouteOf(path) !in {Page, Health, Metrics}
  {
    assert path[0 + 1] == "/api/"[1] && "/index.html"[1] == 'i' && "/health"[1] == 'h' && "/metrics"[1] == 'm';
  }

  // ---------- successes ----------

  function SuccessOf(m: Method, route: Route): nat {
    if m == Post && route.NoteAll? then 201 else if m == Delete then 204 else 200
  }

  predicate Succeeds(o: Outcome, status: nat) {
    o.error == Ok ==> |o.sent| == 1 && StatusOf(o.sent[0]) == status
  }

  lemma PlanSucceeds(db: Db, fault: bool, req: Request, key: string)
    ensures Succeeds(RunPlan(db, fault, KvPlan(req, key)), if req.verb == Delete then 204 else 200)
  {
    Planned(req, key);
    CallSucceeds(db, fault, KvPlan(req, key), key);
    if req.verb == Put {
      PutPlanned(req, key);
    }
  }

  lemma CallSucceeds(db: Db, fault: bool, plan: Plan, key: string)
    requires SanePlan(plan, key)
    ensures Succeeds(RunPlan(db, fault, plan), if plan.Call? && plan.call.DelCall? then 204 else 200)
  {
  }

  lemma NoteCreateSucceeds(db: Db, env: Env, checked: ApiError, title: Lookup, body: Lookup)
    requires Sane(title, MAX_TITLE + 1) && Sane(body, MAX_NOTE + 1)
    ensures Succeeds(CreateFrom(db, env, checked, title, body), 201)
  {
  }

  lemma NoteUpdateSucceeds(db: Db, env: Env, id: int, checked: ApiError, title: Lookup, body: Lookup)
    ensures Succeeds(UpdateFrom(db, env, id, checked, title, body), 200)
  {
  }

  lemma NotesSucceed(db: Db, env: Env, req: Request, route: Route)
    requires route.NoteAll? || route.NoteId?
    ensures Succeeds(DispatchNotes(db, env, req, route), SuccessOf(req.verb, route))
  {
    FieldSane(req, TITLE_FIELD, MAX_TITLE + 1);
    FieldSane(req, BODY_FIELD, MAX_NOTE + 1);
    var title, body := Field(req, TITLE_FIELD, MAX_TITLE + 1), Field(req, BODY_FIELD, MAX_NOTE + 1);
    if route.NoteAll? && req.verb == Post {
      NoteCreateSucceeds(db, env, RequireJson(req), title, body);
    } else if route.NoteId? && req.verb == Put {
      NoteUpdateSucceeds(db, env, route.id, RequireJson(req), title, body);
    }
  }

  /** A success is 201 for a created note, 204 for a deletion, 200 for everything else. */
  lemma SuccessesAre(db: Db, env: Env, req: Request, route: Route)
    ensures Succeeds(Handle(db, env, req, route), SuccessOf(req.verb, route))
  {
    match route
    case KvKey(key) =>
      assert Handle(db, env, req, route) == RunPlan(db, env.fault, KvPlan(req, key));
      PlanSucceeds(db, env.fault, req, key);
    case NoteAll => NotesSucceed(db, env, req, route);
    case NoteId(_) => NotesSucceed(db, env, req, route);
    case Echo => EchoSucceeds(db, req);
    case _ =>
  }

  lemma EchoSucceeds(db: Db, req: Request)
    ensures Succeeds(HandleEcho(db, req), 200)
  {
    FieldSane(req, DATA_FIELD, MAX_BODY);
  }

  // ---------- the texts of replies ----------

  function InQuotes(text: string): string {
    ['"'] + (text + ['"'])
  }

  /** One and two strings under their names. */
  lemma EntriesAre(name1: string, text1: string, name2: string, text2: string)
    ensures JsonReply.OneEntry(name1, text1) == "{" + (InQuotes(name1) + (":" + (InQuotes(text1) + "}")))
    ensures JsonReply.TwoEntries(name1, text1, name2, text2) ==
            "{" + (InQuotes(name1) + (":" + (InQuotes(text1) + ("," + (InQuotes(name2) + (":" + (InQuotes(text2) + "}")))))))
  {
    EntryIs(name1, text1);
    EntryIs(name2, text2);
    var rest := ['}'];
    assert JsonReply.Entry(name1, text1) + rest == InQuotes(name1) + (":" + (InQuotes(text1) + rest));
    var second := JsonReply.Entry(name2, text2) + rest;
    assert second == InQuotes(name2) + (":" + (InQuotes(text2) + rest));
    assert JsonReply.Entry(name1, text1) + ([','] + second) == InQuotes(name1) + (":" + (InQuotes(text1) + ([','] + second)));
  }

  lemma EntryIs(name: string, text: string)
    ensures JsonReply.Entry(name, text) == InQuotes(name) + (":" + InQuotes(text))
  {
  }

  /** The names in the objects that clients see, and what stands under them. */
  lemma ObjectsAre(key: string, value: string, e: ApiError, detail: string)
    ensures KvText(KvRow(key, value)) == JsonReply.TwoEntries("key", Escape(key), "value", Escape(value))
    ensures ErrorBody(e, detail) == JsonReply.TwoEntries("error", Code(Shown(e)), "message", Safe(detail[..Cut(detail)]))
    ensures DATA_FIELD == "data" && TITLE_FIELD == "title" && BODY_FIELD == "body" && VALUE_FIELD == "value"
  {
  }

  lemma NoteIs(r: NoteRow)
    ensures NoteText(r) ==
            "{\"id\":" + (SignedDecimal(r.id) + (",\"title\":" + (InQuotes(Escape(r.note.title)) + (",\"body\":"
            + (InQuotes(Escape(r.note.body)) + (",\"created_at\":" + (SignedDecimal(r.note.created)
            + (",\"updated_at\":" + (SignedDecimal(r.note.updated) + "}")))))))))
  {
  }

  /** Lists are the rows with commas between them. */
  lemma ListsAre(kvs: seq<KvRow>, notes: seq<NoteRow>, total: int)
    ensures ItemsText(KvListText(kvs)) == "{\"items\":" + (("[" + Commas(kvs, KvText) + "]") + "}")
    ensures NoteListText(notes, total) == "{\"items\":[" + Commas(notes, NoteText) + ("],\"total\":" + (SignedDecimal(total) + "}"))
  {
    CommasAre(kvs, KvText, 0);
    CommasAre(notes, NoteText, 0);
    assert kvs[0..] == kvs && notes[0..] == notes;
  }

  function Commas<R>(rows: seq<R>, text: R -> string): string {
    if rows == [] then [] else if |rows| == 1 then text(rows[0]) else text(rows[0]) + ("," + Commas(rows[1..], text))
  }

  /** The rows that follow the first one each have their comma before them. */
  lemma {:induction false} CommasAre<R>(rows: seq<R>, text: R -> string, k: nat)
    requires k <= |rows|
    ensures k == 0 ==> Joined(rows, text, k) == Commas(rows[k..], text)
    ensures k > 0 ==> Joined(rows, text, k) == if k == |rows| then [] else "," + Commas(rows[k..], text)
    decreases |rows| - k
  {
    if k < |rows| {
      CommasAre(rows, text, k + 1);
      assert rows[k..][1..] == rows[k + 1..];
      if k + 1 == |rows| {
        assert Piece(rows, text, k) + [] == Piece(rows, text, k);
      } else if k > 0 {
        assert ([','] + text(rows[k])) + ("," + Commas(rows[k + 1..], text)) == "," + (text(rows[k]) + ("," + Commas(rows[k + 1..], text)));
      }
    }
  }

  // ---------- key/value listings ----------

  /** The prefix is absent, empty or a key, and the limit is in range. */
  predicate ListParameters(query: string) {
    var prefix := HttpQuery.Lookup(query, "prefix", 129);
    !prefix.TooLong? && (prefix.Value? ==> prefix.text == [] || ValidKey(prefix.text)) && ParseLimit(query).Good?
  }

  /** A listing of key/value rows: 400 for bad parameters, else the rows, exactly if all of them can be escaped into
      their buffers and both texts fit; without that 500 for a row and 413 for the list. */
  lemma KvListReply(db: Db, env: Env, req: Request)
    requires !env.fault
    ensures !ListParameters(req.query) ==> HandleKvList(db, env, req).error == InvalidQuery
    ensures ListParameters(req.query) ==>
              var o, text := HandleKvList(db, env, req), KvListText(env.kvRows);
              && (o.error == Ok <==> AllKvOk(env.kvRows) && |text| + 1 <= 65536 && |ItemsText(text)| < 65536)
              && (o.error == Ok ==> o.sent == [JsonReply(200, ItemsText(text))])
              && (AllKvOk(env.kvRows) && |text| + 1 > 65536 ==> o.error == PayloadTooLarge)
  {
    KvListAllOrNothing(env.kvRows, MAX_BODY);
  }

  /** The body of a 405 for a known path parses back as well: its code, and the list of methods in its message. */
  lemma RefusalParsesBack(allow: CString, cap: nat)
    requires UsesAllowList(NotAllowed(allow)) && cap > 512
    ensures var body := JsonReply.TwoEntries("error", "method_not_allowed", "message", "use " + allow);
            && GetString(body, ERROR_FIELD, cap) == Found("method_not_allowed")
            && GetString(body, MESSAGE_FIELD, cap) == Found("use " + allow)
  {
    var code, text: CString := "method_not_allowed", "use " + allow;
    FieldNames();
    PlainRefusal(allow);
    JsonReply.PlainTexts(code);
    JsonReply.PlainTexts(text);
    CStrOfCString(code);
    CStrOfCString(text);
    JsonReply.TwoRead(ERROR_FIELD, JsonReply.PlainTokens(code), MESSAGE_FIELD, JsonReply.PlainTokens(text), ERROR_FIELD, cap);
    JsonReply.TwoRead(ERROR_FIELD, JsonReply.PlainTokens(code), MESSAGE_FIELD, JsonReply.PlainTokens(text), MESSAGE_FIELD, cap);
  }

  lemma PlainRefusal(allow: CString)
    requires UsesAllowList(NotAllowed(allow))
    ensures JsonReply.PlainName("use " + allow) && JsonReply.PlainName("method_not_allowed") && |"use " + allow| < 512
  {
  }

  // ---------- failing store calls ----------

  predicate FailedCall(o: Outcome, db: Db) {
    o.error == Internal && o.db == db && |o.sent| == 1 && StatusOf(o.sent[0]) == 500
  }

  /** A store call that SQLite fails is 500 and changes nothing. */
  lemma StoreFailures(db: Db, env: Env, req: Request, key: string, id: int, title: string, body: string)
    requires env.fault
    ensures ValidKey(key) ==> FailedCall(RunPlan(db, true, Call(GetCall(key))), db) && FailedCall(RunPlan(db, true, Call(DelCall(key))), db)
    ensures ValidKey(key) && |body| <= 60000 ==> FailedCall(RunPlan(db, true, Call(PutCall(key, body))), db)
    ensures id > 0 ==> FailedCall(HandleNoteGet(db, true, id), db) && FailedCall(HandleNoteDel(db, env, id), db)
    ensures 0 < |title| <= 200 && |body| <= 8192 ==> FailedCall(CreateNote(db, env, title, body), db)
    ensures id > 0 && 0 < |title| <= 200 && |body| <= 8192 ==> FailedCall(UpdateNote(db, env, id, title, body), db)
    ensures req.verb == Get ==> FailedCall(Handle(db, env, req, Metrics), db)
    ensures ListParameters(req.query) ==> FailedCall(HandleKvList(db, env, req), db)
    ensures ParseLimit(req.query).Good? && ParseOffset(req.query).Good? ==> FailedCall(HandleNoteList(db, env, req), db)
  {
  }
}
