/** What holds of every request, and of the store over every run of requests. */
module ApiFacts {
  import opened CText
  import opened HttpParse
  import opened JsonObject
  import opened HttpSend
  import opened Store
  import opened Listing
  import opened NotePages
  import opened Api
  import Auth

  // ---------- what json_get_string can return ----------

  /** A value that json_get_string hands out is a C string of at most 8191 bytes and fits; it fails in three
      ways. */
  predicate Sane(l: Lookup, cap: nat) {
    match l
    case Found(v) => NulFree(v) && |v| < VALUE_CAP && |v| < cap
    case Failed(e) => e in {BadRequest, MissingField, PayloadTooLarge}
  }

  predicate SaneFound(found: Option<string>, cap: nat) {
    found.Some? ==> NulFree(found.value) && |found.value| < VALUE_CAP && |found.value| < cap
  }

  lemma TurnSane(body: string, p: nat, field: CString, cap: nat, found: Option<string>)
    requires p <= |body| && SaneFound(found, cap)
    ensures match TurnAt(body, p, field, cap, found)
            case Done(l) => Sane(l, cap)
            case Again(_, found') => SaneFound(found', cap)
  {
  }

  lemma {:induction false} SearchSane(body: string, p: nat, field: CString, cap: nat, found: Option<string>)
    requires p <= |body| && SaneFound(found, cap)
    ensures Sane(SearchAt(body, p, field, cap, found), cap)
    decreases |body| - p
  {
    TurnSane(body, p, field, cap, found);
    var turn := TurnAt(body, p, field, cap, found);
    if turn.Again? {
      SearchSane(body, turn.next, field, cap, turn.found);
    }
  }

  /** json_get_string refuses the body, or its loop runs from some position. */
  lemma GetStringSearches(body: string, field: CString, cap: nat, search: nat -> Lookup) returns (p: nat)
    requires forall i: nat | i <= |body| :: search(i) == SearchAt(body, i, field, cap, None)
    ensures p <= |body| && GetString(body, field, cap) in {Failed(BadRequest), search(p)}
  {
    p := SkipAt(body, 0);
    if p < |body| {
      p := p + 1;
    }
  }

  lemma GetStringSane(body: string, field: CString, cap: nat)
    ensures Sane(GetString(body, field, cap), cap)
  {
    var search := (i: nat) => if i <= |body| then SearchAt(body, i, field, cap, None) else Failed(BadRequest);
    var p := GetStringSearches(body, field, cap, search);
    SearchSane(body, p, field, cap, None);
  }

  lemma FieldSane(req: Request, field: CString, cap: nat)
    ensures Sane(Field(req, field, cap), cap)
  {
    if req.body.Some? {
      GetStringSane(req.body.value, field, cap);
    }
  }

  // ---------- one truthful response ----------

  /** Exactly one response was sent; an error goes with its own status, success with 200, 201 or 204, and a
      405 names the allowed methods. */
  predicate Truthful(o: Outcome) {
    && |o.sent| == 1
    && (o.error != Ok ==> StatusOf(o.sent[0]) == Status(o.error))
    && (o.error == Ok ==> StatusOf(o.sent[0]) in {200, 201, 204})
    && (StatusOf(o.sent[0]) == 405 ==> AllowOf(o.sent[0]).Some?)
    && UsesAllowList(o.sent[0])
  }

  predicate UsesAllowList(r: Reply) {
    r.NotAllowed? ==> r.allow == ALLOW_GET || r.allow == ALLOW_POST || r.allow == ALLOW_GET_POST || r.allow == ALLOW_ITEM
  }

  predicate Honest(e: ApiError, r: Reply) {
    && (e != Ok ==> StatusOf(r) == Status(e))
    && (e == Ok ==> StatusOf(r) in {200, 201, 204})
    && (StatusOf(r) == 405 ==> AllowOf(r).Some?)
    && UsesAllowList(r)
  }

  lemma EchoHonest(data: string)
    ensures Honest(EchoReply(data).0, EchoReply(data).1)
  {
  }

  lemma EchoTruthful(db: Db, req: Request)
    ensures Truthful(HandleEcho(db, req)) && HandleEcho(db, req).db == db
  {
    FieldSane(req, DATA_FIELD, MAX_BODY);
    if Field(req, DATA_FIELD, MAX_BODY).Found? {
      EchoHonest(Field(req, DATA_FIELD, MAX_BODY).value);
    }
  }

  lemma AnswerHonest(call: KvCall, e: ApiError, value: string)
    ensures Honest(KvAnswer(call, e, value).0, KvAnswer(call, e, value).1)
  {
  }

  lemma PlanTruthful(db: Db, fault: bool, plan: Plan)
    requires plan.Early? ==> plan.error != Ok
    ensures Truthful(RunPlan(db, fault, plan))
  {
    if plan.Call? {
      var (e, value, db') := KvStep(db, fault, plan.call);
      AnswerHonest(plan.call, e, value);
    }
  }

  /** A planned put carries a value that json_get_string handed out. */
  predicate SanePlan(plan: Plan, key: string) {
    match plan
    case Early(e, _) => e != Ok
    case Refused => true
    case Call(call) => call.key == key && (call.PutCall? ==> NulFree(call.value) && |call.value| < VALUE_CAP)
  }

  lemma PutPlanned(req: Request, key: string)
    ensures SanePlan(PlanPut(req, key), key)
  {
    FieldSane(req, VALUE_FIELD, MAX_VALUE + 1);
  }

  lemma Planned(req: Request, key: string)
    ensures SanePlan(KvPlan(req, key), key)
  {
    PutPlanned(req, key);
  }

  lemma KvTruthful(db: Db, env: Env, req: Request, route: Route)
    ensures Truthful(DispatchKv(db, env, req, route))
  {
    match route
    case KvKey(key) =>
      Planned(req, key);
      assert DispatchKv(db, env, req, route) == RunPlan(db, env.fault, KvPlan(req, key));
      PlanTruthful(db, env.fault, KvPlan(req, key));
    case KvAll => KvListTruthful(db, env, req);
    case _ =>
  }

  lemma KvListTruthful(db: Db, env: Env, req: Request)
    ensures Truthful(HandleKvList(db, env, req)) && HandleKvList(db, env, req).db == db
  {
    assert Honest(KvRowsReply(env).0, KvRowsReply(env).1);
  }

  lemma NoteGetTruthful(db: Db, fault: bool, id: int)
    ensures Truthful(HandleNoteGet(db, fault, id)) && HandleNoteGet(db, fault, id).db == db
  {
  }

  lemma CreateNoteTruthful(db: Db, env: Env, title: string, body: string)
    ensures Truthful(CreateNote(db, env, title, body))
  {
  }

  lemma CreateFromTruthful(db: Db, env: Env, checked: ApiError, title: Lookup, body: Lookup)
    requires Sane(title, MAX_TITLE + 1) && Sane(body, MAX_NOTE + 1)
    ensures Truthful(CreateFrom(db, env, checked, title, body))
  {
    if title.Found? && body.Found? {
      CreateNoteTruthful(db, env, title.value, body.value);
    }
  }

  lemma CreateTruthful(db: Db, env: Env, req: Request)
    ensures Truthful(HandleNoteCreate(db, env, req))
  {
    FieldSane(req, TITLE_FIELD, MAX_TITLE + 1);
    FieldSane(req, BODY_FIELD, MAX_NOTE + 1);
    CreateFromTruthful(db, env, RequireJson(req), Field(req, TITLE_FIELD, MAX_TITLE + 1), Field(req, BODY_FIELD, MAX_NOTE + 1));
  }

  lemma UpdateNoteTruthful(db: Db, env: Env, id: int, title: string, body: string)
    ensures Truthful(UpdateNote(db, env, id, title, body))
  {
    NoteGetTruthful(NoteUpdate(db, env.fault, env.now, id, title, body).1, env.laterFault, id);
  }

  lemma UpdateTruthful(db: Db, env: Env, req: Request, id: int)
    ensures Truthful(HandleNoteUpdate(db, env, req, id))
  {
    var title, body := Field(req, TITLE_FIELD, MAX_TITLE + 1), Field(req, BODY_FIELD, MAX_NOTE + 1);
    if title.Found? && body.Found? {
      UpdateNoteTruthful(db, env, id, title.value, body.value);
    }
  }

  lemma DelTruthful(db: Db, env: Env, id: int)
    ensures Truthful(HandleNoteDel(db, env, id))
  {
  }

  lemma PageHonest(db: Db, fault: bool, limit: nat, offset: nat)
    ensures Honest(NotePageReply(db, fault, limit, offset).0, NotePageReply(db, fault, limit, offset).1)
  {
    var rows, total := PageRows(db, limit, offset), |db.notes|;
    ListHonest(if fault then Internal else NoteListError(rows, total, MAX_BODY), NoteListText(rows, total));
  }

  lemma ListHonest(listed: ApiError, text: string)
    ensures Honest(ListReply(listed, text).0, ListReply(listed, text).1)
  {
  }

  lemma NoteListTruthful(db: Db, env: Env, req: Request)
    ensures Truthful(HandleNoteList(db, env, req)) && HandleNoteList(db, env, req).db == db
  {
    var limit, offset := ParseLimit(req.query), ParseOffset(req.query);
    if limit.Good? && offset.Good? {
      PageHonest(db, env.fault, limit.n, offset.n);
    }
  }

  lemma CollectionTruthful(db: Db, env: Env, req: Request)
    ensures Truthful(NoteCollection(db, env, req))
  {
    match req.verb
    case Post => CreateTruthful(db, env, req);
    case Get => NoteListTruthful(db, env, req);
    case _ =>
  }

  lemma ItemTruthful(db: Db, env: Env, req: Request, id: int)
    ensures Truthful(NoteItem(db, env, req, id))
  {
    match req.verb
    case Get => NoteGetTruthful(db, env.fault, id);
    case Put => UpdateTruthful(db, env, req, id);
    case Delete => DelTruthful(db, env, id);
    case _ =>
  }

  lemma NotesTruthful(db: Db, env: Env, req: Request, route: Route)
    ensures Truthful(DispatchNotes(db, env, req, route))
  {
    match route
    case NoteAll => CollectionTruthful(db, env, req);
    case NoteId(id) => ItemTruthful(db, env, req, id);
    case _ =>
  }

  lemma HandleTruthful(db: Db, env: Env, req: Request, route: Route)
    ensures Truthful(Handle(db, env, req, route))
  {
    if route.Echo? {
      EchoTruthful(db, req);
    } else if route.KvAll? || route.KvKey? || route.KvUnknown? || route.KvInvalid? {
      KvTruthful(db, env, req, route);
    } else if route.NoteAll? || route.NoteId? || route.NoteUnknown? || route.NoteInvalid? {
      NotesTruthful(db, env, req, route);
    }
  }

  /** Every request gets exactly one response, and its status tells the truth. */
  lemma OneTruthfulResponse(key: string, db: Db, env: Env, req: Request)
    ensures Truthful(Dispatch(key, db, env, req))
  {
    var route, auth := RouteOf(req.path), Auth.Verdict(key, req.apiKey);
    if route != Page && Guarded(req) && auth != Ok {
      RefusalTruthful(key, db, env, req);
    } else {
      assert Dispatch(key, db, env, req) == Handle(db, env, req, route);
      HandleTruthful(db, env, req, route);
    }
  }

  lemma RefusalTruthful(key: string, db: Db, env: Env, req: Request)
    requires RouteOf(req.path) != Page && Guarded(req) && Auth.Verdict(key, req.apiKey) != Ok
    ensures Truthful(Dispatch(key, db, env, req))
  {
  }

  // ---------- requests without the key have no effect ----------

  /** A request and what the outside contributes to it. */
  datatype Visit = Visit(env: Env, req: Request)

  /** The store after a run of requests. */
  function Final(key: string, db: Db, run: seq<Visit>): Db
    decreases |run|
  {
    if run == [] then db else Final(key, Dispatch(key, db, run[0].env, run[0].req).db, run[1..])
  }

  /** The request may write: it is not a GET and carries the configured key. */
  predicate Authorised(key: string, v: Visit) {
    v.req.verb != Get && v.req.apiKey == key
  }

  function OnlyAuthorised(key: string, run: seq<Visit>): (kept: seq<Visit>) {
    if run == [] then []
    else if Authorised(key, run[0]) then [run[0]] + OnlyAuthorised(key, run[1..])
    else OnlyAuthorised(key, run[1..])
  }

  lemma KvGetKeeps(db: Db, env: Env, req: Request, route: Route)
    requires req.verb == Get
    ensures DispatchKv(db, env, req, route).db == db
  {
    if route.KvAll? {
      KvListTruthful(db, env, req);
    }
  }

  lemma NotesGetKeeps(db: Db, env: Env, req: Request, route: Route)
    requires req.verb == Get
    ensures DispatchNotes(db, env, req, route).db == db
  {
    if route.NoteAll? {
      NoteListTruthful(db, env, req);
    } else if route.NoteId? {
      NoteGetTruthful(db, env.fault, route.id);
    }
  }

  /** Reads change nothing. */
  lemma GetKeeps(db: Db, env: Env, req: Request, route: Route)
    requires req.verb == Get
    ensures Handle(db, env, req, route).db == db
  {
    KvGetKeeps(db, env, req, route);
    NotesGetKeeps(db, env, req, route);
  }

  /** Routes whose handlers may change the store. */
  predicate Writable(route: Route) {
    route.KvKey? || route.NoteAll? || route.NoteId?
  }

  lemma OtherRoutesKeep(db: Db, env: Env, req: Request, route: Route)
    requires !Writable(route)
    ensures Handle(db, env, req, route).db == db
  {
    match route
    case Echo => EchoTruthful(db, req);
    case KvAll => KvListTruthful(db, env, req);
    case _ =>
  }

  /** Every route that can change the store lies under /api/. */
  lemma WritableIsUnderApi(path: string)
    requires Writable(RouteOf(path))
    ensures RouteOf(path) != Page && At(path, 0, "/api/")
  {
    assert At(path, 0, "/api/kv") || At(path, 0, "/api/notes");
    AtPrefix(path, "/api/kv", 5);
    AtPrefix(path, "/api/notes", 5);
    assert "/api/kv"[..5] == "/api/" && "/api/notes"[..5] == "/api/";
  }

  lemma AtPrefix(path: string, text: string, n: nat)
    requires n <= |text|
    ensures At(path, 0, text) ==> At(path, 0, text[..n])
  {
  }

  lemma UnauthorisedKeeps(key: string, db: Db, v: Visit)
    requires key != [] && !Authorised(key, v)
    ensures Dispatch(key, db, v.env, v.req).db == db
  {
    var route := RouteOf(v.req.path);
    if v.req.verb == Get {
      GetKeeps(db, v.env, v.req, route);
    } else if Writable(route) {
      WritableIsUnderApi(v.req.path);
    } else {
      OtherRoutesKeep(db, v.env, v.req, route);
    }
  }

  /** In protected mode the store after any run of requests is the store after the authorised writes alone. */
  lemma {:induction false} UnauthorisedHaveNoEffect(key: string, db: Db, run: seq<Visit>)
    requires key != []
    ensures Final(key, db, run) == Final(key, db, OnlyAuthorised(key, run))
    decreases |run|
  {
    if run != [] {
      var next := Dispatch(key, db, run[0].env, run[0].req).db;
      UnauthorisedHaveNoEffect(key, next, run[1..]);
      if Authorised(key, run[0]) {
        assert ([run[0]] + OnlyAuthorised(key, run[1..]))[1..] == OnlyAuthorised(key, run[1..]);
      } else {
        UnauthorisedKeeps(key, db, run[0]);
      }
    }
  }
}
