/** Notes from one client's bytes to another client's answer: what was created or updated is read back, what was
    deleted is gone, whatever requests come between. */
module NoteRuns {
  import opened CText
  import opened Numbers
  import opened HttpParse
  import opened HttpRead
  import opened HttpRoundTrip
  import opened Json
  import opened JsonObject
  import opened Store
  import opened Listing
  import opened Api
  import opened ApiFacts
  import opened ApiRuns
  import opened EndToEnd
  import Answers

  // ---------- what requests for other things leave alone ----------

  /** The two fields of a note that the store would take. */
  predicate HasNoteFields(req: Request) {
    var title, body := Api.Field(req, TITLE_FIELD, MAX_TITLE + 1), Api.Field(req, BODY_FIELD, MAX_NOTE + 1);
    RequireJson(req) == Ok && title.Found? && body.Found? && CheckNote(title.value, body.value) == Ok
  }

  /** The request writes the note: a DELETE, or a PUT with a title and a body, that passes the key check, and the
      store call does not fail. */
  predicate WritesNote(key: string, v: Visit, id: int) {
    && RouteOf(v.req.path) == NoteId(id) && (key == [] || v.req.apiKey == key) && !v.env.fault
    && (v.req.verb == Delete || (v.req.verb == Put && HasNoteFields(v.req)))
  }

  predicate SameNote(db: Db, after: Db, id: int) {
    && db.lastId <= after.lastId
    && (id in db.notes <==> id in after.notes) && (id in db.notes ==> db.notes[id] == after.notes[id])
  }

  lemma CreateSparesNote(db: Db, env: Env, checked: ApiError, title: Lookup, body: Lookup, id: int)
    requires id <= db.lastId
    ensures SameNote(db, CreateFrom(db, env, checked, title, body).db, id)
  {
  }

  lemma UpdateSparesNote(db: Db, env: Env, other: int, checked: ApiError, title: Lookup, body: Lookup, id: int)
    requires other != id || env.fault || checked != Ok || title.Failed? || body.Failed? || CheckNote(title.value, body.value) != Ok
    ensures SameNote(db, UpdateFrom(db, env, other, checked, title, body).db, id)
  {
  }

  lemma CollectionSparesNote(db: Db, env: Env, req: Request, id: int)
    requires id <= db.lastId
    ensures SameNote(db, NoteCollection(db, env, req).db, id)
  {
    match req.verb
    case Post =>
      CreateSparesNote(db, env, RequireJson(req), Api.Field(req, TITLE_FIELD, MAX_TITLE + 1),
                       Api.Field(req, BODY_FIELD, MAX_NOTE + 1), id);
    case Get => NoteListTruthful(db, env, req);
    case _ =>
  }

  lemma ItemSparesNote(db: Db, env: Env, req: Request, other: int, id: int)
    requires other != id || env.fault || (req.verb != Delete && !(req.verb == Put && HasNoteFields(req)))
    ensures SameNote(db, NoteItem(db, env, req, other).db, id)
  {
    match req.verb
    case Get => NoteGetTruthful(db, env.fault, other);
    case Put =>
      UpdateSparesNote(db, env, other, RequireJson(req), Api.Field(req, TITLE_FIELD, MAX_TITLE + 1),
                       Api.Field(req, BODY_FIELD, MAX_NOTE + 1), id);
    case Delete =>
    case _ =>
  }

  lemma PlanSparesNotes(db: Db, fault: bool, plan: Plan)
    ensures RunPlan(db, fault, plan).db.notes == db.notes && RunPlan(db, fault, plan).db.lastId == db.lastId
  {
  }

  lemma HandleSparesNote(db: Db, env: Env, req: Request, route: Route, id: int)
    requires id <= db.lastId
    requires route == NoteId(id) ==> env.fault || (req.verb != Delete && !(req.verb == Put && HasNoteFields(req)))
    ensures SameNote(db, Handle(db, env, req, route).db, id)
  {
    match route
    case NoteAll =>
      assert Handle(db, env, req, route) == NoteCollection(db, env, req);
      CollectionSparesNote(db, env, req, id);
    case NoteId(other) =>
      assert Handle(db, env, req, route) == NoteItem(db, env, req, other);
      ItemSparesNote(db, env, req, other, id);
    case KvKey(key) => PlanSparesNotes(db, env.fault, KvPlan(req, key));
    case _ => OtherRoutesKeep(db, env, req, route);
  }

  lemma DispatchSparesNote(key: string, db: Db, v: Visit, id: int)
    requires !WritesNote(key, v, id) && id <= db.lastId
    ensures SameNote(db, Dispatch(key, db, v.env, v.req).db, id)
  {
    if key != [] && !Authorised(key, v) {
      UnauthorisedKeeps(key, db, v);
    } else {
      HandleSparesNote(db, v.env, v.req, RouteOf(v.req.path), id);
    }
  }

  /** Over any run of requests that do not write the note it stays as it was; a deleted one never comes back, because
      ids are not used again. */
  lemma {:induction false} RunSparesNote(key: string, db: Db, run: seq<Visit>, id: int)
    requires id <= db.lastId && forall i | 0 <= i < |run| :: !WritesNote(key, run[i], id)
    ensures SameNote(db, Final(key, db, run), id)
    decreases |run|
  {
    if run != [] {
      DispatchSparesNote(key, db, run[0], id);
      RunSparesNote(key, Dispatch(key, db, run[0].env, run[0].req).db, run[1..], id);
    }
  }

  // ---------- the requests ----------

  function NotePathOf(id: nat): string {
    Answers.NOTES + Decimal(id)
  }

  lemma NotePathRoutes(id: nat)
    requires 0 < id <= LONG_MAX
    ensures RouteOf(NotePathOf(id)) == NoteId(id) && At(NotePathOf(id), 0, "/api/")
  {
    Answers.NoteRoutes(id, []);
    assert Decimal(id) + [] == Decimal(id);
    WritableIsUnderApi(NotePathOf(id));
  }

  ghost predicate CarriesNote(a: Asking, title: string, body: string) {
    CarriesField(a, TITLE_FIELD, title) && CarriesField(a, BODY_FIELD, body)
  }

  /** A title of at most 200 bytes is read with its body. */
  lemma NoteIsRead(m: Method, a: Asking, title: string, body: string)
    requires CarriesNote(a, title, body)
    ensures var req := Understood(m, a);
            && RequireJson(req) == Ok
            && Api.Field(req, TITLE_FIELD, MAX_TITLE + 1) == (if |title| <= 200 then Found(title) else Failed(PayloadTooLarge))
            && Api.Field(req, BODY_FIELD, MAX_NOTE + 1) == Found(body)
            && GoodText(body) && (|title| <= 200 ==> NulFree(title))
  {
    CarriedIsRead(m, a, TITLE_FIELD, title, MAX_TITLE + 1);
    CarriedIsRead(m, a, BODY_FIELD, body, MAX_NOTE + 1);
    FieldSane(Understood(m, a), TITLE_FIELD, MAX_TITLE + 1);
    FieldSane(Understood(m, a), BODY_FIELD, MAX_NOTE + 1);
  }

  lemma DispatchesNotes(key: string, db: Db, env: Env, m: Method, a: Asking, path: string)
    requires AsksAt(a, m, path) && (m == Get || Authorises(key, a))
    ensures Dispatch(key, db, env, Understood(m, a)) == Handle(db, env, Understood(m, a), RouteOf(path))
  {
    Answers.KeyNotNeeded(key, db, env, Understood(m, a));
  }

  // ---------- the replies ----------

  /** The reply that shows a note: its text, or 500 exactly if title or body has a control byte without an escape. */
  predicate ShowsNote(o: Outcome, status: nat, row: NoteRow) {
    if Escapable(row.note.title) && Escapable(row.note.body) then o.error == Ok && o.sent == [JsonReply(status, NoteText(row))]
    else o.error == Internal && |o.sent| == 1 && o.sent[0].ErrorReply?
  }

  predicate NoNote(o: Outcome) {
    o.error == NotFound && o.sent == [ErrorReply(NotFound, "note not found")]
  }

  lemma GetNoteIs(key: string, db: Db, env: Env, a: Asking, id: nat)
    requires 0 < id <= LONG_MAX && AsksAt(a, Get, NotePathOf(id)) && !env.fault && GoodNoteAt(db, id)
    ensures var o := Dispatch(key, db, env, Understood(Get, a));
            o.db == db && if id in db.notes then ShowsNote(o, 200, NoteRow(id, db.notes[id])) else NoNote(o)
  {
    NotePathRoutes(id);
    DispatchesNotes(key, db, env, Get, a, NotePathOf(id));
    if id in db.notes {
      GoodNoteShows(db, id);
    }
  }

  /** The note, if it is there, is one that requests can store. */
  predicate GoodNoteAt(db: Db, id: int) {
    id in db.notes ==> GoodNote(db.notes[id])
  }

  lemma GoodNoteShows(db: Db, id: nat)
    requires 0 < id <= LONG_MAX && id in db.notes && GoodNoteAt(db, id)
    ensures var row := NoteRow(id, db.notes[id]);
            NoteGet(db, false, id) ==
            if Escapable(row.note.title) && Escapable(row.note.body) then (Ok, NoteText(row)) else (Internal, "")
  {
    NoteTextLength(NoteRow(id, db.notes[id]));
  }

  // ---------- creating ----------

  const NOTES_PATH := "/api/notes"

  /** A creation: exactly one new note with the title and the body that were sent, under a fresh id, and the reply
      shows it with 201. A title that is empty is 400, one of more than 200 bytes 413, and nothing changes. */
  lemma CreateIsServed(key: string, db: Db, env: Env, a: Asking, title: string, body: string)
    requires AsksAt(a, Post, NOTES_PATH) && Authorises(key, a) && CarriesNote(a, title, body)
    requires !env.fault && !env.laterFault && InLong(env.now) && db.lastId < LONG_MAX
    ensures var o, id := Dispatch(key, db, env, Understood(Post, a)), db.lastId + 1;
            var note := Note(title, body, env.now, env.now);
            if title == [] then o.error == BadRequest && o.db == db
            else if |title| > 200 then o.error == PayloadTooLarge && o.db == db
            else o.db == db.(notes := db.notes[id := note], lastId := id) && ShowsNote(o, 201, NoteRow(id, note))
  {
    Answers.FixedRoutes();
    DispatchesNotes(key, db, env, Post, a, NOTES_PATH);
    NoteIsRead(Post, a, title, body);
    var req := Understood(Post, a);
    var t, b := Api.Field(req, TITLE_FIELD, MAX_TITLE + 1), Api.Field(req, BODY_FIELD, MAX_NOTE + 1);
    HandlesCreate(db, env, req);
    CreateShows(db, env, t, b, title, body);
  }

  lemma HandlesCreate(db: Db, env: Env, req: Request)
    requires req.verb == Post
    ensures Handle(db, env, req, NoteAll) ==
            CreateFrom(db, env, RequireJson(req), Api.Field(req, TITLE_FIELD, MAX_TITLE + 1), Api.Field(req, BODY_FIELD, MAX_NOTE + 1))
  {
  }

  lemma CreateShows(db: Db, env: Env, t: Lookup, b: Lookup, title: string, body: string)
    requires t == (if |title| <= 200 then Found(title) else Failed(PayloadTooLarge)) && b == Found(body)
    requires GoodText(body) && (|title| <= 200 ==> NulFree(title))
    requires !env.fault && !env.laterFault && InLong(env.now) && db.lastId < LONG_MAX
    ensures var o, id := CreateFrom(db, env, Ok, t, b), db.lastId + 1;
            var note := Note(title, body, env.now, env.now);
            if title == [] then o.error == BadRequest && o.db == db
            else if |title| > 200 then o.error == PayloadTooLarge && o.db == db
            else o.db == db.(notes := db.notes[id := note], lastId := id) && ShowsNote(o, 201, NoteRow(id, note))
  {
    if 0 < |title| <= 200 {
      var id := db.lastId + 1;
      GoodNoteShows(db.(notes := db.notes[id := Note(title, body, env.now, env.now)], lastId := id), id);
    }
  }

  /** A created note is read back: by any client, after any requests that do not write it, with the same text. */
  lemma CreateThenGet(key: string, db: Db, post: Asking, postEnv: Env, title: string, body: string, between: seq<Visit>,
                      get: Asking, getEnv: Env, extra1: string, extra2: string, r1: Parsed, r2: Parsed)
    requires AsksAt(post, Post, NOTES_PATH) && Authorises(key, post) && CarriesNote(post, title, body) && 0 < |title| <= 200
    requires !postEnv.fault && !postEnv.laterFault && InLong(postEnv.now) && db.lastId < LONG_MAX
    requires AsksAt(get, Get, NotePathOf(db.lastId + 1)) && !getEnv.fault
    requires forall i | 0 <= i < |between| :: !WritesNote(key, between[i], db.lastId + 1)
    requires ReadsAs(BytesOf(post, extra1), MAX_HEADERS, MAX_BODY, r1)
    requires ReadsAs(BytesOf(get, extra2), MAX_HEADERS, MAX_BODY, r2)
    ensures r1.error == Ok && r2.error == Ok
    ensures var row := NoteRow(db.lastId + 1, Note(title, body, postEnv.now, postEnv.now));
            var created := Dispatch(key, db, postEnv, r1.request);
            && ShowsNote(created, 201, row)
            && ShowsNote(Dispatch(key, Final(key, created.db, between), getEnv, r2.request), 200, row)
  {
    AskingArrives(Post, post, NOTES_PATH, extra1, r1);
    AskingArrives(Get, get, NotePathOf(db.lastId + 1), extra2, r2);
    CreateIsServed(key, db, postEnv, post, title, body);
    NoteIsRead(Post, post, title, body);
    var created := Dispatch(key, db, postEnv, r1.request).db;
    RunSparesNote(key, created, between, db.lastId + 1);
    GetNoteIs(key, Final(key, created, between), getEnv, get, db.lastId + 1);
  }

  // ---------- updating ----------

  /** An update of a note that is there: title and body are replaced, the time of creation stays, nothing else in the
      store changes, and the reply shows the note with 200. A title that is empty or too long is 400. */
  lemma UpdateIsServed(key: string, db: Db, env: Env, a: Asking, id: nat, title: string, body: string)
    requires 0 < id <= LONG_MAX && AsksAt(a, Put, NotePathOf(id)) && Authorises(key, a) && CarriesNote(a, title, body)
    requires !env.fault && !env.laterFault && InLong(env.now) && GoodNoteAt(db, id)
    ensures var o := Dispatch(key, db, env, Understood(Put, a));
            if title == [] || |title| > 200 then o.error == BadRequest && o.db == db
            else if id !in db.notes then NoNote(o) && o.db == db
            else
              var note := Note(title, body, db.notes[id].created, env.now);
              o.db == db.(notes := db.notes[id := note]) && ShowsNote(o, 200, NoteRow(id, note))
  {
    var t, b := UpdateIsRead(key, db, env, a, id, title, body);
    UpdateShows(db, env, id, t, b, title, body);
  }

  lemma UpdateIsRead(key: string, db: Db, env: Env, a: Asking, id: nat, title: string, body: string) returns (t: Lookup, b: Lookup)
    requires 0 < id <= LONG_MAX && AsksAt(a, Put, NotePathOf(id)) && Authorises(key, a) && CarriesNote(a, title, body)
    ensures t == (if |title| <= 200 then Found(title) else Failed(PayloadTooLarge)) && b == Found(body)
    ensures GoodText(body) && (|title| <= 200 ==> NulFree(title))
    ensures Dispatch(key, db, env, Understood(Put, a)) == UpdateFrom(db, env, id, Ok, t, b)
  {
    NotePathRoutes(id);
    DispatchesNotes(key, db, env, Put, a, NotePathOf(id));
    NoteIsRead(Put, a, title, body);
    var req := Understood(Put, a);
    t, b := Api.Field(req, TITLE_FIELD, MAX_TITLE + 1), Api.Field(req, BODY_FIELD, MAX_NOTE + 1);
    HandlesUpdate(db, env, req, id);
  }

  lemma HandlesUpdate(db: Db, env: Env, req: Request, id: int)
    requires req.verb == Put
    ensures Handle(db, env, req, NoteId(id)) ==
            UpdateFrom(db, env, id, RequireJson(req), Api.Field(req, TITLE_FIELD, MAX_TITLE + 1), Api.Field(req, BODY_FIELD, MAX_NOTE + 1))
  {
  }

  lemma UpdateShows(db: Db, env: Env, id: nat, t: Lookup, b: Lookup, title: string, body: string)
    requires 0 < id <= LONG_MAX && GoodNoteAt(db, id)
    requires t == (if |title| <= 200 then Found(title) else Failed(PayloadTooLarge)) && b == Found(body)
    requires GoodText(body) && (|title| <= 200 ==> NulFree(title))
    requires !env.fault && !env.laterFault && InLong(env.now)
    ensures var o := UpdateFrom(db, env, id, Ok, t, b);
            if title == [] || |title| > 200 then o.error == BadRequest && o.db == db
            else if id !in db.notes then NoNote(o) && o.db == db
            else
              var note := Note(title, body, db.notes[id].created, env.now);
              o.db == db.(notes := db.notes[id := note]) && ShowsNote(o, 200, NoteRow(id, note))
  {
    if 0 < |title| <= 200 && id in db.notes {
      GoodNoteShows(db.(notes := db.notes[id := Note(title, body, db.notes[id].created, env.now)]), id);
    }
  }

  /** An updated note is read back as it was updated. */
  lemma UpdateThenGet(key: string, db: Db, id: nat, put: Asking, putEnv: Env, title: string, body: string, between: seq<Visit>,
                      get: Asking, getEnv: Env, extra1: string, extra2: string, r1: Parsed, r2: Parsed)
    requires 0 < id <= LONG_MAX && id <= db.lastId && id in db.notes && GoodNoteAt(db, id)
    requires AsksAt(put, Put, NotePathOf(id)) && Authorises(key, put) && CarriesNote(put, title, body) && 0 < |title| <= 200
    requires !putEnv.fault && !putEnv.laterFault && InLong(putEnv.now)
    requires AsksAt(get, Get, NotePathOf(id)) && !getEnv.fault
    requires forall i | 0 <= i < |between| :: !WritesNote(key, between[i], id)
    requires ReadsAs(BytesOf(put, extra1), MAX_HEADERS, MAX_BODY, r1)
    requires ReadsAs(BytesOf(get, extra2), MAX_HEADERS, MAX_BODY, r2)
    ensures r1.error == Ok && r2.error == Ok
    ensures var row := NoteRow(id, Note(title, body, db.notes[id].created, putEnv.now));
            var updated := Dispatch(key, db, putEnv, r1.request);
            && ShowsNote(updated, 200, row)
            && ShowsNote(Dispatch(key, Final(key, updated.db, between), getEnv, r2.request), 200, row)
  {
    AskingArrives(Put, put, NotePathOf(id), extra1, r1);
    AskingArrives(Get, get, NotePathOf(id), extra2, r2);
    UpdateIsServed(key, db, putEnv, put, id, title, body);
    NoteIsRead(Put, put, title, body);
    var updated := Dispatch(key, db, putEnv, r1.request).db;
    RunSparesNote(key, updated, between, id);
    GetNoteIs(key, Final(key, updated, between), getEnv, get, id);
  }

  // ---------- deleting ----------

  /** A deletion answers 204 and removes just that note; an absent one is 404. */
  lemma DeleteNoteIsServed(key: string, db: Db, env: Env, a: Asking, id: nat)
    requires 0 < id <= LONG_MAX && AsksAt(a, Delete, NotePathOf(id)) && Authorises(key, a) && !env.fault
    ensures var o := Dispatch(key, db, env, Understood(Delete, a));
            if id in db.notes then
              && o.error == Ok && o.sent == [NoContent] && o.db.kv == db.kv && o.db.lastId == db.lastId
              && (forall k :: k in o.db.notes <==> k in db.notes && k != id)
              && (forall k | k in o.db.notes :: o.db.notes[k] == db.notes[k])
            else NoNote(o) && o.db == db
  {
    NotePathRoutes(id);
    DispatchesNotes(key, db, env, Delete, a, NotePathOf(id));
    HandlesDelete(db, env, Understood(Delete, a), id);
  }

  lemma HandlesDelete(db: Db, env: Env, req: Request, id: int)
    requires req.verb == Delete
    ensures Handle(db, env, req, NoteId(id)) == HandleNoteDel(db, env, id)
  {
  }

  /** A deleted note is gone for good: whatever requests follow that are not about it, a GET by any client is 404. No
      request in between can bring it back, because ids are never used again. */
  lemma DeleteNoteThenGet(key: string, db: Db, id: nat, del: Asking, delEnv: Env, between: seq<Visit>,
                          get: Asking, getEnv: Env, extra1: string, extra2: string, r1: Parsed, r2: Parsed)
    requires 0 < id <= LONG_MAX && id <= db.lastId && id in db.notes
    requires AsksAt(del, Delete, NotePathOf(id)) && Authorises(key, del) && !delEnv.fault
    requires AsksAt(get, Get, NotePathOf(id)) && !getEnv.fault
    requires forall i | 0 <= i < |between| :: !WritesNote(key, between[i], id)
    requires ReadsAs(BytesOf(del, extra1), MAX_HEADERS, MAX_BODY, r1)
    requires ReadsAs(BytesOf(get, extra2), MAX_HEADERS, MAX_BODY, r2)
    ensures r1.error == Ok && r2.error == Ok
    ensures var deleted := Dispatch(key, db, delEnv, r1.request);
            && deleted.error == Ok && deleted.sent == [NoContent]
            && NoNote(Dispatch(key, Final(key, deleted.db, between), getEnv, r2.request))
  {
    AskingArrives(Delete, del, NotePathOf(id), extra1, r1);
    AskingArrives(Get, get, NotePathOf(id), extra2, r2);
    DeleteNoteIsServed(key, db, delEnv, del, id);
    var deleted := Dispatch(key, db, delEnv, r1.request).db;
    RunSparesNote(key, deleted, between, id);
    GetNoteIs(key, Final(key, deleted, between), getEnv, get, id);
  }
}
