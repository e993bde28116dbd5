/** The stores that runs of requests can reach, and what the replies about them look like. */
module ApiRuns {
  import opened CText
  import opened Numbers
  import opened HttpParse
  import opened Json
  import opened JsonObject
  import opened JsonReply
  import opened Store
  import opened Listing
  import opened NotePages
  import opened Api
  import opened ApiFacts

  // ---------- reachable stores ----------

  predicate GoodText(s: string) {
    NulFree(s) && |s| < VALUE_CAP
  }

  predicate InLong(n: int) {
    LONG_MIN <= n <= LONG_MAX
  }

  predicate GoodNote(n: Note) {
    GoodText(n.body) && NulFree(n.title) && 0 < |n.title| <= MAX_TITLE && InLong(n.created) && InLong(n.updated)
  }

  /** Valid keys, values and note bodies of at most 8191 bytes, titles of 1 to 200 bytes, fresh ids. */
  ghost predicate GoodStore(db: Db) {
    && (forall k | k in db.kv :: ValidKey(k) && GoodText(db.kv[k]))
    && (forall id | id in db.notes :: 0 < id <= db.lastId && GoodNote(db.notes[id]))
  }

  lemma KvKeepsGood(db: Db, fault: bool, plan: Plan, key: string)
    requires GoodStore(db) && SanePlan(plan, key)
    ensures GoodStore(RunPlan(db, fault, plan).db)
  {
  }

  lemma CreateFromKeepsGood(db: Db, env: Env, checked: ApiError, title: Lookup, body: Lookup)
    requires GoodStore(db) && InLong(env.now) && Sane(title, MAX_TITLE + 1) && Sane(body, MAX_NOTE + 1)
    ensures GoodStore(CreateFrom(db, env, checked, title, body).db)
  {
  }

  lemma UpdateFromKeepsGood(db: Db, env: Env, id: int, checked: ApiError, title: Lookup, body: Lookup)
    requires GoodStore(db) && InLong(env.now) && Sane(title, MAX_TITLE + 1) && Sane(body, MAX_NOTE + 1)
    ensures GoodStore(UpdateFrom(db, env, id, checked, title, body).db)
  {
  }

  lemma CreateKeepsGood(db: Db, env: Env, req: Request)
    requires GoodStore(db) && InLong(env.now)
    ensures GoodStore(HandleNoteCreate(db, env, req).db)
  {
    FieldSane(req, TITLE_FIELD, MAX_TITLE + 1);
    FieldSane(req, BODY_FIELD, MAX_NOTE + 1);
    CreateFromKeepsGood(db, env, RequireJson(req), Field(req, TITLE_FIELD, MAX_TITLE + 1), Field(req, BODY_FIELD, MAX_NOTE + 1));
  }

  lemma UpdateKeepsGood(db: Db, env: Env, req: Request, id: int)
    requires GoodStore(db) && InLong(env.now)
    ensures GoodStore(HandleNoteUpdate(db, env, req, id).db)
  {
    FieldSane(req, TITLE_FIELD, MAX_TITLE + 1);
    FieldSane(req, BODY_FIELD, MAX_NOTE + 1);
    UpdateFromKeepsGood(db, env, id, RequireJson(req), Field(req, TITLE_FIELD, MAX_TITLE + 1), Field(req, BODY_FIELD, MAX_NOTE + 1));
  }

  lemma DelKeepsGood(db: Db, env: Env, id: int)
    requires GoodStore(db)
    ensures GoodStore(HandleNoteDel(db, env, id).db)
  {
  }

  lemma CollectionKeepsGood(db: Db, env: Env, req: Request)
    requires GoodStore(db) && InLong(env.now)
    ensures GoodStore(NoteCollection(db, env, req).db)
  {
    match req.verb
    case Post => CreateKeepsGood(db, env, req);
    case Get => NoteListTruthful(db, env, req);
    case _ =>
  }

  lemma ItemKeepsGood(db: Db, env: Env, req: Request, id: int)
    requires GoodStore(db) && InLong(env.now)
    ensures GoodStore(NoteItem(db, env, req, id).db)
  {
    match req.verb
    case Get => NoteGetTruthful(db, env.fault, id);
    case Put => UpdateKeepsGood(db, env, req, id);
    case Delete => DelKeepsGood(db, env, id);
    case _ =>
  }

  lemma WritesKeepGood(db: Db, env: Env, req: Request, route: Route)
    requires GoodStore(db) && InLong(env.now) && Writable(route)
    ensures GoodStore(Handle(db, env, req, route).db)
  {
    match route
    case KvKey(key) =>
      Planned(req, key);
      KvKeepsGood(db, env.fault, KvPlan(req, key), key);
    case NoteAll => CollectionKeepsGood(db, env, req);
    case NoteId(id) => ItemKeepsGood(db, env, req, id);
  }

  lemma DispatchKeepsGood(key: string, db: Db, v: Visit)
    requires GoodStore(db) && InLong(v.env.now)
    ensures GoodStore(Dispatch(key, db, v.env, v.req).db)
  {
    var route := RouteOf(v.req.path);
    if Writable(route) {
      WritesKeepGood(db, v.env, v.req, route);
    } else {
      OtherRoutesKeep(db, v.env, v.req, route);
    }
  }

  /** Every store that a run of requests reaches from the empty one is good. */
  lemma {:induction false} ReachableIsGood(key: string, db: Db, run: seq<Visit>)
    requires GoodStore(db) && forall i | 0 <= i < |run| :: InLong(run[i].env.now)
    ensures GoodStore(Final(key, db, run))
    decreases |run|
  {
    if run != [] {
      DispatchKeepsGood(key, db, run[0]);
      ReachableIsGood(key, Dispatch(key, db, run[0].env, run[0].req).db, run[1..]);
    }
  }

  lemma ReachableFromEmpty(key: string, run: seq<Visit>)
    requires forall i | 0 <= i < |run| :: InLong(run[i].env.now)
    ensures GoodStore(Final(key, EMPTY, run))
  {
    ReachableIsGood(key, EMPTY, run);
  }

  // ---------- replies about single items ----------

  lemma KeyEscapes(key: string)
    requires ValidKey(key)
    ensures Escapes(key, KEY_BUF) && NulFree(key)
  {
  }

  lemma KvTextLength(key: string, value: string)
    ensures |KvText(KvRow(key, value))| == |Escape(key)| + |Escape(value)| + 21
  {
  }

  /** A good entry is answered with 200 and its text, unless its value has a control byte without an escape:
      the buffers are always large enough. */
  lemma EntryEncodes(key: string, value: string)
    requires ValidKey(key) && GoodText(value)
    ensures EntryReply(key, value) ==
            if Escapable(value) then (Ok, JsonReply(200, KvText(KvRow(key, value))))
            else (Internal, ErrorReply(Internal, OVERFLOW))
  {
    KeyEscapes(key);
    KvTextLength(key, value);
  }

  /** What the parser makes of a key/value reply: the key and the value, byte for byte. */
  lemma EntryParsesBack(key: string, value: string)
    requires ValidKey(key) && GoodText(value)
    ensures GetString(KvText(KvRow(key, value)), KEY_FIELD, VALUE_CAP) == Found(key)
    ensures GetString(KvText(KvRow(key, value)), VALUE_FIELD, VALUE_CAP) == Found(value)
  {
    KeyEscapes(key);
    FieldNamesPlain();
    CStrOfCString(key);
    CStrOfCString(value);
    TwoRead(KEY_FIELD, TokensOf(key), VALUE_FIELD, TokensOf(value), KEY_FIELD, VALUE_CAP);
    TwoRead(KEY_FIELD, TokensOf(key), VALUE_FIELD, TokensOf(value), VALUE_FIELD, VALUE_CAP);
  }

  lemma FieldNamesPlain()
    ensures PlainName(KEY_FIELD) && PlainName(VALUE_FIELD) && PlainName(DATA_FIELD) && KEY_FIELD != VALUE_FIELD
  {
  }

  /** A GET of a stored key of a good store: 200 and a text that parses back to the stored value, or 500
      exactly when the value has a control byte without an escape. */
  lemma KvGetReply(db: Db, key: string)
    requires GoodStore(db) && key in db.kv
    ensures RunPlan(db, false, Call(GetCall(key))) ==
            if Escapable(db.kv[key]) then Outcome(Ok, db, [JsonReply(200, KvText(KvRow(key, db.kv[key])))])
            else Outcome(Internal, db, [ErrorReply(Internal, OVERFLOW)])
    ensures GetString(KvText(KvRow(key, db.kv[key])), VALUE_FIELD, VALUE_CAP) == Found(db.kv[key])
  {
    EntryEncodes(key, db.kv[key]);
    EntryParsesBack(key, db.kv[key]);
    assert KvStep(db, false, GetCall(key)) == (Ok, db.kv[key], db);
  }

  /** A PUT that reaches the store is committed whatever it answers; it answers 200 exactly when the value
      can be escaped. */
  lemma PutCommits(db: Db, key: string, value: string)
    requires ValidKey(key) && GoodText(value)
    ensures var o := RunPlan(db, false, Call(PutCall(key, value)));
            && o.db == db.(kv := db.kv[key := value])
            && (o.error == Ok <==> Escapable(value))
            && (o.error != Ok ==> o.error == Internal)
  {
    EntryEncodes(key, value);
  }

  /** A value with a raw control byte is stored and answered with 500. */
  lemma CommittedButFailed()
    ensures var o := RunPlan(EMPTY, false, Call(PutCall("k", [1 as char])));
            o.error == Internal && "k" in o.db.kv
  {
    var value := [1 as char];
    assert !EscapableChar(value[0]);
    PutCommits(EMPTY, "k", value);
  }

  /** Reading after writing: a GET that follows a successful PUT gives the same reply. */
  lemma ReadYourWrite(db: Db, key: string, value: string)
    requires ValidKey(key) && GoodText(value)
    ensures var o := RunPlan(db, false, Call(PutCall(key, value)));
            RunPlan(o.db, false, Call(GetCall(key))).sent == o.sent
  {
    EntryEncodes(key, value);
  }

  // ---------- the limit of 8191 bytes ----------

  /** A value comes through exactly if it has at most 8191 bytes, however large the caller's buffer is; a longer
      one is a bad request. */
  lemma ValueLimit(value: CString, cap: nat)
    requires cap > |value|
    ensures GetString(OneEntry(VALUE_FIELD, Escape(value)), VALUE_FIELD, cap) ==
            if |value| < VALUE_CAP then Found(value) else Failed(BadRequest)
  {
    FieldNamesPlain();
    CStrOfCString(value);
    if |value| < VALUE_CAP {
      OneReads(VALUE_FIELD, TokensOf(value), VALUE_FIELD, cap);
    } else {
      LongRefused(VALUE_FIELD, TokensOf(value), VALUE_FIELD, cap);
    }
  }

  /** So a PUT of a value of 8192 to 60000 bytes, which the store would take, is answered with 400 and changes
      nothing. */
  lemma LongPutRefused(db: Db, fault: bool, req: Request, key: string, value: CString)
    requires RequireJson(req) == Ok && req.verb == Put && req.body == Some(OneEntry(VALUE_FIELD, Escape(value)))
    requires VALUE_CAP <= |value| <= MAX_VALUE
    ensures RunPlan(db, fault, KvPlan(req, key)) == Fail(db, BadRequest, BAD_JSON)
  {
    var body := LongBody(req, value);
    BadFieldPlan(req, body, key);
  }

  lemma LongBody(req: Request, value: CString) returns (body: string)
    requires req.body == Some(OneEntry(VALUE_FIELD, Escape(value))) && VALUE_CAP <= |value| <= MAX_VALUE
    ensures req.body == Some(body) && GetString(body, VALUE_FIELD, MAX_VALUE + 1) == Failed(BadRequest)
  {
    body := OneEntry(VALUE_FIELD, Escape(value));
    ValueLimit(value, MAX_VALUE + 1);
  }

  lemma BadFieldPlan(req: Request, body: string, key: string)
    requires RequireJson(req) == Ok && req.verb == Put && req.body == Some(body)
    requires GetString(body, VALUE_FIELD, MAX_VALUE + 1) == Failed(BadRequest)
    ensures KvPlan(req, key) == Early(BadRequest, BAD_JSON)
  {
  }

  // ---------- notes ----------

  lemma LongLength(n: int)
    requires InLong(n)
    ensures |SignedDecimal(n)| <= 20
  {
    assert Power10(4) == 10000 && Power10(8) == 10000 * Power10(4) && Power10(12) == 10000 * Power10(8);
    assert Power10(16) == 10000 * Power10(12) && Power10(19) == 1000 * Power10(16);
    if n < 0 {
      DecimalLength(-n, 19, Power10(19));
    } else {
      DecimalLength(n, 19, Power10(19));
    }
  }

  lemma NoteTextLength(r: NoteRow)
    requires InLong(r.id) && InLong(r.note.created) && InLong(r.note.updated)
    ensures |NoteText(r)| <= |Escape(r.note.title)| + |Escape(r.note.body)| + 120
  {
    LongLength(r.id);
    LongLength(r.note.created);
    LongLength(r.note.updated);
  }

  /** The reply about a stored note never overflows: it is the note's text, or 500 exactly when title or
      body has a control byte without an escape. */
  lemma NoteGetReply(db: Db, id: int)
    requires GoodStore(db) && id in db.notes && InLong(id)
    ensures var row := NoteRow(id, db.notes[id]);
            NoteGet(db, false, id) ==
            if Escapable(row.note.title) && Escapable(row.note.body) then (Ok, NoteText(row)) else (Internal, "")
  {
    NoteTextLength(NoteRow(id, db.notes[id]));
  }

  /** A listing of a good store: the page of the notes in the order of their ids and their number, exactly if all
      texts on it can be escaped and it fits. */
  lemma NoteListReply(db: Db, env: Env, req: Request, limit: nat, offset: nat)
    requires GoodStore(db) && !env.fault && ParseLimit(req.query) == Good(limit) && ParseOffset(req.query) == Good(offset)
    ensures IdsInRange(db)
    ensures var rows, total := PageRows(db, limit, offset), |db.notes|;
            var shown := (forall r | r in rows :: Escapable(r.note.title) && Escapable(r.note.body))
                         && |NoteListText(rows, total)| < MAX_BODY;
            && (HandleNoteList(db, env, req).error == Ok <==> shown)
            && (shown ==> HandleNoteList(db, env, req).sent == [JsonReply(200, NoteListText(rows, total))])
  {
    var rows, total := PageRows(db, limit, offset), |db.notes|;
    GoodRows(db, limit, offset);
    NoteListAllOrNothing(rows, total, MAX_BODY);
    assert forall i | 0 <= i < |rows| :: rows[i] in rows;
  }

  /** The texts of a good store always fit the row buffers. */
  lemma GoodRows(db: Db, limit: nat, offset: nat)
    requires GoodStore(db)
    ensures forall r | r in PageRows(db, limit, offset) ::
              NoteOk(r) <==> Escapable(r.note.title) && Escapable(r.note.body)
  {
    ListIsComplete(db);
    forall r | r in PageRows(db, limit, offset)
      ensures r.id in db.notes && r.note == db.notes[r.id]
    {
      assert r in AllRows(db);
    }
  }

  // ---------- echo ----------

  /** Every successful echo parses back to the data received. */
  lemma EchoParsesBack(db: Db, req: Request, data: string)
    requires RequireJson(req) == Ok && Field(req, DATA_FIELD, MAX_BODY) == Found(data)
    ensures HandleEcho(db, req) ==
            if Escapable(data) then Outcome(Ok, db, [JsonReply(200, OneEntry(DATA_FIELD, Escape(data)))])
            else Outcome(Internal, db, [ErrorReply(Internal, OVERFLOW)])
    ensures GetString(OneEntry(DATA_FIELD, Escape(data)), DATA_FIELD, MAX_BODY) == Found(data)
  {
    FieldSane(req, DATA_FIELD, MAX_BODY);
    FieldNamesPlain();
    CStrOfCString(data);
    OneReads(DATA_FIELD, TokensOf(data), DATA_FIELD, MAX_BODY);
  }
}
