/** api_dispatch and handle_client as code: from the bytes of a connection to the store and the bytes of the
    answer. */
module Serving {
  import opened CText
  import opened HttpParse
  import opened HttpRead
  import opened HttpSend
  import opened Store
  import opened Listing
  import opened Api
  import opened Handlers
  import opened NoteHandlers
  import ApiFacts
  import Auth

  /** What the outside guarantees: the page is the one compiled in, and SQLite hands out C strings. */
  predicate Supplied(env: Env) {
    |env.page| < 1000000 && KvRowsClean(env.kvRows)
  }

  // ---------- api_dispatch ----------

  method Reject(wire: Wire, e: ApiError, detail: CString, ghost db: Db) returns (error: ApiError)
    requires e != Ok
    modifies wire
    ensures Does(Fail(db, e, detail), db, old(wire.sent), wire.sent, error)
  {
    Report(wire, e, detail);
    return e;
  }

  method RejectMethod(wire: Wire, allow: CString, ghost db: Db) returns (error: ApiError)
    requires |allow| <= 22
    modifies wire
    ensures Does(Refuse(db, allow), db, old(wire.sent), wire.sent, error)
  {
    SendRefusal(wire, allow);
    return MethodNotAllowed;
  }

  method DoText(wire: Wire, text: string, cap: nat, ghost db: Db) returns (error: ApiError)
    requires cap <= METRICS_CAP
    modifies wire
    ensures Does(ShowText(db, text, cap), db, old(wire.sent), wire.sent, error)
  {
    if |text| >= cap {
      Report(wire, Internal, OVERFLOW);
      return Internal;
    }
    error := Send(wire, 200, text);
  }

  /** The routes that do not reach the tables, and metrics. */
  method DoPlain(wire: Wire, env: Env, req: Request, route: Route, ghost db: Db) returns (error: ApiError)
    requires (route.Page? || route.Health? || route.Metrics?) && Supplied(env)
    modifies wire
    ensures Does(Handle(db, env, req, route), db, old(wire.sent), wire.sent, error)
  {
    if req.verb != Get {
      SendRefusal(wire, ALLOW_GET);
      return MethodNotAllowed;
    }
    if route.Page? {
      error := SendPage(wire, env.page);
    } else if route.Health? {
      error := DoText(wire, env.health, HEALTH_CAP, db);
    } else if env.fault {
      Report(wire, Internal, NO_COUNT);
      return Internal;
    } else {
      error := DoText(wire, env.metrics, METRICS_CAP, db);
    }
  }

  method DoDispatchKv(wire: Wire, conn: Connection, env: Env, req: Request, route: Route) returns (error: ApiError)
    requires conn.Valid() && CleanRequest(req) && Supplied(env)
    requires route.KvAll? || route.KvUnknown? || route.KvInvalid? || (route.KvKey? && NulFree(route.key))
    modifies wire, conn
    ensures conn.Valid()
    ensures Does(DispatchKv(old(conn.Abs()), env, req, route), conn.Abs(), old(wire.sent), wire.sent, error)
  {
    ghost var o := DispatchKv(conn.Abs(), env, req, route);
    if route.KvAll? && req.verb != Get {
      assert o == Refuse(conn.Abs(), ALLOW_GET);
      error := RejectMethod(wire, ALLOW_GET, conn.Abs());
    } else if route.KvAll? {
      assert o == HandleKvList(conn.Abs(), env, req);
      error := DoKvList(wire, env, req, conn.Abs());
    } else if route.KvUnknown? {
      assert o == Fail(conn.Abs(), NotFound, NO_ROUTE);
      error := Reject(wire, NotFound, NO_ROUTE, conn.Abs());
    } else if route.KvInvalid? {
      assert o == Fail(conn.Abs(), InvalidKey, KEY_RULE);
      error := Reject(wire, InvalidKey, KEY_RULE, conn.Abs());
    } else {
      assert o == RunPlan(conn.Abs(), env.fault, KvPlan(req, route.key));
      error := DoItem(wire, conn, env.fault, req, route.key);
    }
    assert Does(o, conn.Abs(), old(wire.sent), wire.sent, error);
  }

  method DoDispatchNotes(wire: Wire, conn: Connection, env: Env, req: Request, route: Route) returns (error: ApiError)
    requires conn.Valid() && CleanRequest(req) && Supplied(env)
    requires route.NoteAll? || route.NoteUnknown? || route.NoteInvalid? || route.NoteId?
    modifies wire, conn
    ensures conn.Valid()
    ensures Does(DispatchNotes(old(conn.Abs()), env, req, route), conn.Abs(), old(wire.sent), wire.sent, error)
  {
    ghost var o := DispatchNotes(conn.Abs(), env, req, route);
    if route.NoteAll? {
      assert o == NoteCollection(conn.Abs(), env, req);
      error := DoNoteCollection(wire, conn, env, req);
    } else if route.NoteUnknown? {
      assert o == Fail(conn.Abs(), NotFound, NO_ROUTE);
      error := Reject(wire, NotFound, NO_ROUTE, conn.Abs());
    } else if route.NoteInvalid? {
      assert o == Fail(conn.Abs(), InvalidId, ID_RULE);
      error := Reject(wire, InvalidId, ID_RULE, conn.Abs());
    } else {
      assert o == NoteItem(conn.Abs(), env, req, route.id);
      error := DoNoteItem(wire, conn, env, req, route.id);
    }
    assert Does(o, conn.Abs(), old(wire.sent), wire.sent, error);
  }

  method DoHandle(wire: Wire, conn: Connection, env: Env, req: Request, route: Route) returns (error: ApiError)
    requires conn.Valid() && CleanRequest(req) && Supplied(env) && (route.KvKey? ==> NulFree(route.key))
    modifies wire, conn
    ensures conn.Valid()
    ensures Does(Handle(old(conn.Abs()), env, req, route), conn.Abs(), old(wire.sent), wire.sent, error)
  {
    if route.Page? || route.Health? || route.Metrics? {
      error := DoPlain(wire, env, req, route, conn.Abs());
    } else if route.Echo? {
      if req.verb != Post {
        error := RejectMethod(wire, ALLOW_POST, conn.Abs());
        return;
      }
      error := DoEcho(wire, req, conn.Abs());
    } else if route.Nowhere? {
      error := Reject(wire, NotFound, NO_ROUTE, conn.Abs());
    } else if route.KvAll? || route.KvUnknown? || route.KvInvalid? || route.KvKey? {
      error := DoDispatchKv(wire, conn, env, req, route);
    } else {
      error := DoDispatchNotes(wire, conn, env, req, route);
    }
  }

  lemma RouteKeyClean(path: CString)
    ensures RouteOf(path).KvKey? ==> NulFree(RouteOf(path).key)
  {
  }

  /** api_dispatch: whatever the request, store and wire are left as the sequential model says, and exactly one
      response is on the wire, or a proper prefix of it when sending fails. */
  method ApiDispatch(wire: Wire, conn: Connection, key: CString, env: Env, req: Request) returns (error: ApiError)
    requires conn.Valid() && CleanRequest(req) && Supplied(env)
    modifies wire, conn
    ensures conn.Valid()
    ensures Does(Dispatch(key, old(conn.Abs()), env, req), conn.Abs(), old(wire.sent), wire.sent, error)
  {
    ghost var o := Dispatch(key, conn.Abs(), env, req);
    var route := RouteOf(req.path);
    var auth := Ok;
    if route != Page && Guarded(req) {
      auth := Auth.AuthCheck(key, req.apiKey);
    }
    if auth != Ok {
      var detail := if auth == Unauthorized then NO_API_KEY else WRONG_API_KEY;
      assert o == Fail(conn.Abs(), auth, detail);
      error := Reject(wire, auth, detail, conn.Abs());
    } else {
      assert o == Handle(conn.Abs(), env, req, route);
      RouteKeyClean(req.path);
      error := DoHandle(wire, conn, env, req, route);
    }
    assert Does(o, conn.Abs(), old(wire.sent), wire.sent, error);
  }

  // ---------- handle_client ----------

  /** The counters that handle_client bumps. */
  class Stats {
    var errors: nat
    var httpErrors: nat
    var httpRequests: nat

    constructor ()
      ensures errors == 0 && httpErrors == 0 && httpRequests == 0
    {
      errors, httpErrors, httpRequests := 0, 0, 0;
    }
  }

  /** The outcome for a connection whose request was read as `r`: the store, the one reply, and what the
      dispatcher returned. */
  function ServeRead(key: string, db: Db, env: Env, r: Parsed): Outcome {
    if r.error != Ok then Fail(db, r.error, Code(r.error)) else Dispatch(key, db, env, r.request)
  }

  lemma CodeClean(e: ApiError)
    ensures NulFree(Code(e))
  {
    CodeIsPlain(e);
  }

  /** How the counters move for a request that was read as `r` and answered with `returned`. */
  twostate predicate Counted(stats: Stats, r: Parsed, returned: ApiError)
    reads stats
  {
    && stats.errors == old(stats.errors) + (if r.error != Ok then 1 else 0)
    && stats.httpRequests == old(stats.httpRequests) + (if r.error == Ok then 1 else 0)
    && stats.httpErrors == old(stats.httpErrors) + (if returned != Ok then 1 else 0)
  }

  /** The part of handle_client after http_read_request returned `r`. */
  method ServeParsed(wire: Wire, conn: Connection, stats: Stats, key: CString, env: Env, r: Parsed)
      returns (returned: ApiError)
    requires conn.Valid() && Supplied(env) && (r.error == Ok ==> CleanRequest(r.request))
    modifies wire, conn, stats
    ensures conn.Valid()
    ensures Does(ServeRead(key, old(conn.Abs()), env, r), conn.Abs(), old(wire.sent), wire.sent, returned)
    ensures Counted(stats, r, returned)
  {
    ghost var o := ServeRead(key, conn.Abs(), env, r);
    if r.error != Ok {
      stats.errors := stats.errors + 1;
      stats.httpErrors := stats.httpErrors + 1;
      CodeClean(r.error);
      assert o == Fail(conn.Abs(), r.error, Code(r.error));
      Report(wire, r.error, Code(r.error));
      returned := r.error;
    } else {
      stats.httpRequests := stats.httpRequests + 1;
      returned := ApiDispatch(wire, conn, key, env, r.request);
      if returned != Ok {
        stats.httpErrors := stats.httpErrors + 1;
      }
    }
    assert Does(o, conn.Abs(), old(wire.sent), wire.sent, returned);
  }

  /** handle_client after the socket's timeouts were set. The request is the one that the stream determines,
      however it was split; when recv fails, 400 may take its place. Store and wire are left as the sequential
      model says. */
  method HandleClient(sock: Socket, wire: Wire, conn: Connection, stats: Stats, key: CString, env: Env)
      returns (ghost r: Parsed, ghost returned: ApiError)
    requires sock.pos == 0 && conn.Valid() && Supplied(env)
    modifies sock, wire, conn, stats
    ensures conn.Valid()
    ensures NeverBreaks(old(sock.script)) ==> ReadsAs(sock.data, MAX_HEADERS, MAX_BODY, r)
    ensures ReadsAs(sock.data, MAX_HEADERS, MAX_BODY, r) || r.error == BadRequest
    ensures Does(ServeRead(key, old(conn.Abs()), env, r), conn.Abs(), old(wire.sent), wire.sent, returned)
    ensures Counted(stats, r, returned)
  {
    var headerBuf, bodyBuf := new char[MAX_HEADERS], new char[MAX_BODY];
    var read := ReadRequest(sock, headerBuf, bodyBuf);
    r := read;
    returned := ServeParsed(wire, conn, stats, key, env, read);
  }

  /** What a client observes depends on the bytes it sent, the store and the environment alone: two connections
      with the same stream leave the same store, and both get a prefix of the same single response, however
      their streams were split and wherever sending stopped. */
  lemma SameStreamSameAnswer(data: string, key: string, db: Db, env: Env, r1: Parsed, r2: Parsed, db1: Db, db2: Db,
                             before: string, after1: string, after2: string, returned1: ApiError, returned2: ApiError)
    requires ReadsAs(data, MAX_HEADERS, MAX_BODY, r1) && ReadsAs(data, MAX_HEADERS, MAX_BODY, r2)
    requires Does(ServeRead(key, db, env, r1), db1, before, after1, returned1)
    requires Does(ServeRead(key, db, env, r2), db2, before, after2, returned2)
    ensures db1 == db2
    ensures var o := ServeRead(key, db, env, r1);
            |o.sent| == 1 && IsPart(before, after1, Bytes(o.sent[0])) && IsPart(before, after2, Bytes(o.sent[0]))
  {
    SplittingDoesNotMatter(data, MAX_HEADERS, MAX_BODY, r1, r2);
    var o := ServeRead(key, db, env, r1);
    assert ServeRead(key, db, env, r2) == o;
    RepliedIsPart(before, after1, o.error, o.sent[0], returned1);
    RepliedIsPart(before, after2, o.error, o.sent[0], returned2);
  }

  lemma AllowListsAreValid()
    ensures ValidType(ALLOW_GET) && ValidType(ALLOW_POST) && ValidType(ALLOW_GET_POST) && ValidType(ALLOW_ITEM)
  {
  }

  /** `text` is one whole response, with the status `status`; a 405 names the allowed methods. */
  ghost predicate OneResponse(text: string, status: nat) {
    exists contentType, body, allow ::
      Tells(text, status, contentType, body, allow) && (status == 405 ==> allow.Some?)
  }

  lemma ServeTruthful(key: string, db: Db, env: Env, r: Parsed)
    ensures ApiFacts.Truthful(ServeRead(key, db, env, r))
  {
    if r.error == Ok {
      ApiFacts.OneTruthfulResponse(key, db, env, r.request);
    }
  }

  /** The first bytes of one response that tells the truth about `returned`; all of it if OK was returned. */
  ghost predicate TellsTruth(before: string, after: string, returned: ApiError) {
    exists text, status ::
      && OneResponse(text, status) && IsPart(before, after, text)
      && (returned == Ok ==> after == before + text && status in {200, 201, 204})
      && (returned != Ok && after == before + text ==> status == Status(returned))
      && (returned != Ok && returned != Internal ==> status == Status(returned))
  }

  lemma TruthOnWire(o: Outcome, db: Db, before: string, after: string, returned: ApiError)
    requires ApiFacts.Truthful(o) && Does(o, db, before, after, returned)
    ensures TellsTruth(before, after, returned)
  {
    var reply := o.sent[0];
    AllowListsAreValid();
    BytesTell(reply);
    assert OneResponse(Bytes(reply), StatusOf(reply));
    RepliedIsPart(before, after, o.error, reply, returned);
    WholeReply(before, after, o.error, reply, returned);
  }

  /** What is on the wire after a connection was served, whatever was read and however sending went: the first bytes
      of exactly one response. Its status line tells the truth: for an error it is the number of that error,
      and that error is returned; for a success it is 200, 201 or 204. If OK is returned, all of it is there. A
      request that could not be read changes nothing, and its own error is returned. */
  lemma TruthfulOnWire(key: string, db: Db, env: Env, r: Parsed, db': Db, before: string, after: string, returned: ApiError)
    requires Does(ServeRead(key, db, env, r), db', before, after, returned)
    ensures TellsTruth(before, after, returned)
    ensures r.error != Ok ==> returned == r.error && db' == db
  {
    ServeTruthful(key, db, env, r);
    TruthOnWire(ServeRead(key, db, env, r), db', before, after, returned);
    if r.error != Ok {
      WholeReply(before, after, r.error, ErrorReply(r.error, Code(r.error)), returned);
    }
  }

  lemma WholeReply(before: string, after: string, error: ApiError, reply: Reply, returned: ApiError)
    requires Replied(before, after, error, reply, returned)
    ensures returned == Ok ==> error == Ok && after == before + Bytes(reply)
    ensures error != Ok ==> returned == error
    ensures error == Ok && returned != Ok ==> returned == Internal && after != before + Bytes(reply)
  {
    var result: int :| WentOut(before, after, Bytes(reply), result) &&
                       returned == if error == Ok && result != 0 then Internal else error;
    if result != 0 {
      var k :| 0 <= k < |Bytes(reply)| && after == before + Bytes(reply)[..k];
      assert |after| < |before + Bytes(reply)|;
    }
  }

  /** `after` is `before` and the first bytes of `text`. */
  ghost predicate IsPart(before: string, after: string, text: string) {
    exists k | 0 <= k <= |text| :: after == before + text[..k]
  }

  lemma RepliedIsPart(before: string, after: string, error: ApiError, reply: Reply, returned: ApiError)
    requires Replied(before, after, error, reply, returned)
    ensures IsPart(before, after, Bytes(reply))
  {
    var result: int :| WentOut(before, after, Bytes(reply), result) &&
                       returned == if error == Ok && result != 0 then Internal else error;
    if result == 0 {
      assert Bytes(reply)[..|Bytes(reply)|] == Bytes(reply);
    }
  }
}
