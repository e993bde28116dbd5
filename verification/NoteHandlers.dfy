/** The note handlers of src/api.c as code, over store_note_get and the other note calls. */
module NoteHandlers {
  import opened CText
  import opened HttpParse
  import opened HttpSend
  import opened Store
  import opened Listing
  import opened NotePages
  import opened Api
  import opened Handlers

  /** store_note_get: the note's text in the buffer, or why not. */
  method ReadNote(conn: Connection, fault: bool, id: int, out: array<char>) returns (error: ApiError)
    requires conn.Valid() && out.Length == NOTE_CAP
    modifies out
    ensures error == NoteGet(conn.Abs(), fault, id).0
    ensures error == Ok ==> id in conn.notes && Holds(out[..], NoteText(NoteRow(id, conn.notes[id])))
  {
    if id <= 0 {
      return InvalidId;
    }
    if fault {
      return Internal;
    }
    if id !in conn.notes {
      return NotFound;
    }
    var row := NoteRow(id, conn.notes[id]);
    var pos;
    error, pos := RenderNote(row, out, 0);
    if error == Ok {
      assert out[..][..pos + 1] == out[..pos] + [out[pos]];
    }
  }

  /** Read the note again and hand out its text. */
  method FetchNote(conn: Connection, fault: bool, id: int) returns (error: ApiError, text: string)
    requires conn.Valid()
    ensures (error, text) == NoteGet(conn.Abs(), fault, id)
    ensures |text| < NOTE_CAP
  {
    var out := new char[NOTE_CAP];
    error := ReadNote(conn, fault, id, out);
    if error != Ok {
      return error, "";
    }
    ghost var row := NoteRow(id, conn.notes[id]);
    NoteTextNulFree(row);
    CStrOfCString(NoteText(row));
    text := Load(out, NoteText(row));
  }

  method DoNoteGet(wire: Wire, conn: Connection, fault: bool, id: int) returns (error: ApiError)
    requires conn.Valid()
    modifies wire
    ensures Does(HandleNoteGet(conn.Abs(), fault, id), conn.Abs(), old(wire.sent), wire.sent, error)
  {
    var got, text := FetchNote(conn, fault, id);
    if got != Ok {
      Report(wire, got, if got == NotFound then NO_SUCH_NOTE else BAD_ID);
      return got;
    }
    error := Send(wire, 200, text);
  }

  /** The reply to a creation, after the row was written or not. */
  function CreateReply(created: ApiError, got: ApiError, text: string): (ApiError, Reply) {
    if created != Ok then
      (created, ErrorReply(created, if created == PayloadTooLarge then NOTE_LIMITS
                                    else if created == BadRequest then TITLE_LIMITS else NO_WRITE))
    else if got != Ok then (got, ErrorReply(got, NO_REREAD))
    else (Ok, JsonReply(201, text))
  }

  lemma CreateNoteIs(db: Db, db': Db, env: Env, title: string, body: string, created: ApiError, got: ApiError, text: string)
    requires (created, db') == NoteCreate(db, env.fault, env.now, title, body)
    requires created == Ok ==> (got, text) == NoteGet(db', env.laterFault, db'.lastId)
    ensures var (e, reply) := CreateReply(created, got, text);
            CreateNote(db, env, title, body) == Outcome(e, db', [reply])
  {
  }

  method AnswerCreate(wire: Wire, created: ApiError, got: ApiError, text: string) returns (error: ApiError)
    requires |text| < NOTE_CAP
    modifies wire
    ensures var (e, reply) := CreateReply(created, got, text); Replied(old(wire.sent), wire.sent, e, reply, error)
  {
    if created != Ok {
      Report(wire, created, if created == PayloadTooLarge then NOTE_LIMITS
                            else if created == BadRequest then TITLE_LIMITS else NO_WRITE);
      return created;
    }
    if got != Ok {
      Report(wire, got, NO_REREAD);
      return got;
    }
    error := Send(wire, 201, text);
  }

  /** Two store calls: the row is created, then read again. */
  method CreateAndSend(wire: Wire, conn: Connection, env: Env, title: CString, body: CString) returns (error: ApiError)
    requires conn.Valid()
    modifies wire, conn
    ensures conn.Valid()
    ensures Does(CreateNote(old(conn.Abs()), env, title, body), conn.Abs(), old(wire.sent), wire.sent, error)
  {
    ghost var db := conn.Abs();
    var created, id := conn.CreateNote(env.fault, env.now, title, body);
    var got, text := Ok, "";
    if created == Ok {
      got, text := FetchNote(conn, env.laterFault, id);
    }
    CreateNoteIs(db, conn.Abs(), env, title, body, created, got, text);
    error := AnswerCreate(wire, created, got, text);
  }

  method DoNoteCreate(wire: Wire, conn: Connection, env: Env, req: Request) returns (error: ApiError)
    requires conn.Valid() && CleanRequest(req)
    modifies wire, conn
    ensures conn.Valid()
    ensures Does(HandleNoteCreate(old(conn.Abs()), env, req), conn.Abs(), old(wire.sent), wire.sent, error)
  {
    error := CheckJson(req);
    if error != Ok {
      Report(wire, error, NEED_NOTE);
      return;
    }
    var title := TakeField(req, TITLE_FIELD, MAX_TITLE + 1);
    if title.Failed? {
      Report(wire, title.error, if title.error == MissingField then NO_TITLE else BAD_JSON);
      return title.error;
    }
    var body := TakeField(req, BODY_FIELD, MAX_NOTE + 1);
    if body.Failed? {
      Report(wire, body.error, if body.error == MissingField then NO_BODY else BAD_JSON);
      return body.error;
    }
    error := CreateAndSend(wire, conn, env, title.value, body.value);
  }

  method UpdateAndSend(wire: Wire, conn: Connection, env: Env, id: int, title: CString, body: CString) returns (error: ApiError)
    requires conn.Valid()
    modifies wire, conn
    ensures conn.Valid()
    ensures Does(UpdateNote(old(conn.Abs()), env, id, title, body), conn.Abs(), old(wire.sent), wire.sent, error)
  {
    var updated := conn.UpdateNote(env.fault, env.now, id, title, body);
    if updated != Ok {
      Report(wire, updated, if updated == NotFound then NO_SUCH_NOTE else BAD_FIELDS);
      return updated;
    }
    error := DoNoteGet(wire, conn, env.laterFault, id);
  }

  method DoNoteUpdate(wire: Wire, conn: Connection, env: Env, req: Request, id: int) returns (error: ApiError)
    requires conn.Valid() && CleanRequest(req)
    modifies wire, conn
    ensures conn.Valid()
    ensures Does(HandleNoteUpdate(old(conn.Abs()), env, req, id), conn.Abs(), old(wire.sent), wire.sent, error)
  {
    error := CheckJson(req);
    if error != Ok {
      Report(wire, error, NEED_NOTE);
      return;
    }
    var title := TakeField(req, TITLE_FIELD, MAX_TITLE + 1);
    if title.Failed? {
      Report(wire, BadRequest, NO_FIELDS);
      return BadRequest;
    }
    var body := TakeField(req, BODY_FIELD, MAX_NOTE + 1);
    if body.Failed? {
      Report(wire, BadRequest, NO_FIELDS);
      return BadRequest;
    }
    error := UpdateAndSend(wire, conn, env, id, title.value, body.value);
  }

  method DoNoteDel(wire: Wire, conn: Connection, env: Env, id: int) returns (error: ApiError)
    requires conn.Valid()
    modifies wire, conn
    ensures conn.Valid()
    ensures Does(HandleNoteDel(old(conn.Abs()), env, id), conn.Abs(), old(wire.sent), wire.sent, error)
  {
    error := conn.DeleteNote(env.fault, id);
    if error != Ok {
      Report(wire, error, if error == NotFound then NO_SUCH_NOTE else BAD_ID);
      return;
    }
    error := SendNoContent(wire);
  }

  method DoNoteList(wire: Wire, conn: Connection, env: Env, req: Request) returns (error: ApiError)
    requires conn.Valid() && CleanRequest(req)
    modifies wire
    ensures Does(HandleNoteList(conn.Abs(), env, req), conn.Abs(), old(wire.sent), wire.sent, error)
  {
    var limit := ReadLimit(req.query);
    var offset := ReadOffset(req.query);
    if limit.Bad? || offset.Bad? {
      Report(wire, InvalidQuery, BAD_PAGE);
      return InvalidQuery;
    }
    error := ShowNotePage(wire, conn, env.fault, limit.n, offset.n);
  }

  method ShowNotePage(wire: Wire, conn: Connection, fault: bool, limit: nat, offset: nat) returns (error: ApiError)
    requires conn.Valid()
    modifies wire
    ensures var (e, reply) := NotePageReply(conn.Abs(), fault, limit, offset);
            Replied(old(wire.sent), wire.sent, e, reply, error)
  {
    var rows, total := SelectNotes(conn, limit, offset);
    var body := new char[MAX_BODY];
    var listed := Internal;
    if !fault {
      listed := NoteList(rows, total, body);
    }
    if listed != Ok {
      Report(wire, listed, NO_LIST);
      return listed;
    }
    NoteListNulFree(rows, total);
    CStrOfCString(NoteListText(rows, total));
    var text := Load(body, NoteListText(rows, total));
    error := Send(wire, 200, text);
  }

  method DoNoteCollection(wire: Wire, conn: Connection, env: Env, req: Request) returns (error: ApiError)
    requires conn.Valid() && CleanRequest(req)
    modifies wire, conn
    ensures conn.Valid()
    ensures Does(NoteCollection(old(conn.Abs()), env, req), conn.Abs(), old(wire.sent), wire.sent, error)
  {
    match req.verb {
      case Post => error := DoNoteCreate(wire, conn, env, req);
      case Get => error := DoNoteList(wire, conn, env, req);
      case _ =>
        SendRefusal(wire, ALLOW_GET_POST);
        error := MethodNotAllowed;
    }
  }

  method DoNoteItem(wire: Wire, conn: Connection, env: Env, req: Request, id: int) returns (error: ApiError)
    requires conn.Valid() && CleanRequest(req)
    modifies wire, conn
    ensures conn.Valid()
    ensures Does(NoteItem(old(conn.Abs()), env, req, id), conn.Abs(), old(wire.sent), wire.sent, error)
  {
    match req.verb {
      case Get => error := DoNoteGet(wire, conn, env.fault, id);
      case Put => error := DoNoteUpdate(wire, conn, env, req, id);
      case Delete => error := DoNoteDel(wire, conn, env, id);
      case _ =>
        SendRefusal(wire, ALLOW_ITEM);
        error := MethodNotAllowed;
    }
  }
}
