/** The store of src/store_sqlite.c: each locked call is one step on a map and an id-indexed table. */
module Store {
  import opened CText

  const MAX_KEY := 128
  const MAX_VALUE := 60000
  const MAX_TITLE := 200
  const MAX_NOTE := 8192
  const MAX_LIST := 100

  datatype Note = Note(title: string, body: string, created: int, updated: int)

  /** The two tables; `lastId` is the AUTOINCREMENT counter, ids are never used again. */
  datatype Db = Db(kv: map<string, string>, notes: map<int, Note>, lastId: nat)

  const EMPTY := Db(map[], map[], 0)

  predicate KeyChar(c: char) {
    'A' <= c <= 'Z' || 'a' <= c <= 'z' || '0' <= c <= '9' || c == '.' || c == '_' || c == '-'
  }

  predicate ValidKey(key: string) {
    0 < |key| <= MAX_KEY && forall i | 0 <= i < |key| :: KeyChar(key[i])
  }

  /** store_validate_key */
  method ValidateKey(key: CString) returns (error: ApiError)
    ensures error == if ValidKey(key) then Ok else InvalidKey
  {
    if |key| == 0 {
      return InvalidKey;
    }
    if |key| > MAX_KEY {
      return InvalidKey;
    }
    for i := 0 to |key|
      invariant forall k | 0 <= k < i :: KeyChar(key[k])
    {
      if !KeyChar(key[i]) {
        return InvalidKey;
      }
    }
    return Ok;
  }

  function CheckNote(title: string, body: string): ApiError {
    if |title| == 0 || |title| > MAX_TITLE then BadRequest
    else if |body| > MAX_NOTE then PayloadTooLarge
    else Ok
  }

  // ---------- the operations as steps; `fault` says that SQLite reports an error ----------

  function KvPut(db: Db, fault: bool, key: string, value: string): (ApiError, Db) {
    if !ValidKey(key) then (InvalidKey, db)
    else if |value| > MAX_VALUE then (PayloadTooLarge, db)
    else if fault then (Internal, db)
    else (Ok, db.(kv := db.kv[key := value]))
  }

  function KvGet(db: Db, fault: bool, key: string, cap: nat): (ApiError, string) {
    if cap == 0 then (Internal, "")
    else if !ValidKey(key) then (InvalidKey, "")
    else if fault then (Internal, "")
    else if key !in db.kv then (NotFound, "")
    else if |db.kv[key]| + 1 > cap then (PayloadTooLarge, "")
    else (Ok, db.kv[key])
  }

  function KvDel(db: Db, fault: bool, key: string): (ApiError, Db) {
    if !ValidKey(key) then (InvalidKey, db)
    else if fault then (Internal, db)
    else if key !in db.kv then (NotFound, db)
    else (Ok, db.(kv := db.kv - {key}))
  }

  function NoteCreate(db: Db, fault: bool, now: int, title: string, body: string): (ApiError, Db) {
    if CheckNote(title, body) != Ok then (CheckNote(title, body), db)
    else if fault then (Internal, db)
    else (Ok, db.(notes := db.notes[db.lastId + 1 := Note(title, body, now, now)], lastId := db.lastId + 1))
  }

  function NoteUpdate(db: Db, fault: bool, now: int, id: int, title: string, body: string): (ApiError, Db) {
    if id <= 0 then (InvalidId, db)
    else if CheckNote(title, body) != Ok then (CheckNote(title, body), db)
    else if fault then (Internal, db)
    else if id !in db.notes then (NotFound, db)
    else (Ok, db.(notes := db.notes[id := Note(title, body, db.notes[id].created, now)]))
  }

  function NoteDel(db: Db, fault: bool, id: int): (ApiError, Db) {
    if id <= 0 then (InvalidId, db)
    else if fault then (Internal, db)
    else if id !in db.notes then (NotFound, db)
    else (Ok, db.(notes := db.notes - {id}))
  }

  /** The open database. Each method is what happens between lock and unlock. */
  class Connection {
    var kv: map<string, string>
    var notes: map<int, Note>
    var lastId: nat

    ghost function Abs(): Db
      reads this
    {
      Db(kv, notes, lastId)
    }

    /** Only C strings are ever bound to the statements. */
    ghost predicate Valid()
      reads this
    {
      && (forall k | k in kv :: NulFree(kv[k]))
      && (forall id | id in notes :: NulFree(notes[id].title) && NulFree(notes[id].body))
    }

    constructor ()
      ensures Valid() && Abs() == EMPTY
    {
      kv, notes, lastId := map[], map[], 0;
    }

    method Put(fault: bool, key: CString, value: CString) returns (error: ApiError)
      requires Valid()
      modifies this`kv
      ensures Valid()
      ensures (error, Abs()) == KvPut(old(Abs()), fault, key, value)
    {
      error := ValidateKey(key);
      if error != Ok {
        return;
      }
      if |value| > MAX_VALUE {
        return PayloadTooLarge;
      }
      if fault {
        return Internal;
      }
      kv := kv[key := value];
    }

    method Get(fault: bool, key: CString, out: array<char>) returns (error: ApiError)
      modifies out
      ensures Abs() == old(Abs())
      ensures error == KvGet(Abs(), fault, key, out.Length).0
      ensures error == Ok ==> Holds(out[..], KvGet(Abs(), fault, key, out.Length).1)
    {
      if out.Length == 0 {
        return Internal;
      }
      error := ValidateKey(key);
      if error != Ok {
        return InvalidKey;
      }
      if fault {
        return Internal;
      }
      if key !in kv {
        return NotFound;
      }
      var text := kv[key];
      if |text| + 1 > out.Length {
        return PayloadTooLarge;
      }
      CopyTo(out, 0, text + "\0");
      assert out[..][..|text| + 1] == text + "\0";
    }

    method Del(fault: bool, key: CString) returns (error: ApiError)
      requires Valid()
      modifies this`kv
      ensures Valid()
      ensures (error, Abs()) == KvDel(old(Abs()), fault, key)
    {
      error := ValidateKey(key);
      if error != Ok {
        return InvalidKey;
      }
      if fault {
        return Internal;
      }
      var changes := if key in kv then 1 else 0;
      kv := kv - {key};
      assert key !in old(kv) ==> kv == old(kv);
      return if changes > 0 then Ok else NotFound;
    }

    method CreateNote(fault: bool, now: int, title: CString, body: CString) returns (error: ApiError, id: int)
      requires Valid()
      modifies this`notes, this`lastId
      ensures Valid()
      ensures (error, Abs()) == NoteCreate(old(Abs()), fault, now, title, body)
      ensures error == Ok ==> id == lastId
    {
      id := 0;
      error := CheckNote(title, body);
      if error != Ok {
        return;
      }
      if fault {
        return Internal, id;
      }
      id := lastId + 1;
      lastId := id;
      notes := notes[id := Note(title, body, now, now)];
    }

    method UpdateNote(fault: bool, now: int, id: int, title: CString, body: CString) returns (error: ApiError)
      requires Valid()
      modifies this`notes
      ensures Valid()
      ensures (error, Abs()) == NoteUpdate(old(Abs()), fault, now, id, title, body)
    {
      if id <= 0 {
        return InvalidId;
      }
      error := CheckNote(title, body);
      if error != Ok {
        return;
      }
      if fault {
        return Internal;
      }
      if id !in notes {
        return NotFound;
      }
      notes := notes[id := Note(title, body, notes[id].created, now)];
    }

    method DeleteNote(fault: bool, id: int) returns (error: ApiError)
      requires Valid()
      modifies this`notes
      ensures Valid()
      ensures (error, Abs()) == NoteDel(old(Abs()), fault, id)
    {
      if id <= 0 {
        return InvalidId;
      }
      if fault {
        return Internal;
      }
      var changes := if id in notes then 1 else 0;
      notes := notes - {id};
      assert id !in old(notes) ==> notes == old(notes);
      return if changes > 0 then Ok else NotFound;
    }
  }
}
