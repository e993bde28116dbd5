/** What store_note_list selects: the notes in the order of their ids, a page of them, and their number. */
module NotePages {
  import opened CText
  import opened HttpParse
  import opened Store
  import opened Listing

  /** The rows with ids up to n, in ascending order. */
  function RowsUpTo(notes: map<int, Note>, n: nat): seq<NoteRow> {
    if n == 0 then []
    else RowsUpTo(notes, n - 1) + (if n in notes then [NoteRow(n, notes[n])] else [])
  }

  /** SELECT ... ORDER BY id: AUTOINCREMENT ids run from 1 to the counter. */
  function AllRows(db: Db): seq<NoteRow> {
    RowsUpTo(db.notes, db.lastId)
  }

  /** ... LIMIT ? OFFSET ? */
  function PageRows(db: Db, limit: nat, offset: nat): seq<NoteRow> {
    var all := AllRows(db);
    all[Min(offset, |all|)..Min(offset + limit, |all|)]
  }

  /** The ids of the table are those that the counter has given out. */
  ghost predicate IdsInRange(db: Db) {
    forall id | id in db.notes :: 0 < id <= db.lastId
  }

  // ---------- the whole list ----------

  predicate Ascending(rows: seq<NoteRow>) {
    forall i, j | 0 <= i < j < |rows| :: rows[i].id < rows[j].id
  }

  lemma {:induction false} RowsAre(notes: map<int, Note>, n: nat)
    ensures Ascending(RowsUpTo(notes, n))
    ensures forall r | r in RowsUpTo(notes, n) :: 0 < r.id <= n && r.id in notes && r.note == notes[r.id]
    ensures forall id: int | 0 < id <= n && id in notes :: NoteRow(id, notes[id]) in RowsUpTo(notes, n)
  {
    if n > 0 {
      RowsAre(notes, n - 1);
      var before := RowsUpTo(notes, n - 1);
      assert forall i | 0 <= i < |before| :: before[i] in before;
    }
  }

  ghost function IdsUpTo(notes: map<int, Note>, n: nat): set<int> {
    set id | id in notes && 0 < id <= n
  }

  lemma {:induction false} RowsCount(notes: map<int, Note>, n: nat)
    ensures |RowsUpTo(notes, n)| == |IdsUpTo(notes, n)|
  {
    if n == 0 {
      assert IdsUpTo(notes, 0) == {};
    } else {
      RowsCount(notes, n - 1);
      assert IdsUpTo(notes, n) == IdsUpTo(notes, n - 1) + (if n in notes then {n as int} else {});
    }
  }

  /** The list has every note exactly once, in the order of the ids, and COUNT(*) is its length. */
  lemma ListIsComplete(db: Db)
    requires IdsInRange(db)
    ensures Ascending(AllRows(db)) && |AllRows(db)| == |db.notes|
    ensures forall r :: r in AllRows(db) <==> r.id in db.notes && r.note == db.notes[r.id]
  {
    RowsAre(db.notes, db.lastId);
    RowsCount(db.notes, db.lastId);
    assert IdsUpTo(db.notes, db.lastId) == db.notes.Keys;
    forall r: NoteRow | r.id in db.notes && r.note == db.notes[r.id]
      ensures r in AllRows(db)
    {
      assert r == NoteRow(r.id, db.notes[r.id]);
    }
  }

  // ---------- pages ----------

  /** What the first n pages of a client that goes through the list show together. */
  function FirstPages(db: Db, limit: nat, n: nat): seq<NoteRow> {
    if n == 0 then [] else FirstPages(db, limit, n - 1) + PageRows(db, limit, (n - 1) * limit)
  }

  lemma {:induction false} PagesArePrefix(db: Db, limit: nat, n: nat)
    ensures FirstPages(db, limit, n) == AllRows(db)[..Min(n * limit, |AllRows(db)|)]
  {
    var all := AllRows(db);
    if n == 0 {
      assert all[..0] == [];
    } else {
      PagesArePrefix(db, limit, n - 1);
      var offset := (n - 1) * limit;
      OneMore(n, limit);
      NextPage(all, limit, offset);
      assert FirstPages(db, limit, n) == FirstPages(db, limit, n - 1) + PageRows(db, limit, offset);
    }
  }

  lemma OneMore(n: nat, limit: nat)
    requires n > 0
    ensures n * limit == (n - 1) * limit + limit
  {
  }

  lemma NextPage(all: seq<NoteRow>, limit: nat, offset: nat)
    ensures all[..Min(offset, |all|)] + all[Min(offset, |all|)..Min(offset + limit, |all|)] == all[..Min(offset + limit, |all|)]
  {
  }

  /** Successive pages show every note exactly once and in order, once they reach past the total. */
  lemma PagesListEverything(db: Db, limit: nat, n: nat)
    requires IdsInRange(db) && n * limit >= |db.notes|
    ensures FirstPages(db, limit, n) == AllRows(db)
  {
    ListIsComplete(db);
    PagesArePrefix(db, limit, n);
    assert AllRows(db)[..|AllRows(db)|] == AllRows(db);
  }

  const MAX_OFFSET := 1000000

  /** The parameters that the API accepts. */
  predicate Askable(limit: nat, offset: nat) {
    1 <= limit <= MAX_LIST && offset <= MAX_OFFSET
  }

  /** The k-th note can be listed exactly if it is among the first 1000100: beyond that no accepted offset reaches. */
  lemma ListableExactly(db: Db, k: nat)
    requires IdsInRange(db) && k < |AllRows(db)|
    ensures (exists limit: nat, offset: nat | Askable(limit, offset) :: AllRows(db)[k] in PageRows(db, limit, offset))
            <==> k < MAX_OFFSET + MAX_LIST
  {
    var all := AllRows(db);
    if k < MAX_OFFSET + MAX_LIST {
      var offset := if k < MAX_OFFSET then k else MAX_OFFSET;
      assert Askable(MAX_LIST, offset);
      assert PageRows(db, MAX_LIST, offset)[k - offset] == all[k];
    } else if limit: nat, offset: nat :| Askable(limit, offset) && all[k] in PageRows(db, limit, offset) {
      ListIsComplete(db);
      BeyondPage(all, limit, offset, k);
    }
  }

  lemma BeyondPage(all: seq<NoteRow>, limit: nat, offset: nat, k: nat)
    requires Ascending(all) && offset + limit <= k < |all|
    ensures all[k] !in all[Min(offset, |all|)..Min(offset + limit, |all|)]
  {
    var page := all[Min(offset, |all|)..Min(offset + limit, |all|)];
    forall i | 0 <= i < |page|
      ensures page[i].id < all[k].id
    {
      assert page[i] == all[offset + i];
    }
  }

  // ---------- the selection as a loop ----------

  /** The rows that SQLite steps through, and the number of rows in the table. */
  method SelectNotes(conn: Connection, limit: nat, offset: nat) returns (rows: seq<NoteRow>, total: nat)
    requires conn.Valid()
    ensures rows == PageRows(conn.Abs(), limit, offset) && total == |conn.notes|
    ensures NoteRowsClean(rows)
  {
    var all: seq<NoteRow> := [];
    for n := 0 to conn.lastId
      invariant all == RowsUpTo(conn.notes, n)
      invariant NoteRowsClean(all)
    {
      if n + 1 in conn.notes {
        all := all + [NoteRow(n + 1, conn.notes[n + 1])];
      }
    }
    rows := all[Min(offset, |all|)..Min(offset + limit, |all|)];
    total := |conn.notes|;
  }
}
