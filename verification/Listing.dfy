/** The list texts of store_kv_list and store_note_list, written at an advancing position. */
module Listing {
  import opened CText
  import opened Numbers
  import opened Json
  import opened JsonReply
  import opened Store

  const KEY_BUF := 2 * MAX_KEY + 1
  const VALUE_BUF := MAX_VALUE + 1024
  const TITLE_BUF := 2 * MAX_TITLE + 1
  const NOTE_BUF := 2 * MAX_NOTE + 1

  /** json_escape into a buffer of `cap` bytes succeeds. */
  predicate Escapes(s: string, cap: nat) {
    Escapable(s) && |Escape(s)| + 1 <= cap
  }

  /** A row with the comma that separates it from the one before. */
  function Piece<R>(rows: seq<R>, text: R -> string, k: nat): string
    requires k < |rows|
  {
    if k == 0 then text(rows[k]) else [','] + text(rows[k])
  }

  /** The rows from the k-th on, with commas between them. */
  function Joined<R>(rows: seq<R>, text: R -> string, k: nat): string
    requires k <= |rows|
    decreases |rows| - k
  {
    if k == |rows| then [] else Piece(rows, text, k) + Joined(rows, text, k + 1)
  }

  /** A head and the rows before the k-th: what a loop has written. */
  function Written<R>(head: string, rows: seq<R>, text: R -> string, k: nat): string
    requires k <= |rows|
  {
    if k == 0 then head else Written(head, rows, text, k - 1) + Piece(rows, text, k - 1)
  }

  lemma {:induction false} WrittenAndRest<R>(head: string, rows: seq<R>, text: R -> string, k: nat)
    requires k <= |rows|
    ensures Written(head, rows, text, k) + Joined(rows, text, k) == head + Joined(rows, text, 0)
  {
    if k > 0 {
      WrittenAndRest(head, rows, text, k - 1);
      Shift(Written(head, rows, text, k - 1), Piece(rows, text, k - 1), Joined(rows, text, k), Written(head, rows, text, k),
            Joined(rows, text, k - 1));
    }
  }

  /** A piece moves from the text to come to the text written. */
  lemma Shift(written: string, piece: string, rest: string, written': string, rest': string)
    requires written' == written + piece && rest' == piece + rest
    ensures written' + rest == written + rest'
  {
    Associative(written, piece, rest);
  }

  lemma Associative(a: string, b: string, c: string)
    ensures a + b + c == a + (b + c)
  {
  }

  lemma WrittenAll<R>(head: string, rows: seq<R>, text: R -> string)
    ensures Written(head, rows, text, |rows|) == head + Joined(rows, text, 0)
  {
    WrittenAndRest(head, rows, text, |rows|);
    assert Written(head, rows, text, |rows|) + [] == Written(head, rows, text, |rows|);
  }

  /** What one turn of a listing's loop returns for a row of `n` bytes: it needs room for a comma first if `comma`. */
  function TurnError(escapes: bool, comma: bool, pos: nat, n: nat, cap: nat): ApiError {
    if comma && pos + 1 >= cap then PayloadTooLarge
    else if !escapes then Internal
    else if pos + n >= cap then PayloadTooLarge
    else Ok
  }

  /** What the loop of a listing returns from row k on: it stops at the first row that cannot be escaped or
      does not fit. The note listing looks for room for the comma before it escapes the row. */
  function RowsError<R>(rows: seq<R>, text: R -> string, ok: R -> bool, commaFirst: bool, k: nat, pos: nat, cap: nat): ApiError
    requires k <= |rows|
    decreases |rows| - k
  {
    if k == |rows| then Ok
    else
      var e := TurnError(ok(rows[k]), commaFirst && k > 0, pos, |Piece(rows, text, k)|, cap);
      if e != Ok then e else RowsError(rows, text, ok, commaFirst, k + 1, pos + |Piece(rows, text, k)|, cap)
  }

  /** json_escape into a local buffer of `cap` bytes. */
  method EscapeLocal(text: CString, cap: nat) returns (ok: bool, escaped: string)
    ensures ok == Escapes(text, cap)
    ensures ok ==> escaped == Escape(text)
  {
    var buf := new char[cap];
    var result := JsonEscape(buf, text);
    if result != 0 {
      return false, "";
    }
    EscapeNulFree(text);
    CStrOfCString(Escape(text));
    escaped := Load(buf, Escape(text));
    ok := true;
  }

  lemma {:induction false} EscapeNulFree(s: CString)
    ensures NulFree(Escape(s))
  {
    if s != [] {
      assert s[0] in s && NulFree(s[1..]);
      EscapeNulFree(s[1..]);
    }
  }

  /** snprintf of `text` at `pos`: nothing useful is written unless text and terminator fit. */
  method Append(out: array<char>, pos: nat, text: string) returns (error: ApiError, next: nat)
    requires pos < out.Length
    modifies out
    ensures error == if |text| >= out.Length - pos then PayloadTooLarge else Ok
    ensures error == Ok ==>
              next == pos + |text| < out.Length && out[..next] == old(out[..pos]) + text && out[next] == '\0'
  {
    if |text| >= out.Length - pos {
      return PayloadTooLarge, pos;
    }
    CopyTo(out, pos, text);
    next := pos + |text|;
    ghost var done := out[..next];
    out[next] := '\0';
    assert out[..next] == done;
    error := Ok;
  }

  /** The loop succeeds exactly when every row can be escaped and all of them fit; rows that can be
      escaped only fail for lack of room. */
  lemma {:induction false} RowsSucceed<R>(rows: seq<R>, text: R -> string, ok: R -> bool, commaFirst: bool,
                                          k: nat, pos: nat, cap: nat)
    requires k <= |rows| && pos < cap
    ensures RowsError(rows, text, ok, commaFirst, k, pos, cap) == Ok <==>
            (forall i | k <= i < |rows| :: ok(rows[i])) && pos + |Joined(rows, text, k)| < cap
    ensures (forall i | k <= i < |rows| :: ok(rows[i])) ==>
              RowsError(rows, text, ok, commaFirst, k, pos, cap) != Internal
    ensures RowsError(rows, text, ok, commaFirst, k, pos, cap) in {Ok, Internal, PayloadTooLarge}
    decreases |rows| - k
  {
    if k < |rows| {
      var next := pos + |Piece(rows, text, k)|;
      assert |Joined(rows, text, k)| == |Piece(rows, text, k)| + |Joined(rows, text, k + 1)|;
      assert k > 0 ==> |Piece(rows, text, k)| >= 1;
      if next < cap {
        RowsSucceed(rows, text, ok, commaFirst, k + 1, next, cap);
      }
    }
  }

  /** The text after the rows, with its terminator. */
  method RenderTail(tail: string, pos: nat, ghost body: string, out: array<char>) returns (error: ApiError)
    requires pos == |body| < out.Length && out[..pos] == body
    modifies out
    ensures error == if |body + tail| + 1 <= out.Length then Ok else PayloadTooLarge
    ensures error == Ok ==> Holds(out[..], body + tail)
  {
    if pos + |tail| + 1 > out.Length {
      return PayloadTooLarge;
    }
    CopyTo(out, pos, tail + "\0");
    Associative(body, tail, "\0");
    assert out[..][..|body + tail| + 1] == out[..|body| + |tail + "\0"|];
    return Ok;
  }

  // ---------- key/value rows ----------

  datatype KvRow = KvRow(key: string, value: string)

  predicate KvOk(r: KvRow) {
    Escapes(r.key, KEY_BUF) && Escapes(r.value, VALUE_BUF)
  }

  const KEY_FIELD: CString := "key"
  const VALUE_FIELD: CString := "value"

  function KvText(r: KvRow): string {
    TwoEntries(KEY_FIELD, Escape(r.key), VALUE_FIELD, Escape(r.value))
  }

  const OPENING := "["

  function KvListText(rows: seq<KvRow>): string {
    OPENING + Joined(rows, KvText, 0) + [']']
  }

  predicate AllKvOk(rows: seq<KvRow>) {
    forall i | 0 <= i < |rows| :: KvOk(rows[i])
  }

  /** What store_kv_list returns for these rows and this capacity. */
  function KvListError(rows: seq<KvRow>, cap: nat): ApiError {
    if cap < 3 then Internal
    else if RowsError(rows, KvText, KvOk, false, 0, 1, cap) != Ok then RowsError(rows, KvText, KvOk, false, 0, 1, cap)
    else if |KvListText(rows)| + 1 > cap then PayloadTooLarge
    else Ok
  }

  /** SQLite hands out C strings. */
  predicate KvClean(r: KvRow) {
    NulFree(r.key) && NulFree(r.value)
  }

  predicate KvRowsClean(rows: seq<KvRow>) {
    forall i | 0 <= i < |rows| :: KvClean(rows[i])
  }

  predicate KvFormatOn(text: KvRow -> string, ok: KvRow -> bool, r: KvRow) {
    text(r) == KvText(r) && ok(r) == KvOk(r)
  }

  /** `text` is KvText and `ok` is KvOk. */
  ghost predicate KvFormat(text: KvRow -> string, ok: KvRow -> bool) {
    forall r :: KvFormatOn(text, ok, r)
  }

  /** One turn of the loop of store_kv_list: escape key and value, then write the row after its comma. */
  method RenderKv(ghost text: KvRow -> string, ghost ok: KvRow -> bool, row: KvRow, first: bool, out: array<char>, pos: nat)
      returns (error: ApiError, next: nat)
    requires pos < out.Length && KvClean(row) && KvFormat(text, ok)
    modifies out
    ensures var piece := if first then text(row) else [','] + text(row);
            && error == TurnError(ok(row), false, pos, |piece|, out.Length)
            && (error == Ok ==> next == pos + |piece| && out[..next] == old(out[..pos]) + piece)
  {
    assert KvFormatOn(text, ok, row);
    next := pos;
    var keyOk, key := EscapeLocal(row.key, KEY_BUF);
    if !keyOk {
      return Internal, next;
    }
    var valueOk, value := EscapeLocal(row.value, VALUE_BUF);
    if !valueOk {
      return Internal, next;
    }
    var written := TwoEntries(KEY_FIELD, key, VALUE_FIELD, value);
    error, next := Append(out, pos, if first then written else [','] + written);
  }

  method RenderKvRows(ghost text: KvRow -> string, ghost ok: KvRow -> bool, rows: seq<KvRow>, ghost head: string, start: nat, out: array<char>)
      returns (error: ApiError, pos: nat)
    requires start == |head| < out.Length && out[..start] == head && KvRowsClean(rows) && KvFormat(text, ok)
    modifies out
    ensures error == RowsError(rows, text, ok, false, 0, start, out.Length)
    ensures error == Ok ==>
              && pos == start + |Joined(rows, text, 0)| < out.Length
              && out[..pos] == head + Joined(rows, text, 0)
  {
    pos := start;
    for k := 0 to |rows|
      invariant pos == |Written(head, rows, text, k)| < out.Length
      invariant out[..pos] == Written(head, rows, text, k)
      invariant RowsError(rows, text, ok, false, k, pos, out.Length)
                == RowsError(rows, text, ok, false, 0, start, out.Length)
    {
      ghost var done, piece := out[..pos], Piece(rows, text, k);
      error, pos := RenderKv(text, ok, rows[k], k == 0, out, pos);
      if error != Ok {
        return;
      }
      assert Written(head, rows, text, k + 1) == done + piece;
    }
    WrittenAll(head, rows, text);
    error := Ok;
  }

  /** The rendering loop of store_kv_list over the rows that SQLite returns: all or nothing. */
  method KvList(rows: seq<KvRow>, out: array<char>) returns (error: ApiError)
    requires KvRowsClean(rows)
    modifies out
    ensures error == KvListError(rows, out.Length)
    ensures error == Ok ==> Holds(out[..], KvListText(rows))
  {
    if out.Length < 3 {
      return Internal;
    }
    CopyTo(out, 0, OPENING);
    var pos;
    error, pos := RenderKvRows(KvText, KvOk, rows, OPENING, |OPENING|, out);
    if error == Ok {
      error := RenderTail([']'], pos, OPENING + Joined(rows, KvText, 0), out);
    }
  }

  /** All or nothing: the listing succeeds exactly when all rows can be escaped and the whole text with its
      terminator fits; rows that can be escaped only fail for lack of room. */
  lemma KvListAllOrNothing(rows: seq<KvRow>, cap: nat)
    ensures KvListError(rows, cap) == Ok <==> AllKvOk(rows) && |KvListText(rows)| + 1 <= cap
    ensures AllKvOk(rows) && cap >= 3 && KvListError(rows, cap) != Ok ==> KvListError(rows, cap) == PayloadTooLarge
  {
    assert |KvListText(rows)| == |Joined(rows, KvText, 0)| + 2;
    if cap >= 3 {
      RowsSucceed(rows, KvText, KvOk, false, 0, 1, cap);
    }
  }

  // ---------- note rows ----------

  datatype NoteRow = NoteRow(id: int, note: Note)

  predicate NoteOk(r: NoteRow) {
    Escapes(r.note.title, TITLE_BUF) && Escapes(r.note.body, NOTE_BUF)
  }

  function Quoted(text: string): string {
    ['"'] + (text + ['"'])
  }

  const ID_LABEL := "{\"id\":"
  const TITLE_LABEL := ",\"title\":"
  const BODY_LABEL := ",\"body\":"
  const CREATED_LABEL := ",\"created_at\":"
  const UPDATED_LABEL := ",\"updated_at\":"

  /** The format string of note_row_to_json, from its end. */
  function UpdatedText(n: Note): string {
    UPDATED_LABEL + (SignedDecimal(n.updated) + ['}'])
  }

  function CreatedText(n: Note): string {
    CREATED_LABEL + (SignedDecimal(n.created) + UpdatedText(n))
  }

  function BodyText(n: Note): string {
    BODY_LABEL + (Quoted(Escape(n.body)) + CreatedText(n))
  }

  function TitleText(n: Note): string {
    TITLE_LABEL + (Quoted(Escape(n.title)) + BodyText(n))
  }

  function NoteText(r: NoteRow): string {
    ID_LABEL + (SignedDecimal(r.id) + TitleText(r.note))
  }

  const ITEMS := "{\"items\":["

  const TOTAL_LABEL := "],\"total\":"

  function TotalText(total: int): string {
    TOTAL_LABEL + (SignedDecimal(total) + ['}'])
  }

  function NoteListText(rows: seq<NoteRow>, total: int): string {
    ITEMS + Joined(rows, NoteText, 0) + TotalText(total)
  }

  predicate AllNoteOk(rows: seq<NoteRow>) {
    forall i | 0 <= i < |rows| :: NoteOk(rows[i])
  }

  /** What store_note_list returns for these rows, this total and this capacity. */
  function NoteListError(rows: seq<NoteRow>, total: int, cap: nat): ApiError {
    if cap < 16 then Internal
    else if RowsError(rows, NoteText, NoteOk, true, 0, |ITEMS|, cap) != Ok
         then RowsError(rows, NoteText, NoteOk, true, 0, |ITEMS|, cap)
    else if |NoteListText(rows, total)| + 1 > cap then PayloadTooLarge
    else Ok
  }

  predicate NoteClean(r: NoteRow) {
    NulFree(r.note.title) && NulFree(r.note.body)
  }

  predicate NoteRowsClean(rows: seq<NoteRow>) {
    forall i | 0 <= i < |rows| :: NoteClean(rows[i])
  }

  /** note_row_to_json */
  method RenderNote(row: NoteRow, out: array<char>, pos: nat) returns (error: ApiError, next: nat)
    requires pos < out.Length && NoteClean(row)
    modifies out
    ensures error == if !NoteOk(row) then Internal else if pos + |NoteText(row)| >= out.Length then PayloadTooLarge else Ok
    ensures error == Ok ==>
              next == pos + |NoteText(row)| && out[..next] == old(out[..pos]) + NoteText(row) && out[next] == '\0'
  {
    next := pos;
    var titleOk, title := EscapeLocal(row.note.title, TITLE_BUF);
    if !titleOk {
      return Internal, next;
    }
    var bodyOk, body := EscapeLocal(row.note.body, NOTE_BUF);
    if !bodyOk {
      return Internal, next;
    }
    var times := CREATED_LABEL + (SignedDecimal(row.note.created) + (UPDATED_LABEL + (SignedDecimal(row.note.updated) + ['}'])));
    var text := ID_LABEL + (SignedDecimal(row.id) + (TITLE_LABEL + (Quoted(title) + (BODY_LABEL + (Quoted(body) + times)))));
    error, next := Append(out, pos, text);
  }

  predicate NoteFormatOn(text: NoteRow -> string, ok: NoteRow -> bool, r: NoteRow) {
    text(r) == NoteText(r) && ok(r) == NoteOk(r)
  }

  /** `text` is NoteText and `ok` is NoteOk. */
  ghost predicate NoteFormat(text: NoteRow -> string, ok: NoteRow -> bool) {
    forall r :: NoteFormatOn(text, ok, r)
  }

  /** One turn of the loop of store_note_list: room for the comma is looked for first. */
  method RenderNextNote(ghost text: NoteRow -> string, ghost ok: NoteRow -> bool, row: NoteRow, first: bool, out: array<char>,
                        pos: nat)
      returns (error: ApiError, next: nat)
    requires pos < out.Length && NoteClean(row) && NoteFormat(text, ok)
    modifies out
    ensures var piece := if first then text(row) else [','] + text(row);
            && error == TurnError(ok(row), !first, pos, |piece|, out.Length)
            && (error == Ok ==> next == pos + |piece| && out[..next] == old(out[..pos]) + piece)
  {
    assert NoteFormatOn(text, ok, row);
    next := pos;
    if !first {
      if pos + 1 >= out.Length {
        return PayloadTooLarge, next;
      }
      CopyTo(out, pos, [',']);
      next := pos + 1;
    }
    error, next := RenderNote(row, out, next);
    if error == Ok && !first {
      Associative(old(out[..pos]), [','], text(row));
    }
  }

  method RenderNoteRows(ghost text: NoteRow -> string, ghost ok: NoteRow -> bool, rows: seq<NoteRow>, ghost head: string, start: nat, out: array<char>)
      returns (error: ApiError, pos: nat)
    requires start == |head| < out.Length && out[..start] == head && NoteRowsClean(rows) && NoteFormat(text, ok)
    modifies out
    ensures error == RowsError(rows, text, ok, true, 0, start, out.Length)
    ensures error == Ok ==>
              && pos == start + |Joined(rows, text, 0)| < out.Length
              && out[..pos] == head + Joined(rows, text, 0)
  {
    pos := start;
    for k := 0 to |rows|
      invariant pos == |Written(head, rows, text, k)| < out.Length
      invariant out[..pos] == Written(head, rows, text, k)
      invariant RowsError(rows, text, ok, true, k, pos, out.Length)
                == RowsError(rows, text, ok, true, 0, start, out.Length)
    {
      ghost var done, piece := out[..pos], Piece(rows, text, k);
      error, pos := RenderNextNote(text, ok, rows[k], k == 0, out, pos);
      if error != Ok {
        return;
      }
      assert Written(head, rows, text, k + 1) == done + piece;
    }
    WrittenAll(head, rows, text);
    error := Ok;
  }

  method NoteList(rows: seq<NoteRow>, total: int, out: array<char>) returns (error: ApiError)
    requires NoteRowsClean(rows)
    modifies out
    ensures error == NoteListError(rows, total, out.Length)
    ensures error == Ok ==> Holds(out[..], NoteListText(rows, total))
  {
    assert |ITEMS| == 10;
    if out.Length < 16 {
      return Internal;
    }
    CopyTo(out, 0, ITEMS);
    var pos;
    error, pos := RenderNoteRows(NoteText, NoteOk, rows, ITEMS, |ITEMS|, out);
    if error == Ok {
      error := RenderTail(TotalText(total), pos, ITEMS + Joined(rows, NoteText, 0), out);
    }
  }

  lemma NoteListLength(rows: seq<NoteRow>, total: int)
    ensures |NoteListText(rows, total)| == |ITEMS| + |Joined(rows, NoteText, 0)| + |TotalText(total)|
    ensures |ITEMS| == 10 && |TotalText(total)| > 10
  {
  }

  lemma NoteListAllOrNothing(rows: seq<NoteRow>, total: int, cap: nat)
    ensures NoteListError(rows, total, cap) == Ok <==> AllNoteOk(rows) && |NoteListText(rows, total)| + 1 <= cap
    ensures AllNoteOk(rows) && cap >= 16 && NoteListError(rows, total, cap) != Ok ==>
              NoteListError(rows, total, cap) == PayloadTooLarge
  {
    NoteListLength(rows, total);
    if cap >= 16 {
      RowsSucceed(rows, NoteText, NoteOk, true, 0, |ITEMS|, cap);
    }
  }

  // ---------- list texts are C strings ----------

  lemma DecimalNulFree(n: int)
    ensures NulFree(SignedDecimal(n))
  {
  }

  lemma KvTextNulFree(r: KvRow)
    requires KvClean(r)
    ensures NulFree(KvText(r))
  {
    EscapeNulFree(r.key);
    EscapeNulFree(r.value);
  }

  lemma NoteTextNulFree(r: NoteRow)
    requires NoteClean(r)
    ensures NulFree(NoteText(r))
  {
    EscapeNulFree(r.note.title);
    EscapeNulFree(r.note.body);
    DecimalNulFree(r.id);
    DecimalNulFree(r.note.created);
    DecimalNulFree(r.note.updated);
    assert NulFree(CreatedText(r.note));
    assert NulFree(BodyText(r.note));
    assert NulFree(TitleText(r.note));
  }

  lemma {:induction false} JoinedNulFree<R>(rows: seq<R>, text: R -> string, k: nat)
    requires k <= |rows| && forall i | 0 <= i < |rows| :: NulFree(text(rows[i]))
    ensures NulFree(Joined(rows, text, k))
    decreases |rows| - k
  {
    if k < |rows| {
      JoinedNulFree(rows, text, k + 1);
    }
  }

  lemma KvListNulFree(rows: seq<KvRow>)
    requires KvRowsClean(rows)
    ensures NulFree(KvListText(rows))
  {
    forall i | 0 <= i < |rows|
      ensures NulFree(KvText(rows[i]))
    {
      KvTextNulFree(rows[i]);
    }
    JoinedNulFree(rows, KvText, 0);
  }

  lemma NoteListNulFree(rows: seq<NoteRow>, total: int)
    requires NoteRowsClean(rows)
    ensures NulFree(NoteListText(rows, total))
  {
    forall i | 0 <= i < |rows|
      ensures NulFree(NoteText(rows[i]))
    {
      NoteTextNulFree(rows[i]);
    }
    JoinedNulFree(rows, NoteText, 0);
    DecimalNulFree(total);
    assert NulFree(TotalText(total));
  }

  // ---------- different lists never have the same text ----------

  /** A row's text shows where it ends and which row it is. */
  ghost predicate SelfDelimiting<R(!new)>(text: R -> string) {
    forall r, s, x, y {:trigger text(r) + x, text(s) + y} :: text(r) + x == text(s) + y ==> r == s && x == y
  }

  ghost predicate Opens<R(!new)>(text: R -> string) {
    forall r :: text(r) != [] && text(r)[0] == '{'
  }

  lemma PieceStrips<R(!new)>(rs: seq<R>, ss: seq<R>, text: R -> string, k: nat, x: string, y: string)
    requires SelfDelimiting(text) && k < |rs| && k < |ss|
    requires Piece(rs, text, k) + x == Piece(ss, text, k) + y
    ensures rs[k] == ss[k] && x == y
  {
    if k > 0 {
      Associative([','], text(rs[k]), x);
      Associative([','], text(ss[k]), y);
      assert ([','] + (text(rs[k]) + x))[1..] == text(rs[k]) + x;
      assert ([','] + (text(ss[k]) + y))[1..] == text(ss[k]) + y;
    }
    assert text(rs[k]) + x == text(ss[k]) + y;
  }

  /** The first byte tells whether there is another row. */
  lemma JoinedStarts<R(!new)>(rs: seq<R>, text: R -> string, k: nat, x: string)
    requires Opens(text) && k <= |rs| && x != [] && x[0] == ']'
    ensures Joined(rs, text, k) + x != [] && ((Joined(rs, text, k) + x)[0] == ']' <==> k == |rs|)
  {
    if k < |rs| {
      assert Piece(rs, text, k)[0] == '{' || Piece(rs, text, k)[0] == ',';
    }
  }

  lemma {:induction false} JoinedInjective<R(!new)>(rs: seq<R>, ss: seq<R>, text: R -> string, k: nat, x: string, y: string)
    requires SelfDelimiting(text) && Opens(text) && k <= |rs| && k <= |ss|
    requires x != [] && x[0] == ']' && y != [] && y[0] == ']'
    requires Joined(rs, text, k) + x == Joined(ss, text, k) + y
    ensures rs[k..] == ss[k..] && x == y
    decreases |rs| - k
  {
    JoinedStarts(rs, text, k, x);
    JoinedStarts(ss, text, k, y);
    if k == |rs| {
      assert [] + x == x && [] + y == y;
    } else {
      Associative(Piece(rs, text, k), Joined(rs, text, k + 1), x);
      Associative(Piece(ss, text, k), Joined(ss, text, k + 1), y);
      PieceStrips(rs, ss, text, k, Joined(rs, text, k + 1) + x, Joined(ss, text, k + 1) + y);
      JoinedInjective(rs, ss, text, k + 1, x, y);
    }
  }

  /** Two quoted texts at the same place are the same string. */
  lemma QuotesAgree(u: string, p: nat, s: string, t: string)
    requires At(u, p, Quoted(Escape(s))) && At(u, p, Quoted(Escape(t)))
    ensures s == t
  {
    QuotedRoundTrip(u, p, s, |s| + |t| + 1);
    QuotedRoundTrip(u, p, t, |s| + |t| + 1);
  }

  /** Two numbers at the same place, each followed by no digit, are the same number. */
  lemma NumbersAgree(u: string, p: nat, a: nat, b: nat)
    requires At(u, p, Decimal(a)) && At(u, p, Decimal(b))
    requires p + |Decimal(a)| < |u| && !IsDigit(u[p + |Decimal(a)|])
    requires p + |Decimal(b)| < |u| && !IsDigit(u[p + |Decimal(b)|])
    ensures a == b
  {
    ReadingDecimal(u, p, a);
    ReadingDecimal(u, p, b);
    DigitsEndIs(u, p, p + |Decimal(a)|);
    DigitsEndIs(u, p, p + |Decimal(b)|);
  }

  lemma SignedAgree(u: string, p: nat, a: int, b: int)
    requires At(u, p, SignedDecimal(a)) && At(u, p, SignedDecimal(b))
    requires p + |SignedDecimal(a)| < |u| && !IsDigit(u[p + |SignedDecimal(a)|])
    requires p + |SignedDecimal(b)| < |u| && !IsDigit(u[p + |SignedDecimal(b)|])
    ensures a == b
  {
    assert u[p + 0] == SignedDecimal(a)[0] && u[p + 0] == SignedDecimal(b)[0];
    if a < 0 {
      AtHead(u, p, '-', Decimal(-a));
      AtHead(u, p, '-', Decimal(-b));
      NumbersAgree(u, p + 1, -a, -b);
    } else {
      NumbersAgree(u, p, a, b);
    }
  }

  lemma EntriesLayout(u: string, name1: string, t1: string, name2: string, t2: string, x: string)
      returns (p1: nat, p2: nat, end: nat)
    requires u == TwoEntries(name1, t1, name2, t2) + x
    ensures p1 == |name1| + 4 && At(u, p1, Quoted(t1))
    ensures p2 == p1 + |t1| + |name2| + 6 && At(u, p2, Quoted(t2))
    ensures end == p2 + |t2| + 3 && end <= |u| && u[end..] == x
  {
    p1, p2, end := |name1| + 4, |name1| + |t1| + |name2| + 10, |name1| + |t1| + |name2| + |t2| + 13;
  }

  lemma KvDelimits(r: KvRow, s: KvRow, x: string, y: string)
    requires KvText(r) + x == KvText(s) + y
    ensures r == s && x == y
  {
    var u := KvText(r) + x;
    var p1, p2, end := EntriesLayout(u, KEY_FIELD, Escape(r.key), VALUE_FIELD, Escape(r.value), x);
    var q1, q2, end' := EntriesLayout(u, KEY_FIELD, Escape(s.key), VALUE_FIELD, Escape(s.value), y);
    QuotesAgree(u, p1, r.key, s.key);
    QuotesAgree(u, p2, r.value, s.value);
  }

  /** Key/value lists with different rows have different texts. */
  lemma KvListInjective(rs: seq<KvRow>, ss: seq<KvRow>)
    requires KvListText(rs) == KvListText(ss)
    ensures rs == ss
  {
    forall r, s, x, y | KvText(r) + x == KvText(s) + y
      ensures r == s && x == y
    {
      KvDelimits(r, s, x, y);
    }
    StripHead(OPENING, Joined(rs, KvText, 0), [']'], Joined(ss, KvText, 0), [']']);
    JoinedInjective(rs, ss, KvText, 0, [']'], [']']);
    assert rs[0..] == rs && ss[0..] == ss;
  }

  predicate EndsNumber(s: string) {
    s != [] && !IsDigit(s[0])
  }

  lemma NumberPeels(a: int, s: string, b: int, t: string)
    requires SignedDecimal(a) + s == SignedDecimal(b) + t && EndsNumber(s) && EndsNumber(t)
    ensures a == b && s == t
  {
    var u := SignedDecimal(a) + s;
    assert At(u, 0, SignedDecimal(a)) && At(u, 0, SignedDecimal(b));
    assert u[|SignedDecimal(a)|] == s[0] && u[|SignedDecimal(b)|] == t[0];
    SignedAgree(u, 0, a, b);
    assert u[|SignedDecimal(a)|..] == s && u[|SignedDecimal(b)|..] == t;
  }

  lemma QuotePeels(a: string, s: string, b: string, t: string)
    requires Quoted(Escape(a)) + s == Quoted(Escape(b)) + t
    ensures a == b && s == t
  {
    var u := Quoted(Escape(a)) + s;
    assert At(u, 0, Quoted(Escape(a))) && At(u, 0, Quoted(Escape(b)));
    QuotesAgree(u, 0, a, b);
    assert u[|Quoted(Escape(a))|..] == s && u[|Quoted(Escape(b))|..] == t;
  }

  /** A labelled number, what follows it in the row, and what follows the row. */
  lemma NumberField(l: string, a: int, ra: string, x: string, b: int, rb: string, y: string)
    requires (l + (SignedDecimal(a) + ra)) + x == (l + (SignedDecimal(b) + rb)) + y
    requires EndsNumber(ra) && EndsNumber(rb)
    ensures a == b && ra + x == rb + y
  {
    StripHead(l, SignedDecimal(a) + ra, x, SignedDecimal(b) + rb, y);
    Associative(SignedDecimal(a), ra, x);
    Associative(SignedDecimal(b), rb, y);
    NumberPeels(a, ra + x, b, rb + y);
  }

  lemma QuoteField(l: string, a: string, ra: string, x: string, b: string, rb: string, y: string)
    requires (l + (Quoted(Escape(a)) + ra)) + x == (l + (Quoted(Escape(b)) + rb)) + y
    ensures a == b && ra + x == rb + y
  {
    StripHead(l, Quoted(Escape(a)) + ra, x, Quoted(Escape(b)) + rb, y);
    Associative(Quoted(Escape(a)), ra, x);
    Associative(Quoted(Escape(b)), rb, y);
    QuotePeels(a, ra + x, b, rb + y);
  }

  lemma LabelsEndNumbers(n: Note)
    ensures EndsNumber(UpdatedText(n)) && EndsNumber(TitleText(n)) && EndsNumber(['}'])
  {
    assert UPDATED_LABEL[0] == ',' && TITLE_LABEL[0] == ',';
  }

  lemma CreatedDelimits(n: Note, m: Note, x: string, y: string)
    requires CreatedText(n) + x == CreatedText(m) + y
    ensures n.created == m.created && n.updated == m.updated && x == y
  {
    LabelsEndNumbers(n);
    LabelsEndNumbers(m);
    NumberField(CREATED_LABEL, n.created, UpdatedText(n), x, m.created, UpdatedText(m), y);
    NumberField(UPDATED_LABEL, n.updated, ['}'], x, m.updated, ['}'], y);
    assert (['}'] + x)[1..] == x && (['}'] + y)[1..] == y;
  }

  lemma TitleDelimits(n: Note, m: Note, x: string, y: string)
    requires TitleText(n) + x == TitleText(m) + y
    ensures n == m && x == y
  {
    QuoteField(TITLE_LABEL, n.title, BodyText(n), x, m.title, BodyText(m), y);
    QuoteField(BODY_LABEL, n.body, CreatedText(n), x, m.body, CreatedText(m), y);
    CreatedDelimits(n, m, x, y);
  }

  lemma NoteDelimits(r: NoteRow, s: NoteRow, x: string, y: string)
    requires NoteText(r) + x == NoteText(s) + y
    ensures r == s && x == y
  {
    LabelsEndNumbers(r.note);
    LabelsEndNumbers(s.note);
    NumberField(ID_LABEL, r.id, TitleText(r.note), x, s.id, TitleText(s.note), y);
    TitleDelimits(r.note, s.note, x, y);
  }

  lemma NoteTextOpens(r: NoteRow)
    ensures NoteText(r) != [] && NoteText(r)[0] == '{'
  {
  }

  lemma TotalAgrees(a: int, b: int)
    requires TotalText(a) == TotalText(b)
    ensures a == b
  {
    assert TotalText(a) + [] == TotalText(a) && TotalText(b) + [] == TotalText(b);
    NumberField(TOTAL_LABEL, a, ['}'], [], b, ['}'], []);
  }

  /** Note lists with different rows or totals have different texts. */
  lemma NoteListInjective(rs: seq<NoteRow>, ss: seq<NoteRow>, a: int, b: int)
    requires NoteListText(rs, a) == NoteListText(ss, b)
    ensures rs == ss && a == b
  {
    forall r, s, x, y | NoteText(r) + x == NoteText(s) + y
      ensures r == s && x == y
    {
      NoteDelimits(r, s, x, y);
    }
    forall r: NoteRow
      ensures NoteText(r) != [] && NoteText(r)[0] == '{'
    {
      NoteTextOpens(r);
    }
    StripHead(ITEMS, Joined(rs, NoteText, 0), TotalText(a), Joined(ss, NoteText, 0), TotalText(b));
    JoinedInjective(rs, ss, NoteText, 0, TotalText(a), TotalText(b));
    assert rs[0..] == rs && ss[0..] == ss;
    TotalAgrees(a, b);
  }

  lemma StripHead(head: string, a: string, x: string, b: string, y: string)
    requires head + a + x == head + b + y
    ensures a + x == b + y
  {
    Associative(head, a, x);
    Associative(head, b, y);
    assert (head + (a + x))[|head|..] == a + x;
    assert (head + (b + y))[|head|..] == b + y;
  }
}
