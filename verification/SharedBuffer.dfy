/** The list and note handlers keep their texts in static buffers that all workers share. What concurrent requests
    do to each other's replies, and for which configurations every reply is right. */
module SharedBuffer {
  import opened CText
  import opened Numbers
  import opened Json
  import opened Store
  import opened Listing

  /** A worker in such a handler. `own` is the text that its store call wrote, `size` what strlen measured, `sent` the
      body bytes sent so far. `clean`: no other worker has begun to write since this one was done writing. */
  datatype Phase =
    | Outside
    | Writing
    | Written(own: string, clean: bool)
    | Sending(own: string, size: nat, sent: string, clean: bool)

  /** A finished reply: Content-Length and body. */
  datatype Reply = Reply(own: string, size: nat, body: string, clean: bool)

  /** The worker that holds the store's mutex, its text, and how many bytes of it are in the buffer. */
  datatype Writer = Writer(worker: nat, text: string, done: nat)

  datatype State = State(buf: seq<char>, writer: Option<Writer>, workers: seq<Phase>, replies: seq<Reply>)

  datatype Step =
    | Lock(worker: nat, text: string)  // the store call gets the mutex and has found its text
    | Write(worker: nat)               // one byte of snprintf
    | Unlock(worker: nat)              // the terminator, and the mutex is free
    | Measure(worker: nat)             // strlen without the mutex, and the response header
    | Chunk(worker: nat, count: nat)   // one send call of the body, without the mutex
    | Finish(worker: nat)

  /** A static buffer starts with zeros. */
  function Start(cap: nat, threads: nat): State {
    State(seq(cap, i => '\0'), None, seq(threads, i => Outside), [])
  }

  predicate Holder(s: State, i: nat) {
    s.writer.Some? && s.writer.value.worker == i
  }

  predicate Enabled(s: State, step: Step) {
    && step.worker < |s.workers|
    && var w := s.workers[step.worker];
       match step
       case Lock(_, text) => w.Outside? && s.writer.None? && NulFree(text) && |text| < |s.buf|
       case Write(i) => Holder(s, i) && s.writer.value.done < |s.writer.value.text| < |s.buf|
       case Unlock(i) => Holder(s, i) && s.writer.value.done == |s.writer.value.text| < |s.buf|
       case Measure(_) => w.Written?
       case Chunk(_, n) => w.Sending? && 0 < n && |w.sent| + n <= w.size <= |s.buf|
       case Finish(_) => w.Sending? && |w.sent| == w.size
  }

  /** What another worker's writing does to a worker. */
  function Disturbed(w: Phase): Phase {
    match w
    case Written(own, _) => Written(own, false)
    case Sending(own, size, sent, _) => Sending(own, size, sent, false)
    case _ => w
  }

  function DisturbAll(workers: seq<Phase>): (ws: seq<Phase>)
    ensures |ws| == |workers| && forall i | 0 <= i < |workers| :: ws[i] == Disturbed(workers[i])
  {
    seq(|workers|, i requires 0 <= i < |workers| => Disturbed(workers[i]))
  }

  function Apply(s: State, step: Step): State
    requires Enabled(s, step)
  {
    var i := step.worker;
    var w := s.workers[i];
    match step
    case Lock(_, text) =>
      s.(writer := Some(Writer(i, text, 0)), workers := DisturbAll(s.workers)[i := Writing])
    case Write(_) =>
      var v := s.writer.value;
      s.(buf := s.buf[v.done := v.text[v.done]], writer := Some(v.(done := v.done + 1)))
    case Unlock(_) =>
      var v := s.writer.value;
      s.(buf := s.buf[v.done := '\0'], writer := None, workers := s.workers[i := Written(v.text, true)])
    case Measure(_) =>
      s.(workers := s.workers[i := Sending(w.own, |CStr(s.buf)|, [], w.clean)])
    case Chunk(_, n) =>
      s.(workers := s.workers[i := w.(sent := w.sent + s.buf[|w.sent|..|w.sent| + n])])
    case Finish(_) =>
      s.(workers := s.workers[i := Outside], replies := s.replies + [Reply(w.own, w.size, w.sent, w.clean)])
  }

  predicate Possible(s: State, run: seq<Step>)
    decreases |run|
  {
    run == [] || (Enabled(s, run[0]) && Possible(Apply(s, run[0]), run[1..]))
  }

  function After(s: State, run: seq<Step>): State
    requires Possible(s, run)
    decreases |run|
  {
    if run == [] then s else After(Apply(s, run[0]), run[1..])
  }

  // ---------- what every interleaving keeps ----------

  /** No text reaches the last byte of the buffer, so strlen always stops inside it. */
  predicate Terminated(buf: seq<char>) {
    |buf| > 0 ==> buf[|buf| - 1] == '\0'
  }

  predicate WriterOk(s: State) {
    s.writer.Some? ==>
      var v := s.writer.value;
      && v.worker < |s.workers| && s.workers[v.worker].Writing?
      && NulFree(v.text) && v.done <= |v.text| < |s.buf| && s.buf[..v.done] == v.text[..v.done]
  }

  /** A worker whose text nobody has written over. */
  predicate WorkerOk(s: State, w: Phase) {
    match w
    case Written(own, clean) => |s.buf| > 0 && (clean ==> Undisturbed(s, own))
    case Sending(own, size, sent, clean) =>
      && |sent| <= size < |s.buf|
      && (clean ==> Undisturbed(s, own) && size == |own| && sent == own[..|sent|])
    case _ => true
  }

  predicate Undisturbed(s: State, own: string) {
    s.writer.None? && NulFree(own) && Holds(s.buf, own)
  }

  predicate ReplyOk(r: Reply, cap: nat) {
    |r.body| == r.size < cap && (r.clean ==> r.body == r.own)
  }

  predicate Inv(s: State) {
    && Terminated(s.buf) && WriterOk(s)
    && (forall i | 0 <= i < |s.workers| :: WorkerOk(s, s.workers[i]))
    && (forall k | 0 <= k < |s.replies| :: ReplyOk(s.replies[k], |s.buf|))
  }

  /** strlen and the bytes of a buffer that holds a C string. */
  lemma HeldText(buf: seq<char>, text: CString, p: nat, n: nat)
    requires Holds(buf, text) && p + n <= |text|
    ensures CStr(buf) == text
    ensures text[..p] + buf[p..p + n] == text[..p + n]
  {
    assert buf[|text|] == buf[..|text| + 1][|text|];
    forall k | 0 <= k < |text|
      ensures buf[k] == text[k] && buf[k] != '\0'
    {
      assert buf[k] == buf[..|text| + 1][k];
      assert text[k] in text;
    }
    IndexIs(buf, '\0', |text|);
  }

  /** strlen stops before the end of a terminated buffer. */
  lemma StrlenInside(buf: seq<char>)
    requires Terminated(buf) && |buf| > 0
    ensures |CStr(buf)| < |buf|
  {
  }

  lemma LockInv(s: State, i: nat, text: string)
    requires Inv(s) && Enabled(s, Lock(i, text))
    ensures Inv(Apply(s, Lock(i, text)))
  {
  }

  lemma WriteInv(s: State, i: nat)
    requires Inv(s) && Enabled(s, Write(i))
    ensures Inv(Apply(s, Write(i)))
  {
    var v := s.writer.value;
    assert s.buf[v.done := v.text[v.done]][..v.done + 1] == s.buf[..v.done] + [v.text[v.done]];
  }

  lemma UnlockInv(s: State, i: nat)
    requires Inv(s) && Enabled(s, Unlock(i))
    ensures Inv(Apply(s, Unlock(i)))
  {
    var v := s.writer.value;
    assert s.buf[v.done := '\0'][..v.done + 1] == s.buf[..v.done] + ['\0'];
    assert v.text[..v.done] == v.text;
  }

  lemma MeasureInv(s: State, i: nat)
    requires Inv(s) && Enabled(s, Measure(i))
    ensures Inv(Apply(s, Measure(i)))
  {
    var w := s.workers[i];
    StrlenInside(s.buf);
    if w.clean {
      HeldText(s.buf, w.own, 0, 0);
    }
  }

  lemma ChunkInv(s: State, i: nat, n: nat)
    requires Inv(s) && Enabled(s, Chunk(i, n))
    ensures Inv(Apply(s, Chunk(i, n)))
  {
    var w := s.workers[i];
    if w.clean {
      HeldText(s.buf, w.own, |w.sent|, n);
    }
  }

  lemma FinishInv(s: State, i: nat)
    requires Inv(s) && Enabled(s, Finish(i))
    ensures Inv(Apply(s, Finish(i)))
  {
  }

  lemma StepInv(s: State, step: Step)
    requires Inv(s) && Enabled(s, step)
    ensures Inv(Apply(s, step)) && |Apply(s, step).buf| == |s.buf| && |Apply(s, step).workers| == |s.workers|
  {
    match step
    case Lock(i, text) => LockInv(s, i, text);
    case Write(i) => WriteInv(s, i);
    case Unlock(i) => UnlockInv(s, i);
    case Measure(i) => MeasureInv(s, i);
    case Chunk(i, n) => ChunkInv(s, i, n);
    case Finish(i) => FinishInv(s, i);
  }

  lemma {:induction false} RunInv(s: State, run: seq<Step>)
    requires Inv(s) && Possible(s, run)
    ensures Inv(After(s, run)) && |After(s, run).buf| == |s.buf|
    decreases |run|
  {
    if run != [] {
      StepInv(s, run[0]);
      RunInv(Apply(s, run[0]), run[1..]);
    }
  }

  lemma StartInv(cap: nat, threads: nat)
    ensures Inv(Start(cap, threads))
  {
  }

  /** Over every interleaving, byte by byte: strlen never leaves the buffer, a reply has as many bytes as it
      announces, and it is the worker's own text if no other worker began to write from the moment its own text
      was complete. */
  lemma UndisturbedRepliesAreOwn(cap: nat, threads: nat, run: seq<Step>)
    requires Possible(Start(cap, threads), run)
    ensures var s := After(Start(cap, threads), run);
            && (cap > 0 ==> |CStr(s.buf)| < cap)
            && (forall r | r in s.replies :: |r.body| == r.size < cap && (r.clean ==> r.body == r.own))
  {
    StartInv(cap, threads);
    RunInv(Start(cap, threads), run);
    if cap > 0 {
      StrlenInside(After(Start(cap, threads), run).buf);
    }
  }

  // ---------- one worker ----------

  predicate Untouched(w: Phase) {
    match w
    case Written(_, clean) => clean
    case Sending(_, _, _, clean) => clean
    case _ => true
  }

  predicate Alone(s: State) {
    && |s.workers| <= 1
    && (forall i | 0 <= i < |s.workers| :: Untouched(s.workers[i]))
    && (forall k | 0 <= k < |s.replies| :: s.replies[k].clean)
  }

  lemma StepAlone(s: State, step: Step)
    requires Alone(s) && Enabled(s, step)
    ensures Alone(Apply(s, step))
  {
  }

  lemma {:induction false} RunAlone(s: State, run: seq<Step>)
    requires Alone(s) && Possible(s, run)
    ensures Alone(After(s, run))
    decreases |run|
  {
    if run != [] {
      StepAlone(s, run[0]);
      RunAlone(Apply(s, run[0]), run[1..]);
    }
  }

  // ---------- two workers ----------

  lemma {:induction false} Joins(s: State, a: seq<Step>, b: seq<Step>)
    requires Possible(s, a) && Possible(After(s, a), b)
    ensures Possible(s, a + b) && After(s, a + b) == After(After(s, a), b)
    decreases |a|
  {
    if a == [] {
      assert a + b == b;
    } else {
      assert (a + b)[1..] == a[1..] + b;
      Joins(Apply(s, a[0]), a[1..], b);
    }
  }

  lemma One(s: State, step: Step)
    requires Enabled(s, step)
    ensures Possible(s, [step]) && After(s, [step]) == Apply(s, step)
  {
    assert [step][1..] == [];
  }

  /** The buffer after a whole text was written: what lies behind the terminator stays. */
  function Overwrite(buf: seq<char>, text: string): (r: seq<char>)
    requires |text| < |buf|
    ensures |r| == |buf|
  {
    text + ['\0'] + buf[|text| + 1..]
  }

  /** The state after worker i has written all of `text`. */
  function Rendered(s: State, i: nat, text: string): State
    requires i < |s.workers| && |text| < |s.buf|
  {
    s.(buf := Overwrite(s.buf, text), writer := None, workers := DisturbAll(s.workers)[i := Written(text, true)])
  }

  /** The bytes that are still to be written, and the terminator. */
  lemma {:induction false} WritesRest(s: State, i: nat) returns (run: seq<Step>)
    requires i < |s.workers| && Holder(s, i) && s.writer.value.done <= |s.writer.value.text| < |s.buf|
    ensures Possible(s, run)
    ensures var v := s.writer.value;
            After(s, run) == s.(buf := s.buf[..v.done] + v.text[v.done..] + ['\0'] + s.buf[|v.text| + 1..],
                                writer := None, workers := s.workers[i := Written(v.text, true)])
    decreases |s.writer.value.text| - s.writer.value.done
  {
    var v := s.writer.value;
    if v.done == |v.text| {
      run := [Unlock(i)];
      One(s, Unlock(i));
      assert s.buf[v.done := '\0'] == s.buf[..v.done] + v.text[v.done..] + ['\0'] + s.buf[|v.text| + 1..];
    } else {
      var s' := Apply(s, Write(i));
      var rest := WritesRest(s', i);
      One(s, Write(i));
      Joins(s, [Write(i)], rest);
      run := [Write(i)] + rest;
      assert s'.buf[..v.done + 1] + v.text[v.done + 1..] == s.buf[..v.done] + v.text[v.done..];
      assert s'.buf[|v.text| + 1..] == s.buf[|v.text| + 1..];
    }
  }

  lemma Renders(s: State, i: nat, text: string) returns (run: seq<Step>)
    requires Enabled(s, Lock(i, text))
    ensures Possible(s, run) && After(s, run) == Rendered(s, i, text)
  {
    var s' := Apply(s, Lock(i, text));
    var rest := WritesRest(s', i);
    One(s, Lock(i, text));
    Joins(s, [Lock(i, text)], rest);
    run := [Lock(i, text)] + rest;
    assert s'.buf[..0] + text[0..] == text;
    assert s'.workers[i := Written(text, true)] == DisturbAll(s.workers)[i := Written(text, true)];
  }

  /** Some run ends with a first reply, to the worker that wrote `own`, with the body `body`. */
  ghost predicate CanReply(cap: nat, threads: nat, own: string, body: string) {
    exists run: seq<Step> :: Possible(Start(cap, threads), run) && Shows(After(Start(cap, threads), run), own, body)
  }

  predicate Shows(s: State, own: string, body: string) {
    |s.replies| == 1 && s.replies[0].own == own && s.replies[0].body == body
  }

  /** Worker 0 is sending; it sends the rest of what it measured, whatever the buffer holds by now. */
  lemma SendsRest(s: State, w: Phase) returns (run: seq<Step>)
    requires |s.workers| > 0 && s.workers[0] == w && w.Sending? && |w.sent| < w.size <= |s.buf| && s.replies == []
    ensures Possible(s, run) && Shows(After(s, run), w.own, w.sent + s.buf[|w.sent|..w.size])
  {
    var chunk := Chunk(0, w.size - |w.sent|);
    var s1 := Apply(s, chunk);
    One(s, chunk);
    One(s1, Finish(0));
    Joins(s, [chunk], [Finish(0)]);
    run := [chunk] + [Finish(0)];
  }

  lemma OverwriteHolds(buf: seq<char>, text: string)
    requires |text| < |buf|
    ensures Holds(Overwrite(buf, text), text)
  {
    assert Overwrite(buf, text)[..|text| + 1] == text + ['\0'];
  }

  /** Worker 0 measures and sends all of what another worker has left in the buffer. */
  lemma SendsAll(s: State, own: string, clean: bool, b: CString) returns (run: seq<Step>)
    requires |s.workers| > 0 && s.workers[0] == Written(own, clean) && s.replies == [] && b != [] && Holds(s.buf, b)
    ensures Possible(s, run) && Shows(After(s, run), own, b)
  {
    HeldText(s.buf, b, 0, |b|);
    var s' := Apply(s, Measure(0));
    One(s, Measure(0));
    var rest := SendsRest(s', s'.workers[0]);
    assert [] + s'.buf[0..|b|] == b;
    Joins(s, [Measure(0)], rest);
    run := [Measure(0)] + rest;
  }

  /** A client whose worker wrote `a` can get all of `b`. */
  lemma ForeignText(a: CString, b: CString, cap: nat, threads: nat)
    requires b != [] && |a| < cap && |b| < cap && threads >= 2
    ensures CanReply(cap, threads, a, b)
  {
    var s0 := Start(cap, threads);
    var run1 := Renders(s0, 0, a);
    var s1 := Rendered(s0, 0, a);
    var run2 := Renders(s1, 1, b);
    var s2 := Rendered(s1, 1, b);
    OverwriteHolds(s1.buf, b);
    var rest := SendsAll(s2, a, false, b);
    Joins(s1, run2, rest);
    Joins(s0, run1, run2 + rest);
  }

  lemma SameText(a: NoteRow, b: NoteRow)
    requires NoteText(a) == NoteText(b)
    ensures a == b
  {
    assert NoteText(a) + [] == NoteText(a) && NoteText(b) + [] == NoteText(b);
    NoteDelimits(a, b, [], []);
  }

  /** For any two different notes that fit the buffer: a client that asks for one can get the other. */
  lemma ForeignReply(a: NoteRow, b: NoteRow, cap: nat, threads: nat)
    requires NoteClean(a) && NoteClean(b) && a != b && |NoteText(a)| < cap && |NoteText(b)| < cap && threads >= 2
    ensures CanReply(cap, threads, NoteText(a), NoteText(b)) && NoteText(b) != NoteText(a)
  {
    NoteTextNulFree(a);
    NoteTextNulFree(b);
    NoteTextOpens(b);
    ForeignText(NoteText(a), NoteText(b), cap, threads);
    if NoteText(b) == NoteText(a) {
      SameText(b, a);
    }
  }

  /** Worker 0 writes `a`, measures it and sends k bytes of it. */
  function PartSent(cap: nat, threads: nat, a: string, k: nat): State
    requires k < |a| < cap && threads >= 2
  {
    var s := Rendered(Start(cap, threads), 0, a);
    s.(workers := s.workers[0 := Sending(a, |a|, a[..k], true)])
  }

  lemma SendsPart(cap: nat, threads: nat, a: CString, k: nat) returns (run: seq<Step>)
    requires 0 < k < |a| < cap && threads >= 2
    ensures Possible(Start(cap, threads), run) && After(Start(cap, threads), run) == PartSent(cap, threads, a, k)
  {
    var s0 := Start(cap, threads);
    var run1 := Renders(s0, 0, a);
    var s1 := Rendered(s0, 0, a);
    OverwriteHolds(s0.buf, a);
    HeldText(s1.buf, a, 0, k);
    var s2 := Apply(s1, Measure(0));
    One(s1, Measure(0));
    One(s2, Chunk(0, k));
    assert [] + s2.buf[0..k] == a[..k];
    Joins(s1, [Measure(0)], [Chunk(0, k)]);
    Joins(s0, run1, [Measure(0)] + [Chunk(0, k)]);
    run := run1 + ([Measure(0)] + [Chunk(0, k)]);
  }

  /** If another worker writes while a reply is sent, a client can get the first bytes of one text and the last
      bytes of another, split anywhere; that is its own text only if the last bytes are the same. */
  lemma TornReply(a: CString, b: CString, cap: nat, threads: nat, k: nat)
    requires |a| <= |b| < cap && 0 < k < |a| && threads >= 2
    ensures CanReply(cap, threads, a, a[..k] + b[k..|a|])
    ensures a[..k] + b[k..|a|] == a <==> a[k..] == b[k..|a|]
  {
    var run1 := SendsPart(cap, threads, a, k);
    var s1 := PartSent(cap, threads, a, k);
    var run2 := Renders(s1, 1, b);
    var s2 := Rendered(s1, 1, b);
    OverwriteHolds(s1.buf, b);
    TailOf(s2.buf, b, k, |a|);
    var rest := SendsRest(s2, s2.workers[0]);
    Joins(s1, run2, rest);
    Joins(Start(cap, threads), run1, run2 + rest);
    TornIsOwn(a, b[k..|a|], k);
  }

  lemma TornIsOwn(a: string, tail: string, k: nat)
    requires k <= |a|
    ensures a[..k] + tail == a <==> a[k..] == tail
  {
    assert a == a[..k] + a[k..];
    assert (a[..k] + tail)[k..] == tail;
  }

  /** The text of a note up to its body. */
  function NoteHead(r: NoteRow): string {
    ID_LABEL + (SignedDecimal(r.id) + (TITLE_LABEL + (Quoted(Escape(r.note.title)) + BODY_LABEL)))
  }

  function NoteTail(r: NoteRow): string {
    Quoted(Escape(r.note.body)) + CreatedText(r.note)
  }

  lemma NoteParts(r: NoteRow)
    ensures NoteText(r) == NoteHead(r) + NoteTail(r)
  {
    FiveThen(ID_LABEL, SignedDecimal(r.id), TITLE_LABEL, Quoted(Escape(r.note.title)), BODY_LABEL, NoteTail(r));
  }

  lemma FiveThen(a: string, b: string, c: string, d: string, e: string, tail: string)
    ensures a + (b + (c + (d + e))) + tail == a + (b + (c + (d + (e + tail))))
  {
    Associative(a, b + (c + (d + e)), tail);
    Associative(b, c + (d + e), tail);
    Associative(c, d + e, tail);
    Associative(d, e, tail);
  }

  lemma TornParts(head: string, tail: string, otherHead: string, otherTail: string, cap: nat, threads: nat)
    requires NulFree(head + tail) && NulFree(otherHead + otherTail) && threads >= 2
    requires 0 < |head| == |otherHead| && 0 < |tail| == |otherTail| && |head| + |tail| < cap
    ensures CanReply(cap, threads, head + tail, head + otherTail)
  {
    var k := |head|;
    TornReply(head + tail, otherHead + otherTail, cap, threads, k);
    assert (head + tail)[..k] == head && (otherHead + otherTail)[k..k + |tail|] == otherTail;
  }

  /** Two notes whose texts and heads are equally long: a client that asks for one can get a note with its title and
      the other's body, which nobody has stored. */
  lemma TornNote(a: NoteRow, b: NoteRow, cap: nat, threads: nat)
    requires NoteClean(a) && NoteClean(b) && |NoteText(a)| == |NoteText(b)| < cap && threads >= 2
    requires |NoteHead(a)| == |NoteHead(b)|
    ensures CanReply(cap, threads, NoteText(a), NoteText(NoteRow(a.id, b.note.(title := a.note.title))))
  {
    var mixed := NoteRow(a.id, b.note.(title := a.note.title));
    NoteTextNulFree(a);
    NoteTextNulFree(b);
    NoteParts(a);
    NoteParts(b);
    NoteParts(mixed);
    TornParts(NoteHead(a), NoteTail(a), NoteHead(b), NoteTail(b), cap, threads);
  }

  lemma TailOf(buf: seq<char>, text: string, k: nat, n: nat)
    requires Holds(buf, text) && k <= n <= |text|
    ensures buf[k..n] == text[k..n]
  {
    assert buf[k..n] == buf[..|text| + 1][k..n];
  }

  // ---------- exactly when every reply is right ----------

  /** Every client always gets the text that its own request produced. */
  ghost predicate AllOwn(cap: nat, threads: nat) {
    forall run: seq<Step> | Possible(Start(cap, threads), run) ::
      forall r | r in After(Start(cap, threads), run).replies :: r.body == r.own
  }

  /** The promise of per-connection state holds exactly if one worker is configured (or if the buffer has no room
      for any text but the empty one). */
  lemma RightExactlyForOneWorker(cap: nat, threads: nat)
    ensures AllOwn(cap, threads) <==> threads <= 1 || cap <= 1
  {
    if threads <= 1 || cap <= 1 {
      forall run: seq<Step> | Possible(Start(cap, threads), run)
        ensures forall r | r in After(Start(cap, threads), run).replies :: r.body == r.own
      {
        RightIf(cap, threads, run);
      }
    } else {
      ForeignText("", "x", cap, threads);
      var run: seq<Step> :| Possible(Start(cap, threads), run) && Shows(After(Start(cap, threads), run), "", "x");
      assert After(Start(cap, threads), run).replies[0] in After(Start(cap, threads), run).replies;
    }
  }

  lemma RightIf(cap: nat, threads: nat, run: seq<Step>)
    requires Possible(Start(cap, threads), run) && (threads <= 1 || cap <= 1)
    ensures forall r | r in After(Start(cap, threads), run).replies :: r.body == r.own
  {
    StartInv(cap, threads);
    RunInv(Start(cap, threads), run);
    if threads <= 1 {
      RunAlone(Start(cap, threads), run);
    } else {
      RunShort(Start(cap, threads), run);
    }
  }

  /** Without room there are only empty texts. */
  predicate Short(s: State) {
    && |s.buf| <= 1
    && (forall i | 0 <= i < |s.workers| :: OwnText(s.workers[i]) == [])
    && (s.writer.Some? ==> s.writer.value.text == [])
    && (forall k | 0 <= k < |s.replies| :: s.replies[k].own == [])
  }

  function OwnText(w: Phase): string {
    match w
    case Written(own, _) => own
    case Sending(own, _, _, _) => own
    case _ => []
  }

  lemma StepShort(s: State, step: Step)
    requires Short(s) && Enabled(s, step)
    ensures Short(Apply(s, step))
  {
  }

  lemma {:induction false} RunShort(s: State, run: seq<Step>)
    requires Short(s) && Possible(s, run)
    ensures Short(After(s, run))
    decreases |run|
  {
    if run != [] {
      StepShort(s, run[0]);
      RunShort(Apply(s, run[0]), run[1..]);
    }
  }
}
