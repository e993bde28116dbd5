/** http_read_request of src/http.c over a socket whose recv may split the stream in any way. */
module HttpRead {
  import opened CText
  import opened HttpParse

  /** What a recv call does: it hands over up to `size` bytes (at least one, if the stream has not
      ended), is interrupted, or fails. After the script it hands over all it can. */
  datatype RecvEvent = Chunk(size: nat) | Interrupted | Broken

  predicate NeverBreaks(script: seq<RecvEvent>) {
    Broken !in script
  }

  class Socket {
    const data: string
    var pos: nat
    var script: seq<RecvEvent>

    constructor (data: string, script: seq<RecvEvent>)
      ensures this.data == data && this.pos == 0 && this.script == script
    {
      this.data, this.pos, this.script := data, 0, script;
    }

    /** recv_one: an interrupted call is repeated; -1 on failure, 0 at the end of the stream. */
    method RecvOne(buf: array<char>, off: nat, cap: nat) returns (got: int)
      requires pos <= |data| && cap > 0 && off + cap <= buf.Length
      modifies this, buf
      ensures pos <= |data|
      ensures NeverBreaks(old(script)) ==> NeverBreaks(script) && got >= 0
      ensures got < 0 ==> pos == old(pos)
      ensures got >= 0 ==>
                && got <= cap && pos == old(pos) + got && (got == 0 <==> old(pos) == |data|)
                && buf[..off + got] == old(buf[..off]) + data[old(pos)..pos]
      decreases |script|
    {
      if script != [] && script[0].Interrupted? {
        script := script[1..];
        got := RecvOne(buf, off, cap);
        return;
      }
      var size := if script == [] then cap else if script[0].Broken? then 0 else if script[0].size == 0 then 1 else script[0].size;
      if script != [] {
        var event := script[0];
        assert script == [event] + script[1..];
        script := script[1..];
        if event.Broken? {
          return -1;
        }
      }
      got := Min(Min(size, cap), |data| - pos);
      CopyTo(buf, off, data[pos..pos + got]);
      pos := pos + got;
    }
  }

  // ---------- what the stream alone determines ----------

  function Needed(req: Request): (n: nat) {
    if req.contentLength < 0 then 0 else req.contentLength
  }

  /** The header block ends at `i` and fits the header buffer. */
  predicate HeaderEnds(data: string, headerCap: nat, i: nat) {
    FirstBlank(data, i) && i + 4 < headerCap
  }

  /** The outcome after a header block that ends at `i` and was parsed to `p`: the parser's error, or the
      body of exactly Content-Length bytes after the CRLFCRLF, or 400 when the stream ends before that. */
  predicate BodyOutcome(data: string, bodyCap: nat, i: nat, p: Parsed, r: Parsed) {
    var need := Needed(p.request);
    if p.error != Ok then r.error == p.error
    else if need > bodyCap || need > MAX_BODY then r.error == PayloadTooLarge
    else if i + 4 + need > |data| then r.error == BadRequest
    else r == Parsed(Ok, p.request.(body := if need == 0 then None else Some(data[i + 4..i + 4 + need])))
  }

  ghost predicate ReadsAs(data: string, headerCap: nat, bodyCap: nat, r: Parsed) {
    && (forall i: nat | HeaderEnds(data, headerCap, i) :: BodyOutcome(data, bodyCap, i, ParseHeader(data[..i]), r))
    && ((forall i: nat :: !HeaderEnds(data, headerCap, i)) ==> r.error == BadRequest)
  }

  /** The capacities for which the outcome is a function of the stream; the server uses 16384 and 65536. */
  predicate Deployable(headerCap: nat, bodyCap: nat) {
    512 <= headerCap <= MAX_HEADERS && headerCap <= bodyCap
  }

  /** The outcome is unique: two reads of the same stream agree, however recv split it. */
  lemma SplittingDoesNotMatter(data: string, headerCap: nat, bodyCap: nat, r1: Parsed, r2: Parsed)
    requires ReadsAs(data, headerCap, bodyCap, r1) && ReadsAs(data, headerCap, bodyCap, r2)
    ensures r1.error == r2.error && (r1.error == Ok ==> r1 == r2)
  {
    if i: nat :| HeaderEnds(data, headerCap, i) {
      assert BodyOutcome(data, bodyCap, i, ParseHeader(data[..i]), r1);
      assert BodyOutcome(data, bodyCap, i, ParseHeader(data[..i]), r2);
    }
  }

  // ---------- the code ----------

  /** A prefix of the stream shows the first CRLFCRLF exactly when it reaches past it. */
  lemma PrefixBlank(data: string, n: nat, i: nat)
    requires n <= |data|
    ensures FirstBlank(data[..n], i) <==> FirstBlank(data, i) && i + 4 <= n
  {
    assert forall k: nat :: IsBlank(data[..n], k) <==> IsBlank(data, k) && k + 4 <= n;
  }

  /** Read until the received bytes contain a CRLFCRLF; the position where it starts, or an error. */
  method ReadHeader(sock: Socket, buf: array<char>) returns (error: ApiError, total: nat, at: nat)
    requires sock.pos == 0 && 512 <= buf.Length
    modifies sock, buf
    ensures sock.pos <= |sock.data| && total <= |sock.data| && total < buf.Length
    ensures NeverBreaks(old(sock.script)) ==> NeverBreaks(sock.script)
    ensures error != Ok && error != BadRequest ==> error == PayloadTooLarge && buf.Length > MAX_HEADERS
    ensures error == Ok ==>
              && sock.pos == total && buf[..total] == sock.data[..total]
              && HeaderEnds(sock.data, buf.Length, at) && at + 4 <= total
    ensures error == BadRequest && NeverBreaks(old(sock.script)) ==> forall i: nat :: !HeaderEnds(sock.data, buf.Length, i)
  {
    total, at := 0, 0;
    ghost var data := sock.data;
    while total + 1 < buf.Length
      invariant sock.pos == total <= |data| && total < buf.Length
      invariant NeverBreaks(old(sock.script)) ==> NeverBreaks(sock.script)
      invariant buf[..total] == data[..total]
      invariant forall i: nat :: FirstBlank(data, i) ==> i + 4 > total
      decreases buf.Length - total
    {
      var got := sock.RecvOne(buf, total, buf.Length - 1 - total);
      if got < 0 {
        return BadRequest, total, at;
      }
      if got == 0 {
        return BadRequest, total, at;
      }
      total := total + got;
      assert buf[..total] == data[..total];
      var found := FindBlank(buf[..total]);
      if found.Some? {
        PrefixBlank(data, total, found.value);
        return Ok, total, found.value;
      }
      forall i: nat | FirstBlank(data, i)
        ensures i + 4 > total
      {
        PrefixBlank(data, total, i);
      }
      if total >= MAX_HEADERS {
        return PayloadTooLarge, total, at;
      }
    }
    return BadRequest, total, at;
  }

  /** Fill the body buffer up to `need` bytes; the first `have` of them are there already. */
  method ReadBody(sock: Socket, buf: array<char>, ghost from: nat, already: nat, need: nat) returns (error: ApiError)
    requires already <= need <= buf.Length && sock.pos <= |sock.data| && from <= sock.pos
    requires already < need ==> sock.pos == from + already
    requires from + already <= |sock.data| && buf[..already] == sock.data[from..from + already]
    modifies sock, buf
    ensures error == Ok || error == BadRequest
    ensures error == Ok ==> from + need <= |sock.data| && buf[..need] == sock.data[from..from + need]
    ensures error != Ok && NeverBreaks(old(sock.script)) ==> from + need > |sock.data|
  {
    var have := already;
    while have < need
      invariant already <= have <= need && sock.pos <= |sock.data|
      invariant NeverBreaks(old(sock.script)) ==> NeverBreaks(sock.script)
      invariant have < need ==> sock.pos == from + have
      invariant from + have <= |sock.data| && buf[..have] == sock.data[from..from + have]
    {
      var got := sock.RecvOne(buf, have, need - have);
      if got < 0 {
        return BadRequest;
      }
      if got == 0 {
        return BadRequest;
      }
      assert sock.data[from..from + have] + sock.data[from + have..from + have + got] == sock.data[from..from + have + got];
      have := have + got;
    }
    return Ok;
  }

  lemma SliceOfPrefix(data: string, n: nat, a: nat, b: nat)
    requires a <= b <= n <= |data|
    ensures data[..n][a..b] == data[a..b]
  {
  }

  /** The part of http_read_request after the header block was parsed to `p`. */
  method FinishRequest(sock: Socket, headerBuf: array<char>, bodyBuf: array<char>, total: nat, at: nat, p: Parsed)
      returns (r: Parsed)
    requires headerBuf != bodyBuf && at + 4 <= total < headerBuf.Length && p.error == Ok
    requires sock.pos == total <= |sock.data| && headerBuf[..total] == sock.data[..total]
    modifies sock, bodyBuf
    ensures headerBuf.Length <= bodyBuf.Length && NeverBreaks(old(sock.script)) ==>
              BodyOutcome(sock.data, bodyBuf.Length, at, p, r)
    ensures headerBuf.Length <= bodyBuf.Length ==> BodyOutcome(sock.data, bodyBuf.Length, at, p, r) || r.error == BadRequest
    ensures r.request == p.request.(body := r.request.body)
  {
    var from := at + 4;
    var already := total - from;
    var need := Needed(p.request);
    if need > 0 && need > bodyBuf.Length {
      return Parsed(PayloadTooLarge, p.request);
    }
    if need > MAX_BODY {
      return Parsed(PayloadTooLarge, p.request);
    }
    if already > bodyBuf.Length {
      return Parsed(PayloadTooLarge, p.request);
    }
    var copyNow := Min(already, need);
    var received := headerBuf[..total];
    SliceOfPrefix(sock.data, total, from, from + copyNow);
    CopyTo(bodyBuf, 0, received[from..from + copyNow]);
    var error := ReadBody(sock, bodyBuf, from, copyNow, need);
    if error != Ok {
      return Parsed(error, p.request);
    }
    return Parsed(Ok, p.request.(body := if need == 0 then None else Some(bodyBuf[..need])));
  }

  /** http_read_request. With deployable capacities what it returns depends on the stream alone, unless recv
      fails, and then it may only be 400 instead: no request is ever made up. */
  method ReadRequest(sock: Socket, headerBuf: array<char>, bodyBuf: array<char>) returns (r: Parsed)
    requires sock.pos == 0 && headerBuf != bodyBuf
    modifies sock, headerBuf, bodyBuf
    ensures headerBuf.Length < 512 || bodyBuf.Length < 1 ==> r.error == Internal
    ensures Deployable(headerBuf.Length, bodyBuf.Length) && NeverBreaks(old(sock.script)) ==>
              ReadsAs(sock.data, headerBuf.Length, bodyBuf.Length, r)
    ensures Deployable(headerBuf.Length, bodyBuf.Length) ==>
              ReadsAs(sock.data, headerBuf.Length, bodyBuf.Length, r) || r.error == BadRequest
    ensures r.error == Ok ==> CleanRequest(r.request)
  {
    if headerBuf.Length < 512 || bodyBuf.Length < 1 {
      return Parsed(Internal, BLANK);
    }
    var error, total, at := ReadHeader(sock, headerBuf);
    if error != Ok {
      return Parsed(error, BLANK);
    }
    r := ParseReceived(sock.data, headerBuf[..total], at);
    ghost var p := r;
    if r.error == Ok {
      r := FinishRequest(sock, headerBuf, bodyBuf, total, at, r);
    }
    if headerBuf.Length <= MAX_HEADERS && BodyOutcome(sock.data, bodyBuf.Length, at, p, r) {
      OutcomeFrom(sock.data, headerBuf.Length, bodyBuf.Length, at, p, r);
    }
  }

  /** Whatever was received after the header block, the parser sees the same header block. */
  method ParseReceived(ghost data: string, received: string, ghost at: nat) returns (p: Parsed)
    requires FirstBlank(data, at) && at + 4 <= |received| <= |data| && received == data[..|received|]
    ensures at < MAX_HEADERS ==> p == ParseHeader(data[..at])
    ensures p.error == Ok ==> CleanRequest(p.request)
  {
    PrefixBlank(data, |received|, at);
    p := ParseRequest(received);
    assert received[..at] == data[..at];
  }

  lemma OutcomeFrom(data: string, headerCap: nat, bodyCap: nat, at: nat, p: Parsed, r: Parsed)
    requires HeaderEnds(data, headerCap, at) && p == ParseHeader(data[..at]) && BodyOutcome(data, bodyCap, at, p, r)
    ensures ReadsAs(data, headerCap, bodyCap, r)
  {
    forall i: nat | HeaderEnds(data, headerCap, i)
      ensures i == at
    {
    }
  }
}
