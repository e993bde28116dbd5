/** Sending: server_send_all, http_respond and http_respond_error. */
module HttpSend {
  import opened CText
  import opened Numbers
  import opened HttpParse
  import opened HttpRoundTrip
  import opened Json
  import opened JsonObject
  import opened JsonReply

  // ---------- server_send_all ----------

  /** What a send call does: it takes up to `count` bytes, is interrupted, or fails. After the script it
      takes all it is given. */
  datatype SendEvent = Takes(count: nat) | SendInterrupted | SendFails

  class Wire {
    var sent: string
    var script: seq<SendEvent>

    constructor (script: seq<SendEvent>)
      ensures this.sent == "" && this.script == script
    {
      this.sent, this.script := "", script;
    }

    /** send: the number of bytes taken, or -1 and whether it was an interruption. */
    method Send(buf: string) returns (count: int, interrupted: bool)
      modifies this
      ensures -1 <= count <= |buf|
      ensures count >= 0 ==> sent == old(sent) + buf[..count]
      ensures count < 0 ==> sent == old(sent)
      ensures interrupted ==> count < 0
      ensures old(script) == [] ==> count == |buf| && script == []
      ensures old(script) != [] ==>
                && script == old(script)[1..]
                && match old(script)[0]
                   case Takes(n) => count == Min(n, |buf|)
                   case SendInterrupted => interrupted
                   case SendFails => count < 0 && !interrupted
    {
      count, interrupted := |buf|, false;
      if script != [] {
        match script[0] {
          case Takes(n) => count := Min(n, |buf|);
          case SendInterrupted => count, interrupted := -1, true;
          case SendFails => count := -1;
        }
        script := script[1..];
      }
      if count >= 0 {
        sent := sent + buf[..count];
      }
    }
  }

  /** How many of `n` bytes get through before the script makes server_send_all give up. */
  function Delivered(script: seq<SendEvent>, n: nat): (d: nat)
    ensures d <= n
    decreases |script|
  {
    if n == 0 || script == [] then n
    else
      match script[0]
      case Takes(k) => if k == 0 then 0 else Min(k, n) + Delivered(script[1..], n - Min(k, n))
      case SendInterrupted => Delivered(script[1..], n)
      case SendFails => 0
  }

  predicate Bad(e: SendEvent) {
    e == SendFails || e == Takes(0)
  }

  /** How many bytes the events take together. */
  function Taken(script: seq<SendEvent>): nat {
    if script == [] then 0 else (if script[0].Takes? then script[0].count else 0) + Taken(script[1..])
  }

  /** Interruptions never matter: if no call fails or takes nothing, everything gets through; otherwise what the
      calls before the first such one took. */
  lemma {:induction false} DeliveredIs(script: seq<SendEvent>, n: nat, k: nat)
    requires k <= |script| && forall i | 0 <= i < k :: !Bad(script[i])
    ensures k == |script| ==> Delivered(script, n) == n
    ensures k < |script| && Bad(script[k]) ==> Delivered(script, n) == Min(n, Taken(script[..k]))
    decreases |script|
  {
    if k > 0 {
      assert script[1..][..k - 1] == script[..k][1..];
      var m := if script[0].Takes? then n - Min(script[0].count, n) else n;
      DeliveredIs(script[1..], m, k - 1);
    }
  }

  /** server_send_all: the bytes that get through are the first ones, in order, and it reports success
      exactly when all of them did. */
  method SendAll(wire: Wire, buf: string) returns (result: int)
    modifies wire
    ensures var d := Delivered(old(wire.script), |buf|);
            && wire.sent == old(wire.sent) + buf[..d]
            && result == if d == |buf| then 0 else -1
  {
    var cursor := 0;
    while cursor < |buf|
      invariant cursor <= |buf|
      invariant wire.sent == old(wire.sent) + buf[..cursor]
      invariant cursor + Delivered(wire.script, |buf| - cursor) == Delivered(old(wire.script), |buf|)
      decreases |wire.script| + (if cursor < |buf| then 1 else 0)
    {
      var count, interrupted := wire.Send(buf[cursor..]);
      if count < 0 {
        if interrupted {
          continue;
        }
        return -1;
      }
      if count == 0 {
        return -1;
      }
      assert buf[..cursor] + buf[cursor..][..count] == buf[..cursor + count];
      cursor := cursor + count;
    }
    return 0;
  }

  // ---------- http_respond ----------

  const HEADER_CAP := 1024

  function Reason(status: nat): string {
    match status
    case 200 => "OK"
    case 201 => "Created"
    case 204 => "No Content"
    case 400 => "Bad Request"
    case 401 => "Unauthorized"
    case 403 => "Forbidden"
    case 404 => "Not Found"
    case 405 => "Method Not Allowed"
    case 411 => "Length Required"
    case 413 => "Payload Too Large"
    case 415 => "Unsupported Media Type"
    case 500 => "Internal Server Error"
    case 501 => "Not Implemented"
    case _ => "Error"
  }

  /** The reason phrases of section 15 of RFC 9110, except 413, which has the name that it had before. */
  lemma ReasonPhrases()
    ensures Reason(200) == "OK" && Reason(201) == "Created" && Reason(204) == "No Content"
    ensures Reason(400) == "Bad Request" && Reason(401) == "Unauthorized" && Reason(403) == "Forbidden"
    ensures Reason(404) == "Not Found" && Reason(405) == "Method Not Allowed" && Reason(411) == "Length Required"
    ensures Reason(413) == "Payload Too Large" && Reason(415) == "Unsupported Media Type"
    ensures Reason(500) == "Internal Server Error" && Reason(501) == "Not Implemented"
  {
  }

  predicate CleanReason(text: string) {
    |text| <= 22 && CleanText(text)
  }

  lemma ReasonIsClean(status: nat)
    ensures CleanReason(Reason(status))
  {
    if status < 401 {
      ReasonOfSuccess(status);
    } else if status < 411 {
      ReasonOfAccess(status);
    } else {
      ReasonOfOther(status);
    }
  }

  lemma ReasonOfSuccess(status: nat)
    requires status < 401
    ensures CleanReason(Reason(status))
  {
    match status
    case 200 => assert CleanReason("OK");
    case 201 => assert CleanReason("Created");
    case 204 => assert CleanReason("No Content");
    case 400 => assert CleanReason("Bad Request");
    case _ => assert CleanReason("Error");
  }

  lemma ReasonOfAccess(status: nat)
    requires 401 <= status < 411
    ensures CleanReason(Reason(status))
  {
    match status
    case 401 => assert CleanReason("Unauthorized");
    case 403 => assert CleanReason("Forbidden");
    case 404 => assert CleanReason("Not Found");
    case 405 => assert CleanReason("Method Not Allowed");
    case _ => assert CleanReason("Error");
  }

  lemma ReasonOfOther(status: nat)
    requires status >= 411
    ensures CleanReason(Reason(status))
  {
    match status
    case 411 => assert CleanReason("Length Required");
    case 413 => assert CleanReason("Payload Too Large");
    case 415 => assert CleanReason("Unsupported Media Type");
    case 500 => assert CleanReason("Internal Server Error");
    case 501 => assert CleanReason("Not Implemented");
    case _ => assert CleanReason("Error");
  }

  function StatusLine(status: nat): string {
    "HTTP/1.1 " + (Decimal(status) + (" " + Reason(status)))
  }

  function ResponseFields(contentType: string, n: nat, allow: Option<string>): seq<Field> {
    [Field("Content-Type", contentType), Field("Content-Length", Decimal(n))]
    + (if allow.Some? then [Field("Allow", allow.value)] else [])
    + [Field("Connection", "close")]
  }

  /** The text that the format string of http_respond writes. */
  function Head(status: nat, contentType: string, n: nat, allow: Option<string>): string {
    Block(StatusLine(status), ResponseFields(contentType, n, allow)) + (CRLF + CRLF)
  }

  /** Success means that all of `text` went out after `before`, failure that only a proper prefix did. */
  predicate WentOut(before: string, after: string, text: string, result: int) {
    if result == 0 then after == before + text
    else result == -1 && exists k | 0 <= k < |text| :: after == before + text[..k]
  }

  method Respond(wire: Wire, status: nat, contentType: CString, body: string, allow: Option<CString>) returns (result: int)
    modifies wire
    ensures |Head(status, contentType, |body|, allow)| >= HEADER_CAP ==> result == -1 && wire.sent == old(wire.sent)
    ensures |Head(status, contentType, |body|, allow)| < HEADER_CAP ==>
              WentOut(old(wire.sent), wire.sent, Head(status, contentType, |body|, allow) + body, result)
  {
    var header := Head(status, contentType, |body|, allow);
    if |header| >= HEADER_CAP {
      return -1;
    }
    ghost var text := header + body;
    result := SendAll(wire, header);
    if result != 0 {
      ghost var d := Delivered(old(wire.script), |header|);
      assert header[..d] == text[..d];
      return;
    }
    assert header[..|header|] == header;
    if |body| > 0 {
      label second:
      ghost var script := wire.script;
      result := SendAll(wire, body);
      ghost var d := Delivered(script, |body|);
      assert header + body[..d] == text[..|header| + d];
      assert old(wire.sent) + header + body[..d] == old(wire.sent) + (header + body[..d]);
      assert d == |body| ==> text[..|header| + d] == text;
    } else {
      assert text == header;
    }
  }

  predicate ValidType(s: string) {
    CleanText(s) && (s != [] ==> s[0] != ' ' && s[0] != '\t')
  }

  lemma FieldsValid(contentType: string, n: nat, allow: Option<string>)
    requires ValidType(contentType) && (allow.Some? ==> ValidType(allow.value))
    ensures ValidFields(ResponseFields(contentType, n, allow))
  {
    NameValid("Content-Type", contentType);
    NameValid("Content-Length", Decimal(n));
    NameValid("Connection", "close");
    if allow.Some? {
      NameValid("Allow", allow.value);
    }
  }

  /** The header names that the server writes. */
  lemma NameValid(name: string, value: string)
    requires name == "Content-Type" || name == "Content-Length" || name == "Connection" || name == "Allow"
    requires ValidType(value)
    ensures ValidField(Field(name, value))
  {
  }

  lemma StatusClean(status: nat)
    ensures StatusLine(status) != [] && CleanText(StatusLine(status))
  {
    ReasonIsClean(status);
    assert CleanText("HTTP/1.1 ");
    CleanConcat(" ", Reason(status));
    CleanConcat(Decimal(status), " " + Reason(status));
    CleanConcat("HTTP/1.1 ", Decimal(status) + (" " + Reason(status)));
  }

  lemma CleanConcat(a: string, b: string)
    requires CleanText(a) && CleanText(b)
    ensures CleanText(a + b)
  {
  }

  // ---------- what a client reads in the bytes ----------

  /** The text begins with a status line of HTTP/1.1 whose number is `status`. */
  predicate TellsStatus(text: string, status: nat) {
    At(text, 0, "HTTP/1.1 ") && |text| >= 9 && StrTol(text[9..]).value == status
  }

  /** One of the lines between line breaks. */
  predicate HasLine(text: string, line: string) {
    exists p: nat :: p <= |text| && At(text, p, CRLF + (line + CRLF))
  }

  lemma StatusReads(status: nat, rest: string)
    requires status <= LONG_MAX
    ensures TellsStatus(StatusLine(status) + rest, status)
  {
    var text := StatusLine(status) + rest;
    var tail := " " + Reason(status) + rest;
    assert text == "HTTP/1.1 " + (Decimal(status) + tail);
    assert text[9..] == Decimal(status) + tail;
    StrTolDecimal(status, tail);
  }

  lemma FieldsThenBreak(fs: seq<Field>, k: nat, rest: string) returns (tail: string)
    requires k <= |fs|
    ensures Fields(fs, k) + (CRLF + rest) == CRLF + tail
  {
    if k == |fs| {
      tail := rest;
      assert [] + (CRLF + rest) == CRLF + rest;
    } else {
      tail := FieldLine(fs[k]) + Fields(fs, k + 1) + (CRLF + rest);
    }
  }

  /** Every header field is a line of the block. */
  lemma {:induction false} FieldIsLine(text: string, p: nat, fs: seq<Field>, k: nat, i: nat, rest: string)
    requires k <= i < |fs| && At(text, p, Fields(fs, k) + (CRLF + rest))
    ensures HasLine(text, FieldLine(fs[i]))
    decreases i - k
  {
    var line := FieldLine(fs[k]);
    var next := Fields(fs, k + 1) + (CRLF + rest);
    assert Fields(fs, k) + (CRLF + rest) == CRLF + (line + next);
    if k == i {
      var tail := FieldsThenBreak(fs, k + 1, rest);
      assert CRLF + (line + next) == CRLF + (line + CRLF) + tail;
      AtSplit(text, p, CRLF + (line + CRLF), tail);
    } else {
      assert CRLF + (line + next) == (CRLF + line) + next;
      AtSplit(text, p, CRLF + line, next);
      FieldIsLine(text, p + 2 + |line|, fs, k + 1, i, rest);
    }
  }

  lemma HeadLines(status: nat, contentType: string, n: nat, allow: Option<string>, body: string, i: nat)
    requires i < |ResponseFields(contentType, n, allow)|
    ensures HasLine(Head(status, contentType, n, allow) + body, FieldLine(ResponseFields(contentType, n, allow)[i]))
  {
    var fs := ResponseFields(contentType, n, allow);
    var text := Head(status, contentType, n, allow) + body;
    var line := StatusLine(status);
    assert text == line + (Fields(fs, 0) + (CRLF + (CRLF + body)));
    assert At(text, 0, text);
    AtSplit(text, 0, line, Fields(fs, 0) + (CRLF + (CRLF + body)));
    FieldIsLine(text, |line|, fs, 0, i, CRLF + body);
  }

  /** What the header block of a response says. */
  predicate Announces(text: string, status: nat, contentType: string, n: nat, allow: Option<string>) {
    && TellsStatus(text, status)
    && HasLine(text, "Content-Type: " + contentType)
    && HasLine(text, "Content-Length: " + Decimal(n))
    && HasLine(text, "Connection: close")
    && (allow.Some? ==> HasLine(text, "Allow: " + allow.value))
  }

  /** How the four fields are written. */
  lemma LinesAre(contentType: string, n: nat, allow: string)
    ensures FieldLine(Field("Content-Type", contentType)) == "Content-Type: " + contentType
    ensures FieldLine(Field("Content-Length", Decimal(n))) == "Content-Length: " + Decimal(n)
    ensures FieldLine(Field("Allow", allow)) == "Allow: " + allow
    ensures FieldLine(Field("Connection", "close")) == "Connection: close"
  {
  }

  lemma HeadAnnounces(status: nat, contentType: string, n: nat, allow: Option<string>, body: string)
    requires status <= LONG_MAX
    ensures Announces(Head(status, contentType, n, allow) + body, status, contentType, n, allow)
  {
    var fs := ResponseFields(contentType, n, allow);
    var last := |fs| - 1;
    LinesAre(contentType, n, if allow.Some? then allow.value else "");
    HeadLines(status, contentType, n, allow, body, 0);
    HeadLines(status, contentType, n, allow, body, 1);
    HeadLines(status, contentType, n, allow, body, last);
    if allow.Some? {
      HeadLines(status, contentType, n, allow, body, 2);
    }
    HeadStarts(status, contentType, n, allow, body);
  }

  lemma HeadStarts(status: nat, contentType: string, n: nat, allow: Option<string>, body: string)
    requires status <= LONG_MAX
    ensures TellsStatus(Head(status, contentType, n, allow) + body, status)
  {
    var rest := Fields(ResponseFields(contentType, n, allow), 0) + (CRLF + CRLF) + body;
    assert Head(status, contentType, n, allow) + body == StatusLine(status) + rest;
    StatusReads(status, rest);
  }

  /** What a client that follows the framing rules gets: the status that was given, type, length and allowed methods,
      the header block up to the first CRLFCRLF, and as body everything after it, which is as long as announced. */
  lemma Framing(status: nat, contentType: string, body: string, allow: Option<string>)
    requires ValidType(contentType) && (allow.Some? ==> ValidType(allow.value)) && status <= LONG_MAX
    ensures var head := Head(status, contentType, |body|, allow);
            && |head| >= 4 && FirstBlank(head + body, |head| - 4)
            && (head + body)[|head|..] == body
            && Announces(head + body, status, contentType, |body|, allow)
  {
    StatusClean(status);
    FieldsValid(contentType, |body|, allow);
    BlockEnds(StatusLine(status), ResponseFields(contentType, |body|, allow), body);
    HeadAnnounces(status, contentType, |body|, allow, body);
  }

  lemma {:induction false} FieldsLength(fs: seq<Field>, k: nat, most: nat)
    requires k <= |fs| && forall i | 0 <= i < |fs| :: |FieldLine(fs[i])| <= most
    ensures |Fields(fs, k)| <= (|fs| - k) * (most + 2)
    decreases |fs| - k
  {
    if k < |fs| {
      FieldsLength(fs, k + 1, most);
      assert (|fs| - k) * (most + 2) == (|fs| - (k + 1)) * (most + 2) + (most + 2);
    }
  }

  /** With the types, allow lists and body sizes of this server the header always fits its buffer. */
  lemma HeadFits(status: nat, contentType: string, n: nat, allow: Option<string>)
    requires status < 1000 && |contentType| <= 128 && n < Power10(10) && (allow.Some? ==> |allow.value| <= 128)
    ensures |Head(status, contentType, n, allow)| < HEADER_CAP
  {
    var fs := ResponseFields(contentType, n, allow);
    assert Power10(3) == 1000;
    DecimalLength(status, 3, 1000);
    DecimalLength(n, 10, Power10(10));
    ReasonIsClean(status);
    assert |StatusLine(status)| <= 9 + 3 + 1 + 22;
    FieldsLength(fs, 0, 144);
    assert (|fs| - 0) * (144 + 2) <= 4 * 146;
  }

  // ---------- http_respond_error ----------

  function Status(e: ApiError): nat {
    match e
    case Ok => 200
    case BadRequest => 400
    case MissingField => 400
    case InvalidKey => 400
    case InvalidId => 400
    case InvalidQuery => 400
    case NotFound => 404
    case MethodNotAllowed => 405
    case LengthRequired => 411
    case PayloadTooLarge => 413
    case UnsupportedMedia => 415
    case Unauthorized => 401
    case Forbidden => 403
    case NotImplemented => 501
    case Internal => 500
  }

  /** The numbers that clients see. */
  lemma StatusNumbers(e: ApiError)
    ensures Status(e) == 400 <==> e in {BadRequest, MissingField, InvalidKey, InvalidId, InvalidQuery}
    ensures Status(e) == 401 <==> e == Unauthorized
    ensures Status(e) == 403 <==> e == Forbidden
    ensures Status(e) == 404 <==> e == NotFound
    ensures Status(e) == 405 <==> e == MethodNotAllowed
    ensures Status(e) == 411 <==> e == LengthRequired
    ensures Status(e) == 413 <==> e == PayloadTooLarge
    ensures Status(e) == 415 <==> e == UnsupportedMedia
    ensures Status(e) == 500 <==> e == Internal
    ensures Status(e) == 501 <==> e == NotImplemented
  {
  }

  function Code(e: ApiError): string {
    match e
    case Ok => "ok"
    case BadRequest => "bad_request"
    case MissingField => "missing_field"
    case InvalidKey => "invalid_key"
    case InvalidId => "invalid_id"
    case InvalidQuery => "invalid_query"
    case NotFound => "not_found"
    case MethodNotAllowed => "method_not_allowed"
    case LengthRequired => "length_required"
    case PayloadTooLarge => "payload_too_large"
    case UnsupportedMedia => "unsupported_media_type"
    case Unauthorized => "unauthorized"
    case Forbidden => "forbidden"
    case NotImplemented => "not_implemented"
    case Internal => "internal_error"
  }

  /** The codes that clients see in the error body. */
  lemma ErrorCodes()
    ensures Code(BadRequest) == "bad_request" && Code(MissingField) == "missing_field" && Code(InvalidKey) == "invalid_key"
    ensures Code(InvalidId) == "invalid_id" && Code(InvalidQuery) == "invalid_query" && Code(NotFound) == "not_found"
    ensures Code(MethodNotAllowed) == "method_not_allowed" && Code(LengthRequired) == "length_required"
    ensures Code(PayloadTooLarge) == "payload_too_large" && Code(UnsupportedMedia) == "unsupported_media_type"
    ensures Code(Unauthorized) == "unauthorized" && Code(Forbidden) == "forbidden"
    ensures Code(NotImplemented) == "not_implemented" && Code(Internal) == "internal_error"
    ensures Code(Shown(Ok)) == "internal_error" && Status(Shown(Ok)) == 500
    ensures forall e: ApiError | e != Ok :: Shown(e) == e
  {
  }

  predicate PlainCode(code: string) {
    |code| <= 22 && PlainName(code)
  }

  lemma CodeOfRequest(e: ApiError)
    requires e.Ok? || e.BadRequest? || e.MissingField? || e.InvalidKey? || e.InvalidId?
    ensures PlainCode(Code(e))
  {
    match e
    case Ok => assert PlainCode("ok");
    case BadRequest => assert PlainCode("bad_request");
    case MissingField => assert PlainCode("missing_field");
    case InvalidKey => assert PlainCode("invalid_key");
    case InvalidId => assert PlainCode("invalid_id");
  }

  lemma CodeOfRoute(e: ApiError)
    requires e.InvalidQuery? || e.NotFound? || e.MethodNotAllowed? || e.LengthRequired? || e.PayloadTooLarge?
    ensures PlainCode(Code(e))
  {
    match e
    case InvalidQuery => assert PlainCode("invalid_query");
    case NotFound => assert PlainCode("not_found");
    case MethodNotAllowed => assert PlainCode("method_not_allowed");
    case LengthRequired => assert PlainCode("length_required");
    case PayloadTooLarge => assert PlainCode("payload_too_large");
  }

  lemma CodeOfServer(e: ApiError)
    requires e.UnsupportedMedia? || e.Unauthorized? || e.Forbidden? || e.NotImplemented? || e.Internal?
    ensures PlainCode(Code(e))
  {
    match e
    case UnsupportedMedia => assert PlainCode("unsupported_media_type");
    case Unauthorized => assert PlainCode("unauthorized");
    case Forbidden => assert PlainCode("forbidden");
    case NotImplemented => assert PlainCode("not_implemented");
    case Internal => assert PlainCode("internal_error");
  }

  lemma CodeIsPlain(e: ApiError)
    ensures PlainCode(Code(e))
  {
    if e.Ok? || e.BadRequest? || e.MissingField? || e.InvalidKey? || e.InvalidId? {
      CodeOfRequest(e);
    } else if e.InvalidQuery? || e.NotFound? || e.MethodNotAllowed? || e.LengthRequired? || e.PayloadTooLarge? {
      CodeOfRoute(e);
    } else {
      CodeOfServer(e);
    }
  }

  const DETAIL_CAP := 512

  function SafeToken(c: char): Token {
    if c == '"' || c == '\\' then Escaped(c) else Plain(c)
  }

  function SafeTokens(s: string): (ts: seq<Token>)
    ensures |ts| == |s| && ValidTokens(ts) && Values(ts) == s
  {
    if s == [] then [] else SafeTokens(s[..|s| - 1]) + [SafeToken(s[|s| - 1])]
  }

  /** The detail with a backslash before every quote and backslash, and nothing else escaped. */
  function Safe(s: string): string {
    Texts(SafeTokens(s))
  }

  lemma {:induction false} TextsSnoc(ts: seq<Token>, t: Token)
    ensures Texts(ts + [t]) == Texts(ts) + Text(t)
  {
    if ts == [] {
      assert ts + [t] == [t];
      assert Texts([t]) == Text(t) + Texts([]);
    } else {
      assert (ts + [t])[1..] == ts[1..] + [t];
      TextsSnoc(ts[1..], t);
    }
  }

  lemma SafeStep(s: string, p: nat)
    requires p < |s|
    ensures Safe(s[..p + 1]) == Safe(s[..p]) + Text(SafeToken(s[p]))
  {
    assert s[..p + 1][..p] == s[..p];
    TextsSnoc(SafeTokens(s[..p]), SafeToken(s[p]));
  }

  /** How many bytes of the detail the loop copies from `p` on when `pos` bytes are written. */
  function CutFrom(detail: string, p: nat, pos: nat): (n: nat)
    requires p <= |detail|
    ensures p <= n <= |detail|
    decreases |detail| - p
  {
    if p < |detail| && pos + 2 < DETAIL_CAP then CutFrom(detail, p + 1, pos + |Text(SafeToken(detail[p]))|) else p
  }

  function Cut(detail: string): (n: nat)
    ensures n <= |detail|
  {
    CutFrom(detail, 0, 0)
  }

  method CopyDetail(detail: CString) returns (safe: string)
    ensures safe == Safe(detail[..Cut(detail)]) && |safe| < DETAIL_CAP
  {
    var buf := new char[DETAIL_CAP];
    var p, pos := 0, 0;
    while p < |detail| && pos + 2 < DETAIL_CAP
      invariant p <= |detail| && pos == |Safe(detail[..p])| < DETAIL_CAP
      invariant CutFrom(detail, p, pos) == Cut(detail)
      invariant buf[..pos] == Safe(detail[..p])
    {
      SafeStep(detail, p);
      var piece := if detail[p] == '"' || detail[p] == '\\' then ['\\', detail[p]] else [detail[p]];
      CopyTo(buf, pos, piece);
      p, pos := p + 1, pos + |piece|;
    }
    safe := buf[..pos];
  }

  /** The whole detail is copied exactly when what precedes its last byte leaves room for that byte. */
  lemma {:induction false} CutIsWhole(detail: string, p: nat)
    requires p <= |detail|
    ensures CutFrom(detail, p, |Safe(detail[..p])|) == |detail| <==>
            p == |detail| || |Safe(detail[..|detail| - 1])| + 2 < DETAIL_CAP
    decreases |detail| - p
  {
    if p < |detail| {
      SafeStep(detail, p);
      SafeGrows(detail, p, |detail| - 1);
      if |Safe(detail[..p])| + 2 < DETAIL_CAP {
        CutIsWhole(detail, p + 1);
      }
    }
  }

  lemma {:induction false} SafeGrows(s: string, p: nat, q: nat)
    requires p <= q <= |s|
    ensures |Safe(s[..p])| <= |Safe(s[..q])|
    decreases q - p
  {
    if p < q {
      SafeStep(s, q - 1);
      SafeGrows(s, p, q - 1);
    }
  }

  // ---------- error replies ----------

  /** API_OK is never reported as an error. */
  function Shown(e: ApiError): ApiError {
    if e == Ok then Internal else e
  }

  const ERROR_FIELD: CString := "error"
  const MESSAGE_FIELD: CString := "message"

  function ErrorBody(e: ApiError, detail: string): string {
    TwoEntries(ERROR_FIELD, Code(Shown(e)), MESSAGE_FIELD, Safe(detail[..Cut(detail)]))
  }

  const ALLOW_ALL: CString := "GET, POST, PUT, DELETE"
  const JSON_TYPE: CString := "application/json"

  function ErrorAllow(e: ApiError): Option<CString> {
    if Shown(e) == MethodNotAllowed then Some(ALLOW_ALL) else None
  }

  function ErrorText(e: ApiError, detail: string): string {
    var body := ErrorBody(e, detail);
    Head(Status(Shown(e)), JSON_TYPE, |body|, ErrorAllow(e)) + body
  }

  lemma {:induction false} CutFits(detail: string, p: nat)
    requires p <= |detail| && |Safe(detail[..p])| < DETAIL_CAP
    ensures |Safe(detail[..CutFrom(detail, p, |Safe(detail[..p])|)])| < DETAIL_CAP
    decreases |detail| - p
  {
    if p < |detail| && |Safe(detail[..p])| + 2 < DETAIL_CAP {
      SafeStep(detail, p);
      assert CutFrom(detail, p, |Safe(detail[..p])|) == CutFrom(detail, p + 1, |Safe(detail[..p + 1])|);
      CutFits(detail, p + 1);
    }
  }

  /** The body always fits its buffer of 1024 bytes: the overflow fallback is never taken. */
  lemma ErrorBodyFits(e: ApiError, detail: string)
    ensures |ErrorBody(e, detail)| < 1024
  {
    CodeIsPlain(Shown(e));
    assert detail[..0] == [];
    CutFits(detail, 0);
  }

  lemma FieldNames()
    ensures PlainName(ERROR_FIELD) && PlainName(MESSAGE_FIELD) && ERROR_FIELD != MESSAGE_FIELD
  {
  }

  /** An object of a plain code and an escaped detail, read back. */
  lemma CodeAndDetail(code: CString, kept: CString, name1: CString, name2: CString, cap: nat)
    requires PlainName(name1) && PlainName(name2) && name1 != name2 && PlainCode(code)
    requires |kept| < DETAIL_CAP < cap
    ensures GetString(TwoEntries(name1, code, name2, Safe(kept)), name1, cap) == Found(code)
    ensures GetString(TwoEntries(name1, code, name2, Safe(kept)), name2, cap) == Found(kept)
  {
    PlainTexts(code);
    CStrOfCString(code);
    CStrOfCString(kept);
    TwoRead(name1, PlainTokens(code), name2, SafeTokens(kept), name1, cap);
    TwoRead(name1, PlainTokens(code), name2, SafeTokens(kept), name2, cap);
  }

  /** Every error reply parses back: the code of the error, and as message a prefix of the detail, which
      is all of it exactly when the escaped text before its last byte is at most 509 bytes long. */
  lemma ErrorParsesBack(e: ApiError, detail: CString, cap: nat)
    requires cap > 512
    ensures GetString(ErrorBody(e, detail), ERROR_FIELD, cap) == Found(Code(Shown(e)))
    ensures GetString(ErrorBody(e, detail), MESSAGE_FIELD, cap) == Found(detail[..Cut(detail)])
    ensures Cut(detail) == |detail| <==> detail == [] || |Safe(detail[..|detail| - 1])| <= 509
  {
    FieldNames();
    CodeIsPlain(Shown(e));
    assert detail[..0] == [];
    CutFits(detail, 0);
    CutIsWhole(detail, 0);
    CodeAndDetail(Code(Shown(e)), detail[..Cut(detail)], ERROR_FIELD, MESSAGE_FIELD, cap);
  }

  /** In particular a detail whose escaped form is at most 510 bytes long is shown whole. */
  lemma ShortDetailIsWhole(detail: string)
    requires |Safe(detail)| <= 510
    ensures Cut(detail) == |detail|
  {
    assert detail[..0] == [] && detail[..|detail|] == detail;
    CutIsWhole(detail, 0);
    if detail != [] {
      SafeStep(detail, |detail| - 1);
    }
  }

  method RespondError(wire: Wire, e: ApiError, detail: CString) returns (result: int)
    modifies wire
    ensures |Head(Status(Shown(e)), JSON_TYPE, |ErrorBody(e, detail)|, ErrorAllow(e))| < HEADER_CAP ==>
              WentOut(old(wire.sent), wire.sent, ErrorText(e, detail), result)
  {
    var err := if e == Ok then Internal else e;
    var safe := CopyDetail(detail);
    var body := TwoEntries(ERROR_FIELD, Code(err), MESSAGE_FIELD, safe);
    ErrorBodyFits(e, detail);
    var allow: Option<CString> := if err == MethodNotAllowed then Some(ALLOW_ALL) else None;
    result := Respond(wire, Status(err), JSON_TYPE, body, allow);
  }
}
