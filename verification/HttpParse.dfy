/** http_parse_request of src/http.c: the end of the header block, the request line, the header lines. */
module HttpParse {
  import opened CText
  import opened Numbers

  const MAX_HEADERS := 16384
  const MAX_BODY := 65536
  const METHOD_WIDTH := 7
  const TARGET_WIDTH := 2047
  const VERSION_WIDTH := 15
  const NAME_LIMIT := 64

  datatype Method = Get | Post | Put | Delete | Unknown

  datatype Request = Request(
    verb: Method, verbText: string, path: string, query: string, contentLength: int,
    contentType: string, apiKey: string, chunked: bool, body: Option<string>)

  /** The request structure after memset: the first enum value is GET, content_length is set to -1. */
  const BLANK := Request(Get, "", "", "", -1, "", "", false, None)

  datatype Parsed = Parsed(error: ApiError, request: Request)

  function Min(a: nat, b: nat): nat {
    if a < b then a else b
  }

  function Truncate(s: string, max: nat): string {
    s[..Min(|s|, max)]
  }

  /** tolower in the C locale. */
  function Lower(c: char): char {
    if 'A' <= c <= 'Z' then c + 32 as char else c
  }

  function ToLower(s: string): (r: string)
    ensures |r| == |s| && forall i | 0 <= i < |s| :: r[i] == Lower(s[i])
  {
    seq(|s|, i requires 0 <= i < |s| => Lower(s[i]))
  }

  const UPPER := "ABCDEFGHIJKLMNOPQRSTUVWXYZ"
  const LOWER := "abcdefghijklmnopqrstuvwxyz"

  /** The alphabet is lowered letter by letter, every other byte stays. */
  lemma LowersTheAlphabet(c: char)
    ensures |UPPER| == |LOWER| == 26
    ensures forall i | 0 <= i < 26 :: Lower(UPPER[i]) == LOWER[i]
    ensures c !in UPPER ==> Lower(c) == c
  {
    if 'A' <= c <= 'Z' {
      assert UPPER[c as int - 'A' as int] == c;
    }
  }

  /** strstr finds `part`. */
  predicate Contains(s: string, part: string) {
    exists i | 0 <= i <= |s| :: At(s, i, part)
  }

  // ---------- request line ----------

  function WordEnd(s: string, p: nat, max: nat): (q: nat)
    requires p <= |s|
    ensures p <= q <= |s| && q <= p + max
    decreases max
  {
    if p < |s| && max > 0 && !IsSpace(s[p]) then WordEnd(s, p + 1, max - 1) else p
  }

  /** One %<max>s of sscanf from position `p`: skip spaces, take up to `max` other bytes, at least one. */
  function ScanWord(s: string, p: nat, max: nat): (r: Option<(string, nat)>)
    requires p <= |s|
    ensures r.Some? ==> r.value.1 <= |s| && 0 < |r.value.0| <= max
  {
    var start := SpaceEnd(s, p);
    var end := WordEnd(s, start, max);
    if end == start then None else Some((s[start..end], end))
  }

  function MethodOf(text: string): Method {
    if text == "GET" then Get
    else if text == "POST" then Post
    else if text == "PUT" then Put
    else if text == "DELETE" then Delete
    else Unknown
  }

  /** The path up to the first question mark, and the query after it. */
  function SplitTarget(target: string): (string, string) {
    var i := IndexOf(target, '?');
    if i == |target| then (target, "") else (target[..i], target[i + 1..])
  }

  function RequestOf(verb: string, target: string, version: string, req: Request): Parsed {
    if !At(version, 0, "HTTP/1.") then Parsed(BadRequest, req)
    else if target == [] || target[0] != '/' then Parsed(BadRequest, req)
    else
      var (path, query) := SplitTarget(target);
      Parsed(Ok, req.(verb := MethodOf(verb), verbText := verb, path := path, query := query))
  }

  function ParseRequestLine(line: string, req: Request): Parsed {
    match ScanWord(line, 0, METHOD_WIDTH)
    case None => Parsed(BadRequest, req)
    case Some((verb, p)) =>
      match ScanWord(line, p, TARGET_WIDTH)
      case None => Parsed(BadRequest, req)
      case Some((target, q)) =>
        match ScanWord(line, q, VERSION_WIDTH)
        case None => Parsed(BadRequest, req)
        case Some((version, _)) => RequestOf(verb, target, version, req)
  }

  // ---------- header lines ----------

  /** What a header line does to the request; it does not depend on the request. */
  datatype Effect = Reject(error: ApiError) | SetLength(n: nat) | SetType(text: string) | SetKey(text: string) | Chunked | Ignore

  function BlankEnd(s: string, p: nat): (q: nat)
    requires p <= |s|
    ensures p <= q <= |s|
    decreases |s| - p
  {
    if p < |s| && (s[p] == ' ' || s[p] == '\t') then BlankEnd(s, p + 1) else p
  }

  function TrailerEnd(s: string, p: nat): (q: nat)
    requires p <= |s|
    ensures p <= q <= |s|
    decreases |s| - p
  {
    if p < |s| && (s[p] == ' ' || s[p] == '\t' || s[p] == '\r') then TrailerEnd(s, p + 1) else p
  }

  function LengthEffect(value: string): Effect {
    var r := StrTol(value);
    if r.range || r.end == 0 || r.value < 0 || r.value > MAX_BODY then
      Reject(if r.value > MAX_BODY then PayloadTooLarge else BadRequest)
    else if TrailerEnd(value, r.end) < |value| then Reject(BadRequest)
    else SetLength(r.value)
  }

  function FieldEffect(name: string, value: string): Effect {
    if name == "content-length" then LengthEffect(value)
    else if name == "content-type" then SetType(Truncate(value, 127))
    else if name == "x-api-key" then SetKey(Truncate(value, 255))
    else if name == "transfer-encoding" then
      if Contains(ToLower(Truncate(value, 127)), "chunked") then Chunked else Ignore
    else Ignore
  }

  function HeaderEffect(line: string): Effect {
    var colon := IndexOf(line, ':');
    if colon == |line| || colon == 0 || colon >= NAME_LIMIT then Reject(BadRequest)
    else FieldEffect(ToLower(line[..colon]), line[BlankEnd(line, colon + 1)..])
  }

  function Apply(e: Effect, req: Request): Parsed {
    match e
    case Reject(error) => Parsed(error, req)
    case SetLength(n) => Parsed(Ok, req.(contentLength := n))
    case SetType(text) => Parsed(Ok, req.(contentType := text))
    case SetKey(text) => Parsed(Ok, req.(apiKey := text))
    case Chunked => Parsed(Ok, req.(chunked := true))
    case Ignore => Parsed(Ok, req)
  }

  // ---------- the header block ----------

  function ParseLine(line: string, first: bool, req: Request): Parsed {
    if first then ParseRequestLine(line, req)
    else if line == [] then Parsed(Ok, req)
    else Apply(HeaderEffect(line), req)
  }

  function StripReturn(line: string): string {
    if line != [] && line[|line| - 1] == '\r' then line[..|line| - 1] else line
  }

  function NewlinesEnd(h: string, p: nat): (q: nat)
    requires p <= |h|
    ensures p <= q <= |h| && (q < |h| ==> h[q] != '\n')
    decreases |h| - p
  {
    if p < |h| && h[p] == '\n' then NewlinesEnd(h, p + 1) else p
  }

  type LineParser = (string, bool, Request) -> Parsed

  /** The strtok loop over the lines of the header block from `p` on; empty lines are skipped by strtok.
      The loop does not depend on what `parse` does with a line. */
  function ParseLines(parse: LineParser, h: string, p: nat, first: bool, req: Request): Parsed
    requires p <= |h|
    decreases |h| - p
  {
    var start := NewlinesEnd(h, p);
    if start == |h| then Parsed(if first then BadRequest else Ok, req)
    else
      var end := IndexFrom(h, start, '\n');
      var r := parse(StripReturn(h[start..end]), first, req);
      if r.error != Ok then r
      else ParseLines(parse, h, if end == |h| then end else end + 1, false, r.request)
  }

  function Finish(r: Parsed): Parsed {
    if r.error != Ok then r
    else if r.request.verb == Unknown then Parsed(MethodNotAllowed, r.request)
    else if r.request.chunked then Parsed(NotImplemented, r.request)
    else r
  }

  /** Everything that follows from the header block; a NUL byte ends it for the C string functions. */
  function ParseHeader(header: string): Parsed {
    Finish(ParseLines(ParseLine, CStr(header), 0, true, BLANK))
  }

  // ---------- the end of the header block ----------

  predicate IsBlank(s: string, i: nat) {
    i + 3 < |s| && s[i] == '\r' && s[i + 1] == '\n' && s[i + 2] == '\r' && s[i + 3] == '\n'
  }

  /** The first CRLFCRLF of `s` starts at `i`. */
  predicate FirstBlank(s: string, i: nat) {
    IsBlank(s, i) && forall k: nat | k < i :: !IsBlank(s, k)
  }

  predicate NoBlank(s: string) {
    forall k: nat | k < |s| :: !IsBlank(s, k)
  }

  method FindBlank(s: string) returns (at: Option<nat>)
    ensures match at case None => NoBlank(s) case Some(i) => FirstBlank(s, i)
  {
    var i := 0;
    while i + 3 < |s|
      invariant forall k: nat | k < i :: !IsBlank(s, k)
    {
      if s[i] == '\r' && s[i + 1] == '\n' && s[i + 2] == '\r' && s[i + 3] == '\n' {
        return Some(i);
      }
      i := i + 1;
    }
    return None;
  }

  /** http_parse_request: the header block before the first CRLFCRLF decides everything. */
  method ParseRequest(buf: string) returns (r: Parsed)
    ensures NoBlank(buf) ==> r.error == BadRequest
    ensures forall i: nat | FirstBlank(buf, i) ::
              if i >= MAX_HEADERS then r.error == PayloadTooLarge else r == ParseHeader(buf[..i])
    ensures r.error == Ok ==> CleanRequest(r.request)
  {
    if |buf| == 0 {
      return Parsed(BadRequest, BLANK);
    }
    var end := FindBlank(buf);
    if end == None {
      return Parsed(BadRequest, BLANK);
    }
    if end.value >= MAX_HEADERS {
      return Parsed(PayloadTooLarge, BLANK);
    }
    r := ParseBlock(buf[..end.value]);
    assert forall i: nat | FirstBlank(buf, i) :: i == end.value;
  }

  method ParseBlock(header: string) returns (r: Parsed)
    ensures r == ParseHeader(header) && CleanRequest(r.request)
  {
    var scratch := CStr(header);
    r := RunLines(ParseLine, scratch, BLANK);
    LinesClean(ParseLine, scratch, 0, true, BLANK);
    r := Finish(r);
  }

  /** to_lower_in_place on a buffer that holds `s`. */
  method LowerInPlace(text: array<char>, ghost s: CString)
    requires Holds(text[..], s)
    modifies text
    ensures Holds(text[..], ToLower(s))
  {
    assert forall k | 0 <= k < |s| :: s[k] in s && text[k] == text[..][..|s| + 1][k];
    assert text[|s|] == text[..][..|s| + 1][|s|];
    var i := 0;
    while text[i] != '\0'
      invariant i <= |s|
      invariant forall k | 0 <= k < i :: text[k] == Lower(s[k])
      invariant forall k | i <= k < |s| :: text[k] == s[k] != '\0'
      invariant text[|s|] == '\0'
      decreases |s| - i
    {
      text[i] := Lower(text[i]);
      i := i + 1;
    }
    assert text[..][..|s| + 1] == ToLower(s) + "\0";
  }

  /** The value of Content-Length: a number in range, and nothing after it but blanks. */
  method ReadLength(value: CString, req: Request) returns (r: Parsed)
    ensures r == Apply(LengthEffect(value), req)
  {
    var scanned := StrTol(value);
    if scanned.range || scanned.end == 0 || scanned.value < 0 || scanned.value > MAX_BODY {
      return Parsed(if scanned.value > MAX_BODY then PayloadTooLarge else BadRequest, req);
    }
    var end := scanned.end;
    while end < |value| && (value[end] == ' ' || value[end] == '\t' || value[end] == '\r')
      invariant scanned.end <= end <= |value|
      invariant TrailerEnd(value, end) == TrailerEnd(value, scanned.end)
    {
      end := end + 1;
    }
    if end < |value| {
      return Parsed(BadRequest, req);
    }
    return Parsed(Ok, req.(contentLength := scanned.value));
  }

  /** Lower-case the first 127 bytes of the value and look for "chunked". */
  method ReadEncoding(value: CString, req: Request) returns (r: Parsed)
    ensures r == Parsed(Ok, if Contains(ToLower(Truncate(value, 127)), "chunked") then req.(chunked := true) else req)
  {
    var kept := Truncate(value, 127);
    var lowered := new char[128];
    CopyTo(lowered, 0, kept + "\0");
    assert lowered[..][..|kept| + 1] == kept + "\0";
    LowerInPlace(lowered, kept);
    assert lowered[..|kept|] == lowered[..][..|kept| + 1][..|kept|];
    return Parsed(Ok, if Contains(lowered[..|kept|], "chunked") then req.(chunked := true) else req);
  }

  method ReadField(name: string, value: CString, req: Request) returns (r: Parsed)
    ensures r == Apply(FieldEffect(name, value), req)
  {
    if name == "content-length" {
      r := ReadLength(value, req);
    } else if name == "content-type" {
      r := Parsed(Ok, req.(contentType := Truncate(value, 127)));
    } else if name == "x-api-key" {
      r := Parsed(Ok, req.(apiKey := Truncate(value, 255)));
    } else if name == "transfer-encoding" {
      r := ReadEncoding(value, req);
    } else {
      r := Parsed(Ok, req);
    }
  }

  /** parse_header_line */
  method ReadHeaderLine(line: CString, req: Request) returns (r: Parsed)
    ensures r == Apply(HeaderEffect(line), req)
  {
    var colon := IndexOf(line, ':');
    if colon == |line| {
      return Parsed(BadRequest, req);
    }
    if colon == 0 || colon >= NAME_LIMIT {
      return Parsed(BadRequest, req);
    }
    var name := LowerName(line[..colon]);
    var value := colon + 1;
    while value < |line| && (line[value] == ' ' || line[value] == '\t')
      invariant colon < value <= |line|
      invariant BlankEnd(line, value) == BlankEnd(line, colon + 1)
    {
      value := value + 1;
    }
    r := ReadField(name, line[value..], req);
  }

  /** The name in lower case, through a local buffer. */
  method LowerName(name: CString) returns (lowered: string)
    requires |name| < NAME_LIMIT
    ensures lowered == ToLower(name)
  {
    var buf := new char[NAME_LIMIT];
    CopyTo(buf, 0, name + "\0");
    assert buf[..][..|name| + 1] == name + "\0";
    LowerInPlace(buf, name);
    assert buf[..|name|] == buf[..][..|name| + 1][..|name|];
    lowered := buf[..|name|];
  }

  predicate AgreesOn(parse: LineParser, line: string, first: bool, req: Request) {
    parse(line, first, req) == ParseLine(line, first, req)
  }

  /** `parse` is ParseLine. */
  ghost predicate IsParseLine(parse: LineParser) {
    forall line, first, req :: AgreesOn(parse, line, first, req)
  }

  method ReadLine(ghost parse: LineParser, line: CString, first: bool, req: Request) returns (r: Parsed)
    requires IsParseLine(parse)
    ensures r == parse(line, first, req)
  {
    assert AgreesOn(parse, line, first, req);
    if first {
      r := ParseRequestLine(line, req);
    } else if line == [] {
      r := Parsed(Ok, req);
    } else {
      r := ReadHeaderLine(line, req);
    }
  }

  /** The next line that strtok finds, without its carriage return, and where to look for the one after it. */
  method NextLine(scratch: CString, p: nat) returns (line: CString, next: nat)
    requires p <= |scratch| && NewlinesEnd(scratch, p) < |scratch|
    ensures var start := NewlinesEnd(scratch, p);
            var end := IndexFrom(scratch, start, '\n');
            && line == StripReturn(scratch[start..end])
            && p < next <= |scratch| && next == if end == |scratch| then end else end + 1
  {
    var start := NewlinesEnd(scratch, p);
    var end := IndexFrom(scratch, start, '\n');
    line := scratch[start..end];
    if |line| > 0 && line[|line| - 1] == '\r' {
      line := line[..|line| - 1];
    }
    next := if end == |scratch| then end else end + 1;
  }

  /** One turn of the strtok loop. */
  method ReadNext(ghost parse: LineParser, scratch: CString, p: nat, first: bool, req: Request) returns (r: Parsed, next: nat)
    requires p <= |scratch| && NewlinesEnd(scratch, p) < |scratch| && IsParseLine(parse)
    ensures p < next <= |scratch|
    ensures ParseLines(parse, scratch, p, first, req) ==
            if r.error != Ok then r else ParseLines(parse, scratch, next, false, r.request)
  {
    var line;
    line, next := NextLine(scratch, p);
    r := ReadLine(parse, line, first, req);
  }

  /** The strtok loop over the lines of the header block. */
  method RunLines(ghost parse: LineParser, scratch: CString, blank: Request) returns (r: Parsed)
    requires IsParseLine(parse)
    ensures r == ParseLines(parse, scratch, 0, true, blank)
  {
    r := Parsed(Ok, blank);
    var p, first := 0, true;
    while r.error == Ok && NewlinesEnd(scratch, p) < |scratch|
      invariant p <= |scratch|
      invariant ParseLines(parse, scratch, 0, true, blank) ==
                if r.error != Ok then r else ParseLines(parse, scratch, p, first, r.request)
      decreases |scratch| - p, r.error == Ok
    {
      r, p := ReadNext(parse, scratch, p, first, r.request);
      first := false;
    }
    if r.error == Ok && first {
      r := Parsed(BadRequest, r.request);
    }
  }

  // ---------- parsed texts are C strings ----------

  /** All texts of the request structure are C strings. */
  predicate CleanRequest(req: Request) {
    NulFree(req.verbText) && NulFree(req.path) && NulFree(req.query) && NulFree(req.contentType) && NulFree(req.apiKey)
  }

  lemma ScanClean(s: CString, p: nat, max: nat)
    requires p <= |s|
    ensures ScanWord(s, p, max).Some? ==> NulFree(ScanWord(s, p, max).value.0)
  {
  }

  lemma LineClean(line: CString, first: bool, req: Request)
    requires CleanRequest(req)
    ensures CleanRequest(ParseLine(line, first, req).request)
  {
    if first {
      FirstLineClean(line, req);
    } else if line != [] {
      EffectClean(HeaderEffect(line), line, req);
    }
  }

  lemma FirstLineClean(line: CString, req: Request)
    requires CleanRequest(req)
    ensures CleanRequest(ParseRequestLine(line, req).request)
  {
    var verb := ScanWord(line, 0, METHOD_WIDTH);
    ScanClean(line, 0, METHOD_WIDTH);
    if verb.Some? {
      var target := ScanWord(line, verb.value.1, TARGET_WIDTH);
      ScanClean(line, verb.value.1, TARGET_WIDTH);
      if target.Some? {
        SplitClean(target.value.0);
      }
    }
  }

  lemma SplitClean(target: CString)
    ensures NulFree(SplitTarget(target).0) && NulFree(SplitTarget(target).1)
  {
  }

  lemma EffectClean(e: Effect, line: CString, req: Request)
    requires CleanRequest(req) && e == HeaderEffect(line)
    ensures CleanRequest(Apply(e, req).request)
  {
  }

  lemma {:induction false} LinesClean(parse: LineParser, h: CString, p: nat, first: bool, req: Request)
    requires IsParseLine(parse) && p <= |h| && CleanRequest(req)
    ensures CleanRequest(ParseLines(parse, h, p, first, req).request)
    decreases |h| - p
  {
    var start := NewlinesEnd(h, p);
    if start < |h| {
      var end := IndexFrom(h, start, '\n');
      var line := StripReturn(h[start..end]);
      assert AgreesOn(parse, line, first, req);
      LineClean(line, first, req);
      LinesClean(parse, h, if end == |h| then end else end + 1, false, parse(line, first, req).request);
    }
  }
}
