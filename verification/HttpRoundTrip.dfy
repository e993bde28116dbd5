/** Printing a request and parsing it again; the order and the case of header names do not matter. */
module HttpRoundTrip {
  import opened CText
  import opened Numbers
  import opened HttpParse
  import opened HttpRead

  const CRLF := "\r\n"

  /** A line that stays one line and one C string. */
  predicate CleanText(s: string) {
    forall i | 0 <= i < |s| :: s[i] != '\r' && s[i] != '\n' && s[i] != '\0'
  }

  /** A header field and the blanks between its colon and its value. */
  datatype Field = Field(name: string, value: string, gap: string := " ")

  predicate Blanks(s: string) {
    forall i | 0 <= i < |s| :: s[i] == ' ' || s[i] == '\t'
  }

  predicate ValidField(f: Field) {
    && Blanks(f.gap)
    && 0 < |f.name| < NAME_LIMIT && CleanText(f.name) && (forall i | 0 <= i < |f.name| :: f.name[i] != ':')
    && CleanText(f.value) && (f.value != [] ==> f.value[0] != ' ' && f.value[0] != '\t')
  }

  predicate ValidFields(fs: seq<Field>) {
    forall i | 0 <= i < |fs| :: ValidField(fs[i])
  }

  function FieldLine(f: Field): string {
    f.name + ([':'] + (f.gap + f.value))
  }

  /** The header lines from the k-th on, each after a line break. */
  function Fields(fs: seq<Field>, k: nat): string
    requires k <= |fs|
    decreases |fs| - k
  {
    if k == |fs| then [] else CRLF + (FieldLine(fs[k]) + Fields(fs, k + 1))
  }

  /** The header block without the empty line that ends it. */
  function Block(requestLine: string, fs: seq<Field>): string {
    requestLine + Fields(fs, 0)
  }

  // ---------- lines ----------

  predicate LineTail(tail: string) {
    tail == [] || At(tail, 0, CRLF)
  }

  lemma FieldsTail(fs: seq<Field>, k: nat)
    requires k <= |fs|
    ensures LineTail(Fields(fs, k))
  {
  }

  /** strtok finds a clean line, and stripping the carriage return leaves just that line. */
  lemma LineThen(h: string, p: nat, line: string, tail: string) returns (end: nat)
    requires line != [] && CleanText(line) && LineTail(tail)
    requires At(h, p, line + tail) && p + |line| + |tail| == |h|
    ensures p <= |h| && NewlinesEnd(h, p) == p < |h| && end == IndexFrom(h, p, '\n')
    ensures StripReturn(h[p..end]) == line
    ensures if tail == [] then end == |h| else end + 1 == p + |line| + 2
  {
    AtSplit(h, p, line, tail);
    assert h[p + 0] == line[0];
    var q := p + |line|;
    forall i | p <= i < q
      ensures h[i] != '\n'
    {
      assert h[p + (i - p)] == line[i - p];
    }
    if tail != [] {
      assert tail[0] == CRLF[0] && tail[1] == CRLF[1];
      assert h[q + 0] == tail[0] && h[q + 1] == tail[1];
      end := q + 1;
      assert h[p..end] == line + ['\r'];
      IndexFromIs(h, p, '\n', end);
    } else {
      end := q;
      assert h[p..end] == line;
      assert line[|line| - 1] != '\r';
      IndexFromIs(h, p, '\n', end);
    }
  }

  lemma {:induction false} IndexFromIs(s: string, p: nat, c: char, i: nat)
    requires p <= i <= |s| && (forall k | p <= k < i :: s[k] != c) && (i < |s| ==> s[i] == c)
    ensures IndexFrom(s, p, c) == i
  {
  }

  /** The lines of the block, one after the other. */
  function FoldFields(parse: LineParser, fs: seq<Field>, k: nat, req: Request): Parsed
    requires k <= |fs|
    decreases |fs| - k
  {
    if k == |fs| then Parsed(Ok, req)
    else
      var r := parse(FieldLine(fs[k]), false, req);
      if r.error != Ok then r else FoldFields(parse, fs, k + 1, r.request)
  }

  lemma FieldLineClean(f: Field)
    requires ValidField(f)
    ensures FieldLine(f) != [] && CleanText(FieldLine(f))
  {
  }

  lemma ParseOne(parse: LineParser, h: string, p: nat, line: string, tail: string, first: bool, req: Request)
    requires line != [] && CleanText(line) && LineTail(tail)
    requires At(h, p, line + tail) && p + |line| + |tail| == |h|
    ensures p <= |h| && At(h, p + |line|, tail)
    ensures var r := parse(line, first, req);
            var next := p + |line| + if tail == [] then 0 else 2;
            next <= |h| &&
            ParseLines(parse, h, p, first, req) == if r.error != Ok then r else ParseLines(parse, h, next, false, r.request)
  {
    var end := LineThen(h, p, line, tail);
    AtSplit(h, p, line, tail);
  }

  lemma FieldsEmpty(fs: seq<Field>, k: nat)
    requires k <= |fs|
    ensures Fields(fs, k) == [] <==> k == |fs|
  {
  }

  /** Where strtok goes on: after the line break, if a field follows. */
  function Next(fs: seq<Field>, k: nat, p: nat): nat {
    if k < |fs| then p + 2 else p
  }

  lemma FieldStep(parse: LineParser, h: string, p: nat, fs: seq<Field>, k: nat, req: Request) returns (q: nat)
    requires k < |fs| && ValidFields(fs)
    requires At(h, p, Fields(fs, k)) && p + |Fields(fs, k)| == |h|
    ensures At(h, q, Fields(fs, k + 1)) && q + |Fields(fs, k + 1)| == |h|
    ensures p + 2 <= |h| && Next(fs, k + 1, q) <= |h|
    ensures var r := parse(FieldLine(fs[k]), false, req);
            ParseLines(parse, h, p + 2, false, req) ==
            if r.error != Ok then r else ParseLines(parse, h, Next(fs, k + 1, q), false, r.request)
  {
    var line, tail := FieldLine(fs[k]), Fields(fs, k + 1);
    q := p + 2 + |line|;
    FieldLineClean(fs[k]);
    FieldsTail(fs, k + 1);
    FieldsEmpty(fs, k + 1);
    assert Fields(fs, k) == CRLF + (line + tail);
    AtSplit(h, p, CRLF, line + tail);
    assert q + |tail| == |h|;
    ParseOne(parse, h, p + 2, line, tail, false, req);
  }

  lemma {:induction false} ParseFields(parse: LineParser, h: string, p: nat, fs: seq<Field>, k: nat, req: Request)
    requires k <= |fs| && ValidFields(fs)
    requires At(h, p, Fields(fs, k)) && p + |Fields(fs, k)| == |h|
    ensures Next(fs, k, p) <= |h|
    ensures ParseLines(parse, h, Next(fs, k, p), false, req) == FoldFields(parse, fs, k, req)
    decreases |fs| - k
  {
    if k < |fs| {
      var q := FieldStep(parse, h, p, fs, k, req);
      ParseFields(parse, h, q, fs, k + 1, parse(FieldLine(fs[k]), false, req).request);
    }
  }

  /** A block is parsed line by line. */
  lemma ParseBlock(parse: LineParser, line: string, fs: seq<Field>, req: Request)
    requires line != [] && CleanText(line) && ValidFields(fs)
    ensures var r := parse(line, true, req);
            ParseLines(parse, Block(line, fs), 0, true, req) ==
            if r.error != Ok then r else FoldFields(parse, fs, 0, r.request)
  {
    var h := Block(line, fs);
    FieldsTail(fs, 0);
    FieldsEmpty(fs, 0);
    assert At(h, 0, line + Fields(fs, 0));
    ParseOne(parse, h, 0, line, Fields(fs, 0), true, req);
    ParseFields(parse, h, |line|, fs, 0, parse(line, true, req).request);
  }

  // ---------- where the block ends ----------

  lemma {:induction false} NoBlankInside(s: string, p: nat, fs: seq<Field>, k: nat)
    requires k <= |fs| && ValidFields(fs) && At(s, p, Fields(fs, k) + (CRLF + CRLF))
    ensures forall i: nat | p <= i < p + |Fields(fs, k)| :: !IsBlank(s, i)
    decreases |fs| - k
  {
    if k < |fs| {
      var line, tail := FieldLine(fs[k]), Fields(fs, k + 1) + (CRLF + CRLF);
      FieldLineClean(fs[k]);
      assert Fields(fs, k) + (CRLF + CRLF) == CRLF + (line + tail);
      AtSplit(s, p, CRLF, line + tail);
      AtSplit(s, p + 2, line, tail);
      NoBlankInside(s, p + 2 + |line|, fs, k + 1);
      CleanIsNoBlank(s, p, line);
    }
  }

  /** No CRLFCRLF starts at a line break before a clean line, or in that line. */
  lemma CleanIsNoBlank(s: string, p: nat, line: string)
    requires line != [] && CleanText(line) && At(s, p, CRLF) && At(s, p + 2, line)
    ensures forall i: nat | p <= i < p + 2 + |line| :: !IsBlank(s, i)
  {
    assert s[p + 1] == CRLF[1];
    assert s[p + 2 + 0] == line[0];
    forall i: nat | p + 2 <= i < p + 2 + |line|
      ensures !IsBlank(s, i)
    {
      assert s[p + 2 + (i - p - 2)] == line[i - p - 2];
    }
  }

  /** The header block of a printed request ends where it should, whatever the body is. */
  lemma BlockEnds(line: string, fs: seq<Field>, body: string)
    requires line != [] && CleanText(line) && ValidFields(fs)
    ensures FirstBlank(Block(line, fs) + (CRLF + CRLF) + body, |Block(line, fs)|)
  {
    var s := Block(line, fs) + (CRLF + CRLF) + body;
    var rest := Fields(fs, 0) + (CRLF + CRLF);
    assert s == line + (rest + body);
    assert At(s, 0, line + (rest + body));
    AtSplit(s, 0, line, rest + body);
    AtSplit(s, |line|, rest, body);
    NoBlankInside(s, |line|, fs, 0);
    forall i: nat | i < |line|
      ensures !IsBlank(s, i)
    {
      assert s[0 + i] == line[i];
    }
    AtSplit(s, |line|, Fields(fs, 0), CRLF + CRLF);
    BlankHere(s, |Block(line, fs)|);
  }

  lemma BlankHere(s: string, e: nat)
    requires At(s, e, CRLF + CRLF)
    ensures IsBlank(s, e)
  {
    var blank := CRLF + CRLF;
    assert s[e + 0] == blank[0] && s[e + 1] == blank[1] && s[e + 2] == blank[2] && s[e + 3] == blank[3];
  }

  // ---------- the request line ----------

  /** A word of a printed request line. */
  predicate Word(s: string, max: nat) {
    0 < |s| <= max && CleanText(s) && forall i | 0 <= i < |s| :: !IsSpace(s[i])
  }

  lemma {:induction false} WordEndIs(s: string, p: nat, q: nat, max: nat)
    requires p <= q <= |s| && q - p <= max && (forall i | p <= i < q :: !IsSpace(s[i]))
    requires q < |s| ==> IsSpace(s[q])
    ensures WordEnd(s, p, max) == q
    decreases q - p
  {
    if p < q {
      WordEndIs(s, p + 1, q, max - 1);
    }
  }

  /** sscanf reads a word that stands at `p`, or behind one space at `p`. */
  lemma ScanWordIs(s: string, p: nat, gap: nat, w: string, end: nat, max: nat)
    requires gap <= 1 && (gap == 1 ==> p < |s| && s[p] == ' ')
    requires end == p + gap + |w| <= |s| && (end < |s| ==> s[end] == ' ')
    requires Word(w, max) && At(s, p + gap, w)
    ensures ScanWord(s, p, max) == Some((w, end))
  {
    var start := p + gap;
    forall i | start <= i < end
      ensures !IsSpace(s[i])
    {
      assert s[start + (i - start)] == w[i - start];
    }
    assert SpaceEnd(s, p) == start;
    WordEndIs(s, start, end, max);
    AtIs(s, start, w);
  }

  /** The methods as clients write them. */
  function MethodName(m: Method): string
    requires m != Unknown
  {
    match m
    case Get => "GET"
    case Post => "POST"
    case Put => "PUT"
    case Delete => "DELETE"
  }

  /** The three words of a request line. */
  datatype Opening = Opening(verb: string, target: string, version: string)

  function RequestLine(o: Opening): string {
    o.verb + ([' '] + (o.target + ([' '] + o.version)))
  }

  lemma WordsLayout(s: string, a: string, b: string, c: string) returns (p: nat, q: nat)
    requires s == a + ([' '] + (b + ([' '] + c)))
    ensures p == |a| && q == p + 1 + |b| && q + 1 + |c| == |s|
    ensures At(s, 0, a) && s[p] == ' ' && At(s, p + 1, b) && s[q] == ' ' && At(s, q + 1, c)
  {
    var last := [' '] + c;
    var rest := [' '] + (b + last);
    p, q := |a|, |a| + 1 + |b|;
    AtSplit(s, 0, a, rest);
    AtHead(s, p, ' ', b + last);
    AtSplit(s, p + 1, b, last);
    AtHead(s, q, ' ', c);
  }

  /** Three words with one space between them. */
  lemma ThreeWords(s: string, a: string, b: string, c: string) returns (p: nat, q: nat)
    requires s == a + ([' '] + (b + ([' '] + c)))
    requires Word(a, METHOD_WIDTH) && Word(b, TARGET_WIDTH) && Word(c, VERSION_WIDTH)
    ensures p <= |s| && q <= |s|
    ensures ScanWord(s, 0, METHOD_WIDTH) == Some((a, p))
    ensures ScanWord(s, p, TARGET_WIDTH) == Some((b, q))
    ensures ScanWord(s, q, VERSION_WIDTH) == Some((c, |s|))
  {
    p, q := WordsLayout(s, a, b, c);
    ScanWordIs(s, 0, 0, a, p, METHOD_WIDTH);
    ScanWordIs(s, p, 1, b, q, TARGET_WIDTH);
    ScanWordIs(s, q, 1, c, |s|, VERSION_WIDTH);
  }

  lemma ParsesWords(s: string, p: nat, q: nat, e: nat, verb: string, target: string, version: string, req: Request)
    requires p <= |s| && q <= |s|
    requires ScanWord(s, 0, METHOD_WIDTH) == Some((verb, p))
    requires ScanWord(s, p, TARGET_WIDTH) == Some((target, q))
    requires ScanWord(s, q, VERSION_WIDTH) == Some((version, e))
    ensures ParseRequestLine(s, req) == RequestOf(verb, target, version, req)
  {
  }

  lemma RequestLineParses(o: Opening, req: Request)
    requires Word(o.verb, METHOD_WIDTH) && Word(o.target, TARGET_WIDTH) && Word(o.version, VERSION_WIDTH)
    ensures ParseRequestLine(RequestLine(o), req) == RequestOf(o.verb, o.target, o.version, req)
  {
    var line := RequestLine(o);
    var p, q := ThreeWords(line, o.verb, o.target, o.version);
    ParsesWords(line, p, q, |line|, o.verb, o.target, o.version, req);
  }

  lemma RequestOfOne(o: Opening, req: Request)
    requires o.target != [] && o.target[0] == '/' && At(o.version, 0, "HTTP/1.")
    ensures RequestOf(o.verb, o.target, o.version, req) ==
            Parsed(Ok, req.(verb := MethodOf(o.verb), verbText := o.verb,
                            path := SplitTarget(o.target).0, query := SplitTarget(o.target).1))
  {
  }

  /** Path and query are split at the first question mark. */
  lemma SplitTargetIs(path: string, query: string)
    requires forall i | 0 <= i < |path| :: path[i] != '?'
    ensures SplitTarget(path + (['?'] + query)) == (path, query)
    ensures SplitTarget(path) == (path, "")
  {
    var target := path + (['?'] + query);
    IndexIs(target, '?', |path|);
    IndexIs(path, '?', |path|);
    assert target[..|path|] == path && target[|path| + 1..] == query;
  }

  // ---------- header fields ----------

  function EffectOf(f: Field): Effect {
    FieldEffect(ToLower(f.name), f.value)
  }

  /** A printed header line has the effect of its field: only the lower-case name and the value count. */
  lemma FieldLineEffect(f: Field)
    requires ValidField(f)
    ensures HeaderEffect(FieldLine(f)) == EffectOf(f)
  {
    var line := FieldLine(f);
    var colon := |f.name|;
    assert line[colon] == ':';
    forall k | 0 <= k < colon
      ensures line[k] != ':'
    {
      assert line[k] == f.name[k];
    }
    IndexIs(line, ':', colon);
    assert line[..colon] == f.name;
    var start := colon + 1 + |f.gap|;
    assert line[start..] == f.value && line[colon + 1..start] == f.gap;
    forall i | colon < i < start
      ensures line[i] == ' ' || line[i] == '\t'
    {
      assert line[i] == f.gap[i - (colon + 1)];
    }
    assert start < |line| ==> line[start] == f.value[0];
    BlankEndIs(line, colon + 1, start);
  }

  lemma {:induction false} BlankEndIs(s: string, p: nat, q: nat)
    requires p <= q <= |s| && (forall i | p <= i < q :: s[i] == ' ' || s[i] == '\t')
    requires q < |s| ==> s[q] != ' ' && s[q] != '\t'
    ensures BlankEnd(s, p) == q
    decreases q - p
  {
    if p < q {
      BlankEndIs(s, p + 1, q);
    }
  }

  // ---------- the order of the fields ----------

  /** The effects of header fields, one after the other. */
  function FoldEffects(es: seq<Effect>, k: nat, req: Request): Parsed
    requires k <= |es|
    decreases |es| - k
  {
    if k == |es| then Parsed(Ok, req)
    else
      var r := Apply(es[k], req);
      if r.error != Ok then r else FoldEffects(es, k + 1, r.request)
  }

  predicate Accepting(es: seq<Effect>) {
    forall i | 0 <= i < |es| :: !es[i].Reject?
  }

  /** Two effects set the same member of the request. */
  predicate Clash(a: Effect, b: Effect) {
    (a.SetLength? && b.SetLength?) || (a.SetType? && b.SetType?) || (a.SetKey? && b.SetKey?)
  }

  predicate NoClash(es: seq<Effect>) {
    forall i, j | 0 <= i < j < |es| :: !Clash(es[i], es[j])
  }

  lemma {:induction false} FoldLength(es: seq<Effect>, k: nat, req: Request)
    requires k <= |es| && Accepting(es) && NoClash(es)
    ensures FoldEffects(es, k, req).error == Ok
    ensures forall i | k <= i < |es| && es[i].SetLength? :: FoldEffects(es, k, req).request.contentLength == es[i].n
    ensures (forall i | k <= i < |es| :: !es[i].SetLength?) ==>
              FoldEffects(es, k, req).request.contentLength == req.contentLength
    decreases |es| - k
  {
    if k < |es| {
      FoldLength(es, k + 1, Apply(es[k], req).request);
    }
  }

  lemma {:induction false} FoldType(es: seq<Effect>, k: nat, req: Request)
    requires k <= |es| && Accepting(es) && NoClash(es)
    ensures forall i | k <= i < |es| && es[i].SetType? :: FoldEffects(es, k, req).request.contentType == es[i].text
    ensures (forall i | k <= i < |es| :: !es[i].SetType?) ==>
              FoldEffects(es, k, req).request.contentType == req.contentType
    decreases |es| - k
  {
    if k < |es| {
      FoldType(es, k + 1, Apply(es[k], req).request);
    }
  }

  lemma {:induction false} FoldKey(es: seq<Effect>, k: nat, req: Request)
    requires k <= |es| && Accepting(es) && NoClash(es)
    ensures forall i | k <= i < |es| && es[i].SetKey? :: FoldEffects(es, k, req).request.apiKey == es[i].text
    ensures (forall i | k <= i < |es| :: !es[i].SetKey?) ==>
              FoldEffects(es, k, req).request.apiKey == req.apiKey
    decreases |es| - k
  {
    if k < |es| {
      FoldKey(es, k + 1, Apply(es[k], req).request);
    }
  }

  lemma {:induction false} FoldRest(es: seq<Effect>, k: nat, req: Request)
    requires k <= |es| && Accepting(es)
    ensures var r := FoldEffects(es, k, req).request;
            && r.verb == req.verb && r.verbText == req.verbText && r.path == req.path && r.query == req.query
            && r.body == req.body
            && (r.chunked <==> req.chunked || exists i :: k <= i < |es| && es[i].Chunked?)
    decreases |es| - k
  {
    if k < |es| {
      FoldRest(es, k + 1, Apply(es[k], req).request);
    }
  }

  ghost predicate SameEffects(es: seq<Effect>, fs: seq<Effect>) {
    && (forall i | 0 <= i < |es| :: es[i] in fs)
    && (forall j | 0 <= j < |fs| :: fs[j] in es)
  }

  /** Accepted effects without clashes can be applied in any order. */
  lemma OrderDoesNotMatter(es: seq<Effect>, fs: seq<Effect>, req: Request)
    requires Accepting(es) && Accepting(fs) && NoClash(es) && NoClash(fs) && SameEffects(es, fs)
    ensures FoldEffects(es, 0, req) == FoldEffects(fs, 0, req)
  {
    FoldLength(es, 0, req);
    FoldLength(fs, 0, req);
    FoldType(es, 0, req);
    FoldType(fs, 0, req);
    FoldKey(es, 0, req);
    FoldKey(fs, 0, req);
    FoldRest(es, 0, req);
    FoldRest(fs, 0, req);
    var a, b := FoldEffects(es, 0, req).request, FoldEffects(fs, 0, req).request;
    assert a.contentLength == b.contentLength;
    assert a.contentType == b.contentType;
    assert a.apiKey == b.apiKey;
    assert a.chunked == b.chunked;
  }

  // ---------- printed requests ----------

  function Effects(fs: seq<Field>): (es: seq<Effect>)
    ensures |es| == |fs| && forall i | 0 <= i < |fs| :: es[i] == EffectOf(fs[i])
  {
    seq(|fs|, i requires 0 <= i < |fs| => EffectOf(fs[i]))
  }

  lemma ParseLineIsEffect(f: Field, req: Request)
    requires ValidField(f)
    ensures ParseLine(FieldLine(f), false, req) == Apply(EffectOf(f), req)
  {
    FieldLineEffect(f);
    FieldLineClean(f);
  }

  lemma {:induction false} FoldIsEffects(fs: seq<Field>, k: nat, req: Request)
    requires k <= |fs| && ValidFields(fs)
    ensures FoldFields(ParseLine, fs, k, req) == FoldEffects(Effects(fs), k, req)
    decreases |fs| - k
  {
    if k < |fs| {
      ParseLineIsEffect(fs[k], req);
      FoldIsEffects(fs, k + 1, Apply(EffectOf(fs[k]), req).request);
    }
  }

  /** What a printed request line asks for. */
  function Asked(o: Opening): Request {
    BLANK.(verb := MethodOf(o.verb), verbText := o.verb, path := SplitTarget(o.target).0, query := SplitTarget(o.target).1)
  }

  predicate ValidOpening(o: Opening) {
    && Word(o.verb, METHOD_WIDTH) && Word(o.target, TARGET_WIDTH) && o.target[0] == '/'
    && Word(o.version, VERSION_WIDTH) && At(o.version, 0, "HTTP/1.")
  }

  function Printed(o: Opening, fs: seq<Field>): string {
    Block(RequestLine(o), fs)
  }

  lemma CleanBlock(line: string, fs: seq<Field>)
    requires CleanText(line) && ValidFields(fs)
    ensures NulFree(Block(line, fs))
  {
    CleanFields(fs, 0);
  }

  lemma {:induction false} CleanFields(fs: seq<Field>, k: nat)
    requires k <= |fs| && ValidFields(fs)
    ensures NulFree(Fields(fs, k))
    decreases |fs| - k
  {
    if k < |fs| {
      CleanFields(fs, k + 1);
      FieldLineClean(fs[k]);
    }
  }

  lemma RequestLineClean(o: Opening)
    requires ValidOpening(o)
    ensures RequestLine(o) != [] && CleanText(RequestLine(o))
  {
  }

  lemma ParseLineFirst(o: Opening)
    requires ValidOpening(o)
    ensures ParseLine(RequestLine(o), true, BLANK) == Parsed(Ok, Asked(o))
  {
    RequestLineParses(o, BLANK);
    RequestOfOne(o, BLANK);
  }

  /** Parsing undoes printing: the request line gives method, path and query, and each header field has
      its effect. */
  lemma PrintedParses(o: Opening, fs: seq<Field>)
    requires ValidOpening(o) && ValidFields(fs)
    ensures ParseHeader(Printed(o, fs)) == Finish(FoldEffects(Effects(fs), 0, Asked(o)))
  {
    var line := RequestLine(o);
    RequestLineClean(o);
    CleanBlock(line, fs);
    CStrOfCString(Block(line, fs));
    ParseBlock(ParseLine, line, fs, BLANK);
    ParseLineFirst(o);
    FoldIsEffects(fs, 0, Asked(o));
  }

  // ---------- the round trip ----------

  predicate DistinctNames(fs: seq<Field>) {
    forall i, j | 0 <= i < j < |fs| :: ToLower(fs[i].name) != ToLower(fs[j].name)
  }

  predicate SameField(a: Field, b: Field) {
    ToLower(a.name) == ToLower(b.name) && a.value == b.value
  }

  /** The same fields in any order, their names in any case. */
  ghost predicate SameFields(fs: seq<Field>, gs: seq<Field>) {
    && (forall i | 0 <= i < |fs| :: HasTwin(fs[i], gs))
    && (forall j | 0 <= j < |gs| :: HasTwin(gs[j], fs))
  }

  ghost predicate HasTwin(f: Field, gs: seq<Field>) {
    exists j :: 0 <= j < |gs| && SameField(f, gs[j])
  }

  lemma DistinctNoClash(fs: seq<Field>)
    requires DistinctNames(fs)
    ensures NoClash(Effects(fs))
  {
    forall i, j | 0 <= i < j < |fs|
      ensures !Clash(EffectOf(fs[i]), EffectOf(fs[j]))
    {
      ClashNames(fs[i], fs[j]);
    }
  }

  lemma ClashNames(a: Field, b: Field)
    ensures Clash(EffectOf(a), EffectOf(b)) ==> ToLower(a.name) == ToLower(b.name)
  {
    EffectName(ToLower(a.name), a.value);
    EffectName(ToLower(b.name), b.value);
  }

  lemma EffectName(name: string, value: string)
    ensures FieldEffect(name, value).SetLength? ==> name == "content-length"
    ensures FieldEffect(name, value).SetType? ==> name == "content-type"
    ensures FieldEffect(name, value).SetKey? ==> name == "x-api-key"
  {
  }

  lemma {:induction false} RejectedFold(es: seq<Effect>, k: nat, req: Request)
    requires k <= |es| && FoldEffects(es, k, req).error == Ok
    ensures forall i | k <= i < |es| :: !es[i].Reject? || es[i].error == Ok
    decreases |es| - k
  {
    if k < |es| {
      RejectedFold(es, k + 1, Apply(es[k], req).request);
    }
  }

  lemma NeverRejectsOk(f: Field)
    ensures EffectOf(f).Reject? ==> EffectOf(f).error != Ok
  {
    FieldNeverRejectsOk(ToLower(f.name), f.value);
  }

  lemma FieldNeverRejectsOk(name: string, value: string)
    ensures FieldEffect(name, value).Reject? ==> FieldEffect(name, value).error != Ok
  {
  }

  /** For accepted requests with distinct header names, neither the order of the header fields nor the
      case of their names changes what is parsed. */
  lemma HeaderOrderAndCase(o: Opening, fs: seq<Field>, gs: seq<Field>)
    requires ValidOpening(o) && ValidFields(fs) && ValidFields(gs)
    requires DistinctNames(fs) && DistinctNames(gs) && SameFields(fs, gs)
    requires ParseHeader(Printed(o, fs)).error == Ok
    ensures ParseHeader(Printed(o, gs)) == ParseHeader(Printed(o, fs))
  {
    PrintedParses(o, fs);
    PrintedParses(o, gs);
    var es, hs, req := Effects(fs), Effects(gs), Asked(o);
    DistinctNoClash(fs);
    DistinctNoClash(gs);
    FinishOk(FoldEffects(es, 0, req));
    RejectedFold(es, 0, req);
    SameFieldsEffects(fs, gs);
    forall i | 0 <= i < |fs|
      ensures !es[i].Reject?
    {
      NeverRejectsOk(fs[i]);
    }
    OrderDoesNotMatter(es, hs, req);
  }

  lemma FinishOk(r: Parsed)
    ensures Finish(r).error == Ok ==> r.error == Ok
  {
  }

  lemma TwinEffect(f: Field, gs: seq<Field>)
    requires HasTwin(f, gs)
    ensures EffectOf(f) in Effects(gs)
  {
    var j :| 0 <= j < |gs| && SameField(f, gs[j]);
    assert Effects(gs)[j] == EffectOf(f);
  }

  lemma SameFieldsEffects(fs: seq<Field>, gs: seq<Field>)
    requires SameFields(fs, gs)
    ensures SameEffects(Effects(fs), Effects(gs))
  {
    forall i | 0 <= i < |fs|
      ensures Effects(fs)[i] in Effects(gs)
    {
      TwinEffect(fs[i], gs);
    }
    forall j | 0 <= j < |gs|
      ensures Effects(gs)[j] in Effects(fs)
    {
      TwinEffect(gs[j], fs);
    }
  }

  // ---------- one request, from the client's side to the parsed structure ----------

  predicate ValidValue(s: string, max: nat) {
    |s| <= max && CleanText(s) && (s != [] ==> s[0] != ' ' && s[0] != '\t')
  }

  /** The headers that the server keeps, each if it is there. */
  datatype Headers = Headers(length: Option<nat>, contentType: Option<string>, key: Option<string>)

  const LENGTH_NAME := "content-length"
  const TYPE_NAME := "content-type"
  const KEY_NAME := "x-api-key"
  const ENCODING_NAME := "transfer-encoding"

  function FirstBytes(s: string, n: nat): string {
    if |s| <= n then s else s[..n]
  }

  /** The field says what the headers say, in any case of its name; the server keeps the first 127 bytes of a type and
      the first 255 of a key. Unknown fields may say anything. */
  predicate Agrees(f: Field, h: Headers) {
    var name := ToLower(f.name);
    if name == LENGTH_NAME then h.length.Some? && h.length.value <= MAX_BODY && f.value == Decimal(h.length.value)
    else if name == TYPE_NAME then h.contentType == Some(FirstBytes(f.value, 127))
    else if name == KEY_NAME then h.key == Some(FirstBytes(f.value, 255))
    else name == ENCODING_NAME ==> !Contains(ToLower(Truncate(f.value, 127)), "chunked")
  }

  /** Some field from the k-th on has that name. */
  predicate Names(fs: seq<Field>, k: nat, name: string) {
    exists i | k <= i < |fs| :: ToLower(fs[i].name) == name
  }

  /** The fields spell the headers: in any order, any case and with any other fields among them. */
  predicate Spells(fs: seq<Field>, h: Headers) {
    && ValidFields(fs) && (forall i | 0 <= i < |fs| :: Agrees(fs[i], h))
    && (h.length.Some? ==> Names(fs, 0, LENGTH_NAME))
    && (h.contentType.Some? ==> Names(fs, 0, TYPE_NAME))
    && (h.key.Some? ==> Names(fs, 0, KEY_NAME))
  }

  function OrElse<T>(o: Option<T>, default: T): T {
    if o.Some? then o.value else default
  }

  lemma LengthReads(n: nat)
    requires n <= MAX_BODY
    ensures LengthEffect(Decimal(n)) == SetLength(n)
  {
    assert Decimal(n) + [] == Decimal(n);
    StrTolDecimal(n, []);
  }

  /** What a field that agrees with the headers does. */
  function AgreedEffect(name: string, h: Headers): Effect {
    if name == LENGTH_NAME then SetLength(OrElse(h.length, 0))
    else if name == TYPE_NAME then SetType(OrElse(h.contentType, ""))
    else if name == KEY_NAME then SetKey(OrElse(h.key, ""))
    else Ignore
  }

  lemma AgreedEffectIs(f: Field, h: Headers)
    requires Agrees(f, h)
    ensures EffectOf(f) == AgreedEffect(ToLower(f.name), h)
  {
    var name := ToLower(f.name);
    if name == LENGTH_NAME {
      LengthReads(h.length.value);
    }
  }

  /** The request after the fields from the k-th on: what they name is set. */
  function Filled(fs: seq<Field>, k: nat, h: Headers, req: Request): Request {
    req.(contentLength := if Names(fs, k, LENGTH_NAME) then OrElse(h.length, 0) else req.contentLength,
         contentType := if Names(fs, k, TYPE_NAME) then OrElse(h.contentType, "") else req.contentType,
         apiKey := if Names(fs, k, KEY_NAME) then OrElse(h.key, "") else req.apiKey)
  }

  lemma NamesStep(fs: seq<Field>, k: nat, name: string)
    requires k < |fs|
    ensures Names(fs, k, name) <==> ToLower(fs[k].name) == name || Names(fs, k + 1, name)
  {
  }

  lemma FilledStep(fs: seq<Field>, k: nat, h: Headers, req: Request)
    requires k < |fs| && Agrees(fs[k], h)
    ensures Apply(EffectOf(fs[k]), req).error == Ok
    ensures Filled(fs, k + 1, h, Apply(EffectOf(fs[k]), req).request) == Filled(fs, k, h, req)
  {
    AgreedEffectIs(fs[k], h);
    NamesStep(fs, k, LENGTH_NAME);
    NamesStep(fs, k, TYPE_NAME);
    NamesStep(fs, k, KEY_NAME);
  }

  /** The effect of any fields that spell the headers. */
  lemma {:induction false} SpelledFold(fs: seq<Field>, k: nat, h: Headers, req: Request)
    requires k <= |fs| && forall i | 0 <= i < |fs| :: Agrees(fs[i], h)
    ensures FoldEffects(Effects(fs), k, req) == Parsed(Ok, Filled(fs, k, h, req))
    decreases |fs| - k
  {
    if k < |fs| {
      FilledStep(fs, k, h, req);
      SpelledFold(fs, k + 1, h, Apply(EffectOf(fs[k]), req).request);
    }
  }

  /** What the server makes of a request before its body: a missing length is -1, a missing text is empty. */
  function Received(m: Method, o: Opening, h: Headers): Request {
    Request(m, o.verb, SplitTarget(o.target).0, SplitTarget(o.target).1,
            if h.length.Some? then h.length.value else -1, OrElse(h.contentType, ""), OrElse(h.key, ""), false, None)
  }

  lemma MethodReads(m: Method)
    requires m != Unknown
    ensures MethodOf(MethodName(m)) == m
  {
  }

  lemma SpelledIsReceived(o: Opening, fs: seq<Field>, h: Headers)
    requires Spells(fs, h)
    ensures Filled(fs, 0, h, Asked(o)) == Received(MethodOf(o.verb), o, h)
  {
    assert Names(fs, 0, LENGTH_NAME) ==> h.length.Some?;
    assert Names(fs, 0, TYPE_NAME) ==> h.contentType.Some?;
    assert Names(fs, 0, KEY_NAME) ==> h.key.Some?;
  }

  /** Every request within the length limits is recovered: method, path and query, and length, type and key, each
      if it is there, whatever the order of the fields, the case of their names and the other fields. */
  lemma RequestRoundTrip(m: Method, o: Opening, fs: seq<Field>, h: Headers)
    requires ValidOpening(o) && m != Unknown && o.verb == MethodName(m) && Spells(fs, h)
    ensures ParseHeader(Printed(o, fs)) == Parsed(Ok, Received(m, o, h))
  {
    MethodReads(m);
    PrintedParses(o, fs);
    SpelledFold(fs, 0, h, Asked(o));
    SpelledIsReceived(o, fs, h);
  }

  // ---------- requests that are refused ----------

  /** Any other word in the place of the method: 405. */
  lemma OtherMethodRefused(o: Opening, fs: seq<Field>, h: Headers)
    requires ValidOpening(o) && Spells(fs, h)
    requires o.verb != "GET" && o.verb != "POST" && o.verb != "PUT" && o.verb != "DELETE"
    ensures ParseHeader(Printed(o, fs)).error == MethodNotAllowed
  {
    PrintedParses(o, fs);
    SpelledFold(fs, 0, h, Asked(o));
  }

  /** A version other than HTTP/1.x, or a target that is no path: 400. */
  lemma BadOpeningRefused(o: Opening, fs: seq<Field>)
    requires Word(o.verb, METHOD_WIDTH) && Word(o.target, TARGET_WIDTH) && Word(o.version, VERSION_WIDTH) && ValidFields(fs)
    requires !At(o.version, 0, "HTTP/1.") || o.target[0] != '/'
    ensures ParseHeader(Printed(o, fs)).error == BadRequest
  {
    var line := RequestLine(o);
    assert line != [] && CleanText(line);
    CleanBlock(line, fs);
    CStrOfCString(Block(line, fs));
    ParseBlock(ParseLine, line, fs, BLANK);
    RequestLineParses(o, BLANK);
  }

  /** The first effect that is refused decides the error. */
  lemma {:induction false} FirstRefusal(es: seq<Effect>, k: nat, bad: nat, req: Request)
    requires k <= bad < |es| && es[bad].Reject? && es[bad].error != Ok && forall i | 0 <= i < bad :: !es[i].Reject?
    ensures FoldEffects(es, k, req).error == es[bad].error
    decreases bad - k
  {
    if k < bad {
      FirstRefusal(es, k + 1, bad, Apply(es[k], req).request);
    }
  }

  lemma RefusedBy(o: Opening, fs: seq<Field>, bad: nat, e: ApiError, h: Headers)
    requires ValidOpening(o) && ValidFields(fs) && bad < |fs| && e != Ok && EffectOf(fs[bad]) == Reject(e)
    requires forall i | 0 <= i < bad :: Agrees(fs[i], h)
    ensures ParseHeader(Printed(o, fs)).error == e
  {
    PrintedParses(o, fs);
    forall i | 0 <= i < bad
      ensures !Effects(fs)[i].Reject?
    {
      AgreedEffectIs(fs[i], h);
    }
    FirstRefusal(Effects(fs), 0, bad, Asked(o));
  }

  /** What a Content-Length does, for every number: up to 65536 it is kept, beyond that it is too large; a negative
      number, no number, or anything but blanks after the number is a bad request. */
  lemma LengthEffects(n: nat, junk: string)
    ensures n <= 65536 ==> LengthEffect(Decimal(n)) == SetLength(n)
    ensures 65536 < n <= LONG_MAX ==> LengthEffect(Decimal(n)) == Reject(PayloadTooLarge)
    ensures 0 < n <= LONG_MAX ==> LengthEffect(['-'] + Decimal(n)) == Reject(BadRequest)
    ensures LengthEffect("") == Reject(BadRequest)
    ensures n <= 65536 && junk != [] && junk[0] != ' ' && junk[0] != '\t' && junk[0] != '\r' && !IsDigit(junk[0]) ==>
              LengthEffect(Decimal(n) + junk) == Reject(BadRequest)
  {
    assert Decimal(n) + [] == Decimal(n);
    if n <= LONG_MAX {
      StrTolDecimal(n, []);
      StrTolNegative(n, []);
      if junk != [] && !IsDigit(junk[0]) {
        StrTolDecimal(n, junk);
        assert (Decimal(n) + junk)[|Decimal(n)|] == junk[0];
      }
    }
    assert ['-'] + Decimal(n) + [] == ['-'] + Decimal(n);
  }

  /** Blanks after the number do no harm. */
  lemma LengthThenBlanks(n: nat, blanks: string)
    requires n <= 65536 && forall i | 0 <= i < |blanks| :: blanks[i] in {' ', '\t', '\r'}
    ensures LengthEffect(Decimal(n) + blanks) == SetLength(n)
  {
    var value := Decimal(n) + blanks;
    StrTolDecimal(n, blanks);
    assert forall i | |Decimal(n)| <= i < |value| :: value[i] == blanks[i - |Decimal(n)|];
    TrailerEndIs(value, |Decimal(n)|);
  }

  lemma {:induction false} TrailerEndIs(s: string, p: nat)
    requires p <= |s| && forall i | p <= i < |s| :: s[i] in {' ', '\t', '\r'}
    ensures TrailerEnd(s, p) == |s|
    decreases |s| - p
  {
    if p < |s| {
      TrailerEndIs(s, p + 1);
    }
  }

  /** A body that is announced as too large: 413, whatever the other fields say. */
  lemma LargeLengthRefused(o: Opening, fs: seq<Field>, bad: nat, n: nat, h: Headers)
    requires ValidOpening(o) && ValidFields(fs) && bad < |fs| && 65536 < n <= LONG_MAX
    requires ToLower(fs[bad].name) == LENGTH_NAME && fs[bad].value == Decimal(n)
    requires forall i | 0 <= i < bad :: Agrees(fs[i], h)
    ensures ParseHeader(Printed(o, fs)).error == PayloadTooLarge
  {
    LengthEffects(n, "");
    RefusedBy(o, fs, bad, PayloadTooLarge, h);
  }

  predicate Chunks(f: Field) {
    ToLower(f.name) == ENCODING_NAME && Contains(ToLower(Truncate(f.value, 127)), "chunked")
  }

  lemma ChunksEffect(f: Field)
    requires Chunks(f)
    ensures EffectOf(f) == Chunked
  {
  }

  lemma {:induction false} ChunkedFold(fs: seq<Field>, k: nat, h: Headers, req: Request)
    requires k <= |fs| && forall i | 0 <= i < |fs| :: Agrees(fs[i], h) || Chunks(fs[i])
    ensures var r := FoldEffects(Effects(fs), k, req);
            && r.error == Ok && r.request.verb == req.verb
            && (r.request.chunked <==> req.chunked || exists i :: k <= i < |fs| && Chunks(fs[i]))
    decreases |fs| - k
  {
    if k < |fs| {
      if Chunks(fs[k]) {
        ChunksEffect(fs[k]);
      } else {
        FilledStep(fs, k, h, req);
        AgreedEffectIs(fs[k], h);
      }
      ChunkedFold(fs, k + 1, h, Apply(EffectOf(fs[k]), req).request);
    }
  }

  /** A chunked body: 501. */
  lemma ChunkedRefused(m: Method, o: Opening, fs: seq<Field>, k: nat, h: Headers)
    requires ValidOpening(o) && m != Unknown && o.verb == MethodName(m) && ValidFields(fs) && k < |fs| && Chunks(fs[k])
    requires forall i | 0 <= i < |fs| :: Agrees(fs[i], h) || Chunks(fs[i])
    ensures ParseHeader(Printed(o, fs)).error == NotImplemented
  {
    MethodReads(m);
    PrintedParses(o, fs);
    ChunkedFold(fs, 0, h, Asked(o));
  }

  /** An empty body is a null pointer. */
  function BodyOf(body: string): Option<string> {
    if body == [] then None else Some(body)
  }

  lemma BodyArrives(data: string, bodyCap: nat, i: nat, body: string, expected: Request, r: Parsed)
    requires BodyOutcome(data, bodyCap, i, Parsed(Ok, expected), r) && Needed(expected) == |body|
    requires |body| <= MAX_BODY && |body| <= bodyCap
    requires i + 4 + |body| <= |data| && data[i + 4..i + 4 + |body|] == body
    ensures r == Parsed(Ok, expected.(body := BodyOf(body)))
  {
  }

  /** The whole stream of a printed request. */
  function Stream(line: string, fs: seq<Field>, body: string): string {
    Block(line, fs) + (CRLF + CRLF) + body
  }

  /** A printed header block that parses to `expected`, and the body it announces. */
  lemma StreamBody(line: string, fs: seq<Field>, body: string, extra: string, headerCap: nat, bodyCap: nat,
                   expected: Request, r: Parsed)
    requires line != [] && CleanText(line) && ValidFields(fs) && |Block(line, fs)| + 4 < headerCap
    requires ParseHeader(Block(line, fs)) == Parsed(Ok, expected) && Needed(expected) == |body|
    requires |body| <= MAX_BODY && |body| <= bodyCap
    requires ReadsAs(Stream(line, fs, body + extra), headerCap, bodyCap, r)
    ensures r == Parsed(Ok, expected.(body := BodyOf(body)))
  {
    var data := Stream(line, fs, body + extra);
    var i := StreamLayout(line, fs, body, extra, headerCap);
    OutcomeAt(data, headerCap, bodyCap, i, Block(line, fs), Parsed(Ok, expected), r);
    BodyArrives(data, bodyCap, i, body, expected, r);
  }

  lemma StreamLayout(line: string, fs: seq<Field>, body: string, extra: string, headerCap: nat) returns (i: nat)
    requires line != [] && CleanText(line) && ValidFields(fs) && |Block(line, fs)| + 4 < headerCap
    ensures var data := Stream(line, fs, body + extra);
            && HeaderEnds(data, headerCap, i) && data[..i] == Block(line, fs)
            && i + 4 + |body| <= |data| && data[i + 4..i + 4 + |body|] == body
  {
    i := |Block(line, fs)|;
    BlockEnds(line, fs, body + extra);
    BodyIs(Block(line, fs), body, extra);
  }

  /** Sent over a socket with its body, the request arrives whole, however the stream is split and
      whatever follows the body. Without a Content-Length there is no body. */
  lemma StreamRoundTrip(m: Method, o: Opening, fs: seq<Field>, h: Headers, body: string, extra: string,
                        headerCap: nat, bodyCap: nat, r: Parsed)
    requires ValidOpening(o) && m != Unknown && o.verb == MethodName(m) && Spells(fs, h)
    requires |body| == OrElse(h.length, 0) <= bodyCap
    requires |Printed(o, fs)| + 4 < headerCap
    requires ReadsAs(Stream(RequestLine(o), fs, body + extra), headerCap, bodyCap, r)
    ensures r == Parsed(Ok, Received(m, o, h).(body := BodyOf(body)))
  {
    RequestRoundTrip(m, o, fs, h);
    RequestLineClean(o);
    StreamBody(RequestLine(o), fs, body, extra, headerCap, bodyCap, Received(m, o, h), r);
  }

  lemma BodyIs(head: string, body: string, extra: string)
    ensures var data := head + (CRLF + CRLF) + (body + extra);
            && data[..|head|] == head
            && |data| >= |head| + 4 + |body|
            && data[|head| + 4..|head| + 4 + |body|] == body
  {
  }

  lemma OutcomeAt(data: string, headerCap: nat, bodyCap: nat, i: nat, head: string, p: Parsed, r: Parsed)
    requires HeaderEnds(data, headerCap, i) && data[..i] == head && p == ParseHeader(head)
    requires ReadsAs(data, headerCap, bodyCap, r)
    ensures BodyOutcome(data, bodyCap, i, p, r)
  {
  }
}
