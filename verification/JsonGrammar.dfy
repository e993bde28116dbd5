/** The exact language of json_get_string, given by a grammar that does not mention the parser. */
module JsonGrammar {
  import opened CText
  import opened Json
  import opened JsonObject

  // ---------- the grammar ----------

  /** Space, tab, line feed, carriage return. */
  predicate White(c: char) {
    c in {' ', '\t', '\n', '\r'}
  }

  predicate AllWhite(s: string) {
    forall i | 0 <= i < |s| :: White(s[i])
  }

  lemma WhiteIsSpace(s: string)
    ensures AllWhite(s) <==> AllSpace(s)
  {
  }

  /** A quoted string as it is written. */
  function Str(ts: seq<Token>): string {
    ['"'] + (Texts(ts) + ['"'])
  }

  /** name : value, with the spaces around its three parts. */
  datatype Member = Member(before: string, name: seq<Token>, mid: string, post: string, value: seq<Token>, after: string)

  predicate ValidMember(m: Member) {
    && AllWhite(m.before) && AllWhite(m.mid) && AllWhite(m.post) && AllWhite(m.after)
    && ValidTokens(m.name) && |m.name| < 128
    && ValidTokens(m.value) && |m.value| < 8192
  }

  function Core(m: Member): string {
    Str(m.name) + (m.mid + ([':'] + (m.post + Str(m.value))))
  }

  function MemberText(m: Member): string {
    m.before + (Core(m) + m.after)
  }

  /** What may follow the opening brace. A comma may be the last thing before the closing brace. */
  datatype Rest =
    | End(inner: string, trailer: string)
    | Last(m: Member, trailer: string)
    | More(m: Member, next: Rest)

  predicate ValidRest(r: Rest) {
    match r
    case End(inner, trailer) => AllWhite(inner) && AllWhite(trailer)
    case Last(m, trailer) => ValidMember(m) && AllWhite(trailer)
    case More(m, next) => ValidMember(m) && ValidRest(next)
  }

  function RestText(r: Rest): string {
    match r
    case End(inner, trailer) => inner + (['}'] + trailer)
    case Last(m, trailer) => MemberText(m) + (['}'] + trailer)
    case More(m, next) => MemberText(m) + ([','] + RestText(next))
  }

  /** A flat object all of whose values are strings. */
  datatype Document = Document(lead: string, rest: Rest)

  predicate ValidDocument(d: Document) {
    AllWhite(d.lead) && ValidRest(d.rest)
  }

  function DocumentText(d: Document): string {
    d.lead + (['{'] + RestText(d.rest))
  }

  /** The decoded values that an object gives to a field, in order, as C strings. */
  function Occurrences(r: Rest, field: CString): (vs: seq<string>) {
    match r
    case End(_, _) => []
    case Last(m, _) => Own(m, field)
    case More(m, next) => Own(m, field) + Occurrences(next, field)
  }

  function Own(m: Member, field: CString): (vs: seq<string>)
    ensures |vs| <= 1
  {
    if CStr(Values(m.name)) == field then [CStr(Values(m.value))] else []
  }

  /** What a well-formed object yields: the field must be there, fit, and not be repeated. */
  function Verdict(vs: seq<string>, cap: nat): Lookup {
    if vs == [] then Failed(MissingField)
    else if |vs[0]| + 1 > cap then Failed(PayloadTooLarge)
    else if |vs| > 1 then Failed(BadRequest)
    else Found(vs[0])
  }

  // ---------- the parser reads every text of the grammar ----------

  lemma {:induction false} SkipComplete(body: string, p: nat, w: string)
    requires AllSpace(w) && At(body, p, w)
    requires p + |w| < |body| ==> !IsSpace(body[p + |w|])
    ensures SkipAt(body, p) == p + |w|
    decreases |w|
  {
    if w != [] {
      assert w == [w[0]] + w[1..];
      AtHead(body, p, w[0], w[1..]);
      SkipComplete(body, p + 1, w[1..]);
    }
  }

  /** Spaces, then a text that starts with `c`. */
  lemma SkipTo(body: string, p: nat, w: string, c: char, tail: string)
    requires AllSpace(w) && !IsSpace(c) && At(body, p, w + ([c] + tail))
    ensures SkipAt(body, p) == p + |w| < |body| && body[p + |w|] == c
    ensures At(body, p + |w|, [c] + tail) && At(body, p + |w| + 1, tail)
  {
    AtSplit(body, p, w, [c] + tail);
    AtHead(body, p + |w|, c, tail);
    SkipComplete(body, p, w);
  }

  /** A member read from its parts, wherever the two strings end. */
  lemma MemberParts(body: string, p: nat, nameText: string, mid: string, post: string, valueTail: string,
                    name: string, value: string, end: nat)
    requires AllSpace(mid) && AllSpace(post)
    requires At(body, p, nameText + (mid + ([':'] + (post + (['"'] + valueTail)))))
    requires QuotedAt(body, p, NAME_CAP) == Some((name, p + |nameText|))
    requires QuotedAt(body, p + |nameText| + |mid| + 1 + |post|, VALUE_CAP) == Some((value, end))
    ensures MemberAt(body, p) == Some((name, value, end))
  {
    AtSplit(body, p, nameText, mid + ([':'] + (post + (['"'] + valueTail))));
    SkipTo(body, p + |nameText|, mid, ':', post + (['"'] + valueTail));
    SkipTo(body, p + |nameText| + |mid| + 1, post, '"', valueTail);
    MemberFrom(body, p, p + |nameText|, p + |nameText| + |mid|, p + |nameText| + |mid| + 1 + |post|, name, value, end);
  }

  /** A member read from the positions of its parts. */
  lemma MemberFrom(body: string, p: nat, q: nat, colon: nat, start: nat, name: string, value: string, end: nat)
    requires q <= colon < |body| && SkipAt(body, q) == colon && body[colon] == ':' && SkipAt(body, colon + 1) == start
    requires QuotedAt(body, p, NAME_CAP) == Some((name, q)) && QuotedAt(body, start, VALUE_CAP) == Some((value, end))
    ensures MemberAt(body, p) == Some((name, value, end))
  {
  }

  /** Where the value of a member starts. */
  lemma ValueStart(body: string, p: nat, a: string, mid: string, post: string, value: string)
    requires At(body, p, a + (mid + ([':'] + (post + value))))
    ensures At(body, p, a) && At(body, p + |a| + |mid| + 1 + |post|, value)
  {
    AtSplit(body, p, a, mid + ([':'] + (post + value)));
    AtSplit(body, p + |a|, mid, [':'] + (post + value));
    AtSplit(body, p + |a| + |mid|, [':'], post + value);
    AtSplit(body, p + |a| + |mid| + 1, post, value);
  }

  lemma MemberComplete(body: string, p: nat, m: Member)
    requires ValidMember(m) && At(body, p, Core(m))
    ensures MemberAt(body, p) == Some((Values(m.name), Values(m.value), p + |Core(m)|))
  {
    ValueStart(body, p, Str(m.name), m.mid, m.post, Str(m.value));
    QuotedComplete(body, p, m.name, NAME_CAP);
    QuotedComplete(body, p + |Str(m.name)| + |m.mid| + 1 + |m.post|, m.value, VALUE_CAP);
    MemberParts(body, p, Str(m.name), m.mid, m.post, Texts(m.value) + ['"'],
                Values(m.name), Values(m.value), p + |Core(m)|);
  }

  /** A turn whose member and whose next byte are known by position. */
  lemma TurnFrom(body: string, p: nat, q: nat, name: string, value: string, r: nat, e: nat,
                 field: CString, cap: nat, found: Option<string>)
    requires p <= |body| && SkipAt(body, p) == q < |body| && body[q] == '"'
    requires MemberAt(body, q) == Some((name, value, r))
    requires SkipAt(body, r) == e < |body| && (body[e] == ',' || body[e] == '}')
    ensures var (err, found') := Visit(found, name, value, field, cap);
            TurnAt(body, p, field, cap, found) ==
            if err != Ok then Done(Failed(err)) else Again(if body[e] == ',' then e + 1 else e, found')
  {
  }

  /** The spaces around a member, the member itself, and the byte that ends it. */
  lemma MemberLayout(body: string, p: nat, before: string, core: string, after: string, c: char, tail: string)
      returns (q: nat, r: nat, e: nat)
    requires AllSpace(before) && AllSpace(after) && (c == ',' || c == '}')
    requires core != [] && core[0] == '"'
    requires At(body, p, before + (core + (after + ([c] + tail))))
    ensures q == p + |before| && r == q + |core| && e == r + |after| < |body|
    ensures SkipAt(body, p) == q && body[q] == '"' && At(body, q, core)
    ensures SkipAt(body, r) == e && body[e] == c && At(body, e + 1, tail)
  {
    q, r, e := p + |before|, p + |before| + |core|, p + |before| + |core| + |after|;
    AtSplit(body, p, before, core + (after + ([c] + tail)));
    AtSplit(body, q, core, after + ([c] + tail));
    assert core[0] == body[q + 0];
    SkipComplete(body, p, before);
    SkipTo(body, r, after, c, tail);
  }

  /** Where the search goes on after a member that the byte `c` ends: a comma is consumed. */
  function NextAt(p: nat, m: Member, c: char): nat {
    if c == ',' then p + |MemberText(m)| + 1 else p + |MemberText(m)|
  }

  function Carry(found: Option<string>, m: Member, field: CString, cap: nat): (ApiError, Option<string>) {
    Visit(found, Values(m.name), Values(m.value), field, cap)
  }

  lemma TurnComplete(body: string, p: nat, m: Member, c: char, tail: string,
                     field: CString, cap: nat, found: Option<string>)
    requires ValidMember(m) && (c == ',' || c == '}') && At(body, p, MemberText(m) + ([c] + tail))
    ensures var (err, found') := Carry(found, m, field, cap);
            TurnAt(body, p, field, cap, found) == if err != Ok then Done(Failed(err)) else Again(NextAt(p, m, c), found')
  {
    Regroup(m.before, Core(m), m.after, [c] + tail);
    var q, r, e := MemberLayout(body, p, m.before, Core(m), m.after, c, tail);
    MemberComplete(body, q, m);
    TurnFrom(body, p, q, Values(m.name), Values(m.value), r, e, field, cap, found);
  }

  lemma EndComplete(body: string, p: nat, inner: string, trailer: string,
                    field: CString, cap: nat, found: Option<string>)
    requires AllSpace(inner) && AllSpace(trailer)
    requires At(body, p, inner + (['}'] + trailer)) && p + |inner| + 1 + |trailer| == |body|
    ensures TurnAt(body, p, field, cap, found) ==
            Done(if found.Some? then Found(found.value) else Failed(MissingField))
  {
    SkipTo(body, p, inner, '}', trailer);
    SkipComplete(body, p + |inner| + 1, trailer);
  }

  /** What the search makes of the values still to come. */
  function VerdictFrom(found: Option<string>, vs: seq<string>, cap: nat): Lookup {
    if found.None? then Verdict(vs, cap)
    else if vs == [] then Found(found.value) else Failed(BadRequest)
  }

  lemma VisitVerdict(m: Member, rest: seq<string>, field: CString, cap: nat, found: Option<string>)
    ensures var (err, found') := Carry(found, m, field, cap);
            VerdictFrom(found, Own(m, field) + rest, cap) ==
            if err != Ok then Failed(err) else VerdictFrom(found', rest, cap)
  {
  }

  /** The search goes on after a turn. */
  lemma SearchStep(body: string, p: nat, field: CString, cap: nat, found: Option<string>)
    requires p <= |body|
    ensures SearchAt(body, p, field, cap, found) ==
            match TurnAt(body, p, field, cap, found)
            case Done(result) => result
            case Again(next, found') => SearchAt(body, next, field, cap, found')
  {
  }

  lemma EndCase(body: string, p: nat, inner: string, trailer: string, field: CString, cap: nat, found: Option<string>)
    requires AllSpace(inner) && AllSpace(trailer)
    requires At(body, p, inner + (['}'] + trailer)) && p + |inner| + 1 + |trailer| == |body|
    ensures SearchAt(body, p, field, cap, found) == VerdictFrom(found, [], cap)
  {
    EndComplete(body, p, inner, trailer, field, cap, found);
    SearchStep(body, p, field, cap, found);
  }

  lemma SearchTurn(body: string, p: nat, next: nat, err: ApiError, field: CString, cap: nat,
                   found: Option<string>, found': Option<string>)
    requires p < next <= |body|
    requires TurnAt(body, p, field, cap, found) == if err != Ok then Done(Failed(err)) else Again(next, found')
    ensures SearchAt(body, p, field, cap, found) ==
            if err != Ok then Failed(err) else SearchAt(body, next, field, cap, found')
  {
    SearchStep(body, p, field, cap, found);
  }

  /** A member that is not the end, and what the rest of the object yields after it. */
  lemma MemberCase(body: string, p: nat, m: Member, c: char, tail: string, rest: seq<string>,
                   field: CString, cap: nat, found: Option<string>)
    requires ValidMember(m) && (c == ',' || c == '}') && At(body, p, MemberText(m) + ([c] + tail))
    requires p < NextAt(p, m, c) <= |body|
    requires SearchAt(body, NextAt(p, m, c), field, cap, Carry(found, m, field, cap).1)
             == VerdictFrom(Carry(found, m, field, cap).1, rest, cap)
    ensures SearchAt(body, p, field, cap, found) == VerdictFrom(found, Own(m, field) + rest, cap)
  {
    var (err, found') := Carry(found, m, field, cap);
    TurnComplete(body, p, m, c, tail, field, cap, found);
    SearchTurn(body, p, NextAt(p, m, c), err, field, cap, found, found');
    VisitVerdict(m, rest, field, cap, found);
  }

  lemma LastCase(body: string, p: nat, m: Member, trailer: string, field: CString, cap: nat, found: Option<string>)
    requires ValidMember(m) && AllSpace(trailer)
    requires At(body, p, MemberText(m) + (['}'] + trailer)) && p + |MemberText(m)| + 1 + |trailer| == |body|
    ensures SearchAt(body, p, field, cap, found) == VerdictFrom(found, Own(m, field), cap)
  {
    CoreNonEmpty(m);
    AtSplit(body, p, MemberText(m), ['}'] + trailer);
    assert [] + (['}'] + trailer) == ['}'] + trailer;
    EndCase(body, NextAt(p, m, '}'), [], trailer, field, cap, Carry(found, m, field, cap).1);
    assert Own(m, field) + [] == Own(m, field);
    MemberCase(body, p, m, '}', trailer, [], field, cap, found);
  }

  lemma CoreNonEmpty(m: Member)
    ensures |MemberText(m)| > 0
  {
  }

  lemma MoreCase(body: string, p: nat, m: Member, tail: string) returns (next: nat)
    requires At(body, p, MemberText(m) + ([','] + tail))
    ensures next == NextAt(p, m, ',') == p + |MemberText(m)| + 1 <= |body| && At(body, next, tail)
  {
    AtSplit(body, p, MemberText(m), [','] + tail);
    AtHead(body, p + |MemberText(m)|, ',', tail);
    next := p + |MemberText(m)| + 1;
  }

  lemma {:induction false} SearchComplete(body: string, p: nat, r: Rest, field: CString, cap: nat, found: Option<string>)
    requires ValidRest(r) && At(body, p, RestText(r)) && p + |RestText(r)| == |body|
    ensures SearchAt(body, p, field, cap, found) == VerdictFrom(found, Occurrences(r, field), cap)
    decreases r
  {
    match r
    case End(inner, trailer) => EndCase(body, p, inner, trailer, field, cap, found);
    case Last(m, trailer) => LastCase(body, p, m, trailer, field, cap, found);
    case More(m, next) =>
      var q := MoreCase(body, p, m, RestText(next));
      SearchComplete(body, q, next, field, cap, Carry(found, m, field, cap).1);
      MemberCase(body, p, m, ',', RestText(next), Occurrences(next, field), field, cap, found);
  }

  // ---------- the parser reads nothing else ----------

  /** The parts of a member that was read. */
  lemma MemberSteps(body: string, p: nat) returns (q: nat, colon: nat, start: nat, end: nat)
    requires MemberAt(body, p).Some?
    ensures q <= colon < start <= |body| && body[colon] == ':'
    ensures colon == SkipAt(body, q) && start == SkipAt(body, colon + 1)
    ensures QuotedAt(body, p, NAME_CAP) == Some((MemberAt(body, p).value.0, q))
    ensures QuotedAt(body, start, VALUE_CAP) == Some((MemberAt(body, p).value.1, end))
    ensures MemberAt(body, p).value.2 == end
  {
    q := QuotedAt(body, p, NAME_CAP).value.1;
    colon := SkipAt(body, q);
    start := SkipAt(body, colon + 1);
    end := QuotedAt(body, start, VALUE_CAP).value.1;
  }

  lemma MemberSound(body: string, p: nat) returns (m: Member)
    requires MemberAt(body, p).Some?
    ensures ValidMember(m) && m.before == [] && m.after == [] && At(body, p, Core(m))
    ensures MemberAt(body, p).value == (Values(m.name), Values(m.value), p + |Core(m)|)
  {
    var q, colon, start, end := MemberSteps(body, p);
    var name := QuotedSound(body, p, NAME_CAP);
    var value := QuotedSound(body, start, VALUE_CAP);
    m := Member([], name, body[q..colon], body[colon + 1..start], value, []);
    CoreAt(body, p, Str(name), q, colon, start, Str(value));
  }

  lemma CoreAt(body: string, p: nat, name: string, q: nat, colon: nat, start: nat, value: string)
    requires q == p + |name| && q <= colon < start <= |body| && body[colon] == ':'
    requires At(body, p, name) && At(body, start, value)
    ensures At(body, p, name + (body[q..colon] + ([':'] + (body[colon + 1..start] + value))))
    ensures p + |name + (body[q..colon] + ([':'] + (body[colon + 1..start] + value)))| == start + |value|
  {
    AtSlice(body, colon + 1, start);
    AtJoin(body, colon + 1, body[colon + 1..start], value);
    AtJoin(body, colon, [':'], body[colon + 1..start] + value);
    AtSlice(body, q, colon);
    AtJoin(body, q, body[q..colon], [':'] + (body[colon + 1..start] + value));
    AtJoin(body, p, name, body[q..colon] + ([':'] + (body[colon + 1..start] + value)));
  }

  /** The member that a turn reads at `q`, up to `r`, with the spaces around it, up to `e`. */
  lemma MemberAround(body: string, p: nat) returns (m: Member, q: nat, r: nat, e: nat)
    requires p <= |body| && MemberAt(body, SkipAt(body, p)).Some?
    ensures q == SkipAt(body, p) && r <= |body| && e == SkipAt(body, r) == p + |MemberText(m)|
    ensures MemberAt(body, q) == Some((Values(m.name), Values(m.value), r))
    ensures ValidMember(m) && At(body, p, MemberText(m)) && At(body, p, m.before + Core(m))
  {
    q := SkipAt(body, p);
    var inner := MemberSound(body, q);
    r := q + |Core(inner)|;
    e := SkipAt(body, r);
    m := inner.(before := body[p..q], after := body[r..e]);
    AtSlice(body, p, q);
    AtSlice(body, r, e);
    Surrounded(body, p, m.before, Core(m), m.after);
  }

  lemma Surrounded(body: string, p: nat, before: string, core: string, after: string)
    requires At(body, p, before) && At(body, p + |before|, core) && At(body, p + |before| + |core|, after)
    ensures At(body, p, before + (core + after)) && At(body, p, before + core)
  {
    AtJoin(body, p + |before|, core, after);
    AtJoin(body, p, before, core + after);
    AtJoin(body, p, before, core);
  }

  lemma TextThen(body: string, p: nat, text: string, c: char, tail: string)
    requires At(body, p, text) && p + |text| < |body| && body[p + |text|] == c && At(body, p + |text| + 1, tail)
    ensures At(body, p, text + ([c] + tail))
  {
    AtJoin(body, p + |text|, [c], tail);
    AtJoin(body, p, text, [c] + tail);
  }

  predicate WellFormed(l: Lookup) {
    l.Found? || l == Failed(MissingField)
  }

  /** `r` is the text of the body from position `p` to its end. */
  predicate Reads(body: string, p: nat, r: Rest) {
    ValidRest(r) && At(body, p, RestText(r)) && p + |RestText(r)| == |body|
  }

  /** A well-formed search that stands before a closing brace finds only spaces after it. */
  lemma CloseSound(body: string, p: nat, field: CString, cap: nat, found: Option<string>) returns (q: nat, trailer: string)
    requires p <= |body| && SkipAt(body, p) < |body| && body[SkipAt(body, p)] == '}'
    requires WellFormed(SearchAt(body, p, field, cap, found))
    ensures q == SkipAt(body, p) && AllSpace(trailer)
    ensures At(body, q, ['}'] + trailer) && q + 1 + |trailer| == |body|
  {
    SearchStep(body, p, field, cap, found);
    q := SkipAt(body, p);
    assert SkipAt(body, q + 1) == |body|;
    trailer := body[q + 1..|body|];
    AtSlice(body, q + 1, |body|);
    AtJoin(body, q, ['}'], trailer);
  }

  lemma TurnOfMember(body: string, p: nat, q: nat, name: string, value: string, r: nat,
                     field: CString, cap: nat, found: Option<string>)
    requires p <= |body| && SkipAt(body, p) == q < |body| && body[q] != '}'
    requires MemberAt(body, q) == Some((name, value, r))
    ensures var (err, found') := Visit(found, name, value, field, cap);
            TurnAt(body, p, field, cap, found) == if err != Ok then Done(Failed(err)) else AfterMember(body, r, found')
  {
  }

  lemma AfterMemberGoesOn(body: string, r: nat, e: nat, next: nat, found: Option<string>)
    requires r <= |body| && e == SkipAt(body, r) && AfterMember(body, r, found) == Again(next, found)
    ensures e < |body| && SkipAt(body, e) == e
    ensures if body[e] == ',' then next == e + 1 else body[e] == '}' && next == e
  {
  }

  /** A well-formed search that does not stand before a closing brace reads a member. */
  lemma WellFormedReads(body: string, p: nat, field: CString, cap: nat, found: Option<string>)
    requires p <= |body| && WellFormed(SearchAt(body, p, field, cap, found))
    ensures SkipAt(body, p) < |body|
    ensures body[SkipAt(body, p)] != '}' ==> MemberAt(body, SkipAt(body, p)).Some?
  {
    SearchStep(body, p, field, cap, found);
  }

  /** ... and goes on after it. */
  lemma MemberTurn(body: string, p: nat, q: nat, name: string, value: string, r: nat, e: nat,
                   field: CString, cap: nat, found: Option<string>) returns (next: nat, found': Option<string>)
    requires p <= |body| && SkipAt(body, p) == q < |body| && body[q] != '}' && r <= |body| && SkipAt(body, r) == e
    requires MemberAt(body, q) == Some((name, value, r)) && WellFormed(SearchAt(body, p, field, cap, found))
    ensures e < |body| && SkipAt(body, e) == e && if body[e] == ',' then next == e + 1 else body[e] == '}' && next == e
    ensures WellFormed(SearchAt(body, next, field, cap, found'))
  {
    TurnOfMember(body, p, q, name, value, r, field, cap, found);
    SearchStep(body, p, field, cap, found);
    found' := Visit(found, name, value, field, cap).1;
    next := AfterMember(body, r, found').next;
    AfterMemberGoesOn(body, r, e, next, found');
  }

  predicate MemberAndComma(body: string, p: nat, m: Member, e: nat) {
    ValidMember(m) && At(body, p, MemberText(m)) && p <= e == p + |MemberText(m)| < |body| && body[e] == ','
  }

  lemma EndSound(body: string, p: nat, field: CString, cap: nat, found: Option<string>) returns (r: Rest)
    requires p <= |body| && SkipAt(body, p) < |body| && body[SkipAt(body, p)] == '}'
    requires WellFormed(SearchAt(body, p, field, cap, found))
    ensures Reads(body, p, r)
  {
    var q, trailer := CloseSound(body, p, field, cap, found);
    r := End(body[p..q], trailer);
    AtSlice(body, p, q);
    AtJoin(body, p, body[p..q], ['}'] + trailer);
  }

  lemma MoreText(body: string, p: nat, e: nat, m: Member, next: Rest) returns (r: Rest)
    requires ValidMember(m) && At(body, p, MemberText(m)) && e == p + |MemberText(m)| < |body| && body[e] == ','
    requires Reads(body, e + 1, next)
    ensures Reads(body, p, r)
  {
    TextThen(body, p, MemberText(m), ',', RestText(next));
    r := More(m, next);
  }

  lemma LastText(body: string, p: nat, e: nat, m: Member, trailer: string) returns (r: Rest)
    requires ValidMember(m) && At(body, p, MemberText(m)) && e == p + |MemberText(m)|
    requires AllSpace(trailer) && At(body, e, ['}'] + trailer) && e + 1 + |trailer| == |body|
    ensures Reads(body, p, r)
  {
    AtJoin(body, p, MemberText(m), ['}'] + trailer);
    r := Last(m, trailer);
  }

  /** From position `p` on the search ends well. */
  predicate EndsWell(body: string, p: nat, field: CString, cap: nat, found: Option<string>) {
    p <= |body| && WellFormed(SearchAt(body, p, field, cap, found))
  }

  predicate SaysWell(well: (nat, Option<string>) -> bool, body: string, p: nat, field: CString, cap: nat, found: Option<string>) {
    well(p, found) == EndsWell(body, p, field, cap, found)
  }

  /** One turn of a well-formed search: it reads the rest of the object, or a member and a comma. */
  lemma SoundTurn(well: (nat, Option<string>) -> bool, body: string, p: nat, field: CString, cap: nat, found: Option<string>)
      returns (rest: Option<Rest>, m: Member, e: nat, found': Option<string>)
    requires (forall i: nat, f :: SaysWell(well, body, i, field, cap, f)) && well(p, found)
    ensures rest.Some? ==> Reads(body, p, rest.value)
    ensures rest.None? ==> MemberAndComma(body, p, m, e) && well(e + 1, found')
  {
    var close := StandsAt(well, body, p, field, cap, found);
    if close {
      var text := EndsAt(well, body, p, field, cap, found);
      rest, m, e, found' := Some(text), Member([], [], [], [], [], []), 0, None;
    } else {
      var q, r;
      m, q, r, e := MemberAround(body, p);
      var trailer;
      trailer, found' := AfterRead(well, body, p, q, Values(m.name), Values(m.value), r, e, field, cap, found);
      rest := None;
      if trailer.Some? {
        var text := LastText(body, p, e, m, trailer.value);
        rest := Some(text);
      }
    }
  }

  /** A well-formed search stands before a closing brace or before a member. */
  lemma StandsAt(well: (nat, Option<string>) -> bool, body: string, p: nat, field: CString, cap: nat, found: Option<string>)
      returns (close: bool)
    requires (forall i: nat, f :: SaysWell(well, body, i, field, cap, f)) && well(p, found)
    ensures p <= |body| && SkipAt(body, p) < |body|
    ensures if close then body[SkipAt(body, p)] == '}'
            else body[SkipAt(body, p)] != '}' && MemberAt(body, SkipAt(body, p)).Some?
  {
    assert SaysWell(well, body, p, field, cap, found);
    WellFormedReads(body, p, field, cap, found);
    close := body[SkipAt(body, p)] == '}';
  }

  lemma EndsAt(well: (nat, Option<string>) -> bool, body: string, p: nat, field: CString, cap: nat, found: Option<string>)
      returns (r: Rest)
    requires (forall i: nat, f :: SaysWell(well, body, i, field, cap, f)) && well(p, found)
    requires p <= |body| && SkipAt(body, p) < |body| && body[SkipAt(body, p)] == '}'
    ensures Reads(body, p, r)
  {
    assert SaysWell(well, body, p, field, cap, found);
    r := EndSound(body, p, field, cap, found);
  }

  lemma ReadsOn(well: (nat, Option<string>) -> bool, body: string, p: nat, q: nat, name: string, value: string, r: nat, e: nat,
                field: CString, cap: nat, found: Option<string>) returns (next: nat, found': Option<string>)
    requires (forall i: nat, f :: SaysWell(well, body, i, field, cap, f)) && well(p, found) && p <= |body|
    requires SkipAt(body, p) == q < |body| && body[q] != '}' && r <= |body| && SkipAt(body, r) == e
    requires MemberAt(body, q) == Some((name, value, r))
    ensures e < |body| && SkipAt(body, e) == e && if body[e] == ',' then next == e + 1 else body[e] == '}' && next == e
    ensures well(next, found')
  {
    assert SaysWell(well, body, p, field, cap, found);
    next, found' := MemberTurn(body, p, q, name, value, r, e, field, cap, found);
    assert SaysWell(well, body, next, field, cap, found');
  }

  lemma ClosesWell(well: (nat, Option<string>) -> bool, body: string, e: nat, field: CString, cap: nat, found: Option<string>)
      returns (trailer: string)
    requires (forall i: nat, f :: SaysWell(well, body, i, field, cap, f)) && well(e, found)
    requires e < |body| && SkipAt(body, e) == e && body[e] == '}'
    ensures AllSpace(trailer) && At(body, e, ['}'] + trailer) && e + 1 + |trailer| == |body|
  {
    assert SaysWell(well, body, e, field, cap, found);
    var q;
    q, trailer := CloseSound(body, e, field, cap, found);
  }

  /** After a member: a comma and a search that ends well, or the closing brace and only spaces after it. */
  lemma AfterRead(well: (nat, Option<string>) -> bool, body: string, p: nat, q: nat, name: string, value: string, r: nat, e: nat,
                  field: CString, cap: nat, found: Option<string>) returns (trailer: Option<string>, found': Option<string>)
    requires (forall i: nat, f :: SaysWell(well, body, i, field, cap, f)) && well(p, found) && p <= |body|
    requires SkipAt(body, p) == q < |body| && body[q] != '}' && r <= |body| && SkipAt(body, r) == e
    requires MemberAt(body, q) == Some((name, value, r))
    ensures e < |body|
    ensures trailer.None? ==> body[e] == ',' && well(e + 1, found')
    ensures trailer.Some? ==>
              AllSpace(trailer.value) && At(body, e, ['}'] + trailer.value) && e + 1 + |trailer.value| == |body|
  {
    var next;
    next, found' := ReadsOn(well, body, p, q, name, value, r, e, field, cap, found);
    trailer := None;
    if next == e {
      var text := ClosesWell(well, body, e, field, cap, found');
      trailer := Some(text);
    }
  }

  lemma {:induction false} SearchSound(well: (nat, Option<string>) -> bool, body: string, p: nat, field: CString, cap: nat,
                                       found: Option<string>) returns (r: Rest)
    requires (forall i: nat, f :: SaysWell(well, body, i, field, cap, f)) && well(p, found) && p <= |body|
    ensures Reads(body, p, r)
    decreases |body| - p
  {
    var rest, m, e, found' := SoundTurn(well, body, p, field, cap, found);
    if rest.Some? {
      r := rest.value;
    } else {
      var next := SearchSound(well, body, e + 1, field, cap, found');
      r := MoreText(body, p, e, m, next);
    }
  }

  // ---------- the exact language ----------

  ghost predicate IsText(body: string, d: Document) {
    ValidDocument(d) && DocumentText(d) == body
  }

  lemma OpensAt(body: string, lead: string, tail: string, field: CString, cap: nat)
    requires AllSpace(lead) && At(body, 0, lead + (['{'] + tail)) && cap > 0
    ensures |lead| + 1 <= |body| && At(body, |lead| + 1, tail)
    ensures GetString(body, field, cap) == SearchAt(body, |lead| + 1, field, cap, None)
  {
    SkipTo(body, 0, lead, '{', tail);
  }

  lemma DocumentComplete(body: string, d: Document, field: CString, cap: nat)
    requires IsText(body, d) && cap > 0
    ensures GetString(body, field, cap) == Verdict(Occurrences(d.rest, field), cap)
  {
    assert |body| == |d.lead| + 1 + |RestText(d.rest)|;
    OpensAt(body, d.lead, RestText(d.rest), field, cap);
    SearchComplete(body, |d.lead| + 1, d.rest, field, cap, None);
  }

  lemma DocumentSound(body: string, field: CString, cap: nat) returns (d: Document)
    requires WellFormed(GetString(body, field, cap))
    ensures IsText(body, d)
  {
    var p := SkipAt(body, 0);
    var well := (i: nat, f: Option<string>) => EndsWell(body, i, field, cap, f);
    var rest := SearchSound(well, body, p + 1, field, cap, None);
    d := Document(body[0..p], rest);
    AtSlice(body, 0, p);
    TextThen(body, 0, body[0..p], '{', RestText(rest));
    AtIs(body, 0, DocumentText(d));
    assert body[0..|body|] == body;
  }

  /** json_get_string returns OK with `v` exactly on the texts of flat all-string objects in which the
      field occurs exactly once, decodes to `v`, and fits. */
  lemma FoundExactly(body: string, field: CString, cap: nat, v: string)
    ensures GetString(body, field, cap) == Found(v) <==>
            |v| + 1 <= cap && exists d :: IsText(body, d) && Occurrences(d.rest, field) == [v]
  {
    if GetString(body, field, cap) == Found(v) {
      var d := DocumentSound(body, field, cap);
      DocumentComplete(body, d, field, cap);
    }
    if |v| + 1 <= cap && exists d :: IsText(body, d) && Occurrences(d.rest, field) == [v] {
      var d :| IsText(body, d) && Occurrences(d.rest, field) == [v];
      DocumentComplete(body, d, field, cap);
    }
  }

  /** It reports a missing field exactly on the texts of such objects without the field. */
  lemma MissingExactly(body: string, field: CString, cap: nat)
    ensures GetString(body, field, cap) == Failed(MissingField) <==>
            cap > 0 && exists d :: IsText(body, d) && Occurrences(d.rest, field) == []
  {
    if GetString(body, field, cap) == Failed(MissingField) {
      var d := DocumentSound(body, field, cap);
      DocumentComplete(body, d, field, cap);
    }
    if cap > 0 && exists d :: IsText(body, d) && Occurrences(d.rest, field) == [] {
      var d :| IsText(body, d) && Occurrences(d.rest, field) == [];
      DocumentComplete(body, d, field, cap);
    }
  }

  // ---------- a value that does not fit ends the search at once ----------

  /** The start of an object up to the first value of the field. */
  datatype Partial = Hit(m: Member) | Then(m: Member, next: Partial)

  predicate ValidPartial(q: Partial, field: CString, cap: nat) {
    match q
    case Hit(m) => ValidMember(m) && Own(m, field) != [] && |Own(m, field)[0]| + 1 > cap
    case Then(m, next) => ValidMember(m) && Own(m, field) == [] && ValidPartial(next, field, cap)
  }

  function PartialText(q: Partial): string {
    match q
    case Hit(m) => m.before + Core(m)
    case Then(m, next) => MemberText(m) + ([','] + PartialText(next))
  }

  lemma HitLayout(body: string, p: nat, before: string, core: string) returns (q: nat)
    requires AllSpace(before) && core != [] && core[0] == '"' && At(body, p, before + core)
    ensures q == p + |before| == SkipAt(body, p) < |body| && body[q] == '"' && At(body, q, core)
  {
    q := p + |before|;
    AtSplit(body, p, before, core);
    assert core[0] == body[q + 0];
    SkipComplete(body, p, before);
  }

  lemma HitComplete(body: string, p: nat, m: Member, field: CString, cap: nat)
    requires ValidPartial(Hit(m), field, cap) && At(body, p, m.before + Core(m))
    ensures p <= |body| && SearchAt(body, p, field, cap, None) == Failed(PayloadTooLarge)
  {
    var q := HitLayout(body, p, m.before, Core(m));
    MemberComplete(body, q, m);
    assert Carry(None, m, field, cap).0 == PayloadTooLarge;
    TurnOfMember(body, p, q, Values(m.name), Values(m.value), q + |Core(m)|, field, cap, None);
    assert TurnAt(body, p, field, cap, None) == Done(Failed(PayloadTooLarge));
    SearchStep(body, p, field, cap, None);
  }

  lemma {:induction false} PartialComplete(body: string, p: nat, q: Partial, field: CString, cap: nat)
    requires ValidPartial(q, field, cap) && At(body, p, PartialText(q))
    ensures p <= |body| && SearchAt(body, p, field, cap, None) == Failed(PayloadTooLarge)
    decreases q
  {
    match q
    case Hit(m) => HitComplete(body, p, m, field, cap);
    case Then(m, next) =>
      var at := MoreCase(body, p, m, PartialText(next));
      PartialComplete(body, at, next, field, cap);
      TurnComplete(body, p, m, ',', PartialText(next), field, cap, None);
      SearchTurn(body, p, NextAt(p, m, ','), Ok, field, cap, None, None);
  }

  lemma {:induction false} FoundNeverTooLarge(body: string, p: nat, field: CString, cap: nat, v: string)
    requires p <= |body|
    ensures SearchAt(body, p, field, cap, Some(v)) != Failed(PayloadTooLarge)
    decreases |body| - p
  {
    var turn := TurnAt(body, p, field, cap, Some(v));
    SearchStep(body, p, field, cap, Some(v));
    if turn.Again? {
      FoundNeverTooLarge(body, turn.next, field, cap, v);
    }
  }

  lemma CarryOwn(m: Member, field: CString, cap: nat)
    ensures Carry(None, m, field, cap).0 == PayloadTooLarge ==> Own(m, field) != [] && |Own(m, field)[0]| + 1 > cap
    ensures Carry(None, m, field, cap).0 == Ok && Carry(None, m, field, cap).1 == None ==> Own(m, field) == []
  {
  }

  lemma BraceNeverTooLarge(body: string, e: nat, field: CString, cap: nat)
    requires e < |body| && body[e] == '}' && SkipAt(body, e) == e
    ensures SearchAt(body, e, field, cap, None) != Failed(PayloadTooLarge)
  {
    SearchStep(body, e, field, cap, None);
  }

  /** After a member, a search that ends with a value too large has found nothing and stands at a comma. */
  lemma CommaFollows(body: string, r: nat, e: nat, next: nat, found: Option<string>, field: CString, cap: nat)
    requires r <= |body| && e == SkipAt(body, r) && AfterMember(body, r, found) == Again(next, found)
    requires SearchAt(body, next, field, cap, found) == Failed(PayloadTooLarge)
    ensures found == None && e < |body| && body[e] == ',' && next == e + 1
  {
    TooLargeFindsNothing(body, next, found, field, cap);
    AfterMemberGoesOn(body, r, e, next, found);
    if next == e {
      BraceNeverTooLarge(body, e, field, cap);
    }
  }

  lemma PartialGoesOn(body: string, r: nat, e: nat, next: nat, found: Option<string>, field: CString, cap: nat)
    requires r <= |body| && e == SkipAt(body, r) && AfterMember(body, r, found) == Again(next, found)
    requires SearchAt(body, next, field, cap, found) == Failed(PayloadTooLarge)
    ensures found == None && e < |body| && body[e] == ','
    ensures SearchAt(body, e + 1, field, cap, None) == Failed(PayloadTooLarge)
  {
    CommaFollows(body, r, e, next, found, field, cap);
  }

  lemma TooLargeFindsNothing(body: string, p: nat, found: Option<string>, field: CString, cap: nat)
    requires p <= |body| && SearchAt(body, p, field, cap, found) == Failed(PayloadTooLarge)
    ensures found == None
  {
    if found.Some? {
      FoundNeverTooLarge(body, p, field, cap, found.value);
    }
  }

  /** The first turn of a search that ends with a value too large: it reads the value, or goes on. */
  lemma PartialTurn(body: string, p: nat, field: CString, cap: nat) returns (m: Member, e: nat, hit: bool)
    requires p <= |body| && SearchAt(body, p, field, cap, None) == Failed(PayloadTooLarge)
    ensures hit ==> ValidPartial(Hit(m), field, cap) && At(body, p, m.before + Core(m))
    ensures !hit ==>
              && ValidMember(m) && Own(m, field) == [] && At(body, p, MemberText(m))
              && p < e == p + |MemberText(m)| < |body| && body[e] == ','
              && SearchAt(body, e + 1, field, cap, None) == Failed(PayloadTooLarge)
  {
    TooLargeReads(body, p, field, cap);
    var q, r;
    m, q, r, e := MemberAround(body, p);
    var (err, found') := Carry(None, m, field, cap);
    TurnOfMember(body, p, q, Values(m.name), Values(m.value), r, field, cap, None);
    SearchStep(body, p, field, cap, None);
    CarryOwn(m, field, cap);
    hit := err != Ok;
    if !hit {
      PartialGoesOn(body, r, e, AfterMember(body, r, found').next, found', field, cap);
    }
  }

  lemma TooLargeReads(body: string, p: nat, field: CString, cap: nat)
    requires p <= |body| && SearchAt(body, p, field, cap, None) == Failed(PayloadTooLarge)
    ensures SkipAt(body, p) < |body| && body[SkipAt(body, p)] != '}' && MemberAt(body, SkipAt(body, p)).Some?
  {
    SearchStep(body, p, field, cap, None);
  }

  /** From position `p` on the search ends with a value too large. */
  predicate EndsTooLarge(body: string, p: nat, field: CString, cap: nat) {
    p <= |body| && SearchAt(body, p, field, cap, None) == Failed(PayloadTooLarge)
  }

  predicate SaysTooLarge(ends: nat -> bool, body: string, p: nat, field: CString, cap: nat) {
    ends(p) == EndsTooLarge(body, p, field, cap)
  }

  lemma PartialStep(ends: nat -> bool, body: string, p: nat, field: CString, cap: nat) returns (m: Member, e: nat, hit: bool)
    requires (forall i: nat :: SaysTooLarge(ends, body, i, field, cap)) && ends(p)
    ensures hit ==> ValidPartial(Hit(m), field, cap) && At(body, p, m.before + Core(m))
    ensures !hit ==>
              && ValidMember(m) && Own(m, field) == [] && At(body, p, MemberText(m))
              && p < e == p + |MemberText(m)| < |body| && body[e] == ',' && ends(e + 1)
  {
    assert SaysTooLarge(ends, body, p, field, cap);
    m, e, hit := PartialTurn(body, p, field, cap);
    assert SaysTooLarge(ends, body, e + 1, field, cap);
  }

  lemma {:induction false} PartialSound(ends: nat -> bool, body: string, p: nat, field: CString, cap: nat) returns (q: Partial)
    requires (forall i: nat :: SaysTooLarge(ends, body, i, field, cap)) && ends(p) && p <= |body|
    ensures ValidPartial(q, field, cap) && At(body, p, PartialText(q))
    decreases |body| - p
  {
    var m, e, hit := PartialStep(ends, body, p, field, cap);
    if hit {
      q := Hit(m);
    } else {
      var next := PartialSound(ends, body, e + 1, field, cap);
      q := ThenAt(body, p, m, e, next, field, cap);
    }
  }

  lemma ThenAt(body: string, p: nat, m: Member, e: nat, next: Partial, field: CString, cap: nat) returns (q: Partial)
    requires ValidMember(m) && Own(m, field) == [] && At(body, p, MemberText(m))
    requires e == p + |MemberText(m)| < |body| && body[e] == ','
    requires ValidPartial(next, field, cap) && At(body, e + 1, PartialText(next))
    ensures ValidPartial(q, field, cap) && At(body, p, PartialText(q))
  {
    q := Then(m, next);
    TextThen(body, p, MemberText(m), ',', PartialText(next));
  }

  ghost predicate StartsPartial(body: string, lead: string, q: Partial, field: CString, cap: nat) {
    AllWhite(lead) && ValidPartial(q, field, cap) && At(body, 0, lead + (['{'] + PartialText(q)))
  }

  lemma PartialStart(body: string, field: CString, cap: nat) returns (lead: string, q: Partial)
    requires GetString(body, field, cap) == Failed(PayloadTooLarge)
    ensures StartsPartial(body, lead, q, field, cap)
  {
    var p := SkipAt(body, 0);
    var ends := (i: nat) => EndsTooLarge(body, i, field, cap);
    q := PartialSound(ends, body, p + 1, field, cap);
    lead := body[0..p];
    AtSlice(body, 0, p);
    TextThen(body, 0, lead, '{', PartialText(q));
  }

  /** It reports a payload that is too large exactly when the first value of the field does not fit,
      whatever follows that value. */
  lemma TooLargeExactly(body: string, field: CString, cap: nat)
    ensures GetString(body, field, cap) == Failed(PayloadTooLarge) <==>
            cap > 0 && exists lead, q :: StartsPartial(body, lead, q, field, cap)
  {
    if GetString(body, field, cap) == Failed(PayloadTooLarge) {
      var lead, q := PartialStart(body, field, cap);
    }
    if cap > 0 && exists lead, q :: StartsPartial(body, lead, q, field, cap) {
      var lead, q :| StartsPartial(body, lead, q, field, cap);
      OpensAt(body, lead, PartialText(q), field, cap);
      PartialComplete(body, |lead| + 1, q, field, cap);
    }
  }
}
