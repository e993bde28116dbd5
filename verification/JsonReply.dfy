/** The flat objects that the server writes, read back by its own parser. */
module JsonReply {
  import opened CText
  import opened Json
  import opened JsonObject
  import opened JsonGrammar

  /** A member name that is written as it is. */
  predicate PlainName(s: string) {
    |s| < NAME_CAP && forall i | 0 <= i < |s| :: s[i] != '"' && s[i] != '\\' && s[i] != '\0'
  }

  function PlainTokens(s: string): (ts: seq<Token>)
    ensures |ts| == |s| && forall i | 0 <= i < |s| :: ts[i] == Plain(s[i])
  {
    seq(|s|, i requires 0 <= i < |s| => Plain(s[i]))
  }

  lemma {:induction false} PlainTexts(s: string)
    ensures Texts(PlainTokens(s)) == s && Values(PlainTokens(s)) == s
  {
    var ts := PlainTokens(s);
    assert Values(ts) == s;
    if s != [] {
      assert ts[1..] == PlainTokens(s[1..]);
      PlainTexts(s[1..]);
    }
  }

  /** "name":"text" */
  function Entry(name: string, text: string): string {
    ['"'] + (name + (['"', ':', '"'] + (text + ['"'])))
  }

  function OneEntry(name: string, text: string): string {
    ['{'] + (Entry(name, text) + ['}'])
  }

  function TwoEntries(name1: string, text1: string, name2: string, text2: string): string {
    ['{'] + (Entry(name1, text1) + ([','] + (Entry(name2, text2) + ['}'])))
  }

  function EntryMember(name: string, ts: seq<Token>): Member {
    Member([], PlainTokens(name), [], [], ts, [])
  }

  predicate ReadableText(ts: seq<Token>) {
    ValidTokens(ts) && |ts| < VALUE_CAP
  }

  lemma EntryIsMember(name: string, ts: seq<Token>)
    requires PlainName(name) && ReadableText(ts)
    ensures ValidMember(EntryMember(name, ts)) && MemberText(EntryMember(name, ts)) == Entry(name, Texts(ts))
  {
    PlainTexts(name);
    EntryText(name, Texts(ts));
  }

  lemma EntryText(name: string, text: string)
    ensures [] + ((['"'] + (name + ['"'])) + ([] + ([':'] + ([] + (['"'] + (text + ['"']))))) + []) == Entry(name, text)
  {
  }

  lemma EntryOwn(name: string, ts: seq<Token>, field: CString)
    requires PlainName(name)
    ensures Own(EntryMember(name, ts), field) == if name == field then [CStr(Values(ts))] else []
  {
    PlainTexts(name);
    CStrOfCString(name);
  }

  /** An object with one entry, read back. */
  lemma OneReads(name: string, ts: seq<Token>, field: CString, cap: nat)
    requires PlainName(name) && ReadableText(ts) && cap > 0
    ensures GetString(OneEntry(name, Texts(ts)), field, cap) ==
            Verdict(if name == field then [CStr(Values(ts))] else [], cap)
  {
    var m := EntryMember(name, ts);
    var d := Document([], Last(m, []));
    EntryIsMember(name, ts);
    assert DocumentText(d) == OneEntry(name, Texts(ts));
    EntryOwn(name, ts, field);
    DocumentComplete(OneEntry(name, Texts(ts)), d, field, cap);
  }

  lemma TwoText(m1: Member, m2: Member, e1: string, e2: string)
    requires MemberText(m1) == e1 && MemberText(m2) == e2
    ensures DocumentText(Document([], More(m1, Last(m2, [])))) == ['{'] + (e1 + ([','] + (e2 + ['}'])))
  {
    assert ['}'] + [] == ['}'];
    assert RestText(Last(m2, [])) == e2 + ['}'];
    assert RestText(More(m1, Last(m2, []))) == e1 + ([','] + (e2 + ['}']));
  }

  lemma TwoDocument(name1: string, ts1: seq<Token>, name2: string, ts2: seq<Token>, field: CString) returns (d: Document)
    requires PlainName(name1) && ReadableText(ts1) && PlainName(name2) && ReadableText(ts2)
    ensures IsText(TwoEntries(name1, Texts(ts1), name2, Texts(ts2)), d)
    ensures Occurrences(d.rest, field) ==
            (if name1 == field then [CStr(Values(ts1))] else []) + (if name2 == field then [CStr(Values(ts2))] else [])
  {
    var m1, m2 := EntryMember(name1, ts1), EntryMember(name2, ts2);
    d := Document([], More(m1, Last(m2, [])));
    EntryIsMember(name1, ts1);
    EntryIsMember(name2, ts2);
    TwoText(m1, m2, Entry(name1, Texts(ts1)), Entry(name2, Texts(ts2)));
    EntryOwn(name1, ts1, field);
    EntryOwn(name2, ts2, field);
  }

  /** An object with two entries of different names, read back. */
  lemma TwoRead(name1: string, ts1: seq<Token>, name2: string, ts2: seq<Token>, field: CString, cap: nat)
    requires PlainName(name1) && ReadableText(ts1) && PlainName(name2) && ReadableText(ts2) && cap > 0
    requires name1 != name2
    ensures GetString(TwoEntries(name1, Texts(ts1), name2, Texts(ts2)), field, cap) ==
            Verdict(if name1 == field then [CStr(Values(ts1))] else if name2 == field then [CStr(Values(ts2))] else [], cap)
  {
    var d := TwoDocument(name1, ts1, name2, ts2, field);
    DocumentComplete(TwoEntries(name1, Texts(ts1), name2, Texts(ts2)), d, field, cap);
  }

  /** { "name" : "text" } with any white space where JSON allows it. */
  function SpacedEntry(w: seq<string>, name: string, text: string): string
    requires |w| == 6
  {
    w[0] + (['{'] + (w[1] + (['"'] + (name + (['"'] + (w[2] + ([':'] + (w[3] + (['"'] + (text + (['"'] + (w[4] + (['}'] + w[5])))))))))))))
  }

  lemma SpacedText(w: seq<string>, m: Member, name: string, text: string)
    requires |w| == 6 && m.before == w[1] && m.mid == w[2] && m.post == w[3] && m.after == w[4]
    requires Texts(m.name) == name && Texts(m.value) == text
    ensures DocumentText(Document(w[0], Last(m, w[5]))) == SpacedEntry(w, name, text)
  {
    var value := ['"'] + (text + ['"']);
    var tail := w[4] + (['}'] + w[5]);
    assert value + tail == ['"'] + (text + (['"'] + tail));
    var colon := w[2] + ([':'] + (w[3] + value));
    assert colon + tail == w[2] + ([':'] + (w[3] + (value + tail)));
    assert ['"'] + (name + ['"']) + colon + tail == ['"'] + (name + (['"'] + (colon + tail)));
    var core := Core(m);
    assert core == ['"'] + (name + ['"']) + colon;
    assert MemberText(m) + (['}'] + w[5]) == w[1] + (core + tail);
  }

  /** A value that a client writes with the five escapes, and with spaces, tabs and line breaks anywhere between the
      parts, is read as that value. */
  lemma SpacedReads(w: seq<string>, name: CString, value: CString, cap: nat)
    requires |w| == 6 && (forall i | 0 <= i < 6 :: forall k | 0 <= k < |w[i]| :: w[i][k] in {' ', '\t', '\n', '\r'})
    requires PlainName(name) && |value| < 8192
    ensures GetString(SpacedEntry(w, name, Escape(value)), name, cap) ==
            if cap == 0 then Failed(BadRequest) else if |value| + 1 <= cap then Found(value) else Failed(PayloadTooLarge)
  {
    var m := Member(w[1], PlainTokens(name), w[2], w[3], TokensOf(value), w[4]);
    var d := Document(w[0], Last(m, w[5]));
    PlainTexts(name);
    SpacedText(w, m, name, Escape(value));
    CStrOfCString(name);
    CStrOfCString(value);
    assert AllWhite(w[0]) && AllWhite(w[1]) && AllWhite(w[2]) && AllWhite(w[3]) && AllWhite(w[4]) && AllWhite(w[5]);
    if cap > 0 {
      DocumentComplete(SpacedEntry(w, name, Escape(value)), d, name, cap);
    }
  }

  // ---------- a value that does not fit the parser's own buffer ----------

  /** Where the two strings of a one-entry object stand. */
  lemma OneLayout(name: string, text: string) returns (p: nat)
    ensures var body := OneEntry(name, text);
            && p == |name| + 4 && p < |body| && body[0] == '{' && body[1] == '"' && body[p - 1] == ':' && body[p] == '"'
            && At(body, 1, ['"'] + (name + ['"'])) && At(body, p, ['"'] + (text + ['"']))
  {
    p := |name| + 4;
    var body := OneEntry(name, text);
    assert body[1..|name| + 3] == ['"'] + (name + ['"']);
    AtSlice(body, 1, |name| + 3);
    assert body[p..p + |text| + 2] == ['"'] + (text + ['"']);
    AtSlice(body, p, p + |text| + 2);
  }

  lemma LongMember(body: string, p: nat, name: string, ts: seq<Token>)
    requires p == |name| + 4 < |body| && body[1] == '"' && body[p - 1] == ':' && body[p] == '"'
    requires PlainName(name) && ValidTokens(ts) && |ts| >= VALUE_CAP
    requires At(body, 1, ['"'] + (name + ['"'])) && At(body, p, ['"'] + (Texts(ts) + ['"']))
    ensures MemberAt(body, 1) == None
  {
    NameReads(body, 1, name);
    QuotedComplete(body, p, ts, VALUE_CAP);
    MemberFails(body, 1, p - 1, p, name);
  }

  lemma NameReads(body: string, p: nat, name: string)
    requires PlainName(name) && At(body, p, ['"'] + (name + ['"']))
    ensures QuotedAt(body, p, NAME_CAP) == Some((name, p + |name| + 2))
  {
    PlainTexts(name);
    QuotedComplete(body, p, PlainTokens(name), NAME_CAP);
  }

  /** A name and a colon, but no value that fits. */
  lemma MemberFails(body: string, p: nat, colon: nat, start: nat, name: string)
    requires p < colon < start < |body| && start == colon + 1 && body[colon] == ':' && body[start] == '"'
    requires QuotedAt(body, p, NAME_CAP) == Some((name, colon)) && QuotedAt(body, start, VALUE_CAP) == None
    ensures MemberAt(body, p) == None
  {
  }

  lemma BadMember(body: string, field: CString, cap: nat)
    requires |body| > 1 && body[0] == '{' && body[1] == '"' && MemberAt(body, 1) == None
    ensures GetString(body, field, cap) == Failed(BadRequest)
  {
    assert SkipAt(body, 0) == 0 && SkipAt(body, 1) == 1;
  }

  /** An entry whose value has 8192 bytes or more is refused, whatever room the caller has. */
  lemma LongRefused(name: string, ts: seq<Token>, field: CString, cap: nat)
    requires PlainName(name) && ValidTokens(ts) && |ts| >= VALUE_CAP
    ensures GetString(OneEntry(name, Texts(ts)), field, cap) == Failed(BadRequest)
  {
    var p := OneLayout(name, Texts(ts));
    LongMember(OneEntry(name, Texts(ts)), p, name, ts);
    BadMember(OneEntry(name, Texts(ts)), field, cap);
  }
}
