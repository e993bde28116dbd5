/** The string codec of src/json.c: json_escape and parse_quoted, and how they undo each other. */
module Json {
  import opened CText

  // ---------- escaping ----------

  predicate HasNamedEscape(c: char) {
    c == '"' || c == '\\' || c == '\n' || c == '\r' || c == '\t'
  }

  /** Control bytes without a named escape cannot be written. */
  predicate EscapableChar(c: char) {
    c >= ' ' || HasNamedEscape(c)
  }

  predicate Escapable(s: string) {
    forall i | 0 <= i < |s| :: EscapableChar(s[i])
  }

  function EscapeChar(c: char): (e: string)
    ensures 1 <= |e| <= 2
  {
    if c == '"' then "\\\""
    else if c == '\\' then "\\\\"
    else if c == '\n' then "\\n"
    else if c == '\r' then "\\r"
    else if c == '\t' then "\\t"
    else [c]
  }

  function Escape(s: string): (e: string)
    ensures |s| <= |e| <= 2 * |s|
  {
    if s == [] then [] else EscapeChar(s[0]) + Escape(s[1..])
  }

  lemma {:induction false} EscapeConcat(a: string, b: string)
    ensures Escape(a + b) == Escape(a) + Escape(b)
  {
    if a == [] {
      assert a + b == b;
    } else {
      assert (a + b)[1..] == a[1..] + b;
      EscapeConcat(a[1..], b);
    }
  }

  lemma EscapeStep(s: string, p: nat)
    requires p < |s|
    ensures Escape(s[..p + 1]) == Escape(s[..p]) + EscapeChar(s[p])
    ensures |Escape(s[..p + 1])| <= |Escape(s)|
  {
    assert s[..p + 1] == s[..p] + [s[p]];
    EscapeConcat(s[..p], [s[p]]);
    assert s == s[..p + 1] + s[p + 1..];
    EscapeConcat(s[..p + 1], s[p + 1..]);
  }

  /** A string can be escaped exactly if its control bytes are tabs, line feeds and carriage returns. */
  lemma EscapableAre(s: string)
    ensures Escapable(s) <==> forall i | 0 <= i < |s| :: s[i] >= 32 as char || s[i] in {'\t', '\n', '\r'}
  {
  }

  /** Nothing that json_escape writes is a control byte. */
  lemma {:induction false} EscapedIsPrintable(s: string)
    requires Escapable(s)
    ensures forall i | 0 <= i < |Escape(s)| :: Escape(s)[i] >= ' '
  {
    if s != [] {
      var head, rest := EscapeChar(s[0]), Escape(s[1..]);
      assert EscapableChar(s[0]);
      assert forall i | 0 <= i < |s| - 1 :: s[1..][i] == s[i + 1];
      EscapedIsPrintable(s[1..]);
      forall i | 0 <= i < |Escape(s)|
        ensures Escape(s)[i] >= ' '
      {
        if i < |head| {
          assert Escape(s)[i] == head[i];
        } else {
          assert Escape(s)[i] == rest[i - |head|];
        }
      }
    }
  }

  /** A string without quotes, backslashes and control bytes stays as it is. */
  lemma {:induction false} PlainStays(s: string)
    requires forall i | 0 <= i < |s| :: s[i] >= ' ' && s[i] != '"' && s[i] != '\\'
    ensures Escape(s) == s
  {
    if s != [] {
      PlainStays(s[1..]);
      assert EscapeChar(s[0]) == [s[0]] && s == [s[0]] + s[1..];
    }
  }

  /** json_escape: succeeds exactly when every byte can be written and text and terminator fit. */
  method JsonEscape(dest: array<char>, src: CString) returns (result: int)
    modifies dest
    ensures result == if Escapable(src) && |Escape(src)| + 1 <= dest.Length then 0 else -1
    ensures result == 0 ==> dest[..|Escape(src)| + 1] == Escape(src) + ['\0']
  {
    if dest.Length == 0 {
      return -1;
    }
    var pos := 0;
    for p := 0 to |src|
      invariant pos == |Escape(src[..p])| < dest.Length
      invariant Escapable(src[..p])
      invariant dest[..pos] == Escape(src[..p])
    {
      var esc := EscapeChar(src[p]);
      EscapeStep(src, p);
      assert src[..p + 1] == src[..p] + [src[p]];
      if src[p] < ' ' && !HasNamedEscape(src[p]) {
        return -1;
      }
      if pos + |esc| + 1 > dest.Length {
        return -1;
      }
      ghost var done := dest[..pos];
      CopyTo(dest, pos, esc);
      pos := pos + |esc|;
      assert dest[..pos] == done + esc;
    }
    assert src[..|src|] == src;
    CopyTo(dest, pos, "\0");
    return 0;
  }

  // ---------- how strings may be written ----------

  /** One character of a quoted string as it is written. */
  datatype Token = Plain(c: char) | Escaped(c: char)

  /** Every byte but the quote and the backslash stands for itself, raw control bytes included; five escapes. */
  predicate ValidToken(t: Token) {
    match t
    case Plain(c) => c != '"' && c != '\\'
    case Escaped(c) => c in {'"', '\\', 'n', 'r', 't'}
  }

  predicate ValidTokens(ts: seq<Token>) {
    forall i | 0 <= i < |ts| :: ValidToken(ts[i])
  }

  function Text(t: Token): string {
    match t
    case Plain(c) => [c]
    case Escaped(c) => ['\\', c]
  }

  function Value(t: Token): char {
    match t
    case Plain(c) => c
    case Escaped(c) => if c == 'n' then '\n' else if c == 'r' then '\r' else if c == 't' then '\t' else c
  }

  function Texts(ts: seq<Token>): (s: string)
    ensures |ts| <= |s|
  {
    if ts == [] then [] else Text(ts[0]) + Texts(ts[1..])
  }

  function Values(ts: seq<Token>): (s: string)
    ensures |s| == |ts|
    ensures forall i | 0 <= i < |ts| :: s[i] == Value(ts[i])
  {
    if ts == [] then [] else [Value(ts[0])] + Values(ts[1..])
  }

  lemma TextsCons(t: Token, ts: seq<Token>)
    ensures Texts([t] + ts) == Text(t) + Texts(ts)
  {
    assert ([t] + ts)[1..] == ts;
  }

  lemma ValuesCons(t: Token, ts: seq<Token>)
    ensures Values([t] + ts) == [Value(t)] + Values(ts)
  {
    assert ([t] + ts)[1..] == ts;
  }

  // ---------- how they are read ----------

  /** The switch of parse_quoted on the byte after a backslash. */
  function Decoded(c: char): Option<char> {
    match c
    case '"' => Some('"')
    case '\\' => Some('\\')
    case 'n' => Some('\n')
    case 'r' => Some('\r')
    case 't' => Some('\t')
    case _ => None
  }

  /** The decoded bytes from position `p` up to the first closing quote, and the position after that quote. */
  function UnquoteAt(body: string, p: nat): (r: Option<(string, nat)>)
    ensures r.Some? ==> p < r.value.1 <= |body|
    decreases |body| - p
  {
    if p >= |body| then None
    else if body[p] == '"' then Some(([], p + 1))
    else if body[p] == '\\' then
      if p + 1 < |body| && Decoded(body[p + 1]).Some? then Prepend(Decoded(body[p + 1]).value, UnquoteAt(body, p + 2))
      else None
    else Prepend(body[p], UnquoteAt(body, p + 1))
  }

  function Prepend<R>(c: char, r: Option<(string, R)>): Option<(string, R)> {
    match r
    case None => None
    case Some((v, rest)) => Some(([c] + v, rest))
  }

  /** What is read is the text of valid tokens and a closing quote ... */
  lemma {:induction false} UnquoteSound(body: string, p: nat) returns (ts: seq<Token>)
    requires UnquoteAt(body, p).Some?
    ensures ValidTokens(ts) && UnquoteAt(body, p).value == (Values(ts), p + |Texts(ts)| + 1)
    ensures At(body, p, Texts(ts) + ['"'])
    decreases |body| - p
  {
    if body[p] == '"' {
      ts := [];
    } else {
      var t, q := FirstToken(body, p);
      var rest := UnquoteSound(body, q);
      TokenThen(body, p, t, rest);
      ValuesCons(t, rest);
      ts := [t] + rest;
    }
  }

  lemma FirstToken(body: string, p: nat) returns (t: Token, q: nat)
    requires UnquoteAt(body, p).Some? && body[p] != '"'
    ensures ValidToken(t) && At(body, p, Text(t)) && q == p + |Text(t)|
    ensures UnquoteAt(body, q).Some? && UnquoteAt(body, p) == Prepend(Value(t), UnquoteAt(body, q))
  {
    t := if body[p] == '\\' then Escaped(body[p + 1]) else Plain(body[p]);
    q := p + |Text(t)|;
  }

  lemma TokenThen(body: string, p: nat, t: Token, ts: seq<Token>)
    requires At(body, p, Text(t)) && At(body, p + |Text(t)|, Texts(ts) + ['"'])
    ensures At(body, p, Texts([t] + ts) + ['"']) && |Texts([t] + ts)| == |Text(t)| + |Texts(ts)|
  {
    TextsCons(t, ts);
    AtJoin(body, p, Text(t), Texts(ts) + ['"']);
    assert Text(t) + (Texts(ts) + ['"']) == Texts([t] + ts) + ['"'];
  }

  /** ... and every such text is read as just their values. */
  lemma {:induction false} UnquoteComplete(body: string, p: nat, ts: seq<Token>)
    requires ValidTokens(ts) && At(body, p, Texts(ts) + ['"'])
    ensures UnquoteAt(body, p) == Some((Values(ts), p + |Texts(ts)| + 1))
    decreases |ts|
  {
    if ts == [] {
      assert Texts(ts) + ['"'] == ['"'] + [];
      AtHead(body, p, '"', []);
    } else {
      var t, rest := ts[0], ts[1..];
      assert ValidToken(t) && ts == [t] + rest;
      TokenApart(body, p, t, rest);
      UnquoteComplete(body, p + |Text(t)|, rest);
      TokenRead(body, p, t);
      ValuesCons(t, rest);
    }
  }

  lemma TokenApart(body: string, p: nat, t: Token, rest: seq<Token>)
    requires At(body, p, Texts([t] + rest) + ['"'])
    ensures At(body, p, Text(t)) && At(body, p + |Text(t)|, Texts(rest) + ['"'])
    ensures |Texts([t] + rest)| == |Text(t)| + |Texts(rest)|
  {
    TextsCons(t, rest);
    assert Texts([t] + rest) + ['"'] == Text(t) + (Texts(rest) + ['"']);
    AtSplit(body, p, Text(t), Texts(rest) + ['"']);
  }

  /** A valid character is read as just its value. */
  lemma TokenRead(body: string, p: nat, t: Token)
    requires ValidToken(t) && At(body, p, Text(t))
    ensures UnquoteAt(body, p) == Prepend(Value(t), UnquoteAt(body, p + |Text(t)|))
  {
    assert Text(t)[0] == body[p + 0] && (t.Escaped? ==> Text(t)[1] == body[p + 1]);
  }

  /** What parse_quoted returns when it has decoded `done` and `r` is what remains to be read. */
  function Resume<R>(done: string, r: Option<(string, R)>, cap: nat): Option<(string, R)> {
    match r
    case None => None
    case Some((v, rest)) => if |done| + |v| < cap then Some((done + v, rest)) else None
  }

  lemma ResumeStep<R>(done: string, c: char, r: Option<(string, R)>, cap: nat)
    ensures Resume(done, Prepend(c, r), cap) == Resume(done + [c], r, cap)
    ensures |done| + 1 >= cap ==> Resume(done, Prepend(c, r), cap) == None
  {
    if r.Some? {
      assert done + ([c] + r.value.0) == done + [c] + r.value.0;
    }
  }

  /** parse_quoted from position `p` with a buffer of `cap` bytes: the decoded bytes and the position
      after the closing quote. */
  function QuotedAt(body: string, p: nat, cap: nat): (r: Option<(string, nat)>)
    ensures r.Some? ==> p + 1 < r.value.1 <= |body| && |r.value.0| < cap
  {
    if p < |body| && body[p] == '"' then Resume([], UnquoteAt(body, p + 1), cap) else None
  }

  /** parse_quoted between `start` and the end of the body; None stands for NULL. */
  method ReadQuoted(body: string, start: nat, out: array<char>) returns (next: Option<nat>)
    requires start <= |body|
    modifies out
    ensures match QuotedAt(body, start, out.Length)
            case None => next == None
            case Some((v, p)) => next == Some(p) && out[..|v| + 1] == v + "\0"
  {
    if start >= |body| || body[start] != '"' {
      return None;
    }
    next := ReadTokens(body, start + 1, out);
  }

  /** The character at `ptr`, escaped or not, and the position after it; None for a bad escape. */
  method Decode(body: string, ptr: nat) returns (decoded: Option<char>, next: nat)
    requires ptr < |body| && body[ptr] != '"'
    ensures ptr < next <= |body|
    ensures UnquoteAt(body, ptr) == if decoded.None? then None else Prepend(decoded.value, UnquoteAt(body, next))
  {
    if body[ptr] != '\\' {
      return Some(body[ptr]), ptr + 1;
    }
    if ptr + 1 >= |body| || Decoded(body[ptr + 1]) == None {
      return None, ptr + 1;
    }
    return Decoded(body[ptr + 1]), ptr + 2;
  }

  method ReadTokens(body: string, start: nat, out: array<char>) returns (next: Option<nat>)
    requires start <= |body|
    modifies out
    ensures match Resume([], UnquoteAt(body, start), out.Length)
            case None => next == None
            case Some((v, p)) => next == Some(p) && out[..|v| + 1] == v + "\0"
  {
    var ptr, pos := start, 0;
    while ptr < |body|
      invariant start <= ptr <= |body| && pos <= out.Length
      invariant Resume(out[..pos], UnquoteAt(body, ptr), out.Length)
                == Resume([], UnquoteAt(body, start), out.Length)
    {
      ghost var done := out[..pos];
      if body[ptr] == '"' {
        if out.Length == 0 {
          return None;
        }
        if pos >= out.Length {
          return None;
        }
        assert done + [] == done;
        CopyTo(out, pos, "\0");
        return Some(ptr + 1);
      }
      var decoded, after := Decode(body, ptr);
      if decoded == None {
        return None;
      }
      ResumeStep(done, decoded.value, UnquoteAt(body, after), out.Length);
      if pos + 1 >= out.Length {
        return None;
      }
      CopyTo(out, pos, [decoded.value]);
      assert out[..pos + 1] == done + [decoded.value];
      pos, ptr := pos + 1, after;
    }
    return None;
  }

  // ---------- the codec as a whole ----------

  function TokenOf(c: char): (t: Token)
    ensures Value(t) == c && Text(t) == EscapeChar(c) && ValidToken(t)
  {
    if c == '\n' then Escaped('n')
    else if c == '\r' then Escaped('r')
    else if c == '\t' then Escaped('t')
    else if c == '"' || c == '\\' then Escaped(c)
    else Plain(c)
  }

  function TokensOf(s: string): (ts: seq<Token>)
    ensures ValidTokens(ts) && Values(ts) == s && Texts(ts) == Escape(s)
  {
    if s == [] then []
    else
      var ts := [TokenOf(s[0])] + TokensOf(s[1..]);
      assert ts[1..] == TokensOf(s[1..]);
      ts
  }

  /** Reading back what json_escape wrote, wherever it stands between quotes, gives the original
      exactly when it fits the buffer with its terminator. */
  lemma QuotedRoundTrip(body: string, p: nat, s: string, cap: nat)
    requires At(body, p, ['"'] + (Escape(s) + ['"']))
    ensures QuotedAt(body, p, cap) == if |s| + 1 <= cap then Some((s, p + |Escape(s)| + 2)) else None
  {
    var ts := TokensOf(s);
    assert Texts(ts) == Escape(s) && Values(ts) == s && |ts| == |s|;
    QuotedComplete(body, p, ts, cap);
  }

  lemma QuotedComplete(body: string, p: nat, ts: seq<Token>, cap: nat)
    requires ValidTokens(ts) && At(body, p, ['"'] + (Texts(ts) + ['"']))
    ensures QuotedAt(body, p, cap) == if |ts| < cap then Some((Values(ts), p + |Texts(ts)| + 2)) else None
  {
    AtHead(body, p, '"', Texts(ts) + ['"']);
    UnquoteComplete(body, p + 1, ts);
    assert [] + Values(ts) == Values(ts);
  }

  lemma QuotedSound(body: string, p: nat, cap: nat) returns (ts: seq<Token>)
    requires QuotedAt(body, p, cap).Some?
    ensures ValidTokens(ts) && |ts| < cap && At(body, p, ['"'] + (Texts(ts) + ['"']))
    ensures QuotedAt(body, p, cap).value == (Values(ts), p + |Texts(ts)| + 2)
  {
    ts := UnquoteSound(body, p + 1);
    assert [] + Values(ts) == Values(ts);
    AtJoin(body, p, ['"'], Texts(ts) + ['"']);
  }

  /** Two strings never escape to the same text. */
  lemma EscapeInjective(a: string, b: string)
    requires Escape(a) == Escape(b)
    ensures a == b
  {
    var text := ['"'] + (Escape(a) + ['"']);
    assert At(text, 0, text);
    QuotedRoundTrip(text, 0, a, |a| + |b| + 1);
    QuotedRoundTrip(text, 0, b, |a| + |b| + 1);
  }

  /** Every single byte between quotes: what it is read as. */
  lemma OneByteReads(body: string, p: nat, c: char)
    requires At(body, p, ['"', c, '"']) && c != '"' && c != '\\'
    ensures QuotedAt(body, p, 2) == Some(([c], p + 3))
  {
    var text := ['"', c, '"'];
    assert body[p + 0] == text[0] && body[p + 1] == text[1] && body[p + 2] == text[2];
    assert UnquoteAt(body, p + 2) == Some(([], p + 3));
    assert UnquoteAt(body, p + 1) == Prepend(c, Some(([], p + 3)));
    assert [] + ([c] + []) == [c];
  }

  /** Every escape between quotes: five are read as in section 7 of RFC 8259, no other is accepted. */
  lemma OneEscapeReads(body: string, p: nat, c: char)
    requires At(body, p, ['"', '\\', c, '"'])
    ensures QuotedAt(body, p, 2) ==
            if c == '"' then Some(("\"", p + 4)) else if c == '\\' then Some(("\\", p + 4))
            else if c == 'n' then Some(("\n", p + 4)) else if c == 'r' then Some(("\r", p + 4))
            else if c == 't' then Some(("\t", p + 4)) else None
  {
    var text := ['"', '\\', c, '"'];
    assert body[p + 0] == text[0] && body[p + 1] == text[1] && body[p + 2] == text[2] && body[p + 3] == text[3];
    assert UnquoteAt(body, p + 3) == Some(([], p + 4));
    if Decoded(c).Some? {
      var d := Decoded(c).value;
      assert UnquoteAt(body, p + 1) == Prepend(d, Some(([], p + 4)));
      assert [] + ([d] + []) == [d];
    }
  }
}
