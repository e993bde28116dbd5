/** http_query_get of src/http.c against the pieces between '&' and their first '='. */
module HttpQuery {
  import opened CText

  /** A piece of the query starts at `p`: at the front or right after a separator. */
  predicate Starts(query: string, p: nat) {
    p <= |query| && (p == 0 || query[p - 1] == '&')
  }

  /** The piece that starts at `p`: up to the next separator or the end. */
  function Piece(query: string, p: nat): string
    requires p <= |query|
  {
    query[p..IndexFrom(query, p, '&')]
  }

  function NameOf(pair: string): string {
    pair[..IndexOf(pair, '=')]
  }

  function ValueOf(pair: string): string {
    var eq := IndexOf(pair, '=');
    if eq == |pair| then "" else pair[eq + 1..]
  }

  predicate Matches(query: string, p: nat, key: string) {
    Starts(query, p) && NameOf(Piece(query, p)) == key
  }

  /** The first piece named `key` starts at `p`. */
  predicate FirstMatch(query: string, p: nat, key: string) {
    Matches(query, p, key) && forall q: nat | q < p :: !Matches(query, q, key)
  }

  function PlusToSpace(s: string): (r: string)
    ensures |r| == |s| && forall i | 0 <= i < |s| :: r[i] == if s[i] == '+' then ' ' else s[i]
  {
    seq(|s|, i requires 0 <= i < |s| => if s[i] == '+' then ' ' else s[i])
  }

  method CopyValue(value: string, out: array<char>)
    requires |value| + 1 <= out.Length
    modifies out
    ensures Holds(out[..], PlusToSpace(value))
  {
    for i := 0 to |value|
      invariant forall k | 0 <= k < i :: out[k] == PlusToSpace(value)[k]
    {
      out[i] := if value[i] == '+' then ' ' else value[i];
    }
    out[|value|] := '\0';
    assert out[..][..|value| + 1] == PlusToSpace(value) + "\0";
  }

  /** No piece starts inside a piece, so a piece without the name leaves no match up to its end. */
  lemma NoMatchInside(query: string, p: nat, amp: nat, key: string)
    requires p <= |query| && amp == IndexFrom(query, p, '&')
    requires forall q: nat | q <= p :: !Matches(query, q, key)
    ensures forall q: nat | q <= amp :: !Matches(query, q, key)
  {
    forall q: nat | p < q <= amp
      ensures !Starts(query, q)
    {
      assert query[q - 1] != '&';
    }
  }

  /** An empty piece at the very end, which the loop does not look at, has an empty name. */
  lemma EndMatchesNothing(query: string, key: string)
    requires key != []
    ensures !Matches(query, |query|, key)
  {
  }

  /** http_query_get: 0 with the value of the first piece that has the name, '+' turned into spaces;
      -2 when that value does not fit; -1 when no piece has the name. An empty name does not match the
      empty piece at the end. */
  method QueryGet(query: CString, key: CString, out: array<char>) returns (code: int, ghost at: nat)
    modifies out
    ensures out.Length == 0 ==> code == -1
    ensures out.Length > 0 && code == -1 ==> forall p: nat | p < |query| || key != [] :: !Matches(query, p, key)
    ensures out.Length > 0 && code != -1 ==>
              FirstMatch(query, at, key) && at < |query| &&
              var v := ValueOf(Piece(query, at));
              if |v| + 1 > out.Length then code == -2 else code == 0 && Holds(out[..], PlusToSpace(v))
  {
    at := 0;
    if out.Length == 0 {
      return -1, at;
    }
    if key != [] {
      EndMatchesNothing(query, key);
    }
    var cursor := 0;
    while cursor < |query|
      invariant cursor <= |query| && Starts(query, cursor)
      invariant forall q: nat | q < cursor :: !Matches(query, q, key)
    {
      var amp := IndexFrom(query, cursor, '&');
      var pair := query[cursor..amp];
      assert pair == Piece(query, cursor);
      var nameLen := IndexOf(pair, '=');
      if nameLen == |key| && pair[..nameLen] == key {
        var value := if nameLen == |pair| then "" else pair[nameLen + 1..];
        assert NameOf(pair) == key && value == ValueOf(pair);
        if |value| + 1 > out.Length {
          return -2, cursor;
        }
        CopyValue(value, out);
        return 0, cursor;
      }
      NoMatchInside(query, cursor, amp, key);
      if amp == |query| {
        return -1, at;
      }
      cursor := amp + 1;
    }
    return -1, at;
  }

  /** The three answers of http_query_get as a value. */
  datatype Answer = Absent | TooLong | Value(text: string)

  /** Where the loop stops from `p` on. */
  function FindFrom(query: string, p: nat, key: string): (at: Option<nat>)
    requires p <= |query|
    ensures at.Some? ==> at.value < |query|
    decreases |query| - p
  {
    if p == |query| then None
    else if NameOf(Piece(query, p)) == key then Some(p)
    else
      var amp := IndexFrom(query, p, '&');
      if amp == |query| then None else FindFrom(query, amp + 1, key)
  }

  function Lookup(query: string, key: string, cap: nat): Answer {
    match FindFrom(query, 0, key)
    case None => Absent
    case Some(p) =>
      if |ValueOf(Piece(query, p))| + 1 > cap then TooLong
      else Value(PlusToSpace(ValueOf(Piece(query, p))))
  }

  lemma FindFromGoesOn(query: string, p: nat, amp: nat, key: string)
    requires p < |query| && amp == IndexFrom(query, p, '&') < |query| && NameOf(Piece(query, p)) != key
    ensures FindFrom(query, p, key) == FindFrom(query, amp + 1, key)
  {
  }

  lemma {:induction false} FindFromIsFirst(query: string, p: nat, key: string)
    requires Starts(query, p) && forall q: nat | q < p :: !Matches(query, q, key)
    ensures match FindFrom(query, p, key)
            case None => forall q: nat | q < |query| :: !Matches(query, q, key)
            case Some(i) => i < |query| && FirstMatch(query, i, key)
    decreases |query| - p
  {
    if p < |query| && NameOf(Piece(query, p)) != key {
      var amp := IndexFrom(query, p, '&');
      NoMatchInside(query, p, amp, key);
      if amp < |query| {
        FindFromGoesOn(query, p, amp, key);
        FindFromIsFirst(query, amp + 1, key);
      }
    }
  }

  lemma LookupIs(query: string, key: string, at: nat)
    requires FirstMatch(query, at, key) && at < |query|
    ensures FindFrom(query, 0, key) == Some(at)
  {
    FindFromIsFirst(query, 0, key);
  }

  /** http_query_get with a local buffer of `cap` bytes, as a value. */
  method Query(query: CString, key: CString, cap: nat) returns (answer: Answer)
    requires cap > 0
    ensures answer == Lookup(query, key, cap)
    ensures answer.Value? ==> NulFree(answer.text)
  {
    var out := new char[cap];
    var code, at := QueryGet(query, key, out);
    if code == -1 {
      FindFromIsFirst(query, 0, key);
      return Absent;
    }
    LookupIs(query, key, at);
    if code == -2 {
      return TooLong;
    }
    ghost var text := PlusToSpace(ValueOf(Piece(query, at)));
    PlusNulFree(query, at);
    CStrOfCString(text);
    var loaded := Load(out, text);
    return Value(loaded);
  }

  lemma PlusNulFree(query: CString, at: nat)
    requires at <= |query|
    ensures NulFree(PlusToSpace(ValueOf(Piece(query, at))))
  {
    var value := ValueOf(Piece(query, at));
    assert NulFree(value);
    assert forall i | 0 <= i < |value| :: value[i] in value;
  }

  // ---------- printed queries ----------

  /** name=value; the name has no separator, the value no '&'. */
  datatype Pair = Pair(name: string, value: string)

  predicate ValidPair(p: Pair) {
    '&' !in p.name && '=' !in p.name && '&' !in p.value
  }

  function PairText(p: Pair): string {
    p.name + (['='] + p.value)
  }

  /** The pairs from the k-th on, with '&' between them. */
  function PairsText(ps: seq<Pair>, k: nat): string
    requires k <= |ps|
    decreases |ps| - k
  {
    if k == |ps| then []
    else if k + 1 == |ps| then PairText(ps[k])
    else PairText(ps[k]) + (['&'] + PairsText(ps, k + 1))
  }

  lemma PairParts(p: Pair)
    requires ValidPair(p)
    ensures '&' !in PairText(p) && NameOf(PairText(p)) == p.name && ValueOf(PairText(p)) == p.value
  {
    assert PairText(p) == p.name + ['='] + p.value;
    IndexOfAfter(p.name, '=', p.value);
  }

  lemma PieceIs(query: string, p: nat, text: string, tail: string)
    requires At(query, p, text + tail) && p + |text| + |tail| == |query| && '&' !in text && (tail != [] ==> tail[0] == '&')
    ensures p <= |query| && Piece(query, p) == text && IndexFrom(query, p, '&') == p + |text|
  {
    AtSplit(query, p, text, tail);
    forall i | p <= i < p + |text|
      ensures query[i] != '&'
    {
      assert query[p + (i - p)] == text[i - p] && text[i - p] in text;
    }
    if tail != [] {
      assert query[p + |text| + 0] == tail[0];
    }
    AtIs(query, p, text);
  }

  /** The i-th pair is the first one from the k-th on with that name. */
  predicate FirstNamed(ps: seq<Pair>, k: nat, key: string, i: nat) {
    k <= i < |ps| && ps[i].name == key && forall j | k <= j < i :: ps[j].name != key
  }

  ghost predicate FindsPair(query: string, at: Option<nat>, ps: seq<Pair>, k: nat, key: string) {
    match at
    case None => forall j | k <= j < |ps| :: ps[j].name != key
    case Some(p) => p <= |query| && exists i: nat :: FirstNamed(ps, k, key, i) && Piece(query, p) == PairText(ps[i])
  }

  /** The k-th pair is a piece, and the next one starts behind its separator. */
  lemma PrintedStep(query: string, p: nat, ps: seq<Pair>, k: nat) returns (amp: nat)
    requires k < |ps| && ValidPair(ps[k]) && At(query, p, PairsText(ps, k)) && p + |PairsText(ps, k)| == |query|
    ensures p < |query| && Piece(query, p) == PairText(ps[k]) && amp == IndexFrom(query, p, '&')
    ensures k + 1 == |ps| ==> amp == |query|
    ensures k + 1 < |ps| ==>
              amp < |query| && At(query, amp + 1, PairsText(ps, k + 1)) && amp + 1 + |PairsText(ps, k + 1)| == |query|
  {
    var text := PairText(ps[k]);
    var tail := if k + 1 == |ps| then [] else ['&'] + PairsText(ps, k + 1);
    assert PairsText(ps, k) == text + tail;
    PairParts(ps[k]);
    PieceIs(query, p, text, tail);
    amp := p + |text|;
    if k + 1 < |ps| {
      AtSplit(query, p, text, tail);
      AtHead(query, amp, '&', PairsText(ps, k + 1));
    }
  }

  lemma {:induction false} FindInPrinted(query: string, p: nat, ps: seq<Pair>, k: nat, key: string)
    requires k < |ps| && (forall i | 0 <= i < |ps| :: ValidPair(ps[i]))
    requires At(query, p, PairsText(ps, k)) && p + |PairsText(ps, k)| == |query|
    ensures p <= |query| && FindsPair(query, FindFrom(query, p, key), ps, k, key)
    decreases |ps| - k
  {
    var amp := PrintedStep(query, p, ps, k);
    PairParts(ps[k]);
    if ps[k].name == key {
      assert FirstNamed(ps, k, key, k);
    } else if k + 1 < |ps| {
      FindFromGoesOn(query, p, amp, key);
      FindInPrinted(query, amp + 1, ps, k + 1, key);
      StillFirst(query, FindFrom(query, p, key), ps, k, key);
    }
  }

  lemma StillFirst(query: string, at: Option<nat>, ps: seq<Pair>, k: nat, key: string)
    requires k < |ps| && ps[k].name != key && FindsPair(query, at, ps, k + 1, key)
    ensures FindsPair(query, at, ps, k, key)
  {
    if at.Some? {
      var i: nat :| FirstNamed(ps, k + 1, key, i) && Piece(query, at.value) == PairText(ps[i]);
      assert FirstNamed(ps, k, key, i);
    }
  }

  /** Looking up a name in a printed query gives the value of the first pair with that name, '+' read as a space and
      nothing else changed; it is too long exactly if value and terminator do not fit, and absent exactly if no
      pair has the name. */
  lemma PrintedLookup(ps: seq<Pair>, key: string, cap: nat)
    requires forall i | 0 <= i < |ps| :: ValidPair(ps[i])
    ensures match Lookup(PairsText(ps, 0), key, cap)
            case Absent => forall i | 0 <= i < |ps| :: ps[i].name != key
            case TooLong => exists i: nat :: FirstNamed(ps, 0, key, i) && |ps[i].value| + 1 > cap
            case Value(v) => exists i: nat :: FirstNamed(ps, 0, key, i) && |ps[i].value| + 1 <= cap && Spaced(v, ps[i].value)
  {
    var query := PairsText(ps, 0);
    if ps != [] {
      assert At(query, 0, query);
      FindInPrinted(query, 0, ps, 0, key);
      var at := FindFrom(query, 0, key);
      if at.Some? {
        var i: nat :| FirstNamed(ps, 0, key, i) && Piece(query, at.value) == PairText(ps[i]);
        PairParts(ps[i]);
        assert Spaced(PlusToSpace(ps[i].value), ps[i].value);
      }
    }
  }

  /** `v` is the text `s` with spaces for its plus signs. */
  predicate Spaced(v: string, s: string) {
    |v| == |s| && forall i | 0 <= i < |s| :: v[i] == if s[i] == '+' then ' ' else s[i]
  }
}
