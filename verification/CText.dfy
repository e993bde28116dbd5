/** C strings and the typed errors that all parts of the server share. A byte is a `char`; nothing
    here depends on its code being at most 255. */
module CText {
  datatype Option<+T> = None | Some(value: T)

  datatype ApiError =
    | Ok
    | BadRequest
    | MissingField
    | InvalidKey
    | InvalidId
    | InvalidQuery
    | NotFound
    | MethodNotAllowed
    | LengthRequired
    | PayloadTooLarge
    | UnsupportedMedia
    | Unauthorized
    | Forbidden
    | NotImplemented
    | Internal

  predicate NulFree(s: string) {
    '\0' !in s
  }

  /** The bytes of a C string before its terminator. */
  type CString = s: string | NulFree(s)

  /** The first position of `c` from `p` on, or the length when there is none. */
  function IndexFrom(s: string, p: nat, c: char): (i: nat)
    requires p <= |s|
    ensures p <= i <= |s|
    ensures forall k | p <= k < i :: s[k] != c
    ensures i < |s| ==> s[i] == c
    decreases |s| - p
  {
    if p == |s| || s[p] == c then p else IndexFrom(s, p + 1, c)
  }

  /** The first position of `c`, or the length when it does not occur (strchr, memchr). */
  function IndexOf(s: string, c: char): (i: nat)
    ensures i <= |s|
  {
    IndexFrom(s, 0, c)
  }

  /** What C string functions see of a buffer that holds `s` and then a terminator. */
  function CStr(s: string): (t: CString) {
    s[..IndexOf(s, '\0')]
  }

  lemma IndexIs(s: string, c: char, i: nat)
    requires i <= |s| && (forall k | 0 <= k < i :: s[k] != c) && (i < |s| ==> s[i] == c)
    ensures IndexOf(s, c) == i
  {
  }

  lemma CStrOfCString(s: CString)
    ensures CStr(s) == s
  {
    assert forall k | 0 <= k < |s| :: s[k] in s;
  }

  lemma IndexOfAfter(a: string, c: char, rest: string)
    requires c !in a
    ensures IndexOf(a + [c] + rest, c) == |a|
    ensures IndexOf(a, c) == |a|
  {
    assert forall k | 0 <= k < |a| :: a[k] in a;
    IndexIs(a + [c] + rest, c, |a|);
    IndexIs(a, c, |a|);
  }

  /** memcpy of `text` to position `pos` of a buffer. */
  method CopyTo(dest: array<char>, pos: nat, text: string)
    requires pos + |text| <= dest.Length
    modifies dest
    ensures dest[..pos + |text|] == old(dest[..pos]) + text
    ensures dest[pos + |text|..] == old(dest[pos + |text|..])
  {
    for i := 0 to |text|
      invariant dest[..pos + i] == old(dest[..pos]) + text[..i]
      invariant dest[pos + i..] == old(dest[pos + i..])
    {
      dest[pos + i] := text[i];
      assert dest[..pos + (i + 1)] == dest[..pos + i] + [text[i]];
    }
    assert text[..|text|] == text;
  }

  /** `text` stands in `s` from position `p` on. */
  predicate At(s: string, p: nat, text: string) {
    p + |text| <= |s| && forall i | 0 <= i < |text| :: s[p + i] == text[i]
  }

  lemma AtSlice(s: string, p: nat, q: nat)
    requires p <= q <= |s|
    ensures At(s, p, s[p..q])
  {
  }

  lemma AtIs(s: string, p: nat, text: string)
    requires At(s, p, text)
    ensures s[p..p + |text|] == text
  {
  }

  lemma AtSplit(s: string, p: nat, a: string, b: string)
    requires At(s, p, a + b)
    ensures At(s, p, a) && At(s, p + |a|, b)
  {
    forall i | 0 <= i < |a|
      ensures s[p + i] == a[i]
    {
      assert (a + b)[i] == a[i];
    }
    forall i | 0 <= i < |b|
      ensures s[p + |a| + i] == b[i]
    {
      assert (a + b)[|a| + i] == b[i];
    }
  }

  lemma AtJoin(s: string, p: nat, a: string, b: string)
    requires At(s, p, a) && At(s, p + |a|, b)
    ensures At(s, p, a + b)
  {
  }

  lemma AtHead(s: string, p: nat, c: char, tail: string)
    requires At(s, p, [c] + tail)
    ensures p < |s| && s[p] == c && At(s, p + 1, tail)
  {
    AtSplit(s, p, [c], tail);
    assert [c][0] == c;
  }

  lemma Regroup(a: string, b: string, c: string, d: string)
    ensures (a + (b + c)) + d == a + (b + (c + d))
  {
  }

  /** A buffer holds `v` and its terminator. */
  predicate Holds(buf: seq<char>, v: string) {
    |v| < |buf| && buf[..|v| + 1] == v + "\0"
  }

  /** The C string in a buffer that holds `v` and a terminator. */
  method Load(buf: array<char>, ghost v: string) returns (s: string)
    requires |v| < buf.Length && buf[..|v| + 1] == v + "\0"
    ensures s == CStr(v)
  {
    var n := 0;
    while buf[n] != '\0'
      invariant n <= |v|
      invariant '\0' !in v[..n]
      decreases |v| - n
    {
      assert buf[n] == buf[..|v| + 1][n];
      n := n + 1;
    }
    assert buf[n] == buf[..|v| + 1][n];
    s := buf[..n];
    assert buf[..n] == buf[..|v| + 1][..n];
    CutAt(v, n);
  }

  lemma CutAt(v: string, n: nat)
    requires n <= |v| && '\0' !in v[..n] && (n < |v| ==> v[n] == '\0')
    ensures CStr(v) == v[..n]
  {
    if n < |v| {
      assert v == v[..n] + ['\0'] + v[n + 1..];
      IndexOfAfter(v[..n], '\0', v[n + 1..]);
    } else {
      assert v[..n] == v;
      IndexOfAfter(v, '\0', "");
    }
  }
}
