/** key_matches and server_auth_check of src/server.c. */
module Auth {
  import opened CText

  const UINT_RANGE := 0x1_0000_0000

  /** Bitwise exclusive or. */
  function Xor(a: nat, b: nat): nat {
    if a == 0 && b == 0 then 0 else (a + b) % 2 + 2 * Xor(a / 2, b / 2)
  }

  /** Bitwise or. */
  function Or(a: nat, b: nat): nat {
    if a == 0 && b == 0 then 0 else (if a % 2 == 1 || b % 2 == 1 then 1 else 0) + 2 * Or(a / 2, b / 2)
  }

  lemma {:induction false} XorZero(a: nat, b: nat)
    ensures Xor(a, b) == 0 <==> a == b
  {
    if a != 0 || b != 0 {
      XorZero(a / 2, b / 2);
    }
  }

  lemma {:induction false} OrZero(a: nat, b: nat)
    ensures Or(a, b) == 0 <==> a == 0 && b == 0
  {
    if a != 0 || b != 0 {
      OrZero(a / 2, b / 2);
    }
  }

  /** The byte at `i`, or 0 beyond the end. */
  function Padded(s: string, i: nat): char {
    if i < |s| then s[i] else '\0'
  }

  /** key_matches: the fold over both keys, without an early exit, tells exactly whether they are equal. */
  method KeyMatches(expected: CString, provided: CString) returns (result: int)
    ensures result == if expected == provided then 1 else 0
  {
    var width := if |expected| > |provided| then |expected| else |provided|;
    var diff: nat := Xor(|expected|, |provided|) % UINT_RANGE;
    XorZero(|expected|, |provided|);
    for i := 0 to width
      invariant diff == 0 ==> forall k | 0 <= k < i :: Padded(expected, k) == Padded(provided, k)
      invariant diff != 0 ==> expected != provided
    {
      var exp, got := Padded(expected, i), Padded(provided, i);
      OrZero(diff, Xor(exp as int, got as int));
      XorZero(exp as int, got as int);
      diff := Or(diff, Xor(exp as int, got as int));
    }
    if diff == 0 {
      PaddedEqual(expected, provided, width);
    }
    return if diff == 0 then 1 else 0;
  }

  /** Two C strings that agree when padded with terminators are equal. */
  lemma PaddedEqual(a: CString, b: CString, width: nat)
    requires |a| <= width && |b| <= width
    requires forall k | 0 <= k < width :: Padded(a, k) == Padded(b, k)
    ensures a == b
  {
    assert forall k | 0 <= k < |a| :: a[k] in a;
    assert forall k | 0 <= k < |b| :: b[k] in b;
    assert |a| < |b| ==> Padded(a, |a|) != Padded(b, |a|);
    assert |b| < |a| ==> Padded(a, |b|) != Padded(b, |b|);
    forall k | 0 <= k < |a| && k < |b|
      ensures a[k] == b[k]
    {
      assert Padded(a, k) == Padded(b, k);
    }
  }

  /** server_auth_check: open without a configured key; otherwise the request must carry that key. */
  function Verdict(configured: string, provided: string): ApiError {
    if configured == [] then Ok
    else if provided == [] then Unauthorized
    else if configured == provided then Ok
    else Forbidden
  }

  method AuthCheck(configured: CString, provided: CString) returns (error: ApiError)
    ensures error == Verdict(configured, provided)
  {
    if configured == [] {
      return Ok;
    }
    if provided == [] {
      return Unauthorized;
    }
    var matches := KeyMatches(configured, provided);
    return if matches == 1 then Ok else Forbidden;
  }
}
