/** Decimal numbers as printf writes them and strtol reads them. */
module Numbers {
  import opened CText

  const LONG_MAX := 0x7fff_ffff_ffff_ffff
  const LONG_MIN := -0x8000_0000_0000_0000

  predicate IsDigit(c: char) {
    '0' <= c <= '9'
  }

  /** isspace in the C locale. */
  predicate IsSpace(c: char) {
    c == ' ' || '\t' <= c <= '\r'
  }

  function DigitOf(c: char): nat
    requires IsDigit(c)
  {
    c as int - '0' as int
  }

  function Digit(n: nat): char
    requires n < 10
  {
    '0' + n as char
  }

  /** %lu, %zu and %ld of a number that is not negative. */
  function Decimal(n: nat): (s: string)
    ensures s != [] && forall i | 0 <= i < |s| :: IsDigit(s[i])
  {
    if n < 10 then [Digit(n)] else Decimal(n / 10) + [Digit(n % 10)]
  }

  function SignedDecimal(n: int): string {
    if n < 0 then ['-'] + Decimal(-n) else Decimal(n)
  }

  /** The number that the digits from `p` to `q` make after `acc`. */
  function Reading(s: string, p: nat, q: nat, acc: nat): nat
    requires p <= q <= |s| && forall i | p <= i < q :: IsDigit(s[i])
    decreases q - p
  {
    if p == q then acc else Reading(s, p + 1, q, acc * 10 + DigitOf(s[p]))
  }

  /** The first position from `p` on that is no digit. */
  function DigitsEnd(s: string, p: nat): (q: nat)
    requires p <= |s|
    ensures p <= q <= |s| && (q < |s| ==> !IsDigit(s[q]))
    ensures forall i | p <= i < q :: IsDigit(s[i])
    decreases |s| - p
  {
    if p < |s| && IsDigit(s[p]) then DigitsEnd(s, p + 1) else p
  }

  function SpaceEnd(s: string, p: nat): (q: nat)
    requires p <= |s|
    ensures p <= q <= |s| && (q < |s| ==> !IsSpace(s[q]))
    decreases |s| - p
  {
    if p < |s| && IsSpace(s[p]) then SpaceEnd(s, p + 1) else p
  }

  /** strtol in base 10: the value, clamped to long; where it stopped (0 when there was no number);
      whether errno was set to ERANGE. */
  datatype Scanned = Scanned(value: int, end: nat, range: bool)

  function StrTol(s: string): (r: Scanned)
    ensures r.end <= |s|
  {
    var p := SpaceEnd(s, 0);
    var negative := p < |s| && s[p] == '-';
    var start := if p < |s| && (s[p] == '-' || s[p] == '+') then p + 1 else p;
    var end := DigitsEnd(s, start);
    if end == start then Scanned(0, 0, false)
    else
      var n := Reading(s, start, end, 0);
      var v: int := if negative then -(n as int) else n;
      if v > LONG_MAX then Scanned(LONG_MAX, end, true)
      else if v < LONG_MIN then Scanned(LONG_MIN, end, true)
      else Scanned(v, end, false)
  }

  lemma {:induction false} ReadingAppend(s: string, p: nat, q: nat, acc: nat)
    requires p <= q < |s| && forall i | p <= i <= q :: IsDigit(s[i])
    ensures Reading(s, p, q + 1, acc) == Reading(s, p, q, acc) * 10 + DigitOf(s[q])
    decreases q - p
  {
    if p < q {
      ReadingAppend(s, p + 1, q, acc * 10 + DigitOf(s[p]));
    }
  }

  /** Digits that spell `n` are read as `n`. */
  lemma {:induction false} ReadingDecimal(s: string, p: nat, n: nat)
    requires At(s, p, Decimal(n))
    ensures forall i | p <= i < p + |Decimal(n)| :: IsDigit(s[i])
    ensures Reading(s, p, p + |Decimal(n)|, 0) == n
    decreases n
  {
    var text := Decimal(n);
    forall i | p <= i < p + |text|
      ensures IsDigit(s[i])
    {
      assert s[p + (i - p)] == text[i - p];
    }
    if n < 10 {
      assert s[p + 0] == text[0];
    } else {
      AtSplit(s, p, Decimal(n / 10), [Digit(n % 10)]);
      ReadingDecimal(s, p, n / 10);
      var q := p + |Decimal(n / 10)|;
      assert s[q + 0] == [Digit(n % 10)][0];
      ReadingAppend(s, p, q, 0);
    }
  }

  lemma {:induction false} DigitsEndIs(s: string, p: nat, q: nat)
    requires p <= q <= |s| && (forall i | p <= i < q :: IsDigit(s[i])) && (q < |s| ==> !IsDigit(s[q]))
    ensures DigitsEnd(s, p) == q
    decreases q - p
  {
    if p < q {
      DigitsEndIs(s, p + 1, q);
    }
  }

  /** strtol undoes the printing of a number that fits a long, whatever is no digit follows it. */
  lemma StrTolDecimal(n: nat, tail: string)
    requires n <= LONG_MAX && (tail != [] ==> !IsDigit(tail[0]))
    ensures StrTol(Decimal(n) + tail) == Scanned(n, |Decimal(n)|, false)
  {
    var s := Decimal(n) + tail;
    assert At(s, 0, Decimal(n));
    ReadingDecimal(s, 0, n);
    assert IsDigit(s[0]);
    DigitsEndIs(s, 0, |Decimal(n)|);
  }

  /** ... and a minus sign before it is read as the sign. */
  lemma StrTolNegative(n: nat, tail: string)
    requires n <= LONG_MAX && (tail != [] ==> !IsDigit(tail[0]))
    ensures StrTol(['-'] + Decimal(n) + tail) == Scanned(-(n as int), |Decimal(n)| + 1, false)
  {
    var s := ['-'] + Decimal(n) + tail;
    assert At(s, 1, Decimal(n));
    ReadingDecimal(s, 1, n);
    DigitsEndIs(s, 1, 1 + |Decimal(n)|);
  }

  /** Spaces before a number are skipped, and so is a plus sign. */
  lemma StrTolSkips(s: string, p: nat, start: nat, n: nat)
    requires n <= LONG_MAX && p <= start <= |s| && forall i | 0 <= i < p :: IsSpace(s[i])
    requires start == p || (start == p + 1 && s[p] == '+')
    requires At(s, start, Decimal(n))
    requires start + |Decimal(n)| < |s| ==> !IsDigit(s[start + |Decimal(n)|])
    ensures StrTol(s) == Scanned(n, start + |Decimal(n)|, false)
  {
    assert s[start + 0] == Decimal(n)[0] && IsDigit(s[start]);
    SpaceEndIs(s, 0, p);
    ReadingDecimal(s, start, n);
    DigitsEndIs(s, start, start + |Decimal(n)|);
  }

  lemma {:induction false} SpaceEndIs(s: string, p: nat, q: nat)
    requires p <= q <= |s| && (forall i | p <= i < q :: IsSpace(s[i])) && (q < |s| ==> !IsSpace(s[q]))
    ensures SpaceEnd(s, p) == q
    decreases q - p
  {
    if p < q {
      SpaceEndIs(s, p + 1, q);
    }
  }

  /** A number beyond long is clamped and reported. */
  lemma StrTolTooLarge(n: nat, tail: string)
    requires n > LONG_MAX && (tail != [] ==> !IsDigit(tail[0]))
    ensures StrTol(Decimal(n) + tail) == Scanned(LONG_MAX, |Decimal(n)|, true)
  {
    var s := Decimal(n) + tail;
    assert At(s, 0, Decimal(n));
    ReadingDecimal(s, 0, n);
    assert IsDigit(s[0]);
    DigitsEndIs(s, 0, |Decimal(n)|);
  }

  /** The bytes that sscanf and strtol skip. */
  lemma SpacesAre(c: char)
    ensures IsSpace(c) <==> c in {' ', '\t', '\n', '\r', 11 as char, 12 as char}
  {
  }

  lemma {:induction false} DecimalLength(n: nat, k: nat, bound: nat)
    requires k > 0 && n < bound && bound == Power10(k)
    ensures |Decimal(n)| <= k
    decreases k
  {
    if n >= 10 {
      DecimalLength(n / 10, k - 1, Power10(k - 1));
    }
  }

  function Power10(k: nat): nat {
    if k == 0 then 1 else 10 * Power10(k - 1)
  }
}
