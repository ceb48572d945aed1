/** The Python string operations the notifier relies on: `str.strip()`, `str.lower()` and `str(int)`. */
module Text {

  /** Python's `str.isspace()` for one character: the white-space code points of Unicode
      (bidirectional class WS, B or S, or category Zs). */
  predicate IsSpace(c: char) {
    var n := c as int;
    n == 0x20 || 0x09 <= n <= 0x0D || 0x1C <= n <= 0x1F || n == 0x85 || n == 0xA0 ||
    n == 0x1680 || 0x2000 <= n <= 0x200A || n == 0x2028 || n == 0x2029 || n == 0x202F ||
    n == 0x205F || n == 0x3000
  }

  predicate AllSpace(s: string) {
    forall k :: 0 <= k < |s| ==> IsSpace(s[k])
  }

  /** Where `s.lstrip()` starts: the index of the first character that is not white space, or
      `|s|` when there is none. */
  function StartIndex(s: string): (i: nat)
    ensures i <= |s|
    ensures forall k :: 0 <= k < i ==> IsSpace(s[k])
    ensures i < |s| ==> !IsSpace(s[i])
    decreases |s|
  {
    if s != [] && IsSpace(s[0]) then 1 + StartIndex(s[1..]) else 0
  }

  /** Where `rstrip()` ends when it scans back from `e` and stops at `lo`: white space is
      dropped from the end, and only that. */
  function EndIndex(s: string, lo: nat, e: nat): (j: nat)
    requires lo <= e <= |s|
    ensures lo <= j <= e
    ensures forall k :: j <= k < e ==> IsSpace(s[k])
    ensures j > lo ==> !IsSpace(s[j - 1])
    decreases e
  {
    if e > lo && IsSpace(s[e - 1]) then EndIndex(s, lo, e - 1) else e
  }

  /** `s.strip()`: the input with its leading and trailing white space removed. */
  function Strip(s: string): string {
    var i := StartIndex(s);
    s[i..EndIndex(s, i, |s|)]
  }

  /** What `strip()` leaves is a slice of the input whose two ends are not white space, and
      everything it drops is white space. */
  lemma StripCharacterized(s: string) returns (i: nat, j: nat)
    ensures i <= j <= |s| && Strip(s) == s[i..j]
    ensures AllSpace(s[..i]) && AllSpace(s[j..])
    ensures var r := Strip(s); r != [] ==> !IsSpace(r[0]) && !IsSpace(r[|r| - 1])
  {
    i := StartIndex(s);
    j := EndIndex(s, i, |s|);
    assert forall k :: 0 <= k < i ==> s[..i][k] == s[k];
    assert forall k :: 0 <= k < |s| - j ==> s[j..][k] == s[j + k];
    var r := s[i..j];
    if r != [] {
      assert r[0] == s[i] && r[|r| - 1] == s[j - 1];
    }
  }

  /** Stripping twice strips nothing more. */
  lemma StripIdempotent(s: string)
    ensures Strip(Strip(s)) == Strip(s)
  {
    var r := Strip(s);
    var i, j := StripCharacterized(s);
    assert StartIndex(r) == 0;
    assert EndIndex(r, 0, |r|) == |r|;
    assert r[0..|r|] == r;
  }

  /** A secret made only of white space strips to the empty string. */
  lemma StripAllSpace(s: string)
    requires AllSpace(s)
    ensures Strip(s) == ""
  {
  }

  /** `str.lower()` for one character: ASCII capitals, and KELVIN SIGN U+212A, whose lower
      case is the ASCII `k`; every other character is kept. */
  function LowerChar(c: char): char {
    if 'A' <= c <= 'Z' then (c as int + 32) as char
    else if c as int == 0x212A then 'k'
    else c
  }

  /** `s.lower()`, character by character. */
  function Lower(s: string): (r: string)
    ensures |r| == |s|
  {
    if s == [] then [] else [LowerChar(s[0])] + Lower(s[1..])
  }

  /** Each character of `s.lower()` is the lower case of the character at that place. */
  lemma {:induction false} LowerAt(s: string, k: int)
    requires 0 <= k < |s|
    ensures Lower(s)[k] == LowerChar(s[k])
    decreases k
  {
    if k > 0 {
      LowerAt(s[1..], k - 1);
    }
  }

  /** Lower-casing is idempotent, so an already lower-cased type name is its own lower case. */
  lemma LowerIdempotent(s: string)
    ensures Lower(Lower(s)) == Lower(s)
  {
    var r := Lower(s);
    forall k | 0 <= k < |r| ensures Lower(r)[k] == r[k] {
      LowerAt(r, k);
      LowerAt(s, k);
    }
  }

  /** `s.lower()` is `t` when they agree character by character. */
  lemma LowerSpelled(s: string, t: string)
    requires |s| == |t| && forall k :: 0 <= k < |s| ==> LowerChar(s[k]) == t[k]
    ensures Lower(s) == t
  {
    forall k | 0 <= k < |s| ensures Lower(s)[k] == t[k] {
      LowerAt(s, k);
    }
  }

  /** A string with no capital and no KELVIN SIGN is its own lower case. */
  lemma LowerOfLower(s: string)
    requires forall k :: 0 <= k < |s| ==> !('A' <= s[k] <= 'Z') && s[k] as int != 0x212A
    ensures Lower(s) == s
  {
    LowerSpelled(s, s);
  }

  predicate IsDigit(c: char) {
    '0' <= c <= '9'
  }

  predicate AllDigits(s: string) {
    forall k :: 0 <= k < |s| ==> IsDigit(s[k])
  }

  function DigitChar(d: int): (c: char)
    requires 0 <= d < 10
    ensures IsDigit(c)
  {
    ('0' as int + d) as char
  }

  /** `str(n)` for a non-negative integer: its decimal digits without leading zeros. */
  function Decimal(n: nat): (r: string)
    ensures |r| >= 1 && AllDigits(r)
    ensures r[0] == '0' ==> n == 0
    decreases n
  {
    if n < 10 then [DigitChar(n)] else Decimal(n / 10) + [DigitChar(n % 10)]
  }

  /** The number a string of decimal digits denotes (the reference inverse of `Decimal`). */
  function DecimalValue(s: string): nat
    requires AllDigits(s)
    decreases |s|
  {
    if s == [] then 0 else DecimalValue(s[..|s| - 1]) * 10 + (s[|s| - 1] as int - '0' as int)
  }

  lemma {:induction false} DecimalRoundTrip(n: nat)
    ensures DecimalValue(Decimal(n)) == n
    decreases n
  {
    var r := Decimal(n);
    if n >= 10 {
      DecimalRoundTrip(n / 10);
      assert r[..|r| - 1] == Decimal(n / 10);
    }
  }

  /** Distinct millisecond counts give distinct timestamp strings. */
  lemma DecimalInjective(m: nat, n: nat)
    requires m != n
    ensures Decimal(m) != Decimal(n)
  {
    DecimalRoundTrip(m);
    DecimalRoundTrip(n);
  }
}
