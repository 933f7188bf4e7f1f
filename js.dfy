/** The JavaScript semantics the garden code leans on: numbers, their string
    form, truthiness, and the string operations `indexOf` and `split`. */
module Js {
  import opened Wrappers

  /** A finite JavaScript number, held exactly as digits / 10^scale.
      Binary floating point is not modelled. */
  datatype JsNumber = JsNumber(digits: int, scale: nat)

  function Pow10(n: nat): (r: nat)
    ensures r >= 1
  {
    if n == 0 then 1 else 10 * Pow10(n - 1)
  }

  /** Powers of ten multiply by adding exponents. */
  lemma {:induction false} Pow10Add(a: nat, b: nat)
    ensures Pow10(a + b) == Pow10(a) * Pow10(b)
  {
    if a > 0 {
      Pow10Add(a - 1, b);
      assert Pow10(a + b) == 10 * Pow10(a - 1 + b);
    }
  }

  /** `Number.isInteger(n)` */
  predicate IsInteger(n: JsNumber) {
    n.digits % Pow10(n.scale) == 0
  }

  /** The integer that an integral number denotes. */
  function IntegerValue(n: JsNumber): (i: int)
    requires IsInteger(n)
    ensures i * Pow10(n.scale) == n.digits
  {
    n.digits / Pow10(n.scale)
  }

  /** A number written without trailing fractional zeros: the one form of
      each JavaScript number. */
  predicate Canonical(n: JsNumber) {
    n.scale == 0 || n.digits % 10 != 0
  }

  /** The canonical form of a number: trailing fractional zeros dropped,
      the value kept. */
  function Normalize(n: JsNumber): (c: JsNumber)
    ensures Canonical(c) && c.scale <= n.scale
    ensures c.digits * Pow10(n.scale - c.scale) == n.digits
    ensures Canonical(n) ==> c == n
    decreases n.scale
  {
    if n.scale > 0 && n.digits % 10 == 0 then
      var m := JsNumber(n.digits / 10, n.scale - 1);
      var c := Normalize(m);
      Pow10Add(1, m.scale - c.scale);
      assert c.digits * Pow10(n.scale - c.scale) == 10 * (c.digits * Pow10(m.scale - c.scale));
      c
    else n
  }

  /** A number is truthy unless it is zero (NaN is not modelled). */
  predicate NumberTruthy(n: JsNumber) {
    n.digits != 0
  }

  function DigitChar(d: nat): char
    requires d < 10
  {
    ('0' as int + d) as char
  }

  predicate IsDigit(c: char) {
    '0' <= c <= '9'
  }

  /** The decimal digits of a natural number. */
  function NatText(n: nat): (s: string)
    ensures |s| > 0 && forall i :: 0 <= i < |s| ==> IsDigit(s[i])
    ensures CanonicalDigits(s) && DigitsValue(s) == n
    decreases n
  {
    if n < 10 then [DigitChar(n)]
    else
      var t := NatText(n / 10);
      var s := t + [DigitChar(n % 10)];
      assert s[..|s| - 1] == t && s[0] == t[0];
      s
  }

  /** The value of a digit character. */
  function DigitValue(c: char): (d: nat)
    requires IsDigit(c)
    ensures d < 10 && DigitChar(d) == c
  {
    (c as int - '0' as int) as nat
  }

  predicate AllDigits(s: string) {
    forall i :: 0 <= i < |s| ==> IsDigit(s[i])
  }

  /** The number a string of decimal digits spells. */
  function DigitsValue(s: string): nat
    requires AllDigits(s)
  {
    if s == [] then 0 else DigitsValue(s[..|s| - 1]) * 10 + DigitValue(s[|s| - 1])
  }

  /** Decimal digits without a leading zero, or "0" alone: the form
      `String(n)` gives a natural number. */
  predicate CanonicalDigits(s: string) {
    |s| > 0 && AllDigits(s) && (s[0] != '0' || |s| == 1)
  }

  /** An array index (section 6.1.7 of ECMA-262): the canonical decimal
      text of an integer from 0 to 2^32 - 2. */
  predicate IsArrayIndex(k: string) {
    CanonicalDigits(k) && DigitsValue(k) < 0xFFFF_FFFF
  }

  /** Whether key a may precede key b among an object's own keys in the
      order of section 10.1.11.1 of ECMA-262 (OrdinaryOwnPropertyKeys):
      array indices first, in ascending numeric order, then the other keys
      in the order they were created. */
  predicate KeyBefore(a: string, b: string) {
    IsArrayIndex(b) ==> IsArrayIndex(a) && DigitsValue(a) < DigitsValue(b)
  }

  lemma KeyBeforeTransitive()
    ensures forall a, b, c :: KeyBefore(a, b) && KeyBefore(b, c) ==> KeyBefore(a, c)
  {
  }

  /** Canonical digits are the text of the number they spell. */
  lemma {:induction false} CanonicalDigitsText(s: string)
    requires CanonicalDigits(s)
    ensures NatText(DigitsValue(s)) == s
    decreases |s|
  {
    var n := |s|;
    var last := DigitValue(s[n - 1]);
    var p := s[..n - 1];
    assert DigitsValue(s) == DigitsValue(p) * 10 + last;
    if n == 1 {
      assert p == [];
      assert s == [s[0]];
    } else {
      assert p[0] == s[0];
      CanonicalDigitsText(p);
      LeadingDigitValue(p);
      var v := DigitsValue(s);
      assert v / 10 == DigitsValue(p) && v % 10 == last;
      assert s == p + [s[n - 1]];
    }
  }

  /** Digits that do not start with zero spell a positive number. */
  lemma {:induction false} LeadingDigitValue(s: string)
    requires |s| > 0 && AllDigits(s) && s[0] != '0'
    ensures DigitsValue(s) >= 1
    decreases |s|
  {
    var p := s[..|s| - 1];
    if |s| > 1 {
      assert p[0] == s[0];
      LeadingDigitValue(p);
    } else {
      assert DigitChar(DigitValue(s[0])) == s[0];
    }
  }

  /** Two array indices with the same value are the same key. */
  lemma ArrayIndexInjective(a: string, b: string)
    requires IsArrayIndex(a) && IsArrayIndex(b) && DigitsValue(a) == DigitsValue(b)
    ensures a == b
  {
    CanonicalDigitsText(a);
    CanonicalDigitsText(b);
  }

  /** `String(i)` for an integer (exponent notation above 1e21 is not modelled). */
  function IntText(i: int): (s: string)
    ensures |s| > 0 && (IsDigit(s[0]) || s[0] == '-')
  {
    if i < 0 then "-" + NatText(-i) else NatText(i)
  }

  function ZeroPad(s: string, width: nat): string {
    if |s| >= width then s else seq(width - |s|, _ => '0') + s
  }

  /** `String(n)` for a number in plain decimal notation. */
  function NumberText(n: JsNumber): string {
    var c := Normalize(n);
    if c.scale == 0 then IntText(c.digits)
    else
      var a: nat := if c.digits < 0 then -c.digits else c.digits;
      (if c.digits < 0 then "-" else "") + DecimalText(a, Pow10(c.scale), c.scale)
  }

  /** The digits of a / p, a point, then those of a % p padded to `width`. */
  function DecimalText(a: nat, p: nat, width: nat): string
    requires p >= 1
  {
    var q: nat := a / p;
    var m: nat := a % p;
    NatText(q) + "." + ZeroPad(NatText(m), width)
  }

  /** `s.startsWith(prefix)` */
  predicate StartsWith(s: string, prefix: string) {
    |prefix| <= |s| && s[..|prefix|] == prefix
  }

  /** True when sep occurs in s at position j. */
  predicate OccursAt(s: string, sep: string, j: int) {
    0 <= j && j + |sep| <= |s| && s[j..j + |sep|] == sep
  }

  /** `s.indexOf(sep)`: the first position at which sep occurs in s. */
  function IndexOf(s: string, sep: string): (r: Option<nat>)
    ensures r.Some? ==> OccursAt(s, sep, r.value)
    ensures r.Some? ==> forall j :: 0 <= j < r.value ==> !OccursAt(s, sep, j)
    ensures r.None? ==> forall j :: !OccursAt(s, sep, j)
    decreases |s|
  {
    if |s| < |sep| then None
    else if s[..|sep|] == sep then Some(0)
    else
      match IndexOf(s[1..], sep)
      case None =>
        OccursShift(s, sep);
        None
      case Some(i) =>
        OccursShift(s, sep);
        assert OccursAt(s, sep, i + 1) by { assert s[i + 1..i + 1 + |sep|] == s[1..][i..i + |sep|]; }
        Some(i + 1)
  }

  /** An occurrence after the first position is one in the tail. */
  lemma OccursShift(s: string, sep: string)
    requires |s| > 0
    ensures forall j :: 0 < j && OccursAt(s, sep, j) ==> OccursAt(s[1..], sep, j - 1)
  {
    forall j | 0 < j && OccursAt(s, sep, j)
      ensures OccursAt(s[1..], sep, j - 1)
    {
      assert s[1..][j - 1..j - 1 + |sep|] == s[j..j + |sep|];
    }
  }

  /** `s.split(sep)[1]`: the text between the first occurrence of sep and the
      next one (or the end); `undefined` when sep does not occur. */
  function SplitSecond(s: string, sep: string): (r: Option<string>)
    requires sep != []
    ensures r.None? <==> IndexOf(s, sep).None?
    ensures r.Some? ==> |r.value| + |sep| <= |s| && IndexOf(r.value, sep).None?
  {
    match IndexOf(s, sep)
    case None => None
    case Some(i) =>
      var rest := s[i + |sep|..];
      match IndexOf(rest, sep)
      case None => Some(rest)
      case Some(j) =>
        assert forall m :: OccursAt(rest[..j], sep, m) ==> OccursAt(rest, sep, m) && m < j by {
          forall m | OccursAt(rest[..j], sep, m) ensures OccursAt(rest, sep, m) && m < j {
            assert rest[..j][m..m + |sep|] == rest[m..m + |sep|];
          }
        }
        Some(rest[..j])
  }

  /** Splitting `sep + k` on sep gives back k whenever k does not contain sep. */
  lemma SplitAfterPrefix(sep: string, k: string)
    requires sep != [] && IndexOf(k, sep).None?
    ensures SplitSecond(sep + k, sep) == Some(k)
  {
    assert OccursAt(sep + k, sep, 0);
    assert (sep + k)[|sep|..] == k;
  }
}
