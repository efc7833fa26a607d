/**
 * The two PHP string built-ins that CGIStream's finalization relies on:
 * `strpos` without an offset, and the `(int)` conversion of a string.
 * PHP strings are byte strings; here each `char` stands for one byte.
 */
module PhpString {
  import opened Wrappers

  /** `needle` occurs in `haystack` starting at index `i`. */
  predicate OccursAt(haystack: string, needle: string, i: nat)
  {
    i + |needle| <= |haystack| && haystack[i..i + |needle|] == needle
  }

  ghost predicate Contains(haystack: string, needle: string)
  {
    exists i: nat :: OccursAt(haystack, needle, i)
  }

  /** strpos($haystack, $needle): the first index where `needle` occurs, `None` for PHP's `false`. */
  function StrPos(haystack: string, needle: string): (r: Option<nat>)
    ensures r.Some? ==> OccursAt(haystack, needle, r.value)
    ensures r.Some? ==> forall j: nat :: j < r.value ==> !OccursAt(haystack, needle, j)
    ensures r.None? <==> !Contains(haystack, needle)
  {
    StrPosFrom(haystack, needle, 0)
  }

  /** The first occurrence of `needle` at or after index `from`. */
  function StrPosFrom(haystack: string, needle: string, from: nat): (r: Option<nat>)
    decreases |haystack| - from
    ensures r.Some? ==> from <= r.value && OccursAt(haystack, needle, r.value)
    ensures r.Some? ==> forall j: nat :: from <= j < r.value ==> !OccursAt(haystack, needle, j)
    ensures r.None? ==> forall j: nat :: from <= j ==> !OccursAt(haystack, needle, j)
  {
    if from + |needle| > |haystack| then None
    else if haystack[from..from + |needle|] == needle then Some(from)
    else StrPosFrom(haystack, needle, from + 1)
  }

  // ---------------------------------------------------------------------
  // (int) $string on a 64-bit build
  // ---------------------------------------------------------------------

  const MaxInt: int := 0x7FFF_FFFF_FFFF_FFFF
  const MinInt: int := -0x8000_0000_0000_0000

  predicate IsDigit(c: char)
  {
    '0' <= c <= '9'
  }

  /** The white space PHP skips before a numeric string: space, \t, \n, \r, \v, \f. */
  predicate IsNumericSpace(c: char)
  {
    c == ' ' || c == '\t' || c == '\n' || c == '\r' || c as int == 0x0B || c as int == 0x0C
  }

  predicate AllDigits(s: string)
  {
    forall k :: 0 <= k < |s| ==> IsDigit(s[k])
  }

  predicate AllNumericSpace(s: string)
  {
    forall k :: 0 <= k < |s| ==> IsNumericSpace(s[k])
  }

  /** `s` without its leading white space. */
  function SkipSpace(s: string): (r: string)
    ensures |r| <= |s| && r == s[|s| - |r|..]
    ensures AllNumericSpace(s[..|s| - |r|])
    ensures r == [] || !IsNumericSpace(r[0])
  {
    if s != [] && IsNumericSpace(s[0]) then SkipSpace(s[1..]) else s
  }

  /** The length of the run of decimal digits at the start of `s`. */
  function LeadingDigits(s: string): (k: nat)
    ensures k <= |s| && AllDigits(s[..k])
    ensures k < |s| ==> !IsDigit(s[k])
  {
    if s != [] && IsDigit(s[0]) then 1 + LeadingDigits(s[1..]) else 0
  }

  function DigitValue(c: char): nat
    requires IsDigit(c)
  {
    c as int - '0' as int
  }

  /** The value of a string of decimal digits, most significant first. */
  function DigitsValue(ds: string): nat
    requires AllDigits(ds)
  {
    if ds == [] then 0 else DigitsValue(ds[..|ds| - 1]) * 10 + DigitValue(ds[|ds| - 1])
  }

  function Clamp(v: int): (r: int)
    ensures MinInt <= r <= MaxInt
    ensures MinInt <= v <= MaxInt ==> r == v
  {
    if v > MaxInt then MaxInt else if v < MinInt then MinInt else v
  }

  /**
   * (int) $s: leading white space is skipped, an optional sign is read, then
   * the longest run of digits; a string without digits there is 0, and a value
   * beyond the 64-bit range saturates at PHP_INT_MAX / PHP_INT_MIN.
   */
  function IntCast(s: string): (r: int)
    ensures MinInt <= r <= MaxInt
  {
    SignedValue(SkipSpace(s))
  }

  /** The value of an optional sign and the digits that follow it at the start of `t`. */
  function SignedValue(t: string): (r: int)
    ensures MinInt <= r <= MaxInt
  {
    var negative := t != [] && t[0] == '-';
    var u := if t != [] && (t[0] == '-' || t[0] == '+') then t[1..] else t;
    var magnitude: int := DigitsValue(u[..LeadingDigits(u)]);
    Clamp(if negative then -magnitude else magnitude)
  }

  // ---------------------------------------------------------------------
  // Decimal notation, the partner of IntCast
  // ---------------------------------------------------------------------

  function DigitChar(d: nat): (c: char)
    requires d < 10
    ensures IsDigit(c) && DigitValue(c) == d
  {
    ('0' as int + d) as char
  }

  /** The decimal digits of `n`, without leading zeros. */
  function Digits(n: nat): (s: string)
  {
    if n < 10 then [DigitChar(n)] else Digits(n / 10) + [DigitChar(n % 10)]
  }

  /** The decimal notation of `n`, as PHP's string conversion writes it. */
  function Decimal(n: int): string
  {
    if n < 0 then ['-'] + Digits(-n) else Digits(n)
  }

  lemma {:induction false} DigitsAreDigits(n: nat)
    ensures |Digits(n)| > 0 && AllDigits(Digits(n))
  {
    if n >= 10 {
      DigitsAreDigits(n / 10);
    }
  }

  lemma {:induction false} DigitsValueOfDigits(n: nat)
    ensures AllDigits(Digits(n)) && DigitsValue(Digits(n)) == n
  {
    DigitsAreDigits(n);
    if n >= 10 {
      var ds := Digits(n);
      assert ds[..|ds| - 1] == Digits(n / 10);
      DigitsValueOfDigits(n / 10);
    }
  }

  lemma {:induction false} LeadingDigitsOfConcat(ds: string, rest: string)
    requires AllDigits(ds)
    requires rest == [] || !IsDigit(rest[0])
    ensures LeadingDigits(ds + rest) == |ds|
  {
    if ds != [] {
      assert (ds + rest)[1..] == ds[1..] + rest;
      LeadingDigitsOfConcat(ds[1..], rest);
    }
  }

  /**
   * (int) reads back the decimal notation of every 64-bit integer, whatever
   * follows it, as long as that is neither a digit, a decimal point nor an
   * exponent marker.
   */
  lemma {:induction false} IntCastOfDecimal(n: int, rest: string)
    requires MinInt <= n <= MaxInt
    requires rest == [] || (!IsDigit(rest[0]) && rest[0] != '.' && rest[0] != 'e' && rest[0] != 'E')
    ensures IntCast(Decimal(n) + rest) == n
  {
    if n < 0 {
      NegativeValue(n, rest);
    } else {
      PositiveValue(n, rest);
    }
  }

  lemma {:induction false} PositiveValue(n: nat, rest: string)
    requires n <= MaxInt
    requires rest == [] || !IsDigit(rest[0])
    ensures IntCast(Decimal(n) + rest) == n
  {
    var u := Digits(n) + rest;
    assert Decimal(n) + rest == u;
    MagnitudeOfDigits(n, rest);
    assert SkipSpace(u) == u;
  }

  lemma {:induction false} NegativeValue(n: int, rest: string)
    requires MinInt <= n < 0
    requires rest == [] || !IsDigit(rest[0])
    ensures IntCast(Decimal(n) + rest) == n
  {
    var u := Digits(-n) + rest;
    var s := ['-'] + u;
    assert Decimal(n) + rest == s;
    assert s[1..] == u;
    MagnitudeOfDigits(-n, rest);
    assert SkipSpace(s) == s;
  }

  /** The digit run at the start of `Digits(m) + rest` is exactly `Digits(m)`, worth `m`. */
  lemma {:induction false} MagnitudeOfDigits(m: nat, rest: string)
    requires rest == [] || !IsDigit(rest[0])
    ensures var u := Digits(m) + rest; u[..LeadingDigits(u)] == Digits(m)
    ensures DigitsValue(Digits(m)) == m
    ensures IsDigit((Digits(m) + rest)[0])
  {
    DigitsAreDigits(m);
    DigitsValueOfDigits(m);
    LeadingDigitsOfConcat(Digits(m), rest);
  }

  /** Leading white space does not change what (int) reads. */
  lemma {:induction false} IntCastSkipsSpace(ws: string, s: string)
    requires AllNumericSpace(ws)
    ensures IntCast(ws + s) == IntCast(s)
  {
    SkipSpaceOfConcat(ws, s);
  }

  lemma {:induction false} SkipSpaceOfConcat(ws: string, s: string)
    requires AllNumericSpace(ws)
    ensures SkipSpace(ws + s) == SkipSpace(s)
  {
    if ws == [] {
      assert ws + s == s;
    } else {
      assert (ws + s)[1..] == ws[1..] + s;
      SkipSpaceOfConcat(ws[1..], s);
    }
  }
}
