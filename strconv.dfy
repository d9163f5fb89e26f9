/** The decimal conversions the server handlers rely on: Go's
    `strconv.ParseInt(s, 10, 64)` (the shop id of a spreadsheet row),
    `strconv.ParseUint(s, 10, 32)` (the id in a delete request) and the `%d`
    rendering of a count in a reply message.  Only base 10 is modelled. */
module Strconv {
  import opened Options

  const MaxInt64: int := 0x7fff_ffff_ffff_ffff
  const MinInt64: int := -0x8000_0000_0000_0000
  const MaxUint32: int := 0xffff_ffff

  predicate IsDigit(c: char) {
    '0' <= c <= '9'
  }

  predicate AllDigits(s: string) {
    forall i :: 0 <= i < |s| ==> IsDigit(s[i])
  }

  /** Unsigned decimal text: one or more ASCII digits, nothing else. */
  predicate IsUnsignedDecimal(s: string) {
    |s| > 0 && AllDigits(s)
  }

  /** Signed decimal text: an optional '+' or '-' followed by one or more digits. */
  predicate IsSignedDecimal(s: string) {
    |s| > 0 &&
    if s[0] == '+' || s[0] == '-' then IsUnsignedDecimal(s[1..]) else IsUnsignedDecimal(s)
  }

  function DigitValue(c: char): (d: nat)
    requires IsDigit(c)
    ensures d < 10
  {
    c as int - '0' as int
  }

  function DigitChar(d: nat): (c: char)
    requires d < 10
    ensures IsDigit(c) && DigitValue(c) == d
  {
    ('0' as int + d) as char
  }

  /** The value of a string of digits, read most significant digit first. */
  function DigitsValue(s: string): nat
    requires AllDigits(s)
  {
    if s == [] then 0 else 10 * DigitsValue(s[..|s| - 1]) + DigitValue(s[|s| - 1])
  }

  /** `%d` of a non-negative integer: its shortest decimal text. */
  function Itoa(n: nat): (s: string)
    ensures IsUnsignedDecimal(s)
    ensures n < 10 <==> |s| == 1
    ensures |s| > 1 ==> s[0] != '0'
    decreases n
  {
    if n < 10 then [DigitChar(n)] else Itoa(n / 10) + [DigitChar(n % 10)]
  }

  /** `strconv.FormatInt(x, 10)`: a '-' sign for negative values, then the digits. */
  function FormatInt(x: int): (s: string)
    ensures IsSignedDecimal(s)
    ensures x < 0 <==> s[0] == '-'
    ensures s[0] != '+'
  {
    if x < 0 then "-" + Itoa(-x) else Itoa(x)
  }

  /** The value denoted by signed decimal text, before any range check. */
  function SignedValue(s: string): int
    requires IsSignedDecimal(s)
  {
    var magnitude: int := if s[0] == '-' || s[0] == '+' then DigitsValue(s[1..]) else DigitsValue(s);
    if s[0] == '-' then -magnitude else magnitude
  }

  /** `strconv.ParseInt(s, 10, 64)` as a pair (value, no error).  Text that is
      not signed decimal is a syntax error and yields 0; a value outside the
      64-bit range is a range error and yields the nearest bound. */
  function ParseInt64(s: string): (r: (int, bool))
    ensures MinInt64 <= r.0 <= MaxInt64
    ensures r.1 <==> IsSignedDecimal(s) && MinInt64 <= SignedValue(s) <= MaxInt64
    ensures r.1 ==> r.0 == SignedValue(s)
    ensures !IsSignedDecimal(s) ==> r.0 == 0
    ensures IsSignedDecimal(s) && SignedValue(s) > MaxInt64 ==> r.0 == MaxInt64
    ensures IsSignedDecimal(s) && SignedValue(s) < MinInt64 ==> r.0 == MinInt64
  {
    if !IsSignedDecimal(s) then (0, false)
    else
      var v := SignedValue(s);
      if v > MaxInt64 then (MaxInt64, false)
      else if v < MinInt64 then (MinInt64, false)
      else (v, true)
  }

  /** `strconv.ParseUint(s, 10, 32)` with its error folded into None: the text
      must be unsigned decimal (no sign) and its value must fit in 32 bits. */
  function ParseUint32(s: string): (r: Option<nat>)
    ensures r.Some? <==> IsUnsignedDecimal(s) && DigitsValue(s) <= MaxUint32
    ensures r.Some? ==> r.value == DigitsValue(s) && r.value <= MaxUint32
  {
    if IsUnsignedDecimal(s) && DigitsValue(s) <= MaxUint32 then Some(DigitsValue(s)) else None
  }

  lemma DigitsValueSnoc(s: string, c: char)
    requires AllDigits(s) && IsDigit(c)
    ensures AllDigits(s + [c])
    ensures DigitsValue(s + [c]) == 10 * DigitsValue(s) + DigitValue(c)
  {
  }

  /** Reading back the text that `%d` renders gives the number again. */
  lemma {:induction false} ItoaRoundTrip(n: nat)
    ensures DigitsValue(Itoa(n)) == n
    decreases n
  {
    if n < 10 {
      assert Itoa(n) == [] + [DigitChar(n)];
      DigitsValueSnoc([], DigitChar(n));
    } else {
      ItoaRoundTrip(n / 10);
      DigitsValueSnoc(Itoa(n / 10), DigitChar(n % 10));
    }
  }

  /** ParseInt64 inverts FormatInt on the whole 64-bit range. */
  lemma ParseFormatInt64(x: int)
    requires MinInt64 <= x <= MaxInt64
    ensures ParseInt64(FormatInt(x)) == (x, true)
  {
    if x < 0 {
      ItoaRoundTrip(-x);
      assert FormatInt(x)[1..] == Itoa(-x);
    } else {
      ItoaRoundTrip(x);
    }
  }

  /** ParseUint32 inverts Itoa on the 32-bit range and rejects everything above it. */
  lemma ParseUint32Itoa(n: nat)
    ensures ParseUint32(Itoa(n)) == if n <= MaxUint32 then Some(n) else None
  {
    ItoaRoundTrip(n);
  }
}
