/** The JVM integer semantics the core depends on: 32-bit `Int` wrap-around,
    `Int.toString()`, `Integer.parseInt`, `Long.parseLong`, the truncation of
    `BigDecimal.toBigInteger()`, and `(t / 2.0).toInt()` for an `Int` t.
    Digits are the ASCII digits '0'..'9'. */
module JavaNumbers {
  import opened Wrappers

  const IntMin: int := -0x8000_0000
  const IntMax: int := 0x7FFF_FFFF
  const LongMin: int := -0x8000_0000_0000_0000
  const LongMax: int := 0x7FFF_FFFF_FFFF_FFFF

  predicate IsInt32(x: int) { IntMin <= x <= IntMax }

  predicate IsInt64(x: int) { LongMin <= x <= LongMax }

  /** The low 32 bits of x read as a two's-complement `Int`: what a JVM
      `imul`, an `(int)` cast of a `long` and `BigInteger.intValue()` produce. */
  function Wrap32(x: int): (r: int)
    ensures IsInt32(r)
    ensures (r - x) % 0x1_0000_0000 == 0
    ensures IsInt32(x) ==> r == x
  {
    (x - IntMin) % 0x1_0000_0000 + IntMin
  }

  /** `(t / 2.0).toInt()` for an `Int` t: the halving is exact in a `Double`
      and `toInt()` truncates toward zero. */
  function HalfTowardZero(t: int): (r: int)
    ensures 0 <= t ==> 2 * r <= t < 2 * r + 2
    ensures t < 0 ==> 2 * r - 2 < t <= 2 * r
  {
    if t >= 0 then t / 2 else -((-t) / 2)
  }

  predicate IsDigit(c: char) { '0' <= c <= '9' }

  predicate AllDigits(s: string) { forall i :: 0 <= i < |s| ==> IsDigit(s[i]) }

  function DigitValue(c: char): (d: nat)
    requires IsDigit(c)
    ensures d < 10
  {
    (c as int) - ('0' as int)
  }

  function DigitChar(d: nat): (c: char)
    requires d < 10
    ensures IsDigit(c) && DigitValue(c) == d
  {
    (('0' as int) + d) as char
  }

  /** The value of a string of decimal digits, most significant first. */
  function DigitsValue(s: string): nat
    requires AllDigits(s)
    decreases |s|
  {
    if s == [] then 0 else 10 * DigitsValue(s[..|s| - 1]) + DigitValue(s[|s| - 1])
  }

  /** Decimal text of a natural number, without leading zeros. */
  function NatToString(n: nat): (s: string)
    ensures |s| > 0 && AllDigits(s)
    ensures |s| > 1 ==> s[0] != '0'
    ensures DigitsValue(s) == n
    decreases n
  {
    if n < 10 then [DigitChar(n)]
    else
      var s := NatToString(n / 10) + [DigitChar(n % 10)];
      assert s[..|s| - 1] == NatToString(n / 10);
      s
  }

  /** Kotlin's `Int.toString()`, the text a string template "$n" inserts. */
  function IntToString(n: int): (s: string)
    ensures |s| > 0
    ensures n >= 0 ==> s == NatToString(n)
    ensures n < 0 ==> s == "-" + NatToString(-n)
  {
    if n >= 0 then NatToString(n) else "-" + NatToString(-n)
  }

  /** `Integer.parseInt(s)` (lo, hi = the `Int` range) and `Long.parseLong(s)`
      (lo, hi = the `Long` range): an optional sign, at least one digit, and
      a value inside [lo, hi]; anything else throws `NumberFormatException`,
      modelled as None. */
  function ParseInteger(s: string, lo: int, hi: int): (r: Option<int>)
    ensures r.Some? ==> lo <= r.value <= hi
    ensures r.Some? ==> |s| > 0
  {
    if |s| == 0 then None
    else
      var negative := s[0] == '-';
      var digits := if s[0] == '-' || s[0] == '+' then s[1..] else s;
      if |digits| == 0 || !AllDigits(digits) then None
      else
        var v: int := if negative then 0 - DigitsValue(digits) else DigitsValue(digits);
        if lo <= v <= hi then Some(v) else None
  }

  function ParseInt(s: string): (r: Option<int>)
    ensures r.Some? ==> IsInt32(r.value)
  {
    ParseInteger(s, IntMin, IntMax)
  }

  function ParseLong(s: string): (r: Option<int>)
    ensures r.Some? ==> IsInt64(r.value)
  {
    ParseInteger(s, LongMin, LongMax)
  }

  /** `Integer.parseInt` reads back every `Int` that `Int.toString()` writes. */
  lemma ParseIntOfIntToString(n: int)
    requires IsInt32(n)
    ensures ParseInt(IntToString(n)) == Some(n)
  {
    var s := IntToString(n);
    if n < 0 {
      assert s[1..] == NatToString(-n);
    }
  }

  function Pow10(k: nat): (p: nat)
    ensures p >= 1
  {
    if k == 0 then 1 else 10 * Pow10(k - 1)
  }

  /** Index of the first occurrence of a character of `cs` in s, or |s|. */
  function IndexOfAny(s: string, cs: set<char>): (i: nat)
    ensures i <= |s|
    ensures forall k :: 0 <= k < i ==> s[k] !in cs
    ensures i < |s| ==> s[i] in cs
    decreases |s|
  {
    if s == [] then 0
    else if s[0] in cs then 0
    else 1 + IndexOfAny(s[1..], cs)
  }

  /** `new BigDecimal(s).toBigInteger()`: the text is an optional sign, digits
      with at most one '.', at least one digit, then optionally 'e' or 'E', an
      optional sign and at least one digit; the value is truncated toward zero.
      Text outside that grammar throws `NumberFormatException` (None). */
  function BigDecimalToBigInteger(s: string): Option<int>
  {
    var negative := |s| > 0 && s[0] == '-';
    var body := if |s| > 0 && (s[0] == '-' || s[0] == '+') then s[1..] else s;
    var e := IndexOfAny(body, {'e', 'E'});
    var mantissa := body[..e];
    var dot := IndexOfAny(mantissa, {'.'});
    var intPart := mantissa[..dot];
    var fracPart := if dot < |mantissa| then mantissa[dot + 1..] else "";
    var exponent := if e < |body| then ParseInteger(body[e + 1..], IntMin, IntMax) else Some(0);
    if !AllDigits(intPart) || !AllDigits(fracPart) || |intPart| + |fracPart| == 0 then None
    else if exponent.None? then None
    else
      var unscaled := DigitsValue(intPart + fracPart);
      var shift := exponent.value - |fracPart|;
      var magnitude := if shift >= 0 then unscaled * Pow10(shift) else unscaled / Pow10(-shift);
      Some(if negative then 0 - magnitude else magnitude)
  }
}
