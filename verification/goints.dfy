/** Go's 64-bit integers and the decimal parser `strconv.Atoi`, as used by
    `getID` (crud.go) and by the pagination arithmetic. */
module GoInts {
  import opened Wrappers

  const MinInt64: int := -0x8000_0000_0000_0000
  const MaxInt64: int := 0x7FFF_FFFF_FFFF_FFFF
  const TwoTo64: int := 0x1_0000_0000_0000_0000

  /** Go's `int` on a 64-bit target. */
  type Int64 = x: int | MinInt64 <= x <= MaxInt64

  /** Go's `uint` on a 64-bit target. */
  type Uint64 = x: int | 0 <= x < TwoTo64

  /** The two's-complement value Go keeps when an `int` computation leaves the
      64-bit range: the unique Int64 congruent to `x` modulo 2^64. */
  function Wrap64(x: int): (r: Int64)
    ensures (r - x) % TwoTo64 == 0
    ensures MinInt64 <= x <= MaxInt64 ==> r == x
  {
    var m := x % TwoTo64;
    if m > MaxInt64 then m - TwoTo64 else m
  }

  /** The conversion `uint(i)`: the same 64 bits read as unsigned. */
  function ToUint64(i: Int64): (r: Uint64)
    ensures (r - i) % TwoTo64 == 0
    ensures 0 <= i ==> r == i
  {
    if i < 0 then i + TwoTo64 else i
  }

  predicate IsDigit(c: char) {
    '0' <= c <= '9'
  }

  predicate AllDigits(s: string) {
    forall i :: 0 <= i < |s| ==> IsDigit(s[i])
  }

  function DigitValue(c: char): (d: nat)
    requires IsDigit(c)
    ensures d < 10
  {
    (c as int) - ('0' as int)
  }

  function DigitChar(d: nat): (c: char)
    requires d < 10
    ensures IsDigit(c) && DigitValue(c) == d
  {
    (d + '0' as int) as char
  }

  /** The number a string of decimal digits denotes (most significant first). */
  function DigitsValue(s: string): nat
    requires AllDigits(s)
    decreases |s|
  {
    if s == [] then 0 else DigitsValue(s[..|s| - 1]) * 10 + DigitValue(s[|s| - 1])
  }

  /** The canonical decimal spelling of a natural number (`strconv.Itoa` for n >= 0). */
  function FormatNat(n: nat): (s: string)
    ensures |s| > 0 && AllDigits(s)
    decreases n
  {
    if n < 10 then [DigitChar(n)] else FormatNat(n / 10) + [DigitChar(n % 10)]
  }

  /** `strconv.Itoa`. */
  function FormatInt(n: int): (s: string)
  {
    if n < 0 then "-" + FormatNat(-n) else FormatNat(n)
  }

  /** The shape Atoi accepts: an optional sign followed by at least one ASCII digit. */
  predicate IsDecimal(s: string) {
    && |s| > 0
    && var digits := if s[0] == '-' || s[0] == '+' then s[1..] else s;
       |digits| > 0 && AllDigits(digits)
  }

  /** The mathematical value of a string of shape IsDecimal. */
  function DecimalValue(s: string): int
    requires IsDecimal(s)
  {
    if s[0] == '-' then 0 - DigitsValue(s[1..])
    else if s[0] == '+' then DigitsValue(s[1..])
    else DigitsValue(s)
  }

  /** `strconv.Atoi` on a 64-bit target: an optional '+' or '-', then decimal
      digits (leading zeros allowed, no spaces, no underscores), and a value
      that fits in an `int`; anything else is an error naming the input. */
  function Atoi(s: string): (r: Result<Int64, Error>)
    ensures r.Success? <==> IsDecimal(s) && MinInt64 <= DecimalValue(s) <= MaxInt64
    ensures r.Success? ==> r.value == DecimalValue(s)
    ensures r.Failure? ==> r.error == ParseError(s)
  {
    if |s| == 0 then Failure(ParseError(s))
    else
      var negative := s[0] == '-';
      var digits := if s[0] == '-' || s[0] == '+' then s[1..] else s;
      if |digits| == 0 || !AllDigits(digits) then Failure(ParseError(s))
      else
        var magnitude: int := DigitsValue(digits);
        var v := if negative then -magnitude else magnitude;
        if MinInt64 <= v <= MaxInt64 then Success(v) else Failure(ParseError(s))
  }

  lemma {:induction false} DigitsValuePrefix(s: string, c: char)
    requires AllDigits(s) && IsDigit(c)
    ensures AllDigits(s + [c])
    ensures DigitsValue(s + [c]) == DigitsValue(s) * 10 + DigitValue(c)
  {
  }

  /** Reading back the canonical spelling of a natural number gives the number. */
  lemma {:induction false} FormatNatRoundTrip(n: nat)
    ensures DigitsValue(FormatNat(n)) == n
    decreases n
  {
    if n < 10 {
      assert FormatNat(n) == [DigitChar(n)];
      assert FormatNat(n)[..0] == [];
    } else {
      FormatNatRoundTrip(n / 10);
      DigitsValuePrefix(FormatNat(n / 10), DigitChar(n % 10));
    }
  }

  /** Atoi inverts Itoa on every 64-bit integer. */
  lemma AtoiRoundTrip(n: Int64)
    ensures Atoi(FormatInt(n)) == Success(n)
  {
    if n < 0 {
      var m: nat := 0 - n;
      var s := FormatInt(n);
      assert s[1..] == FormatNat(m);
      FormatNatRoundTrip(m);
    } else {
      FormatNatRoundTrip(n);
    }
  }

  /** Inputs Atoi refuses: the empty string, a lone sign, a trailing
      non-digit and a leading blank. */
  lemma AtoiRejects()
    ensures Atoi("").Failure?
    ensures Atoi("-").Failure? && Atoi("+").Failure?
    ensures Atoi("12a").Failure?
    ensures Atoi(" 1").Failure?
  {
  }

  /** A well-formed decimal outside the 64-bit range is a parse error too. */
  lemma AtoiRejectsOutOfRange(n: int)
    requires n < MinInt64 || MaxInt64 < n
    ensures Atoi(FormatInt(n)) == Failure(ParseError(FormatInt(n)))
  {
    if n < 0 {
      var m: nat := 0 - n;
      assert FormatInt(n)[1..] == FormatNat(m);
      FormatNatRoundTrip(m);
    } else {
      FormatNatRoundTrip(n);
    }
  }

  /** Atoi accepts a leading '+' and leading zeros. */
  lemma AtoiAcceptsSignAndZeros()
    ensures Atoi("+7") == Success(7)
    ensures Atoi("007") == Success(7)
    ensures Atoi("-0") == Success(0)
  {
    assert "+7"[1..] == "7";
    assert "007"[..2] == "00" && "00"[..1] == "0" && "0"[..0] == [];
    assert "-0"[1..] == "0";
  }
}
