/**
 * Amounts and ids as the payment flow writes them: a decimal price becomes
 * an integer number of minor currency units (kopecks) by the C# cast
 * `(long)(price * 100m)`, and an integer id becomes text by `int.ToString()`.
 */
module Money {
  import opened Domain

  const LongMin: int := -0x8000_0000_0000_0000
  const LongMax: int := 0x7FFF_FFFF_FFFF_FFFF

  /** The decimal-to-integer cast: the fraction is dropped, toward zero. */
  function Truncate(x: real): (r: int)
    ensures 0.0 <= x ==> r as real <= x < r as real + 1.0
    ensures x < 0.0 ==> r as real - 1.0 < x <= r as real
  {
    if x >= 0.0 then x.Floor else -((-x).Floor)
  }

  /** `(long)(price * 100m)`, before the range check of the cast. */
  function MinorUnits(price: real): int
  {
    Truncate(price * 100.0)
  }

  /** Whether the cast to `long` succeeds; outside this range it throws an OverflowException. */
  predicate FitsInLong(x: int) {
    LongMin <= x <= LongMax
  }

  /** A price with whole kopecks converts exactly. */
  lemma MinorUnitsExact(price: real, kopecks: int)
    requires price * 100.0 == kopecks as real
    ensures MinorUnits(price) == kopecks
  {
  }

  /** The conversion truncates: it never rounds a positive price up. */
  lemma MinorUnitsNeverRoundsUp(price: real)
    requires price >= 0.0
    ensures MinorUnits(price) as real <= price * 100.0 < MinorUnits(price) as real + 1.0
  {
  }

  /** 19.99 becomes 1999 kopecks, and 10.999 becomes 1099 where half-up rounding would give 1100. */
  lemma MinorUnitsExamples()
    ensures MinorUnits(19.99) == 1999
    ensures MinorUnits(10.999) == 1099
  {
    MinorUnitsExact(19.99, 1999);
    assert 10.999 * 100.0 == 1099.9;
  }

  /**
   * A price the service forms accept (one that rounds to 1..int.MaxValue, so
   * below int.MaxValue + 0.5) always fits in a long once converted to kopecks.
   */
  lemma DtoPriceFitsInLong(price: real)
    requires InInt32Range(price, 1, IntMax)
    ensures FitsInLong(MinorUnits(price))
  {
    PositiveRangeBounds(price);
  }

  // ------------------------------------------------------------ int.ToString

  function DigitChar(d: int): (c: char)
    requires 0 <= d < 10
    ensures '0' <= c <= '9'
  {
    "0123456789"[d]
  }

  predicate IsDigit(c: char) {
    '0' <= c <= '9'
  }

  function DigitValue(c: char): (d: int)
    requires IsDigit(c)
    ensures 0 <= d < 10
  {
    c as int - '0' as int
  }

  /** Decimal digits of a natural number, most significant first, no leading zeros. */
  function NatToString(n: nat): (s: string)
    ensures |s| > 0 && forall i :: 0 <= i < |s| ==> IsDigit(s[i])
    decreases n
  {
    if n < 10 then [DigitChar(n)] else NatToString(n / 10) + [DigitChar(n % 10)]
  }

  /** `int.ToString()` under the invariant culture. */
  function IntToString(n: int): string
  {
    if n < 0 then "-" + NatToString(-n) else NatToString(n)
  }

  function ParseDigits(s: string): nat
    requires forall i :: 0 <= i < |s| ==> IsDigit(s[i])
  {
    if s == [] then 0 else 10 * ParseDigits(s[..|s| - 1]) + DigitValue(s[|s| - 1])
  }

  /** Reads back what `IntToString` writes: an optional minus sign and decimal digits. */
  function ParseInt(s: string): Option<int>
  {
    if |s| > 0 && s[0] == '-' then
      if |s| > 1 && forall i :: 1 <= i < |s| ==> IsDigit(s[i]) then Some(0 - ParseDigits(s[1..])) else None
    else if |s| > 0 && forall i :: 0 <= i < |s| ==> IsDigit(s[i]) then Some(ParseDigits(s))
    else None
  }

  lemma {:induction false} ParseNatToString(n: nat)
    ensures ParseDigits(NatToString(n)) == n
    decreases n
  {
    if n >= 10 {
      var s := NatToString(n);
      assert s[..|s| - 1] == NatToString(n / 10);
      ParseNatToString(n / 10);
    }
  }

  /** The text of an id reads back as that id, so the id is recoverable from it. */
  lemma IntToStringRoundTrip(n: int)
    ensures ParseInt(IntToString(n)) == Some(n)
  {
    var s := IntToString(n);
    if n < 0 {
      var d := NatToString(-n);
      assert s == "-" + d;
      assert s[1..] == d;
      assert forall i :: 1 <= i < |s| ==> IsDigit(s[i]) by {
        forall i | 1 <= i < |s| ensures IsDigit(s[i]) { assert s[i] == d[i - 1]; }
      }
      ParseNatToString(-n);
    } else {
      assert s == NatToString(n);
      assert s[0] != '-';
      ParseNatToString(n);
    }
  }

  /** Different ids never share a text. */
  lemma IntToStringInjective(m: int, n: int)
    requires IntToString(m) == IntToString(n)
    ensures m == n
  {
    IntToStringRoundTrip(m);
    IntToStringRoundTrip(n);
  }
}
