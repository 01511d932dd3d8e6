/**
 * Integers as text: reading an attribute or a text value as a 32-bit `int`
 * (`as_int()`), and writing an `int` in decimal (`std::cout << n`).
 */
module IntText {

  const IntMin: int := -0x8000_0000
  const IntMax: int := 0x7FFF_FFFF

  predicate IsDigit(c: char)
  {
    '0' <= c <= '9'
  }

  predicate AllDigits(s: string)
  {
    forall i :: 0 <= i < |s| ==> IsDigit(s[i])
  }

  function DigitValue(c: char): nat
    requires IsDigit(c)
  {
    c as int - '0' as int
  }

  function Digit(d: nat): (c: char)
    requires d < 10
    ensures IsDigit(c) && DigitValue(c) == d
  {
    ('0' as int + d) as char
  }

  /** Length of the longest prefix of `s` made only of decimal digits. */
  function DigitRun(s: string): (n: nat)
    ensures n <= |s|
    ensures AllDigits(s[..n])
    ensures n < |s| ==> !IsDigit(s[n])
  {
    if s == [] || !IsDigit(s[0]) then 0
    else
      var n := 1 + DigitRun(s[1..]);
      assert s[..n] == [s[0]] + s[1..][..n - 1];
      n
  }

  /** The value of a string of decimal digits, read most significant first. */
  function DecimalValue(ds: string): nat
    requires AllDigits(ds)
  {
    if ds == [] then 0
    else 10 * DecimalValue(ds[..|ds| - 1]) + DigitValue(ds[|ds| - 1])
  }

  /** Saturation to the 32-bit range, as a too-long number is read. */
  function Clamp(x: int): (r: int)
    ensures IntMin <= r <= IntMax
    ensures IntMin <= x <= IntMax ==> r == x
    ensures x < IntMin ==> r == IntMin
    ensures x > IntMax ==> r == IntMax
  {
    if x < IntMin then IntMin else if x > IntMax then IntMax else x
  }

  /**
   * `as_int()`: an optional sign, then the longest run of decimal digits;
   * anything after the run is ignored and no digits at all read as 0.
   */
  function AsInt(s: string): (r: int)
    ensures IntMin <= r <= IntMax
    ensures |s| > 0 && s[0] == '-' ==> r <= 0
    ensures (|s| == 0 || (s[0] != '-' && !IsDigit(s[0]) && s[0] != '+')) ==> r == 0
  {
    var negative := |s| > 0 && s[0] == '-';
    var start := if |s| > 0 && (s[0] == '-' || s[0] == '+') then 1 else 0;
    var rest := s[start..];
    var magnitude: int := DecimalValue(rest[..DigitRun(rest)]);
    Clamp(if negative then -magnitude else magnitude)
  }

  /** Decimal digits of `n`, without leading zeros. */
  function NatToString(n: nat): (s: string)
    ensures |s| > 0 && AllDigits(s)
    ensures |s| > 1 ==> s[0] != '0'
  {
    if n < 10 then [Digit(n)] else NatToString(n / 10) + [Digit(n % 10)]
  }

  /** `std::cout << x` for an `int`: a minus sign for negative values, then the digits. */
  function IntToString(x: int): (s: string)
    ensures |s| > 0
    ensures s[0] == '-' <==> x < 0
  {
    if x < 0 then "-" + NatToString(-x) else NatToString(x)
  }

  lemma {:induction false} DecimalValueOfNatToString(n: nat)
    ensures DecimalValue(NatToString(n)) == n
  {
    if n >= 10 {
      var s := NatToString(n);
      assert s[..|s| - 1] == NatToString(n / 10);
      DecimalValueOfNatToString(n / 10);
    }
  }

  /**
   * What `std::cout << x` prints after the optional minus sign: the decimal
   * digits of `|x|`, with no leading zero.
   */
  lemma IntToStringDigits(x: int)
    ensures var digits := if x < 0 then IntToString(x)[1..] else IntToString(x);
            && AllDigits(digits)
            && (|digits| > 1 ==> digits[0] != '0')
            && DecimalValue(digits) == if x < 0 then -x else x
  {
    var n := if x < 0 then -x else x;
    var digits := if x < 0 then IntToString(x)[1..] else IntToString(x);
    assert digits == NatToString(n);
    DecimalValueOfNatToString(n);
  }

  /** Reading back a printed value gives the value itself, for every 32-bit `int`. */
  lemma AsIntOfIntToString(x: int)
    requires IntMin <= x <= IntMax
    ensures AsInt(IntToString(x)) == x
  {
    var s := IntToString(x);
    var digits := if x < 0 then NatToString(-x) else NatToString(x);
    var rest := if x < 0 then s[1..] else s;
    assert rest == digits;
    assert DigitRun(rest) == |digits|;
    assert rest[..DigitRun(rest)] == digits;
    DecimalValueOfNatToString(if x < 0 then -x else x);
  }
}
