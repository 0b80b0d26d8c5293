/**
 * Decimal text for Go's `int`: the `%d` verb of `fmt` (and `strconv.Itoa`,
 * which prints the same digits) and `strconv.Atoi`, which parses them back.
 */
module Decimal {
  import opened Wrappers

  const MaxUint64: int := 0xFFFF_FFFF_FFFF_FFFF
  const MaxInt64: int := 0x7FFF_FFFF_FFFF_FFFF
  const MinInt64: int := -0x8000_0000_0000_0000

  /** Go's `int` on a 64-bit platform. */
  type Int64 = x: int | MinInt64 <= x <= MaxInt64

  predicate IsDigit(c: char) {
    '0' <= c <= '9'
  }

  predicate AllDigits(s: string) {
    forall i :: 0 <= i < |s| ==> IsDigit(s[i])
  }

  function DigitValue(c: char): (d: nat)
    requires IsDigit(c)
    ensures d < 10
  {
    c as int - '0' as int
  }

  function DigitChar(d: nat): (c: char)
    requires d < 10
    ensures IsDigit(c) && DigitValue(c) == d
  {
    ('0' as int + d) as char
  }

  /** The number a run of decimal digits denotes, most significant digit first. */
  function Value(s: string): nat
    requires AllDigits(s)
  {
    if s == [] then 0 else Value(s[..|s| - 1]) * 10 + DigitValue(s[|s| - 1])
  }

  /** The decimal digits of `n`, with no leading zero. */
  function Digits(n: nat): (s: string)
    ensures |s| >= 1 && AllDigits(s) && Value(s) == n
    ensures |s| > 1 ==> s[0] != '0'
  {
    if n < 10 then [DigitChar(n)]
    else
      var s := Digits(n / 10) + [DigitChar(n % 10)];
      assert s[..|s| - 1] == Digits(n / 10);
      s
  }

  /** `fmt.Sprintf("%d", x)` and `strconv.Itoa(x)`: a minus sign for negatives, then the digits. */
  function Format(x: int): (s: string)
    ensures |s| >= 1 && (s[0] == '-' <==> x < 0)
  {
    if x < 0 then "-" + Digits(-x)
    else
      assert IsDigit(Digits(x)[0]);
      Digits(x)
  }

  datatype NumErrorKind = ErrSyntax | ErrRange

  /** `strconv.NumError` as `Atoi` builds it: the whole input and why it was refused. */
  datatype NumError = NumError(num: string, err: NumErrorKind)

  /** Length of the run of digits at the start of `s`. */
  function DigitRun(s: string): (k: nat)
    ensures k <= |s| && AllDigits(s[..k])
    ensures k < |s| ==> !IsDigit(s[k])
  {
    if s == [] || !IsDigit(s[0]) then 0
    else
      var k := 1 + DigitRun(s[1..]);
      assert s[..k] == [s[0]] + s[1..][..k - 1];
      k
  }

  /** `s` without one leading sign character. */
  function Unsigned(s: string): string {
    if |s| > 0 && (s[0] == '-' || s[0] == '+') then s[1..] else s
  }

  /**
   * `strconv.Atoi(s)`. An optional sign, then base-10 digits only (no
   * underscores, no spaces). Go accumulates the digits into a uint64 and
   * reports ErrRange as soon as that overflows, before it looks at any later
   * character; otherwise a non-digit is ErrSyntax; a magnitude that fits
   * uint64 but not int is ErrRange.
   */
  function Atoi(s: string): (r: Result<Int64, NumError>)
    ensures r.Failure? ==> r.error.num == s
    ensures r.Success? ==> s != [] && IsDigit(s[|s| - 1])
  {
    var body := Unsigned(s);
    if body == [] then Failure(NumError(s, ErrSyntax))
    else
      var k := DigitRun(body);
      if Value(body[..k]) > MaxUint64 then Failure(NumError(s, ErrRange))
      else if k < |body| then Failure(NumError(s, ErrSyntax))
      else
        var u: int := Value(body[..k]);
        if s[0] == '-' then
          if u <= -MinInt64 then Success(-u) else Failure(NumError(s, ErrRange))
        else
          if u <= MaxInt64 then Success(u) else Failure(NumError(s, ErrRange))
  }

  /** The texts `Atoi` accepts: an optional sign and at least one digit. */
  predicate IsDecimal(s: string) {
    Unsigned(s) != [] && AllDigits(Unsigned(s))
  }

  /** The integer a decimal text denotes. */
  function SignedValue(s: string): int
    requires IsDecimal(s)
  {
    if s[0] == '-' then -(Value(Unsigned(s)) as int) else Value(Unsigned(s))
  }

  lemma {:induction false} DigitRunOfDigits(s: string)
    requires AllDigits(s)
    ensures DigitRun(s) == |s|
  {
    if s != [] {
      DigitRunOfDigits(s[1..]);
    }
  }

  /**
   * Atoi succeeds exactly on a sign-and-digits text whose value fits Go's
   * int, and then returns that value; every error names the whole input.
   */
  lemma AtoiAccepts(s: string)
    ensures Atoi(s).Success? <==> IsDecimal(s) && MinInt64 <= SignedValue(s) <= MaxInt64
    ensures Atoi(s).Success? ==> Atoi(s).value == SignedValue(s)
    ensures Atoi(s).Failure? ==> Atoi(s).error.num == s
  {
    var body := Unsigned(s);
    if body != [] {
      var k := DigitRun(body);
      if AllDigits(body) {
        DigitRunOfDigits(body);
        assert body[..k] == body;
      }
    }
  }

  /** The empty text is not a number: a blank line is refused. */
  lemma AtoiEmpty()
    ensures Atoi("") == Failure(NumError("", ErrSyntax))
  {
  }

  /** Parsing what `%d` prints gives the number back, for every Go int. */
  lemma AtoiFormat(x: Int64)
    ensures Atoi(Format(x)) == Success(x)
  {
    var s := Format(x);
    var d := if x < 0 then Digits(-(x as int)) else Digits(x);
    assert Unsigned(s) == d by {
      if x < 0 {
        assert s == "-" + d;
      } else {
        assert IsDigit(d[0]);
      }
    }
    DigitRunOfDigits(d);
    assert d[..|d|] == d;
  }

  /** What `%d` prints is never empty and never holds a newline or a carriage return. */
  lemma FormatIsOneLine(x: int)
    ensures |Format(x)| >= 1
    ensures forall i :: 0 <= i < |Format(x)| ==> Format(x)[i] != '\n' && Format(x)[i] != '\r'
    ensures IsDigit(Format(x)[|Format(x)| - 1])
  {
    var d := if x < 0 then Digits(-x) else Digits(x);
    assert x < 0 ==> Format(x) == "-" + d;
  }
}
