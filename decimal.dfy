/**
 * Decimal text for integers, as Go's strconv.Itoa and strconv.Atoi produce and
 * accept it: an optional sign followed by one or more ASCII digits, the value
 * being limited to the range of Go's 64-bit `int`.
 */
module Decimal {
  import opened Wrappers

  const MinInt: int := -0x8000_0000_0000_0000
  const MaxInt: int := 0x7FFF_FFFF_FFFF_FFFF

  predicate IsDigit(c: char) {
    '0' <= c <= '9'
  }

  predicate AllDigits(s: string) {
    forall i :: 0 <= i < |s| ==> IsDigit(s[i])
  }

  function DigitChar(d: nat): (c: char)
    requires d < 10
    ensures IsDigit(c)
  {
    ('0' as int + d) as char
  }

  function DigitValue(c: char): (d: nat)
    requires IsDigit(c)
    ensures d < 10 && DigitChar(d) == c
  {
    c as int - '0' as int
  }

  /** The decimal digits of `n`, most significant first, without leading zeros. */
  function Digits(n: nat): (s: string)
    ensures |s| >= 1 && AllDigits(s)
    ensures n >= 10 ==> s[0] != '0'
    decreases n
  {
    if n < 10 then [DigitChar(n)] else Digits(n / 10) + [DigitChar(n % 10)]
  }

  /** The number a string of digits denotes. */
  function ValueOf(s: string): nat
    requires AllDigits(s)
    decreases |s|
  {
    if s == [] then 0 else 10 * ValueOf(s[..|s| - 1]) + DigitValue(s[|s| - 1])
  }

  /** strconv.Itoa: a minus sign for negative numbers, then the digits of the magnitude. */
  function Itoa(n: int): (s: string)
    ensures |s| >= 1
    ensures n >= 0 <==> IsDigit(s[0])
    ensures n > 0 ==> AllDigits(s) && s[0] != '0'
  {
    if n < 0 then "-" + Digits(-n) else Digits(n)
  }

  /** The text strconv.Atoi accepts before its range check: an optional sign, then at least one digit. */
  predicate Numeral(s: string) {
    if |s| > 0 && (s[0] == '+' || s[0] == '-') then |s| >= 2 && AllDigits(s[1..])
    else |s| >= 1 && AllDigits(s)
  }

  /** The value of a numeral, sign included. */
  function NumeralValue(s: string): int
    requires Numeral(s)
  {
    if s[0] == '-' then -(ValueOf(s[1..]) as int)
    else if s[0] == '+' then ValueOf(s[1..])
    else ValueOf(s)
  }

  /**
   * strconv.Atoi: the numeral's value, or no value (Go's error) when the text
   * is not a numeral or its value does not fit in a 64-bit `int`.
   */
  function Atoi(s: string): (r: Option<int>)
    ensures r.Some? <==> Numeral(s) && MinInt <= NumeralValue(s) <= MaxInt
    ensures r.Some? ==> r.value == NumeralValue(s)
  {
    if !Numeral(s) then None
    else
      var v := NumeralValue(s);
      if MinInt <= v <= MaxInt then Some(v) else None
  }

  lemma {:induction false} ValueOfDigits(n: nat)
    ensures ValueOf(Digits(n)) == n
    decreases n
  {
    if n >= 10 {
      var s := Digits(n);
      ValueOfDigits(n / 10);
      assert s[..|s| - 1] == Digits(n / 10);
    }
  }

  /** Decimal text round-trips: Atoi reads back exactly what Itoa wrote, for every 64-bit int. */
  lemma AtoiItoa(n: int)
    requires MinInt <= n <= MaxInt
    ensures Atoi(Itoa(n)) == Some(n)
  {
    var s := Itoa(n);
    if n < 0 {
      assert s[1..] == Digits(-n);
      ValueOfDigits(-n);
    } else {
      ValueOfDigits(n);
    }
  }
}
