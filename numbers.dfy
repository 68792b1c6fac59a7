/**
 * Decimal text of 64-bit integers: Long.valueOf, which derives the output id,
 * and Long.toString, which writes the totals of the report.
 */
module Numbers {
  import opened Wrappers

  const LongMin: int := -0x8000_0000_0000_0000
  const LongMax: int := 0x7fff_ffff_ffff_ffff

  predicate IsDigit(c: char)
  {
    '0' <= c <= '9'
  }

  predicate AllDigits(s: string)
  {
    forall i :: 0 <= i < |s| ==> IsDigit(s[i])
  }

  /** The value of a string of decimal digits, most significant first. */
  function DigitsValue(s: string): nat
    requires AllDigits(s)
  {
    if s == [] then 0
    else DigitsValue(s[..|s| - 1]) * 10 + (s[|s| - 1] as int - '0' as int)
  }

  /** Long.toString of a non-negative value: its shortest decimal text. */
  function DecimalText(n: nat): (s: string)
    ensures s != [] && AllDigits(s)
    ensures s[0] == '0' ==> n == 0
  {
    if n < 10 then [('0' as int + n) as char]
    else DecimalText(n / 10) + [('0' as int + n % 10) as char]
  }

  /**
   * Long.valueOf: an optional sign and at least one digit, with a value
   * inside the range of a long; None where it throws NumberFormatException.
   */
  function ParseLong(s: string): (r: Option<int>)
    ensures r.Some? ==> LongMin <= r.value <= LongMax
  {
    if s == [] then None
    else if s[0] == '-' || s[0] == '+' then
      var digits := s[1..];
      if digits == [] || !AllDigits(digits) then None
      else
        var magnitude: int := DigitsValue(digits);
        var v := if s[0] == '-' then -magnitude else magnitude;
        if LongMin <= v <= LongMax then Some(v) else None
    else if AllDigits(s) && DigitsValue(s) <= LongMax then Some(DigitsValue(s))
    else None
  }

  /** Reading back the decimal text of a number gives the number. */
  lemma {:induction false} DigitsOfDecimal(n: nat)
    ensures DigitsValue(DecimalText(n)) == n
  {
    if n >= 10 {
      DigitsOfDecimal(n / 10);
      var s := DecimalText(n);
      assert s[..|s| - 1] == DecimalText(n / 10);
    }
  }

  /** Long.valueOf(Long.toString(n)) == n for every non-negative long. */
  lemma ParseDecimal(n: nat)
    requires n <= LongMax
    ensures ParseLong(DecimalText(n)) == Some(n)
  {
    DigitsOfDecimal(n);
  }

  /** A value past the range of a long is refused, as Long.valueOf throws. */
  lemma ParseOutOfRange(n: nat)
    requires n > LongMax
    ensures ParseLong(DecimalText(n)) == None
  {
    DigitsOfDecimal(n);
  }

  /** Signs, empty text and stray characters. */
  lemma ParseLongExamples()
    ensures ParseLong("-12") == Some(-12) && ParseLong("+7") == Some(7)
    ensures ParseLong("") == None && ParseLong("-") == None && ParseLong("1x") == None
  {
    DigitsOfDecimal(12);
    assert DecimalText(12) == "12";
    assert "-12"[1..] == "12";
    assert !IsDigit("1x"[1]);
  }
}
