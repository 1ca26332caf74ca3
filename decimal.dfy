/** Decimal text of Java longs: Long.toString and Long.parseLong in radix 10. */
module Decimal {
  import opened Wrappers

  const LONG_MIN: int := -0x8000_0000_0000_0000
  const LONG_MAX: int := 0x7fff_ffff_ffff_ffff

  /** A Java long. */
  type Long = x: int | LONG_MIN <= x <= LONG_MAX

  predicate IsDigit(c: char) {
    '0' <= c <= '9'
  }

  /** Every character an ASCII digit (vacuously true of the empty string). */
  predicate AllDigits(s: string) {
    forall i :: 0 <= i < |s| ==> IsDigit(s[i])
  }

  /** The form Long.toString gives a non-negative number: digits, no leading zero. */
  predicate IsCanonical(s: string) {
    AllDigits(s) && |s| > 0 && (s[0] == '0' ==> |s| == 1)
  }

  function DigitValue(c: char): nat
    requires IsDigit(c)
  {
    c as int - '0' as int
  }

  function Digit(d: nat): (c: char)
    requires d < 10
    ensures IsDigit(c) && DigitValue(c) == d
  {
    ('0' as int + d) as char
  }

  /** The number a digit string denotes, most significant digit first. */
  function ValueOf(s: string): nat
    requires AllDigits(s)
  {
    if s == [] then 0 else ValueOf(s[..|s| - 1]) * 10 + DigitValue(s[|s| - 1])
  }

  /** Long.toString of a non-negative number. */
  function ToDecimal(n: nat): (s: string)
    ensures IsCanonical(s)
    ensures |s| > 0 && (n > 0 ==> s[0] != '0')
  {
    if n < 10 then [Digit(n)] else ToDecimal(n / 10) + [Digit(n % 10)]
  }

  /** Long.toString: a minus sign before the magnitude of a negative. */
  function LongToString(n: int): string {
    if n < 0 then "-" + ToDecimal(-n) else ToDecimal(n)
  }

  /**
   * Long.parseLong in radix 10: an optional sign, then at least one ASCII digit, the value
   * within the range of a long; None stands for NumberFormatException.
   */
  function ParseLong(s: string): (r: Option<Long>)
    ensures r.Some? ==> |s| > 0
  {
    if |s| > 0 && (s[0] == '-' || s[0] == '+') then
      var digits := s[1..];
      if |digits| == 0 || !AllDigits(digits) then None
      else
        var v: int := if s[0] == '-' then -(ValueOf(digits) as int) else ValueOf(digits);
        if LONG_MIN <= v <= LONG_MAX then Some(v) else None
    else if |s| == 0 || !AllDigits(s) then None
    else if ValueOf(s) <= LONG_MAX then Some(ValueOf(s))
    else None
  }

  lemma {:induction false} ValueOfToDecimal(n: nat)
    ensures ValueOf(ToDecimal(n)) == n
  {
    if n >= 10 {
      var s := ToDecimal(n);
      assert s[..|s| - 1] == ToDecimal(n / 10);
      ValueOfToDecimal(n / 10);
    }
  }

  lemma {:induction false} ValueOfLeadingDigit(s: string)
    requires AllDigits(s) && |s| > 0 && s[0] != '0'
    ensures ValueOf(s) >= 1
  {
    if |s| > 1 {
      ValueOfLeadingDigit(s[..|s| - 1]);
    }
  }

  /** Printing the value of a canonical digit string gives back the same string. */
  lemma {:induction false} ToDecimalValueOf(s: string)
    requires IsCanonical(s)
    ensures ToDecimal(ValueOf(s)) == s
  {
    if |s| > 1 {
      var p := s[..|s| - 1];
      ValueOfLeadingDigit(p);
      ToDecimalValueOf(p);
      var d := DigitValue(s[|s| - 1]);
      assert ValueOf(s) == ValueOf(p) * 10 + d;
      assert ValueOf(s) / 10 == ValueOf(p) && ValueOf(s) % 10 == d;
      assert Digit(d) == s[|s| - 1];
      assert s == p + [s[|s| - 1]];
    } else {
      assert s[..0] == [];
      assert ValueOf(s) == DigitValue(s[0]);
      assert Digit(ValueOf(s)) == s[0];
    }
  }

  /** parseLong undoes toString on every long. */
  lemma ParseLongToString(n: Long)
    ensures ParseLong(LongToString(n)) == Some(n)
  {
    if n < 0 {
      var m: nat := -(n as int);
      var d := ToDecimal(m);
      ValueOfToDecimal(m);
      var s := LongToString(n);
      assert s == "-" + d && s[0] == '-' && s[1..] == d;
    } else {
      var d := ToDecimal(n as nat);
      ValueOfToDecimal(n as nat);
      assert IsDigit(d[0]);
    }
  }

  /** On a digit string parseLong succeeds exactly when the string is non-empty and its value fits. */
  lemma ParseLongDigits(s: string)
    requires AllDigits(s)
    ensures ParseLong(s).Some? <==> |s| > 0 && ValueOf(s) <= LONG_MAX
    ensures ParseLong(s).Some? ==> ParseLong(s).value == ValueOf(s)
  {
    if |s| > 0 {
      assert IsDigit(s[0]);
    }
  }

  /** Leading zeros are accepted by parseLong and lost by toString: "007" becomes "7". */
  lemma LeadingZerosDropped()
    ensures ParseLong("007") == Some(7) && LongToString(7) == "7"
  {
    assert ValueOf("007") == 7 by {
      assert "007"[..2] == "00" && "00"[..1] == "0" && "0"[..0] == "";
    }
  }

  /** The smallest number of digits that parseLong rejects although every character is a digit. */
  lemma OverflowRejected()
    ensures AllDigits(ToDecimal(LONG_MAX + 1)) && ParseLong(ToDecimal(LONG_MAX + 1)).None?
  {
    ValueOfToDecimal(LONG_MAX + 1);
    ParseLongDigits(ToDecimal(LONG_MAX + 1));
  }
}
