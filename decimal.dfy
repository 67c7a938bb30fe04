/**
 * Decimal rendering of integers, as `Integer.toString`, `Long.toString` and string
 * concatenation (`b + ""`) produce it, with the parser that inverts it.
 */
module Decimal {
  import opened Wrappers

  function DigitChar(d: nat): (c: char)
    requires d < 10
    ensures '0' <= c <= '9' && c as int - '0' as int == d
  {
    ('0' as int + d) as char
  }

  /** The decimal digits of `n`, most significant first, with no leading zero. */
  function Digits(n: nat): (s: string)
    ensures |s| >= 1
    ensures forall i :: 0 <= i < |s| ==> '0' <= s[i] <= '9'
    ensures |s| > 1 ==> s[0] != '0'
  {
    if n < 10 then [DigitChar(n)] else Digits(n / 10) + [DigitChar(n % 10)]
  }

  /** The Java decimal form: a minus sign for negative values, then the digits. */
  function Render(i: int): string
  {
    if i < 0 then "-" + Digits(-i) else Digits(i)
  }

  /** The number a non-empty string of decimal digits denotes. */
  function DigitsValue(s: string): nat
    requires forall i :: 0 <= i < |s| ==> '0' <= s[i] <= '9'
  {
    if s == [] then 0 else DigitsValue(s[..|s| - 1]) * 10 + (s[|s| - 1] as int - '0' as int)
  }

  predicate AllDigits(s: string)
  {
    forall i :: 0 <= i < |s| ==> '0' <= s[i] <= '9'
  }

  /** Reads a rendered integer back: an optional minus sign, then at least one digit. */
  function Parse(s: string): Option<int>
  {
    if |s| >= 2 && s[0] == '-' && AllDigits(s[1..]) then Some(-(DigitsValue(s[1..]) as int))
    else if |s| >= 1 && AllDigits(s) then Some(DigitsValue(s))
    else None
  }

  lemma {:induction false} DigitsValueOfDigits(n: nat)
    ensures DigitsValue(Digits(n)) == n
  {
    if n >= 10 {
      var s := Digits(n);
      assert s[..|s| - 1] == Digits(n / 10);
      DigitsValueOfDigits(n / 10);
    }
  }

  /** Parsing the rendering of any integer gives the integer back. */
  lemma ParseOfRender(i: int)
    ensures Parse(Render(i)) == Some(i)
  {
    if i < 0 {
      NegativeParse(-i);
    } else {
      DigitsAllDigits(i);
      DigitsValueOfDigits(i);
    }
  }

  lemma NegativeParse(n: nat)
    requires n > 0
    ensures Parse("-" + Digits(n)) == Some(-(n as int))
  {
    var s := "-" + Digits(n);
    assert s[1..] == Digits(n);
    DigitsAllDigits(n);
    DigitsValueOfDigits(n);
  }

  lemma DigitsAllDigits(n: nat)
    ensures |Digits(n)| >= 1 && AllDigits(Digits(n))
  {
  }

  /** A rendering holds only digits and a leading minus sign, so never a delimiter such as `,`. */
  lemma RenderCharacters(i: int)
    ensures |Render(i)| >= 1
    ensures forall k :: 0 <= k < |Render(i)| ==> ('0' <= Render(i)[k] <= '9') || (k == 0 && Render(i)[k] == '-')
  {
  }
}
