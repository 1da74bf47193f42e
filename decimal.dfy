/**
 * Decimal text for integers: `fmt.Sprint` of an `int`, and the fixed-width,
 * zero-padded fields that Go's time layouts print (`2006`, `01`, `15`, ...).
 */
module Decimal {

  import opened Wrappers

  predicate IsDigit(c: char) {
    '0' <= c <= '9'
  }

  predicate AllDigits(s: string) {
    forall i :: 0 <= i < |s| ==> IsDigit(s[i])
  }

  function DigitChar(d: nat): (c: char)
    requires d < 10
    ensures IsDigit(c) && DigitValue(c) == d
  {
    (('0' as int) + d) as char
  }

  function DigitValue(c: char): nat
    requires IsDigit(c)
  {
    (c as int) - ('0' as int)
  }

  /** The value of a string of decimal digits, most significant first. */
  function DigitsValue(s: string): nat
    requires AllDigits(s)
  {
    if s == [] then 0 else DigitsValue(s[..|s| - 1]) * 10 + DigitValue(s[|s| - 1])
  }

  /** The shortest decimal text of `n` (no leading zeros). */
  function NatText(n: nat): (s: string)
    ensures 1 <= |s| && AllDigits(s)
    ensures n < 10 <==> |s| == 1
  {
    if n < 10 then [DigitChar(n)] else NatText(n / 10) + [DigitChar(n % 10)]
  }

  lemma {:induction false} NatTextValue(n: nat)
    ensures DigitsValue(NatText(n)) == n
  {
    if n >= 10 {
      var s := NatText(n);
      assert s[..|s| - 1] == NatText(n / 10);
      NatTextValue(n / 10);
    }
  }

  /** `fmt.Sprint(n)` for a Go `int`: a minus sign, then the digits of the magnitude. */
  function IntText(n: int): (s: string)
    ensures 1 <= |s|
    ensures n >= 0 <==> IsDigit(s[0])
  {
    if n < 0 then "-" + NatText(-n) else NatText(n)
  }

  /** Inverse of `IntText`; `None` for anything that is not an optional minus and digits. */
  function ParseInt(s: string): (r: Option<int>)
  {
    if |s| >= 2 && s[0] == '-' && AllDigits(s[1..]) then Some(-(DigitsValue(s[1..]) as int))
    else if |s| >= 1 && AllDigits(s) then Some(DigitsValue(s))
    else None
  }

  lemma IntTextRoundTrip(n: int)
    ensures ParseInt(IntText(n)) == Some(n)
  {
    NatTextValue(if n < 0 then -n else n);
    if n < 0 {
      assert IntText(n)[1..] == NatText(-n);
    }
  }

  lemma DigitsValueSnoc(s: string, c: char)
    requires AllDigits(s) && IsDigit(c)
    ensures AllDigits(s + [c]) && DigitsValue(s + [c]) == DigitsValue(s) * 10 + DigitValue(c)
  {
    assert (s + [c])[..|s|] == s;
  }

  /** Two digits, as the layout elements `01`, `02`, `15`, `04`, `05` print them. */
  function Fixed2(n: nat): string
    requires n < 100
  {
    [DigitChar(n / 10), DigitChar(n % 10)]
  }

  /** Two-digit text is two digits that read back as the number. */
  lemma Fixed2Digits(n: nat)
    requires n < 100
    ensures var s := Fixed2(n); |s| == 2 && AllDigits(s) && DigitsValue(s) == n
  {
    var a, b := DigitChar(n / 10), DigitChar(n % 10);
    DigitsValueSnoc([], a);
    DigitsValueSnoc([a], b);
    assert [a] + [b] == [a, b];
  }

  /** Four digits, as the layout element `2006` prints a year in 0..9999. */
  function Fixed4(n: nat): string
    requires n < 10000
  {
    var n2 := n / 100;
    [DigitChar(n2 / 10), DigitChar(n2 % 10), DigitChar(n / 10 % 10), DigitChar(n % 10)]
  }

  /** Four-digit text is four digits that read back as the number. */
  lemma Fixed4Digits(n: nat)
    requires n < 10000
    ensures var s := Fixed4(n); |s| == 4 && AllDigits(s) && DigitsValue(s) == n
  {
    var n1 := n / 10;
    var n2 := n / 100;
    assert n2 == n1 / 10;
    var a, b, c, d := DigitChar(n2 / 10), DigitChar(n2 % 10), DigitChar(n1 % 10), DigitChar(n % 10);
    DigitsValueSnoc([], a);
    DigitsValueSnoc([a], b);
    DigitsValueSnoc([a, b], c);
    DigitsValueSnoc([a, b, c], d);
    assert [a] + [b] == [a, b] && [a, b] + [c] == [a, b, c] && [a, b, c] + [d] == [a, b, c, d];
  }
}
