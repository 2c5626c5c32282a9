/** Go's `%d` verb on an `int`: an optional minus sign followed by the
    decimal digits of the magnitude, most significant first, with no leading
    zeros. */
module Decimal {

  predicate IsDigit(c: char)
  {
    '0' <= c <= '9'
  }

  predicate AllDigits(s: string)
  {
    forall i :: 0 <= i < |s| ==> IsDigit(s[i])
  }

  function DigitChar(d: nat): (c: char)
    requires d < 10
    ensures IsDigit(c)
  {
    (d + '0' as int) as char
  }

  function DigitValue(c: char): (d: nat)
    requires IsDigit(c)
    ensures d < 10
  {
    c as int - '0' as int
  }

  /** The decimal digits of `n`, most significant first. */
  function NatDigits(n: nat): (r: string)
    ensures |r| > 0 && AllDigits(r)
    ensures |r| > 1 ==> r[0] != '0'
    decreases n
  {
    if n < 10 then [DigitChar(n)] else NatDigits(n / 10) + [DigitChar(n % 10)]
  }

  /** The number a string of digits denotes. */
  function DigitsValue(s: string): nat
    requires AllDigits(s)
    decreases |s|
  {
    if s == [] then 0 else 10 * DigitsValue(s[..|s| - 1]) + DigitValue(s[|s| - 1])
  }

  /** What `fmt.Sprintf("%d", n)` produces. */
  function FormatInt(n: int): string
  {
    if n < 0 then "-" + NatDigits(-n) else NatDigits(n)
  }

  /** Reading the digits back gives the number again. */
  lemma {:induction false} NatDigitsValue(n: nat)
    ensures DigitsValue(NatDigits(n)) == n
    decreases n
  {
    if n >= 10 {
      var r := NatDigits(n);
      assert r[..|r| - 1] == NatDigits(n / 10);
      NatDigitsValue(n / 10);
    }
  }

  /** The sign and the digits of `FormatInt(n)`: a leading `-` exactly for a
      negative number, and the digits of the magnitude after it. */
  lemma FormatIntShape(n: int)
    ensures var s := FormatInt(n);
      |s| > 0 &&
      (s[0] == '-' <==> n < 0) &&
      (n < 0 ==> AllDigits(s[1..]) && DigitsValue(s[1..]) == -n) &&
      (n >= 0 ==> AllDigits(s) && DigitsValue(s) == n)
  {
    var s := FormatInt(n);
    if n < 0 {
      assert s[1..] == NatDigits(-n);
      NatDigitsValue(-n);
    } else {
      NatDigitsValue(n);
    }
  }

  /** `%d` holds only a minus sign and digits: no colon, no space. */
  lemma FormatIntCharacters(n: int)
    ensures forall i :: 0 <= i < |FormatInt(n)| ==> FormatInt(n)[i] == '-' || IsDigit(FormatInt(n)[i])
  {
    var s := FormatInt(n);
    if n < 0 {
      var d := NatDigits(-n);
      assert forall i :: 1 <= i < |s| ==> s[i] == d[i - 1];
    }
  }

  /** Different numbers print differently. */
  lemma FormatIntInjective(m: int, n: int)
    requires FormatInt(m) == FormatInt(n)
    ensures m == n
  {
    FormatIntShape(m);
    FormatIntShape(n);
  }

  lemma FormatIntExamples()
    ensures FormatInt(5) == "5"
    ensures FormatInt(42) == "42"
    ensures FormatInt(-7) == "-7"
  {
  }
}
