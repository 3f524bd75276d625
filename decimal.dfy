/**
  Decimal rendering of integers, as JavaScript's `Number.prototype.toString`
  produces it for integral values (integers are unbounded here; JavaScript's
  agree with them below 2^53, and print in this form below 1e21), together with `String.prototype.padStart(2, '0')`
  and the `%` operator (remainder truncated toward zero). Both formatters of
  the application (the MM:SS clock and the `Xh Ym` duration) are built from these.
*/
module Decimal {

  predicate IsDigit(c: char) {
    '0' <= c <= '9'
  }

  predicate AllDigits(s: string) {
    forall i :: 0 <= i < |s| ==> IsDigit(s[i])
  }

  function DigitChar(d: nat): (c: char)
    requires d < 10
    ensures IsDigit(c) && DigitValue(c) == d
  {
    (48 + d) as char
  }

  function DigitValue(c: char): nat
    requires IsDigit(c)
  {
    c as int - '0' as int
  }

  /** `n.toString()` for a non-negative integer: base ten, no leading zeros. */
  function Show(n: nat): (r: string)
    ensures 1 <= |r| && AllDigits(r)
    ensures r[0] == '0' ==> n == 0
    ensures |r| == 1 <==> n < 10
    decreases n
  {
    if n < 10 then [DigitChar(n)] else Show(n / 10) + [DigitChar(n % 10)]
  }

  /** `i.toString()` for any integer: a minus sign before the magnitude. */
  function ShowInt(i: int): (r: string)
    ensures i >= 0 ==> r == Show(i)
    ensures i < 0 ==> |r| >= 2 && r[0] == '-' && r[1..] == Show(-i)
  {
    if i < 0 then "-" + Show(-i) else Show(i)
  }

  /** The number a string of decimal digits denotes (leading zeros allowed). */
  function Value(s: string): nat
    requires AllDigits(s)
  {
    if s == [] then 0 else Value(s[..|s| - 1]) * 10 + DigitValue(s[|s| - 1])
  }

  /** `s.padStart(2, '0')`. */
  function PadStart2(s: string): (r: string)
    ensures |r| == if |s| < 2 then 2 else |s|
    ensures |s| >= 2 ==> r == s
    ensures |s| < 2 ==> r[2 - |s|..] == s && forall i :: 0 <= i < 2 - |s| ==> r[i] == '0'
  {
    if |s| == 0 then "00" else if |s| == 1 then "0" + s else s
  }

  /** JavaScript's `a % b` for a positive divisor: the remainder takes the sign of `a`. */
  function JsRem(a: int, b: int): (r: int)
    requires b > 0
    ensures -b < r < b
    ensures a >= 0 ==> r >= 0
    ensures a <= 0 ==> r <= 0
    ensures a >= 0 ==> r == a % b
    ensures a < 0 ==> -r == (-a) % b
  {
    if a >= 0 then a % b else -((-a) % b)
  }

  /** Reading back what Show writes gives the number. */
  lemma {:induction false} ValueOfShow(n: nat)
    ensures Value(Show(n)) == n
    decreases n
  {
    if n >= 10 {
      var s := Show(n);
      assert s[..|s| - 1] == Show(n / 10);
      ValueOfShow(n / 10);
    }
  }

  /** A leading zero does not change the value of a digit string. */
  lemma {:induction false} ValueIgnoresLeadingZero(s: string)
    requires AllDigits(s)
    ensures AllDigits("0" + s) && Value("0" + s) == Value(s)
    decreases |s|
  {
    if s != [] {
      var t := "0" + s;
      assert t[..|t| - 1] == "0" + s[..|s| - 1];
      ValueIgnoresLeadingZero(s[..|s| - 1]);
    }
  }

  /** Padding a rendering to two places keeps its value and adds only zeros. */
  lemma ValueOfPaddedShow(n: nat)
    ensures AllDigits(PadStart2(Show(n)))
    ensures Value(PadStart2(Show(n))) == n
    ensures |PadStart2(Show(n))| == if n < 10 then 2 else |Show(n)|
  {
    ValueOfShow(n);
    if n < 10 {
      ValueIgnoresLeadingZero(Show(n));
    }
  }

  /** A number below one hundred has at most two digits; they are its tens and its units. */
  lemma ShowBelowHundred(n: nat)
    requires 10 <= n < 100
    ensures Show(n) == [DigitChar(n / 10), DigitChar(n % 10)]
  {
  }

  /** Numbers of at least two digits render with at least two characters. */
  lemma {:induction false} ShowLength(n: nat)
    ensures n < 100 ==> |Show(n)| <= 2
    ensures n >= 100 ==> |Show(n)| >= 3
    decreases n
  {
    if n >= 10 {
      ShowLength(n / 10);
    }
  }
}
