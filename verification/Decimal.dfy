/** Decimal digit strings: how integers are printed, and what number a digit string denotes. */
module Decimal {
  import opened JsText

  const ZERO: CodeUnit := 48
  const MINUS: CodeUnit := 45

  predicate IsDigit(u: CodeUnit) {
    48 <= u <= 57
  }

  predicate AllDigits(s: JsString) {
    forall i :: 0 <= i < |s| ==> IsDigit(s[i])
  }

  /** The number a digit string denotes, leading zeros included. */
  function ValueOf(s: JsString): nat
    requires AllDigits(s)
  {
    if s == [] then 0 else 10 * ValueOf(s[..|s| - 1]) + (s[|s| - 1] - ZERO)
  }

  /** The shortest digit string of a natural number. */
  function Digits(n: nat): (s: JsString)
    ensures |s| > 0 && AllDigits(s)
    ensures ValueOf(s) == n
  {
    if n < 10 then [ZERO + n]
    else
      var init := Digits(n / 10);
      var s := init + [ZERO + n % 10];
      assert s[..|s| - 1] == init;
      s
  }

  /** `JSON.stringify` of an integer. */
  function PrintInt(n: int): (s: JsString)
    ensures |s| > 0
  {
    if n < 0 then [MINUS] + Digits(-n) else Digits(n)
  }

  /** Length of the longest digit prefix. */
  function LeadingDigits(t: JsString): (n: nat)
    ensures n <= |t| && AllDigits(t[..n])
    ensures n < |t| ==> !IsDigit(t[n])
  {
    if t == [] || !IsDigit(t[0]) then 0 else 1 + LeadingDigits(t[1..])
  }

  lemma {:induction false} LeadingDigitsOfPrinted(s: JsString, rest: JsString)
    requires AllDigits(s)
    requires rest == [] || !IsDigit(rest[0])
    ensures LeadingDigits(s + rest) == |s|
  {
    if s == [] {
      assert s + rest == rest;
    } else {
      assert (s + rest)[1..] == s[1..] + rest;
      LeadingDigitsOfPrinted(s[1..], rest);
    }
  }
}
