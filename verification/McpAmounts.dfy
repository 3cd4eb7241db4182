/** The MCP surface compares amounts as strings; the runtime compares them as integers. */
module McpAmounts {
  import opened JsText
  import opened Decimal
  import opened X402Payment

  /** `value.replace(/^0+(?=\d)/, "")`: leading zeros go, but never the last digit. */
  function StripZeros(s: JsString): (t: JsString)
    requires AllDigits(s)
    ensures AllDigits(t) && |t| <= |s| && (s != [] ==> t != [])
    ensures |t| > 1 ==> t[0] != ZERO
    decreases |s|
  {
    if |s| > 1 && s[0] == ZERO then StripZeros(s[1..]) else s
  }

  /** `localeCompare` of two digit strings of one length: the first different digit decides. */
  function LocaleCompare(a: JsString, b: JsString): int
    requires |a| == |b|
    decreases |a|
  {
    if a == [] then 0
    else if a[0] != b[0] then (if a[0] > b[0] then 1 else -1)
    else LocaleCompare(a[1..], b[1..])
  }

  /** `compareAtomic` of the MCP proposal surface. */
  function CompareStrings(left: JsString, right: JsString): int
    requires AllDigits(left) && AllDigits(right)
  {
    var l, r := StripZeros(left), StripZeros(right);
    if |l| != |r| then (if |l| > |r| then 1 else -1) else LocaleCompare(l, r)
  }

  function Power10(n: nat): (p: nat)
    ensures p > 0
  {
    if n == 0 then 1 else 10 * Power10(n - 1)
  }

  /** The most significant digit and the rest. */
  lemma {:induction false} ValueFromTheLeft(d: CodeUnit, s: JsString)
    requires IsDigit(d) && AllDigits(s)
    ensures ValueOf([d] + s) == (d - ZERO) * Power10(|s|) + ValueOf(s)
    decreases |s|
  {
    var t := [d] + s;
    if s == [] {
      assert t[..|t| - 1] == [];
    } else {
      var init, last := s[..|s| - 1], s[|s| - 1];
      assert t[..|t| - 1] == [d] + init;
      ValueFromTheLeft(d, init);
      Distribute(d - ZERO, Power10(|init|), ValueOf(init), last - ZERO);
    }
  }

  lemma Distribute(d: int, p: int, v: int, x: int)
    ensures 10 * (d * p + v) + x == d * (10 * p) + (10 * v + x)
  {
    assert d * (10 * p) == 10 * (d * p);
  }

  lemma {:induction false} StrippingKeepsValue(s: JsString)
    requires AllDigits(s)
    ensures ValueOf(StripZeros(s)) == ValueOf(s)
    decreases |s|
  {
    if |s| > 1 && s[0] == ZERO {
      StrippingKeepsValue(s[1..]);
      ValueFromTheLeft(ZERO, s[1..]);
      assert s == [ZERO] + s[1..];
    }
  }

  lemma {:induction false} ValueIsBelow(s: JsString)
    requires AllDigits(s)
    ensures ValueOf(s) < Power10(|s|)
  {
    if s != [] {
      ValueIsBelow(s[..|s| - 1]);
    }
  }

  lemma ValueIsAtLeast(s: JsString)
    requires AllDigits(s) && s != [] && s[0] != ZERO
    ensures ValueOf(s) >= Power10(|s| - 1)
  {
    assert s == [s[0]] + s[1..];
    ValueFromTheLeft(s[0], s[1..]);
    AtLeastOnce(s[0] - ZERO, Power10(|s| - 1));
  }

  lemma AtLeastOnce(d: int, p: nat)
    requires d >= 1
    ensures d * p >= p
  {
  }

  lemma {:induction false} Power10Grows(m: nat, n: nat)
    requires m <= n
    ensures Power10(m) <= Power10(n)
    decreases n
  {
    if m < n {
      Power10Grows(m, n - 1);
    }
  }

  /** A longer stripped string is a larger number. */
  lemma LongerIsLarger(l: JsString, r: JsString)
    requires AllDigits(l) && AllDigits(r) && |l| > |r| > 0 && l[0] != ZERO
    ensures ValueOf(l) > ValueOf(r)
  {
    ValueIsAtLeast(l);
    ValueIsBelow(r);
    Power10Grows(|r|, |l| - 1);
  }

  function Sign(n: int): int {
    if n > 0 then 1 else if n < 0 then -1 else 0
  }

  /** One more in front outweighs everything behind. */
  lemma LeadingDigitDecides(c: int, d: int, p: nat, v: nat, w: nat)
    requires c > d && v < p && w < p
    ensures c * p + v > d * p + w
  {
    AtLeastOnce(c - d, p);
    assert c * p == d * p + (c - d) * p;
  }

  lemma {:induction false} LocaleCompareIsNumeric(a: JsString, b: JsString)
    requires AllDigits(a) && AllDigits(b) && |a| == |b|
    ensures LocaleCompare(a, b) == Sign(ValueOf(a) - ValueOf(b))
    decreases |a|
  {
    if a != [] {
      var p := Power10(|a| - 1);
      assert a == [a[0]] + a[1..] && b == [b[0]] + b[1..];
      ValueFromTheLeft(a[0], a[1..]);
      ValueFromTheLeft(b[0], b[1..]);
      ValueIsBelow(a[1..]);
      ValueIsBelow(b[1..]);
      if a[0] > b[0] {
        LeadingDigitDecides(a[0] - ZERO, b[0] - ZERO, p, ValueOf(a[1..]), ValueOf(b[1..]));
      } else if a[0] < b[0] {
        LeadingDigitDecides(b[0] - ZERO, a[0] - ZERO, p, ValueOf(b[1..]), ValueOf(a[1..]));
      } else {
        LocaleCompareIsNumeric(a[1..], b[1..]);
      }
    }
  }

  /** Comparing amounts as strings is comparing them as numbers, whatever their lengths and
      leading zeros; so the MCP surface and the runtime refuse the same amounts. */
  lemma StringComparisonIsNumeric(left: JsString, right: JsString)
    requires AllDigits(left) && AllDigits(right) && left != [] && right != []
    ensures CompareStrings(left, right) == Sign(ValueOf(left) - ValueOf(right))
    ensures CompareStrings(left, right) == CompareAtomic(left, right)
  {
    var l, r := StripZeros(left), StripZeros(right);
    StrippingKeepsValue(left);
    StrippingKeepsValue(right);
    if |l| > |r| {
      LongerIsLarger(l, r);
    } else if |l| < |r| {
      LongerIsLarger(r, l);
    } else {
      LocaleCompareIsNumeric(l, r);
    }
  }
}
