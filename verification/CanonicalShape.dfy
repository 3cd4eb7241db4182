/** The canonical text written out: which characters stand for which value, and in which order the
    keys of an object are listed. */
module CanonicalShape {
  import opened JsText
  import opened Decimal
  import opened JsonValues
  import opened Canonical
  import opened CanonicalParser
  import opened CanonicalProofs

  // -------------------------------------------------------- order of the keys

  /** Every object lists its entries in strictly ascending order of keys, at every depth. */
  predicate KeysAscend(v: Json)
    decreases v
  {
    match v
    case Arr(items) => forall i :: 0 <= i < |items| ==> KeysAscend(items[i])
    case Obj(fields) =>
      && Ascending(Keys(fields))
      && forall i :: 0 <= i < |fields| ==> KeysAscend(fields[i].value)
    case _ => true
  }

  lemma NormalKeys(fields: seq<Field>)
    requires Canonicalizable(Obj(fields))
    ensures Keys(Normal(Obj(fields)).fields) == SortedKeys(fields) && Ascending(SortedKeys(fields))
  {
    SortAscends(Keys(fields));
    var normals := NormalFields(fields, SortedKeys(fields));
    assert forall i :: 0 <= i < |normals| ==> Keys(normals)[i] == SortedKeys(fields)[i];
  }

  lemma {:induction false} NormalAscends(v: Json)
    requires Canonicalizable(v)
    ensures KeysAscend(Normal(v))
    decreases v
  {
    match v
    case Arr(items) =>
      forall i | 0 <= i < |items| ensures KeysAscend(NormalItems(items)[i]) {
        NormalAscends(items[i]);
      }
    case Obj(fields) =>
      NormalKeys(fields);
      var keys := SortedKeys(fields);
      forall i | 0 <= i < |keys| ensures KeysAscend(NormalFields(fields, keys)[i].value) {
        GetIsCanonicalizable(fields, keys[i]);
        GetIsSmaller(v, keys[i]);
        NormalAscends(Get(fields, keys[i]));
      }
    case _ =>
  }

  /** Whatever is read back from a canonical text has its keys in strictly ascending order, at
      every depth. */
  lemma KeysAreReadInOrder(v: Json)
    requires Canonicalizable(v)
    ensures ParseValue(CanonicalText(v)).Parsed? && ParseValue(CanonicalText(v)).rest == []
    ensures KeysAscend(ParseValue(CanonicalText(v)).value)
  {
    RoundTrip(v, []);
    assert CanonicalText(v) + [] == CanonicalText(v);
    NormalAscends(v);
  }

  // ------------------------------------------------------------ plain values

  lemma LiteralTexts()
    ensures CanonicalText(Null) == Js("null")
    ensures CanonicalText(Bool(true)) == Js("true") && CanonicalText(Bool(false)) == Js("false")
  {
  }

  lemma {:induction false} DigitsHaveNoLeadingZero(n: nat)
    ensures n > 0 ==> Digits(n)[0] != 48
  {
    if n >= 10 {
      DigitsHaveNoLeadingZero(n / 10);
    }
  }

  /** A number is printed in decimal digits, without leading zeros, a minus sign in front of a
      negative one. */
  lemma NumberText(n: int)
    ensures n < 0 ==> CanonicalText(Number(n)) == Js("-") + CanonicalText(Number(-n))
    ensures n == 0 ==> CanonicalText(Number(n)) == Js("0")
    ensures n > 0 ==>
      var t := CanonicalText(Number(n));
      t != [] && t[0] != 48 && (forall i :: 0 <= i < |t| ==> 48 <= t[i] <= 57) && AllDigits(t) && ValueOf(t) == n
  {
    if n > 0 {
      DigitsHaveNoLeadingZero(n);
    }
  }

  // ----------------------------------------------------------------- strings

  /** The value of a hexadecimal digit, in lower case. */
  function LowerHex(n: nat): CodeUnit
    requires n < 16
  {
    Js("0123456789abcdef")[n]
  }

  lemma LowerHexIsHexDigit(n: nat)
    requires n < 16
    ensures LowerHex(n) == HexDigit(n)
  {
  }

  /** The escapes with a letter of their own. */
  lemma ShortEscapes()
    ensures CanonicalText(Str([34])) == Js("\"\\\"\"") && CanonicalText(Str([92])) == Js("\"\\\\\"")
    ensures CanonicalText(Str([8])) == Js("\"\\b\"") && CanonicalText(Str([9])) == Js("\"\\t\"")
    ensures CanonicalText(Str([10])) == Js("\"\\n\"") && CanonicalText(Str([12])) == Js("\"\\f\"")
    ensures CanonicalText(Str([13])) == Js("\"\\r\"")
  {
    OneUnit(34);
    OneUnit(92);
    OneUnit(8);
    OneUnit(9);
    OneUnit(10);
    OneUnit(12);
    OneUnit(13);
  }

  lemma OneUnit(u: CodeUnit)
    ensures CanonicalText(Str([u])) == [34] + EscapeUnit(u) + [34]
  {
    assert [u][1..] == [];
    assert Escape([u]) == EscapeUnit(u) + Escape([]);
    assert EscapeUnit(u) + [] == EscapeUnit(u);
  }

  predicate IsShort(u: CodeUnit) {
    u == 34 || u == 92 || u == 8 || u == 9 || u == 10 || u == 12 || u == 13
  }

  /** The other control characters and every lone surrogate become four lower-case hexadecimal
      digits; any other code unit stands for itself. */
  lemma OtherUnits(u: CodeUnit)
    requires !IsShort(u)
    ensures u < 32 || 0xD800 <= u < 0xE000 ==>
      CanonicalText(Str([u]))
      == [34, 92, 117, LowerHex(u / 4096), LowerHex(u / 256 % 16), LowerHex(u / 16 % 16), LowerHex(u % 16), 34]
    ensures !(u < 32 || 0xD800 <= u < 0xE000) ==> CanonicalText(Str([u])) == [34, u, 34]
  {
    OneUnit(u);
    if u < 32 || 0xD800 <= u < 0xE000 {
      HexPlaces(u);
    }
  }

  lemma HexPlaces(u: CodeUnit)
    ensures HexDigits(u) == [LowerHex(u / 4096), LowerHex(u / 256 % 16), LowerHex(u / 16 % 16), LowerHex(u % 16)]
  {
    assert u / 16 / 16 / 16 == u / 4096 && u / 16 / 16 == u / 256;
    LowerHexIsHexDigit(u / 4096);
    LowerHexIsHexDigit(u / 256 % 16);
    LowerHexIsHexDigit(u / 16 % 16);
    LowerHexIsHexDigit(u % 16);
  }

  /** A surrogate pair stands for itself. */
  lemma PairText(high: CodeUnit, low: CodeUnit)
    requires 0xD800 <= high < 0xDC00 && 0xDC00 <= low < 0xE000
    ensures CanonicalText(Str([high, low])) == [34, high, low, 34]
  {
    var s: JsString := [high, low];
    assert s[2..] == [] && s[..2] == s;
    assert Escape(s) == s + [];
  }

  /** What is between the quotes of a string's text. */
  function Between(s: JsString): JsString {
    CanonicalText(Str(s))[1..|CanonicalText(Str(s))| - 1]
  }

  lemma BetweenIsEscape(s: JsString)
    ensures Between(s) == Escape(s)
    ensures CanonicalText(Str(s)) == [34] + Between(s) + [34]
  {
    assert CanonicalText(Str(s)) == [QUOTE] + Escape(s) + [QUOTE];
  }

  lemma EscapePairFirst(pair: JsString, rest: JsString)
    requires |pair| == 2 && IsHighSurrogate(pair[0]) && IsLowSurrogate(pair[1])
    ensures Escape(pair + rest) == pair + Escape(rest)
  {
    assert (pair + rest)[..2] == pair && (pair + rest)[2..] == rest;
  }

  lemma EscapeUnitFirst(u: CodeUnit, rest: JsString)
    requires rest != [] ==> !(IsHighSurrogate(u) && IsLowSurrogate(rest[0]))
    ensures Escape([u] + rest) == EscapeUnit(u) + Escape(rest)
  {
    assert ([u] + rest)[1..] == rest;
  }

  lemma {:induction false} EscapeConcat(s: JsString, t: JsString)
    requires s != [] && t != [] ==> !(IsHighSurrogate(s[|s| - 1]) && IsLowSurrogate(t[0]))
    ensures Escape(s + t) == Escape(s) + Escape(t)
    decreases |s|
  {
    if s == [] {
      assert s + t == t;
    } else if |s| > 1 && IsHighSurrogate(s[0]) && IsLowSurrogate(s[1]) {
      EscapeConcat(s[2..], t);
      EscapePairFirst(s[..2], s[2..]);
      EscapePairFirst(s[..2], s[2..] + t);
      SplitAndEscaped(s, s[..2], s[2..], t, s[..2]);
    } else {
      EscapeConcat(s[1..], t);
      EscapeUnitFirst(s[0], s[1..]);
      EscapeUnitFirst(s[0], s[1..] + t);
      SplitAndEscaped(s, [s[0]], s[1..], t, EscapeUnit(s[0]));
    }
  }

  lemma SplitAndEscaped(s: JsString, first: JsString, rest: JsString, t: JsString, escaped: JsString)
    requires s == first + rest
    requires Escape(first + rest) == escaped + Escape(rest)
    requires Escape(first + (rest + t)) == escaped + Escape(rest + t)
    requires Escape(rest + t) == Escape(rest) + Escape(t)
    ensures Escape(s + t) == Escape(s) + Escape(t)
  {
    Regroup(first, rest, t);
    Regroup(escaped, Escape(rest), Escape(t));
  }

  lemma BetweenConcat(s: JsString, t: JsString)
    requires s != [] && t != [] ==> !(0xD800 <= s[|s| - 1] < 0xDC00 && 0xDC00 <= t[0] < 0xE000)
    ensures Between(s + t) == Between(s) + Between(t)
  {
    EscapeConcat(s, t);
    BetweenIsEscape(s);
    BetweenIsEscape(t);
    BetweenIsEscape(s + t);
  }

  /** The text of a string is made of those of its parts, as long as no surrogate pair is split:
      so the texts of single code units and of pairs determine all others. */
  lemma StringTextIsPiecewise(s: JsString, t: JsString)
    requires s != [] && t != [] ==> !(0xD800 <= s[|s| - 1] < 0xDC00 && 0xDC00 <= t[0] < 0xE000)
    ensures CanonicalText(Str(s + t)) == [34] + (Between(s) + Between(t)) + [34]
    ensures CanonicalText(Str(s)) == [34] + Between(s) + [34] && Between([]) == []
  {
    BetweenConcat(s, t);
    BetweenIsEscape(s + t);
    BetweenIsEscape(s);
    BetweenIsEscape([]);
  }

  // ------------------------------------------------------- arrays and objects

  lemma Unwrapped(open: CodeUnit, head: JsString, rest: JsString, close: CodeUnit)
    ensures [open] + (head + rest) + [close] == [open] + head + ([open] + rest + [close])[1..]
  {
    assert ([open] + rest + [close])[1..] == rest + [close];
  }

  lemma JoinMore(first: JsString, parts: seq<JsString>)
    requires parts != []
    ensures Join([first] + parts) == (first + [44]) + Join(parts)
    ensures Join([first]) == first
  {
    assert ([first] + parts)[1..] == parts;
  }

  lemma EmptyTexts()
    ensures CanonicalText(Arr([])) == Js("[]") && CanonicalText(Obj([])) == Js("{}")
  {
    assert CanonicalText(Arr([])) == [OPEN_BRACKET] + [] + [CLOSE_BRACKET];
    assert CanonicalText(Obj([])) == [OPEN_BRACE] + [] + [CLOSE_BRACE];
  }

  lemma TextsOfItems(v: Json, items: seq<Json>)
    ensures ItemTexts([v] + items) == [CanonicalText(v)] + ItemTexts(items)
  {
    var all := [v] + items;
    assert forall i :: 0 <= i < |items| ==> all[i + 1] == items[i];
  }

  /** An array, item by item. */
  lemma ArrayText(v: Json, items: seq<Json>)
    ensures CanonicalText(Arr([v] + items)) ==
      if items == [] then [91] + CanonicalText(v) + [93]
      else [91] + (CanonicalText(v) + [44]) + CanonicalText(Arr(items))[1..]
  {
    TextsOfItems(v, items);
    if items == [] {
      assert ItemTexts([v] + items) == [CanonicalText(v)];
    } else {
      JoinMore(CanonicalText(v), ItemTexts(items));
      Unwrapped(OPEN_BRACKET, CanonicalText(v) + [44], Join(ItemTexts(items)), CLOSE_BRACKET);
    }
  }

  lemma LexLeOfPrecedes(a: JsString, b: JsString)
    requires Precedes(a, b)
    ensures LexLe(a, b)
    decreases |a|
  {
    var n :| 0 <= n <= |a| && n < |b| && a[..n] == b[..n] && (n == |a| || a[n] < b[n]);
    if n > 0 {
      assert a[0] == a[..n][0] == b[..n][0] == b[0];
      assert a[1..][..n - 1] == a[..n][1..] && b[1..][..n - 1] == b[..n][1..];
      assert Precedes(a[1..], b[1..]);
      LexLeOfPrecedes(a[1..], b[1..]);
    }
  }

  /** The first entry's key comes strictly before all others. */
  predicate LeastFirst(f: Field, rest: seq<Field>) {
    forall i :: 0 <= i < |rest| ==> Precedes(f.key, rest[i].key) && rest[i].key != f.key
  }

  lemma LeastKeyFirst(f: Field, rest: seq<Field>)
    requires LeastFirst(f, rest)
    ensures SortedKeys([f] + rest) == [f.key] + SortedKeys(rest)
  {
    var keys := Keys([f] + rest);
    assert keys[0] == f.key && keys[1..] == Keys(rest);
    var sorted := Sort(Keys(rest));
    if sorted != [] {
      assert sorted[0] in multiset(sorted);
      assert sorted[0] in Keys(rest);
      var i :| 0 <= i < |rest| && Keys(rest)[i] == sorted[0];
      LexLeOfPrecedes(f.key, sorted[0]);
    }
  }

  lemma FirstKeyIsNew(f: Field, rest: seq<Field>)
    requires LeastFirst(f, rest)
    ensures f.key !in Keys(rest) && Keys([f] + rest) == [f.key] + Keys(rest)
  {
  }

  lemma EntryText(f: Field, rest: seq<Field>, key: JsString)
    requires LeastFirst(f, rest) && key in Keys([f] + rest)
    ensures key == f.key ==> FieldText([f] + rest, key) == (CanonicalText(Str(f.key)) + [58]) + CanonicalText(f.value)
    ensures key != f.key ==> key in Keys(rest) && FieldText([f] + rest, key) == FieldText(rest, key)
  {
    FirstKeyIsNew(f, rest);
    assert ([f] + rest)[1..] == rest;
    if key == f.key {
      assert Get([f] + rest, key) == f.value;
    }
  }

  lemma FirstText(fields: seq<Field>, key: JsString, keys: seq<JsString>)
    requires key in Keys(fields) && forall i :: 0 <= i < |keys| ==> keys[i] in Keys(fields)
    ensures forall i :: 0 <= i < |[key] + keys| ==> ([key] + keys)[i] in Keys(fields)
    ensures FieldTexts(fields, [key] + keys) == [FieldText(fields, key)] + FieldTexts(fields, keys)
  {
    var all := [key] + keys;
    assert forall i :: 0 <= i < |keys| ==> all[i + 1] == keys[i];
    assert forall i :: 0 <= i < |all| ==> all[i] in Keys(fields);
  }

  lemma LaterTexts(f: Field, rest: seq<Field>, keys: seq<JsString>)
    requires LeastFirst(f, rest) && forall i :: 0 <= i < |keys| ==> keys[i] in Keys(rest)
    ensures forall i :: 0 <= i < |keys| ==> keys[i] in Keys([f] + rest)
    ensures FieldTexts([f] + rest, keys) == FieldTexts(rest, keys)
  {
    FirstKeyIsNew(f, rest);
    forall i | 0 <= i < |keys|
      ensures keys[i] in Keys([f] + rest) && FieldText([f] + rest, keys[i]) == FieldText(rest, keys[i])
    {
      EntryText(f, rest, keys[i]);
    }
  }

  lemma TextsOfEntries(f: Field, rest: seq<Field>)
    requires LeastFirst(f, rest)
    ensures var keys := SortedKeys([f] + rest);
      FieldTexts([f] + rest, keys)
      == [(CanonicalText(Str(f.key)) + [58]) + CanonicalText(f.value)] + FieldTexts(rest, SortedKeys(rest))
  {
    LeastKeyFirst(f, rest);
    FirstKeyIsNew(f, rest);
    LaterTexts(f, rest, SortedKeys(rest));
    FirstText([f] + rest, f.key, SortedKeys(rest));
    EntryText(f, rest, f.key);
  }

  /** An object, entry by entry, least key first. Since entries may be given in any order, this
      is the text of every object. */
  lemma ObjectText(f: Field, rest: seq<Field>)
    requires LeastFirst(f, rest)
    ensures var entry := (CanonicalText(Str(f.key)) + [58]) + CanonicalText(f.value);
      CanonicalText(Obj([f] + rest)) ==
      if rest == [] then [123] + entry + [125] else [123] + (entry + [44]) + CanonicalText(Obj(rest))[1..]
  {
    TextsOfEntries(f, rest);
    var entry := (CanonicalText(Str(f.key)) + [58]) + CanonicalText(f.value);
    var texts := FieldTexts(rest, SortedKeys(rest));
    if rest == [] {
      assert [entry] + texts == [entry];
    } else {
      JoinMore(entry, texts);
      Unwrapped(OPEN_BRACE, entry + [44], Join(texts), CLOSE_BRACE);
    }
  }
}
