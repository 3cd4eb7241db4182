/** The canonical text of a JSON value: `canonicalizeMcp`, and `canonicalize` of the protocol
    kernel, which is the same function (src/protocol/foundation/canonical.ts). */
module Canonical {
  import opened JsText
  import opened Decimal
  import opened JsonValues

  const QUOTE: CodeUnit := 0x22
  const BACKSLASH: CodeUnit := 0x5C
  const COMMA: CodeUnit := 0x2C
  const COLON: CodeUnit := 0x3A
  const OPEN_BRACKET: CodeUnit := 0x5B
  const CLOSE_BRACKET: CodeUnit := 0x5D
  const OPEN_BRACE: CodeUnit := 0x7B
  const CLOSE_BRACE: CodeUnit := 0x7D
  const LOWER_U: CodeUnit := 0x75

  predicate IsHighSurrogate(u: CodeUnit) { 0xD800 <= u <= 0xDBFF }

  predicate IsLowSurrogate(u: CodeUnit) { 0xDC00 <= u <= 0xDFFF }

  /** No surrogate stands alone: the texts that `TextEncoder` encodes without loss. */
  predicate WellFormedUtf16(t: JsString)
    decreases |t|
  {
    t == [] ||
    (if IsHighSurrogate(t[0]) then |t| > 1 && IsLowSurrogate(t[1]) && WellFormedUtf16(t[2..])
     else !IsLowSurrogate(t[0]) && WellFormedUtf16(t[1..]))
  }

  function HexDigit(n: nat): CodeUnit
    requires n < 16
  {
    if n < 10 then 48 + n else 87 + n
  }

  function HexDigits(u: CodeUnit): (t: JsString)
    ensures |t| == 4
  {
    [HexDigit(u / 16 / 16 / 16), HexDigit(u / 16 / 16 % 16), HexDigit(u / 16 % 16), HexDigit(u % 16)]
  }

  function HexUnit(u: CodeUnit): (t: JsString)
    ensures |t| == 6
  {
    [BACKSLASH, LOWER_U] + HexDigits(u)
  }

  /** The one-letter escapes of section 3.2.2.2 of RFC 8785. */
  function ShortEscape(u: CodeUnit): Option<CodeUnit> {
    if u == QUOTE then Some(QUOTE)
    else if u == BACKSLASH then Some(BACKSLASH)
    else if u == 0x08 then Some(0x62)
    else if u == 0x0C then Some(0x66)
    else if u == 0x0A then Some(0x6E)
    else if u == 0x0D then Some(0x72)
    else if u == 0x09 then Some(0x74)
    else None
  }

  function EscapeUnit(u: CodeUnit): JsString {
    match ShortEscape(u)
    case Some(letter) => [BACKSLASH, letter]
    case None => if u < 0x20 || IsHighSurrogate(u) || IsLowSurrogate(u) then HexUnit(u) else [u]
  }

  function Escape(s: JsString): JsString
    decreases |s|
  {
    if s == [] then []
    else if |s| > 1 && IsHighSurrogate(s[0]) && IsLowSurrogate(s[1]) then s[..2] + Escape(s[2..])
    else EscapeUnit(s[0]) + Escape(s[1..])
  }

  /** `JSON.stringify` of a string. */
  function Quote(s: JsString): (t: JsString)
    ensures |t| >= 2 && t[0] == QUOTE
  {
    [QUOTE] + Escape(s) + [QUOTE]
  }

  /** `parts.join(",")`. */
  function Join(parts: seq<JsString>): JsString {
    if parts == [] then []
    else if |parts| == 1 then parts[0]
    else parts[0] + [COMMA] + Join(parts[1..])
  }

  function CanonicalText(v: Json): JsString
    decreases v, 0
  {
    match v
    case Null => Js("null")
    case Bool(b) => if b then Js("true") else Js("false")
    case Number(n) => PrintInt(n)
    case NonFinite => Js("null")
    case Str(s) => Quote(s)
    case Arr(items) => [OPEN_BRACKET] + Join(ItemTexts(items)) + [CLOSE_BRACKET]
    case Obj(fields) => [OPEN_BRACE] + Join(FieldTexts(fields, SortedKeys(fields))) + [CLOSE_BRACE]
  }

  function ItemTexts(items: seq<Json>): (texts: seq<JsString>)
    ensures |texts| == |items|
    decreases items, 1
  {
    seq(|items|, i requires 0 <= i < |items| => CanonicalText(items[i]))
  }

  function FieldTexts(fields: seq<Field>, keys: seq<JsString>): (texts: seq<JsString>)
    requires forall i :: 0 <= i < |keys| ==> keys[i] in Keys(fields)
    ensures |texts| == |keys|
    decreases fields, 2
  {
    seq(|keys|, i requires 0 <= i < |keys| => FieldText(fields, keys[i]))
  }

  function FieldText(fields: seq<Field>, key: JsString): (text: JsString)
    requires key in Keys(fields)
    ensures |text| > 0 && text[0] == QUOTE
    decreases fields, 1
  {
    var f := Field(key, Get(fields, key));
    assert f in fields;
    Quote(key) + ([COLON] + CanonicalText(f.value))
  }

  function SortedKeys(fields: seq<Field>): (keys: seq<JsString>)
    ensures |keys| == |fields|
    ensures forall i :: 0 <= i < |keys| ==> keys[i] in Keys(fields)
  {
    var keys := Sort(Keys(fields));
    assert forall i :: 0 <= i < |keys| ==> keys[i] in multiset(keys);
    keys
  }

  /** `None` is the thrown "Cannot canonicalize non-finite MCP value." */
  function CanonicalizeMcp(v: Json): Option<JsString> {
    if AllFinite(v) then Some(CanonicalText(v)) else None
  }
}
