/** `encodeURIComponent` and `decodeURIComponent`: percent-coding of UTF-8 (section 2.1 of
    RFC 3986, RFC 3629) over JavaScript strings. */
module UriComponent {
  import opened JsText
  import opened Canonical

  const PERCENT: CodeUnit := 37

  /** A Unicode scalar value: any code point but a surrogate. */
  predicate IsScalar(c: int) {
    0 <= c < 0xD800 || 0xE000 <= c < 0x11_0000
  }

  type Scalar = c: int | 0 <= c < 0xD800 || 0xE000 <= c < 0x11_0000

  // --------------------------------------------------------------- UTF-16

  function Utf16(c: Scalar): (t: JsString)
    ensures 1 <= |t| <= 2 && WellFormedUtf16(t)
  {
    if c < 0x1_0000 then [c]
    else
      var t: JsString := [0xD800 + (c - 0x1_0000) / 0x400, 0xDC00 + (c - 0x1_0000) % 0x400];
      assert WellFormedUtf16(t[2..]);
      t
  }

  /** The code point of a surrogate pair. */
  function Paired(high: int, low: int): (c: Scalar)
    requires 0xD800 <= high <= 0xDBFF && 0xDC00 <= low <= 0xDFFF
    ensures Utf16(c) == [high, low]
  {
    0x1_0000 + (high - 0xD800) * 0x400 + (low - 0xDC00)
  }

  /** The first code point of a string, unless it starts with a lone surrogate. */
  function FirstScalar(t: JsString): (c: Option<Scalar>)
    requires t != []
    ensures c.Some? ==> Utf16(c.value) <= t
    ensures WellFormedUtf16(t) ==> c.Some? && WellFormedUtf16(t[|Utf16(c.value)|..])
    ensures c.None? ==> !WellFormedUtf16(t)
  {
    if IsHighSurrogate(t[0]) then
      if |t| > 1 && IsLowSurrogate(t[1])
      then Some(Paired(t[0], t[1]))
      else None
    else if IsLowSurrogate(t[0]) then None
    else Some(t[0])
  }

  // ---------------------------------------------------------------- UTF-8

  /** How many continuation bytes a code point needs, and its leading byte. */
  function Continuations(c: Scalar): nat {
    if c < 0x80 then 0 else if c < 0x800 then 1 else if c < 0x1_0000 then 2 else 3
  }

  function LeadingByte(c: Scalar): Byte {
    if c < 0x80 then c
    else if c < 0x800 then 0xC0 + c / 0x40
    else if c < 0x1_0000 then 0xE0 + c / 0x1000
    else 0xF0 + c / 0x4_0000
  }

  /** The last `n` continuation bytes of a code point, six bits each. */
  function ContinuationBytes(c: nat, n: nat): (bytes: seq<Byte>)
    ensures |bytes| == n
  {
    if n == 0 then [] else ContinuationBytes(c / 0x40, n - 1) + [0x80 + c % 0x40]
  }

  function Utf8(c: Scalar): seq<Byte> {
    [LeadingByte(c)] + ContinuationBytes(c, Continuations(c))
  }

  // ------------------------------------------------------------- encoding

  /** The characters that `encodeURIComponent` keeps. */
  predicate IsUnreserved(u: CodeUnit) {
    65 <= u <= 90 || 97 <= u <= 122 || 48 <= u <= 57
    || u in [45, 95, 46, 33, 126, 42, 39, 40, 41]
  }

  function UpperHex(n: nat): CodeUnit
    requires n < 16
  {
    if n < 10 then 48 + n else 55 + n
  }

  function EscapeByte(b: Byte): JsString {
    [PERCENT, UpperHex(b / 16), UpperHex(b % 16)]
  }

  function EscapeBytes(bytes: seq<Byte>): JsString {
    if bytes == [] then [] else EscapeByte(bytes[0]) + EscapeBytes(bytes[1..])
  }

  function EncodeScalar(c: Scalar): JsString {
    if c < 0x80 && IsUnreserved(c) then [c] else EscapeBytes(Utf8(c))
  }

  /** `encodeURIComponent`; `None` is the `URIError` for a lone surrogate. */
  function Encode(t: JsString): Option<JsString>
    decreases |t|
  {
    if t == [] then Some([])
    else
      match FirstScalar(t)
      case None => None
      case Some(c) =>
        match Encode(t[|Utf16(c)|..])
        case None => None
        case Some(rest) => Some(EncodeScalar(c) + rest)
  }

  // ------------------------------------------------------------- decoding

  function HexValue(u: CodeUnit): Option<nat> {
    if 48 <= u <= 57 then Some(u - 48)
    else if 65 <= u <= 70 then Some(u - 55)
    else if 97 <= u <= 102 then Some(u - 87)
    else None
  }

  /** The byte of a `%XX` at the start of a string. */
  function ReadByte(t: JsString): (b: Option<Byte>)
    ensures b.Some? ==> |t| >= 3
  {
    if |t| < 3 || t[0] != PERCENT then None
    else
      match (HexValue(t[1]), HexValue(t[2]))
      case (Some(high), Some(low)) => (assert high < 16 && low < 16; Some(16 * high + low))
      case _ => None
  }

  /** A number and the text that follows it. */
  datatype Read = Read(value: nat, rest: JsString)

  /** `n` escaped continuation bytes, appended to the bits read so far. */
  function ReadContinuations(bits: nat, n: nat, t: JsString): (r: Option<Read>)
    ensures r.Some? ==> |r.value.rest| <= |t|
    decreases n
  {
    if n == 0 then Some(Read(bits, t))
    else
      match ReadByte(t)
      case Some(b) => if 0x80 <= b < 0xC0 then ReadContinuations(0x40 * bits + b - 0x80, n - 1, t[3..]) else None
      case None => None
  }

  /** The number of continuation bytes a leading byte announces. */
  function Announced(b: Byte): Option<nat> {
    if b < 0x80 then Some(0)
    else if 0xC0 <= b < 0xE0 then Some(1)
    else if 0xE0 <= b < 0xF0 then Some(2)
    else if 0xF0 <= b < 0xF8 then Some(3)
    else None
  }

  function LeadingBits(b: Byte, n: nat): int {
    if n == 0 then b else if n == 1 then b - 0xC0 else if n == 2 then b - 0xE0 else b - 0xF0
  }

  /** One escaped code point. Overlong forms, surrogates and values past the last code point
      are not UTF-8. */
  function ReadScalar(t: JsString): (r: Option<Read>)
    ensures r.Some? ==> IsScalar(r.value.value) && |r.value.rest| < |t|
  {
    match ReadByte(t)
    case None => None
    case Some(b) =>
      match Announced(b)
      case None => None
      case Some(n) =>
        match ReadContinuations(LeadingBits(b, n), n, t[3..])
        case None => None
        case Some(r) => if IsScalar(r.value) && Continuations(r.value) == n then Some(r) else None
  }

  function Prepend(s: JsString, t: Option<JsString>): Option<JsString> {
    match t
    case Some(rest) => Some(s + rest)
    case None => None
  }

  /** `decodeURIComponent`; `None` is the `URIError` for malformed percent-coding. */
  function Decode(t: JsString): Option<JsString>
    decreases |t|
  {
    if t == [] then Some([])
    else if t[0] != PERCENT then Prepend([t[0]], Decode(t[1..]))
    else
      match ReadScalar(t)
      case None => None
      case Some(r) => Prepend(Utf16(r.value), Decode(r.rest))
  }

  // ----------------------------------------------------------- round trip

  lemma ReadEscapedByte(b: Byte, rest: JsString)
    ensures ReadByte(EscapeByte(b) + rest) == Some(b)
    ensures (EscapeByte(b) + rest)[3..] == rest
  {
    var t := EscapeByte(b) + rest;
    assert t[0] == PERCENT && t[1] == UpperHex(b / 16) && t[2] == UpperHex(b % 16);
  }

  /** Bits followed by the last `n` groups of six bits of `c`. */
  function Shifted(bits: nat, c: nat, n: nat): nat {
    if n == 0 then bits else 0x40 * Shifted(bits, c / 0x40, n - 1) + c % 0x40
  }

  lemma EscapeBytesConcat(a: seq<Byte>, b: seq<Byte>)
    ensures EscapeBytes(a + b) == EscapeBytes(a) + EscapeBytes(b)
  {
    if a == [] {
      assert a + b == b;
    } else {
      assert (a + b)[1..] == a[1..] + b;
      EscapeBytesConcat(a[1..], b);
    }
  }

  /** Reading is done front to back, while the bits of a code point are split off back to
      front: reading k bytes and then one more. */
  lemma {:induction false} ReadOneMore(bits: nat, n: nat, t: JsString, b: Byte, rest: JsString)
    requires 0x80 <= b < 0xC0
    requires ReadContinuations(bits, n, t).Some? && ReadContinuations(bits, n, t).value.rest == EscapeByte(b) + rest
    ensures ReadContinuations(bits, n + 1, t)
         == Some(Read(0x40 * ReadContinuations(bits, n, t).value.value + b - 0x80, rest))
    decreases n
  {
    if n == 0 {
      ReadEscapedByte(b, rest);
      assert ReadContinuations(0x40 * bits + b - 0x80, 0, t[3..]) == Some(Read(0x40 * bits + b - 0x80, rest));
    } else {
      var first := ReadByte(t).value;
      ReadOneMore(0x40 * bits + first - 0x80, n - 1, t[3..], b, rest);
    }
  }

  lemma {:induction false} ReadContinuationBytes(bits: nat, c: nat, n: nat, rest: JsString)
    ensures ReadContinuations(bits, n, EscapeBytes(ContinuationBytes(c, n)) + rest)
         == Some(Read(Shifted(bits, c, n), rest))
    decreases n
  {
    if n == 0 {
      assert EscapeBytes(ContinuationBytes(c, n)) + rest == rest;
    } else {
      var init, b := ContinuationBytes(c / 0x40, n - 1), 0x80 + c % 0x40;
      EscapeBytesConcat(init, [b]);
      assert EscapeBytes([b]) == EscapeByte(b);
      var t := EscapeBytes(init) + (EscapeByte(b) + rest);
      assert EscapeBytes(ContinuationBytes(c, n)) + rest == t;
      ReadContinuationBytes(bits, c / 0x40, n - 1, EscapeByte(b) + rest);
      ReadOneMore(bits, n - 1, t, b, rest);
    }
  }

  /** The leading byte announces the continuation bytes, and holds the remaining bits. */
  lemma LeadingByteIsExact(c: Scalar)
    ensures Announced(LeadingByte(c)) == Some(Continuations(c))
    ensures LeadingBits(LeadingByte(c), Continuations(c)) >= 0
    ensures Shifted(LeadingBits(LeadingByte(c), Continuations(c)), c, Continuations(c)) == c
  {
    if c < 0x80 {
    } else if c < 0x800 {
      assert Shifted(c / 0x40, c, 1) == 0x40 * Shifted(c / 0x40, c / 0x40, 0) + c % 0x40;
    } else if c < 0x1_0000 {
      SplitTwice(c, c / 0x1000);
    } else {
      SplitTwice(c / 0x40, c / 0x4_0000);
      assert Shifted(c / 0x4_0000, c, 3) == 0x40 * Shifted(c / 0x4_0000, c / 0x40, 2) + c % 0x40;
    }
  }

  lemma SplitTwice(c: nat, bits: nat)
    requires bits == c / 0x1000
    ensures Shifted(bits, c, 2) == c
  {
    assert Shifted(bits, c / 0x40, 1) == 0x40 * Shifted(bits, c / 0x40 / 0x40, 0) + c / 0x40 % 0x40;
    assert c / 0x40 / 0x40 == c / 0x1000;
  }

  lemma ReadEncodedScalar(c: Scalar, rest: JsString)
    ensures ReadScalar(EscapeBytes(Utf8(c)) + rest) == Some(Read(c, rest))
  {
    var lead, tail := LeadingByte(c), ContinuationBytes(c, Continuations(c));
    EscapeBytesConcat([lead], tail);
    assert EscapeBytes([lead]) == EscapeByte(lead);
    var t := EscapeBytes(tail) + rest;
    assert EscapeBytes(Utf8(c)) + rest == EscapeByte(lead) + t;
    ReadEscapedByte(lead, t);
    LeadingByteIsExact(c);
    ReadContinuationBytes(LeadingBits(lead, Continuations(c)), c, Continuations(c), rest);
  }

  lemma DecodeScalar(c: Scalar, rest: JsString)
    ensures Decode(EncodeScalar(c) + rest) == Prepend(Utf16(c), Decode(rest))
  {
    var t := EncodeScalar(c) + rest;
    if c < 0x80 && IsUnreserved(c) {
      assert t[0] == c && t[1..] == rest;
    } else {
      ReadEncodedScalar(c, rest);
      assert EscapeBytes(Utf8(c))[0] == PERCENT;
      assert t[0] == PERCENT;
    }
  }

  /** `encodeURIComponent` fails exactly on lone surrogates, and `decodeURIComponent` undoes it. */
  lemma {:induction false} EncodeRoundTrip(t: JsString)
    ensures Encode(t).Some? <==> WellFormedUtf16(t)
    ensures Encode(t).Some? ==> Decode(Encode(t).value) == Some(t)
    decreases |t|
  {
    if t != [] && FirstScalar(t).Some? {
      var c := FirstScalar(t).value;
      var rest := t[|Utf16(c)|..];
      EncodeRoundTrip(rest);
      assert t == Utf16(c) + rest;
      WellFormedTail(t, c);
      if Encode(rest).Some? {
        DecodeScalar(c, Encode(rest).value);
      }
    }
  }

  lemma WellFormedTail(t: JsString, c: Scalar)
    requires t != [] && FirstScalar(t) == Some(c)
    ensures WellFormedUtf16(t) <==> WellFormedUtf16(t[|Utf16(c)|..])
  {
  }

  /** What `encodeURIComponent` prints: unreserved characters and escapes. */
  predicate IsPrinted(u: CodeUnit) {
    IsUnreserved(u) || u == PERCENT
  }

  lemma {:induction false} EscapesArePrinted(bytes: seq<Byte>)
    ensures forall i :: 0 <= i < |EscapeBytes(bytes)| ==> IsPrinted(EscapeBytes(bytes)[i])
  {
    if bytes != [] {
      EscapesArePrinted(bytes[1..]);
      var first := EscapeByte(bytes[0]);
      assert IsPrinted(first[0]) && IsPrinted(first[1]) && IsPrinted(first[2]);
    }
  }

  lemma {:induction false} EncodedIsPrinted(t: JsString)
    requires Encode(t).Some?
    ensures forall i :: 0 <= i < |Encode(t).value| ==> IsPrinted(Encode(t).value[i])
    ensures t != [] ==> Encode(t).value != []
    decreases |t|
  {
    if t != [] {
      var c := FirstScalar(t).value;
      EncodedIsPrinted(t[|Utf16(c)|..]);
      EscapesArePrinted(Utf8(c));
      assert EncodeScalar(c) != [] by {
        assert EscapeBytes(Utf8(c)) == EscapeByte(Utf8(c)[0]) + EscapeBytes(Utf8(c)[1..]);
      }
    }
  }

  lemma EncodeIsInjective(s: JsString, t: JsString)
    requires Encode(s).Some? && Encode(s) == Encode(t)
    ensures s == t
  {
    EncodeRoundTrip(s);
    EncodeRoundTrip(t);
  }
}
