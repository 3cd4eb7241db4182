/** Percent-coding against its standards: the unreserved characters and escapes of
    `encodeURIComponent`, the bytes of RFC 3629, and what `decodeURIComponent` accepts. */
module PercentCoding {
  import opened JsText
  import opened Canonical
  import opened UriComponent
  import opened EncodedTexts

  const HEX: JsString := Js("0123456789ABCDEF")
  const HEX_LOWER: JsString := Js("0123456789abcdef")

  lemma HexIs(n: nat)
    requires n < 16
    ensures |HEX| == 16 && HEX[n] == (if n < 10 then 48 + n else 55 + n)
    ensures |HEX_LOWER| == 16 && HEX_LOWER[n] == (if n < 10 then 48 + n else 87 + n)
  {
    assert "0123456789ABCDEF"[n] as int == if n < 10 then 48 + n else 55 + n;
    assert "0123456789abcdef"[n] as int == if n < 10 then 48 + n else 87 + n;
  }

  /** An escape is a percent sign and the two upper-case hexadecimal digits of a byte. */
  lemma EscapeIs(b: Byte)
    ensures |HEX| == 16 && EscapeByte(b) == Js("%") + [HEX[b / 16], HEX[b % 16]]
  {
    HexIs(b / 16);
    HexIs(b % 16);
  }

  /** Digits of either case are read. */
  lemma DigitsAreRead(u: CodeUnit, n: nat)
    ensures |HEX| == 16 && |HEX_LOWER| == 16
    ensures HexValue(u) == Some(n) <==> n < 16 && (u == HEX[n] || u == HEX_LOWER[n])
  {
    HexIs(if n < 16 then n else 0);
  }

  lemma UnreservedAre(u: CodeUnit)
    ensures IsUnreserved(u) <==> u in UPPER || u in LOWER || u in TEN || u in Js("-_.!~*'()")
  {
    assert Js("-_.!~*'()") == [45, 95, 46, 33, 126, 42, 39, 40, 41];
    LettersAndDigits(u);
  }

  // ------------------------------------------------------------------- UTF-8

  predicate IsTrailing(b: Byte) {
    0x80 <= b < 0xC0
  }

  /** Bits, and the six of a trailing byte after them. */
  function SixMore(bits: int, b: Byte): int {
    0x40 * bits + (b as int - 0x80)
  }

  /** The bytes of a code point: their number by its size, the leading byte's mark, and the bits
      of all of them put together. */
  predicate Utf8Of(c: Scalar, b: seq<Byte>) {
    if c < 0x80 then |b| == 1 && b[0] == c
    else if c < 0x800 then
      |b| == 2 && 0xC0 <= b[0] < 0xE0 && IsTrailing(b[1]) && SixMore(b[0] as int - 0xC0, b[1]) == c
    else if c < 0x1_0000 then
      |b| == 3 && 0xE0 <= b[0] < 0xF0 && IsTrailing(b[1]) && IsTrailing(b[2])
      && SixMore(SixMore(b[0] as int - 0xE0, b[1]), b[2]) == c
    else
      |b| == 4 && 0xF0 <= b[0] < 0xF8 && IsTrailing(b[1]) && IsTrailing(b[2]) && IsTrailing(b[3])
      && SixMore(SixMore(SixMore(b[0] as int - 0xF0, b[1]), b[2]), b[3]) == c
  }

  lemma OneTrails(c: nat)
    ensures ContinuationBytes(c, 1) == [0x80 + c % 0x40]
  {
    assert ContinuationBytes(c / 0x40, 0) == [];
  }

  lemma TwoTrail(c: nat)
    ensures ContinuationBytes(c, 2) == [0x80 + c / 0x40 % 0x40, 0x80 + c % 0x40]
  {
    OneTrails(c / 0x40);
  }

  lemma ThreeTrail(c: nat)
    ensures ContinuationBytes(c, 3) == [0x80 + c / 0x1000 % 0x40, 0x80 + c / 0x40 % 0x40, 0x80 + c % 0x40]
  {
    TwoTrail(c / 0x40);
    assert c / 0x40 / 0x40 == c / 0x1000;
  }

  lemma BitsOfThree(c: nat)
    ensures 0x1000 * (c / 0x1000) + 0x40 * (c / 0x40 % 0x40) + c % 0x40 == c
  {
    assert c / 0x40 / 0x40 == c / 0x1000;
  }

  lemma Utf8IsPacked(c: Scalar)
    ensures Utf8Of(c, Utf8(c))
  {
    OneTrails(c);
    TwoTrail(c);
    ThreeTrail(c);
    BitsOfThree(c);
    BitsOfThree(c / 0x40);
    assert c / 0x40 / 0x1000 == c / 0x4_0000 && c / 0x40 / 0x40 == c / 0x1000;
  }

  lemma LastSix(bits: int, b: Byte)
    requires bits >= 0 && IsTrailing(b)
    ensures SixMore(bits, b) / 0x40 == bits && 0x80 + SixMore(bits, b) % 0x40 == b as int
  {
  }

  lemma PackedIsUtf8(c: Scalar, b: seq<Byte>)
    requires Utf8Of(c, b)
    ensures b == Utf8(c)
  {
    OneTrails(c);
    TwoTrail(c);
    ThreeTrail(c);
    if 0x80 <= c < 0x800 {
      LastSix(b[0] as int - 0xC0, b[1]);
    } else if 0x800 <= c < 0x1_0000 {
      PackedInThree(c, b);
    } else if 0x1_0000 <= c {
      PackedInFour(c, b);
    }
  }

  lemma PackedInThree(c: Scalar, b: seq<Byte>)
    requires Utf8Of(c, b) && 0x800 <= c < 0x1_0000
    ensures b == [0xE0 + c / 0x1000, 0x80 + c / 0x40 % 0x40, 0x80 + c % 0x40]
  {
    LastSix(b[0] as int - 0xE0, b[1]);
    LastSix(SixMore(b[0] as int - 0xE0, b[1]), b[2]);
    assert c / 0x40 / 0x40 == c / 0x1000;
  }

  lemma PackedInFour(c: Scalar, b: seq<Byte>)
    requires Utf8Of(c, b) && 0x1_0000 <= c
    ensures b == [0xF0 + c / 0x4_0000, 0x80 + c / 0x1000 % 0x40, 0x80 + c / 0x40 % 0x40, 0x80 + c % 0x40]
  {
    var two := SixMore(b[0] as int - 0xF0, b[1]);
    LastSix(b[0] as int - 0xF0, b[1]);
    LastSix(two, b[2]);
    LastSix(SixMore(two, b[2]), b[3]);
    assert c / 0x40 / 0x40 == c / 0x1000 && c / 0x1000 / 0x40 == c / 0x4_0000;
  }

  /** The one or two code units of a code point. */
  lemma Utf16IsPacked(c: Scalar)
    ensures c < 0x1_0000 ==> Utf16(c) == [c]
    ensures c >= 0x1_0000 ==>
      && |Utf16(c)| == 2 && 0xD800 <= Utf16(c)[0] < 0xDC00 && 0xDC00 <= Utf16(c)[1] < 0xE000
      && 0x400 * (Utf16(c)[0] as int - 0xD800) + (Utf16(c)[1] as int - 0xDC00) == c as int - 0x1_0000
  {
  }

  // ---------------------------------------------------------------- encoding

  /** Encoding writes one code point after the other: an unreserved one as itself, any other as
      the escapes of its bytes. */
  lemma EncodeIs(c: Scalar, t: JsString)
    ensures Encode(Utf16(c) + t) == Prepend(if c < 0x80 && IsUnreserved(c) then [c] else EscapeBytes(Utf8(c)), Encode(t))
  {
    var s := Utf16(c) + t;
    assert s[|Utf16(c)|..] == t;
    assert FirstScalar(s) == Some(c);
  }

  // ---------------------------------------------------------------- decoding

  /** A text starts with the escapes of some bytes, in digits of either case. */
  predicate Spells(t: JsString, bytes: seq<Byte>) {
    bytes == [] || (ReadByte(t) == Some(bytes[0]) && Spells(t[3..], bytes[1..]))
  }

  lemma {:induction false} SpellsItsLength(t: JsString, bytes: seq<Byte>)
    requires Spells(t, bytes)
    ensures |t| >= 3 * |bytes|
  {
    if bytes != [] {
      SpellsItsLength(t[3..], bytes[1..]);
    }
  }

  /** Reading n continuation bytes: the bits before, then six more for each. */
  predicate Trails(bits: nat, bytes: seq<Byte>, value: nat)
    decreases bytes
  {
    if bytes == [] then value == bits
    else IsTrailing(bytes[0]) && Trails(SixMore(bits, bytes[0]), bytes[1..], value)
  }

  lemma {:induction false} ReadsWhatIsSpelled(bits: nat, t: JsString, bytes: seq<Byte>, value: nat)
    requires Spells(t, bytes) && Trails(bits, bytes, value)
    ensures |t| >= 3 * |bytes| && ReadContinuations(bits, |bytes|, t) == Some(Read(value, t[3 * |bytes|..]))
    decreases bytes
  {
    if bytes != [] {
      ReadsWhatIsSpelled(SixMore(bits, bytes[0]), t[3..], bytes[1..], value);
      assert t[3..][3 * |bytes[1..]|..] == t[3 * |bytes|..];
    } else {
      assert t[0..] == t;
    }
  }

  /** The bytes that were read. */
  lemma {:induction false} SpelledWhenRead(bits: nat, n: nat, t: JsString) returns (bytes: seq<Byte>)
    requires ReadContinuations(bits, n, t).Some?
    ensures |bytes| == n && Spells(t, bytes) && Trails(bits, bytes, ReadContinuations(bits, n, t).value.value)
    decreases n
  {
    if n == 0 {
      bytes := [];
    } else {
      var b := ReadByte(t).value;
      var rest := SpelledWhenRead(SixMore(bits, b), n - 1, t[3..]);
      bytes := [b] + rest;
      assert bytes[1..] == rest;
    }
  }

  lemma LeadAndTrail(c: Scalar)
    ensures var b := Utf8(c); Announced(b[0]) == Some(|b| - 1) && LeadingBits(b[0], |b| - 1) >= 0
    ensures var b := Utf8(c); Trails(LeadingBits(b[0], |b| - 1), b[1..], c)
  {
    Utf8IsPacked(c);
    var b := Utf8(c);
    var bits := LeadingBits(b[0], |b| - 1);
    if |b| == 2 {
      TrailsOne(bits, b[1], c);
    } else if |b| == 3 {
      TrailsTwo(bits, b[1], b[2], c);
    } else if |b| == 4 {
      TrailsThree(bits, b[1], b[2], b[3], c);
    }
  }

  lemma TrailsOne(bits: nat, a: Byte, c: nat)
    ensures Trails(bits, [a], c) <==> IsTrailing(a) && c == SixMore(bits, a)
  {
    assert [a][1..] == [];
  }

  lemma TrailsTwo(bits: nat, a: Byte, b: Byte, c: nat)
    ensures Trails(bits, [a, b], c) <==> IsTrailing(a) && IsTrailing(b) && c == SixMore(SixMore(bits, a), b)
  {
    assert [a, b][1..] == [b];
    if IsTrailing(a) {
      TrailsOne(SixMore(bits, a), b, c);
    }
  }

  lemma TrailsThree(bits: nat, a: Byte, b: Byte, d: Byte, c: nat)
    ensures Trails(bits, [a, b, d], c)
       <==> IsTrailing(a) && IsTrailing(b) && IsTrailing(d) && c == SixMore(SixMore(SixMore(bits, a), b), d)
  {
    assert [a, b, d][1..] == [b, d];
    if IsTrailing(a) {
      TrailsTwo(SixMore(bits, a), b, d, c);
    }
  }

  /** A text that starts with the escapes of a code point's bytes decodes to the code point and
      whatever follows. */
  lemma SpelledIsDecoded(t: JsString, c: Scalar)
    requires Spells(t, Utf8(c))
    ensures |t| >= 3 * |Utf8(c)| && Decode(t) == Prepend(Utf16(c), Decode(t[3 * |Utf8(c)|..]))
  {
    var b := Utf8(c);
    LeadAndTrail(c);
    ReadsWhatIsSpelled(LeadingBits(b[0], |b| - 1), t[3..], b[1..], c);
    assert t[3..][3 * |b[1..]|..] == t[3 * |b|..];
  }

  ghost predicate SpellsSome(t: JsString) {
    exists c: Scalar :: Spells(t, Utf8(c))
  }

  /** A text that starts with a percent sign and with no code point's escapes does not decode. */
  lemma MalformedIsRefused(t: JsString)
    requires t != [] && t[0] == 37 && !SpellsSome(t)
    ensures Decode(t) == None
  {
    if ReadScalar(t).Some? {
      ReadIsSpelled(t);
    }
  }

  lemma ReadIsSpelled(t: JsString)
    requires ReadScalar(t).Some?
    ensures Spells(t, Utf8(ReadScalar(t).value.value))
  {
    var b := ReadByte(t).value;
    var n := Announced(b).value;
    var tail := SpelledWhenRead(LeadingBits(b, n), n, t[3..]);
    ReadIsUtf8(b, tail, ReadScalar(t).value.value);
    assert ([b] + tail)[1..] == tail;
  }

  lemma ReadIsUtf8(b: Byte, tail: seq<Byte>, c: Scalar)
    requires Announced(b) == Some(|tail|) && Trails(LeadingBits(b, |tail|), tail, c) && Continuations(c) == |tail|
    ensures [b] + tail == Utf8(c)
  {
    var bits := LeadingBits(b, |tail|);
    if |tail| == 1 {
      TrailsOne(bits, tail[0], c);
    } else if |tail| == 2 {
      assert tail == [tail[0], tail[1]];
      TrailsTwo(bits, tail[0], tail[1], c);
    } else if |tail| == 3 {
      assert tail == [tail[0], tail[1], tail[2]];
      TrailsThree(bits, tail[0], tail[1], tail[2], c);
    }
    PackedIsUtf8(c, [b] + tail);
  }

  /** Anything else stands for itself. */
  lemma {:induction false} UnescapedIsKept(t: JsString, rest: JsString)
    requires 37 !in t
    ensures Decode(t + rest) == Prepend(t, Decode(rest))
  {
    if t == [] {
      assert t + rest == rest;
      assert Decode(rest).Some? ==> t + Decode(rest).value == Decode(rest).value;
    } else {
      UnescapedIsKept(t[1..], rest);
      assert (t + rest)[1..] == t[1..] + rest;
      assert [t[0]] + t[1..] == t;
      assert Decode(rest).Some? ==> [t[0]] + (t[1..] + Decode(rest).value) == t + Decode(rest).value;
    }
  }
}
