/** Base64 and base64url (sections 4 and 5 of RFC 4648), the forgiving decoder `atob`, and the
    decoder that the leak scanner builds on it (src/adapters/auth-md/profiles.ts). */
module Base64 {
  import opened JsText

  type Sextet = q: int | 0 <= q < 64

  const EQUALS: CodeUnit := 61
  const PLUS: CodeUnit := 43
  const HYPHEN: CodeUnit := 45
  const SOLIDUS: CodeUnit := 47
  const LOW_LINE: CodeUnit := 95

  datatype Alphabet = Standard | UrlSafe

  function Letter(alphabet: Alphabet, q: Sextet): CodeUnit {
    if q < 26 then 65 + q
    else if q < 52 then 71 + q
    else if q < 62 then q - 4
    else if q == 62 then (if alphabet.Standard? then PLUS else HYPHEN)
    else if alphabet.Standard? then SOLIDUS else LOW_LINE
  }

  predicate IsLetter(u: CodeUnit) {
    65 <= u <= 90 || 97 <= u <= 122 || 48 <= u <= 57 || u == PLUS || u == SOLIDUS
  }

  predicate AllLetters(t: JsString) {
    forall i :: 0 <= i < |t| ==> IsLetter(t[i])
  }

  function SextetOf(u: CodeUnit): (q: Sextet)
    requires IsLetter(u)
  {
    if 65 <= u <= 90 then u - 65
    else if 97 <= u <= 122 then u - 71
    else if 48 <= u <= 57 then u + 4
    else if u == PLUS then 62
    else 63
  }

  // ------------------------------------------------------------- encoding

  function FirstSextet(a: Byte): Sextet {
    a / 4
  }

  function SecondSextet(a: Byte, b: Byte): Sextet {
    a % 4 * 16 + b / 16
  }

  function ThirdSextet(b: Byte, c: Byte): Sextet {
    b % 16 * 4 + c / 64
  }

  function FourthSextet(c: Byte): Sextet {
    c % 64
  }

  /** Six bits at a time; a final group of one or two bytes is filled with zero bits. */
  function Sextets(bytes: seq<Byte>): (q: seq<Sextet>)
    ensures |q| % 4 != 1
  {
    if bytes == [] then []
    else if |bytes| == 1 then [FirstSextet(bytes[0]), SecondSextet(bytes[0], 0)]
    else if |bytes| == 2 then
      [FirstSextet(bytes[0]), SecondSextet(bytes[0], bytes[1]), ThirdSextet(bytes[1], 0)]
    else
      [FirstSextet(bytes[0]), SecondSextet(bytes[0], bytes[1]), ThirdSextet(bytes[1], bytes[2]),
       FourthSextet(bytes[2])]
      + Sextets(bytes[3..])
  }

  function Letters(alphabet: Alphabet, q: seq<Sextet>): (t: JsString)
    ensures |t| == |q|
  {
    seq(|q|, i requires 0 <= i < |q| => Letter(alphabet, q[i]))
  }

  function Padding(n: nat): (t: JsString)
    ensures |t| == n && forall i :: 0 <= i < n ==> t[i] == EQUALS
  {
    seq(n, i => EQUALS)
  }

  /** How many padding characters complete a text of length n. */
  function Missing(n: nat): nat {
    (4 - n % 4) % 4
  }

  function Encode(alphabet: Alphabet, padded: bool, bytes: seq<Byte>): JsString {
    var letters := Letters(alphabet, Sextets(bytes));
    letters + Padding(if padded then Missing(|letters|) else 0)
  }

  // ------------------------------------------------------------- decoding

  function FirstByte(p: Sextet, q: Sextet): Byte {
    p as int * 4 + q as int / 16
  }

  function SecondByte(q: Sextet, r: Sextet): Byte {
    q as int % 16 * 16 + r as int / 4
  }

  function ThirdByte(r: Sextet, t: Sextet): Byte {
    r as int % 4 * 64 + t as int
  }

  /** The bytes that groups of six bits make up, dropping the bits left over. */
  function Bytes(q: seq<Sextet>): seq<Byte>
    requires |q| % 4 != 1
  {
    if q == [] then []
    else if |q| == 2 then [FirstByte(q[0], q[1])]
    else if |q| == 3 then [FirstByte(q[0], q[1]), SecondByte(q[1], q[2])]
    else [FirstByte(q[0], q[1]), SecondByte(q[1], q[2]), ThirdByte(q[2], q[3])] + Bytes(q[4..])
  }

  function SextetsOf(t: JsString): (q: seq<Sextet>)
    requires AllLetters(t)
    ensures |q| == |t|
  {
    seq(|t|, i requires 0 <= i < |t| => SextetOf(t[i]))
  }

  /** A text without up to two final padding characters. */
  function DropPadding(t: JsString): JsString {
    if t == [] || t[|t| - 1] != EQUALS then t
    else
      var init := t[..|t| - 1];
      if init == [] || init[|init| - 1] != EQUALS then init else init[..|init| - 1]
  }

  /** `atob` on texts without white space; `None` is the `InvalidCharacterError`. */
  function Atob(t: JsString): Option<seq<Byte>> {
    var data := if |t| % 4 == 0 then DropPadding(t) else t;
    if |data| % 4 == 1 || !AllLetters(data) then None else Some(Bytes(SextetsOf(data)))
  }

  /** `token.replace(/-/g, "+").replace(/_/g, "/")`. */
  function Normalize(t: JsString): (r: JsString)
    ensures |r| == |t|
  {
    seq(|t|, i requires 0 <= i < |t| => if t[i] == HYPHEN then PLUS else if t[i] == LOW_LINE then SOLIDUS else t[i])
  }

  predicate IsPrintable(b: int) {
    b == 9 || b == 10 || b == 13 || 32 <= b <= 126
  }

  predicate AllPrintable(bytes: seq<Byte>) {
    bytes != [] && forall i :: 0 <= i < |bytes| ==> IsPrintable(bytes[i])
  }

  /** The string whose code units are given bytes. */
  function Text(bytes: seq<Byte>): (t: JsString)
    ensures |t| == |bytes| && forall i :: 0 <= i < |t| ==> t[i] == bytes[i]
  {
    seq(|bytes|, i requires 0 <= i < |bytes| => bytes[i])
  }

  /** `decodeBase64Like`: letters, at most two padding characters, and a printable result. */
  function DecodeBase64Like(token: JsString): Option<JsString> {
    var normalized := Normalize(token);
    var body := DropPadding(normalized);
    if body == [] || !AllLetters(body) then None
    else
      match Atob(normalized + Padding(Missing(|normalized|)))
      case Some(bytes) => if AllPrintable(bytes) then Some(Text(bytes)) else None
      case None => None
  }

  // ----------------------------------------------------------- round trip

  lemma FirstByteIsRestored(a: Byte, b: Byte)
    ensures FirstByte(FirstSextet(a), SecondSextet(a, b)) == a
  {
  }

  lemma SecondByteIsRestored(a: Byte, b: Byte, c: Byte)
    ensures SecondByte(SecondSextet(a, b), ThirdSextet(b, c)) == b
  {
    var high, low := b / 16, b % 16;
    assert SecondSextet(a, b) as int % 16 == high by {
      assert 0 <= high < 16;
    }
    assert ThirdSextet(b, c) as int / 4 == low by {
      assert 0 <= c / 64 < 4;
    }
  }

  lemma ThirdByteIsRestored(b: Byte, c: Byte)
    ensures ThirdByte(ThirdSextet(b, c), FourthSextet(c)) == c
  {
  }

  lemma BytesOfGroup(p: Sextet, q: Sextet, r: Sextet, t: Sextet, rest: seq<Sextet>)
    requires |rest| % 4 != 1
    ensures Bytes([p, q, r, t] + rest) == [FirstByte(p, q), SecondByte(q, r), ThirdByte(r, t)] + Bytes(rest)
  {
    assert ([p, q, r, t] + rest)[4..] == rest;
  }

  lemma BytesOfShort(bytes: seq<Byte>)
    requires |bytes| < 3
    ensures Bytes(Sextets(bytes)) == bytes
  {
    if |bytes| == 1 {
      FirstByteIsRestored(bytes[0], 0);
    } else if |bytes| == 2 {
      FirstByteIsRestored(bytes[0], bytes[1]);
      SecondByteIsRestored(bytes[0], bytes[1], 0);
    }
  }

  lemma RestoredGroup(a: Byte, b: Byte, c: Byte, rest: seq<Sextet>)
    requires |rest| % 4 != 1
    ensures Bytes([FirstSextet(a), SecondSextet(a, b), ThirdSextet(b, c), FourthSextet(c)] + rest)
         == [a, b, c] + Bytes(rest)
  {
    BytesOfGroup(FirstSextet(a), SecondSextet(a, b), ThirdSextet(b, c), FourthSextet(c), rest);
    FirstByteIsRestored(a, b);
    SecondByteIsRestored(a, b, c);
    ThirdByteIsRestored(b, c);
  }

  lemma {:induction false} BytesOfSextets(bytes: seq<Byte>)
    ensures Bytes(Sextets(bytes)) == bytes
  {
    if |bytes| < 3 {
      BytesOfShort(bytes);
    } else {
      BytesOfSextets(bytes[3..]);
      RestoredGroup(bytes[0], bytes[1], bytes[2], Sextets(bytes[3..]));
      assert bytes == [bytes[0], bytes[1], bytes[2]] + bytes[3..];
    }
  }

  lemma NormalizedLetters(alphabet: Alphabet, q: seq<Sextet>)
    ensures Normalize(Letters(alphabet, q)) == Letters(Standard, q)
  {
  }

  lemma StandardLetters(q: seq<Sextet>)
    ensures AllLetters(Letters(Standard, q)) && SextetsOf(Letters(Standard, q)) == q
  {
  }

  lemma NormalizedPadding(t: JsString, n: nat)
    ensures Normalize(t + Padding(n)) == Normalize(t) + Padding(n)
  {
  }

  lemma PaddingDrops(body: JsString, n: nat)
    requires n <= 2 && AllLetters(body)
    ensures DropPadding(body + Padding(n)) == body
  {
    var t := body + Padding(n);
    if n == 0 {
      assert t == body;
    } else if n == 1 {
      assert t[..|t| - 1] == body;
    } else {
      assert t[..|t| - 1][..|t| - 2] == body;
    }
  }

  lemma AtobOfPadded(t: JsString, data: JsString)
    requires |t| % 4 == 0 && DropPadding(t) == data
    requires |data| % 4 != 1 && AllLetters(data)
    ensures Atob(t) == Some(Bytes(SextetsOf(data)))
  {
  }

  lemma AtobUndoesEncoding(bytes: seq<Byte>)
    ensures var letters := Letters(Standard, Sextets(bytes));
      Atob(letters + Padding(Missing(|letters|))) == Some(bytes)
  {
    var q := Sextets(bytes);
    StandardLetters(q);
    MissingCompletes(|q|);
    PaddingDrops(Letters(Standard, q), Missing(|q|));
    AtobOfPadded(Letters(Standard, q) + Padding(Missing(|q|)), Letters(Standard, q));
    BytesOfSextets(bytes);
  }

  lemma MissingCompletes(n: nat)
    requires n % 4 != 1
    ensures (n + Missing(n)) % 4 == 0 && Missing(n) <= 2
  {
  }

  lemma PaddingCompletes(letters: JsString, n: nat)
    requires |letters| % 4 != 1 && (n == 0 || n == Missing(|letters|))
    ensures n <= 2
    ensures letters + Padding(n) + Padding(Missing(|letters + Padding(n)|)) == letters + Padding(Missing(|letters|))
  {
  }

  /** Whichever alphabet, padded or not: the scanner's decoder undoes the encoding of any
      printable text. */
  lemma DecodeUndoesEncode(alphabet: Alphabet, padded: bool, bytes: seq<Byte>)
    requires AllPrintable(bytes)
    ensures DecodeBase64Like(Encode(alphabet, padded, bytes)) == Some(Text(bytes))
  {
    var q := Sextets(bytes);
    var letters := Letters(Standard, q);
    var n := if padded then Missing(|letters|) else 0;
    var normalized := Normalize(Encode(alphabet, padded, bytes));
    assert normalized == letters + Padding(n) by {
      NormalizedPadding(Letters(alphabet, q), n);
      NormalizedLetters(alphabet, q);
    }
    StandardLetters(q);
    PaddingCompletes(letters, n);
    PaddingDrops(letters, n);
    AtobUndoesEncoding(bytes);
    assert letters != [];
  }

  /** The characters of a token: letters of both alphabets, and padding. */
  predicate IsTokenUnit(u: CodeUnit) {
    IsLetter(u) || u == HYPHEN || u == LOW_LINE || u == EQUALS
  }

  lemma EncodingIsToken(alphabet: Alphabet, padded: bool, bytes: seq<Byte>)
    ensures forall i :: 0 <= i < |Encode(alphabet, padded, bytes)| ==> IsTokenUnit(Encode(alphabet, padded, bytes)[i])
  {
  }
}
