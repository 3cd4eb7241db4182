/** The two encodings the scanner and the resource URIs read, against the alphabets and the
    numbers of their standards: base64 (tables 1 and 2 of RFC 4648) and percent-coded UTF-8
    (section 2 of RFC 3986, section 3 of RFC 3629). */
module EncodedTexts {
  import opened JsText
  import opened Decimal
  import opened Base64
  import U = UriComponent
  import LeakScanner

  // -------------------------------------------------------------- alphabets

  const UPPER: JsString := Js("ABCDEFGHIJKLMNOPQRSTUVWXYZ")
  const LOWER: JsString := Js("abcdefghijklmnopqrstuvwxyz")
  const TEN: JsString := Js("0123456789")

  lemma UpperIs(i: nat)
    requires i < 26
    ensures |UPPER| == 26 && UPPER[i] == 65 + i
  {
    assert "ABCDEFGHIJKLMNOPQRSTUVWXYZ"[i] as int == 65 + i;
  }

  lemma LowerIs(i: nat)
    requires i < 26
    ensures |LOWER| == 26 && LOWER[i] == 97 + i
  {
    assert "abcdefghijklmnopqrstuvwxyz"[i] as int == 97 + i;
  }

  lemma TenIs(i: nat)
    requires i < 10
    ensures |TEN| == 10 && TEN[i] == 48 + i
  {
    assert "0123456789"[i] as int == 48 + i;
  }

  /** The 64 letters: upper case, lower case, digits, and two that depend on the alphabet. */
  function Table(alphabet: Alphabet): JsString {
    UPPER + LOWER + TEN + (if alphabet.Standard? then Js("+/") else Js("-_"))
  }

  lemma PartsOfTable(alphabet: Alphabet, i: nat)
    requires i < 64
    ensures |Table(alphabet)| == 64
    ensures i < 26 ==> Table(alphabet)[i] == 65 + i
    ensures 26 <= i < 52 ==> Table(alphabet)[i] == 97 + (i - 26)
    ensures 52 <= i < 62 ==> Table(alphabet)[i] == 48 + (i - 52)
    ensures i == 62 ==> Table(alphabet)[i] == if alphabet.Standard? then 43 else 45
    ensures i == 63 ==> Table(alphabet)[i] == if alphabet.Standard? then 47 else 95
  {
    var two := if alphabet.Standard? then Js("+/") else Js("-_");
    if i < 26 {
      UpperIs(i);
      assert (UPPER + LOWER + TEN + two)[i] == UPPER[i];
    } else if i < 52 {
      LowerIs(i - 26);
      assert (UPPER + LOWER + TEN + two)[i] == LOWER[i - 26];
    } else if i < 62 {
      TenIs(i - 52);
      assert (UPPER + LOWER + TEN + two)[i] == TEN[i - 52];
    } else {
      assert (UPPER + LOWER + TEN + two)[i] == two[i - 62];
    }
  }

  /** Encoding writes the letter of the alphabet with that number, and decoding reads it back,
      in either alphabet. */
  lemma LettersAreTabulated(alphabet: Alphabet, q: nat)
    requires q < 64
    ensures |Table(alphabet)| == 64 && Letter(alphabet, q) == Table(alphabet)[q]
    ensures var u := Normalize([Table(alphabet)[q]])[0]; IsLetter(u) && SextetOf(u) == q
  {
    PartsOfTable(alphabet, q);
  }

  /** And nothing else is a letter. */
  lemma OnlyLettersAreTabulated(u: CodeUnit)
    ensures IsLetter(Normalize([u])[0]) <==> u in Table(Standard) || u in Table(UrlSafe)
  {
    if u in Table(Standard) {
      var i :| 0 <= i < |Table(Standard)| && Table(Standard)[i] == u;
      PartsOfTable(Standard, i);
    }
    if u in Table(UrlSafe) {
      var i :| 0 <= i < |Table(UrlSafe)| && Table(UrlSafe)[i] == u;
      PartsOfTable(UrlSafe, i);
    }
    if IsLetter(Normalize([u])[0]) {
      var q: nat := SextetOf(Normalize([u])[0]);
      PartsOfTable(Standard, q);
      PartsOfTable(UrlSafe, q);
    }
  }

  // ------------------------------------------------------------------ bytes

  function Sum4(p: Sextet, q: Sextet, r: Sextet, t: Sextet): nat {
    0x4_0000 * p as int + 0x1000 * q as int + 0x40 * r as int + t as int
  }

  function Sum3(a: Byte, b: Byte, c: Byte): nat {
    0x1_0000 * a as int + 0x100 * b as int + c as int
  }

  lemma FourMakeThree(p: Sextet, q: Sextet, r: Sextet, t: Sextet)
    ensures Sum3(FirstByte(p, q), SecondByte(q, r), ThirdByte(r, t)) == Sum4(p, q, r, t)
  {
    assert q as int == q as int / 16 * 16 + q as int % 16;
    assert r as int == r as int / 4 * 4 + r as int % 4;
  }

  /** The bytes of some letters are given ones, then those of the letters left over. */
  ghost predicate Unpacks(q: seq<Sextet>, front: seq<Byte>, rest: seq<Sextet>) {
    |q| % 4 != 1 && |rest| % 4 != 1 && Bytes(q) == front + Bytes(rest)
  }

  lemma FirstGroup(q: seq<Sextet>) returns (head: seq<Byte>)
    requires |q| % 4 != 1 && |q| >= 4
    ensures |head| == 3 && Unpacks(q, head, q[4..])
    ensures Sum3(head[0], head[1], head[2]) == Sum4(q[0], q[1], q[2], q[3])
  {
    head := Three(q[0], q[1], q[2], q[3]);
    FirstFour(q);
    BytesOfGroup(q[0], q[1], q[2], q[3], q[4..]);
  }

  lemma FirstFour(q: seq<Sextet>)
    requires |q| % 4 != 1 && |q| >= 4
    ensures |q[4..]| % 4 != 1 && q == [q[0], q[1], q[2], q[3]] + q[4..]
  {
  }

  function Three(p: Sextet, q: Sextet, r: Sextet, t: Sextet): (bytes: seq<Byte>)
    ensures |bytes| == 3 && Sum3(bytes[0], bytes[1], bytes[2]) == Sum4(p, q, r, t)
  {
    FourMakeThree(p, q, r, t);
    [FirstByte(p, q), SecondByte(q, r), ThirdByte(r, t)]
  }

  lemma UnpackOneMore(q: seq<Sextet>, head: seq<Byte>, tail: seq<Sextet>, front: seq<Byte>, rest: seq<Sextet>)
    requires Unpacks(q, head, tail) && Unpacks(tail, front, rest)
    ensures Unpacks(q, head + front, rest)
  {
    assert head + (front + Bytes(rest)) == head + front + Bytes(rest);
  }

  /** So many groups of four at the front are three bytes each. */
  lemma {:induction false} GroupsInFront(q: seq<Sextet>, k: nat) returns (front: seq<Byte>)
    requires |q| % 4 != 1 && 4 * k <= |q|
    ensures |front| == 3 * k && Unpacks(q, front, q[4 * k..])
  {
    if k == 0 {
      front := [];
      assert q[0..] == q;
    } else {
      var head := FirstGroup(q);
      var tail := GroupsInFront(q[4..], k - 1);
      assert q[4..][4 * (k - 1)..] == q[4 * k..];
      UnpackOneMore(q, head, q[4..], tail, q[4 * k..]);
      front := head + tail;
    }
  }

  /** Every four letters are three bytes, as one number. */
  lemma GroupsArePacked(q: seq<Sextet>, k: nat) returns (front: seq<Byte>, bytes: seq<Byte>)
    requires |q| % 4 != 1 && 4 * k + 4 <= |q|
    ensures |front| == 3 * k && |bytes| == 3 && Unpacks(q, front + bytes, q[4 * k..][4..])
    ensures Sum3(bytes[0], bytes[1], bytes[2]) == Sum4(q[4 * k], q[4 * k + 1], q[4 * k + 2], q[4 * k + 3])
  {
    front := GroupsInFront(q, k);
    bytes := FirstGroup(q[4 * k..]);
    UnpackOneMore(q, front, q[4 * k..], bytes, q[4 * k..][4..]);
  }

  /** Two letters at the end are one byte and four bits to spare, three letters two bytes and
      two bits; there are no other bytes. */
  lemma LastGroupIsPacked(q: seq<Sextet>)
    requires |q| < 4 && |q| != 1
    ensures |q| == 0 ==> Bytes(q) == []
    ensures |q| == 2 ==> Bytes(q) == [(0x40 * q[0] as int + q[1] as int) / 16]
    ensures |q| == 3 ==>
      |Bytes(q)| == 2
      && 0x100 * Bytes(q)[0] as int + Bytes(q)[1] as int
         == (0x1000 * q[0] as int + 0x40 * q[1] as int + q[2] as int) / 4
  {
    if |q| == 2 {
      BytesOfTwo(q[0], q[1]);
      assert q == [q[0], q[1]];
    } else if |q| == 3 {
      BytesOfThree(q[0], q[1], q[2]);
      assert q == [q[0], q[1], q[2]];
    }
  }

  lemma BytesOfTwo(p: Sextet, q: Sextet)
    ensures Bytes([p, q]) == [(0x40 * p as int + q as int) / 16]
  {
  }

  lemma BytesOfThree(p: Sextet, q: Sextet, r: Sextet)
    ensures var b := Bytes([p, q, r]);
      |b| == 2 && 0x100 * b[0] as int + b[1] as int == (0x1000 * p as int + 0x40 * q as int + r as int) / 4
  {
    TailOfThree(p, q, r);
  }

  lemma TailOfThree(p: Sextet, q: Sextet, r: Sextet)
    ensures 0x100 * FirstByte(p, q) as int + SecondByte(q, r) as int
         == (0x1000 * p as int + 0x40 * q as int + r as int) / 4
  {
    assert q as int == q as int / 16 * 16 + q as int % 16;
  }

  // ---------------------------------------------------------------- decoding

  predicate Lettered(body: JsString) {
    forall i :: 0 <= i < |body| ==> body[i] in Table(Standard) || body[i] in Table(UrlSafe)
  }

  /** How much padding may follow so many letters. */
  predicate PaddingFits(letters: nat, n: nat) {
    || (letters % 4 == 0 && n == 0)
    || (letters % 4 == 2 && n <= 2)
    || (letters % 4 == 3 && n <= 1)
  }

  predicate Shown(bytes: seq<Byte>) {
    forall i :: 0 <= i < |bytes| ==> bytes[i] == 9 || bytes[i] == 10 || bytes[i] == 13 || 32 <= bytes[i] < 127
  }

  lemma LetteredIsAllLetters(body: JsString)
    ensures AllLetters(Normalize(body)) <==> Lettered(body)
  {
    forall i | 0 <= i < |body|
      ensures IsLetter(Normalize(body)[i]) <==> body[i] in Table(Standard) || body[i] in Table(UrlSafe)
    {
      OnlyLettersAreTabulated(body[i]);
    }
  }

  /** The bytes of a text of letters. */
  function BytesOf(body: JsString): seq<Byte>
    requires Lettered(body) && |body| % 4 != 1
  {
    LetteredIsAllLetters(body);
    Bytes(SextetsOf(Normalize(body)))
  }

  /** Letters and padding, normalized and completed for `atob`. */
  lemma Completed(body: JsString, n: nat)
    requires Lettered(body) && n <= 2
    ensures var t := Normalize(body + Padding(n));
      && DropPadding(t) == Normalize(body)
      && t + Padding(Missing(|t|)) == Normalize(body) + Padding(n + Missing(|body| + n))
  {
    var letters := Normalize(body);
    LetteredIsAllLetters(body);
    NormalizedPadding(body, n);
    PaddingDrops(letters, n);
    var m := Missing(|body| + n);
    assert Padding(n) + Padding(m) == Padding(n + m);
    assert letters + Padding(n) + Padding(m) == letters + (Padding(n) + Padding(m));
  }

  lemma PaddingLeft(letters: nat, n: nat)
    requires n <= 2
    ensures (letters + n + Missing(letters + n)) % 4 == 0
    ensures letters % 4 != 1 && n + Missing(letters + n) <= 2 <==> PaddingFits(letters, n)
  {
  }

  lemma AtobOfLetters(letters: JsString, n: nat)
    requires AllLetters(letters) && (|letters| + n) % 4 == 0
    ensures Atob(letters + Padding(n))
         == if |letters| % 4 != 1 && n <= 2 then Some(Bytes(SextetsOf(letters))) else None
  {
    var t := letters + Padding(n);
    if n <= 2 {
      PaddingDrops(letters, n);
    } else {
      assert DropPadding(t)[|t| - 3] == EQUALS;
    }
  }

  /** Letters and padding are decoded exactly when there are some letters, the padding fits and
      every byte is shown. */
  lemma DecodesExactly(body: JsString, n: nat)
    requires Lettered(body) && n <= 2
    ensures DecodeBase64Like(body + Padding(n))
         == if body != [] && PaddingFits(|body|, n) && Shown(BytesOf(body)) then Some(Text(BytesOf(body))) else None
  {
    LetteredIsAllLetters(body);
    Completed(body, n);
    PaddingLeft(|body|, n);
    AtobOfLetters(Normalize(body), n + Missing(|body| + n));
    if body != [] && PaddingFits(|body|, n) {
      BytesAppear(SextetsOf(Normalize(body)));
      ShownIsPrintable(BytesOf(body));
    }
  }

  lemma BytesAppear(q: seq<Sextet>)
    requires q != [] && |q| % 4 != 1
    ensures Bytes(q) != []
  {
  }

  lemma ShownIsPrintable(bytes: seq<Byte>)
    requires bytes != []
    ensures AllPrintable(bytes) <==> Shown(bytes)
  {
    forall i | 0 <= i < |bytes|
      ensures IsPrintable(bytes[i]) <==> bytes[i] == 9 || bytes[i] == 10 || bytes[i] == 13 || 32 <= bytes[i] < 127
    {
    }
  }

  /** How much padding a text loses. */
  function Dropped(t: JsString): (n: nat)
    ensures n <= 2 && n <= |t| && DropPadding(t) == t[..|t| - n]
    ensures forall i :: |t| - n <= i < |t| ==> t[i] == EQUALS
  {
    |t| - |DropPadding(t)|
  }

  lemma NormalizedParts(token: JsString, n: nat)
    requires n <= |token| && forall i :: |token| - n <= i < |token| ==> Normalize(token)[i] == EQUALS
    ensures Normalize(token[..|token| - n]) == Normalize(token)[..|token| - n]
    ensures token == token[..|token| - n] + Padding(n)
  {
    forall i | |token| - n <= i < |token| ensures token[i] == EQUALS {
      assert Normalize(token)[i] == EQUALS;
    }
  }

  /** Nothing else is decoded. */
  lemma OnlyLettersDecode(token: JsString)
    requires DecodeBase64Like(token).Some?
    ensures exists n: nat :: n <= 2 && n <= |token| && Lettered(token[..|token| - n])
                             && token == token[..|token| - n] + Padding(n)
  {
    var n := Dropped(Normalize(token));
    var body := token[..|token| - n];
    NormalizedParts(token, n);
    assert AllLetters(Normalize(body));
    LetteredIsAllLetters(body);
  }

  // ------------------------------------------------------------------ tokens

  predicate IsTokenLetter(u: CodeUnit) {
    u in UPPER || u in LOWER || u in TEN || u in Js("+/_=-")
  }

  lemma LettersAndDigits(u: CodeUnit)
    ensures u in UPPER || u in LOWER || u in TEN <==> 65 <= u <= 90 || 97 <= u <= 122 || 48 <= u <= 57
  {
    if 65 <= u <= 90 {
      UpperIs(u - 65);
    } else if 97 <= u <= 122 {
      LowerIs(u - 97);
    } else if 48 <= u <= 57 {
      TenIs(u - 48);
    }
    if u in UPPER {
      var i :| 0 <= i < |UPPER| && UPPER[i] == u;
      UpperIs(i);
    }
    if u in LOWER {
      var i :| 0 <= i < |LOWER| && LOWER[i] == u;
      LowerIs(i);
    }
    if u in TEN {
      var i :| 0 <= i < |TEN| && TEN[i] == u;
      TenIs(i);
    }
  }

  lemma TokenLetters(u: CodeUnit)
    ensures IsTokenUnit(u) <==> IsTokenLetter(u)
  {
    LettersAndDigits(u);
    assert Js("+/_=-") == [43, 47, 95, 61, 45];
  }

  /** Sixteen or more of these, with none before and none after. */
  ghost predicate StandsAlone(t: JsString, token: JsString) {
    exists i: nat, j: nat :: IsStretch(t, i, j) && t[i..j] == token
  }

  predicate IsStretch(t: JsString, i: nat, j: nat) {
    && i + 16 <= j <= |t|
    && (forall k :: i <= k < j ==> IsTokenLetter(t[k]))
    && (i == 0 || !IsTokenLetter(t[i - 1]))
    && (j == |t| || !IsTokenLetter(t[j]))
  }

  lemma StretchIsRun(t: JsString, i: nat, j: nat)
    ensures IsStretch(t, i, j) <==> LeakScanner.IsRun(t, i, j) && j - i >= LeakScanner.MIN_TOKEN
  {
    forall k | 0 <= k < |t| ensures IsTokenUnit(t[k]) <==> IsTokenLetter(t[k]) {
      TokenLetters(t[k]);
    }
  }

  lemma TokensAreExactly(t: JsString, token: JsString)
    ensures token in LeakScanner.Tokens(t) <==> StandsAlone(t, token)
  {
    LeakScanner.TokensAreTheLongRuns(t, token);
    if StandsAlone(t, token) {
      var i: nat, j: nat :| IsStretch(t, i, j) && t[i..j] == token;
      StretchIsRun(t, i, j);
    }
    if LeakScanner.IsLongRun(t, token) {
      var i: nat, j: nat :| LeakScanner.IsRun(t, i, j) && j - i >= LeakScanner.MIN_TOKEN && t[i..j] == token;
      StretchIsRun(t, i, j);
    }
  }

  // -------------------------------------------------------------- the scanner

  ghost predicate HoldsCoded(secret: JsString -> bool, value: JsString) {
    exists token, text :: StandsAlone(value, token) && DecodeBase64Like(token) == Some(text) && secret(text)
  }

  /** A text is flagged exactly when it matches, its percent-decoding does, or what one of its
      tokens decodes to does. */
  lemma FlaggedExactly(secret: JsString -> bool, value: JsString)
    ensures LeakScanner.Flagged(secret, value)
       <==> || secret(value) || (U.Decode(value).Some? && secret(U.Decode(value).value))
            || HoldsCoded(secret, value)
  {
    if LeakScanner.Flagged(secret, value) {
      var i :| 0 <= i < |LeakScanner.VariantsAdded(value)| && secret(LeakScanner.VariantsAdded(value)[i]);
      var text := LeakScanner.VariantsAdded(value)[i];
      LeakScanner.VariantsAreExact(value, text);
      if LeakScanner.DecodesFromRun(value, text) {
        var token :| LeakScanner.IsLongRun(value, token) && DecodeBase64Like(token) == Some(text);
        StandsAsRun(value, token);
      }
    }
    if secret(value) {
      VariantFlags(secret, value, value);
    }
    if U.Decode(value).Some? && secret(U.Decode(value).value) {
      VariantFlags(secret, value, U.Decode(value).value);
    }
    if HoldsCoded(secret, value) {
      var token, text :| StandsAlone(value, token) && DecodeBase64Like(token) == Some(text) && secret(text);
      StandsAsRun(value, token);
      VariantFlags(secret, value, text);
    }
  }

  lemma StandsAsRun(value: JsString, token: JsString)
    ensures StandsAlone(value, token) <==> LeakScanner.IsLongRun(value, token)
  {
    TokensAreExactly(value, token);
    LeakScanner.TokensAreTheLongRuns(value, token);
  }

  lemma VariantFlags(secret: JsString -> bool, value: JsString, text: JsString)
    requires secret(text)
    requires text == value || U.Decode(value) == Some(text) || LeakScanner.DecodesFromRun(value, text)
    ensures LeakScanner.Flagged(secret, value)
  {
    LeakScanner.VariantsAreExact(value, text);
    LeakScanner.FlaggedByVariant(secret, value, text);
  }

  /** The printed path of a place: a bracketed index or a dotted key for every step. */
  lemma {:induction false} PathIsPrinted(path: seq<LeakScanner.Step>, step: LeakScanner.Step)
    ensures LeakScanner.Render(path + [step])
         == LeakScanner.Render(path) + (match step
                                        case Item(i) => Js("[") + Digits(i) + Js("]")
                                        case Entry(_, key) => Js(".") + key)
  {
    assert Js("[") == [91] && Js("]") == [93] && Js(".") == [46];
    if path == [] {
      assert path + [step] == [step] && [step][1..] == [];
    } else {
      PathIsPrinted(path[1..], step);
      assert (path + [step])[1..] == path[1..] + [step];
    }
  }
}
