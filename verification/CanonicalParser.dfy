/** The parser that undoes the canonical text, and the proof that it does: a canonical text
    is uniquely decodable even in the middle of a longer one. */
module CanonicalParser {
  import opened JsText
  import opened Decimal
  import opened JsonValues
  import opened Canonical

  datatype Parsed<+T> = Parsed(value: T, rest: JsString) | Failed

  function HexValue(u: CodeUnit): Option<nat> {
    if 48 <= u <= 57 then Some(u - 48)
    else if 97 <= u <= 102 then Some(u - 87)
    else None
  }

  function ParseHex(t: JsString): Option<CodeUnit>
    requires |t| == 4
  {
    match (HexValue(t[0]), HexValue(t[1]), HexValue(t[2]), HexValue(t[3]))
    case (Some(a), Some(b), Some(c), Some(d)) =>
      if a < 16 && b < 16 && c < 16 && d < 16 then Some(4096 * a + 256 * b + 16 * c + d) else None
    case _ => None
  }

  function UnescapeLetter(letter: CodeUnit): Option<CodeUnit> {
    if letter == QUOTE || letter == BACKSLASH then Some(letter)
    else if letter == 0x62 then Some(0x08)
    else if letter == 0x66 then Some(0x0C)
    else if letter == 0x6E then Some(0x0A)
    else if letter == 0x72 then Some(0x0D)
    else if letter == 0x74 then Some(0x09)
    else None
  }

  /** The rest of a string literal after its opening quote. */
  function ParseChars(t: JsString): (p: Parsed<JsString>)
    ensures p.Parsed? ==> |p.rest| < |t|
    decreases |t|
  {
    if t == [] then Failed
    else if t[0] == QUOTE then Parsed([], t[1..])
    else if t[0] != BACKSLASH then Prefix(t[0], ParseChars(t[1..]))
    else if |t| < 2 then Failed
    else if t[1] == LOWER_U then
      if |t| < 6 then Failed
      else
        match ParseHex(t[2..6])
        case Some(u) => Prefix(u, ParseChars(t[6..]))
        case None => Failed
    else
      match UnescapeLetter(t[1])
      case Some(u) => Prefix(u, ParseChars(t[2..]))
      case None => Failed
  }

  function Prefix(u: CodeUnit, p: Parsed<JsString>): Parsed<JsString> {
    if p.Parsed? then Parsed([u] + p.value, p.rest) else Failed
  }

  function ParseNumber(t: JsString): (p: Parsed<Json>)
    ensures p.Parsed? ==> |p.rest| < |t|
  {
    var negative := t != [] && t[0] == MINUS;
    var body := if negative then t[1..] else t;
    var n := LeadingDigits(body);
    if n == 0 then Failed
    else
      var magnitude: int := ValueOf(body[..n]);
      Parsed(Number(if negative then -magnitude else magnitude), body[n..])
  }

  function ParseValue(t: JsString): (p: Parsed<Json>)
    ensures p.Parsed? ==> |p.rest| < |t|
    decreases |t|, 0
  {
    if t == [] then Failed
    else if t[0] == QUOTE then
      var p := ParseChars(t[1..]);
      if p.Parsed? then Parsed(Str(p.value), p.rest) else Failed
    else if t[0] == OPEN_BRACKET then
      if |t| > 1 && t[1] == CLOSE_BRACKET then Parsed(Arr([]), t[2..])
      else
        var p := ParseItems(t[1..]);
        if p.Parsed? then Parsed(Arr(p.value), p.rest) else Failed
    else if t[0] == OPEN_BRACE then
      if |t| > 1 && t[1] == CLOSE_BRACE then Parsed(Obj([]), t[2..])
      else
        var p := ParseFields(t[1..]);
        if p.Parsed? then Parsed(Obj(p.value), p.rest) else Failed
    else if Js("null") <= t then Parsed(Null, t[4..])
    else if Js("true") <= t then Parsed(Bool(true), t[4..])
    else if Js("false") <= t then Parsed(Bool(false), t[5..])
    else ParseNumber(t)
  }

  /** One or more values separated by commas, then a closing bracket. */
  function ParseItems(t: JsString): (p: Parsed<seq<Json>>)
    ensures p.Parsed? ==> |p.rest| < |t|
    decreases |t|, 1
  {
    var head := ParseValue(t);
    if head.Failed? || head.rest == [] then Failed
    else if head.rest[0] == CLOSE_BRACKET then Parsed([head.value], head.rest[1..])
    else if head.rest[0] != COMMA then Failed
    else
      var tail := ParseItems(head.rest[1..]);
      if tail.Parsed? then Parsed([head.value] + tail.value, tail.rest) else Failed
  }

  function ParseField(t: JsString): (p: Parsed<Field>)
    ensures p.Parsed? ==> |p.rest| < |t|
    decreases |t|, 1
  {
    if t == [] || t[0] != QUOTE then Failed
    else
      var key := ParseChars(t[1..]);
      if key.Failed? || key.rest == [] || key.rest[0] != COLON then Failed
      else
        var value := ParseValue(key.rest[1..]);
        if value.Parsed? then Parsed(Field(key.value, value.value), value.rest) else Failed
  }

  /** One or more fields separated by commas, then a closing brace. */
  function ParseFields(t: JsString): (p: Parsed<seq<Field>>)
    ensures p.Parsed? ==> |p.rest| < |t|
    decreases |t|, 2
  {
    var head := ParseField(t);
    if head.Failed? || head.rest == [] then Failed
    else if head.rest[0] == CLOSE_BRACE then Parsed([head.value], head.rest[1..])
    else if head.rest[0] != COMMA then Failed
    else
      var tail := ParseFields(head.rest[1..]);
      if tail.Parsed? then Parsed([head.value] + tail.value, tail.rest) else Failed
  }

  /** What may follow a value inside a canonical text. */
  predicate EndsValue(rest: JsString) {
    rest == [] || rest[0] == COMMA || rest[0] == CLOSE_BRACKET || rest[0] == CLOSE_BRACE
  }

  /** The value with the entries of every object in key order: what the text retains. */
  function Normal(v: Json): Json
    decreases v, 0
  {
    match v
    case Arr(items) => Arr(NormalItems(items))
    case Obj(fields) => Obj(NormalFields(fields, SortedKeys(fields)))
    case _ => v
  }

  function NormalItems(items: seq<Json>): (normals: seq<Json>)
    ensures |normals| == |items|
    decreases items, 1
  {
    seq(|items|, i requires 0 <= i < |items| => Normal(items[i]))
  }

  function NormalFields(fields: seq<Field>, keys: seq<JsString>): (normals: seq<Field>)
    requires forall i :: 0 <= i < |keys| ==> keys[i] in Keys(fields)
    ensures |normals| == |keys|
    decreases fields, 1
  {
    seq(|keys|, i requires 0 <= i < |keys| =>
      var f := Field(keys[i], Get(fields, keys[i]));
      assert f in fields;
      Field(keys[i], Normal(f.value)))
  }

  lemma HexDigitRoundTrip(n: nat)
    requires n < 16
    ensures HexValue(HexDigit(n)) == Some(n)
  {
  }

  lemma HexRoundTrip(u: CodeUnit)
    ensures ParseHex(HexDigits(u)) == Some(u)
  {
    var q1 := u / 16;
    var q2 := q1 / 16;
    HexDigitRoundTrip(u % 16);
    HexDigitRoundTrip(q1 % 16);
    HexDigitRoundTrip(q2 % 16);
    HexDigitRoundTrip(q2 / 16);
    assert u == 16 * (16 * (16 * (q2 / 16) + q2 % 16) + q1 % 16) + u % 16;
  }

  /** Reading one escaped code unit leaves exactly what follows it. */
  lemma EscapedUnitRoundTrip(u: CodeUnit, after: JsString)
    ensures ParseChars(EscapeUnit(u) + after) == Prefix(u, ParseChars(after))
  {
    var head := EscapeUnit(u);
    var t := head + after;
    assert t[|head|..] == after;
    assert t[0] == head[0];
    if ShortEscape(u).Some? {
      assert t[1] == head[1];
    } else if |head| == 6 {
      assert t[1] == LOWER_U;
      HexRoundTrip(u);
      assert t[2..6] == HexDigits(u);
    }
  }

  /** Reading one unescaped code unit. */
  lemma RawUnitRoundTrip(u: CodeUnit, after: JsString)
    requires u != QUOTE && u != BACKSLASH
    ensures ParseChars([u] + after) == Prefix(u, ParseChars(after))
  {
    assert ([u] + after)[1..] == after;
  }

  lemma Regroup(a: JsString, b: JsString, c: JsString)
    ensures (a + b) + c == a + (b + c)
  {
  }

  lemma UnitStep(u: CodeUnit, escaped: JsString, tail: JsString, s: JsString, rest: JsString)
    requires ParseChars(escaped + tail) == Parsed(s, rest)
    ensures ParseChars((EscapeUnit(u) + escaped) + tail) == Parsed([u] + s, rest)
  {
    EscapedUnitRoundTrip(u, escaped + tail);
    Regroup(EscapeUnit(u), escaped, tail);
  }

  lemma PairStep(h: CodeUnit, l: CodeUnit, escaped: JsString, tail: JsString, s: JsString, rest: JsString)
    requires IsHighSurrogate(h) && IsLowSurrogate(l)
    requires ParseChars(escaped + tail) == Parsed(s, rest)
    ensures ParseChars(([h, l] + escaped) + tail) == Parsed([h, l] + s, rest)
  {
    RawUnitRoundTrip(l, escaped + tail);
    RawUnitRoundTrip(h, [l] + (escaped + tail));
    assert ([h, l] + escaped) + tail == [h] + ([l] + (escaped + tail));
    assert [h, l] + s == [h] + ([l] + s);
  }

  lemma {:induction false} EscapeRoundTrip(s: JsString, rest: JsString)
    ensures ParseChars(Escape(s) + ([QUOTE] + rest)) == Parsed(s, rest)
    decreases |s|
  {
    var tail := [QUOTE] + rest;
    if s == [] {
      assert Escape(s) + tail == tail;
      assert tail[1..] == rest;
    } else if |s| > 1 && IsHighSurrogate(s[0]) && IsLowSurrogate(s[1]) {
      EscapeRoundTrip(s[2..], rest);
      PairStep(s[0], s[1], Escape(s[2..]), tail, s[2..], rest);
      assert s[..2] == [s[0], s[1]];
      assert s == [s[0], s[1]] + s[2..];
    } else {
      EscapeRoundTrip(s[1..], rest);
      UnitStep(s[0], Escape(s[1..]), tail, s[1..], rest);
      assert s == [s[0]] + s[1..];
    }
  }

  lemma SplitAt(digits: JsString, rest: JsString)
    ensures (digits + rest)[..|digits|] == digits && (digits + rest)[|digits|..] == rest
  {
  }

  lemma PrintedNaturalParses(n: nat, rest: JsString)
    requires EndsValue(rest)
    ensures ParseNumber(PrintInt(n) + rest) == Parsed(Number(n), rest)
  {
    LeadingDigitsOfPrinted(Digits(n), rest);
    SplitAt(Digits(n), rest);
    assert (Digits(n) + rest)[0] == Digits(n)[0];
  }

  lemma PrintedNegativeParses(n: int, rest: JsString)
    requires n < 0 && EndsValue(rest)
    ensures ParseNumber(PrintInt(n) + rest) == Parsed(Number(n), rest)
  {
    LeadingDigitsOfPrinted(Digits(-n), rest);
    SplitAt(Digits(-n), rest);
    assert (PrintInt(n) + rest)[1..] == Digits(-n) + rest;
  }

  lemma PrintedNumberParses(n: int, rest: JsString)
    requires EndsValue(rest)
    ensures ParseNumber(PrintInt(n) + rest) == Parsed(Number(n), rest)
  {
    if n < 0 {
      PrintedNegativeParses(n, rest);
    } else {
      PrintedNaturalParses(n, rest);
    }
  }

  lemma NumberRoundTrip(n: int, rest: JsString)
    requires EndsValue(rest)
    ensures ParseValue(PrintInt(n) + rest) == Parsed(Number(n), rest)
  {
    var t := PrintInt(n) + rest;
    PrintedNumberParses(n, rest);
    assert t[0] == PrintInt(n)[0];
    assert t[0] == MINUS || IsDigit(t[0]);
    assert Js("null")[0] == 110 && Js("true")[0] == 116 && Js("false")[0] == 102;
  }

  lemma LiteralRoundTrip(v: Json, rest: JsString)
    requires v.Null? || v.Bool?
    ensures ParseValue(CanonicalText(v) + rest) == Parsed(v, rest)
  {
    var literal := CanonicalText(v);
    var t := literal + rest;
    assert Js("null")[0] == 110 && Js("true")[0] == 116 && Js("false")[0] == 102;
    assert t[|literal|..] == rest;
    assert t[0] == literal[0];
    assert literal <= t;
  }

  // One step of each list parser.

  lemma LastItem(t: JsString, v: Json, rest: JsString)
    requires ParseValue(t) == Parsed(v, [CLOSE_BRACKET] + rest)
    ensures ParseItems(t) == Parsed([v], rest)
  {
    assert ([CLOSE_BRACKET] + rest)[1..] == rest;
  }

  lemma MoreItems(t: JsString, v: Json, after: JsString, vs: seq<Json>, rest: JsString)
    requires ParseValue(t) == Parsed(v, [COMMA] + after)
    requires ParseItems(after) == Parsed(vs, rest)
    ensures ParseItems(t) == Parsed([v] + vs, rest)
  {
    assert ([COMMA] + after)[1..] == after;
  }

  lemma LastField(t: JsString, f: Field, rest: JsString)
    requires ParseField(t) == Parsed(f, [CLOSE_BRACE] + rest)
    ensures ParseFields(t) == Parsed([f], rest)
  {
    assert ([CLOSE_BRACE] + rest)[1..] == rest;
  }

  lemma MoreFields(t: JsString, f: Field, after: JsString, fs: seq<Field>, rest: JsString)
    requires ParseField(t) == Parsed(f, [COMMA] + after)
    requires ParseFields(after) == Parsed(fs, rest)
    ensures ParseFields(t) == Parsed([f] + fs, rest)
  {
    assert ([COMMA] + after)[1..] == after;
  }

  lemma FieldParses(t: JsString, key: JsString, after: JsString, v: Json, rest: JsString)
    requires t != [] && t[0] == QUOTE
    requires ParseChars(t[1..]) == Parsed(key, [COLON] + after)
    requires ParseValue(after) == Parsed(v, rest)
    ensures ParseField(t) == Parsed(Field(key, v), rest)
  {
    assert ([COLON] + after)[1..] == after;
  }

  lemma ArrayParses(body: JsString, vs: seq<Json>, rest: JsString)
    requires body != [] && body[0] != CLOSE_BRACKET
    requires ParseItems(body) == Parsed(vs, rest)
    ensures ParseValue([OPEN_BRACKET] + body) == Parsed(Arr(vs), rest)
  {
    assert ([OPEN_BRACKET] + body)[1..] == body;
  }

  lemma ObjectParses(body: JsString, fs: seq<Field>, rest: JsString)
    requires body != [] && body[0] != CLOSE_BRACE
    requires ParseFields(body) == Parsed(fs, rest)
    ensures ParseValue([OPEN_BRACE] + body) == Parsed(Obj(fs), rest)
  {
    assert ([OPEN_BRACE] + body)[1..] == body;
  }

  lemma EmptyArrayRoundTrip(rest: JsString)
    ensures ParseValue(CanonicalText(Arr([])) + rest) == Parsed(Arr([]), rest)
  {
    var t := [OPEN_BRACKET, CLOSE_BRACKET] + rest;
    assert t[2..] == rest;
    assert CanonicalText(Arr([])) == [OPEN_BRACKET, CLOSE_BRACKET];
  }

  lemma EmptyObjectRoundTrip(rest: JsString)
    ensures ParseValue(CanonicalText(Obj([])) + rest) == Parsed(Obj([]), rest)
  {
    var t := [OPEN_BRACE, CLOSE_BRACE] + rest;
    assert t[2..] == rest;
    assert CanonicalText(Obj([])) == [OPEN_BRACE, CLOSE_BRACE];
  }

  lemma StringParses(s: JsString, rest: JsString)
    ensures ParseValue(Quote(s) + rest) == Parsed(Str(s), rest)
  {
    EscapeRoundTrip(s, rest);
    assert (Quote(s) + rest)[1..] == Escape(s) + ([QUOTE] + rest);
  }

  /** `text`, followed by anything that can follow a value, is read as `v`, and the rest
      is left untouched. */
  ghost predicate Decodes(text: JsString, v: Json) {
    forall rest: JsString :: EndsValue(rest) ==> ParseValue(text + rest) == Parsed(v, rest)
  }

  lemma JoinSplits(texts: seq<JsString>, tail: JsString)
    requires |texts| > 1
    ensures Join(texts) + tail == texts[0] + ([COMMA] + (Join(texts[1..]) + tail))
  {
    Regroup(texts[0] + [COMMA], Join(texts[1..]), tail);
    Regroup(texts[0], [COMMA], Join(texts[1..]) + tail);
  }

  lemma {:induction false} ItemsParse(texts: seq<JsString>, vs: seq<Json>, rest: JsString)
    requires texts != [] && |texts| == |vs|
    requires forall i :: 0 <= i < |texts| ==> Decodes(texts[i], vs[i])
    ensures ParseItems(Join(texts) + ([CLOSE_BRACKET] + rest)) == Parsed(vs, rest)
  {
    var tail := [CLOSE_BRACKET] + rest;
    if |texts| == 1 {
      OneItem(texts[0], vs[0], rest);
      assert vs == [vs[0]];
    } else {
      ItemsParse(texts[1..], vs[1..], rest);
      OneMoreItem(texts[0], vs[0], Join(texts[1..]) + tail, vs[1..], rest);
      JoinSplits(texts, tail);
      assert vs == [vs[0]] + vs[1..];
    }
  }

  lemma OneItem(text: JsString, v: Json, rest: JsString)
    requires Decodes(text, v)
    ensures ParseItems(text + ([CLOSE_BRACKET] + rest)) == Parsed([v], rest)
  {
    LastItem(text + ([CLOSE_BRACKET] + rest), v, rest);
  }

  lemma OneMoreItem(text: JsString, v: Json, after: JsString, vs: seq<Json>, rest: JsString)
    requires Decodes(text, v) && ParseItems(after) == Parsed(vs, rest)
    ensures ParseItems(text + ([COMMA] + after)) == Parsed([v] + vs, rest)
  {
    assert EndsValue([COMMA] + after);
    MoreItems(text + ([COMMA] + after), v, after, vs, rest);
  }

  lemma QuotedParses(key: JsString, after: JsString)
    ensures ParseChars((Quote(key) + after)[1..]) == Parsed(key, after)
  {
    EscapeRoundTrip(key, after);
    assert (Quote(key) + after)[1..] == Escape(key) + ([QUOTE] + after);
  }

  lemma OneFieldParses(key: JsString, text: JsString, v: Json, rest: JsString)
    requires Decodes(text, v) && EndsValue(rest)
    ensures ParseField((Quote(key) + ([COLON] + text)) + rest) == Parsed(Field(key, v), rest)
  {
    QuotedParses(key, [COLON] + (text + rest));
    FieldParses(Quote(key) + ([COLON] + (text + rest)), key, text + rest, v, rest);
    Regroup(Quote(key), [COLON] + text, rest);
    Regroup([COLON], text, rest);
  }

  lemma {:induction false} FieldsParse(parts: seq<JsString>, texts: seq<JsString>, fs: seq<Field>, rest: JsString)
    requires parts != [] && |parts| == |texts| == |fs|
    requires forall i :: 0 <= i < |fs| ==>
      Decodes(texts[i], fs[i].value) && parts[i] == Quote(fs[i].key) + ([COLON] + texts[i])
    ensures ParseFields(Join(parts) + ([CLOSE_BRACE] + rest)) == Parsed(fs, rest)
  {
    var tail := [CLOSE_BRACE] + rest;
    if |fs| == 1 {
      OneFieldParses(fs[0].key, texts[0], fs[0].value, tail);
      LastField(parts[0] + tail, fs[0], rest);
      assert fs == [fs[0]];
    } else {
      FieldsParse(parts[1..], texts[1..], fs[1..], rest);
      OneMoreField(fs[0], texts[0], Join(parts[1..]) + tail, fs[1..], rest);
      JoinSplits(parts, tail);
      assert fs == [fs[0]] + fs[1..];
    }
  }

  lemma OneMoreField(f: Field, text: JsString, after: JsString, fs: seq<Field>, rest: JsString)
    requires Decodes(text, f.value) && ParseFields(after) == Parsed(fs, rest)
    ensures ParseFields((Quote(f.key) + ([COLON] + text)) + ([COMMA] + after)) == Parsed([f] + fs, rest)
  {
    OneFieldParses(f.key, text, f.value, [COMMA] + after);
    MoreFields((Quote(f.key) + ([COLON] + text)) + ([COMMA] + after), f, after, fs, rest);
  }

  lemma TextStartsAValue(v: Json)
    ensures CanonicalText(v) != [] && CanonicalText(v)[0] != CLOSE_BRACKET
  {
    match v
    case Number(n) => assert PrintInt(n)[0] == MINUS || IsDigit(PrintInt(n)[0]);
    case Null => assert Js("null")[0] == 110;
    case NonFinite => assert Js("null")[0] == 110;
    case Bool(b) => assert Js("true")[0] == 116 && Js("false")[0] == 102;
    case _ =>
  }

  lemma ArrayRoundTrip(items: seq<Json>, rest: JsString)
    requires items != []
    requires forall i :: 0 <= i < |items| ==> Decodes(CanonicalText(items[i]), Normal(items[i]))
    ensures ParseValue(CanonicalText(Arr(items)) + rest) == Parsed(Arr(NormalItems(items)), rest)
  {
    var texts := ItemTexts(items);
    Bracketed(OPEN_BRACKET, Join(texts), CLOSE_BRACKET, rest);
    TextStartsAValue(items[0]);
    assert Join(texts)[0] == texts[0][0];
    ItemsParse(texts, NormalItems(items), rest);
    ArrayParses(Join(texts) + ([CLOSE_BRACKET] + rest), NormalItems(items), rest);
  }

  lemma Bracketed(open: CodeUnit, body: JsString, close: CodeUnit, rest: JsString)
    ensures ([open] + body + [close]) + rest == [open] + (body + ([close] + rest))
  {
  }

  lemma ObjectBodyParses(fields: seq<Field>, keys: seq<JsString>, rest: JsString)
    requires keys != [] && forall i :: 0 <= i < |keys| ==> keys[i] in Keys(fields)
    requires forall key :: key in Keys(fields) ==>
      Decodes(CanonicalText(Get(fields, key)), Normal(Get(fields, key)))
    ensures ParseFields(Join(FieldTexts(fields, keys)) + ([CLOSE_BRACE] + rest))
         == Parsed(NormalFields(fields, keys), rest)
    ensures Join(FieldTexts(fields, keys)) != [] && Join(FieldTexts(fields, keys))[0] == QUOTE
  {
    var texts := seq(|keys|, i requires 0 <= i < |keys| => CanonicalText(Get(fields, keys[i])));
    var parts := FieldTexts(fields, keys);
    var fs := NormalFields(fields, keys);
    forall i | 0 <= i < |fs|
      ensures Decodes(texts[i], fs[i].value) && parts[i] == Quote(fs[i].key) + ([COLON] + texts[i])
    {
      assert fs[i] == Field(keys[i], Normal(Get(fields, keys[i])));
      assert parts[i] == FieldText(fields, keys[i]);
    }
    assert parts[0] == FieldText(fields, keys[0]);
    FieldsParse(parts, texts, fs, rest);
  }

  lemma ObjectRoundTrip(fields: seq<Field>, rest: JsString)
    requires fields != []
    requires forall key :: key in Keys(fields) ==>
      Decodes(CanonicalText(Get(fields, key)), Normal(Get(fields, key)))
    ensures ParseValue(CanonicalText(Obj(fields)) + rest) == Parsed(Normal(Obj(fields)), rest)
  {
    var keys := SortedKeys(fields);
    var inner := Join(FieldTexts(fields, keys));
    Bracketed(OPEN_BRACE, inner, CLOSE_BRACE, rest);
    ObjectBodyParses(fields, keys, rest);
    ObjectParses(inner + ([CLOSE_BRACE] + rest), NormalFields(fields, keys), rest);
  }

  lemma {:induction false} TextDecodes(v: Json)
    requires Canonicalizable(v)
    ensures Decodes(CanonicalText(v), Normal(v))
    decreases v
  {
    match v {
      case Arr(items) =>
        forall i | 0 <= i < |items| ensures Decodes(CanonicalText(items[i]), Normal(items[i])) {
          TextDecodes(items[i]);
        }
      case Obj(fields) =>
        forall key | key in Keys(fields)
          ensures Decodes(CanonicalText(Get(fields, key)), Normal(Get(fields, key)))
        {
          GetIsCanonicalizable(fields, key);
          GetIsSmaller(v, key);
          TextDecodes(Get(fields, key));
        }
      case _ =>
    }
    forall rest: JsString | EndsValue(rest)
      ensures ParseValue(CanonicalText(v) + rest) == Parsed(Normal(v), rest)
    {
      match v
      case Null => LiteralRoundTrip(v, rest);
      case Bool(_) => LiteralRoundTrip(v, rest);
      case Number(n) => NumberRoundTrip(n, rest);
      case Str(s) => StringParses(s, rest);
      case Arr(items) => if items == [] { EmptyArrayRoundTrip(rest); } else { ArrayRoundTrip(items, rest); }
      case Obj(fields) => if fields == [] { EmptyObjectRoundTrip(rest); } else { ObjectRoundTrip(fields, rest); }
    }
  }

  /** The canonical text of a value, followed by anything that can follow it, parses back
      to that value (its objects in key order) and leaves the rest of the text untouched. */
  lemma RoundTrip(v: Json, rest: JsString)
    requires Canonicalizable(v)
    requires EndsValue(rest)
    ensures ParseValue(CanonicalText(v) + rest) == Parsed(Normal(v), rest)
  {
    TextDecodes(v);
  }
}
