/** The credential-leak scanner of the auth.md adapter: the variants of a text that are searched
    for secrets, and the search for the first flagged text in a value
    (src/adapters/auth-md/profiles.ts). Whether a text matches one of the secret patterns is a
    parameter. */
module LeakScanner {
  import opened JsText
  import opened Decimal
  import opened JsonValues
  import opened Base64
  import UriComponent

  // --------------------------------------------------------------- tokens

  const MIN_TOKEN: nat := 16

  /** How many token characters follow from a position on. */
  function RunLength(t: JsString, k: nat): (n: nat)
    requires k <= |t|
    ensures k + n <= |t| && forall i :: k <= i < k + n ==> IsTokenUnit(t[i])
    ensures k + n < |t| ==> !IsTokenUnit(t[k + n])
    decreases |t| - k
  {
    if k == |t| || !IsTokenUnit(t[k]) then 0 else 1 + RunLength(t, k + 1)
  }

  /** `value.match(/[A-Za-z0-9+/_=-]{16,}/g)`: from each position on, a greedy match of at
      least 16 characters, or else the next position. */
  function TokensFrom(t: JsString, k: nat): seq<JsString>
    requires k <= |t|
    decreases |t| - k
  {
    if k == |t| then []
    else
      var n := RunLength(t, k);
      if n >= MIN_TOKEN then [t[k..k + n]] + TokensFrom(t, k + n) else TokensFrom(t, k + 1)
  }

  function Tokens(t: JsString): seq<JsString> {
    TokensFrom(t, 0)
  }

  /** A stretch of token characters that cannot be extended on either side. */
  predicate IsRun(t: JsString, i: nat, j: nat) {
    && i <= j <= |t|
    && (forall k :: i <= k < j ==> IsTokenUnit(t[k]))
    && (i == 0 || !IsTokenUnit(t[i - 1]))
    && (j == |t| || !IsTokenUnit(t[j]))
  }

  ghost predicate IsLongRun(t: JsString, token: JsString) {
    exists i: nat, j: nat :: IsRun(t, i, j) && j - i >= MIN_TOKEN && t[i..j] == token
  }

  lemma RunLengthOfRun(t: JsString, i: nat, j: nat)
    requires IsRun(t, i, j)
    ensures i + RunLength(t, i) == j
  {
  }

  lemma RunLengthStops(t: JsString, k: nat, i: nat)
    requires k < i <= |t| && !IsTokenUnit(t[i - 1])
    ensures k + RunLength(t, k) <= i - 1
  {
  }

  /** Scanning from any position finds the long runs that start there or later. */
  lemma {:induction false} RunsAreTokens(t: JsString, k: nat, i: nat, j: nat)
    requires k <= i && IsRun(t, i, j) && j - i >= MIN_TOKEN
    ensures t[i..j] in TokensFrom(t, k)
    decreases |t| - k
  {
    var n := RunLength(t, k);
    if k == i {
      RunLengthOfRun(t, i, j);
    } else {
      RunLengthStops(t, k, i);
      RunsAreTokens(t, if n >= MIN_TOKEN then k + n else k + 1, i, j);
    }
  }

  /** No long run that starts before position k reaches it. */
  predicate Fresh(t: JsString, k: nat)
    requires k <= |t|
  {
    k == 0 || !IsTokenUnit(t[k - 1]) || RunLength(t, k) < MIN_TOKEN
  }

  lemma {:induction false} TokensAreRuns(t: JsString, k: nat, token: JsString)
    requires k <= |t| && Fresh(t, k) && token in TokensFrom(t, k)
    ensures IsLongRun(t, token)
    decreases |t| - k
  {
    var n := RunLength(t, k);
    if n < MIN_TOKEN {
      TokensAreRuns(t, k + 1, token);
    } else if token == t[k..k + n] {
      assert IsRun(t, k, k + n);
    } else {
      TokensAreRuns(t, k + n, token);
    }
  }

  /** The tokens of a text are exactly its maximal runs of at least 16 token characters. */
  lemma TokensAreTheLongRuns(t: JsString, token: JsString)
    ensures token in Tokens(t) <==> IsLongRun(t, token)
  {
    if token in Tokens(t) {
      TokensAreRuns(t, 0, token);
    }
    if IsLongRun(t, token) {
      var i: nat, j: nat :| IsRun(t, i, j) && j - i >= MIN_TOKEN && t[i..j] == token;
      RunsAreTokens(t, 0, i, j);
    }
  }

  // ------------------------------------------------------------- variants

  function Present(o: Option<JsString>): seq<JsString> {
    match o
    case Some(s) => [s]
    case None => []
  }

  function DecodedTokens(tokens: seq<JsString>): seq<JsString> {
    if tokens == [] then []
    else DecodedTokens(tokens[..|tokens| - 1]) + Present(DecodeBase64Like(tokens[|tokens| - 1]))
  }

  /** Everything added to the set of variants, in order. */
  function VariantsAdded(value: JsString): seq<JsString> {
    [value] + Present(UriComponent.Decode(value)) + DecodedTokens(Tokens(value))
  }

  /** A decoded text is never empty, so it is always truthy. */
  method AddDecoded(variants: seq<JsString>, token: JsString, ghost added: seq<JsString>) returns (r: seq<JsString>)
    requires variants == Unique(added)
    ensures r == Unique(added + Present(DecodeBase64Like(token)))
  {
    r := variants;
    var text := DecodeBase64Like(token);
    if text.Some? {
      r := AddTo(r, text.value, added);
    } else {
      assert added + [] == added;
    }
  }

  lemma DecodedTokensStep(added: seq<JsString>, tokens: seq<JsString>, i: nat)
    requires i < |tokens|
    ensures added + DecodedTokens(tokens[..i + 1])
         == added + DecodedTokens(tokens[..i]) + Present(DecodeBase64Like(tokens[i]))
  {
    assert tokens[..i + 1][..i] == tokens[..i];
  }

  method AddDecodedTokens(variants: seq<JsString>, tokens: seq<JsString>, ghost added: seq<JsString>)
    returns (r: seq<JsString>)
    requires variants == Unique(added)
    ensures r == Unique(added + DecodedTokens(tokens))
  {
    r := variants;
    assert added + DecodedTokens(tokens[..0]) == added;
    for i := 0 to |tokens|
      invariant r == Unique(added + DecodedTokens(tokens[..i]))
    {
      DecodedTokensStep(added, tokens, i);
      r := AddDecoded(r, tokens[i], added + DecodedTokens(tokens[..i]));
    }
    assert tokens[..|tokens|] == tokens;
  }

  /** `credentialMaterialVariants`. */
  method CredentialMaterialVariants(value: JsString) returns (variants: seq<JsString>)
    ensures variants == Unique(VariantsAdded(value))
  {
    variants := [value];
    assert [value][..0] == [];
    var decoded := UriComponent.Decode(value);
    if decoded.Some? {
      variants := AddTo(variants, decoded.value, [value]);
    } else {
      assert [value] + Present(decoded) == [value];
    }
    variants := AddDecodedTokens(variants, Tokens(value), [value] + Present(decoded));
  }

  lemma {:induction false} DecodedTokensAre(tokens: seq<JsString>, text: JsString)
    ensures text in DecodedTokens(tokens)
       <==> exists token :: token in tokens && DecodeBase64Like(token) == Some(text)
  {
    if tokens != [] {
      var init, last := tokens[..|tokens| - 1], tokens[|tokens| - 1];
      assert tokens == init + [last];
      DecodedTokensAre(init, text);
      if DecodeBase64Like(last) == Some(text) {
        assert last in tokens;
      }
      if exists token :: token in init && DecodeBase64Like(token) == Some(text) {
        var token :| token in init && DecodeBase64Like(token) == Some(text);
        assert token in tokens;
      }
    }
  }

  ghost predicate DecodesFromRun(value: JsString, text: JsString) {
    exists token :: IsLongRun(value, token) && DecodeBase64Like(token) == Some(text)
  }

  /** The variants of a text: itself, its percent-decoding, and the base64 decoding of every
      maximal run of at least 16 token characters; nothing else. */
  lemma VariantsAreExact(value: JsString, text: JsString)
    ensures text in VariantsAdded(value)
       <==> text == value || UriComponent.Decode(value) == Some(text) || DecodesFromRun(value, text)
  {
    DecodedTokensAre(Tokens(value), text);
    if exists token :: token in Tokens(value) && DecodeBase64Like(token) == Some(text) {
      var token :| token in Tokens(value) && DecodeBase64Like(token) == Some(text);
      TokensAreTheLongRuns(value, token);
    }
    if DecodesFromRun(value, text) {
      var token :| IsLongRun(value, token) && DecodeBase64Like(token) == Some(text);
      TokensAreTheLongRuns(value, token);
    }
  }

  /** A text some variant of which matches a secret pattern. */
  predicate Flagged(secret: JsString -> bool, value: JsString) {
    exists i :: 0 <= i < |VariantsAdded(value)| && secret(VariantsAdded(value)[i])
  }

  lemma FlaggedByVariant(secret: JsString -> bool, value: JsString, text: JsString)
    requires text in VariantsAdded(value) && secret(text)
    ensures Flagged(secret, value)
  {
    var i :| 0 <= i < |VariantsAdded(value)| && VariantsAdded(value)[i] == text;
  }

  /** `looksLikeAuthMdCredentialMaterial`. */
  method LooksLikeCredentialMaterial(secret: JsString -> bool, value: JsString) returns (found: bool)
    ensures found <==> Flagged(secret, value)
  {
    var variants := CredentialMaterialVariants(value);
    assert forall v :: v in variants <==> v in Elements(variants);
    assert forall v :: v in VariantsAdded(value) <==> v in Elements(VariantsAdded(value));
    for i := 0 to |variants|
      invariant forall j :: 0 <= j < i ==> !secret(variants[j])
    {
      if secret(variants[i]) {
        FlaggedByVariant(secret, value, variants[i]);
        return true;
      }
    }
    forall k | 0 <= k < |VariantsAdded(value)| ensures !secret(VariantsAdded(value)[k]) {
      assert VariantsAdded(value)[k] in variants;
    }
    return false;
  }

  // --------------------------------------------------------------- search

  /** A step into a value: the position of an array item, or of an object entry and its key. */
  datatype Step = Item(i: nat) | Entry(i: nat, key: JsString)

  function Render(path: seq<Step>): JsString {
    if path == [] then []
    else
      (match path[0]
       case Item(i) => [91] + Digits(i) + [93]
       case Entry(_, key) => [46] + key)
      + Render(path[1..])
  }

  function Under(step: Step, path: Option<seq<Step>>): Option<seq<Step>> {
    match path
    case Some(p) => Some([step] + p)
    case None => None
  }

  /** The path of the first flagged text, in traversal order. */
  function FirstFlagged(flagged: JsString -> bool, v: Json): Option<seq<Step>>
    decreases v, 0
  {
    match v
    case Str(s) => if flagged(s) then Some([]) else None
    case Arr(items) => FirstInItems(flagged, items, 0)
    case Obj(fields) => FirstInFields(flagged, fields, 0)
    case _ => None
  }

  function FirstInItems(flagged: JsString -> bool, items: seq<Json>, from: nat): Option<seq<Step>>
    requires from <= |items|
    decreases items, |items| - from
  {
    if from == |items| then None
    else
      var found := Under(Item(from), FirstFlagged(flagged, items[from]));
      if found.Some? then found else FirstInItems(flagged, items, from + 1)
  }

  function FirstInFields(flagged: JsString -> bool, fields: seq<Field>, from: nat): Option<seq<Step>>
    requires from <= |fields|
    decreases fields, |fields| - from
  {
    if from == |fields| then None
    else
      assert fields[from].value < fields[from];
      var found := Under(Entry(from, fields[from].key), FirstFlagged(flagged, fields[from].value));
      if found.Some? then found else FirstInFields(flagged, fields, from + 1)
  }

  /** What the search returns for a path: its text, appended to the text of where it started. */
  function Rendered(start: JsString, path: Option<seq<Step>>): Option<JsString> {
    match path
    case Some(p) => Some(start + Render(p))
    case None => None
  }

  lemma RenderUnder(start: JsString, step: Step, path: Option<seq<Step>>)
    ensures Rendered(start, Under(step, path)) == Rendered(start + Render([step]), path)
  {
    if path.Some? {
      assert ([step] + path.value)[1..] == path.value;
      assert Render([step] + path.value) == Render([step]) + Render(path.value);
      assert start + (Render([step]) + Render(path.value)) == start + Render([step]) + Render(path.value);
    }
  }

  /** The texts the scanner refuses, as a function. */
  function Flags(secret: JsString -> bool): JsString -> bool {
    s => Flagged(secret, s)
  }

  /** `findCredentialMaterialPath`. */
  method FindCredentialMaterialPath(secret: JsString -> bool, v: Json, path: JsString)
    returns (found: Option<JsString>)
    ensures found == Rendered(path, FirstFlagged(Flags(secret), v))
    decreases v
  {
    match v
    case Str(s) =>
      var flagged := LooksLikeCredentialMaterial(secret, s);
      assert path + [] == path;
      found := if flagged then Some(path) else None;
    case Arr(items) =>
      for i := 0 to |items|
        invariant FirstInItems(Flags(secret), items, 0) == FirstInItems(Flags(secret), items, i)
      {
        found := FindCredentialMaterialPath(secret, items[i], path + [91] + Digits(i) + [93]);
        assert path + [91] + Digits(i) + [93] == path + Render([Item(i)]);
        RenderUnder(path, Item(i), FirstFlagged(Flags(secret), items[i]));
        if found.Some? {
          return;
        }
      }
      found := None;
    case Obj(fields) =>
      for i := 0 to |fields|
        invariant FirstInFields(Flags(secret), fields, 0) == FirstInFields(Flags(secret), fields, i)
      {
        assert fields[i].value < fields[i];
        found := FindCredentialMaterialPath(secret, fields[i].value, path + [46] + fields[i].key);
        assert path + [46] + fields[i].key == path + Render([Entry(i, fields[i].key)]);
        RenderUnder(path, Entry(i, fields[i].key), FirstFlagged(Flags(secret), fields[i].value));
        if found.Some? {
          return;
        }
      }
      found := None;
    case _ => found := None;
  }

  /** The text at the end of a path. */
  function Leaf(v: Json, path: seq<Step>): Option<JsString> {
    if path == [] then (if v.Str? then Some(v.s) else None)
    else
      match path[0]
      case Item(i) => if v.Arr? && i < |v.items| then Leaf(v.items[i], path[1..]) else None
      case Entry(i, key) =>
        if v.Obj? && i < |v.fields| && v.fields[i].key == key then Leaf(v.fields[i].value, path[1..]) else None
  }

  predicate FlaggedAt(flagged: JsString -> bool, v: Json, path: seq<Step>) {
    Leaf(v, path).Some? && flagged(Leaf(v, path).value)
  }

  /** Traversal order: the earlier entry at the first step where two paths part. */
  predicate Before(p: seq<Step>, q: seq<Step>) {
    p != [] && q != [] && (p[0].i < q[0].i || (p[0] == q[0] && Before(p[1..], q[1..])))
  }

  /** What a search result means for one path. */
  predicate FirstAgainst(flagged: JsString -> bool, v: Json, found: Option<seq<Step>>, q: seq<Step>) {
    match found
    case Some(p) => FlaggedAt(flagged, v, p) && (FlaggedAt(flagged, v, q) ==> q == p || Before(p, q))
    case None => !FlaggedAt(flagged, v, q)
  }

  /** The search returns a path exactly when some text in the value is flagged; that path leads
      to a flagged text, and every other flagged text comes later. */
  lemma {:induction false} SearchFindsTheFirst(flagged: JsString -> bool, v: Json, q: seq<Step>)
    ensures FirstAgainst(flagged, v, FirstFlagged(flagged, v), q)
    decreases v, 0
  {
    match v
    case Arr(items) => SearchItems(flagged, items, 0, q);
    case Obj(fields) => SearchFields(flagged, fields, 0, q);
    case _ =>
  }

  lemma UnderItem(flagged: JsString -> bool, items: seq<Json>, i: nat, p: seq<Step>)
    requires i < |items|
    ensures FlaggedAt(flagged, Arr(items), [Item(i)] + p) <==> FlaggedAt(flagged, items[i], p)
  {
    assert ([Item(i)] + p)[1..] == p;
  }

  lemma UnderEntry(flagged: JsString -> bool, fields: seq<Field>, i: nat, p: seq<Step>)
    requires i < |fields|
    ensures FlaggedAt(flagged, Obj(fields), [Entry(i, fields[i].key)] + p) <==> FlaggedAt(flagged, fields[i].value, p)
  {
    assert ([Entry(i, fields[i].key)] + p)[1..] == p;
  }

  function Rest(q: seq<Step>): seq<Step> {
    if q == [] then [] else q[1..]
  }

  lemma FirstStays(step: Step, p: seq<Step>, q: seq<Step>)
    requires q != []
    requires q[0] == step ==> Rest(q) == p || Before(p, Rest(q))
    requires q[0] != step ==> q[0].i > step.i
    ensures q == [step] + p || Before([step] + p, q)
  {
    assert ([step] + p)[1..] == p;
    assert q == [q[0]] + Rest(q);
  }

  lemma StepIsItem(flagged: JsString -> bool, items: seq<Json>, q: seq<Step>)
    requires FlaggedAt(flagged, Arr(items), q)
    ensures q != [] && q[0].i < |items| && q[0] == Item(q[0].i) && FlaggedAt(flagged, items[q[0].i], Rest(q))
  {
  }

  lemma StepIsEntry(flagged: JsString -> bool, fields: seq<Field>, q: seq<Step>)
    requires FlaggedAt(flagged, Obj(fields), q)
    ensures q != [] && q[0].i < |fields| && q[0] == Entry(q[0].i, fields[q[0].i].key)
    ensures FlaggedAt(flagged, fields[q[0].i].value, Rest(q))
  {
  }

  /** The same for the items from a position on, against paths that start there or later. */
  lemma {:induction false} SearchItems(flagged: JsString -> bool, items: seq<Json>, from: nat, q: seq<Step>)
    requires from <= |items|
    requires FlaggedAt(flagged, Arr(items), q) ==> q != [] && q[0].i >= from
    ensures FirstAgainst(flagged, Arr(items), FirstInItems(flagged, items, from), q)
    decreases items, |items| - from
  {
    if FlaggedAt(flagged, Arr(items), q) {
      StepIsItem(flagged, items, q);
    }
    if from < |items| {
      SearchFindsTheFirst(flagged, items[from], Rest(q));
      var found := FirstFlagged(flagged, items[from]);
      if found.None? {
        SearchItems(flagged, items, from + 1, q);
      } else {
        UnderItem(flagged, items, from, found.value);
        if FlaggedAt(flagged, Arr(items), q) {
          FirstStays(Item(from), found.value, q);
        }
      }
    }
  }

  lemma {:induction false} SearchFields(flagged: JsString -> bool, fields: seq<Field>, from: nat, q: seq<Step>)
    requires from <= |fields|
    requires FlaggedAt(flagged, Obj(fields), q) ==> q != [] && q[0].i >= from
    ensures FirstAgainst(flagged, Obj(fields), FirstInFields(flagged, fields, from), q)
    decreases fields, |fields| - from
  {
    if FlaggedAt(flagged, Obj(fields), q) {
      StepIsEntry(flagged, fields, q);
    }
    if from < |fields| {
      var f := fields[from];
      assert f.value < f;
      SearchFindsTheFirst(flagged, f.value, Rest(q));
      var found := FirstFlagged(flagged, f.value);
      if found.None? {
        SearchFields(flagged, fields, from + 1, q);
      } else {
        UnderEntry(flagged, fields, from, found.value);
        if FlaggedAt(flagged, Obj(fields), q) {
          FirstStays(Entry(from, f.key), found.value, q);
        }
      }
    }
  }

  /** A value is refused exactly when one of its parts is. */
  lemma {:induction false} SomeItem(flagged: JsString -> bool, items: seq<Json>, from: nat)
    requires from <= |items|
    ensures FirstInItems(flagged, items, from).Some?
       <==> exists i :: from <= i < |items| && FirstFlagged(flagged, items[i]).Some?
    decreases |items| - from
  {
    if from < |items| {
      SomeItem(flagged, items, from + 1);
    }
  }

  lemma {:induction false} SomeField(flagged: JsString -> bool, fields: seq<Field>, from: nat)
    requires from <= |fields|
    ensures FirstInFields(flagged, fields, from).Some?
       <==> exists i :: from <= i < |fields| && FirstFlagged(flagged, fields[i].value).Some?
    decreases |fields| - from
  {
    if from < |fields| {
      SomeField(flagged, fields, from + 1);
    }
  }

  // ------------------------------------------------- encoded secrets are found

  /** Token characters would blur where an encoding begins or ends. */
  predicate Bounded(before: JsString, after: JsString) {
    (before == [] || !IsTokenUnit(before[|before| - 1])) && (after == [] || !IsTokenUnit(after[0]))
  }

  lemma EncodingIsLongRun(before: JsString, token: JsString, after: JsString)
    requires Bounded(before, after) && |token| >= MIN_TOKEN
    requires forall i :: 0 <= i < |token| ==> IsTokenUnit(token[i])
    ensures IsLongRun(before + token + after, token)
  {
    var t := before + token + after;
    var i, j := |before|, |before| + |token|;
    assert t[i..j] == token;
    forall k | i <= k < j ensures IsTokenUnit(t[k]) {
      assert t[k] == token[k - i];
    }
    assert i > 0 ==> t[i - 1] == before[i - 1];
    assert j < |t| ==> t[j] == after[0];
    assert IsRun(t, i, j);
  }

  /** A printable text, encoded in either alphabet, padded or not, in at least 16 characters
      between characters that are not token characters, is one of the variants searched. */
  lemma EncodingIsAVariant(alphabet: Alphabet, padded: bool, bytes: seq<Byte>, before: JsString, after: JsString)
    requires AllPrintable(bytes) && |Encode(alphabet, padded, bytes)| >= MIN_TOKEN && Bounded(before, after)
    ensures Text(bytes) in VariantsAdded(before + Encode(alphabet, padded, bytes) + after)
  {
    var token := Encode(alphabet, padded, bytes);
    EncodingIsToken(alphabet, padded, bytes);
    EncodingIsLongRun(before, token, after);
    DecodeUndoesEncode(alphabet, padded, bytes);
    VariantsAreExact(before + token + after, Text(bytes));
  }

  /** So a base64-coded secret anywhere in a value is found. */
  lemma Base64SecretIsFound(secret: JsString -> bool, v: Json, path: seq<Step>, alphabet: Alphabet, padded: bool,
                            bytes: seq<Byte>, before: JsString, after: JsString)
    requires AllPrintable(bytes) && |Encode(alphabet, padded, bytes)| >= MIN_TOKEN && Bounded(before, after)
    requires secret(Text(bytes))
    requires Leaf(v, path) == Some(before + Encode(alphabet, padded, bytes) + after)
    ensures FirstFlagged(Flags(secret), v).Some?
  {
    EncodingIsAVariant(alphabet, padded, bytes, before, after);
    FlaggedByVariant(secret, Leaf(v, path).value, Text(bytes));
    SearchFindsTheFirst(Flags(secret), v, path);
  }

  /** And so is a percent-coded one. */
  lemma PercentCodedSecretIsFound(secret: JsString -> bool, v: Json, path: seq<Step>, text: JsString)
    requires secret(text) && UriComponent.Encode(text).Some? && Leaf(v, path) == UriComponent.Encode(text)
    ensures FirstFlagged(Flags(secret), v).Some?
  {
    UriComponent.EncodeRoundTrip(text);
    VariantsAreExact(Leaf(v, path).value, text);
    FlaggedByVariant(secret, Leaf(v, path).value, text);
    SearchFindsTheFirst(Flags(secret), v, path);
  }
}
