/** What two values with one canonical text have in common, and why the text is encodable. */
module CanonicalProofs {
  import opened JsText
  import opened JsonValues
  import opened Canonical
  import opened CanonicalParser

  lemma SortedKeysHasAllKeys(fields: seq<Field>)
    ensures multiset(SortedKeys(fields)) == multiset(Keys(fields))
    ensures Elements(SortedKeys(fields)) == Elements(Keys(fields))
  {
    assert forall k :: k in SortedKeys(fields) <==> k in multiset(SortedKeys(fields));
    assert forall k :: k in Keys(fields) <==> k in multiset(Keys(fields));
  }

  lemma SameKeysSortAlike(f: seq<Field>, g: seq<Field>)
    requires Distinct(Keys(f)) && Distinct(Keys(g))
    requires Elements(Keys(f)) == Elements(Keys(g))
    ensures SortedKeys(f) == SortedKeys(g)
  {
    SameElementsSameMultiset(Keys(f), Keys(g));
    SortForgetsOrder(Keys(f), Keys(g));
  }

  /** Key-order independence at every depth: values that are the same as JSON, whatever
      the order of their objects' entries, have one canonical text. */
  lemma {:induction false} SameValuesSameText(v: Json, w: Json)
    requires Canonicalizable(v) && Canonicalizable(w)
    requires Same(v, w)
    ensures CanonicalText(v) == CanonicalText(w)
    decreases v
  {
    match (v, w)
    case (Arr(a), Arr(b)) =>
      forall i | 0 <= i < |a| ensures CanonicalText(a[i]) == CanonicalText(b[i]) {
        SameValuesSameText(a[i], b[i]);
      }
      assert ItemTexts(a) == ItemTexts(b);
    case (Obj(f), Obj(g)) =>
      SameKeysSortAlike(f, g);
      var keys := SortedKeys(f);
      forall i | 0 <= i < |keys|
        ensures CanonicalText(Get(f, keys[i])) == CanonicalText(Get(g, keys[i]))
      {
        GetIsCanonicalizable(f, keys[i]);
        GetIsCanonicalizable(g, keys[i]);
        GetIsSmaller(v, keys[i]);
        SameValuesSameText(Get(f, keys[i]), Get(g, keys[i]));
      }
      assert FieldTexts(f, keys) == FieldTexts(g, keys);
    case (_, _) =>
  }

  /** Listing the entries of an object in any other order leaves its text unchanged. */
  lemma ReorderingKeepsText(f: seq<Field>, g: seq<Field>)
    requires Canonicalizable(Obj(f)) && multiset(f) == multiset(g)
    ensures Canonicalizable(Obj(g)) && CanonicalText(Obj(f)) == CanonicalText(Obj(g))
  {
    ReorderingKeepsKeysDistinct(f, g);
    forall i | 0 <= i < |g| ensures Canonicalizable(g[i].value) {
      assert g[i] in multiset(f);
      var j :| 0 <= j < |f| && f[j] == g[i];
    }
    ReorderedEntriesAreSame(f, g);
    SameValuesSameText(Obj(f), Obj(g));
  }

  lemma ReorderingKeepsKeysDistinct(f: seq<Field>, g: seq<Field>)
    requires Distinct(Keys(f)) && multiset(f) == multiset(g)
    ensures Distinct(Keys(g))
  {
    assert |f| == |multiset(f)| && |g| == |multiset(g)|;
    forall i, j | 0 <= i < j < |g| ensures g[i].key != g[j].key {
      if g[i].key == g[j].key {
        assert g[i] in multiset(f) && g[j] in multiset(f);
        GetFindsEntry(f, g[i]);
        GetFindsEntry(f, g[j]);
        assert g == g[..j] + [g[j]] + g[j + 1..];
        assert g[i] in g[..j];
        EntryOccursOnce(f, g[i]);
      }
    }
  }

  lemma EntryOccursOnce(f: seq<Field>, e: Field)
    requires Distinct(Keys(f))
    ensures multiset(f)[e] <= 1
  {
    forall i, j | 0 <= i < j < |f| ensures f[i] != f[j] {
      assert Keys(f)[i] != Keys(f)[j];
    }
    DistinctMeansMultiplicityOne(f);
  }

  // --------------------------------------------------- anywhere in a value

  /** The value at a path of positions: of array items, or of object entries. */
  function At(v: Json, path: seq<nat>): Option<Json> {
    if path == [] then Some(v)
    else
      match v
      case Arr(items) => if path[0] < |items| then At(items[path[0]], path[1..]) else None
      case Obj(fields) => if path[0] < |fields| then At(fields[path[0]].value, path[1..]) else None
      case _ => None
  }

  /** A value with another one put at a path. */
  function PutAt(v: Json, path: seq<nat>, x: Json): Json
    requires At(v, path).Some?
    decreases |path|
  {
    if path == [] then x
    else
      match v
      case Arr(items) => Arr(items[path[0] := PutAt(items[path[0]], path[1..], x)])
      case Obj(fields) =>
        var entry := fields[path[0]];
        Obj(fields[path[0] := entry.(value := PutAt(entry.value, path[1..], x))])
  }

  lemma SameItemPut(items: seq<Json>, i: nat, x: Json)
    requires i < |items| && Canonicalizable(Arr(items)) && Canonicalizable(x) && Same(items[i], x)
    ensures Canonicalizable(Arr(items[i := x])) && Same(Arr(items), Arr(items[i := x]))
  {
    forall k | 0 <= k < |items| ensures Same(items[k], items[i := x][k]) {
      SameIsReflexive(items[k]);
    }
  }

  lemma SameEntryPut(fields: seq<Field>, i: nat, x: Json)
    requires i < |fields| && Canonicalizable(Obj(fields)) && Canonicalizable(x) && Same(fields[i].value, x)
    ensures Canonicalizable(Obj(fields[i := fields[i].(value := x)]))
    ensures Same(Obj(fields), Obj(fields[i := fields[i].(value := x)]))
  {
    var put := fields[i := fields[i].(value := x)];
    assert Keys(put) == Keys(fields);
    forall k | k in Keys(fields) && k in Keys(put) ensures Same(Get(fields, k), Get(put, k)) {
      var j :| 0 <= j < |fields| && Keys(fields)[j] == k;
      GetFindsEntry(fields, fields[j]);
      GetFindsEntry(put, put[j]);
      SameIsReflexive(fields[j].value);
    }
  }

  lemma {:induction false} SamePut(v: Json, path: seq<nat>, x: Json)
    requires At(v, path).Some? && Canonicalizable(v) && Canonicalizable(x) && Same(At(v, path).value, x)
    ensures Canonicalizable(PutAt(v, path, x)) && Same(v, PutAt(v, path, x))
    decreases |path|
  {
    if path != [] {
      match v
      case Arr(items) =>
        SamePut(items[path[0]], path[1..], x);
        SameItemPut(items, path[0], PutAt(items[path[0]], path[1..], x));
      case Obj(fields) =>
        SamePut(fields[path[0]].value, path[1..], x);
        SameEntryPut(fields, path[0], PutAt(fields[path[0]].value, path[1..], x));
    }
  }

  lemma {:induction false} AtIsCanonicalizable(v: Json, path: seq<nat>)
    requires At(v, path).Some? && Canonicalizable(v)
    ensures Canonicalizable(At(v, path).value)
    decreases |path|
  {
    if path != [] {
      match v
      case Arr(items) => AtIsCanonicalizable(items[path[0]], path[1..]);
      case Obj(fields) => AtIsCanonicalizable(fields[path[0]].value, path[1..]);
    }
  }

  /** Reordering the entries of any object, at any depth of a value, leaves the text of the
      whole value unchanged. */
  lemma ReorderingAnywhereKeepsText(v: Json, path: seq<nat>, f: seq<Field>, g: seq<Field>)
    requires Canonicalizable(v) && At(v, path) == Some(Obj(f)) && multiset(f) == multiset(g)
    ensures CanonicalText(PutAt(v, path, Obj(g))) == CanonicalText(v)
  {
    AtIsCanonicalizable(v, path);
    ReorderingKeepsText(f, g);
    ReorderedEntriesAreSame(f, g);
    SamePut(v, path, Obj(g));
    SameValuesSameText(v, PutAt(v, path, Obj(g)));
  }

  lemma {:induction false} EqualNormalsAreSame(v: Json, w: Json)
    requires Canonicalizable(v) && Canonicalizable(w)
    requires Normal(v) == Normal(w)
    ensures Same(v, w)
    decreases v
  {
    match v
    case Arr(a) =>
      forall i | 0 <= i < |a| ensures Same(a[i], w.items[i]) {
        EqualNormalItems(a, w.items, i);
        EqualNormalsAreSame(a[i], w.items[i]);
      }
    case Obj(f) =>
      var g := w.fields;
      EqualNormalKeys(f, g);
      forall k | k in Keys(f) && k in Keys(g) ensures Same(Get(f, k), Get(g, k)) {
        EqualNormalEntries(f, g, k);
        GetIsCanonicalizable(f, k);
        GetIsCanonicalizable(g, k);
        GetIsSmaller(v, k);
        EqualNormalsAreSame(Get(f, k), Get(g, k));
      }
    case _ =>
  }

  lemma EqualNormalItems(a: seq<Json>, b: seq<Json>, i: nat)
    requires Normal(Arr(a)) == Normal(Arr(b)) && i < |a|
    ensures |a| == |b| && Normal(a[i]) == Normal(b[i])
  {
    assert |Normal(Arr(a)).items| == |a| && |Normal(Arr(b)).items| == |b|;
    assert Normal(Arr(a)).items[i] == Normal(a[i]) && Normal(Arr(b)).items[i] == Normal(b[i]);
  }

  lemma EqualNormalKeys(f: seq<Field>, g: seq<Field>)
    requires Normal(Obj(f)) == Normal(Obj(g))
    ensures SortedKeys(f) == SortedKeys(g) && Elements(Keys(f)) == Elements(Keys(g))
  {
    var kf, kg := SortedKeys(f), SortedKeys(g);
    assert |kf| == |Normal(Obj(f)).fields| && |Normal(Obj(g)).fields| == |kg|;
    forall i | 0 <= i < |kf| ensures kf[i] == kg[i] {
      assert Normal(Obj(f)).fields[i].key == kf[i] && Normal(Obj(g)).fields[i].key == kg[i];
    }
    SortedKeysHasAllKeys(f);
    SortedKeysHasAllKeys(g);
  }

  lemma EqualNormalEntries(f: seq<Field>, g: seq<Field>, k: JsString)
    requires Normal(Obj(f)) == Normal(Obj(g)) && k in Keys(f) && k in Keys(g)
    ensures Normal(Get(f, k)) == Normal(Get(g, k))
  {
    EqualNormalKeys(f, g);
    SortedKeysHasAllKeys(f);
    assert k in Elements(SortedKeys(f));
    var i :| 0 <= i < |SortedKeys(f)| && SortedKeys(f)[i] == k;
    assert Normal(Obj(f)).fields[i].value == Normal(Get(f, k));
    assert Normal(Obj(g)).fields[i].value == Normal(Get(g, k));
  }

  /** Two values have one canonical text exactly when they are the same JSON value. */
  lemma TextDecidesSameness(v: Json, w: Json)
    requires Canonicalizable(v) && Canonicalizable(w)
    ensures CanonicalText(v) == CanonicalText(w) <==> Same(v, w)
  {
    if CanonicalText(v) == CanonicalText(w) {
      RoundTrip(v, []);
      RoundTrip(w, []);
      assert CanonicalText(v) + [] == CanonicalText(w) + [];
      EqualNormalsAreSame(v, w);
    }
    if Same(v, w) {
      SameValuesSameText(v, w);
    }
  }

  /** `canonicalizeMcp` as a whole: it throws exactly on values with a non-finite number,
      and two values get one text exactly when they are the same JSON value. */
  lemma CanonicalizeMcpIsExact(v: Json, w: Json)
    requires IsValue(v) && IsValue(w)
    ensures CanonicalizeMcp(v).None? <==> !AllFinite(v)
    ensures CanonicalizeMcp(v).Some? && CanonicalizeMcp(v) == CanonicalizeMcp(w)
       <==> AllFinite(v) && AllFinite(w) && Same(v, w)
  {
    CanonicalizableMeaning(v);
    CanonicalizableMeaning(w);
    if AllFinite(v) && AllFinite(w) {
      TextDecidesSameness(v, w);
    }
  }

  lemma {:induction false} WellFormedConcat(a: JsString, b: JsString)
    requires WellFormedUtf16(a) && WellFormedUtf16(b)
    ensures WellFormedUtf16(a + b)
    decreases |a|
  {
    if a == [] {
      assert a + b == b;
    } else if IsHighSurrogate(a[0]) {
      WellFormedConcat(a[2..], b);
      assert (a + b)[2..] == a[2..] + b;
    } else {
      WellFormedConcat(a[1..], b);
      assert (a + b)[1..] == a[1..] + b;
    }
  }

  predicate NoSurrogates(t: JsString) {
    forall i :: 0 <= i < |t| ==> !IsHighSurrogate(t[i]) && !IsLowSurrogate(t[i])
  }

  lemma {:induction false} NoSurrogatesWellFormed(t: JsString)
    requires NoSurrogates(t)
    ensures WellFormedUtf16(t)
    decreases |t|
  {
    if t != [] {
      NoSurrogatesWellFormed(t[1..]);
    }
  }

  lemma {:induction false} EscapeWellFormed(s: JsString)
    ensures WellFormedUtf16(Escape(s))
    decreases |s|
  {
    if s == [] {
    } else if |s| > 1 && IsHighSurrogate(s[0]) && IsLowSurrogate(s[1]) {
      EscapeWellFormed(s[2..]);
      assert s[..2][2..] == [];
      WellFormedConcat(s[..2], Escape(s[2..]));
    } else {
      EscapeWellFormed(s[1..]);
      NoSurrogatesWellFormed(EscapeUnit(s[0]));
      WellFormedConcat(EscapeUnit(s[0]), Escape(s[1..]));
    }
  }

  lemma WellFormedWrapped(open: CodeUnit, body: JsString, close: CodeUnit)
    requires NoSurrogates([open, close]) && WellFormedUtf16(body)
    ensures WellFormedUtf16([open] + body + [close])
  {
    assert [open, close][0] == open && [open, close][1] == close;
    NoSurrogatesWellFormed([open]);
    NoSurrogatesWellFormed([close]);
    WellFormedConcat([open], body);
    WellFormedConcat([open] + body, [close]);
  }

  lemma {:induction false} JoinWellFormed(parts: seq<JsString>)
    requires forall i :: 0 <= i < |parts| ==> WellFormedUtf16(parts[i])
    ensures WellFormedUtf16(Join(parts))
  {
    if |parts| > 1 {
      JoinWellFormed(parts[1..]);
      NoSurrogatesWellFormed([COMMA]);
      WellFormedConcat(parts[0], [COMMA]);
      WellFormedConcat(parts[0] + [COMMA], Join(parts[1..]));
    }
  }

  lemma FieldTextWellFormed(fields: seq<Field>, key: JsString)
    requires key in Keys(fields) && WellFormedUtf16(CanonicalText(Get(fields, key)))
    ensures WellFormedUtf16(FieldText(fields, key))
  {
    EscapeWellFormed(key);
    WellFormedWrapped(QUOTE, Escape(key), QUOTE);
    NoSurrogatesWellFormed([COLON]);
    WellFormedConcat([COLON], CanonicalText(Get(fields, key)));
    WellFormedConcat(Quote(key), [COLON] + CanonicalText(Get(fields, key)));
  }

  /** Whatever lone surrogates the value's strings hold, its canonical text holds none, so
      `TextEncoder` encodes it without replacement and the digest sees the whole text. */
  lemma {:induction false} TextIsWellFormedUtf16(v: Json)
    ensures WellFormedUtf16(CanonicalText(v))
    decreases v
  {
    match v
    case Str(s) =>
      EscapeWellFormed(s);
      WellFormedWrapped(QUOTE, Escape(s), QUOTE);
    case Arr(items) =>
      forall i | 0 <= i < |items| ensures WellFormedUtf16(ItemTexts(items)[i]) {
        TextIsWellFormedUtf16(items[i]);
      }
      JoinWellFormed(ItemTexts(items));
      WellFormedWrapped(OPEN_BRACKET, Join(ItemTexts(items)), CLOSE_BRACKET);
    case Obj(fields) =>
      var keys := SortedKeys(fields);
      forall i | 0 <= i < |keys| ensures WellFormedUtf16(FieldTexts(fields, keys)[i]) {
        GetIsSmaller(v, keys[i]);
        TextIsWellFormedUtf16(Get(fields, keys[i]));
        FieldTextWellFormed(fields, keys[i]);
      }
      JoinWellFormed(FieldTexts(fields, keys));
      WellFormedWrapped(OPEN_BRACE, Join(FieldTexts(fields, keys)), CLOSE_BRACE);
    case _ => NoSurrogatesWellFormed(CanonicalText(v));
  }
}
