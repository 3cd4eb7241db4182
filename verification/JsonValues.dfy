/** JSON values as JavaScript holds them, and when two of them are the same value. */
module JsonValues {
  import opened JsText

  /** An object is the list of its own entries, in the order `Object.entries` gives them. */
  datatype Field = Field(key: JsString, value: Json)

  datatype Json =
    | Null
    | Bool(b: bool)
    | Number(n: int)
    | NonFinite
    | Str(s: JsString)
    | Arr(items: seq<Json>)
    | Obj(fields: seq<Field>)

  function Keys(fields: seq<Field>): (keys: seq<JsString>)
    ensures |keys| == |fields|
    ensures forall i :: 0 <= i < |fields| ==> keys[i] == fields[i].key
  {
    seq(|fields|, i requires 0 <= i < |fields| => fields[i].key)
  }

  /** `value[key]` for an own key. */
  function Get(fields: seq<Field>, key: JsString): (v: Json)
    requires key in Keys(fields)
    ensures Field(key, v) in fields
  {
    if fields[0].key == key then fields[0].value
    else
      assert Keys(fields)[1..] == Keys(fields[1..]);
      Get(fields[1..], key)
  }

  /** A JavaScript object has at most one entry per key. */
  predicate IsValue(v: Json) {
    match v
    case Arr(items) => forall i :: 0 <= i < |items| ==> IsValue(items[i])
    case Obj(fields) =>
      && Distinct(Keys(fields))
      && forall i :: 0 <= i < |fields| ==> IsValue(fields[i].value)
    case _ => true
  }

  predicate AllFinite(v: Json) {
    match v
    case NonFinite => false
    case Arr(items) => forall i :: 0 <= i < |items| ==> AllFinite(items[i])
    case Obj(fields) => forall i :: 0 <= i < |fields| ==> AllFinite(fields[i].value)
    case _ => true
  }

  /** The values `canonicalizeMcp` does not throw on. */
  predicate Canonicalizable(v: Json) {
    match v
    case NonFinite => false
    case Arr(items) => forall i :: 0 <= i < |items| ==> Canonicalizable(items[i])
    case Obj(fields) =>
      && Distinct(Keys(fields))
      && forall i :: 0 <= i < |fields| ==> Canonicalizable(fields[i].value)
    case _ => true
  }

  /** JSON equality: objects are maps, so the order of their entries does not matter. */
  predicate Same(v: Json, w: Json) {
    match (v, w)
    case (Arr(a), Arr(b)) => |a| == |b| && forall i :: 0 <= i < |a| ==> Same(a[i], b[i])
    case (Obj(f), Obj(g)) =>
      && Elements(Keys(f)) == Elements(Keys(g))
      && forall k :: k in Keys(f) && k in Keys(g) ==> Same(Get(f, k), Get(g, k))
    case (Arr(_), _) => false
    case (Obj(_), _) => false
    case (_, _) => v == w
  }

  lemma GetIsSmaller(v: Json, key: JsString)
    requires v.Obj? && key in Keys(v.fields)
    ensures Get(v.fields, key) < v
  {
    var f := Field(key, Get(v.fields, key));
    assert f in v.fields;
    assert f.value < f;
  }

  lemma GetIsCanonicalizable(fields: seq<Field>, key: JsString)
    requires Canonicalizable(Obj(fields)) && key in Keys(fields)
    ensures Canonicalizable(Get(fields, key))
  {
    var i :| 0 <= i < |fields| && fields[i] == Field(key, Get(fields, key));
    assert Canonicalizable(fields[i].value);
  }

  lemma {:induction false} SameIsReflexive(v: Json)
    ensures Same(v, v)
    decreases v
  {
    match v
    case Arr(items) =>
      forall i | 0 <= i < |items| ensures Same(items[i], items[i]) {
        SameIsReflexive(items[i]);
      }
    case Obj(fields) =>
      forall k | k in Keys(fields) ensures Same(Get(fields, k), Get(fields, k)) {
        GetIsSmaller(v, k);
        SameIsReflexive(Get(fields, k));
      }
    case _ =>
  }

  lemma GetFindsEntry(fields: seq<Field>, f: Field)
    requires Distinct(Keys(fields)) && f in fields
    ensures f.key in Keys(fields) && Get(fields, f.key) == f.value
  {
    var i :| 0 <= i < |fields| && fields[i] == f;
    assert Keys(fields)[i] == f.key;
    var j :| 0 <= j < |fields| && fields[j] == Field(f.key, Get(fields, f.key));
    assert Keys(fields)[j] == f.key;
    assert i == j;
  }

  /** Listing the entries of an object in another order gives the same value. */
  lemma ReorderedEntriesAreSame(f: seq<Field>, g: seq<Field>)
    requires Distinct(Keys(f)) && Distinct(Keys(g))
    requires multiset(f) == multiset(g)
    ensures Same(Obj(f), Obj(g))
  {
    assert forall e :: e in f <==> e in multiset(f);
    assert forall e :: e in g <==> e in multiset(g);
    forall k ensures k in Keys(f) <==> k in Keys(g) {
      if k in Keys(f) {
        GetFindsEntry(g, Field(k, Get(f, k)));
      }
      if k in Keys(g) {
        GetFindsEntry(f, Field(k, Get(g, k)));
      }
    }
    forall k | k in Keys(f) && k in Keys(g) ensures Same(Get(f, k), Get(g, k)) {
      GetFindsEntry(g, Field(k, Get(f, k)));
      SameIsReflexive(Get(f, k));
    }
  }

  lemma {:induction false} CanonicalizableMeaning(v: Json)
    ensures Canonicalizable(v) <==> IsValue(v) && AllFinite(v)
    decreases v
  {
    match v
    case Arr(items) =>
      forall i | 0 <= i < |items|
        ensures Canonicalizable(items[i]) <==> IsValue(items[i]) && AllFinite(items[i])
      {
        CanonicalizableMeaning(items[i]);
      }
    case Obj(fields) =>
      forall i | 0 <= i < |fields|
        ensures Canonicalizable(fields[i].value) <==> IsValue(fields[i].value) && AllFinite(fields[i].value)
      {
        assert fields[i] in fields;
        CanonicalizableMeaning(fields[i].value);
      }
    case _ =>
  }
}
