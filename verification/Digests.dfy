/** Digests of canonical texts. SHA-256 is a parameter. Since its range is finite it cannot
    be injective; every result that needs two digests to tell two values apart assumes
    only that the two texts at hand do not collide. */
module Digests {
  import opened JsText
  import opened JsonValues
  import opened Canonical
  import opened CanonicalProofs

  /** SHA-256 of the UTF-8 encoding of a text, as `sha256:` and hexadecimal digits. */
  type Hash = JsString -> JsString

  /** A text in the form of a digest: `sha256:` and 64 hexadecimal digits. */
  const ZERO_DIGEST: JsString := Js("sha256:0000000000000000000000000000000000000000000000000000000000000000")

  /** A JSON value that some JavaScript program holds and can digest. */
  type JsonValue = v: Json | Canonicalizable(v) witness Null

  /** `digestCanonical` and `digestMcp`. */
  function DigestOf(hash: Hash, v: JsonValue): JsString {
    hash(CanonicalText(v))
  }

  predicate NoCollision(hash: Hash, v: JsonValue, w: JsonValue) {
    hash(CanonicalText(v)) == hash(CanonicalText(w)) ==> CanonicalText(v) == CanonicalText(w)
  }

  /** Equal digests mean the same JSON value, and the same value has one digest. */
  lemma DigestDecidesSameness(hash: Hash, v: JsonValue, w: JsonValue)
    requires NoCollision(hash, v, w)
    ensures DigestOf(hash, v) == DigestOf(hash, w) <==> Same(v, w)
  {
    TextDecidesSameness(v, w);
  }

  function NullableStr(o: Option<JsString>): Json {
    if o.Some? then Str(o.value) else Null
  }

  function NullableNumber(o: Option<int>): Json {
    if o.Some? then Number(o.value) else Null
  }

  function Zip(keys: seq<JsString>, values: seq<Json>): (fields: seq<Field>)
    requires |keys| == |values|
    ensures |fields| == |keys| && forall i :: 0 <= i < |keys| ==> fields[i] == Field(keys[i], values[i])
  {
    seq(|keys|, i requires 0 <= i < |keys| => Field(keys[i], values[i]))
  }

  lemma ZipConcat(keys: seq<JsString>, values: seq<Json>, keys': seq<JsString>, values': seq<Json>)
    requires |keys| == |values| && |keys'| == |values'|
    ensures Zip(keys + keys', values + values') == Zip(keys, values) + Zip(keys', values')
  {
  }

  /** An object literal of the source: these keys, with these values. */
  function Record(keys: seq<JsString>, values: seq<Json>): (r: Json)
    requires |keys| == |values|
    ensures r.Obj? && Keys(r.fields) == keys
  {
    var fields := Zip(keys, values);
    assert Keys(fields) == keys;
    Obj(fields)
  }

  lemma RecordIsCanonicalizable(keys: seq<JsString>, values: seq<Json>)
    requires |keys| == |values| && Distinct(keys)
    requires forall i :: 0 <= i < |values| ==> Canonicalizable(values[i])
    ensures Canonicalizable(Record(keys, values))
  {
  }

  lemma RecordGet(keys: seq<JsString>, values: seq<Json>, i: nat)
    requires |keys| == |values| && Distinct(keys) && i < |keys|
    ensures Get(Record(keys, values).fields, keys[i]) == values[i]
  {
    var fields := Record(keys, values).fields;
    assert fields[i] == Field(keys[i], values[i]);
    GetFindsEntry(fields, fields[i]);
  }

  /** Two object literals with the same keys are the same exactly when all values are. */
  lemma RecordsAgree(keys: seq<JsString>, vs: seq<Json>, ws: seq<Json>)
    requires |keys| == |vs| == |ws| && Distinct(keys)
    ensures Same(Record(keys, vs), Record(keys, ws))
       <==> forall i :: 0 <= i < |keys| ==> Same(vs[i], ws[i])
  {
    var f, g := Record(keys, vs).fields, Record(keys, ws).fields;
    forall i | 0 <= i < |keys|
      ensures Get(f, keys[i]) == vs[i] && Get(g, keys[i]) == ws[i]
    {
      RecordGet(keys, vs, i);
      RecordGet(keys, ws, i);
    }
    if Same(Record(keys, vs), Record(keys, ws)) {
      forall i | 0 <= i < |keys| ensures Same(vs[i], ws[i]) {
        assert keys[i] in Keys(f) && keys[i] in Keys(g);
      }
    }
  }
}
