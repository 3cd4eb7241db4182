/** What is read from a PAYMENT-REQUIRED header, key by key, and when its evidence is decoded and a
    signing surface is created (src/adapters/x402-payment/action-proposal.ts,
    src/adapters/x402-payment/wallet-gateway.ts). */
module X402Reads {
  import opened JsText
  import opened JsonValues
  import opened Canonical
  import opened CanonicalProofs
  import opened Digests
  import opened X402Evidence
  import opened X402Payment
  import opened X402RequestFields
  import X402Built

  /** An object has an entry with this key and this value. */
  predicate Holds(v: Json, key: JsString, value: Json) {
    v.Obj? && Field(key, value) in v.fields
  }

  lemma HoldsAsLookup(v: JsonValue, key: JsString, value: JsonValue)
    ensures Lookup(v, key) == Some(value) <==> Holds(v, key, value)
  {
    if Holds(v, key, value) {
      var i :| 0 <= i < |v.fields| && v.fields[i] == Field(key, value);
      assert Keys(v.fields)[i] == key;
      GetFindsEntry(v.fields, Field(key, value));
    }
  }

  /** One entry of the accepted requirements: six terms, under their own keys. */
  predicate IsRequirement(v: JsonValue, r: Requirement) {
    && Holds(v, Js("scheme"), Str(r.scheme)) && Holds(v, Js("network"), Str(r.network))
    && Holds(v, Js("asset"), Str(r.asset)) && Holds(v, Js("amount"), Str(r.amount))
    && Holds(v, Js("payTo"), Str(r.payTo)) && Holds(v, Js("maxTimeoutSeconds"), Number(r.maxTimeoutSeconds))
    && r.json == v
  }

  lemma TextAt(v: JsonValue, key: JsString, s: JsString)
    ensures StrAt(v, key) == Some(s) <==> Holds(v, key, Str(s))
  {
    HoldsAsLookup(v, key, Str(s));
  }

  lemma NumberAt(v: JsonValue, key: JsString, n: int)
    ensures NumAt(v, key) == Some(n) <==> Holds(v, key, Number(n))
  {
    HoldsAsLookup(v, key, Number(n));
  }

  lemma RequirementIsRead(v: JsonValue, r: Requirement)
    ensures ReadRequirement(v) == Some(r) <==> IsRequirement(v, r)
  {
    TextAt(v, Js("scheme"), r.scheme);
    TextAt(v, Js("network"), r.network);
    TextAt(v, Js("asset"), r.asset);
    TextAt(v, Js("amount"), r.amount);
    TextAt(v, Js("payTo"), r.payTo);
    NumberAt(v, Js("maxTimeoutSeconds"), r.maxTimeoutSeconds);
  }

  predicate ExtensionsAre(v: JsonValue, extensions: seq<Field>) {
    && v.Obj?
    && (if Js("extensions") !in Keys(v.fields) || Holds(v, Js("extensions"), Null) then extensions == []
        else Holds(v, Js("extensions"), Obj(extensions)))
  }

  predicate HasUrl(v: JsonValue, resource: JsonValue, url: JsString) {
    Holds(v, Js("resource"), resource) && Holds(resource, Js("url"), Str(url))
  }

  predicate HasAccepts(v: JsonValue, items: seq<JsonValue>, accepts: seq<Requirement>) {
    && Holds(v, Js("accepts"), Arr(items)) && |items| == |accepts|
    && forall i :: 0 <= i < |items| ==> IsRequirement(items[i], accepts[i])
  }

  lemma {:induction false} AllAreRead(items: seq<JsonValue>)
    requires forall i :: 0 <= i < |items| ==> ReadRequirement(items[i]).Some?
    ensures ReadRequirements(items).Some?
  {
    if items != [] {
      AllAreRead(items[1..]);
    }
  }

  predicate ReadAs(items: seq<JsonValue>, accepts: seq<Requirement>) {
    |items| == |accepts| && forall i :: 0 <= i < |items| ==> ReadRequirement(items[i]) == Some(accepts[i])
  }

  lemma ReadAsListed(items: seq<JsonValue>, accepts: seq<Requirement>)
    ensures ReadRequirements(items) == Some(accepts) <==> ReadAs(items, accepts)
  {
    if ReadAs(items, accepts) {
      AllAreRead(items);
      assert ReadRequirements(items).value == accepts;
    }
  }

  lemma RequirementsAreRead(v: JsonValue, items: seq<JsonValue>, accepts: seq<Requirement>)
    requires Holds(v, Js("accepts"), Arr(items))
    ensures ReadRequirements(items) == Some(accepts) <==> HasAccepts(v, items, accepts)
  {
    ReadAsListed(items, accepts);
    if |items| == |accepts| {
      forall i | 0 <= i < |items|
        ensures ReadRequirement(items[i]) == Some(accepts[i]) <==> IsRequirement(items[i], accepts[i])
      {
        RequirementIsRead(items[i], accepts[i]);
      }
    }
  }

  lemma ExtensionsAreRead(v: JsonValue, extensions: seq<Field>)
    requires v.Obj?
    ensures ExtensionFields(v) == Some(extensions) <==> ExtensionsAre(v, extensions)
  {
    HoldsAsLookup(v, Js("extensions"), Null);
    if Js("extensions") in Keys(v.fields) {
      var found := Lookup(v, Js("extensions")).value;
      HoldsAsLookup(v, Js("extensions"), found);
      if Holds(v, Js("extensions"), Obj(extensions)) {
        GetFindsEntry(v.fields, Field(Js("extensions"), Obj(extensions)));
      }
    }
  }

  /** A PaymentRequired read from a value: version 2, the URL of its resource, the requirements it
      accepts in their order, and the keys of its extensions, ascending. */
  ghost predicate IsRequired(v: JsonValue, pr: PaymentRequired) {
    && Holds(v, Js("x402Version"), Number(2)) && pr.x402Version == 2 && pr.json == v
    && (exists resource: JsonValue :: HasUrl(v, resource, pr.resourceUrl))
    && (exists items: seq<JsonValue> :: HasAccepts(v, items, pr.accepts))
    && (exists extensions :: ExtensionsAre(v, extensions) && ListsKeys(pr, extensions))
  }

  ghost predicate ListsKeys(pr: PaymentRequired, extensions: seq<Field>) {
    && (pr.advertisesIdentifier <==> Js("payment-identifier") in Keys(extensions))
    && Ascending(pr.extensionKeys) && (forall k :: k in pr.extensionKeys <==> k in Keys(extensions))
  }

  lemma ExtensionKeysAscend(v: JsonValue, extensions: seq<Field>)
    requires ExtensionsAre(v, extensions)
    ensures Ascending(SortedKeys(extensions))
    ensures forall k :: k in SortedKeys(extensions) <==> k in Keys(extensions)
  {
    if extensions != [] {
      HoldsAsLookup(v, Js("extensions"), Lookup(v, Js("extensions")).value);
      GetFindsEntry(v.fields, Field(Js("extensions"), Obj(extensions)));
      GetIsCanonicalizable(v.fields, Js("extensions"));
    }
    assert Distinct(Keys(extensions));
    SortAscends(Keys(extensions));
    SortedKeysHasAllKeys(extensions);
    assert forall k :: k in SortedKeys(extensions) <==> k in Elements(SortedKeys(extensions));
    assert forall k :: k in Keys(extensions) <==> k in Elements(Keys(extensions));
  }

  /** Whatever is read was there. */
  lemma ReadIsRequired(v: JsonValue)
    requires ReadPaymentRequired(v).Some?
    ensures IsRequired(v, ReadPaymentRequired(v).value)
  {
    var pr := ReadPaymentRequired(v).value;
    NumberAt(v, Js("x402Version"), 2);
    var resource := Lookup(v, Js("resource")).value;
    HoldsAsLookup(v, Js("resource"), resource);
    TextAt(resource, Js("url"), pr.resourceUrl);
    assert HasUrl(v, resource, pr.resourceUrl);
    var items := ItemsAt(v, Js("accepts")).value;
    HoldsAsLookup(v, Js("accepts"), Arr(items));
    RequirementsAreRead(v, items, pr.accepts);
    assert HasAccepts(v, items, pr.accepts);
    var extensions := ExtensionFields(v).value;
    ExtensionsAreRead(v, extensions);
    ExtensionKeysAscend(v, extensions);
    assert ExtensionsAre(v, extensions) && ListsKeys(pr, extensions);
  }

  /** And whatever has all this is read. */
  lemma RequiredIsRead(v: JsonValue, pr: PaymentRequired)
    requires IsRequired(v, pr)
    ensures ReadPaymentRequired(v).Some?
  {
    NumberAt(v, Js("x402Version"), 2);
    var resource: JsonValue :| HasUrl(v, resource, pr.resourceUrl);
    HoldsAsLookup(v, Js("resource"), resource);
    TextAt(resource, Js("url"), pr.resourceUrl);
    var items: seq<JsonValue> :| HasAccepts(v, items, pr.accepts);
    HoldsAsLookup(v, Js("accepts"), Arr(items));
    RequirementsAreRead(v, items, pr.accepts);
    var extensions :| ExtensionsAre(v, extensions) && ListsKeys(pr, extensions);
    ExtensionsAreRead(v, extensions);
  }

  // --------------------------------------------------- evidence and surfaces

  /** The digest of the selection, of the whole value, the index and the selected entry. */
  function SelectionText(pr: PaymentRequired, index: int, selected: Requirement): JsString
  {
    MaterialsAreValues(pr, index, selected, []);
    EvidenceDigests(pr, index, selected, []);
    CanonicalText(Obj([Field(Js("paymentRequired"), pr.json),
                       Field(Js("selectedPaymentRequirementIndex"), Number(index)),
                       Field(Js("selectedPaymentRequirement"), selected.json)]))
  }

  lemma SelectionIsDigested(hash: Hash, pr: PaymentRequired, index: int, selected: Requirement)
    ensures SelectedDigest(hash, pr, index, selected) == hash(SelectionText(pr, index, selected))
  {
    MaterialsAreValues(pr, index, selected, []);
    EvidenceDigests(pr, index, selected, []);
  }

  /** Evidence is decoded exactly from a value that is read and an index of an accepted exact
      requirement; it keeps what it was given and selects that requirement. */
  lemma DecodedExactly(hash: Hash, packages: map<JsString, JsString>, request: IntendedRequest,
                       decoded: Option<JsonValue>, index: int)
    ensures var e := Decode(hash, packages, request, decoded, index);
      && (e.Some? <==>
            && decoded.Some? && ReadPaymentRequired(decoded.value).Some?
            && 0 <= index < |ReadPaymentRequired(decoded.value).value.accepts|
            && ReadPaymentRequired(decoded.value).value.accepts[index].scheme == Js("exact"))
      && (e.Some? ==>
            && e.value.packages == packages && e.value.intendedRequest == request && e.value.selectedIndex == index
            && ReadPaymentRequired(decoded.value) == Some(e.value.paymentRequired)
            && e.value.paymentRequired.accepts[index] == e.value.selected
            && e.value.selectedDigest == hash(SelectionText(e.value.paymentRequired, index, e.value.selected)))
  {
    var e := Decode(hash, packages, request, decoded, index);
    if e.Some? {
      SelectionIsDigested(hash, e.value.paymentRequired, index, e.value.selected);
    }
  }

  /** A surface is created exactly from a value that is read, for no identifier or for one of 16
      to 128 letters, digits, "_" and "-" that the value advertises; an empty identifier is
      none. */
  lemma SurfaceIsCreatedExactly(json: JsonValue, index: int, digest: JsString, identifier: Option<JsString>)
    ensures var s := CreateSurface(json, index, digest, identifier);
      var given := identifier != None && identifier != Some([]);
      && (s.Some? <==>
            && ReadPaymentRequired(json).Some?
            && (given ==> X402Built.Identifies(identifier.value) && ReadPaymentRequired(json).value.advertisesIdentifier))
      && (s.Some? ==>
            && Some(s.value.paymentRequired) == ReadPaymentRequired(json) && s.value.selectedIndex == index
            && s.value.selectedDigest == digest && s.value.identifier == if given then identifier else None)
  {
    if identifier.Some? {
      assert IsPaymentIdentifier(identifier.value) <==> X402Built.Identifies(identifier.value);
    }
  }
}
