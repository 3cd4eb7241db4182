/** PAYMENT-REQUIRED evidence: reading the decoded header, and the digests bound to it. */
module X402Evidence {
  import opened JsText
  import opened JsonValues
  import opened Canonical
  import opened CanonicalProofs
  import opened Digests

  // ------------------------------------------------------ reading an object

  function Lookup(v: JsonValue, key: JsString): Option<JsonValue> {
    if v.Obj? && key in Keys(v.fields) then
      GetIsCanonicalizable(v.fields, key);
      Some(Get(v.fields, key))
    else None
  }

  function StrAt(v: JsonValue, key: JsString): Option<JsString> {
    match Lookup(v, key)
    case Some(Str(s)) => Some(s)
    case _ => None
  }

  function NumAt(v: JsonValue, key: JsString): Option<int> {
    match Lookup(v, key)
    case Some(Number(n)) => Some(n)
    case _ => None
  }

  function ItemsAt(v: JsonValue, key: JsString): Option<seq<JsonValue>> {
    match Lookup(v, key)
    case Some(Arr(items)) => Some(items)
    case _ => None
  }

  /** `{...fields, [key]: value}`: an existing entry keeps its place. */
  function SetField(fields: seq<Field>, key: JsString, value: Json): seq<Field> {
    if fields == [] then [Field(key, value)]
    else if fields[0].key == key then [Field(key, value)] + fields[1..]
    else [fields[0]] + SetField(fields[1..], key, value)
  }

  // ---------------------------------------------------- payment requirements

  /** The fields of one `accepts` entry that this code reads, and the entry itself. */
  datatype Requirement = Requirement(
    scheme: JsString, network: JsString, asset: JsString, amount: JsString,
    payTo: JsString, maxTimeoutSeconds: int, json: JsonValue)

  /** A validated V2 PaymentRequired: the fields this code reads, and the whole value. */
  datatype PaymentRequired = PaymentRequired(
    x402Version: int, resourceUrl: JsString, accepts: seq<Requirement>,
    advertisesIdentifier: bool, extensionKeys: seq<JsString>, json: JsonValue)

  function ReadRequirement(v: JsonValue): Option<Requirement> {
    match (StrAt(v, Js("scheme")), StrAt(v, Js("network")), StrAt(v, Js("asset")),
           StrAt(v, Js("amount")), StrAt(v, Js("payTo")), NumAt(v, Js("maxTimeoutSeconds")))
    case (Some(scheme), Some(network), Some(asset), Some(amount), Some(payTo), Some(timeout)) =>
      Some(Requirement(scheme, network, asset, amount, payTo, timeout, v))
    case _ => None
  }

  function ReadRequirements(items: seq<JsonValue>): (r: Option<seq<Requirement>>)
    ensures r.Some? ==> |r.value| == |items|
    ensures r.Some? ==> forall i :: 0 <= i < |items| ==> ReadRequirement(items[i]) == Some(r.value[i])
  {
    if items == [] then Some([])
    else
      match (ReadRequirement(items[0]), ReadRequirements(items[1..]))
      case (Some(head), Some(tail)) => Some([head] + tail)
      case _ => None
  }

  function ExtensionFields(v: JsonValue): Option<seq<Field>> {
    match Lookup(v, Js("extensions"))
    case None => Some([])
    case Some(Null) => Some([])
    case Some(Obj(fields)) => Some(fields)
    case _ => None
  }

  /** `validatePaymentRequired` and `isPaymentRequiredV2`, as far as this code relies on them. */
  function ReadPaymentRequired(v: JsonValue): Option<PaymentRequired> {
    match (NumAt(v, Js("x402Version")), Lookup(v, Js("resource")), ItemsAt(v, Js("accepts")), ExtensionFields(v))
    case (Some(version), Some(resource), Some(items), Some(extensions)) =>
      (match (StrAt(resource, Js("url")), ReadRequirements(items))
       case (Some(url), Some(accepts)) =>
         if version != 2 then None
         else Some(PaymentRequired(version, url, accepts,
           Js("payment-identifier") in Keys(extensions), SortedKeys(extensions), v))
       case _ => None)
    case _ => None
  }

  /** Every PaymentRequired in the program was read from a value. */
  predicate IsRead(pr: PaymentRequired) {
    ReadPaymentRequired(pr.json) == Some(pr)
  }

  // ---------------------------------------------------------------- digests

  function SelectedMaterial(pr: PaymentRequired, index: int, selected: Requirement): Json {
    Record([Js("paymentRequired"), Js("selectedPaymentRequirementIndex"), Js("selectedPaymentRequirement")],
           [pr.json, Number(index), selected.json])
  }

  function RequiredMaterial(pr: PaymentRequired, index: int, selectedDigest: JsString): Json {
    Record([Js("paymentRequired"), Js("selectedPaymentRequirementIndex"), Js("selectedPaymentRequirementDigest")],
           [pr.json, Number(index), Str(selectedDigest)])
  }

  function IdentifierMaterial(identifier: JsString): Json {
    Record([Js("paymentIdentifier"), Js("paymentIdentifierExtension")],
           [Str(identifier), Str(Js("payment-identifier"))])
  }

  lemma MaterialKeysDistinct()
    ensures Distinct([Js("paymentRequired"), Js("selectedPaymentRequirementIndex"), Js("selectedPaymentRequirement")])
    ensures Distinct([Js("paymentRequired"), Js("selectedPaymentRequirementIndex"),
                      Js("selectedPaymentRequirementDigest")])
    ensures Distinct([Js("paymentIdentifier"), Js("paymentIdentifierExtension")])
  {
    assert |Js("paymentRequired")| == 15 && |Js("selectedPaymentRequirementIndex")| == 31;
    assert |Js("selectedPaymentRequirement")| == 26 && |Js("selectedPaymentRequirementDigest")| == 32;
    assert |Js("paymentIdentifier")| == 17 && |Js("paymentIdentifierExtension")| == 26;
  }

  lemma MaterialsAreValues(pr: PaymentRequired, index: int, selected: Requirement, digest: JsString)
    ensures Canonicalizable(SelectedMaterial(pr, index, selected))
    ensures Canonicalizable(RequiredMaterial(pr, index, digest))
  {
    MaterialKeysDistinct();
    RecordIsCanonicalizable(
      [Js("paymentRequired"), Js("selectedPaymentRequirementIndex"), Js("selectedPaymentRequirement")],
      [pr.json, Number(index), selected.json]);
    RecordIsCanonicalizable(
      [Js("paymentRequired"), Js("selectedPaymentRequirementIndex"), Js("selectedPaymentRequirementDigest")],
      [pr.json, Number(index), Str(digest)]);
  }

  lemma IdentifierMaterialIsValue(identifier: JsString)
    ensures Canonicalizable(IdentifierMaterial(identifier))
  {
    MaterialKeysDistinct();
    RecordIsCanonicalizable([Js("paymentIdentifier"), Js("paymentIdentifierExtension")],
                            [Str(identifier), Str(Js("payment-identifier"))]);
  }
}
