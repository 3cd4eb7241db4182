/** Decoded evidence whose intended request goes elsewhere than the advertised resource: the
    runtime compiles it, and the signing surface refuses it. */
module X402OtherRequest {
  import opened JsText
  import opened Decimal
  import opened JsonValues
  import opened Digests
  import opened X402Evidence
  import opened X402Payment
  import opened X402PipelineProofs

  // ------------------------------------------------- writing what is read

  const TERM_KEYS: seq<JsString> :=
    [Js("scheme"), Js("network"), Js("asset"), Js("amount"), Js("payTo"), Js("maxTimeoutSeconds")]
  const REQUIRED_KEYS: seq<JsString> := [Js("x402Version"), Js("resource"), Js("accepts")]
  const RESOURCE_KEYS: seq<JsString> := [Js("url")]

  lemma KeysDistinct()
    ensures Distinct(TERM_KEYS) && Distinct(REQUIRED_KEYS) && Distinct(RESOURCE_KEYS)
    ensures Js("extensions") !in REQUIRED_KEYS
  {
    assert |Js("scheme")| == 6 && |Js("network")| == 7 && |Js("asset")| == 5 && |Js("amount")| == 6;
    assert |Js("payTo")| == 5 && |Js("maxTimeoutSeconds")| == 17;
    assert Js("scheme")[0] == 115 && Js("amount")[0] == 97 && Js("asset")[0] == 97 && Js("payTo")[0] == 112;
    assert |Js("x402Version")| == 11 && |Js("resource")| == 8 && |Js("accepts")| == 7 && |Js("extensions")| == 10;
  }

  lemma RecordLookup(keys: seq<JsString>, values: seq<Json>, i: nat)
    requires |keys| == |values| && Distinct(keys) && i < |keys|
    requires forall k :: 0 <= k < |values| ==> Canonicalizable(values[k])
    ensures Canonicalizable(Record(keys, values))
    ensures Lookup(Record(keys, values), keys[i]) == Some(values[i])
  {
    RecordIsCanonicalizable(keys, values);
    RecordGet(keys, values, i);
    assert Keys(Record(keys, values).fields)[i] == keys[i];
  }

  function TermValues(network: JsString, asset: JsString, amount: JsString, payTo: JsString, timeout: int): seq<Json> {
    [Str(Js("exact")), Str(network), Str(asset), Str(amount), Str(payTo), Number(timeout)]
  }

  /** One exact `accepts` entry. */
  function Terms(network: JsString, asset: JsString, amount: JsString, payTo: JsString, timeout: int): (v: Json)
    ensures Canonicalizable(v)
  {
    KeysDistinct();
    RecordIsCanonicalizable(TERM_KEYS, TermValues(network, asset, amount, payTo, timeout));
    Record(TERM_KEYS, TermValues(network, asset, amount, payTo, timeout))
  }

  lemma RequirementFrom(v: JsonValue, r: Requirement)
    requires StrAt(v, Js("scheme")) == Some(r.scheme) && StrAt(v, Js("network")) == Some(r.network)
    requires StrAt(v, Js("asset")) == Some(r.asset) && StrAt(v, Js("amount")) == Some(r.amount)
    requires StrAt(v, Js("payTo")) == Some(r.payTo)
    requires NumAt(v, Js("maxTimeoutSeconds")) == Some(r.maxTimeoutSeconds) && r.json == v
    ensures ReadRequirement(v) == Some(r)
  {
  }

  lemma TermText(values: seq<Json>, i: nat, s: JsString)
    requires |values| == 6 && i < 6 && values[i] == Str(s)
    requires forall k :: 0 <= k < 6 ==> Canonicalizable(values[k])
    ensures Canonicalizable(Record(TERM_KEYS, values)) && StrAt(Record(TERM_KEYS, values), TERM_KEYS[i]) == Some(s)
  {
    KeysDistinct();
    RecordLookup(TERM_KEYS, values, i);
  }

  lemma TermsRead(network: JsString, asset: JsString, amount: JsString, payTo: JsString, timeout: int)
    ensures var v := Terms(network, asset, amount, payTo, timeout);
      ReadRequirement(v) == Some(Requirement(Js("exact"), network, asset, amount, payTo, timeout, v))
  {
    var values := TermValues(network, asset, amount, payTo, timeout);
    TermText(values, 0, Js("exact"));
    TermText(values, 1, network);
    TermText(values, 2, asset);
    TermText(values, 3, amount);
    TermText(values, 4, payTo);
    KeysDistinct();
    RecordLookup(TERM_KEYS, values, 5);
    var v := Terms(network, asset, amount, payTo, timeout);
    RequirementFrom(v, Requirement(Js("exact"), network, asset, amount, payTo, timeout, v));
  }

  function ResourceOf(url: JsString): (v: Json)
    ensures Canonicalizable(v)
  {
    KeysDistinct();
    RecordIsCanonicalizable(RESOURCE_KEYS, [Str(url)]);
    Record(RESOURCE_KEYS, [Str(url)])
  }

  function RequiredValues(url: JsString, terms: Json): seq<Json> {
    [Number(2), ResourceOf(url), Arr([terms])]
  }

  /** A version 2 PaymentRequired for one resource and one entry. */
  function Required(url: JsString, terms: JsonValue): (v: Json)
    ensures Canonicalizable(v)
  {
    KeysDistinct();
    RecordIsCanonicalizable(REQUIRED_KEYS, RequiredValues(url, terms));
    Record(REQUIRED_KEYS, RequiredValues(url, terms))
  }

  lemma RequiredParts(url: JsString, terms: JsonValue)
    ensures NumAt(Required(url, terms), Js("x402Version")) == Some(2)
    ensures Lookup(Required(url, terms), Js("resource")) == Some(ResourceOf(url))
    ensures ItemsAt(Required(url, terms), Js("accepts")) == Some([terms])
    ensures ExtensionFields(Required(url, terms)) == Some([])
  {
    KeysDistinct();
    var values := RequiredValues(url, terms);
    RecordLookup(REQUIRED_KEYS, values, 0);
    RecordLookup(REQUIRED_KEYS, values, 1);
    RecordLookup(REQUIRED_KEYS, values, 2);
  }

  lemma ResourceRead(url: JsString)
    ensures StrAt(ResourceOf(url), Js("url")) == Some(url)
  {
    KeysDistinct();
    RecordLookup(RESOURCE_KEYS, [Str(url)], 0);
  }

  lemma RequiredFrom(v: JsonValue, resource: JsonValue, url: JsString, terms: JsonValue, r: Requirement)
    requires NumAt(v, Js("x402Version")) == Some(2) && Lookup(v, Js("resource")) == Some(resource)
    requires StrAt(resource, Js("url")) == Some(url)
    requires ItemsAt(v, Js("accepts")) == Some([terms]) && ReadRequirements([terms]) == Some([r])
    requires ExtensionFields(v) == Some([])
    ensures ReadPaymentRequired(v).Some?
    ensures var pr := ReadPaymentRequired(v).value; pr.x402Version == 2 && pr.resourceUrl == url && pr.accepts == [r]
  {
  }

  lemma OneRequirementRead(terms: JsonValue, r: Requirement)
    requires ReadRequirement(terms) == Some(r)
    ensures ReadRequirements([terms]) == Some([r])
  {
    var items: seq<JsonValue> := [terms];
    assert ReadRequirements(items[1..]) == Some([]);
    assert items[0] == terms && [r] + [] == [r];
  }

  /** Reading gives back what was written. */
  lemma RequiredRead(url: JsString, terms: JsonValue, r: Requirement)
    requires ReadRequirement(terms) == Some(r)
    ensures ReadPaymentRequired(Required(url, terms)).Some?
    ensures var pr := ReadPaymentRequired(Required(url, terms)).value;
      pr.x402Version == 2 && pr.resourceUrl == url && pr.accepts == [r]
  {
    RequiredParts(url, terms);
    ResourceRead(url);
    OneRequirementRead(terms, r);
    RequiredFrom(Required(url, terms), ResourceOf(url), url, terms, r);
  }

  // ------------------------------------------------------ a refused request

  const ONE: JsString := Js("1")
  const PACKAGES: map<JsString, JsString> := map[Js("@x402/core") := Js("2.0.0")]

  function TermsOfOne(): JsonValue {
    Terms(Js("eip155:84532"), Js("usdc"), ONE, Js("0xpayee"), 60)
  }

  function RequestTo(url: JsString): IntendedRequest {
    IntendedRequest(Js("GET"), url, None, None, ZERO_DIGEST, None, None)
  }

  function ConfigOfOne(): RuntimeConfig {
    RuntimeConfig(Js("run"), ONE, Js("ref"), ZERO_DIGEST, Js("ready"), ZERO_DIGEST, Js("policy"), ZERO_DIGEST)
  }

  lemma OneIsAnAmount()
    ensures IsAtomicAmount(ONE) && ValueOf(ONE) <= ValueOf(ONE)
  {
    assert ONE == [49];
  }

  lemma DecodedForOne(hash: Hash, resource: JsString, url: JsString)
    ensures Decode(hash, PACKAGES, RequestTo(url), Some(Required(resource, TermsOfOne())), 0).Some?
    ensures var e := Decode(hash, PACKAGES, RequestTo(url), Some(Required(resource, TermsOfOne())), 0).value;
      && e.paymentRequired.x402Version == 2 && e.paymentRequired.resourceUrl == resource
      && e.selected == Requirement(Js("exact"), Js("eip155:84532"), Js("usdc"), ONE, Js("0xpayee"), 60, TermsOfOne())
      && e.selectedIndex == 0 && e.intendedRequest == RequestTo(url) && e.packages == PACKAGES
  {
    var r := Requirement(Js("exact"), Js("eip155:84532"), Js("usdc"), ONE, Js("0xpayee"), 60, TermsOfOne());
    TermsRead(Js("eip155:84532"), Js("usdc"), ONE, Js("0xpayee"), 60);
    RequiredRead(resource, TermsOfOne(), r);
  }

  /** Evidence of one unit, by an exact requirement, for a plain request. */
  predicate IsForOne(e: Evidence) {
    && e.paymentRequired.x402Version == 2 && e.paymentRequired.resourceUrl != []
    && e.selected.scheme == Js("exact") && e.selected.amount == ONE && e.selected.maxTimeoutSeconds > 0
    && e.intendedRequest == RequestTo(e.intendedRequest.url) && e.intendedRequest.url != []
    && e.packages == PACKAGES
  }

  lemma AttemptForOne(hash: Hash, e: Evidence)
    requires IsForOne(e)
    ensures BuildAttempt(hash, AttemptInput(e, None, None, None, None)).Some?
    ensures var a := BuildAttempt(hash, AttemptInput(e, None, None, None, None)).value;
      && a.atomicAmount == ONE && a.bodyPosture.NoBody? && a.bodyDigest.None?
      && a.environmentPosture.LocalReferenceSandbox? && !OfficialEvidenceMissing(a)
  {
    OneIsAnAmount();
    assert Js("@x402/core") in PACKAGES;
  }

  lemma CompilableForOne(hash: Hash, a: Attempt)
    requires a.atomicAmount == ONE && a.bodyPosture.NoBody? && a.bodyDigest.None?
    requires a.environmentPosture.LocalReferenceSandbox? && !OfficialEvidenceMissing(a)
    ensures IsAtomicAmount(ONE) && RefusalCodes(ConfigOfOne(), a) == []
  {
    OneIsAnAmount();
    NoCodesMeansCompilable(ConfigOfOne(), a);
  }

  /** For every digest and any two URLs: evidence that is decoded, an attempt without refusal
      codes, and parameters that the surface of the same header refuses unless the URLs are equal. */
  lemma OtherRequestIsRefused(hash: Hash, hostname: JsString -> JsString, resource: JsString, url: JsString)
    requires resource != [] && url != []
    ensures var decoded: Option<JsonValue> := Some(Required(resource, TermsOfOne()));
      && Decode(hash, PACKAGES, RequestTo(url), decoded, 0).Some?
      && (var e := Decode(hash, PACKAGES, RequestTo(url), decoded, 0).value;
          var input := AttemptInput(e, None, None, None, None);
          && BuildAttempt(hash, input).Some?
          && (var a := BuildAttempt(hash, input).value;
              var s := CreateSurface(decoded.value, 0, e.selectedDigest, None);
              && IsAtomicAmount(ONE) && RefusalCodes(ConfigOfOne(), a) == [] && s.Some?
              && VerifySigningInput(hash, s.value, BuildParameters(hash, hostname, ConfigOfOne(), a))
                 == if url == resource then Accepted(e.selected) else Refused(IntendedRequestDrift)))
  {
    DecodedForOne(hash, resource, url);
    var decoded: Option<JsonValue> := Some(Required(resource, TermsOfOne()));
    var e := Decode(hash, PACKAGES, RequestTo(url), decoded, 0).value;
    var input := AttemptInput(e, None, None, None, None);
    AttemptForOne(hash, e);
    CompilableForOne(hash, BuildAttempt(hash, input).value);
    NoCodesMeansCompilable(ConfigOfOne(), BuildAttempt(hash, input).value);
    HonestParametersPass(hash, hostname, PACKAGES, RequestTo(url), decoded, 0, input, ConfigOfOne());
  }
}
