/** How optional values and enumerations are written into a digested object. */
module DigestedTexts {
  import opened JsText
  import opened JsonValues
  import opened X402Payment

  function OrNull(o: Option<JsString>): Json {
    match o
    case None => Null
    case Some(s) => Str(s)
  }

  function NumberOrNull(o: Option<int>): Json {
    match o
    case None => Null
    case Some(n) => Number(n)
  }

  function PostureName(p: BodyPosture): JsString {
    if p == NoBody then Js("no_body")
    else if p == DigestBound then Js("digest_bound")
    else if p == Omitted then Js("omitted")
    else Js("unsupported")
  }

  function EnvironmentName(p: EnvironmentPosture): JsString {
    if p == LocalReferenceSandbox then Js("local_reference_sandbox")
    else if p == ExternalSandbox then Js("external_sandbox")
    else if p == Live then Js("live")
    else Js("unknown")
  }

  function ProfileName(p: EvidenceProfile): JsString {
    if p == OfficialPaymentRequired then Js("official_payment_required") else Js("local_digest_profile")
  }
}
