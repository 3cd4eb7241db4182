/** The resource URIs spelled out: the text of every template, and which host and segments each
    kind of resource is read from (src/mcp/resources.ts, src/mcp/x402-proposal.ts). */
module ResourceTemplates {
  import opened JsText
  import opened UriComponent
  import opened ResourceUris

  const SEPARATOR: JsString := Js("/")
  const PROTOCOL: JsString := Js("handshake://")

  /** The text of a template around an encoded id. */
  function Template(kind: Kind, e: JsString): JsString {
    match kind
    case Metadata => PROTOCOL + Js("metadata") + SEPARATOR + Js("actions") + SEPARATOR + e
    case Challenge => PROTOCOL + Js("challenges") + SEPARATOR + e
    case Contract => PROTOCOL + Js("evidence") + SEPARATOR + Js("contracts") + SEPARATOR + e
    case OperationReadback =>
      PROTOCOL + Js("evidence") + SEPARATOR + Js("operations") + SEPARATOR + e + SEPARATOR + Js("readback")
    case OperationCorrelation =>
      PROTOCOL + Js("evidence") + SEPARATOR + Js("operations") + SEPARATOR + e + SEPARATOR + Js("correlation")
    case Envelope => PROTOCOL + Js("evidence") + SEPARATOR + Js("envelopes") + SEPARATOR + e
    case ReceiptTimeline =>
      PROTOCOL + Js("evidence") + SEPARATOR + Js("receipts") + SEPARATOR + e + SEPARATOR + Js("timeline")
    case Idempotency => PROTOCOL + Js("evidence") + SEPARATOR + Js("idempotency") + SEPARATOR + e
    case InstallHealth => PROTOCOL + Js("health") + SEPARATOR + Js("install") + SEPARATOR + e
    case InstallHealthPreContract =>
      PROTOCOL + Js("health") + SEPARATOR + Js("install") + SEPARATOR + Js("pre-contract") + SEPARATOR + e
    case CertificateRef => PROTOCOL + Js("certificates") + SEPARATOR + e
  }

  lemma JoinTwo(p: JsString, a: JsString, b: JsString)
    ensures p + JoinSlash([a, b]) == p + a + SEPARATOR + b
  {
    assert SEPARATOR == [SLASH] && [a, b][1..] == [b];
    assert p + (a + SEPARATOR + b) == p + a + SEPARATOR + b;
  }

  lemma JoinOneMore(p: JsString, a: JsString, rest: seq<JsString>)
    requires rest != []
    ensures p + JoinSlash([a] + rest) == p + a + SEPARATOR + JoinSlash(rest)
  {
    assert SEPARATOR == [SLASH] && ([a] + rest)[1..] == rest;
    assert p + (a + SEPARATOR + JoinSlash(rest)) == p + a + SEPARATOR + JoinSlash(rest);
  }

  lemma JoinThree(p: JsString, a: JsString, b: JsString, c: JsString)
    ensures p + JoinSlash([a, b, c]) == p + a + SEPARATOR + b + SEPARATOR + c
  {
    JoinOneMore(p, a, [b, c]);
    JoinTwo(p + a + SEPARATOR, b, c);
    assert [a] + [b, c] == [a, b, c];
  }

  lemma JoinFour(p: JsString, a: JsString, b: JsString, c: JsString, d: JsString)
    ensures p + JoinSlash([a, b, c, d]) == p + a + SEPARATOR + b + SEPARATOR + c + SEPARATOR + d
  {
    JoinOneMore(p, a, [b, c, d]);
    JoinThree(p + a + SEPARATOR, b, c, d);
    assert [a] + [b, c, d] == [a, b, c, d];
  }

  lemma TwoSegments(kind: Kind, e: JsString)
    requires kind.Challenge? || kind.CertificateRef?
    ensures SCHEME + JoinSlash(Before(kind) + [e] + After(kind)) == Template(kind, e)
  {
    assert Before(kind) + [e] + After(kind) == [Before(kind)[0], e];
    JoinTwo(SCHEME, Before(kind)[0], e);
  }

  lemma ThreeSegments(kind: Kind, e: JsString)
    requires kind.Metadata? || kind.Contract? || kind.Envelope? || kind.Idempotency? || kind.InstallHealth?
    ensures SCHEME + JoinSlash(Before(kind) + [e] + After(kind)) == Template(kind, e)
  {
    assert Before(kind) + [e] + After(kind) == [Before(kind)[0], Before(kind)[1], e];
    JoinThree(SCHEME, Before(kind)[0], Before(kind)[1], e);
  }

  lemma FourSegments(kind: Kind, e: JsString)
    requires kind.OperationReadback? || kind.OperationCorrelation? || kind.ReceiptTimeline?
    ensures SCHEME + JoinSlash(Before(kind) + [e] + After(kind)) == Template(kind, e)
  {
    assert Before(kind) + [e] + After(kind) == [Before(kind)[0], Before(kind)[1], e, After(kind)[0]];
    JoinFour(SCHEME, Before(kind)[0], Before(kind)[1], e, After(kind)[0]);
  }

  lemma PreContractSegments(e: JsString)
    ensures SCHEME + JoinSlash(Before(InstallHealthPreContract) + [e] + After(InstallHealthPreContract))
         == Template(InstallHealthPreContract, e)
  {
    var b := Before(InstallHealthPreContract);
    assert b + [e] + After(InstallHealthPreContract) == [b[0], b[1], b[2], e];
    JoinFour(SCHEME, b[0], b[1], b[2], e);
  }

  /** A filled template is that text, around `encodeURIComponent` of the id. */
  lemma PrintIs(kind: Kind, id: JsString)
    ensures Print(kind, id) == match Encode(id) case Some(e) => Some(Template(kind, e)) case None => None
  {
    if Encode(id).Some? {
      var e := Encode(id).value;
      match kind
      case Challenge | CertificateRef => TwoSegments(kind, e);
      case OperationReadback | OperationCorrelation | ReceiptTimeline => FourSegments(kind, e);
      case InstallHealthPreContract => PreContractSegments(e);
      case _ => ThreeSegments(kind, e);
    }
  }

  /** The ref of a challenge. */
  lemma ChallengeRefIs(reason: JsString, requestId: JsString)
    ensures ChallengeRef(reason, requestId)
         == match Encode(requestId)
            case Some(e) => Some(PROTOCOL + Js("challenges") + SEPARATOR + reason + SEPARATOR + e)
            case None => None
  {
    if Encode(requestId).Some? {
      JoinThree(SCHEME, CHALLENGES, reason, Encode(requestId).value);
    }
  }

  /** The ref of an x402 resource. */
  lemma X402ResourceRefIs(network: JsString, payee: JsString, domain: JsString)
    ensures X402ResourceRef(network, payee, domain)
         == match (Encode(network), Encode(payee), Encode(domain))
            case (Some(n), Some(p), Some(d)) => Some(Js("x402://") + n + SEPARATOR + p + SEPARATOR + d)
            case _ => None
  {
    if Encode(network).Some? && Encode(payee).Some? && Encode(domain).Some? {
      JoinThree(Js("x402://"), Encode(network).value, Encode(payee).value, Encode(domain).value);
    }
  }

  // ---------------------------------------------------------------- reading

  /** The segment at a position is a given text. */
  predicate Has(s: seq<JsString>, i: nat, text: JsString) {
    i < |s| && s[i] == text
  }

  /** The host and segments a resource is read from; segments past these are ignored. */
  predicate ReadsAs(host: JsString, s: seq<JsString>, kind: Kind, id: JsString) {
    match kind
    case Metadata => host == Js("metadata") && Has(s, 0, Js("actions")) && Has(s, 1, id)
    case Challenge => host == Js("challenges") && Has(s, 0, id)
    case Contract => host == Js("evidence") && Has(s, 0, Js("contracts")) && Has(s, 1, id)
    case OperationReadback =>
      host == Js("evidence") && Has(s, 0, Js("operations")) && Has(s, 1, id) && Has(s, 2, Js("readback"))
    case OperationCorrelation =>
      host == Js("evidence") && Has(s, 0, Js("operations")) && Has(s, 1, id) && Has(s, 2, Js("correlation"))
    case Envelope => host == Js("evidence") && Has(s, 0, Js("envelopes")) && Has(s, 1, id)
    case ReceiptTimeline =>
      host == Js("evidence") && Has(s, 0, Js("receipts")) && Has(s, 1, id) && Has(s, 2, Js("timeline"))
    case Idempotency => host == Js("evidence") && Has(s, 0, Js("idempotency")) && Has(s, 1, id)
    case InstallHealth =>
      host == Js("health") && Has(s, 0, Js("install")) && Has(s, 1, id)
      && (id == Js("pre-contract") ==> |s| < 3 || s[2] == [])
    case InstallHealthPreContract =>
      host == Js("health") && Has(s, 0, Js("install")) && Has(s, 1, Js("pre-contract")) && Has(s, 2, id)
    case CertificateRef => host == Js("certificates") && Has(s, 0, id)
  }

  lemma NamesDiffer()
    ensures Js("metadata") != Js("challenges") && Js("metadata") != Js("evidence") && Js("metadata") != Js("health")
    ensures Js("metadata") != Js("certificates") && Js("challenges") != Js("evidence")
    ensures Js("challenges") != Js("health") && Js("challenges") != Js("certificates") && Js("evidence") != Js("health")
    ensures Js("evidence") != Js("certificates") && Js("health") != Js("certificates")
  {
    assert Js("metadata")[0] == 109 && Js("challenges")[1] == 104 && Js("evidence")[1] == 118 && Js("health")[1] == 101;
    assert Js("certificates")[1] == 101 && Js("certificates")[0] == 99;
    assert Js("health")[0] == 104 && Js("evidence")[0] == 101;
  }

  lemma CollectionsDiffer()
    ensures Js("contracts") != Js("operations") && Js("contracts") != Js("envelopes")
    ensures Js("contracts") != Js("receipts") && Js("contracts") != Js("idempotency")
    ensures Js("operations") != Js("envelopes") && Js("operations") != Js("receipts")
    ensures Js("operations") != Js("idempotency") && Js("envelopes") != Js("receipts")
    ensures Js("envelopes") != Js("idempotency") && Js("receipts") != Js("idempotency")
  {
    assert Js("contracts")[0] == 99 && Js("operations")[0] == 111 && Js("envelopes")[0] == 101;
    assert Js("receipts")[0] == 114 && Js("idempotency")[0] == 105;
  }

  lemma ViewsDiffer()
    ensures Js("readback") != Js("correlation")
    ensures Js("readback") != [] && Js("correlation") != [] && Js("timeline") != []
  {
    assert |Js("readback")| == 8 && |Js("correlation")| == 11;
  }

  /** A host and segments are read as a resource exactly so; the id is never empty. */
  lemma ClassifiedExactly(host: JsString, s: seq<JsString>, kind: Kind, id: JsString)
    ensures Classify(host, s) == Some(Resource(kind, id)) <==> id != [] && ReadsAs(host, s, kind, id)
  {
    NamesDiffer();
    CollectionsDiffer();
    ViewsDiffer();
  }

  // ------------------------------------------------------------ dot segments

  predicate IsDot(s: JsString) {
    s == Js(".") || s == Js("%2e") || s == Js("%2E")
  }

  lemma {:induction false} DotsAreWritten(s: JsString)
    ensures Dots(s) == Some(0) <==> s == []
    ensures Dots(s) == Some(1) <==> IsDot(s)
    decreases |s|
  {
    assert Js(".") == [46] && Js("%2e") == [37, 50, 101] && Js("%2E") == [37, 50, 69];
    if s != [] && s[0] == 46 {
      DotsAreWritten(s[1..]);
      assert s == [46] + s[1..];
    } else if |s| >= 3 && s[0] == 37 && s[1] == 50 && (s[2] == 101 || s[2] == 69) {
      DotsAreWritten(s[3..]);
      assert s == [37, 50, s[2]] + s[3..];
    }
  }

  /** The first dot of a segment takes one character or three. */
  function Width(s: JsString): nat {
    if s != [] && s[0] == 46 then 1 else 3
  }

  /** A single dot segment is a dot, written plainly or escaped; a double one is two of them. */
  lemma DotSegmentsAre(s: JsString)
    ensures IsSingleDot(s) <==> IsDot(s)
    ensures IsDoubleDot(s) <==> |s| >= Width(s) && IsDot(s[..Width(s)]) && IsDot(s[Width(s)..])
  {
    DotsAreWritten(s);
    assert Js(".") == [46] && Js("%2e") == [37, 50, 101] && Js("%2E") == [37, 50, 69];
    if |s| >= Width(s) {
      DotsAreWritten(s[Width(s)..]);
    }
  }
}
