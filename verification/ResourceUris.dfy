/** MCP resource URIs: the catalog's templates, the refs printed by proposals, and the parser
    that reads them back (src/mcp/resources.ts). */
module ResourceUris {
  import opened JsText
  import opened Canonical
  import opened UriComponent

  const SLASH: CodeUnit := 47
  const DOT: JsString := Js(".")
  const DOT_DOT: JsString := Js("..")

  const METADATA: JsString := Js("metadata")
  const ACTIONS: JsString := Js("actions")
  const CHALLENGES: JsString := Js("challenges")
  const EVIDENCE: JsString := Js("evidence")
  const CONTRACTS: JsString := Js("contracts")
  const OPERATIONS: JsString := Js("operations")
  const READBACK: JsString := Js("readback")
  const CORRELATION: JsString := Js("correlation")
  const ENVELOPES: JsString := Js("envelopes")
  const RECEIPTS: JsString := Js("receipts")
  const TIMELINE: JsString := Js("timeline")
  const IDEMPOTENCY: JsString := Js("idempotency")
  const HEALTH: JsString := Js("health")
  const INSTALL: JsString := Js("install")
  const PRE_CONTRACT: JsString := Js("pre-contract")
  const CERTIFICATES: JsString := Js("certificates")

  datatype Kind =
    | Metadata | Challenge | Contract | OperationReadback | OperationCorrelation | Envelope | ReceiptTimeline
    | Idempotency | InstallHealth | InstallHealthPreContract | CertificateRef

  datatype Resource = Resource(kind: Kind, id: JsString)

  // ------------------------------------------------------------- printing

  function JoinSlash(segments: seq<JsString>): JsString
    requires segments != []
  {
    if |segments| == 1 then segments[0] else segments[0] + [SLASH] + JoinSlash(segments[1..])
  }

  /** The literal segments before a template's variable: the host, then the path. */
  function Before(kind: Kind): (b: seq<JsString>)
    ensures 1 <= |b| <= 3
  {
    match kind
    case Metadata => [METADATA, ACTIONS]
    case Challenge => [CHALLENGES]
    case Contract => [EVIDENCE, CONTRACTS]
    case OperationReadback => [EVIDENCE, OPERATIONS]
    case OperationCorrelation => [EVIDENCE, OPERATIONS]
    case Envelope => [EVIDENCE, ENVELOPES]
    case ReceiptTimeline => [EVIDENCE, RECEIPTS]
    case Idempotency => [EVIDENCE, IDEMPOTENCY]
    case InstallHealth => [HEALTH, INSTALL]
    case InstallHealthPreContract => [HEALTH, INSTALL, PRE_CONTRACT]
    case CertificateRef => [CERTIFICATES]
  }

  /** The literal segments after it. */
  function After(kind: Kind): seq<JsString> {
    match kind
    case OperationReadback => [READBACK]
    case OperationCorrelation => [CORRELATION]
    case ReceiptTimeline => [TIMELINE]
    case _ => []
  }

  const SCHEME: JsString := Js("handshake://")

  /** A template filled with `encodeURIComponent(id)`. */
  function Print(kind: Kind, id: JsString): Option<JsString> {
    match Encode(id)
    case None => None
    case Some(e) => Some(SCHEME + JoinSlash(Before(kind) + [e] + After(kind)))
  }

  // -------------------------------------------------------------- parsing

  function SplitSlash(t: JsString): (segments: seq<JsString>)
    ensures segments != []
  {
    if t == [] then [[]]
    else
      var rest := SplitSlash(t[1..]);
      if t[0] == SLASH then [[]] + rest else [[t[0]] + rest[0]] + rest[1..]
  }

  /** The number of dots a segment writes, as "." or "%2e", when it writes nothing else. */
  function Dots(s: JsString): Option<nat>
    decreases |s|
  {
    if s == [] then Some(0)
    else
      var width := if s[0] == 46 then 1 else 3;
      if s[0] == 46 || (|s| >= 3 && s[0] == PERCENT && s[1] == 50 && (s[2] == 101 || s[2] == 69)) then
        match Dots(s[width..])
        case Some(n) => Some(n + 1)
        case None => None
      else None
  }

  /** The dot segments of a URL path (section 5.2.4 of RFC 3986, and the path state of the
      URL standard). */
  predicate IsSingleDot(s: JsString) {
    Dots(s) == Some(1)
  }

  predicate IsDoubleDot(s: JsString) {
    Dots(s) == Some(2)
  }

  function ResolveDots(segments: seq<JsString>): seq<JsString> {
    if segments == [] then []
    else
      var out, last := ResolveDots(segments[..|segments| - 1]), segments[|segments| - 1];
      if IsDoubleDot(last) then (if out == [] then [] else out[..|out| - 1])
      else if IsSingleDot(last) then out
      else out + [last]
  }

  /** The segments of `new URL(..).pathname`: a final dot segment leaves an empty one. */
  function Pathname(segments: seq<JsString>): seq<JsString> {
    var last := if segments == [] then [] else segments[|segments| - 1];
    ResolveDots(segments) + (if IsDoubleDot(last) || IsSingleDot(last) then [[]] else [])
  }

  /** `.filter(Boolean)`. */
  function NonEmpty(segments: seq<JsString>): seq<JsString> {
    if segments == [] then []
    else NonEmpty(segments[..|segments| - 1])
         + (if segments[|segments| - 1] == [] then [] else [segments[|segments| - 1]])
  }

  /** `.map(decodeURIComponent)`. */
  function DecodeAll(segments: seq<JsString>): Option<seq<JsString>> {
    if segments == [] then Some([])
    else
      match (DecodeAll(segments[..|segments| - 1]), Decode(segments[|segments| - 1]))
      case (Some(init), Some(last)) => Some(init + [last])
      case _ => None
  }

  /** A missing segment is as falsy as an empty one. */
  function At(segments: seq<JsString>, i: nat): JsString {
    if i < |segments| then segments[i] else []
  }

  /** The chain of conditions of `parseMcpResourceUri`; `None` when it throws. */
  function Classify(host: JsString, s: seq<JsString>): Option<Resource> {
    if host == METADATA && At(s, 0) == ACTIONS && At(s, 1) != [] then Some(Resource(Metadata, At(s, 1)))
    else if host == CHALLENGES && At(s, 0) != [] then Some(Resource(Challenge, At(s, 0)))
    else if host == EVIDENCE && At(s, 1) != [] then ClassifyEvidence(s)
    else if host == HEALTH && At(s, 0) == INSTALL && At(s, 1) != [] then
      if At(s, 1) == PRE_CONTRACT && At(s, 2) != [] then Some(Resource(InstallHealthPreContract, At(s, 2)))
      else Some(Resource(InstallHealth, At(s, 1)))
    else if host == CERTIFICATES && At(s, 0) != [] then Some(Resource(CertificateRef, At(s, 0)))
    else None
  }

  function ClassifyEvidence(s: seq<JsString>): Option<Resource> {
    if At(s, 0) == CONTRACTS then Some(Resource(Contract, At(s, 1)))
    else if At(s, 0) == OPERATIONS && At(s, 2) == READBACK then Some(Resource(OperationReadback, At(s, 1)))
    else if At(s, 0) == OPERATIONS && At(s, 2) == CORRELATION then Some(Resource(OperationCorrelation, At(s, 1)))
    else if At(s, 0) == ENVELOPES then Some(Resource(Envelope, At(s, 1)))
    else if At(s, 0) == RECEIPTS && At(s, 2) == TIMELINE then Some(Resource(ReceiptTimeline, At(s, 1)))
    else if At(s, 0) == IDEMPOTENCY then Some(Resource(Idempotency, At(s, 1)))
    else None
  }

  /** What is left of the path segments once the URL is parsed. */
  function Visible(segments: seq<JsString>): Option<seq<JsString>> {
    DecodeAll(NonEmpty(Pathname(segments)))
  }

  function ParseSegments(segments: seq<JsString>): Option<Resource>
    requires segments != []
  {
    match Visible(segments[1..])
    case Some(s) => Classify(segments[0], s)
    case None => None
  }

  function AfterScheme(uri: JsString): Option<JsString> {
    if SCHEME <= uri then Some(uri[|SCHEME|..]) else None
  }

  /** `parseMcpResourceUri`, on texts made of slashes, unreserved characters and escapes. */
  function ParseUri(uri: JsString): Option<Resource> {
    match AfterScheme(uri)
    case Some(t) => ParseSegments(SplitSlash(t))
    case None => None
  }

  // -------------------------------------------------- splitting undoes joining

  lemma {:induction false} SplitFirst(a: JsString, rest: JsString)
    requires SLASH !in a
    ensures SplitSlash(a + [SLASH] + rest) == [a] + SplitSlash(rest)
  {
    var t := a + [SLASH] + rest;
    if a == [] {
      assert t[1..] == rest;
    } else {
      assert t[1..] == a[1..] + [SLASH] + rest;
      SplitFirst(a[1..], rest);
      assert [a[0]] + a[1..] == a;
    }
  }

  lemma {:induction false} SplitLast(a: JsString)
    requires SLASH !in a
    ensures SplitSlash(a) == [a]
  {
    if a != [] {
      SplitLast(a[1..]);
      assert [a[0]] + a[1..] == a;
    }
  }

  lemma {:induction false} SplitJoined(segments: seq<JsString>)
    requires segments != [] && forall i :: 0 <= i < |segments| ==> SLASH !in segments[i]
    ensures SplitSlash(JoinSlash(segments)) == segments
  {
    if |segments| == 1 {
      SplitLast(segments[0]);
    } else {
      SplitJoined(segments[1..]);
      SplitFirst(segments[0], JoinSlash(segments[1..]));
      assert segments == [segments[0]] + segments[1..];
    }
  }

  // -------------------------------------------------------- plain segments

  /** Lower-case letters, digits and hyphens only, as in every literal segment. */
  predicate Plain(s: JsString) {
    s != [] && forall i :: 0 <= i < |s| ==> s[i] == 45 || 48 <= s[i] <= 57 || 97 <= s[i] <= 122
  }

  lemma {:induction false} DecodePlain(s: JsString)
    requires Plain(s)
    ensures Decode(s) == Some(s)
    decreases |s|
  {
    assert s == [s[0]] + s[1..];
    if |s| > 1 {
      DecodePlain(s[1..]);
    } else {
      assert Decode(s[1..]) == Some([]);
    }
  }

  lemma PlainIsNotDot(s: JsString)
    requires Plain(s)
    ensures Dots(s) == None && SLASH !in s
  {
    assert s[0] != 46 && s[0] != PERCENT;
  }

  predicate AllPlain(segments: seq<JsString>) {
    forall i :: 0 <= i < |segments| ==> Plain(segments[i])
  }

  lemma HostsArePlain()
    ensures Plain(METADATA) && Plain(CHALLENGES) && Plain(EVIDENCE) && Plain(HEALTH) && Plain(CERTIFICATES)
  {
  }

  lemma CollectionsArePlain()
    ensures Plain(ACTIONS) && Plain(CONTRACTS) && Plain(OPERATIONS) && Plain(ENVELOPES) && Plain(RECEIPTS)
  {
  }

  lemma OthersArePlain()
    ensures Plain(IDEMPOTENCY) && Plain(INSTALL) && Plain(PRE_CONTRACT)
    ensures Plain(READBACK) && Plain(CORRELATION) && Plain(TIMELINE)
  {
  }

  lemma LiteralsArePlain(kind: Kind)
    ensures AllPlain(Before(kind)) && AllPlain(After(kind))
  {
    HostsArePlain();
    CollectionsArePlain();
    OthersArePlain();
    forall i | 0 <= i < |Before(kind)| ensures Plain(Before(kind)[i]) {
    }
  }

  // ------------------------------------- what is visible, segment by segment

  /** The decoded segments, before the empty one a final dot segment leaves. */
  function Decoded(segments: seq<JsString>): Option<seq<JsString>> {
    DecodeAll(NonEmpty(ResolveDots(segments)))
  }

  lemma NonEmptyAppend(segments: seq<JsString>, last: JsString)
    ensures NonEmpty(segments + [last]) == NonEmpty(segments) + (if last == [] then [] else [last])
  {
    assert (segments + [last])[..|segments|] == segments;
  }

  lemma DecodeAllAppend(segments: seq<JsString>, last: JsString)
    ensures DecodeAll(segments + [last])
         == if DecodeAll(segments).Some? && Decode(last).Some?
            then Some(DecodeAll(segments).value + [Decode(last).value]) else None
  {
    assert (segments + [last])[..|segments|] == segments;
  }

  lemma ResolveDotsAppend(segments: seq<JsString>, last: JsString)
    ensures ResolveDots(segments + [last])
         == var out := ResolveDots(segments);
            if IsDoubleDot(last) then (if out == [] then [] else out[..|out| - 1])
            else if IsSingleDot(last) then out
            else out + [last]
  {
    assert (segments + [last])[..|segments|] == segments;
  }

  lemma VisibleIsDecoded(segments: seq<JsString>)
    ensures Visible(segments) == Decoded(segments)
  {
    var out := ResolveDots(segments);
    NonEmptyAppend(out, []);
    assert out + [] == out;
    assert NonEmpty(out) + [] == NonEmpty(out);
  }

  /** A segment that a URL keeps and that decodes to a given text. */
  predicate Carries(e: JsString, id: JsString) {
    e != [] && !IsSingleDot(e) && !IsDoubleDot(e) && Decode(e) == Some(id)
  }

  lemma CarriedIsDecoded(segments: seq<JsString>, e: JsString, id: JsString)
    requires Decoded(segments).Some? && Carries(e, id)
    ensures Decoded(segments + [e]) == Some(Decoded(segments).value + [id])
  {
    ResolveDotsAppend(segments, e);
    NonEmptyAppend(ResolveDots(segments), e);
    DecodeAllAppend(NonEmpty(ResolveDots(segments)), e);
  }

  lemma EmptyDisappears(segments: seq<JsString>, e: JsString)
    requires e == [] || IsSingleDot(e)
    ensures Decoded(segments + [e]) == Decoded(segments)
  {
    ResolveDotsAppend(segments, e);
    NonEmptyAppend(ResolveDots(segments), e);
    assert NonEmpty(ResolveDots(segments)) + [] == NonEmpty(ResolveDots(segments));
  }

  lemma PlainCarriesItself(s: JsString)
    requires Plain(s)
    ensures Carries(s, s)
  {
    PlainIsNotDot(s);
    DecodePlain(s);
  }

  lemma {:induction false} PlainStays(segments: seq<JsString>)
    requires AllPlain(segments)
    ensures ResolveDots(segments) == segments && Decoded(segments) == Some(segments)
  {
    if segments != [] {
      var init, last := segments[..|segments| - 1], segments[|segments| - 1];
      assert segments == init + [last];
      PlainStays(init);
      PlainCarriesItself(last);
      ResolveDotsAppend(init, last);
      CarriedIsDecoded(init, last, last);
    }
  }

  function WithoutLast(segments: seq<JsString>): seq<JsString> {
    if segments == [] then [] else segments[..|segments| - 1]
  }

  lemma DoubleDotErases(before: seq<JsString>)
    requires AllPlain(before)
    ensures Decoded(before + [DOT_DOT]) == Some(WithoutLast(before))
  {
    DotsOfDots();
    PlainStays(before);
    ResolveDotsAppend(before, DOT_DOT);
    PlainStays(WithoutLast(before));
  }

  lemma DotsOfDots()
    ensures IsSingleDot(DOT) && IsDoubleDot(DOT_DOT)
  {
    assert DOT == [46] && DOT[1..] == [];
    assert DOT_DOT == [46, 46] && DOT_DOT[1..] == DOT;
  }

  /** The literals after the variable are kept, whatever became of the variable. */
  lemma AfterIsKept(segments: seq<JsString>, after: seq<JsString>, kept: seq<JsString>)
    requires Decoded(segments) == Some(kept) && AllPlain(after) && |after| <= 1
    ensures Visible(segments + after) == Some(kept + after)
  {
    VisibleIsDecoded(segments + after);
    if after == [] {
      assert segments + after == segments && kept + after == kept;
    } else {
      assert after == [after[0]];
      PlainCarriesItself(after[0]);
      CarriedIsDecoded(segments, after[0], after[0]);
    }
  }

  // ------------------------------------------------------------ round trip

  predicate Survives(id: JsString) {
    id != [] && id != DOT && id != DOT_DOT
  }

  function Repeat(u: CodeUnit, n: nat): JsString {
    if n == 0 then [] else [u] + Repeat(u, n - 1)
  }

  /** However its dots are written, a segment of n dots decodes to n dots. */
  lemma {:induction false} DotsDecode(e: JsString)
    requires Dots(e).Some?
    ensures Decode(e) == Some(Repeat(46, Dots(e).value))
    decreases |e|
  {
    if e != [] {
      if e[0] == 46 {
        DotsDecode(e[1..]);
      } else {
        DotsDecode(e[3..]);
        assert ReadByte(e) == Some(46);
        assert ReadContinuations(46, 0, e[3..]) == Some(Read(46, e[3..]));
      }
    }
  }

  lemma DotSegmentsDecode(e: JsString)
    requires IsSingleDot(e) || IsDoubleDot(e)
    ensures Decode(e) == Some(DOT) || Decode(e) == Some(DOT_DOT)
  {
    DotsDecode(e);
    assert Repeat(46, 1) == [46] + Repeat(46, 0) == DOT;
    assert Repeat(46, 2) == [46] + Repeat(46, 1) == DOT_DOT;
  }

  /** An id that is neither empty nor a dot segment passes through a URL. */
  lemma EncodedCarries(id: JsString)
    requires Encode(id).Some? && Survives(id)
    ensures Carries(Encode(id).value, id)
  {
    EncodeRoundTrip(id);
    EncodedIsPrinted(id);
    var e := Encode(id).value;
    if IsSingleDot(e) || IsDoubleDot(e) {
      DotSegmentsDecode(e);
    }
  }

  lemma EncodedHasNoSlash(id: JsString)
    requires Encode(id).Some?
    ensures SLASH !in Encode(id).value
  {
    EncodedIsPrinted(id);
    var e := Encode(id).value;
    assert forall i :: 0 <= i < |e| ==> IsPrinted(e[i]);
    assert !IsPrinted(SLASH);
  }

  /** The path segments of a template, without its host. */
  function PathBefore(kind: Kind): seq<JsString> {
    Before(kind)[1..]
  }

  lemma ParseIs(host: JsString, path: seq<JsString>, s: seq<JsString>)
    requires Visible(path) == Some(s)
    ensures ParseSegments([host] + path) == Classify(host, s)
  {
    assert ([host] + path)[1..] == path;
  }

  lemma SchemeIsDropped(t: JsString)
    ensures AfterScheme(SCHEME + t) == Some(t)
  {
  }

  lemma ParseJoined(segments: seq<JsString>)
    requires segments != [] && forall i :: 0 <= i < |segments| ==> SLASH !in segments[i]
    ensures ParseUri(SCHEME + JoinSlash(segments)) == ParseSegments(segments)
  {
    SplitJoined(segments);
    SchemeIsDropped(JoinSlash(segments));
  }

  lemma NoSlashes(before: seq<JsString>, e: JsString, after: seq<JsString>)
    requires AllPlain(before) && AllPlain(after) && SLASH !in e
    ensures forall i :: 0 <= i < |before + [e] + after| ==> SLASH !in (before + [e] + after)[i]
  {
    forall s | Plain(s) ensures SLASH !in s {
      PlainIsNotDot(s);
    }
  }

  lemma FilledSegments(host: JsString, before: seq<JsString>, e: JsString, after: seq<JsString>, kept: seq<JsString>)
    requires AllPlain(after) && |after| <= 1 && Decoded(before + [e]) == Some(kept)
    ensures ParseSegments([host] + before + [e] + after) == Classify(host, kept + after)
  {
    AfterIsKept(before + [e], after, kept);
    assert [host] + before + [e] + after == [host] + (before + [e] + after);
    ParseIs(host, before + [e] + after, kept + after);
  }

  /** A text with one variable segment is classified by what is visible of its path. */
  lemma ParseFilled(host: JsString, before: seq<JsString>, e: JsString, after: seq<JsString>, kept: seq<JsString>)
    requires Plain(host) && AllPlain(before) && SLASH !in e && AllPlain(after) && |after| <= 1
    requires Decoded(before + [e]) == Some(kept)
    ensures ParseUri(SCHEME + JoinSlash([host] + before + [e] + after)) == Classify(host, kept + after)
  {
    NoSlashes([host] + before, e, after);
    ParseJoined([host] + before + [e] + after);
    FilledSegments(host, before, e, after, kept);
  }

  lemma ParsePrinted(kind: Kind, id: JsString, kept: seq<JsString>)
    requires Encode(id).Some?
    requires Decoded(PathBefore(kind) + [Encode(id).value]) == Some(kept)
    ensures ParseUri(Print(kind, id).value) == Classify(Before(kind)[0], kept + After(kind))
  {
    LiteralsArePlain(kind);
    EncodedHasNoSlash(id);
    assert Before(kind) == [Before(kind)[0]] + PathBefore(kind);
    ParseFilled(Before(kind)[0], PathBefore(kind), Encode(id).value, After(kind), kept);
  }

  lemma HostsDiffer()
    ensures METADATA != CHALLENGES && METADATA != EVIDENCE && METADATA != HEALTH && METADATA != CERTIFICATES
    ensures CHALLENGES != EVIDENCE && CHALLENGES != HEALTH && CHALLENGES != CERTIFICATES
    ensures EVIDENCE != HEALTH && EVIDENCE != CERTIFICATES && HEALTH != CERTIFICATES
  {
    assert METADATA[0] == 109 && EVIDENCE[0] == 101;
  }

  lemma CollectionsDiffer()
    ensures CONTRACTS != OPERATIONS && CONTRACTS != ENVELOPES && CONTRACTS != RECEIPTS && CONTRACTS != IDEMPOTENCY
    ensures OPERATIONS != ENVELOPES && OPERATIONS != RECEIPTS && OPERATIONS != IDEMPOTENCY
    ensures ENVELOPES != RECEIPTS && ENVELOPES != IDEMPOTENCY && RECEIPTS != IDEMPOTENCY
    ensures READBACK != CORRELATION && TIMELINE !in [CONTRACTS, OPERATIONS, ENVELOPES, RECEIPTS, IDEMPOTENCY]
  {
    assert CONTRACTS[0] == 99 && ENVELOPES[0] == 101;
    assert TIMELINE[0] == 116 && RECEIPTS[0] == 114;
  }

  /** A kept id in a template's place is classified as that template's resource. */
  lemma ClassifyFilled(kind: Kind, id: JsString)
    requires id != []
    ensures Classify(Before(kind)[0], PathBefore(kind) + [id] + After(kind)) == Some(Resource(kind, id))
  {
    HostsDiffer();
    CollectionsDiffer();
    var s := PathBefore(kind) + [id] + After(kind);
    if kind.InstallHealthPreContract? {
      assert s[0] == INSTALL && s[1] == PRE_CONTRACT && s[2] == id;
    } else if kind.Challenge? || kind.CertificateRef? {
      assert s[0] == id;
    } else {
      assert s[0] == Before(kind)[1] && s[1] == id && (After(kind) != [] ==> s[2] == After(kind)[0]);
      assert |s| == 2 + |After(kind)|;
    }
  }

  /** Without the variable, a template's segments name no resource of its kind. */
  lemma ClassifyUnfilled(kind: Kind, id: JsString)
    ensures Classify(Before(kind)[0], PathBefore(kind) + After(kind)) != Some(Resource(kind, id))
  {
    HostsDiffer();
    CollectionsDiffer();
    var s := PathBefore(kind) + After(kind);
    if kind.InstallHealthPreContract? {
      assert s[0] == INSTALL && s[1] == PRE_CONTRACT && |s| == 2;
    } else if kind.Challenge? || kind.CertificateRef? {
      assert |s| == 0;
    } else {
      assert s[0] == Before(kind)[1] && (After(kind) != [] ==> s[1] == After(kind)[0]);
      assert |s| == 1 + |After(kind)|;
    }
  }

  /** Nor do they when a dot segment also erased the segment before it. */
  lemma ClassifyErased(kind: Kind, id: JsString)
    ensures Classify(Before(kind)[0], WithoutLast(PathBefore(kind)) + After(kind)) != Some(Resource(kind, id))
  {
    HostsDiffer();
    CollectionsDiffer();
    var s := WithoutLast(PathBefore(kind)) + After(kind);
    if kind.InstallHealthPreContract? {
      assert |s| == 1;
    } else {
      assert |s| == |After(kind)| <= 1;
    }
  }

  lemma EncodeDotFirst(rest: JsString)
    requires Encode(rest).Some?
    ensures Encode([46] + rest) == Some([46] + Encode(rest).value)
  {
    var t: JsString := [46] + rest;
    assert t[1..] == rest;
    assert FirstScalar(t) == Some(46) && Utf16(46) == [46];
    assert EncodeScalar(46) == [46];
  }

  lemma EncodeDots()
    ensures Encode([]) == Some([]) && Encode(DOT) == Some(DOT) && Encode(DOT_DOT) == Some(DOT_DOT)
  {
    assert DOT == [46] + [] && DOT_DOT == [46] + DOT;
    EncodeDotFirst([]);
    EncodeDotFirst(DOT);
  }

  lemma PathIsPlain(kind: Kind)
    ensures AllPlain(PathBefore(kind)) && Decoded(PathBefore(kind)) == Some(PathBefore(kind))
  {
    LiteralsArePlain(kind);
    PlainStays(PathBefore(kind));
  }

  /** Filling any template with an encodable id and parsing gives back the template's kind and
      the id, exactly when the id is not empty, "." or "..". */
  lemma TemplateRoundTrip(kind: Kind, id: JsString)
    requires Encode(id).Some?
    ensures ParseUri(Print(kind, id).value) == Some(Resource(kind, id)) <==> Survives(id)
  {
    if Survives(id) {
      FilledRoundTrip(kind, id);
    } else if id == DOT_DOT {
      ErasedIsLost(kind, id);
    } else {
      UnfilledIsLost(kind, id);
    }
  }

  lemma FilledRoundTrip(kind: Kind, id: JsString)
    requires Encode(id).Some? && Survives(id)
    ensures ParseUri(Print(kind, id).value) == Some(Resource(kind, id))
  {
    PathIsPlain(kind);
    EncodedCarries(id);
    CarriedIsDecoded(PathBefore(kind), Encode(id).value, id);
    ParsePrinted(kind, id, PathBefore(kind) + [id]);
    ClassifyFilled(kind, id);
  }

  lemma ErasedIsLost(kind: Kind, id: JsString)
    requires id == DOT_DOT && Encode(id).Some?
    ensures ParseUri(Print(kind, id).value) != Some(Resource(kind, id))
  {
    PathIsPlain(kind);
    EncodeDots();
    DoubleDotErases(PathBefore(kind));
    ParsePrinted(kind, id, WithoutLast(PathBefore(kind)));
    ClassifyErased(kind, id);
  }

  lemma UnfilledIsLost(kind: Kind, id: JsString)
    requires (id == [] || id == DOT) && Encode(id).Some?
    ensures ParseUri(Print(kind, id).value) != Some(Resource(kind, id))
  {
    PathIsPlain(kind);
    EncodeDots();
    DotsOfDots();
    EmptyDisappears(PathBefore(kind), Encode(id).value);
    ParsePrinted(kind, id, PathBefore(kind));
    ClassifyUnfilled(kind, id);
  }

  /** So no two resources share a URI. */
  lemma PrintIsInjective(kind: Kind, id: JsString, kind': Kind, id': JsString)
    requires Encode(id).Some? && Encode(id').Some? && Survives(id) && Survives(id')
    requires Print(kind, id) == Print(kind', id')
    ensures kind == kind' && id == id'
  {
    TemplateRoundTrip(kind, id);
    TemplateRoundTrip(kind', id');
  }

  // -------------------------------------------------------- challenge refs

  /** The challenge refs that proposals print: a reason, then the encoded request id. */
  function ChallengeRef(reason: JsString, requestId: JsString): Option<JsString> {
    match Encode(requestId)
    case None => None
    case Some(e) => Some(SCHEME + JoinSlash([CHALLENGES, reason, e]))
  }

  /** Every reason that proposals print. */
  const REASONS: seq<JsString> :=
    [Js("tools-list-changed"), Js("metadata-stale"), Js("install-not-ready"), Js("gateway-offline"), Js("x402-amount"),
     Js("x402-posture"), Js("replay-refused"), Js("idempotency-params-mismatch"), Js("proposal-refused"),
     Js("proposal-digest-missing")]

  lemma FreshnessReasonsArePlain()
    ensures Plain(Js("tools-list-changed")) && Plain(Js("metadata-stale")) && Plain(Js("install-not-ready"))
  {
  }

  lemma AdmissionReasonsArePlain()
    ensures Plain(Js("gateway-offline")) && Plain(Js("x402-amount")) && Plain(Js("x402-posture"))
  {
  }

  lemma ReplayReasonsArePlain()
    ensures Plain(Js("replay-refused")) && Plain(Js("idempotency-params-mismatch"))
  {
  }

  lemma ProposalReasonsArePlain()
    ensures Plain(Js("proposal-refused")) && Plain(Js("proposal-digest-missing"))
  {
  }

  lemma ReasonsArePlain(i: nat)
    requires i < |REASONS|
    ensures Plain(REASONS[i])
  {
    FreshnessReasonsArePlain();
    AdmissionReasonsArePlain();
    ReplayReasonsArePlain();
    ProposalReasonsArePlain();
  }

  /** Whatever a proposal's challenge ref is about, the parser gives its reason alone. */
  lemma PrintedChallengesForgetTheRequest(i: nat, requestId: JsString)
    requires i < |REASONS| && Encode(requestId).Some?
    ensures ParseUri(ChallengeRef(REASONS[i], requestId).value)
         == if requestId == DOT_DOT then None else Some(Resource(Challenge, REASONS[i]))
  {
    ReasonsArePlain(i);
    ChallengeRefsForgetTheRequest(REASONS[i], requestId);
  }

  lemma ChallengeSegments(reason: JsString, requestId: JsString, s: seq<JsString>)
    requires Plain(reason) && Encode(requestId).Some?
    requires Decoded([reason] + [Encode(requestId).value]) == Some(s)
    ensures ParseUri(ChallengeRef(reason, requestId).value) == Classify(CHALLENGES, s)
  {
    var e := Encode(requestId).value;
    HostsArePlain();
    EncodedHasNoSlash(requestId);
    assert [CHALLENGES, reason, e] == [CHALLENGES] + [reason] + [e] + [];
    assert s + [] == s;
    ParseFilled(CHALLENGES, [reason], e, [], s);
  }

  /** Reading a challenge ref back does not give the request: the parser takes the first
      segment, so the challenge is named by its reason alone, for every request id but "..". */
  lemma ChallengeRefsForgetTheRequest(reason: JsString, requestId: JsString)
    requires Plain(reason) && Encode(requestId).Some?
    ensures ParseUri(ChallengeRef(reason, requestId).value)
         == if requestId == DOT_DOT then None else Some(Resource(Challenge, reason))
  {
    var e := Encode(requestId).value;
    EncodeDots();
    DotsOfDots();
    PlainStays([reason]);
    if requestId == DOT_DOT {
      ChallengeIsErased(reason, requestId);
    } else if Survives(requestId) {
      EncodedCarries(requestId);
      ChallengeKeepsReason(reason, requestId, e);
    } else {
      ChallengeIsReason(reason, requestId, e);
    }
  }

  lemma ChallengeIsReason(reason: JsString, requestId: JsString, e: JsString)
    requires Plain(reason) && Encode(requestId) == Some(e) && (e == [] || IsSingleDot(e))
    requires Decoded([reason]) == Some([reason])
    ensures ParseUri(ChallengeRef(reason, requestId).value) == Some(Resource(Challenge, reason))
  {
    HostsDiffer();
    EmptyDisappears([reason], e);
    ChallengeSegments(reason, requestId, [reason]);
  }

  lemma ChallengeIsErased(reason: JsString, requestId: JsString)
    requires Plain(reason) && Encode(requestId) == Some(DOT_DOT)
    ensures ParseUri(ChallengeRef(reason, requestId).value) == None
  {
    HostsDiffer();
    DoubleDotErases([reason]);
    assert WithoutLast([reason]) == [];
    ChallengeSegments(reason, requestId, []);
  }

  lemma ChallengeKeepsReason(reason: JsString, requestId: JsString, e: JsString)
    requires Plain(reason) && Encode(requestId) == Some(e) && Carries(e, requestId)
    requires Decoded([reason]) == Some([reason])
    ensures ParseUri(ChallengeRef(reason, requestId).value) == Some(Resource(Challenge, reason))
  {
    HostsDiffer();
    CarriedIsDecoded([reason], e, requestId);
    ChallengeSegments(reason, requestId, [reason] + [requestId]);
  }

  // --------------------------------------------------------- resource refs

  /** `x402ResourceRef`, from the endpoint's hostname. */
  function X402ResourceRef(network: JsString, payee: JsString, domain: JsString): Option<JsString> {
    match (Encode(network), Encode(payee), Encode(domain))
    case (Some(n), Some(p), Some(d)) => Some(Js("x402://") + JoinSlash([n, p, d]))
    case _ => None
  }

  /** Two resource refs are equal only for the same network, payee and domain. */
  lemma X402ResourceRefIsInjective(n: JsString, p: JsString, d: JsString, n': JsString, p': JsString, d': JsString)
    requires X402ResourceRef(n, p, d).Some? && X402ResourceRef(n, p, d) == X402ResourceRef(n', p', d')
    ensures n == n' && p == p' && d == d'
  {
    var a := [Encode(n).value, Encode(p).value, Encode(d).value];
    var b := [Encode(n').value, Encode(p').value, Encode(d').value];
    EncodedHasNoSlash(n); EncodedHasNoSlash(p); EncodedHasNoSlash(d);
    EncodedHasNoSlash(n'); EncodedHasNoSlash(p'); EncodedHasNoSlash(d');
    SplitJoined(a);
    SplitJoined(b);
    assert X402ResourceRef(n, p, d).value[|Js("x402://")|..] == JoinSlash(a);
    assert X402ResourceRef(n', p', d').value[|Js("x402://")|..] == JoinSlash(b);
    assert a == b;
    assert a[0] == b[0] && a[1] == b[1] && a[2] == b[2];
    EncodeIsInjective(n, n');
    EncodeIsInjective(p, p');
    EncodeIsInjective(d, d');
  }
}
