/** CBOM documents into artefacts (backend/app/services/cbom_ingest.py). */
module CbomIngest {
  import opened Wrappers
  import Enums
  import opened Artefacts
  import opened Vocabulary
  import opened Cyclonedx
  import Decimal
  import opened Text

  const KEY_SIZE := "trinetra:key-size-bits"
  const DETECTION_METHOD := "trinetra:detection-method"
  const CONFIDENCE := "trinetra:confidence"
  const RULE_ID := "trinetra:rule-id"
  const CLOUD_PROVIDER := "trinetra:cloud-provider"
  const CLOUD_SERVICE := "trinetra:cloud-service"
  const KEY_MANAGEMENT := "trinetra:key-management"
  const RESOURCE := "trinetra:resource-id"
  const REGION := "trinetra:region"

  // ----- the envelope -----

  datatype Problem = WrongFormat | WrongVersion | BadSerial | NoMetadata | NoTimestamp | NoToolList | ComponentsNotAList

  function MetadataProblems(m: Option<Metadata>): seq<Problem> {
    match m
    case None => [NoMetadata]
    case Some(meta) =>
      (if IsTruthy(meta.timestamp) then [] else [NoTimestamp])
      + (if meta.tools.ToolsList? && meta.tools.tools != [] then [] else [NoToolList])
  }

  function HeaderProblems(d: Document): seq<Problem> {
    (if d.bomFormat == Some(CYCLONEDX) then [] else [WrongFormat])
    + (if d.specVersion == Some(SPEC_VERSION) then [] else [WrongVersion])
    + (if d.serialNumber.Some? && SERIAL_PREFIX <= d.serialNumber.value then [] else [BadSerial])
  }

  /** Every problem, in the order they are looked for. */
  function Problems(d: Document): seq<Problem> {
    HeaderProblems(d) + MetadataProblems(d.metadata) + if d.components.NotAList? then [ComponentsNotAList] else []
  }

  method ValidateHeader(d: Document) returns (problems: seq<Problem>)
    ensures problems == HeaderProblems(d)
  {
    problems := [];
    if d.bomFormat != Some(CYCLONEDX) {
      problems := problems + [WrongFormat];
    }
    if d.specVersion != Some(SPEC_VERSION) {
      problems := problems + [WrongVersion];
    }
    if d.serialNumber.None? || !(SERIAL_PREFIX <= d.serialNumber.value) {
      problems := problems + [BadSerial];
    }
  }

  method ValidateDocument(d: Document) returns (problems: seq<Problem>)
    ensures problems == Problems(d)
  {
    problems := ValidateHeader(d);
    if d.metadata.None? {
      problems := problems + [NoMetadata];
    } else {
      ghost var header := problems;
      if !IsTruthy(d.metadata.value.timestamp) {
        problems := problems + [NoTimestamp];
      }
      var tools := d.metadata.value.tools;
      if !tools.ToolsList? || tools.tools == [] {
        problems := problems + [NoToolList];
      }
      assert problems == header + MetadataProblems(d.metadata);
    }
    if d.components.NotAList? {
      problems := problems + [ComponentsNotAList];
    }
  }

  // ----- properties -----

  /** The last readable property of a name wins. */
  function IndexOf(properties: seq<Property>): map<string, string> {
    if properties == [] then map[]
    else
      var index := IndexOf(properties[..|properties| - 1]);
      match properties[|properties| - 1]
      case Unreadable => index
      case Property(name, value) => index[name := value]
  }

  method IndexProperties(properties: seq<Property>) returns (indexed: map<string, string>)
    ensures indexed == IndexOf(properties)
  {
    indexed := map[];
    for i := 0 to |properties|
      invariant indexed == IndexOf(properties[..i])
    {
      assert properties[..i + 1][..i] == properties[..i];
      if properties[i].Property? {
        indexed := indexed[properties[i].name := properties[i].value];
      }
    }
    assert properties[..|properties|] == properties;
  }

  function Get(index: map<string, string>, name: string): Option<string> {
    if name in index then Some(index[name]) else None
  }

  // ----- scalars -----

  /** A positive int, or None for anything else. */
  function ParsePositive(raw: Option<string>): (n: Option<nat>)
    ensures n.Some? ==> n.value > 0
  {
    if raw.None? then None
    else
      var value := Decimal.ParseInt(raw.value);
      if value.Some? && value.value > 0 then Some(value.value) else None
  }

  function ParsePositiveScalar(raw: Option<Scalar>): (n: Option<nat>)
    ensures n.Some? ==> n.value > 0
  {
    match raw
    case None => None
    case Some(Number(value)) => if value > 0 then Some(value) else None
    case Some(Text(text)) => ParsePositive(Some(text))
  }

  const DETECTION_METHODS := {
    "semgrep_pattern", "semgrep_taint", "tree_sitter_ast", "dependency_manifest", "sbom_ingest", "binary_symbol",
    "binary_constant", "certificate_parse", "tls_handshake", "pkcs11_enumeration", "cloud_api", "config_parse",
    "entropy_heuristic", "other"}

  function ParseDetectionMethod(raw: Option<string>): string {
    if raw.Some? && raw.value in DETECTION_METHODS then raw.value else "other"
  }

  /** An unstated confidence is low. */
  function ParseConfidence(raw: Option<string>): Enums.Confidence {
    if raw == Some("high") then Enums.Confidence.High
    else if raw == Some("medium") then Enums.Confidence.Medium
    else Enums.Confidence.Low
  }

  /** The record types strip every string they are given. */
  function Stripped(s: Option<string>): Option<string> {
    if s.Some? then Some(Strip(s.value)) else None
  }

  // ----- the algorithm name -----

  /** `s.split(separator)[0]` */
  function Before(s: string, separator: char): string {
    if s == "" || s[0] == separator then "" else [s[0]] + Before(s[1..], separator)
  }

  function LeadingToken(name: string): string {
    Before(Before(Before(Lower(Strip(name)), '-'), '_'), '/')
  }

  predicate IsSeparator(c: char) {
    c == '-' || c == '_' || c == '/'
  }

  lemma {:induction false} BeforeIsPrefix(s: string, separator: char)
    ensures Before(s, separator) <= s
    ensures separator !in Before(s, separator)
    ensures Before(s, separator) == s || s[|Before(s, separator)|] == separator
  {
    if s != "" && s[0] != separator {
      BeforeIsPrefix(s[1..], separator);
      assert s == [s[0]] + s[1..];
    }
  }

  /** The three splits together cut the lower-cased name at its first separator of any kind. */
  lemma LeadingTokenIsCutAtFirstSeparator(name: string)
    ensures var s, t := Lower(Strip(name)), LeadingToken(name);
            t <= s && (forall c :: c in t ==> !IsSeparator(c)) && (t == s || IsSeparator(s[|t|]))
  {
    var s := Lower(Strip(name));
    var a := Before(s, '-');
    var b := Before(a, '_');
    BeforeIsPrefix(s, '-');
    BeforeIsPrefix(a, '_');
    BeforeIsPrefix(b, '/');
  }

  function NoneIfEmpty(s: string): Option<string> {
    if s == "" then None else Some(s)
  }

  /** The explicit property wins; otherwise the leading token of the name. */
  function ResolvedAlgorithm(name: string, index: map<string, string>): Option<string> {
    if IsTruthy(Get(index, ALGORITHM)) then NoneIfEmpty(Lower(Strip(Get(index, ALGORITHM).value)))
    else NoneIfEmpty(LeadingToken(name))
  }

  method ResolveAlgorithm(name: string, index: map<string, string>) returns (algorithm: Option<string>)
    ensures algorithm == ResolvedAlgorithm(name, index)
  {
    var explicit := Get(index, ALGORITHM);
    if IsTruthy(explicit) {
      return NoneIfEmpty(Lower(Strip(explicit.value)));
    }
    var token := Lower(Strip(name));
    var separators := ['-', '_', '/'];
    for i := 0 to 3
      invariant i == 0 ==> token == Lower(Strip(name))
      invariant i == 1 ==> token == Before(Lower(Strip(name)), '-')
      invariant i == 2 ==> token == Before(Before(Lower(Strip(name)), '-'), '_')
      invariant i == 3 ==> token == LeadingToken(name)
    {
      token := Before(token, separators[i]);
    }
    return NoneIfEmpty(token);
  }

  // ----- details -----

  function StatedKeySize(p: AlgorithmProperties, index: map<string, string>): Option<nat> {
    var stated := ParsePositive(Get(index, KEY_SIZE));
    if stated.Some? then stated else ParsePositive(p.parameterSetIdentifier)
  }

  /** A numeric parameter set is the key size, unless the key size was stated separately. */
  function AlgorithmDetailFrom(p: AlgorithmProperties, index: map<string, string>): AlgorithmDetail {
    var stated := ParsePositive(Get(index, KEY_SIZE));
    var isNumeric := stated.None? && ParsePositive(OrNone(p.parameterSetIdentifier)).Some?;
    AlgorithmDetail(
      if IsTruthy(p.mode) then Some(ModeFromWire(p.mode.value)) else None,
      if IsTruthy(p.padding) then Some(PaddingFromWire(p.padding.value)) else None,
      if isNumeric then ParsePositive(p.parameterSetIdentifier) else stated,
      Stripped(OrNone(p.curve)),
      if isNumeric then None else Stripped(OrNone(p.parameterSetIdentifier)),
      None)
  }

  const HOLLOW := AlgorithmDetail(None, None, None, None, None, None)

  /** Whether anything about a managed key differs from the record's defaults. */
  predicate IsCloudPopulated(p: AlgorithmProperties, index: map<string, string>) {
    || IsTruthy(p.parameterSetIdentifier)
    || IsTruthy(Get(index, RESOURCE))
    || IsTruthy(Get(index, REGION))
    || IsOneOf(Get(index, CLOUD_PROVIDER), ["aws", "azure", "gcp", "ibm", "oracle", "on_premise"])
    || IsOneOf(Get(index, CLOUD_SERVICE), ["kms", "cloud_hsm", "certificate_manager", "secrets_manager", "vault"])
    || IsOneOf(Get(index, KEY_MANAGEMENT), ["provider_managed", "customer_managed", "customer_supplied"])
  }

  predicate IsOneOf(s: Option<string>, values: seq<string>) {
    s.Some? && s.value in values
  }

  /** A hollow detail is not attached. */
  function DetailFrom(kind: Enums.AssetType, name: string, p: AlgorithmProperties, index: map<string, string>): Option<Detail> {
    match kind
    case Library => Some(OfLibrary(name))
    case Algorithm =>
      var d := AlgorithmDetailFrom(p, index);
      if d == HOLLOW then None else Some(OfAlgorithm(d))
    case Certificate => Some(OfOther(kind))
    case Protocol => Some(OfOther(kind))
    case Key => if StatedKeySize(p, index).Some? then Some(OfOther(kind)) else None
    case CloudService => if IsCloudPopulated(p, index) then Some(OfOther(kind)) else None
    case HardwareModule => None
    case RelatedMaterial => None
  }

  method BuildAlgorithmDetail(p: AlgorithmProperties, index: map<string, string>) returns (detail: Option<Detail>)
    ensures detail == if AlgorithmDetailFrom(p, index) == HOLLOW then None else Some(OfAlgorithm(AlgorithmDetailFrom(p, index)))
  {
    var keySize: Option<nat> := None;
    if IsTruthy(Get(index, KEY_SIZE)) {
      keySize := ParsePositive(Get(index, KEY_SIZE));
    }
    var parameterSet := OrNone(p.parameterSetIdentifier);
    if keySize.None? && parameterSet.Some? {
      keySize := ParsePositive(parameterSet);
      if keySize.Some? {
        parameterSet := None;
      }
    }
    var d := AlgorithmDetail(
      if IsTruthy(p.mode) then Some(ModeFromWire(p.mode.value)) else None,
      if IsTruthy(p.padding) then Some(PaddingFromWire(p.padding.value)) else None,
      keySize, Stripped(OrNone(p.curve)), Stripped(parameterSet), None);
    return if d == HOLLOW then None else Some(OfAlgorithm(d));
  }

  // ----- evidence -----

  datatype IngestError = NoName | AbsolutePath | NoOccurrence | DatesRejected | Mistyped

  predicate IsAbsolute(path: string) {
    (path != "" && path[0] == '/') || (|path| > 1 && path[1] == ':')
  }

  function PathOf(o: Occurrence): string {
    if o.Occurrence? && o.location.Some? then Strip(o.location.value) else ""
  }

  function EvidenceOf(o: Occurrence, index: map<string, string>): Evidence
    requires o.Occurrence?
  {
    Evidence(
      SourceLocation(PathOf(o), ParsePositiveScalar(o.line), None, None),
      ParseDetectionMethod(Get(index, DETECTION_METHOD)),
      ParseConfidence(Get(index, CONFIDENCE)),
      None, Stripped(Get(index, RULE_ID)), Stripped(OrNone(o.additionalContext)), false)
  }

  /** Occurrences without a location are passed over; an absolute one is an error. */
  function EvidenceFrom(os: seq<Occurrence>, index: map<string, string>): Result<seq<Evidence>, IngestError> {
    if os == [] then Success([])
    else if PathOf(os[0]) == "" then EvidenceFrom(os[1..], index)
    else if IsAbsolute(PathOf(os[0])) then Failure(AbsolutePath)
    else Prefixed([EvidenceOf(os[0], index)], EvidenceFrom(os[1..], index))
  }

  function Prefixed(found: seq<Evidence>, rest: Result<seq<Evidence>, IngestError>): Result<seq<Evidence>, IngestError> {
    match rest
    case Success(more) => Success(found + more)
    case Failure(e) => Failure(e)
  }

  lemma PrefixedNothing(found: seq<Evidence>, rest: Result<seq<Evidence>, IngestError>)
    ensures Prefixed([], rest) == rest
    ensures Prefixed(found, Success([])) == Success(found)
  {
    if rest.Success? {
      assert [] + rest.value == rest.value;
    }
    assert found + [] == found;
  }

  lemma PrefixedStep(found: seq<Evidence>, e: Evidence, rest: Result<seq<Evidence>, IngestError>)
    ensures Prefixed(found + [e], rest) == Prefixed(found, Prefixed([e], rest))
  {
    if rest.Success? {
      assert found + [e] + rest.value == found + ([e] + rest.value);
    }
  }

  method BuildEvidence(os: seq<Occurrence>, index: map<string, string>) returns (r: Result<seq<Evidence>, IngestError>)
    ensures r == EvidenceFrom(os, index)
  {
    var evidence: seq<Evidence> := [];
    assert os[0..] == os;
    PrefixedNothing([], EvidenceFrom(os, index));
    for i := 0 to |os|
      invariant EvidenceFrom(os, index) == Prefixed(evidence, EvidenceFrom(os[i..], index))
    {
      assert os[i..][1..] == os[i + 1..];
      if os[i].NotAnOccurrence? {
        continue;
      }
      var location := Strip(os[i].location.GetOr(""));
      assert Strip("") == "";
      if location == "" {
        continue;
      }
      if IsAbsolute(location) {
        return Failure(AbsolutePath);
      }
      PrefixedStep(evidence, EvidenceOf(os[i], index), EvidenceFrom(os[i + 1..], index));
      evidence := evidence + [EvidenceOf(os[i], index)];
    }
    PrefixedNothing(evidence, Success([]));
    return Success(evidence);
  }

  // ----- one component -----

  /** What an artefact's id is computed from. */
  datatype Identity = Identity(
    target: string, kind: Enums.AssetType, name: string, path: string, line: Option<nat>, discriminator: string)

  /** Where a document comes from; `observedAt` is its timestamp. */
  datatype Origin = Origin(target: string, discoveredBy: string, observedAt: int)

  function KindFrom(c: Component, index: map<string, string>): Enums.AssetType {
    AssetTypeFromWire(c.assetType.GetOr("algorithm"), Get(index, ASSET_TYPE))
  }

  function NameFrom(c: Component): string {
    Strip(c.name.GetOr(""))
  }

  /** The artefact a component stands for, or why there is none. */
  function Converted(c: Component, o: Origin, digest: Identity -> Id, discriminator: string): Result<CryptoArtefact, IngestError> {
    var index := IndexOf(c.properties);
    var kind, name := KindFrom(c, index), NameFrom(c);
    if name == "" then Failure(NoName)
    else
      var evidence :- EvidenceFrom(c.occurrences, index);
      if evidence == [] then Failure(NoOccurrence)
      else if kind == Enums.Certificate && c.hasRejectedDates then Failure(DatesRejected)
      else Success(ArtefactFrom(c, index, kind, name, evidence, o, digest, discriminator))
  }

  function PrimitiveFrom(wire: Option<string>): Option<Enums.Primitive> {
    if IsTruthy(wire) then Some(PrimitiveFromWire(wire.value)) else None
  }

  function ArtefactFrom(c: Component, index: map<string, string>, kind: Enums.AssetType, name: string, evidence: seq<Evidence>,
                        o: Origin, digest: Identity -> Id, discriminator: string): CryptoArtefact
    requires evidence != []
  {
    var primary := evidence[0].location;
    CryptoArtefact(
      digest(Identity(o.target, kind, name, primary.path, primary.line, discriminator)),
      kind, name,
      if kind == Enums.Library then None else ResolvedAlgorithm(name, index),
      Stripped(OrNone(c.oid)),
      PrimitiveFrom(c.algorithm.primitive),
      NormalisedPurposes(c.algorithm.cryptoFunctions),
      Enums.QuantumVulnerability.Unknown, "unknown",
      DetailFrom(kind, name, c.algorithm, index),
      evidence, o.discoveredBy, o.observedAt, o.observedAt)
  }

  method ComponentToArtefact(c: Component, o: Origin, digest: Identity -> Id, discriminator: string)
    returns (r: Result<CryptoArtefact, IngestError>)
    ensures r == Converted(c, o, digest, discriminator)
  {
    var index := IndexProperties(c.properties);
    var kind := KindFrom(c, index);
    var name := NameFrom(c);
    if name == "" {
      return Failure(NoName);
    }
    var evidence :- BuildEvidence(c.occurrences, index);
    if evidence == [] {
      return Failure(NoOccurrence);
    }
    var purposes := NormalisePurposes(c.algorithm.cryptoFunctions);
    var algorithm: Option<string> := None;
    var detail: Option<Detail>;
    if kind == Enums.Library {
      detail := Some(OfLibrary(name));
    } else {
      algorithm := ResolveAlgorithm(name, index);
      if kind == Enums.AssetType.Algorithm {
        detail := BuildAlgorithmDetail(c.algorithm, index);
      } else {
        if kind == Enums.Certificate && c.hasRejectedDates {
          return Failure(DatesRejected);
        }
        detail := DetailFrom(kind, name, c.algorithm, index);
      }
    }
    var primary := evidence[0].location;
    return Success(CryptoArtefact(
      digest(Identity(o.target, kind, name, primary.path, primary.line, discriminator)),
      kind, name, algorithm, Stripped(OrNone(c.oid)),
      if IsTruthy(c.algorithm.primitive) then Some(PrimitiveFromWire(c.algorithm.primitive.value)) else None,
      purposes, Enums.QuantumVulnerability.Unknown, "unknown", detail,
      evidence, o.discoveredBy, o.observedAt, o.observedAt));
  }

  // ----- the rules of ingest -----

  function KindOf(d: Detail): Enums.AssetType {
    match d
    case OfAlgorithm(_) => Enums.AssetType.Algorithm
    case OfLibrary(_) => Enums.Library
    case OfOther(kind) => kind
  }

  /** A library never acquires an algorithm, whatever the component says; every artefact is named and sourced. */
  lemma LibraryCarriesNoAlgorithm(c: Component, o: Origin, digest: Identity -> Id, discriminator: string)
    requires Converted(c, o, digest, discriminator).Success?
    ensures var a := Converted(c, o, digest, discriminator).value;
            && (a.kind == Enums.Library ==> a.algorithm.None? && a.detail == Some(OfLibrary(a.name)))
            && (a.detail.Some? ==> KindOf(a.detail.value) == a.kind)
            && a.name != "" && a.evidence != []
  {}

  /** Evidence that some occurrence of the component states, with no more confidence than its properties claim. */
  ghost predicate IsStated(e: Evidence, os: seq<Occurrence>, index: map<string, string>) {
    && (e.confidence == Enums.Confidence.High ==> Get(index, CONFIDENCE) == Some("high"))
    && (e.confidence == Enums.Confidence.Medium ==> Get(index, CONFIDENCE) == Some("medium"))
    && e.location.path != "" && !IsAbsolute(e.location.path)
    && (e.location.line.Some? ==> e.location.line.value > 0)
    && exists occurrence ::
         occurrence in os && PathOf(occurrence) == e.location.path
         && occurrence.Occurrence? && ParsePositiveScalar(occurrence.line) == e.location.line
  }

  ghost predicate AreStated(evidence: seq<Evidence>, os: seq<Occurrence>, index: map<string, string>) {
    forall i :: 0 <= i < |evidence| ==> IsStated(evidence[i], os, index)
  }

  lemma {:induction false} EvidenceIsStated(os: seq<Occurrence>, index: map<string, string>)
    requires EvidenceFrom(os, index).Success?
    ensures AreStated(EvidenceFrom(os, index).value, os, index)
  {
    if os != [] {
      var rest := os[1..];
      EvidenceIsStated(rest, index);
      var more := EvidenceFrom(rest, index).value;
      forall i | 0 <= i < |more| ensures IsStated(more[i], os, index) {
        assert IsStated(more[i], rest, index);
        var occurrence :| occurrence in rest && PathOf(occurrence) == more[i].location.path
                          && occurrence.Occurrence? && ParsePositiveScalar(occurrence.line) == more[i].location.line;
        assert occurrence in os;
      }
      if PathOf(os[0]) != "" {
        assert os[0] in os;
        assert IsStated(EvidenceOf(os[0], index), os, index);
      }
    }
  }

  /** Each detail is the one its component states; only a vocabulary word this build does not know reads as `Other`. */
  ghost predicate IsStatedDetail(d: AlgorithmDetail, p: AlgorithmProperties, index: map<string, string>) {
    && d != HOLLOW && d.rounds.None?
    && (d.mode.Some? <==> IsTruthy(p.mode))
    && (d.mode.Some? ==> d.mode.value == Enums.CipherMode.Other || ModeToWire(d.mode.value) == p.mode.value)
    && (d.padding.Some? <==> IsTruthy(p.padding))
    && (d.padding.Some? ==> d.padding.value == Enums.Padding.Other || PaddingToWire(d.padding.value) == p.padding.value)
    && d.curve == Stripped(OrNone(p.curve))
    && (d.keySizeBits.Some? ==>
          d.keySizeBits in {ParsePositive(Get(index, KEY_SIZE)), ParsePositive(p.parameterSetIdentifier)})
    && (d.parameterSet.Some? ==> d.parameterSet == Stripped(OrNone(p.parameterSetIdentifier)))
  }

  lemma DetailIsStated(p: AlgorithmProperties, index: map<string, string>)
    ensures AlgorithmDetailFrom(p, index) != HOLLOW ==> IsStatedDetail(AlgorithmDetailFrom(p, index), p, index)
  {
    if IsTruthy(p.mode) {
      ModeRoundTrip(ModeFromWire(p.mode.value), p.mode.value);
    }
    if IsTruthy(p.padding) {
      PaddingRoundTrip(PaddingFromWire(p.padding.value), p.padding.value);
    }
  }

  /** The algorithm is the explicit one, or the leading token of the name; a library has none. */
  ghost predicate IsStatedAlgorithm(a: CryptoArtefact, index: map<string, string>) {
    a.algorithm.Some? ==>
      && a.kind != Enums.Library && a.algorithm.value != ""
      && a.algorithm.value == if IsTruthy(Get(index, ALGORITHM)) then Lower(Strip(Get(index, ALGORITHM).value))
                              else LeadingToken(a.name)
  }

  ghost predicate IsStatedPrimitive(primitive: Option<Enums.Primitive>, wire: Option<string>) {
    && (primitive.Some? <==> IsTruthy(wire))
    && (primitive.Some? ==> primitive.value == Enums.Primitive.Other || PrimitiveToWire(primitive.value) == wire.value)
  }

  lemma PrimitiveIsStated(wire: Option<string>)
    ensures IsStatedPrimitive(PrimitiveFrom(wire), wire)
  {
    if IsTruthy(wire) {
      PrimitiveRoundTrip(PrimitiveFromWire(wire.value), wire.value);
    }
  }

  /** What an accepted component becomes, field by field. */
  ghost predicate HasFieldsOf(a: CryptoArtefact, c: Component, index: map<string, string>) {
    && a.oid == Stripped(OrNone(c.oid))
    && a.primitive == PrimitiveFrom(c.algorithm.primitive)
    && a.algorithm == (if a.kind == Enums.Library then None else ResolvedAlgorithm(a.name, index))
    && a.purposes == NormalisedPurposes(c.algorithm.cryptoFunctions)
    && EvidenceFrom(c.occurrences, index) == Success(a.evidence)
    && a.detail == DetailFrom(a.kind, a.name, c.algorithm, index)
  }

  lemma AcceptedFields(c: Component, o: Origin, digest: Identity -> Id, discriminator: string)
    requires Converted(c, o, digest, discriminator).Success?
    ensures HasFieldsOf(Converted(c, o, digest, discriminator).value, c, IndexOf(c.properties))
  {}

  /** Everything the artefact carries is the one thing its component states. */
  ghost predicate IsAllStated(a: CryptoArtefact, c: Component, index: map<string, string>) {
    && a.oid == Stripped(OrNone(c.oid))
    && IsStatedPrimitive(a.primitive, c.algorithm.primitive)
    && IsStatedAlgorithm(a, index)
    && AreDistinct(a.purposes)
    && (forall p :: p in a.purposes <==> p in PurposesOf(c.algorithm.cryptoFunctions))
    && AreStated(a.evidence, c.occurrences, index)
    && (a.detail.Some? && a.detail.value.OfAlgorithm? ==> IsStatedDetail(a.detail.value.algorithm, c.algorithm, index))
  }

  lemma FieldsAreStated(a: CryptoArtefact, c: Component, index: map<string, string>)
    requires HasFieldsOf(a, c, index)
    ensures IsAllStated(a, c, index)
  {
    EvidenceIsStated(c.occurrences, index);
    NormalisedPurposesOccur(c.algorithm.cryptoFunctions);
    DetailIsStated(c.algorithm, index);
    PrimitiveIsStated(c.algorithm.primitive);
  }

  /** Absent means unobserved: whatever an artefact carries, its component states. */
  lemma NothingIsInvented(c: Component, o: Origin, digest: Identity -> Id, discriminator: string)
    requires Converted(c, o, digest, discriminator).Success?
    ensures IsAllStated(Converted(c, o, digest, discriminator).value, c, IndexOf(c.properties))
  {
    AcceptedFields(c, o, digest, discriminator);
    FieldsAreStated(Converted(c, o, digest, discriminator).value, c, IndexOf(c.properties));
  }
}
