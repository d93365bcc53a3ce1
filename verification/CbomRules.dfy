/** What ingest makes of a component, in terms of the words on the wire. */
module CbomRules {
  import opened Wrappers
  import Enums
  import opened Artefacts
  import opened Vocabulary
  import opened Cyclonedx
  import opened CbomIngest
  import opened Text
  import Decimal
  import Documents = CbomDocuments

  // ----- the envelope -----

  /** What is wrong with a document. */
  predicate IsProblem(d: Document, p: Problem) {
    match p
    case WrongFormat => d.bomFormat != Some("CycloneDX")
    case WrongVersion => d.specVersion != Some("1.6")
    case BadSerial => d.serialNumber.None? || !("urn:uuid:" <= d.serialNumber.value)
    case NoMetadata => d.metadata.None?
    case NoTimestamp => d.metadata.Some? && (d.metadata.value.timestamp.None? || d.metadata.value.timestamp.value == "")
    case NoToolList => d.metadata.Some? && (!d.metadata.value.tools.ToolsList? || d.metadata.value.tools.tools == [])
    case ComponentsNotAList => d.components.NotAList?
  }

  /** Each problem is reported exactly when it is there. */
  lemma ProblemsAreExact(d: Document, p: Problem)
    ensures p in Problems(d) <==> IsProblem(d, p)
  {
    HeaderProblemsAreExact(d, p);
    MetadataProblemsAreExact(d, p);
    var header, metadata := HeaderProblems(d), MetadataProblems(d.metadata);
    var components := if d.components.NotAList? then [ComponentsNotAList] else [];
    assert Problems(d) == header + metadata + components;
    assert p in Problems(d) <==> p in header || p in metadata || p in components;
  }

  function Place(p: Problem): nat {
    match p
    case WrongFormat => 0
    case WrongVersion => 1
    case BadSerial => 2
    case NoMetadata => 3
    case NoTimestamp => 4
    case NoToolList => 5
    case ComponentsNotAList => 6
  }

  /** Problems are reported once each: format, version, serial number, metadata, timestamp, tools, components. */
  lemma ProblemsAreInOrder(d: Document, i: nat, j: nat)
    requires i < j < |Problems(d)|
    ensures Place(Problems(d)[i]) < Place(Problems(d)[j])
  {
    var header, metadata := HeaderProblems(d), MetadataProblems(d.metadata);
    var components := if d.components.NotAList? then [ComponentsNotAList] else [];
    assert Problems(d) == header + metadata + components;
    assert forall k :: 0 <= k < |header| ==> Place(header[k]) <= 2;
    assert forall k :: 0 <= k < |metadata| ==> 3 <= Place(metadata[k]) <= 5;
  }

  lemma HeaderProblemsAreExact(d: Document, p: Problem)
    ensures p in HeaderProblems(d) <==> p in {WrongFormat, WrongVersion, BadSerial} && IsProblem(d, p)
  {
    var format := if d.bomFormat == Some(CYCLONEDX) then [] else [WrongFormat];
    var version := if d.specVersion == Some(SPEC_VERSION) then [] else [WrongVersion];
    var serial := if d.serialNumber.Some? && SERIAL_PREFIX <= d.serialNumber.value then [] else [BadSerial];
    assert HeaderProblems(d) == format + version + serial;
    assert p in HeaderProblems(d) <==> p in format || p in version || p in serial;
  }

  lemma MetadataProblemsAreExact(d: Document, p: Problem)
    ensures p in MetadataProblems(d.metadata) <==> p in {NoMetadata, NoTimestamp, NoToolList} && IsProblem(d, p)
  {
    if d.metadata.Some? {
      var m := d.metadata.value;
      var stamp := if IsTruthy(m.timestamp) then [] else [NoTimestamp];
      var tools := if m.tools.ToolsList? && m.tools.tools != [] then [] else [NoToolList];
      assert MetadataProblems(d.metadata) == stamp + tools;
      assert p in MetadataProblems(d.metadata) <==> p in stamp || p in tools;
    }
  }

  // ----- what a component is -----

  /** The last value a component's properties give a name. */
  ghost predicate States(properties: seq<Property>, name: string, value: string) {
    exists i ::
      && 0 <= i < |properties| && properties[i] == Property(name, value)
      && forall j :: i < j < |properties| ==> !(properties[j].Property? && properties[j].name == name)
  }

  ghost predicate IsSilentOn(properties: seq<Property>, name: string) {
    forall i :: 0 <= i < |properties| ==> !(properties[i].Property? && properties[i].name == name)
  }

  /** The index holds exactly the last stated value of each name. */
  lemma {:induction false} IndexHoldsTheLast(properties: seq<Property>, name: string)
    ensures match Get(IndexOf(properties), name)
            case None => IsSilentOn(properties, name)
            case Some(value) => States(properties, name, value)
  {
    if properties != [] {
      var n := |properties| - 1;
      var init := properties[..n];
      IndexHoldsTheLast(init, name);
      var last := properties[n];
      if last.Property? && last.name == name {
        assert properties[n] == Property(name, last.value);
      } else if Get(IndexOf(init), name).Some? {
        var value := Get(IndexOf(init), name).value;
        var i :| && 0 <= i < |init| && init[i] == Property(name, value)
                 && forall j :: i < j < |init| ==> !(init[j].Property? && init[j].name == name);
        assert properties[i] == Property(name, value);
      }
    }
  }

  /** A recognised hint decides; then the wire word; and whatever is unknown or absent is an algorithm. */
  lemma KindRule(c: Component, index: map<string, string>)
    ensures var hint, wire := Get(index, "trinetra:asset-type"), c.assetType;
            KindFrom(c, index) ==
            if hint == Some("algorithm") then Enums.AssetType.Algorithm
            else if hint == Some("key") then Enums.Key
            else if hint == Some("certificate") then Enums.Certificate
            else if hint == Some("protocol") then Enums.Protocol
            else if hint == Some("library") then Enums.Library
            else if hint == Some("hardware_module") then Enums.HardwareModule
            else if hint == Some("cloud_service") then Enums.CloudService
            else if hint == Some("related_material") then Enums.RelatedMaterial
            else if wire == Some("certificate") then Enums.Certificate
            else if wire == Some("protocol") then Enums.Protocol
            else if wire == Some("library") then Enums.Library
            else if wire == Some("related-crypto-material") then Enums.RelatedMaterial
            else Enums.AssetType.Algorithm
  {
    var default := "algorithm";
    assert default[0] == 'a';
    assert default[1] == 'l';
  }

  // ----- the key size -----

  function KeySizeOf(detail: Option<Detail>): Option<nat> {
    if detail.Some? && detail.value.OfAlgorithm? then detail.value.algorithm.keySizeBits else None
  }

  function ParameterSetOf(detail: Option<Detail>): Option<string> {
    if detail.Some? && detail.value.OfAlgorithm? then detail.value.algorithm.parameterSet else None
  }

  /** The positive number a text reads as. */
  function PositiveIn(text: Option<string>): Option<int> {
    if text.None? then None
    else match Decimal.ParseInt(text.value)
      case None => None
      case Some(n) => if n > 0 then Some(n) else None
  }

  lemma KeySizeInDetail(p: AlgorithmProperties, index: map<string, string>)
    ensures var property := PositiveIn(Get(index, "trinetra:key-size-bits"));
            var number := PositiveIn(p.parameterSetIdentifier);
            var d := AlgorithmDetailFrom(p, index);
            && d.keySizeBits == (if property.Some? then property else number)
            && d.parameterSet == (if property.None? && number.Some? then None else Stripped(OrNone(p.parameterSetIdentifier)))
  {
    EmptyIsNoNumber();
  }

  lemma EmptyIsNoNumber()
    ensures Decimal.ParseInt("") == None
  {
    assert Strip("") == "";
  }

  /**
   The key size is the property's number where that reads as positive, else the parameter set's, else absent.  The parameter
   set is kept exactly unless its number was taken as the key size.
   */
  lemma KeySizeRule(c: Component, o: Origin, digest: Identity -> Id, discriminator: string)
    requires Converted(c, o, digest, discriminator).Success?
    requires Converted(c, o, digest, discriminator).value.kind == Enums.AssetType.Algorithm
    ensures var property := PositiveIn(Get(IndexOf(c.properties), "trinetra:key-size-bits"));
            var number := PositiveIn(c.algorithm.parameterSetIdentifier);
            var detail := Converted(c, o, digest, discriminator).value.detail;
            && KeySizeOf(detail) == (if property.Some? then property else number)
            && ParameterSetOf(detail) ==
               (if property.None? && number.Some? then None else Stripped(OrNone(c.algorithm.parameterSetIdentifier)))
  {
    AcceptedFields(c, o, digest, discriminator);
    KeySizeInDetail(c.algorithm, IndexOf(c.properties));
  }

  /** A key carries a detail exactly when its size is stated; certificates and protocols always do; modules never. */
  lemma OtherDetailsRule(c: Component, o: Origin, digest: Identity -> Id, discriminator: string)
    requires Converted(c, o, digest, discriminator).Success?
    ensures var a := Converted(c, o, digest, discriminator).value;
            match a.kind
            case Certificate => a.detail == Some(OfOther(Enums.Certificate))
            case Protocol => a.detail == Some(OfOther(Enums.Protocol))
            case Library => a.detail == Some(OfLibrary(a.name))
            case Key =>
              a.detail.Some? <==>
              || PositiveIn(Get(IndexOf(c.properties), "trinetra:key-size-bits")).Some?
              || PositiveIn(c.algorithm.parameterSetIdentifier).Some?
            case HardwareModule => a.detail == None
            case RelatedMaterial => a.detail == None
            case _ => true
  {
    AcceptedFields(c, o, digest, discriminator);
  }

  predicate IsFilled(s: Option<string>) {
    s.Some? && |s.value| > 0
  }

  ghost predicate NamesOne(s: Option<string>, words: set<string>) {
    s.Some? && s.value in words
  }

  /**
   A managed key carries a detail exactly when its specification, resource or region is stated, or its provider, service or
   key management is stated in a word that is known and is not the default.
   */
  lemma CloudRule(c: Component, o: Origin, digest: Identity -> Id, discriminator: string)
    requires Converted(c, o, digest, discriminator).Success?
    requires Converted(c, o, digest, discriminator).value.kind == Enums.CloudService
    ensures var index := IndexOf(c.properties);
            Converted(c, o, digest, discriminator).value.detail ==
            if || IsFilled(c.algorithm.parameterSetIdentifier)
               || IsFilled(Get(index, "trinetra:resource-id"))
               || IsFilled(Get(index, "trinetra:region"))
               || NamesOne(Get(index, "trinetra:cloud-provider"), {"aws", "azure", "gcp", "ibm", "oracle", "on_premise"})
               || NamesOne(Get(index, "trinetra:cloud-service"),
                           {"kms", "cloud_hsm", "certificate_manager", "secrets_manager", "vault"})
               || NamesOne(Get(index, "trinetra:key-management"),
                           {"provider_managed", "customer_managed", "customer_supplied"})
            then Some(OfOther(Enums.CloudService)) else None
  {
    AcceptedFields(c, o, digest, discriminator);
    CloudWords(Get(IndexOf(c.properties), "trinetra:cloud-provider"), ["aws", "azure", "gcp", "ibm", "oracle", "on_premise"]);
    CloudWords(Get(IndexOf(c.properties), "trinetra:cloud-service"),
               ["kms", "cloud_hsm", "certificate_manager", "secrets_manager", "vault"]);
    CloudWords(Get(IndexOf(c.properties), "trinetra:key-management"),
               ["provider_managed", "customer_managed", "customer_supplied"]);
  }

  lemma CloudWords(s: Option<string>, words: seq<string>)
    ensures IsOneOf(s, words) <==> NamesOne(s, set w | w in words)
  {}

  /** An algorithm carries a detail exactly when some part of one is stated, and each part is there exactly when it is. */
  lemma AlgorithmDetailRule(c: Component, o: Origin, digest: Identity -> Id, discriminator: string)
    requires Converted(c, o, digest, discriminator).Success?
    requires Converted(c, o, digest, discriminator).value.kind == Enums.AssetType.Algorithm
    ensures var p, detail := c.algorithm, Converted(c, o, digest, discriminator).value.detail;
            && (detail.Some? <==>
                  || IsFilled(p.mode) || IsFilled(p.padding) || IsFilled(p.curve) || IsFilled(p.parameterSetIdentifier)
                  || PositiveIn(Get(IndexOf(c.properties), "trinetra:key-size-bits")).Some?)
            && (detail.Some? ==>
                  && detail.value.OfAlgorithm?
                  && var d := detail.value.algorithm;
                     && (IsFilled(p.mode) ==> d.mode == Some(ModeFromWire(p.mode.value)))
                     && (IsFilled(p.padding) ==> d.padding == Some(PaddingFromWire(p.padding.value)))
                     && (IsFilled(p.curve) ==> d.curve == Some(Strip(p.curve.value)))
                     && (d.mode.Some? ==> IsFilled(p.mode)) && (d.padding.Some? ==> IsFilled(p.padding))
                     && (d.curve.Some? ==> IsFilled(p.curve)) && d.rounds.None?)
  {
    AcceptedFields(c, o, digest, discriminator);
    KeySizeInDetail(c.algorithm, IndexOf(c.properties));
    EmptyIsNoNumber();
  }

  // ----- refusals -----

  ghost predicate HasAbsolutePath(os: seq<Occurrence>) {
    exists i :: 0 <= i < |os| && IsAbsolutePath(PathOf(os[i]))
  }

  ghost predicate HasPlace(os: seq<Occurrence>) {
    exists i :: 0 <= i < |os| && PathOf(os[i]) != ""
  }

  /** A leading slash, or a drive letter. */
  predicate IsAbsolutePath(path: string) {
    (|path| >= 1 && path[0] == '/') || (|path| >= 2 && path[1] == ':')
  }

  lemma {:induction false} EvidenceOutcome(os: seq<Occurrence>, index: map<string, string>)
    ensures EvidenceFrom(os, index).Failure? <==> HasAbsolutePath(os)
    ensures EvidenceFrom(os, index).Failure? ==> EvidenceFrom(os, index).error == AbsolutePath
    ensures EvidenceFrom(os, index).Success? ==> (EvidenceFrom(os, index).value != [] <==> HasPlace(os))
  {
    if os != [] {
      var rest := os[1..];
      EvidenceOutcome(rest, index);
      assert forall i :: 0 <= i < |rest| ==> rest[i] == os[i + 1];
      if HasAbsolutePath(os) {
        var i :| 0 <= i < |os| && IsAbsolutePath(PathOf(os[i]));
        assert i > 0 ==> IsAbsolutePath(PathOf(rest[i - 1]));
      }
      if HasAbsolutePath(rest) {
        var i :| 0 <= i < |rest| && IsAbsolutePath(PathOf(rest[i]));
        assert IsAbsolutePath(PathOf(os[i + 1]));
      }
      if HasPlace(os) {
        var i :| 0 <= i < |os| && PathOf(os[i]) != "";
        assert i > 0 ==> PathOf(rest[i - 1]) != "";
      }
      if HasPlace(rest) {
        var i :| 0 <= i < |rest| && PathOf(rest[i]) != "";
        assert PathOf(os[i + 1]) != "";
      }
    }
  }

  /** A component is refused exactly for a blank name, an absolute path, no place at all, or a certificate's bad dates. */
  lemma RefusedExactly(c: Component, o: Origin, digest: Identity -> Id, discriminator: string)
    ensures var r := Converted(c, o, digest, discriminator);
            var isNameless := c.name.None? || Strip(c.name.value) == "";
            if isNameless then r == Failure(NoName)
            else if HasAbsolutePath(c.occurrences) then r == Failure(AbsolutePath)
            else if !HasPlace(c.occurrences) then r == Failure(NoOccurrence)
            else if KindFrom(c, IndexOf(c.properties)) == Enums.Certificate && c.hasRejectedDates then r == Failure(DatesRejected)
            else r.Success?
  {
    EvidenceOutcome(c.occurrences, IndexOf(c.properties));
    assert Strip("") == "";
  }

  // ----- evidence and identity -----

  function LocatedIn(os: seq<Occurrence>): seq<Occurrence> {
    if os == [] then []
    else if PathOf(os[0]) == "" then LocatedIn(os[1..])
    else [os[0]] + LocatedIn(os[1..])
  }

  const KNOWN_METHODS := {
    "semgrep_pattern", "semgrep_taint", "tree_sitter_ast", "dependency_manifest", "sbom_ingest", "binary_symbol",
    "binary_constant", "certificate_parse", "tls_handshake", "pkcs11_enumeration", "cloud_api", "config_parse",
    "entropy_heuristic", "other"}

  /** What one located occurrence becomes: its stripped path, positive line and context, with the component's claims. */
  ghost predicate IsEvidenceFor(e: Evidence, occurrence: Occurrence, index: map<string, string>) {
    var stated := Get(index, "trinetra:detection-method");
    && occurrence.Occurrence? && occurrence.location.Some?
    && e.location.path == Strip(occurrence.location.value)
    && e.location.line == ParsePositiveScalar(occurrence.line)
    && e.location.column == None && e.location.symbol == None
    && e.detectionMethod == (if stated.Some? && stated.value in KNOWN_METHODS then stated.value else "other")
    && (e.confidence == Enums.Confidence.High <==> Get(index, "trinetra:confidence") == Some("high"))
    && (e.confidence == Enums.Confidence.Medium <==> Get(index, "trinetra:confidence") == Some("medium"))
    && e.ruleId == Stripped(Get(index, "trinetra:rule-id"))
    && e.additionalContext == Stripped(OrNone(occurrence.additionalContext))
    && e.snippet == None && !e.isRedacted
  }

  lemma OneEvidence(occurrence: Occurrence, index: map<string, string>)
    requires PathOf(occurrence) != ""
    ensures IsEvidenceFor(EvidenceOf(occurrence, index), occurrence, index)
  {
    var high, medium := "high", "medium";
    assert high[0] == 'h' && medium[0] == 'm';
  }

  lemma {:induction false} EvidenceOfLocated(os: seq<Occurrence>, index: map<string, string>)
    requires EvidenceFrom(os, index).Success?
    ensures |EvidenceFrom(os, index).value| == |LocatedIn(os)|
    ensures forall i :: 0 <= i < |LocatedIn(os)| ==>
              PathOf(LocatedIn(os)[i]) != "" && EvidenceFrom(os, index).value[i] == EvidenceOf(LocatedIn(os)[i], index)
  {
    if os != [] {
      EvidenceOfLocated(os[1..], index);
    }
  }

  /** One piece of evidence for each located occurrence, in order. */
  lemma EvidenceMatchesPlaces(os: seq<Occurrence>, index: map<string, string>)
    requires EvidenceFrom(os, index).Success?
    ensures |EvidenceFrom(os, index).value| == |LocatedIn(os)|
    ensures forall i :: 0 <= i < |LocatedIn(os)| ==> IsEvidenceFor(EvidenceFrom(os, index).value[i], LocatedIn(os)[i], index)
  {
    EvidenceOfLocated(os, index);
    var evidence, located := EvidenceFrom(os, index).value, LocatedIn(os);
    forall i | 0 <= i < |located| ensures IsEvidenceFor(evidence[i], located[i], index) {
      OneEvidence(located[i], index);
    }
  }

  /** An accepted artefact is stamped by its origin, and its id is the digest of target, type, name, first place and position. */
  lemma AcceptedStamp(c: Component, o: Origin, digest: Identity -> Id, discriminator: string)
    requires Converted(c, o, digest, discriminator).Success?
    ensures var a := Converted(c, o, digest, discriminator).value;
            && a.evidence != []
            && a.artefactId == digest(Identity(o.target, a.kind, a.name, a.evidence[0].location.path,
                                               a.evidence[0].location.line, discriminator))
            && a.name == Strip(c.name.GetOr("")) && a.kind == KindFrom(c, IndexOf(c.properties))
            && a.discoveredBy == o.discoveredBy && a.firstSeen == a.lastSeen == o.observedAt
            && a.vulnerability == Enums.QuantumVulnerability.Unknown && a.nistSecurityLevel == "unknown"
  {}

  /** The explicit algorithm where the component states one, else the leading token of its name; blank counts as none. */
  lemma AlgorithmRule(c: Component, o: Origin, digest: Identity -> Id, discriminator: string)
    requires Converted(c, o, digest, discriminator).Success?
    ensures var a := Converted(c, o, digest, discriminator).value;
            var explicit := Get(IndexOf(c.properties), "trinetra:algorithm");
            var word := if explicit.Some? && explicit.value != "" then Lower(Strip(explicit.value)) else LeadingToken(a.name);
            a.algorithm == if a.kind == Enums.Library || word == "" then None else Some(word)
  {
    AcceptedFields(c, o, digest, discriminator);
  }

  // ----- whole documents -----

  /** What a valid document yields for the component at a position. */
  ghost predicate Yields(d: Document, o: Origin, digest: Identity -> Id, i: nat, a: CryptoArtefact) {
    && i < |EntriesOf(d)| && EntriesOf(d)[i].Asset?
    && Converted(EntriesOf(d)[i].component, o, digest, Decimal.Print(i)) == Success(a)
  }

  ghost predicate FailsWith(d: Document, o: Origin, digest: Identity -> Id, i: nat, e: IngestError) {
    && i < |EntriesOf(d)|
    && if EntriesOf(d)[i].Asset? then Converted(EntriesOf(d)[i].component, o, digest, Decimal.Print(i)) == Failure(e)
       else EntriesOf(d)[i].MistypedAsset? && e == Mistyped
  }

  lemma OutcomeAt(d: Document, o: Origin, digest: Identity -> Id, i: nat)
    requires i < |EntriesOf(d)|
    ensures var outcome := Documents.OutcomeOf(EntriesOf(d)[i], o, digest, i);
            && (forall a :: Yields(d, o, digest, i, a) <==> outcome == Documents.Accepted(a))
            && (forall e :: FailsWith(d, o, digest, i, e) <==> outcome == Documents.Rejected(e))
  {}

  lemma FoundAt(outcomes: seq<Documents.Outcome>, a: CryptoArtefact)
    ensures a in Documents.Found(outcomes) <==> exists i :: 0 <= i < |outcomes| && outcomes[i] == Documents.Accepted(a)
  {
    var found, at := Documents.Found(outcomes), Documents.Positions(outcomes);
    Documents.ArtefactsKeepDocumentOrder(outcomes);
    if a in found {
      var k :| 0 <= k < |found| && found[k] == a;
      assert outcomes[at[k]] == Documents.Accepted(a);
    }
    if i :| 0 <= i < |outcomes| && outcomes[i] == Documents.Accepted(a) {
      Documents.EveryAcceptedEntryIsListed(outcomes, i);
      var k :| 0 <= k < |at| && at[k] == i;
      assert found[k] == a;
    }
  }

  /** The artefacts of a document are exactly what its cryptographic assets convert to, each under its own position. */
  lemma ArtefactsOfADocument(d: Document, o: Origin, digest: Identity -> Id, a: CryptoArtefact)
    requires Documents.IsInjective(digest)
    ensures a in Documents.ResultOf(d, o, digest).artefacts <==> exists i :: Yields(d, o, digest, i, a)
  {
    var outcomes := Documents.OutcomesOf(EntriesOf(d), o, digest);
    Documents.ComponentsAreConserved(d, o, digest);
    FoundAt(outcomes, a);
    forall i: nat | i < |outcomes| ensures Yields(d, o, digest, i, a) <==> outcomes[i] == Documents.Accepted(a) {
      OutcomeAt(d, o, digest, i);
    }
    if a in Documents.Found(outcomes) {
      var i: nat :| i < |outcomes| && outcomes[i] == Documents.Accepted(a);
      assert Yields(d, o, digest, i, a);
    }
  }

  /** Its gaps are exactly the positions of assets that do not convert, with the reason; and its tools are the listed ones. */
  lemma GapsOfADocument(d: Document, o: Origin, digest: Identity -> Id, g: Documents.Gap)
    ensures g in Documents.ResultOf(d, o, digest).gaps <==> FailsWith(d, o, digest, g.index, g.error)
    ensures d.metadata.Some? && d.metadata.value.tools.ToolsList? ==>
              Documents.ResultOf(d, o, digest).tools == d.metadata.value.tools.tools
  {
    Documents.GapsAreTheFailures(Documents.OutcomesOf(EntriesOf(d), o, digest));
    if g.index < |EntriesOf(d)| {
      OutcomeAt(d, o, digest, g.index);
    }
  }
}
