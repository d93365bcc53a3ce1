/** Exporting an artefact as a CBOM component and ingesting it again. */
module CbomRoundTrip {
  import opened Wrappers
  import Enums
  import opened Artefacts
  import opened Vocabulary
  import opened Cyclonedx
  import opened CbomIngest
  import Decimal
  import opened Text

  // ----- the envelope does not come back -----

  /** An exported document is always refused, for one reason only: its tools are an object. */
  lemma ExportedEnvelopeIsRefused(timestamp: string, uuid: string, own: Tool, tools: seq<Tool>, entries: seq<Entry>)
    requires timestamp != ""
    ensures Problems(Envelope(timestamp, uuid, own, tools).(components := ComponentList(entries))) == [NoToolList]
  {
    assert SERIAL_PREFIX <= SERIAL_PREFIX + uuid;
  }

  // ----- what the record types guarantee -----

  predicate IsStripped(s: Option<string>) {
    s.Some? ==> Strip(s.value) == s.value
  }

  predicate IsValidLocation(l: SourceLocation) {
    && IsStripped(Some(l.path)) && !IsAbsolute(l.path)
    && (l.line.Some? ==> l.line.value > 0)
  }

  predicate IsValidDetail(d: AlgorithmDetail) {
    && IsStripped(d.curve) && IsStripped(d.parameterSet)
    && (d.keySizeBits.Some? ==> d.keySizeBits.value > 0)
    && (d.rounds.Some? ==> d.rounds.value > 0)
  }

  /** The validators of an artefact and its parts. */
  predicate IsValid(a: CryptoArtefact) {
    && a.name != "" && IsStripped(Some(a.name)) && IsStripped(a.algorithm) && IsStripped(a.oid)
    && (a.kind == Enums.Library ==> a.algorithm.None?)
    && (a.detail.Some? ==> KindOf(a.detail.value) == a.kind)
    && (a.detail.Some? && a.detail.value.OfOther? ==> a.kind != Enums.AssetType.Algorithm && a.kind != Enums.Library)
    && (a.detail.Some? && a.detail.value.OfAlgorithm? ==> IsValidDetail(a.detail.value.algorithm))
    && a.evidence != [] && (forall e :: e in a.evidence ==> IsValidLocation(e.location))
    && a.firstSeen <= a.lastSeen
  }

  // ----- properties -----

  lemma {:induction false} IndexConcat(xs: seq<Property>, ys: seq<Property>)
    ensures IndexOf(xs + ys) == IndexOf(xs) + IndexOf(ys)
    decreases |ys|
  {
    if ys == [] {
      assert xs + ys == xs;
    } else {
      var init, last := ys[..|ys| - 1], ys[|ys| - 1];
      assert (xs + ys)[..|xs + ys| - 1] == xs + init;
      IndexConcat(xs, init);
    }
  }

  lemma IndexOfMaybe(name: string, value: Option<string>)
    ensures IndexOf(Maybe(name, value)) == if value.Some? then map[name := value.value] else map[]
  {}

  const NOTE_NAMES := {RISK_SCORE, PRIORITY, MOSCA_URGENT, RECOMMENDED}

  lemma NoteNames(n: Notes)
    ensures IndexOf(NoteProperties(n)).Keys <= NOTE_NAMES
  {
    IndexOfMaybe(RECOMMENDED, OrNone(n.recommended));
    match n.assessment {
      case None =>
        IndexConcat([], Maybe(RECOMMENDED, OrNone(n.recommended)));
      case Some(a) =>
        IndexOfMaybe(RISK_SCORE, a.score);
        IndexOfMaybe(PRIORITY, Some(a.priority));
        IndexOfMaybe(MOSCA_URGENT, a.urgent);
        var own := Maybe(RISK_SCORE, a.score) + [Property(PRIORITY, a.priority)];
        IndexConcat(Maybe(RISK_SCORE, a.score), [Property(PRIORITY, a.priority)]);
        IndexConcat(own, Maybe(MOSCA_URGENT, a.urgent));
        IndexConcat(own + Maybe(MOSCA_URGENT, a.urgent), Maybe(RECOMMENDED, OrNone(n.recommended)));
    }
  }

  lemma ExportedIndex(a: CryptoArtefact, n: Notes)
    ensures IndexOf(PropertiesOf(a, n)) ==
            IndexOf(Maybe(ASSET_TYPE, HintFor(a.kind))) + IndexOf(Maybe(ALGORITHM, OrNone(a.algorithm)))
            + IndexOf(Maybe(VULNERABILITY, Some(VulnerabilityValue(a.vulnerability)))) + IndexOf(NoteProperties(n))
  {
    var hint, algorithm := Maybe(ASSET_TYPE, HintFor(a.kind)), Maybe(ALGORITHM, OrNone(a.algorithm));
    var vulnerability := Maybe(VULNERABILITY, Some(VulnerabilityValue(a.vulnerability)));
    IndexConcat(hint, algorithm);
    IndexConcat(hint + algorithm, vulnerability);
    IndexConcat(hint + algorithm + vulnerability, NoteProperties(n));
  }

  /** The names ingest reads are told apart from the ones export adds. */
  lemma NamesAreDistinct()
    ensures ASSET_TYPE != ALGORITHM && ASSET_TYPE != VULNERABILITY && ASSET_TYPE !in NOTE_NAMES
    ensures ALGORITHM != VULNERABILITY && ALGORITHM !in NOTE_NAMES
    ensures KEY_SIZE != ASSET_TYPE && KEY_SIZE != ALGORITHM && KEY_SIZE != VULNERABILITY && KEY_SIZE !in NOTE_NAMES
  {
    assert ASSET_TYPE[9] == 'a' && ASSET_TYPE[10] == 's';
    assert ALGORITHM[9] == 'a' && ALGORITHM[10] == 'l';
    assert VULNERABILITY[9] == 'q' && KEY_SIZE[9] == 'k';
    assert RISK_SCORE[9] == 'r' && PRIORITY[9] == 'p' && MOSCA_URGENT[9] == 'm' && RECOMMENDED[9] == 'r';
  }

  /** A name that no later group mentions is looked up in its own group. */
  lemma LookupInGroup(before: map<string, string>, own: map<string, string>, after: map<string, string>, name: string)
    requires name !in after
    ensures Get(before + own + after, name) == if name in own then Some(own[name]) else Get(before, name)
  {}

  /** Any name but the label and the notes: the hint, the algorithm, or nothing. */
  lemma ExportedLookup(a: CryptoArtefact, n: Notes, name: string)
    requires name != VULNERABILITY && name !in NOTE_NAMES
    ensures Get(IndexOf(PropertiesOf(a, n)), name) ==
            if name == ALGORITHM && IsTruthy(a.algorithm) then a.algorithm
            else if name == ASSET_TYPE then HintFor(a.kind)
            else None
  {
    var hint, algorithm := IndexOf(Maybe(ASSET_TYPE, HintFor(a.kind))), IndexOf(Maybe(ALGORITHM, OrNone(a.algorithm)));
    var vulnerability := IndexOf(Maybe(VULNERABILITY, Some(VulnerabilityValue(a.vulnerability))));
    ExportedIndex(a, n);
    NoteNames(n);
    IndexOfMaybe(ASSET_TYPE, HintFor(a.kind));
    IndexOfMaybe(ALGORITHM, OrNone(a.algorithm));
    IndexOfMaybe(VULNERABILITY, Some(VulnerabilityValue(a.vulnerability)));
    LookupInGroup(hint, algorithm, vulnerability, name);
    LookupInGroup(hint + algorithm, vulnerability, IndexOf(NoteProperties(n)), name);
  }

  /** What ingest finds among the exported properties. */
  lemma ExportedLookups(a: CryptoArtefact, n: Notes)
    ensures var index := IndexOf(PropertiesOf(a, n));
            && Get(index, ASSET_TYPE) == HintFor(a.kind)
            && Get(index, ALGORITHM) == OrNone(a.algorithm)
            && Get(index, KEY_SIZE) == None
  {
    NamesAreDistinct();
    ExportedLookup(a, n, ASSET_TYPE);
    ExportedLookup(a, n, ALGORITHM);
    ExportedLookup(a, n, KEY_SIZE);
  }

  // ----- the algorithm name -----

  /** Written only if non-empty, read back in lower case; if absent, the name must not suggest one. */
  predicate AlgorithmSurvives(a: CryptoArtefact) {
    a.kind == Enums.Library
    || match a.algorithm
       case None => LeadingToken(a.name) == ""
       case Some(s) => s != "" && Lower(s) == s
  }

  lemma AlgorithmRoundTrip(a: CryptoArtefact, n: Notes)
    requires IsValid(a) && a.kind != Enums.Library
    ensures ResolvedAlgorithm(a.name, IndexOf(PropertiesOf(a, n))) == a.algorithm <==> AlgorithmSurvives(a)
  {
    ExportedLookups(a, n);
  }

  // ----- the detail -----

  /**
   Something is stated; no rounds and no empty strings; not both a key size and a parameter set; and the parameter set
   does not read as a positive number.
   */
  predicate DetailSurvives(d: AlgorithmDetail) {
    && d != HOLLOW
    && d.rounds.None?
    && d.curve != Some("")
    && d.parameterSet != Some("")
    && (d.parameterSet.Some? ==> d.keySizeBits.None? && ParsePositive(d.parameterSet).None?)
  }

  predicate StatedDetailSurvives(detail: Option<Detail>) {
    detail.Some? && detail.value.OfAlgorithm? ==> DetailSurvives(detail.value.algorithm)
  }

  lemma IdentifierRoundTrip(d: AlgorithmDetail)
    requires IsValidDetail(d)
    ensures IsTruthy(d.parameterSet) ==> IdentifierOf(d) == d.parameterSet
    ensures !IsTruthy(d.parameterSet) && d.keySizeBits.Some? ==>
              IsTruthy(IdentifierOf(d)) && ParsePositive(IdentifierOf(d)) == d.keySizeBits
  {
    if d.keySizeBits.Some? {
      Decimal.ParseDigitsOfPrint(d.keySizeBits.value);
      Decimal.ParseOfPrint(d.keySizeBits.value);
    }
  }

  /** The detail that comes back, in terms of the one exported. */
  function Returned(d: AlgorithmDetail): AlgorithmDetail {
    var number := ParsePositive(OrNone(d.parameterSet));
    AlgorithmDetail(
      d.mode, d.padding,
      if IsTruthy(d.parameterSet) then number else d.keySizeBits,
      OrNone(d.curve),
      if number.Some? then None else OrNone(d.parameterSet),
      None)
  }

  lemma StrippedOrNone(s: Option<string>)
    requires IsStripped(s)
    ensures Stripped(OrNone(s)) == OrNone(s) == OrNone(OrNone(s))
  {}

  lemma WireWordsAreNotEmpty(d: AlgorithmDetail)
    ensures d.mode.Some? ==> ModeToWire(d.mode.value) != "" && ModeFromWire(ModeToWire(d.mode.value)) == d.mode.value
    ensures d.padding.Some? ==> PaddingToWire(d.padding.value) != "" && PaddingFromWire(PaddingToWire(d.padding.value)) == d.padding.value
  {
    if d.mode.Some? {
      ModeRoundTrip(d.mode.value, "");
    }
    if d.padding.Some? {
      PaddingRoundTrip(d.padding.value, "");
    }
  }

  lemma ReturnedDetail(a: CryptoArtefact, d: AlgorithmDetail, index: map<string, string>)
    requires a.detail == Some(OfAlgorithm(d)) && IsValidDetail(d) && Get(index, KEY_SIZE) == None
    ensures AlgorithmDetailFrom(PropertiesOfAlgorithm(a), index) == Returned(d)
  {
    IdentifierRoundTrip(d);
    StrippedOrNone(d.curve);
    StrippedOrNone(d.parameterSet);
    WireWordsAreNotEmpty(d);
  }

  lemma SurvivingDetail(d: AlgorithmDetail)
    requires IsValidDetail(d)
    ensures Returned(d) == d && d != HOLLOW <==> DetailSurvives(d)
    ensures d != HOLLOW && Returned(d) == HOLLOW ==> !DetailSurvives(d)
  {}

  lemma DetailRoundTrip(a: CryptoArtefact, index: map<string, string>)
    requires IsValid(a) && a.kind == Enums.AssetType.Algorithm && Get(index, KEY_SIZE) == None
    ensures DetailFrom(a.kind, a.name, PropertiesOfAlgorithm(a), index) == a.detail
            <==> StatedDetailSurvives(a.detail)
  {
    match a.detail
    case None =>
      assert AlgorithmDetailFrom(PropertiesOfAlgorithm(a), index) == HOLLOW;
    case Some(d) =>
      ReturnedDetail(a, d.algorithm, index);
      SurvivingDetail(d.algorithm);
  }

  // ----- evidence -----

  /** A place an artefact was seen. */
  datatype Place = Place(path: string, line: Option<nat>)

  function PlacesOf(evidence: seq<Evidence>): seq<Place> {
    if evidence == [] then []
    else [Place(evidence[0].location.path, evidence[0].location.line)] + PlacesOf(evidence[1..])
  }

  predicate AllLocated(evidence: seq<Evidence>) {
    forall e :: e in evidence ==> e.location.path != ""
  }

  function Located(evidence: seq<Evidence>): seq<Evidence> {
    if evidence == [] then []
    else if evidence[0].location.path == "" then Located(evidence[1..])
    else [evidence[0]] + Located(evidence[1..])
  }

  lemma {:induction false} PlacesCount(evidence: seq<Evidence>)
    ensures |PlacesOf(evidence)| == |evidence|
  {
    if evidence != [] {
      PlacesCount(evidence[1..]);
    }
  }

  lemma {:induction false} AllLocatedIsLocated(evidence: seq<Evidence>)
    ensures |Located(evidence)| <= |evidence|
    ensures AllLocated(evidence) <==> Located(evidence) == evidence
    ensures AllLocated(evidence) <==> |Located(evidence)| == |evidence|
  {
    if evidence != [] {
      AllLocatedIsLocated(evidence[1..]);
      assert evidence == [evidence[0]] + evidence[1..];
    }
  }

  /** The places with a path come back, in order. */
  lemma {:induction false} LocatedComesBack(evidence: seq<Evidence>, index: map<string, string>)
    requires forall e :: e in evidence ==> IsValidLocation(e.location)
    ensures var r := EvidenceFrom(OccurrencesOf(evidence), index);
            r.Success? && PlacesOf(r.value) == PlacesOf(Located(evidence))
  {
    if evidence != [] {
      var e, rest := evidence[0], evidence[1..];
      assert e in evidence;
      LocatedComesBack(rest, index);
      assert OccurrencesOf(evidence)[1..] == OccurrencesOf(rest);
      assert PathOf(OccurrenceOf(e)) == e.location.path;
      var found, more := EvidenceOf(OccurrenceOf(e), index), EvidenceFrom(OccurrencesOf(rest), index).value;
      assert ([found] + more)[1..] == more;
      assert ([e] + Located(rest))[1..] == Located(rest);
    }
  }

  /** All places come back exactly when all have a path; with none left the component is refused. */
  lemma EvidenceRoundTrip(evidence: seq<Evidence>, index: map<string, string>)
    requires forall e :: e in evidence ==> IsValidLocation(e.location)
    ensures var r := EvidenceFrom(OccurrencesOf(evidence), index);
            && r.Success? && |r.value| == |Located(evidence)|
            && (PlacesOf(r.value) == PlacesOf(evidence) <==> AllLocated(evidence))
            && (AllLocated(evidence) ==> |r.value| == |evidence|)
  {
    LocatedComesBack(evidence, index);
    AllLocatedIsLocated(evidence);
    PlacesCount(EvidenceFrom(OccurrencesOf(evidence), index).value);
    PlacesCount(Located(evidence));
    PlacesCount(evidence);
  }

  // ----- the whole component -----

  /** Agreement on everything but the typed detail. */
  predicate AgreesOnCore(a: CryptoArtefact, b: CryptoArtefact) {
    && b.kind == a.kind && b.name == a.name && b.algorithm == a.algorithm && b.oid == a.oid
    && b.primitive == a.primitive && b.purposes == a.purposes && PlacesOf(b.evidence) == PlacesOf(a.evidence)
  }

  ghost predicate CoreSurvives(a: CryptoArtefact) {
    && AlgorithmSurvives(a) && a.oid != Some("") && AreDistinct(a.purposes) && AllLocated(a.evidence)
  }

  lemma PrimitiveComesBack(a: CryptoArtefact)
    ensures var p := PropertiesOfAlgorithm(a).primitive;
            a.primitive == if IsTruthy(p) then Some(PrimitiveFromWire(p.value)) else None
  {
    if a.primitive.Some? {
      PrimitiveRoundTrip(a.primitive.value, "");
    }
  }

  /** Type and name always come back; each other core field comes back exactly under its own condition. */
  lemma ReturnedCore(a: CryptoArtefact, n: Notes, o: Origin, digest: Identity -> Id, discriminator: string)
    requires IsValid(a) && Converted(ComponentOf(a, n), o, digest, discriminator).Success?
    ensures var b := Converted(ComponentOf(a, n), o, digest, discriminator).value;
            && b.kind == a.kind && b.name == a.name && b.primitive == a.primitive
            && (b.algorithm == a.algorithm <==> AlgorithmSurvives(a))
            && (b.oid == a.oid <==> a.oid != Some(""))
            && (b.purposes == a.purposes <==> AreDistinct(a.purposes))
            && (PlacesOf(b.evidence) == PlacesOf(a.evidence) <==> AllLocated(a.evidence))
            && b.detail == DetailFrom(a.kind, a.name, PropertiesOfAlgorithm(a), IndexOf(PropertiesOf(a, n)))
  {
    ExportedLookups(a, n);
    AssetTypeRoundTrip(a.kind);
    if a.kind != Enums.Library {
      AlgorithmRoundTrip(a, n);
    }
    StrippedOrNone(a.oid);
    PurposesRoundTrip(a.purposes);
    PrimitiveComesBack(a);
    EvidenceRoundTrip(a.evidence, IndexOf(PropertiesOf(a, n)));
  }

  /** With every place located, the component is accepted. */
  lemma LocatedIsAccepted(a: CryptoArtefact, n: Notes, o: Origin, digest: Identity -> Id, discriminator: string)
    requires IsValid(a) && AllLocated(a.evidence)
    ensures Converted(ComponentOf(a, n), o, digest, discriminator).Success?
  {
    EvidenceRoundTrip(a.evidence, IndexOf(PropertiesOf(a, n)));
  }

  /** For every artefact type: the core fields come back exactly when they survive the wire. */
  lemma CoreRoundTrip(a: CryptoArtefact, n: Notes, o: Origin, digest: Identity -> Id, discriminator: string)
    requires IsValid(a)
    ensures var r := Converted(ComponentOf(a, n), o, digest, discriminator);
            r.Success? && AgreesOnCore(a, r.value) <==> CoreSurvives(a)
  {
    var r := Converted(ComponentOf(a, n), o, digest, discriminator);
    if AllLocated(a.evidence) {
      LocatedIsAccepted(a, n, o, digest, discriminator);
    }
    if r.Success? {
      ReturnedCore(a, n, o, digest, discriminator);
    }
  }

  /**
   For an algorithm, the typed detail as well: type, name, algorithm, OID, primitive, purposes, mode, padding, curve,
   key size or parameter set, and every place come back exactly under the stated condition.
   */
  lemma AlgorithmComponentRoundTrip(a: CryptoArtefact, n: Notes, o: Origin, digest: Identity -> Id, discriminator: string)
    requires IsValid(a) && a.kind == Enums.AssetType.Algorithm
    ensures var r := Converted(ComponentOf(a, n), o, digest, discriminator);
            r.Success? && AgreesOnCore(a, r.value) && r.value.detail == a.detail
            <==> CoreSurvives(a) && StatedDetailSurvives(a.detail)
  {
    var r := Converted(ComponentOf(a, n), o, digest, discriminator);
    CoreRoundTrip(a, n, o, digest, discriminator);
    ExportedLookups(a, n);
    DetailRoundTrip(a, IndexOf(PropertiesOf(a, n)));
    if r.Success? {
      ReturnedCore(a, n, o, digest, discriminator);
    }
  }

  /** With no place left, nothing comes back; with one, the component is accepted. */
  lemma AcceptedExactlyWhenLocated(a: CryptoArtefact, n: Notes, o: Origin, digest: Identity -> Id, discriminator: string)
    requires IsValid(a)
    ensures Converted(ComponentOf(a, n), o, digest, discriminator).Success? <==> Located(a.evidence) != []
  {
    EvidenceRoundTrip(a.evidence, IndexOf(PropertiesOf(a, n)));
  }

  /** Agreement on all that the round trip is for: the core fields, and the typed detail of an algorithm. */
  predicate ComesBackAs(a: CryptoArtefact, b: CryptoArtefact) {
    AgreesOnCore(a, b) && (a.kind == Enums.AssetType.Algorithm ==> b.detail == a.detail)
  }

  ghost predicate Survives(a: CryptoArtefact) {
    CoreSurvives(a) && (a.kind == Enums.AssetType.Algorithm ==> StatedDetailSurvives(a.detail))
  }

  /** One artefact of any type comes back exactly when it survives. */
  lemma ComponentRoundTrip(a: CryptoArtefact, n: Notes, o: Origin, digest: Identity -> Id, discriminator: string)
    requires IsValid(a)
    ensures var r := Converted(ComponentOf(a, n), o, digest, discriminator);
            r.Success? && ComesBackAs(a, r.value) <==> Survives(a)
  {
    if a.kind == Enums.AssetType.Algorithm {
      AlgorithmComponentRoundTrip(a, n, o, digest, discriminator);
    } else {
      CoreRoundTrip(a, n, o, digest, discriminator);
    }
  }
}
