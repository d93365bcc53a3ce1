/**
 CBOM documents and their export (backend/app/exporters/cyclonedx.py).  The wire records follow the `cryptoProperties`
 object of the CycloneDX 1.6 JSON schema (ECMA-424); a member that is absent is `None` or an empty list.
 */
module Cyclonedx {
  import opened Wrappers
  import opened Artefacts
  import opened Deduplication
  import Enums
  import opened Vocabulary
  import Decimal

  // ----- the wire -----

  datatype AlgorithmProperties = AlgorithmProperties(
    primitive: Option<string>,
    cryptoFunctions: seq<string>,
    parameterSetIdentifier: Option<string>,
    curve: Option<string>,
    mode: Option<string>,
    padding: Option<string>)

  /** A JSON number or string. */
  datatype Scalar = Number(value: int) | Text(text: string)

  datatype Occurrence =
    | Occurrence(location: Option<string>, line: Option<Scalar>, additionalContext: Option<string>)
    | NotAnOccurrence

  /** An entry whose name or value is not a string is unreadable. */
  datatype Property = Property(name: string, value: string) | Unreadable

  datatype Component = Component(
    name: Option<string>,
    bomRef: string,
    assetType: Option<string>,
    oid: Option<string>,
    algorithm: AlgorithmProperties,
    hasRejectedDates: bool, // certificate dates that the certificate record's validator would refuse
    occurrences: seq<Occurrence>,
    properties: seq<Property>)

  /** Entries of `components`: not an object, another component type, or a cryptographic asset. */
  datatype Entry = NotAnObject | OtherType | Asset(component: Component) | MistypedAsset

  datatype Tool = Tool(name: string, version: string)

  datatype Tools = NoTools | ToolsObject(components: seq<Tool>) | ToolsList(tools: seq<Tool>)

  datatype Metadata = Metadata(timestamp: Option<string>, tools: Tools)

  datatype Components = NoComponents | NotAList | ComponentList(entries: seq<Entry>)

  datatype Document = Document(
    bomFormat: Option<string>,
    specVersion: Option<string>,
    serialNumber: Option<string>,
    metadata: Option<Metadata>,
    components: Components)

  const ASSET_TYPE := "trinetra:asset-type"
  const ALGORITHM := "trinetra:algorithm"
  const VULNERABILITY := "trinetra:quantum-vulnerability"
  const RISK_SCORE := "trinetra:risk-score"
  const PRIORITY := "trinetra:priority"
  const MOSCA_URGENT := "trinetra:mosca-urgent"
  const RECOMMENDED := "trinetra:recommended-algorithm"

  const CYCLONEDX := "CycloneDX"
  const SPEC_VERSION := "1.6"
  const SERIAL_PREFIX := "urn:uuid:"

  // ----- one component -----

  /** What the exporter adds from an assessment and a recommendation, as text. */
  datatype Notes = Notes(assessment: Option<Assessed>, recommended: Option<string>)

  datatype Assessed = Assessed(score: Option<string>, priority: string, urgent: Option<string>)

  /** Python's truth of an optional string. */
  predicate IsTruthy(s: Option<string>) {
    s.Some? && s.value != ""
  }

  /** `s or None` */
  function OrNone(s: Option<string>): Option<string> {
    if IsTruthy(s) then s else None
  }

  function VulnerabilityValue(v: Enums.QuantumVulnerability): string {
    match v
    case ShorBroken => "shor_broken"
    case GroverWeakened => "grover_weakened"
    case QuantumSafe => "quantum_safe"
    case ClassicallyBroken => "classically_broken"
    case NotApplicable => "not_applicable"
    case Unknown => "unknown"
  }

  /** The one identifier that holds either a parameter set or a key size; the parameter set wins. */
  function IdentifierOf(d: AlgorithmDetail): Option<string> {
    if IsTruthy(d.parameterSet) then d.parameterSet
    else if d.keySizeBits.Some? && d.keySizeBits.value != 0 then Some(Decimal.Print(d.keySizeBits.value))
    else None
  }

  function PropertiesOfAlgorithm(a: CryptoArtefact): AlgorithmProperties {
    var primitive := if a.primitive.Some? then Some(PrimitiveToWire(a.primitive.value)) else None;
    var functions := PurposesToWire(a.purposes);
    if a.detail.Some? && a.detail.value.OfAlgorithm? then
      var d := a.detail.value.algorithm;
      AlgorithmProperties(
        primitive, functions, IdentifierOf(d), OrNone(d.curve),
        if d.mode.Some? then Some(ModeToWire(d.mode.value)) else None,
        if d.padding.Some? then Some(PaddingToWire(d.padding.value)) else None)
    else AlgorithmProperties(primitive, functions, None, None, None, None)
  }

  function OccurrenceOf(e: Evidence): Occurrence {
    Occurrence(
      Some(e.location.path),
      if e.location.line.Some? then Some(Number(e.location.line.value)) else None,
      if IsTruthy(e.snippet) && !e.isRedacted then e.snippet else None)
  }

  function OccurrencesOf(evidence: seq<Evidence>): (r: seq<Occurrence>)
    ensures |r| == |evidence|
    ensures forall i :: 0 <= i < |evidence| ==> r[i] == OccurrenceOf(evidence[i])
  {
    seq(|evidence|, i requires 0 <= i < |evidence| => OccurrenceOf(evidence[i]))
  }

  /** At most one property. */
  function Maybe(name: string, value: Option<string>): seq<Property> {
    if value.Some? then [Property(name, value.value)] else []
  }

  function NoteProperties(n: Notes): seq<Property> {
    (match n.assessment
     case None => []
     case Some(a) => Maybe(RISK_SCORE, a.score) + [Property(PRIORITY, a.priority)] + Maybe(MOSCA_URGENT, a.urgent))
    + Maybe(RECOMMENDED, OrNone(n.recommended))
  }

  function PropertiesOf(a: CryptoArtefact, n: Notes): seq<Property> {
    Maybe(ASSET_TYPE, HintFor(a.kind))
    + Maybe(ALGORITHM, OrNone(a.algorithm))
    + [Property(VULNERABILITY, VulnerabilityValue(a.vulnerability))]
    + NoteProperties(n)
  }

  function ComponentOf(a: CryptoArtefact, n: Notes): Component {
    Component(
      Some(a.name), a.artefactId, Some(AssetTypeToWire(a.kind)), OrNone(a.oid),
      PropertiesOfAlgorithm(a), false, OccurrencesOf(a.evidence), PropertiesOf(a, n))
  }

  method BuildAlgorithmProperties(a: CryptoArtefact) returns (props: AlgorithmProperties)
    ensures props == PropertiesOfAlgorithm(a)
  {
    props := AlgorithmProperties(None, [], None, None, None, None);
    if a.primitive.Some? {
      props := props.(primitive := Some(PrimitiveToWire(a.primitive.value)));
    }
    if a.purposes != [] {
      props := props.(cryptoFunctions := PurposesToWire(a.purposes));
    }
    if a.detail.Some? && a.detail.value.OfAlgorithm? {
      var d := a.detail.value.algorithm;
      if IsTruthy(d.parameterSet) {
        props := props.(parameterSetIdentifier := d.parameterSet);
      }
      if IsTruthy(d.curve) {
        props := props.(curve := d.curve);
      }
      if d.mode.Some? {
        props := props.(mode := Some(ModeToWire(d.mode.value)));
      }
      if d.padding.Some? {
        props := props.(padding := Some(PaddingToWire(d.padding.value)));
      }
      if d.keySizeBits.Some? && d.keySizeBits.value != 0 {
        var identifier := props.parameterSetIdentifier.GetOr(Decimal.Print(d.keySizeBits.value));
        props := props.(parameterSetIdentifier := Some(identifier));
      }
    }
  }

  method BuildOccurrences(evidence: seq<Evidence>) returns (occurrences: seq<Occurrence>)
    ensures occurrences == OccurrencesOf(evidence)
  {
    occurrences := [];
    for i := 0 to |evidence|
      invariant occurrences == OccurrencesOf(evidence[..i])
    {
      var occurrence := Occurrence(Some(evidence[i].location.path), None, None);
      if evidence[i].location.line.Some? {
        occurrence := occurrence.(line := Some(Number(evidence[i].location.line.value)));
      }
      if IsTruthy(evidence[i].snippet) && !evidence[i].isRedacted {
        occurrence := occurrence.(additionalContext := evidence[i].snippet);
      }
      occurrences := occurrences + [occurrence];
    }
    assert evidence[..|evidence|] == evidence;
  }

  method BuildProperties(a: CryptoArtefact, n: Notes) returns (properties: seq<Property>)
    ensures properties == PropertiesOf(a, n)
  {
    properties := [];
    if NeedsHint(a.kind) {
      properties := properties + [Property(ASSET_TYPE, AssetTypeValue(a.kind))];
    }
    if IsTruthy(a.algorithm) {
      properties := properties + [Property(ALGORITHM, a.algorithm.value)];
    }
    properties := properties + [Property(VULNERABILITY, VulnerabilityValue(a.vulnerability))];
    ghost var own := properties;
    if n.assessment.Some? {
      var assessed := n.assessment.value;
      if assessed.score.Some? {
        properties := properties + [Property(RISK_SCORE, assessed.score.value)];
      }
      properties := properties + [Property(PRIORITY, assessed.priority)];
      if assessed.urgent.Some? {
        properties := properties + [Property(MOSCA_URGENT, assessed.urgent.value)];
      }
    }
    if IsTruthy(n.recommended) {
      properties := properties + [Property(RECOMMENDED, n.recommended.value)];
    }
    assert properties == own + NoteProperties(n);
  }

  method BuildComponent(a: CryptoArtefact, n: Notes) returns (component: Component)
    ensures component == ComponentOf(a, n)
  {
    component := Component(
      Some(a.name), a.artefactId, Some(AssetTypeToWire(a.kind)), None,
      AlgorithmProperties(None, [], None, None, None, None), false, [], []);
    if IsTruthy(a.oid) {
      component := component.(oid := a.oid);
    }
    var algorithm := BuildAlgorithmProperties(a);
    component := component.(algorithm := algorithm);
    var occurrences := BuildOccurrences(a.evidence);
    component := component.(occurrences := occurrences);
    var properties := BuildProperties(a, n);
    component := component.(properties := properties);
  }

  // ----- the document -----

  function ComponentsOf(xs: seq<CryptoArtefact>, notes: map<Id, Notes>): (r: seq<Entry>)
    ensures |r| == |xs|
  {
    seq(|xs|, i requires 0 <= i < |xs| => Asset(ComponentOf(xs[i], NotesFor(notes, xs[i].artefactId))))
  }

  function NotesFor(notes: map<Id, Notes>, id: Id): Notes {
    if id in notes then notes[id] else Notes(None, None)
  }

  /** The envelope: the exporting tool and the scan's tools, as an object. */
  function Envelope(timestamp: string, uuid: string, own: Tool, tools: seq<Tool>): Document {
    Document(Some(CYCLONEDX), Some(SPEC_VERSION), Some(SERIAL_PREFIX + uuid),
             Some(Metadata(Some(timestamp), ToolsObject([own] + tools))), NoComponents)
  }

  /** Components of a document; an absent list has none. */
  function EntriesOf(d: Document): seq<Entry> {
    if d.components.ComponentList? then d.components.entries else []
  }

  method ExportComponents(xs: seq<CryptoArtefact>, notes: map<Id, Notes>) returns (entries: seq<Entry>)
    ensures entries == ComponentsOf(xs, notes)
  {
    entries := [];
    for i := 0 to |xs|
      invariant |entries| == i
      invariant forall k :: 0 <= k < i ==> entries[k] == Asset(ComponentOf(xs[k], NotesFor(notes, xs[k].artefactId)))
    {
      var component := BuildComponent(xs[i], NotesFor(notes, xs[i].artefactId));
      entries := entries + [Asset(component)];
    }
  }

  /** `timestamp` and `uuid` stand for the clock and the random serial number. */
  method Export(xs: seq<CryptoArtefact>, notes: map<Id, Notes>, timestamp: string, uuid: string, own: Tool, tools: seq<Tool>)
    returns (document: Document)
    ensures document ==
            Envelope(timestamp, uuid, own, tools).(components := ComponentList(ComponentsOf(Deduplicated(xs), notes)))
  {
    var unique := Deduplicate(xs);
    var entries := ExportComponents(unique, notes);
    document := Envelope(timestamp, uuid, own, tools);
    document := document.(components := ComponentList(entries));
  }
}
