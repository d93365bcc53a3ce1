/**
 Artefacts, their evidence, and how rediscoveries are merged (backend/app/schemas/artefact.py,
 backend/app/schemas/scan.py).
 */
module Artefacts {
  import opened Wrappers
  import opened Enums
  import opened DistinctBy

  type Id = string

  datatype SourceLocation = SourceLocation(path: string, line: Option<nat>, column: Option<nat>, symbol: Option<string>)

  datatype Evidence = Evidence(
    location: SourceLocation,
    detectionMethod: string,
    confidence: Confidence,
    snippet: Option<string>,
    ruleId: Option<string>,
    additionalContext: Option<string>,
    isRedacted: bool)

  datatype AlgorithmDetail = AlgorithmDetail(
    mode: Option<CipherMode>,
    padding: Option<Padding>,
    keySizeBits: Option<nat>,
    curve: Option<string>,
    parameterSet: Option<string>,
    rounds: Option<nat>)

  /** The typed details this model looks into; the others are carried by their asset type only. */
  datatype Detail = OfAlgorithm(algorithm: AlgorithmDetail) | OfLibrary(packageName: string) | OfOther(kind: AssetType)

  datatype CryptoArtefact = CryptoArtefact(
    artefactId: Id,
    kind: AssetType,
    name: string,
    algorithm: Option<string>,
    oid: Option<string>,
    primitive: Option<Primitive>,
    purposes: seq<Purpose>,
    vulnerability: QuantumVulnerability,
    nistSecurityLevel: string,
    detail: Option<Detail>,
    evidence: seq<Evidence>,
    discoveredBy: string,
    firstSeen: int,
    lastSeen: int)

  /** What makes two pieces of evidence the same observation. */
  datatype EvidenceKey = EvidenceKey(path: string, line: Option<nat>, detectionMethod: string, ruleId: Option<string>)

  function KeyOf(e: Evidence): EvidenceKey {
    EvidenceKey(e.location.path, e.location.line, e.detectionMethod, e.ruleId)
  }

  function Distinct(evidence: seq<Evidence>): seq<Evidence> {
    Firsts(KeyOf, {}, evidence)
  }

  function Earlier(a: int, b: int): int {
    if a <= b then a else b
  }

  function Later(a: int, b: int): int {
    if a >= b then a else b
  }

  /** Evidence united in discovery order, the seen window widened, everything else from the first. */
  function Merge(a: CryptoArtefact, b: CryptoArtefact): CryptoArtefact {
    a.(evidence := Distinct(a.evidence + b.evidence),
       firstSeen := Earlier(a.firstSeen, b.firstSeen),
       lastSeen := Later(a.lastSeen, b.lastSeen))
  }

  datatype MergeError = DifferentIdentities

  method MergedWith(a: CryptoArtefact, b: CryptoArtefact) returns (r: Result<CryptoArtefact, MergeError>)
    ensures r.Failure? <==> a.artefactId != b.artefactId
    ensures r.Success? ==> r.value == Merge(a, b)
  {
    if b.artefactId != a.artefactId {
      return Failure(DifferentIdentities);
    }
    var combined := KeepFirsts(KeyOf, a.evidence + b.evidence);
    return Success(a.(evidence := combined,
                      firstSeen := Earlier(a.firstSeen, b.firstSeen),
                      lastSeen := Later(a.lastSeen, b.lastSeen)));
  }

  lemma DistinctIsAssociative(a: seq<Evidence>, b: seq<Evidence>, c: seq<Evidence>)
    ensures Distinct(Distinct(a + b) + c) == Distinct(a + Distinct(b + c))
  {
    FirstsOfParts(KeyOf, a + b, c);
    FirstsOfParts(KeyOf, a, b + c);
    assert a + b + c == a + (b + c);
  }

  /** Merging is associative. */
  lemma MergeIsAssociative(a: CryptoArtefact, b: CryptoArtefact, c: CryptoArtefact)
    ensures Merge(Merge(a, b), c) == Merge(a, Merge(b, c))
  {
    DistinctIsAssociative(a.evidence, b.evidence, c.evidence);
  }

  /** No observation is lost or repeated, and the first report of each is the one kept. */
  lemma MergeKeepsEveryObservation(a: CryptoArtefact, b: CryptoArtefact)
    ensures Keys(KeyOf, Merge(a, b).evidence) == Keys(KeyOf, a.evidence) + Keys(KeyOf, b.evidence)
    ensures HasDistinctKeys(KeyOf, {}, Merge(a, b).evidence)
    ensures HasDistinctKeys(KeyOf, {}, a.evidence) ==> a.evidence <= Merge(a, b).evidence
    ensures a.firstSeen <= a.lastSeen && b.firstSeen <= b.lastSeen ==> Merge(a, b).firstSeen <= Merge(a, b).lastSeen
  {
    FirstsKeys(KeyOf, {}, a.evidence + b.evidence);
    KeysConcat(KeyOf, a.evidence, b.evidence);
    FirstsAreDistinct(KeyOf, {}, a.evidence + b.evidence);
    if HasDistinctKeys(KeyOf, {}, a.evidence) {
      FirstsConcat(KeyOf, {}, a.evidence, b.evidence);
      FirstsOfDistinct(KeyOf, {}, a.evidence);
    }
  }
}
