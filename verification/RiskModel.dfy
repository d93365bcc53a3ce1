/**
 Risk records with their validators (backend/app/schemas/risk.py) and the policy profiles they are computed from
 (backend/app/engines/profiles/loader.py).  A constructor that would raise is a function returning a Result.
 */
module RiskModel {
  import opened Wrappers
  import opened Enums

  datatype RiskError = ValidationError(model: string) | MissingTableEntry

  // ----- score contributions -----

  datatype Factor =
    | AlgorithmVulnerability | MoscaTiming | ResourceFeasibility | DataSensitivity
    | BusinessCriticalityFactor | ExposureFactor | MigrationComplexity

  /** The canonical maxima; the loader rejects any other weights. */
  function Weight(f: Factor): int {
    match f
    case AlgorithmVulnerability => 25
    case MoscaTiming => 20
    case ResourceFeasibility => 15
    case DataSensitivity => 12
    case BusinessCriticalityFactor => 10
    case ExposureFactor => 10
    case MigrationComplexity => 8
  }

  datatype ScoreContribution = ScoreContribution(factor: Factor, points: real, maxPoints: int, hasEvidence: bool)

  predicate IsValidContribution(c: ScoreContribution) {
    && c.points >= 0.0 && c.maxPoints > 0
    && (!c.hasEvidence ==> c.points == 0.0)
    && c.points <= c.maxPoints as real
  }

  function Contribute(f: Factor, points: real, hasEvidence: bool): Result<ScoreContribution, RiskError> {
    var c := ScoreContribution(f, points, Weight(f), hasEvidence);
    if IsValidContribution(c) then Success(c) else Failure(ValidationError("ScoreContribution"))
  }

  // ----- tracks -----

  datatype MoscaTrack = MoscaTrack(
    xYears: Option<nat>,
    yYears: Option<real>,
    zYears: Option<real>,
    zBasis: ZBasis,
    isUrgent: Option<bool>,
    shortfallYears: Option<real>,
    confidence: Option<Confidence>)
  {
    predicate IsResolved() {
      xYears.Some? && yYears.Some? && zYears.Some?
    }

    predicate IsValid() {
      && (yYears.Some? ==> yYears.value >= 0.0)
      && (zYears.Some? ==> zYears.value >= 0.0)
      && (isUrgent.Some? ==> IsResolved())
    }
  }

  const UNRESOLVED_MOSCA := MoscaTrack(None, None, None, Unavailable, None, None, None)

  function NewMoscaTrack(t: MoscaTrack): Result<MoscaTrack, RiskError> {
    if t.IsValid() then Success(t) else Failure(ValidationError("MoscaTrack"))
  }

  datatype PointConfidence = Roadmap | Moderate | LowPoint

  /** The point of the capability curve an answer rests on, scaled by the scenario. */
  datatype Capability = Capability(year: int, qubits: real, gates: real, confidence: PointConfidence)

  datatype ResourceTrack = ResourceTrack(
    mYears: Option<real>,
    scenario: Scenario,
    status: ProjectionStatus,
    breakYear: Option<int>,
    qubitsRequired: Option<int>,
    gatesRequired: Option<real>,
    assumptions: map<string, string>,
    confidence: Option<Confidence>,
    capability: Option<Capability>)
  {
    predicate IsResolved() {
      if status == Calculated then mYears.Some? else status == BeyondHorizon
    }

    predicate IsValid() {
      && (mYears.Some? ==> mYears.value >= 0.0)
      && (qubitsRequired.Some? ==> qubitsRequired.value > 0)
      && (gatesRequired.Some? ==> gatesRequired.value > 0.0)
      && ((status == Calculated || status == BeyondHorizon) && qubitsRequired.Some? ==> assumptions != map[])
    }
  }

  const UNRESOLVED_RESOURCE :=
    ResourceTrack(None, Baseline, ModelUnavailable, None, None, None, map[], None, None)

  function NewResourceTrack(t: ResourceTrack): Result<ResourceTrack, RiskError> {
    if t.IsValid() then Success(t) else Failure(ValidationError("ResourceTrack"))
  }

  // ----- assessments -----

  datatype RiskAssessment = RiskAssessment(
    artefactId: string,
    status: AssessmentStatus,
    finalScore: Option<real>,
    finalConfidence: Option<Confidence>,
    priority: Priority,
    mosca: MoscaTrack,
    resource: ResourceTrack,
    contributions: seq<ScoreContribution>,
    missingFields: seq<string>)

  function BandForScore(score: real): Priority {
    if score >= 75.0 then P0 else if score >= 50.0 then P1 else P2
  }

  predicate IsValidAssessment(a: RiskAssessment) {
    && (a.finalScore.Some? ==> 0.0 <= a.finalScore.value <= 100.0)
    && (a.finalScore.Some? ==> a.mosca.IsResolved() && a.resource.IsResolved())
    && (a.status == Scored <==> a.finalScore.Some?)
    && (a.status == NeedsContext ==> a.missingFields != [])
    && a.priority == if a.finalScore.None? then NoPriority else BandForScore(a.finalScore.value)
  }

  function NewAssessment(a: RiskAssessment): Result<RiskAssessment, RiskError> {
    if IsValidAssessment(a) then Success(a) else Failure(ValidationError("RiskAssessment"))
  }

  // ----- profiles -----

  datatype RetentionCategory = RetentionCategory(lifetimeYears: nat, sensitivity: DataClassification)

  type RetentionProfile = map<string, RetentionCategory>

  datatype AttackModel = AttackModel(
    algorithm: string, keySizeBits: int, qubits: int, gates: int,
    construction: string, sourceId: string, assumptions: map<string, string>)

  datatype CapabilityPoint = CapabilityPoint(year: int, qubits: Option<int>, gates: Option<int>, confidence: PointConfidence)

  datatype QuantumProfile = QuantumProfile(referenceYear: int, curve: seq<CapabilityPoint>, models: seq<AttackModel>)

  datatype FeasibilityBand = Within5Years | Within10Years | Within15Years | LaterWithinHorizon

  datatype MigrationKey = SourceAlgorithm | ProviderManagedKey | NonPqcHsm | PqcCapableHsm

  datatype ScoringTables = ScoringTables(
    pointsPerShortfallYear: real,
    feasibility: map<FeasibilityBand, real>,
    classification: map<DataClassification, real>,
    criticality: map<BusinessCriticality, real>,
    exposure: map<ExposureLevel, real>,
    migration: map<MigrationKey, real>)

  /** Algorithm names are held as security tokens; an entry without letters or digits has none. */
  datatype RiskProfiles = RiskProfiles(
    retention: RetentionProfile,
    quantum: QuantumProfile,
    scoring: ScoringTables,
    classicallyBroken: set<Option<string>>,
    quantumResistant: set<Option<string>>)

  function LookUp<K>(table: map<K, real>, key: K): Result<real, RiskError> {
    if key in table then Success(table[key]) else Failure(MissingTableEntry)
  }

  ghost predicate Covers<K>(table: map<K, real>, keys: set<K>, f: Factor) {
    && keys <= table.Keys
    && forall k :: k in keys ==> 0.0 <= table[k] <= Weight(f) as real
  }

  /** Capability years are unique and ascending (the loader checks this) and not before the reference year. */
  ghost predicate IsValidQuantum(q: QuantumProfile) {
    && (forall i, j :: 0 <= i < j < |q.curve| ==> q.curve[i].year < q.curve[j].year)
    && (forall i :: 0 <= i < |q.curve| ==> q.referenceYear <= q.curve[i].year)
    && (forall m :: m in q.models ==> m.qubits > 0 && m.gates > 0)
  }

  /**
   Scoring tables that can never trip a validator.  The loader fixes the weights, but it does not look inside these
   tables; the profile shipped with the platform satisfies all of this.
   */
  ghost predicate IsValidScoring(t: ScoringTables) {
    && t.pointsPerShortfallYear >= 0.0
    && Covers(t.classification, {DataClassification.Restricted, DataClassification.Confidential,
                                 DataClassification.Internal, DataClassification.Public}, DataSensitivity)
    && Covers(t.criticality, {BusinessCriticality.Critical, BusinessCriticality.High,
                              BusinessCriticality.Medium, BusinessCriticality.Low}, BusinessCriticalityFactor)
    && Covers(t.exposure, {ExposureLevel.Internet, ExposureLevel.Partner,
                           ExposureLevel.Internal, ExposureLevel.Isolated}, ExposureFactor)
    && Covers(t.migration, {SourceAlgorithm, ProviderManagedKey, NonPqcHsm, PqcCapableHsm}, MigrationComplexity)
    && {Within5Years, Within10Years, Within15Years, LaterWithinHorizon} <= t.feasibility.Keys
    && t.feasibility[Within5Years] >= t.feasibility[Within10Years]
    && t.feasibility[Within10Years] >= t.feasibility[Within15Years]
    && t.feasibility[Within15Years] >= t.feasibility[LaterWithinHorizon] >= 0.0
  }

  /** Retention categories never leave the sensitivity open. */
  ghost predicate IsValidRetention(p: RetentionProfile) {
    forall c :: c in p ==> p[c].sensitivity != DataClassification.Unknown
  }

  ghost predicate IsValidProfiles(p: RiskProfiles) {
    IsValidQuantum(p.quantum) && IsValidScoring(p.scoring) && IsValidRetention(p.retention)
  }

  // ----- what the engines read from an artefact -----

  /**
   `securityToken`, `algorithmKey` and `keySizeBits` are the results of `_security_token`, `normalise_algorithm` and
   `key_size_bits` on the artefact's strings.
   */
  datatype Subject = Subject(
    artefactId: string,
    kind: AssetType,
    vulnerability: QuantumVulnerability,
    primitive: Option<Primitive>,
    securityToken: Option<string>,
    algorithmKey: Option<string>,
    keySizeBits: Option<int>,
    supportsPqc: Option<bool>,
    isProviderManaged: bool)
}
