/** The two-track verdict (backend/app/engines/final_risk_engine.py). */
module RiskEngine {
  import opened Wrappers
  import opened Enums
  import opened Contexts
  import opened RiskModel
  import Mosca = MoscaEngine
  import Resources = ResourceEngine

  datatype RiskSettings = RiskSettings(planningHorizonYears: Option<real>, scenario: Scenario)

  // ----- policy -----

  function PolicyVerdict(s: Subject, p: RiskProfiles): Option<AssessmentStatus> {
    if s.kind == Library then Some(DependencyOnly)
    else if s.vulnerability == ClassicallyBroken || s.securityToken in p.classicallyBroken then Some(PolicyDecided)
    else if s.vulnerability == QuantumSafe || s.securityToken in p.quantumResistant then
      Some(AssessmentStatus.NotApplicable)
    else None
  }

  /** The scanner's label, or the attack class of the observed primitive when it gave none. */
  function EffectiveVulnerability(s: Subject): QuantumVulnerability {
    if s.vulnerability != QuantumVulnerability.Unknown then s.vulnerability
    else match s.primitive
      case Some(Pke) => ShorBroken
      case Some(Signature) => ShorBroken
      case Some(KeyAgreement) => ShorBroken
      case Some(Kem) => ShorBroken
      case Some(BlockCipher) => GroverWeakened
      case Some(StreamCipher) => GroverWeakened
      case Some(Hash) => GroverWeakened
      case Some(Mac) => GroverWeakened
      case Some(Aead) => GroverWeakened
      case _ => QuantumVulnerability.Unknown
  }

  // ----- the seven contributions -----

  function AlgorithmContribution(s: Subject): Result<ScoreContribution, RiskError> {
    match EffectiveVulnerability(s)
    case ShorBroken => Contribute(AlgorithmVulnerability, Weight(AlgorithmVulnerability) as real, true)
    case GroverWeakened => Contribute(AlgorithmVulnerability, Weight(AlgorithmVulnerability) as real / 2.0, true)
    case _ => Contribute(AlgorithmVulnerability, 0.0, false)
  }

  function Min(a: real, b: real): real {
    if a <= b then a else b
  }

  function Max(a: real, b: real): real {
    if a >= b then a else b
  }

  function MoscaPoints(shortfall: real, perYear: real): real {
    Min(Weight(MoscaTiming) as real, Max(0.0, shortfall) * perYear)
  }

  function MoscaContribution(shortfall: Option<real>, t: ScoringTables): Result<ScoreContribution, RiskError> {
    if shortfall.None? then Contribute(MoscaTiming, 0.0, false)
    else Contribute(MoscaTiming, MoscaPoints(shortfall.value, t.pointsPerShortfallYear), true)
  }

  function FeasibilityOf(years: real): FeasibilityBand {
    if years <= 5.0 then Within5Years
    else if years <= 10.0 then Within10Years
    else if years <= 15.0 then Within15Years
    else LaterWithinHorizon
  }

  function ResourceContribution(status: ProjectionStatus, mYears: Option<real>, t: ScoringTables)
    : Result<ScoreContribution, RiskError>
  {
    if status == ModelUnavailable then Contribute(ResourceFeasibility, 0.0, false)
    else if status == BeyondHorizon then Contribute(ResourceFeasibility, 0.0, true)
    else if mYears.None? then Contribute(ResourceFeasibility, 0.0, false)
    else
      var points :- LookUp(t.feasibility, FeasibilityOf(mYears.value));
      Contribute(ResourceFeasibility, Min(Weight(ResourceFeasibility) as real, points), true)
  }

  /** The stated classification, or the sensitivity of a known data category. */
  function ClassificationOf(c: ArtefactContext, p: RetentionProfile): DataClassification {
    if c.dataClassification == DataClassification.Unknown
       && c.dataCategory.Some? && c.dataCategory.value != "" && c.dataCategory.value in p
    then p[c.dataCategory.value].sensitivity
    else c.dataClassification
  }

  function DataContribution(c: ArtefactContext, p: RiskProfiles): Result<ScoreContribution, RiskError> {
    var classification := ClassificationOf(c, p.retention);
    if classification == DataClassification.Unknown then Contribute(DataSensitivity, 0.0, false)
    else
      var points :- LookUp(p.scoring.classification, classification);
      Contribute(DataSensitivity, points, true)
  }

  function CriticalityContribution(c: ArtefactContext, t: ScoringTables): Result<ScoreContribution, RiskError> {
    if c.businessCriticality == BusinessCriticality.Unknown then Contribute(BusinessCriticalityFactor, 0.0, false)
    else
      var points :- LookUp(t.criticality, c.businessCriticality);
      Contribute(BusinessCriticalityFactor, points, true)
  }

  function ExposureContribution(c: ArtefactContext, t: ScoringTables): Result<ScoreContribution, RiskError> {
    if c.exposure == ExposureLevel.Unknown then Contribute(ExposureFactor, 0.0, false)
    else
      var points :- LookUp(t.exposure, c.exposure);
      Contribute(ExposureFactor, points, true)
  }

  function MigrationKeyOf(s: Subject): Option<MigrationKey> {
    if s.kind == HardwareModule && s.supportsPqc == Some(false) then Some(NonPqcHsm)
    else if s.kind == HardwareModule && s.supportsPqc == Some(true) then Some(PqcCapableHsm)
    else if s.isProviderManaged then Some(ProviderManagedKey)
    else if s.kind == Algorithm then Some(SourceAlgorithm)
    else None
  }

  function MigrationContribution(s: Subject, t: ScoringTables): Result<ScoreContribution, RiskError> {
    match MigrationKeyOf(s)
    case None => Contribute(MigrationComplexity, 0.0, false)
    case Some(key) =>
      var points :- LookUp(t.migration, key);
      Contribute(MigrationComplexity, points, true)
  }

  function Contributions(s: Subject, c: ArtefactContext, p: RiskProfiles, mosca: MoscaTrack, resource: ResourceTrack)
    : Result<seq<ScoreContribution>, RiskError>
  {
    var algorithm :- AlgorithmContribution(s);
    var timing :- MoscaContribution(mosca.shortfallYears, p.scoring);
    var feasibility :- ResourceContribution(resource.status, resource.mYears, p.scoring);
    var data :- DataContribution(c, p);
    var criticality :- CriticalityContribution(c, p.scoring);
    var exposure :- ExposureContribution(c, p.scoring);
    var migration :- MigrationContribution(s, p.scoring);
    Success([algorithm, timing, feasibility, data, criticality, exposure, migration])
  }

  function TotalPoints(cs: seq<ScoreContribution>): real {
    if cs == [] then 0.0 else cs[0].points + TotalPoints(cs[1..])
  }

  // ----- the verdict -----

  function MissingFields(mosca: MoscaTrack, resource: ResourceTrack): seq<string> {
    (if mosca.xYears.None? then ["data_lifetime_years"] else [])
    + (if mosca.yYears.None? then ["migration_time_years"] else [])
    + (if mosca.zYears.None? then ["threat_horizon_years"] else [])
    + (if resource.status == ModelUnavailable then ["quantum_resource_model"] else [])
  }

  function FinalConfidence(mosca: MoscaTrack, resource: ResourceTrack, cs: seq<ScoreContribution>): Option<Confidence> {
    var tracks := (if mosca.confidence.Some? then [mosca.confidence.value] else [])
                  + (if resource.confidence.Some? then [resource.confidence.value] else []);
    if tracks == [] then None
    else
      var combined := Weakest(tracks);
      Some(if exists c :: c in cs && !c.hasEvidence then Downgrade(combined) else combined)
  }

  /** The verdict of two tracks and their contributions: named gaps, or a score. */
  function Combine(id: string, mosca: MoscaTrack, resource: ResourceTrack, cs: seq<ScoreContribution>)
    : Result<RiskAssessment, RiskError>
  {
    var draft :- NewAssessment(RiskAssessment(id, NeedsContext, None, None, NoPriority, mosca, resource, cs,
                                              ["pending_track_resolution"]));
    var missing := MissingFields(mosca, resource);
    if missing != [] then Success(draft.(missingFields := missing))
    else
      var confidence := FinalConfidence(mosca, resource, cs);
      if confidence.None? then Failure(ValidationError("Confidence"))
      else
        var score := TotalPoints(cs);
        NewAssessment(RiskAssessment(id, Scored, Some(score), confidence, BandForScore(score), mosca, resource, cs, []))
  }

  datatype Tracks = Tracks(resource: ResourceTrack, mosca: MoscaTrack)

  /** Track B first: its crossing is offered to track A as a horizon. */
  function TracksFor(s: Subject, c: ArtefactContext, p: RiskProfiles, settings: RiskSettings): Result<Tracks, RiskError> {
    var resource :- Resources.TrackOf(s, p.quantum, settings.scenario);
    var mosca :- Mosca.TrackOf(c, p.retention, settings.planningHorizonYears, resource);
    Success(Tracks(resource, mosca))
  }

  function Classify(s: Subject, c: ArtefactContext, p: RiskProfiles, settings: RiskSettings): Result<RiskAssessment, RiskError> {
    match PolicyVerdict(s, p)
    case Some(status) =>
      NewAssessment(RiskAssessment(s.artefactId, status, None, None, NoPriority, UNRESOLVED_MOSCA, UNRESOLVED_RESOURCE, [], []))
    case None =>
      var tracks :- TracksFor(s, c, p, settings);
      var contributions :- Contributions(s, c, p, tracks.mosca, tracks.resource);
      Combine(s.artefactId, tracks.mosca, tracks.resource, contributions)
  }

  // ----- contributions under a valid profile -----

  lemma MoscaPointsInRange(shortfall: real, perYear: real)
    requires perYear >= 0.0
    ensures 0.0 <= MoscaPoints(shortfall, perYear) <= Weight(MoscaTiming) as real
  {
    assert Max(0.0, shortfall) * perYear >= 0.0;
  }

  ghost predicate Exists(c: Result<ScoreContribution, RiskError>, f: Factor) {
    c.Success? && IsValidContribution(c.value) && c.value.factor == f && c.value.maxPoints == Weight(f)
  }

  lemma TrackContributionsExist(s: Subject, shortfall: Option<real>, status: ProjectionStatus, mYears: Option<real>, t: ScoringTables)
    requires IsValidScoring(t)
    ensures Exists(AlgorithmContribution(s), AlgorithmVulnerability)
    ensures Exists(MoscaContribution(shortfall, t), MoscaTiming)
    ensures Exists(ResourceContribution(status, mYears, t), ResourceFeasibility)
  {
    if shortfall.Some? {
      MoscaPointsInRange(shortfall.value, t.pointsPerShortfallYear);
    }
  }

  lemma ContextContributionsExist(s: Subject, c: ArtefactContext, p: RiskProfiles)
    requires IsValidProfiles(p)
    ensures Exists(DataContribution(c, p), DataSensitivity)
    ensures Exists(CriticalityContribution(c, p.scoring), BusinessCriticalityFactor)
    ensures Exists(ExposureContribution(c, p.scoring), ExposureFactor)
  {}

  lemma MigrationContributionExists(s: Subject, t: ScoringTables)
    requires IsValidScoring(t)
    ensures Exists(MigrationContribution(s, t), MigrationComplexity)
  {}

  /** One valid contribution for each factor, in the canonical order. */
  ghost predicate AreContributions(cs: seq<ScoreContribution>) {
    && |cs| == 7
    && (forall i :: 0 <= i < 7 ==> IsValidContribution(cs[i]) && cs[i].maxPoints == Weight(cs[i].factor))
    && cs[0].factor == AlgorithmVulnerability && cs[1].factor == MoscaTiming && cs[2].factor == ResourceFeasibility
    && cs[3].factor == DataSensitivity && cs[4].factor == BusinessCriticalityFactor && cs[5].factor == ExposureFactor
    && cs[6].factor == MigrationComplexity
  }

  /** Under a valid profile the contributions exist, one per factor, each within its maximum. */
  lemma ContributionsExist(s: Subject, c: ArtefactContext, p: RiskProfiles, mosca: MoscaTrack, resource: ResourceTrack)
    requires IsValidProfiles(p)
    ensures Contributions(s, c, p, mosca, resource).Success?
    ensures AreContributions(Contributions(s, c, p, mosca, resource).value)
    ensures Contributions(s, c, p, mosca, resource).value ==
            [AlgorithmContribution(s).value, MoscaContribution(mosca.shortfallYears, p.scoring).value,
             ResourceContribution(resource.status, resource.mYears, p.scoring).value, DataContribution(c, p).value,
             CriticalityContribution(c, p.scoring).value, ExposureContribution(c, p.scoring).value,
             MigrationContribution(s, p.scoring).value]
  {
    TrackContributionsExist(s, mosca.shortfallYears, resource.status, resource.mYears, p.scoring);
    ContextContributionsExist(s, c, p);
    MigrationContributionExists(s, p.scoring);
  }

  /** A factor counts as measured exactly when its input was observed, and an unmeasured one contributes nothing. */
  lemma MeasuredExactlyWhenObserved(s: Subject, c: ArtefactContext, p: RiskProfiles, mosca: MoscaTrack, resource: ResourceTrack)
    requires IsValidProfiles(p)
    ensures Contributions(s, c, p, mosca, resource).Success?
    ensures var cs := Contributions(s, c, p, mosca, resource).value;
            && AreContributions(cs)
            && (forall i :: 0 <= i < 7 && !cs[i].hasEvidence ==> cs[i].points == 0.0)
            && (cs[0].hasEvidence <==> EffectiveVulnerability(s) in {ShorBroken, GroverWeakened})
            && (cs[1].hasEvidence <==> mosca.shortfallYears.Some?)
            && (cs[2].hasEvidence <==>
                resource.status == BeyondHorizon || (resource.status != ModelUnavailable && resource.mYears.Some?))
            && (cs[3].hasEvidence <==> ClassificationOf(c, p.retention) != DataClassification.Unknown)
            && (cs[4].hasEvidence <==> c.businessCriticality != BusinessCriticality.Unknown)
            && (cs[5].hasEvidence <==> c.exposure != ExposureLevel.Unknown)
            && (cs[6].hasEvidence <==> MigrationKeyOf(s).Some?)
  {
    ContributionsExist(s, c, p, mosca, resource);
  }

  /** A timing shortfall earns points exactly when it is positive, and all of them exactly when it is long enough. */
  lemma TimingEarnsForAShortfall(shortfall: real, t: ScoringTables)
    requires IsValidScoring(t)
    ensures MoscaContribution(Some(shortfall), t).Success?
    ensures MoscaContribution(Some(shortfall), t).value.points > 0.0 <==> shortfall > 0.0 && t.pointsPerShortfallYear > 0.0
    ensures MoscaContribution(Some(shortfall), t).value.points == 20.0 <==>
            shortfall > 0.0 && shortfall * t.pointsPerShortfallYear >= 20.0
  {
    var perYear := t.pointsPerShortfallYear;
    MoscaPointsInRange(shortfall, perYear);
    if shortfall > 0.0 && perYear > 0.0 {
      assert shortfall * perYear > 0.0;
    } else {
      assert Max(0.0, shortfall) * perYear == 0.0;
    }
  }

  /** Relabelling a Grover-weakened subject as Shor-breakable raises the total by half the factor's weight, all else equal. */
  lemma ShorAddsHalfTheWeight(s: Subject, c: ArtefactContext, p: RiskProfiles, mosca: MoscaTrack, resource: ResourceTrack)
    requires IsValidProfiles(p) && s.vulnerability == GroverWeakened
    ensures var broken := s.(vulnerability := ShorBroken);
            && Contributions(s, c, p, mosca, resource).Success? && Contributions(broken, c, p, mosca, resource).Success?
            && TotalPoints(Contributions(broken, c, p, mosca, resource).value)
               == TotalPoints(Contributions(s, c, p, mosca, resource).value) + 12.5
  {
    var broken := s.(vulnerability := ShorBroken);
    ContributionsExist(s, c, p, mosca, resource);
    ContributionsExist(broken, c, p, mosca, resource);
    SumOfSeven(Contributions(s, c, p, mosca, resource).value);
    SumOfSeven(Contributions(broken, c, p, mosca, resource).value);
  }

  lemma SumOfSeven(cs: seq<ScoreContribution>)
    requires |cs| == 7
    ensures TotalPoints(cs) == cs[0].points + cs[1].points + cs[2].points + cs[3].points + cs[4].points + cs[5].points
                               + cs[6].points
  {
    PeelSum(cs, 0);
    PeelSum(cs, 1);
    PeelSum(cs, 2);
    PeelSum(cs, 3);
    PeelSum(cs, 4);
    PeelSum(cs, 5);
    PeelSum(cs, 6);
    assert cs[0..] == cs && cs[7..] == [];
  }

  lemma PeelSum(cs: seq<ScoreContribution>, i: nat)
    requires i < |cs|
    ensures TotalPoints(cs[i..]) == cs[i].points + TotalPoints(cs[i + 1..])
  {
    assert cs[i..][1..] == cs[i + 1..];
  }

  // ----- no validator ever fires -----

  /** X, Y and Z are all there; Z comes from the organisation or from a calculated crossing. */
  ghost predicate HasMoscaInputs(s: Subject, c: ArtefactContext, p: RiskProfiles, settings: RiskSettings) {
    && Mosca.ResolveX(Mosca.EvidenceFor(c, p.retention)).Some?
    && c.migrationTimeYears.Some?
    && (settings.planningHorizonYears.Some? || HasCrossing(s, p, settings))
  }

  ghost predicate HasCrossing(s: Subject, p: RiskProfiles, settings: RiskSettings) {
    && HasModel(s, p)
    && Resources.FirstCrossing(p.quantum.curve, Resources.AttackModelFor(s, p.quantum).value,
                               Resources.Scale(settings.scenario)).Some?
  }

  ghost predicate HasModel(s: Subject, p: RiskProfiles) {
    !Resources.NeedsNoProjection(s.vulnerability) && Resources.AttackModelFor(s, p.quantum).Some?
  }

  /** Contexts are validated on construction: a migration time is never negative. */
  ghost predicate IsValidContext(c: ArtefactContext) {
    c.migrationTimeYears.Some? ==> c.migrationTimeYears.value >= 0.0
  }

  /** The inputs on which classification raises: a negative horizon, or a subject labelled not applicable with X, Y and Z. */
  ghost predicate Raises(s: Subject, c: ArtefactContext, p: RiskProfiles, settings: RiskSettings) {
    && PolicyVerdict(s, p).None?
    && settings.planningHorizonYears.Some?
    && (|| settings.planningHorizonYears.value < 0.0
        || (&& s.vulnerability == QuantumVulnerability.NotApplicable
            && Mosca.ResolveX(Mosca.EvidenceFor(c, p.retention)).Some?
            && c.migrationTimeYears.Some?))
  }

  /** Track A fails only on a negative horizon; otherwise each track is resolved exactly when its inputs are there. */
  lemma TracksOutcome(s: Subject, c: ArtefactContext, p: RiskProfiles, settings: RiskSettings)
    requires IsValidProfiles(p) && IsValidContext(c)
    ensures var tracks := TracksFor(s, c, p, settings);
            && (tracks.Failure? <==> settings.planningHorizonYears.Some? && settings.planningHorizonYears.value < 0.0)
            && (tracks.Success? ==>
                  && (tracks.value.mosca.IsResolved() <==> HasMoscaInputs(s, c, p, settings))
                  && (tracks.value.mosca.IsResolved() <==> tracks.value.mosca.confidence.Some?)
                  && (tracks.value.mosca.IsResolved() <==> tracks.value.mosca.shortfallYears.Some?)
                  && (tracks.value.resource.IsResolved() <==> HasModel(s, p))
                  && (tracks.value.resource.status == ModelUnavailable <==>
                      !Resources.NeedsNoProjection(s.vulnerability) && !HasModel(s, p)))
  {
    Resources.TrackUnderValidProfile(s, p.quantum, settings.scenario);
    var resource := Resources.TrackOf(s, p.quantum, settings.scenario).value;
    Mosca.TrackOutcome(c, p.retention, settings.planningHorizonYears, resource);
  }

  lemma ScoreInRange(cs: seq<ScoreContribution>)
    requires AreContributions(cs)
    ensures 0.0 <= TotalPoints(cs) <= 100.0
  {
    SumOfSeven(cs);
  }

  lemma CombineOutcome(id: string, mosca: MoscaTrack, resource: ResourceTrack, cs: seq<ScoreContribution>)
    requires AreContributions(cs)
    requires mosca.IsResolved() ==> mosca.confidence.Some?
    ensures var r := Combine(id, mosca, resource, cs);
            var scored := mosca.IsResolved() && resource.status != ModelUnavailable;
            && (r.Failure? <==> scored && !resource.IsResolved())
            && (r.Success? ==>
                  && IsValidAssessment(r.value)
                  && r.value.status == (if scored then Scored else NeedsContext)
                  && r.value.contributions == cs && r.value.mosca == mosca && r.value.resource == resource
                  && (scored ==> r.value.finalScore == Some(TotalPoints(cs)))
                  && (!scored ==> r.value.finalConfidence == None
                                  && r.value.missingFields == MissingFields(mosca, resource) != []))
  {
    ScoreInRange(cs);
  }

  lemma PolicyIsAVerdict(s: Subject, c: ArtefactContext, p: RiskProfiles, settings: RiskSettings)
    requires PolicyVerdict(s, p).Some?
    ensures Classify(s, c, p, settings).Success?
    ensures var a := Classify(s, c, p, settings).value;
            a.status == PolicyVerdict(s, p).value && a.finalScore == None && a.priority == NoPriority
  {}

  lemma GapIsAnUnresolvedResource(s: Subject, c: ArtefactContext, p: RiskProfiles, settings: RiskSettings)
    requires PolicyVerdict(s, p).None?
    ensures Raises(s, c, p, settings) <==>
            || (settings.planningHorizonYears.Some? && settings.planningHorizonYears.value < 0.0)
            || (HasMoscaInputs(s, c, p, settings) && Resources.NeedsNoProjection(s.vulnerability))
  {}

  /**
   Under a valid profile, classification fails on exactly the inputs of `Raises`; every other subject, context and
   setting gets a verdict.
   */
  lemma RaisesExactlyInTheGap(s: Subject, c: ArtefactContext, p: RiskProfiles, settings: RiskSettings)
    requires IsValidProfiles(p) && IsValidContext(c)
    ensures Classify(s, c, p, settings).Failure? <==> Raises(s, c, p, settings)
  {
    if PolicyVerdict(s, p).Some? {
      PolicyIsAVerdict(s, c, p, settings);
    } else {
      GapIsAnUnresolvedResource(s, c, p, settings);
      TracksOutcome(s, c, p, settings);
      var tracks := TracksFor(s, c, p, settings);
      if tracks.Success? {
        ContributionsExist(s, c, p, tracks.value.mosca, tracks.value.resource);
        CombineOutcome(s.artefactId, tracks.value.mosca, tracks.value.resource,
                       Contributions(s, c, p, tracks.value.mosca, tracks.value.resource).value);
      }
    }
  }

  /** The gap on a concrete input: RSA labelled not applicable, a user's lifetime of 7 years, 2 to migrate, horizon 10. */
  lemma NotApplicableLabelTripsTheValidator(p: RiskProfiles) returns (s: Subject, c: ArtefactContext, settings: RiskSettings)
    requires IsValidProfiles(p)
    requires Some("rsa") !in p.classicallyBroken && Some("rsa") !in p.quantumResistant
    ensures s.kind == Algorithm && s.vulnerability == QuantumVulnerability.NotApplicable
    ensures IsValidContext(c) && settings.planningHorizonYears == Some(10.0)
    ensures Classify(s, c, p, settings).Failure?
  {
    s := Subject("rsa-2048", Algorithm, QuantumVulnerability.NotApplicable, Some(Pke), Some("rsa"), Some("rsa"),
                 Some(2048), None, false);
    c := ArtefactContext("rsa-2048", BusinessCriticality.Unknown, DataClassification.Unknown, ExposureLevel.Unknown,
                         None, Some(7), Some(2.0), [],
                         map["data_lifetime_years" := Provenance(ProvenanceTier.User, None)]);
    settings := RiskSettings(Some(10.0), Baseline);
    assert |Mosca.DirectLifetimeEvidence(c)| == 1;
    Mosca.XIsLongestOfStrongest(Mosca.EvidenceFor(c, p.retention));
    RaisesExactlyInTheGap(s, c, p, settings);
  }

  /**
   A verdict is SCORED exactly when no policy applies and X, Y, Z and a resource model are all there.  Its score is the
   sum of its contributions, within 0..100, with the matching band; any other verdict has no score and no band.
   */
  lemma ScoredExactlyWhenResolved(s: Subject, c: ArtefactContext, p: RiskProfiles, settings: RiskSettings)
    requires IsValidProfiles(p) && IsValidContext(c) && !Raises(s, c, p, settings)
    ensures Classify(s, c, p, settings).Success?
    ensures var a := Classify(s, c, p, settings).value;
            && IsValidAssessment(a)
            && (a.status == Scored <==>
                PolicyVerdict(s, p).None? && HasMoscaInputs(s, c, p, settings) && HasModel(s, p))
            && (a.status == Scored ==>
                  && AreContributions(a.contributions)
                  && a.finalScore == Some(TotalPoints(a.contributions)))
            && (a.status != Scored ==> a.finalScore == None && a.priority == NoPriority && a.finalConfidence == None)
            && (PolicyVerdict(s, p).Some? ==> a.status == PolicyVerdict(s, p).value)
            && (a.status == NeedsContext ==> a.missingFields == MissingFields(a.mosca, a.resource) != [])
  {
    RaisesExactlyInTheGap(s, c, p, settings);
    TracksOutcome(s, c, p, settings);
    if PolicyVerdict(s, p).None? {
      var tracks := TracksFor(s, c, p, settings).value;
      ContributionsExist(s, c, p, tracks.mosca, tracks.resource);
      CombineOutcome(s.artefactId, tracks.mosca, tracks.resource,
                     Contributions(s, c, p, tracks.mosca, tracks.resource).value);
    }
  }

  /** The final confidence is never stronger than either track's, and weaker than both when a factor lacks evidence. */
  lemma FinalConfidenceIsNeverStronger(mosca: MoscaTrack, resource: ResourceTrack, cs: seq<ScoreContribution>)
    ensures var final := FinalConfidence(mosca, resource, cs);
            && (final.None? <==> mosca.confidence.None? && resource.confidence.None?)
            && (forall t :: t in [mosca.confidence, resource.confidence] && t.Some? ==>
                              ConfidenceRank(t.value) <= ConfidenceRank(final.value))
            && ((exists c :: c in cs && !c.hasEvidence) && final.Some? ==> final.value != Confidence.High)
  {
    var tracks := (if mosca.confidence.Some? then [mosca.confidence.value] else [])
                  + (if resource.confidence.Some? then [resource.confidence.value] else []);
    if tracks != [] {
      WeakestIsWeakest(tracks);
      assert mosca.confidence.Some? ==> mosca.confidence.value in tracks;
      assert resource.confidence.Some? ==> resource.confidence.value in tracks;
    }
  }
}
