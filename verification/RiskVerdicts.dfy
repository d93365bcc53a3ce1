/** Verdicts in terms of what is observed: label, token, tiers, years and the profile's tables. */
module RiskVerdicts {
  import opened Wrappers
  import opened Enums
  import opened Contexts
  import opened RiskModel
  import opened RiskEngine
  import Mosca = MoscaEngine
  import Resources = ResourceEngine

  // ----- policy -----

  predicate IsBroken(s: Subject, p: RiskProfiles) {
    s.vulnerability == ClassicallyBroken || s.securityToken in p.classicallyBroken
  }

  predicate IsResistant(s: Subject, p: RiskProfiles) {
    s.vulnerability == QuantumSafe || s.securityToken in p.quantumResistant
  }

  ghost predicate HasStatus(r: Result<RiskAssessment, RiskError>, status: AssessmentStatus) {
    r.Success? && r.value.status == status
  }

  /** Without a policy verdict an assessment is scored or asks for context. */
  lemma OnlyPolicySkipsTheTracks(s: Subject, c: ArtefactContext, p: RiskProfiles, settings: RiskSettings)
    requires PolicyVerdict(s, p).None? && Classify(s, c, p, settings).Success?
    ensures Classify(s, c, p, settings).value.status in {Scored, NeedsContext}
  {}

  /**
   A library is dependency-only; anything else that is classically broken is decided by policy; anything else that is
   quantum-resistant is not applicable; and nothing else has one of these verdicts.
   */
  lemma PolicyDecidesInOrder(s: Subject, c: ArtefactContext, p: RiskProfiles, settings: RiskSettings)
    ensures var r := Classify(s, c, p, settings);
            && (HasStatus(r, DependencyOnly) <==> s.kind == Library)
            && (HasStatus(r, PolicyDecided) <==> s.kind != Library && IsBroken(s, p))
            && (HasStatus(r, AssessmentStatus.NotApplicable) <==>
                s.kind != Library && !IsBroken(s, p) && IsResistant(s, p))
  {
    if PolicyVerdict(s, p).Some? {
      PolicyIsAVerdict(s, c, p, settings);
    } else if Classify(s, c, p, settings).Success? {
      OnlyPolicySkipsTheTracks(s, c, p, settings);
    }
  }

  /** A subject without a policy verdict is judged by its tracks and their contributions. */
  lemma JudgedByTracks(s: Subject, c: ArtefactContext, p: RiskProfiles, settings: RiskSettings)
    returns (t: Tracks, cs: seq<ScoreContribution>)
    requires IsValidProfiles(p) && PolicyVerdict(s, p).None? && Classify(s, c, p, settings).Success?
    ensures TracksFor(s, c, p, settings) == Success(t)
    ensures AreContributions(cs)
    ensures Classify(s, c, p, settings) == Combine(s.artefactId, t.mosca, t.resource, cs)
  {
    t := TracksFor(s, c, p, settings).value;
    ContributionsExist(s, c, p, t.mosca, t.resource);
    cs := Contributions(s, c, p, t.mosca, t.resource).value;
  }

  /** The tracks of an assessment are those of its own subject, context and settings. */
  lemma TracksFollowTheInputs(s: Subject, c: ArtefactContext, p: RiskProfiles, settings: RiskSettings)
    requires IsValidProfiles(p) && Classify(s, c, p, settings).Success?
    ensures var a := Classify(s, c, p, settings).value;
            && a.artefactId == s.artefactId
            && (a.status in {Scored, NeedsContext} ==>
                  && a.resource.scenario == settings.scenario
                  && a.mosca.yYears == c.migrationTimeYears
                  && (settings.planningHorizonYears.Some? ==> a.mosca.zYears == settings.planningHorizonYears)
                  && (settings.planningHorizonYears.None? && a.resource.status == Calculated ==>
                        a.mosca.zYears == a.resource.mYears))
  {
    if PolicyVerdict(s, p).None? {
      var t, cs := JudgedByTracks(s, c, p, settings);
      CombineKeepsTracks(s.artefactId, t, cs);
      Resources.TrackUnderValidProfile(s, p.quantum, settings.scenario);
      TracksOf(s, c, p, settings, t);
    }
  }

  lemma CombineKeepsTracks(id: string, t: Tracks, cs: seq<ScoreContribution>)
    requires Combine(id, t.mosca, t.resource, cs).Success?
    ensures var a := Combine(id, t.mosca, t.resource, cs).value;
            a.artefactId == id && a.mosca == t.mosca && a.resource == t.resource
  {}

  lemma TracksOf(s: Subject, c: ArtefactContext, p: RiskProfiles, settings: RiskSettings, t: Tracks)
    requires IsValidQuantum(p.quantum) && TracksFor(s, c, p, settings) == Success(t)
    ensures t.resource.scenario == settings.scenario
    ensures t.mosca.yYears == c.migrationTimeYears
    ensures settings.planningHorizonYears.Some? ==> t.mosca.zYears == settings.planningHorizonYears
    ensures settings.planningHorizonYears.None? && t.resource.status == Calculated ==> t.mosca.zYears == t.resource.mYears
  {
    Resources.TrackUnderValidProfile(s, p.quantum, settings.scenario);
  }

  // ----- what is missing -----

  /** An assessment that needs context names exactly the inputs that are missing. */
  lemma MissingInputsAreNamed(s: Subject, c: ArtefactContext, p: RiskProfiles, settings: RiskSettings)
    requires IsValidProfiles(p) && IsValidContext(c)
    requires HasStatus(Classify(s, c, p, settings), NeedsContext)
    ensures var named := Classify(s, c, p, settings).value.missingFields;
            && ("data_lifetime_years" in named <==> Mosca.EvidenceFor(c, p.retention) == [])
            && ("migration_time_years" in named <==> c.migrationTimeYears.None?)
            && ("threat_horizon_years" in named <==>
                settings.planningHorizonYears.None? && !HasCrossing(s, p, settings))
            && ("quantum_resource_model" in named <==>
                s.vulnerability !in {QuantumSafe, QuantumVulnerability.NotApplicable}
                && Resources.AttackModelFor(s, p.quantum).None?)
  {
    var t, cs := JudgedByTracks(s, c, p, settings);
    NamedByCombine(s.artefactId, t, cs);
    NamesOfMissing(t.mosca, t.resource);
    MissingInTracks(s, c, p, settings, t);
  }

  lemma NamedByCombine(id: string, t: Tracks, cs: seq<ScoreContribution>)
    requires HasStatus(Combine(id, t.mosca, t.resource, cs), NeedsContext)
    ensures Combine(id, t.mosca, t.resource, cs).value.missingFields == MissingFields(t.mosca, t.resource)
  {}

  lemma MissingInTracks(s: Subject, c: ArtefactContext, p: RiskProfiles, settings: RiskSettings, t: Tracks)
    requires IsValidProfiles(p) && IsValidContext(c) && TracksFor(s, c, p, settings) == Success(t)
    ensures t.mosca.xYears.None? <==> Mosca.EvidenceFor(c, p.retention) == []
    ensures t.mosca.yYears == c.migrationTimeYears
    ensures t.mosca.zYears.None? <==> settings.planningHorizonYears.None? && !HasCrossing(s, p, settings)
    ensures t.resource.status == ModelUnavailable <==>
            s.vulnerability !in {QuantumSafe, QuantumVulnerability.NotApplicable}
            && Resources.AttackModelFor(s, p.quantum).None?
  {
    Resources.TrackUnderValidProfile(s, p.quantum, settings.scenario);
    Mosca.TrackOutcome(c, p.retention, settings.planningHorizonYears, t.resource);
    Mosca.XIsLongestOfStrongest(Mosca.EvidenceFor(c, p.retention));
  }

  lemma NamesOfMissing(mosca: MoscaTrack, resource: ResourceTrack)
    ensures var named := MissingFields(mosca, resource);
            && ("data_lifetime_years" in named <==> mosca.xYears.None?)
            && ("migration_time_years" in named <==> mosca.yYears.None?)
            && ("threat_horizon_years" in named <==> mosca.zYears.None?)
            && ("quantum_resource_model" in named <==> resource.status == ModelUnavailable)
  {
    var x, y, z, m := "data_lifetime_years", "migration_time_years", "threat_horizon_years", "quantum_resource_model";
    assert x[0] == 'd' && y[0] == 'm' && z[0] == 't' && m[0] == 'q';
  }

  // ----- points -----

  predicate IsShorBreakable(s: Subject) {
    || s.vulnerability == ShorBroken
    || (s.vulnerability == QuantumVulnerability.Unknown
        && s.primitive in {Some(Pke), Some(Signature), Some(Primitive.KeyAgreement), Some(Kem)})
  }

  predicate IsGroverWeakened(s: Subject) {
    || s.vulnerability == GroverWeakened
    || (s.vulnerability == QuantumVulnerability.Unknown
        && s.primitive in {Some(BlockCipher), Some(StreamCipher), Some(Hash), Some(Mac), Some(Aead)})
  }

  /** The scanner's label counts; without one the primitive's attack class does. */
  lemma AlgorithmPoints(s: Subject)
    ensures AlgorithmContribution(s).Success?
    ensures AlgorithmContribution(s).value.points == if IsShorBreakable(s) then 25.0 else if IsGroverWeakened(s) then 12.5 else 0.0
    ensures AlgorithmContribution(s).value.hasEvidence <==> IsShorBreakable(s) || IsGroverWeakened(s)
  {}

  /** Each year of shortfall earns the profile's points, up to 20. */
  lemma TimingPoints(shortfall: real, t: ScoringTables)
    requires IsValidScoring(t)
    ensures MoscaContribution(Some(shortfall), t).Success?
    ensures var points := MoscaContribution(Some(shortfall), t).value.points;
            if shortfall <= 0.0 then points == 0.0
            else if shortfall * t.pointsPerShortfallYear >= 20.0 then points == 20.0
            else points == shortfall * t.pointsPerShortfallYear
  {
    MoscaPointsInRange(shortfall, t.pointsPerShortfallYear);
  }

  /** A crossing within 5, 10 or 15 years, or later, earns its band's points, up to 15; no crossing earns none. */
  lemma FeasibilityPoints(resource: ResourceTrack, t: ScoringTables)
    requires IsValidScoring(t) && resource.status in {Calculated, BeyondHorizon}
    requires resource.status == Calculated ==> resource.mYears.Some?
    ensures ResourceContribution(resource.status, resource.mYears, t).Success?
    ensures var points := ResourceContribution(resource.status, resource.mYears, t).value.points;
            if resource.status == BeyondHorizon then points == 0.0
            else
              var years := resource.mYears.value;
              var band := if years <= 5.0 then t.feasibility[Within5Years]
                          else if years <= 10.0 then t.feasibility[Within10Years]
                          else if years <= 15.0 then t.feasibility[Within15Years]
                          else t.feasibility[LaterWithinHorizon];
              points == if band <= 15.0 then band else 15.0
  {}

  /** The stated classification decides, or the category's sensitivity where nothing is stated. */
  lemma DataPoints(c: ArtefactContext, p: RiskProfiles)
    requires IsValidProfiles(p)
    ensures DataContribution(c, p).Success?
    ensures var d := DataContribution(c, p).value;
            if c.dataClassification != DataClassification.Unknown then
              d.hasEvidence && d.points == p.scoring.classification[c.dataClassification]
            else if c.dataCategory.Some? && c.dataCategory.value != "" && c.dataCategory.value in p.retention then
              d.hasEvidence && d.points == p.scoring.classification[p.retention[c.dataCategory.value].sensitivity]
            else !d.hasEvidence && d.points == 0.0
  {}

  lemma ContextPoints(c: ArtefactContext, t: ScoringTables)
    requires IsValidScoring(t)
    ensures CriticalityContribution(c, t).Success? && ExposureContribution(c, t).Success?
    ensures CriticalityContribution(c, t).value.points ==
            if c.businessCriticality == BusinessCriticality.Unknown then 0.0 else t.criticality[c.businessCriticality]
    ensures ExposureContribution(c, t).value.points ==
            if c.exposure == ExposureLevel.Unknown then 0.0 else t.exposure[c.exposure]
  {}

  /** A module's firmware decides first, then who manages the key, then whether it is an algorithm in source. */
  lemma MigrationPoints(s: Subject, t: ScoringTables)
    requires IsValidScoring(t)
    ensures MigrationContribution(s, t).Success?
    ensures var points := MigrationContribution(s, t).value.points;
            if s.kind == HardwareModule && s.supportsPqc.Some? then
              points == t.migration[if s.supportsPqc.value then PqcCapableHsm else NonPqcHsm]
            else if s.isProviderManaged then points == t.migration[ProviderManagedKey]
            else if s.kind == Algorithm then points == t.migration[SourceAlgorithm]
            else points == 0.0
  {}

  /** The seven factors and their maxima, in order. */
  lemma MaximaAreCanonical(s: Subject, c: ArtefactContext, p: RiskProfiles, mosca: MoscaTrack, resource: ResourceTrack)
    requires IsValidProfiles(p)
    ensures Contributions(s, c, p, mosca, resource).Success?
    ensures var cs := Contributions(s, c, p, mosca, resource).value;
            && |cs| == 7
            && cs[0].maxPoints == 25 && cs[1].maxPoints == 20 && cs[2].maxPoints == 15 && cs[3].maxPoints == 12
            && cs[4].maxPoints == 10 && cs[5].maxPoints == 10 && cs[6].maxPoints == 8
  {
    ContributionsExist(s, c, p, mosca, resource);
  }

  // ----- score, band and confidence -----

  /** One level weaker, but never below low. */
  function OneWeaker(c: Confidence): Confidence {
    match c
    case High => Confidence.Medium
    case Medium => Confidence.Low
    case Low => Confidence.Low
  }

  function WeakerOf(a: Confidence, b: Confidence): Confidence {
    if a == Confidence.Low || b == Confidence.Low then Confidence.Low
    else if a == Confidence.Medium || b == Confidence.Medium then Confidence.Medium
    else Confidence.High
  }

  lemma FinalConfidenceOfTwo(mosca: MoscaTrack, resource: ResourceTrack, cs: seq<ScoreContribution>)
    requires mosca.confidence.Some? && resource.confidence.Some?
    ensures var combined := WeakerOf(mosca.confidence.value, resource.confidence.value);
            FinalConfidence(mosca, resource, cs) ==
            Some(if exists c :: c in cs && !c.hasEvidence then OneWeaker(combined) else combined)
  {
    var tracks := [mosca.confidence.value] + [resource.confidence.value];
    assert tracks == [mosca.confidence.value, resource.confidence.value];
    assert Weakest(tracks) == WeakerOf(mosca.confidence.value, resource.confidence.value);
  }

  /**
   A scored assessment: the bands begin at 75 and 50, and the confidence is the weaker track's, one level lower where a
   factor went unmeasured.
   */
  lemma ScoredBandAndConfidence(s: Subject, c: ArtefactContext, p: RiskProfiles, settings: RiskSettings)
    requires IsValidProfiles(p) && IsValidContext(c)
    requires HasStatus(Classify(s, c, p, settings), Scored)
    ensures var a := Classify(s, c, p, settings).value;
            && a.finalScore.Some?
            && a.priority == (if a.finalScore.value >= 75.0 then P0 else if a.finalScore.value >= 50.0 then P1 else P2)
            && a.mosca.confidence.Some? && a.resource.confidence.Some?
            && var combined := WeakerOf(a.mosca.confidence.value, a.resource.confidence.value);
               a.finalConfidence ==
               Some(if exists f :: f in a.contributions && !f.hasEvidence then OneWeaker(combined) else combined)
  {
    var t, cs := JudgedByTracks(s, c, p, settings);
    ScoredByCombine(s.artefactId, t, cs);
    ResolvedTracksAreConfident(s, c, p, settings, t);
    FinalConfidenceOfTwo(t.mosca, t.resource, cs);
  }

  lemma ResolvedTracksAreConfident(s: Subject, c: ArtefactContext, p: RiskProfiles, settings: RiskSettings, t: Tracks)
    requires IsValidProfiles(p) && IsValidContext(c) && TracksFor(s, c, p, settings) == Success(t)
    ensures t.mosca.IsResolved() ==> t.mosca.confidence.Some?
    ensures t.resource.IsResolved() ==> t.resource.confidence.Some?
  {
    TracksOutcome(s, c, p, settings);
    Resources.TrackUnderValidProfile(s, p.quantum, settings.scenario);
  }

  lemma ScoredByCombine(id: string, t: Tracks, cs: seq<ScoreContribution>)
    requires HasStatus(Combine(id, t.mosca, t.resource, cs), Scored)
    ensures var a := Combine(id, t.mosca, t.resource, cs).value;
            && a.mosca == t.mosca && a.resource == t.resource && a.contributions == cs
            && t.mosca.IsResolved() && t.resource.IsResolved()
            && a.finalScore == Some(TotalPoints(cs))
            && a.priority == (if a.finalScore.value >= 75.0 then P0 else if a.finalScore.value >= 50.0 then P1 else P2)
            && a.finalConfidence == FinalConfidence(t.mosca, t.resource, cs)
  {}
}
