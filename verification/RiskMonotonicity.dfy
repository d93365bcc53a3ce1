/** End to end: inputs that make matters worse never improve the verdict. */
module RiskMonotonicity {
  import opened Wrappers
  import opened Enums
  import opened Contexts
  import opened RiskModel
  import opened RiskEngine
  import Mosca = MoscaEngine
  import Resources = ResourceEngine

  /** `worse` differs from `c` only in longer data lifetimes and a longer migration time. */
  ghost predicate IsWorseContext(c: ArtefactContext, worse: ArtefactContext) {
    && worse == c.(retentionEvidence := worse.retentionEvidence,
                   dataLifetimeYears := worse.dataLifetimeYears,
                   migrationTimeYears := worse.migrationTimeYears)
    && Mosca.IsLengthened(c.retentionEvidence, worse.retentionEvidence)
    && (c.dataLifetimeYears.Some? <==> worse.dataLifetimeYears.Some?)
    && (c.dataLifetimeYears.Some? ==> c.dataLifetimeYears.value <= worse.dataLifetimeYears.value)
    && (c.migrationTimeYears.Some? <==> worse.migrationTimeYears.Some?)
    && (c.migrationTimeYears.Some? ==> c.migrationTimeYears.value <= worse.migrationTimeYears.value)
  }

  /** A scenario with at least the multiplier, and no later an organisation horizon where one is set. */
  ghost predicate IsWorseSetting(s: RiskSettings, worse: RiskSettings) {
    && Resources.Scale(s.scenario) <= Resources.Scale(worse.scenario)
    && (s.planningHorizonYears.Some? <==> worse.planningHorizonYears.Some?)
    && (s.planningHorizonYears.Some? ==> worse.planningHorizonYears.value <= s.planningHorizonYears.value)
  }

  function Urgency(p: Priority): nat {
    match p
    case P0 => 3
    case P1 => 2
    case P2 => 1
    case NoPriority => 0
  }

  lemma MoscaPointsGrow(shortfall: real, longer: real, perYear: real)
    requires shortfall <= longer && perYear >= 0.0
    ensures MoscaPoints(shortfall, perYear) <= MoscaPoints(longer, perYear)
  {
    var a, b := Max(0.0, shortfall), Max(0.0, longer);
    assert b * perYear == a * perYear + (b - a) * perYear;
    assert (b - a) * perYear >= 0.0;
  }

  lemma FeasibilityPointsGrow(years: real, sooner: real, t: ScoringTables)
    requires IsValidScoring(t) && sooner <= years
    ensures t.feasibility[FeasibilityOf(years)] <= t.feasibility[FeasibilityOf(sooner)]
  {}

  lemma EvidenceLengthens(c: ArtefactContext, worse: ArtefactContext, p: RetentionProfile)
    requires IsWorseContext(c, worse)
    ensures Mosca.IsLengthened(Mosca.EvidenceFor(c, p), Mosca.EvidenceFor(worse, p))
  {
    assert Mosca.CategoryEvidence(c, p) == Mosca.CategoryEvidence(worse, p);
    var d, d' := Mosca.DirectLifetimeEvidence(c), Mosca.DirectLifetimeEvidence(worse);
    assert Mosca.IsLengthened(d, d');
    ConcatLengthens(c.retentionEvidence, worse.retentionEvidence, d, d');
    ConcatLengthens(c.retentionEvidence + d, worse.retentionEvidence + d', Mosca.CategoryEvidence(c, p),
                    Mosca.CategoryEvidence(worse, p));
  }

  lemma ConcatLengthens(
    a: seq<RetentionEvidence>, a': seq<RetentionEvidence>, b: seq<RetentionEvidence>, b': seq<RetentionEvidence>)
    requires Mosca.IsLengthened(a, a') && Mosca.IsLengthened(b, b')
    ensures Mosca.IsLengthened(a + b, a' + b')
  {}

  /** A scored run has both tracks resolved. */
  lemma ScoredTracks(s: Subject, c: ArtefactContext, p: RiskProfiles, settings: RiskSettings)
    requires IsValidProfiles(p) && IsValidContext(c)
    requires Classify(s, c, p, settings).Success? && Classify(s, c, p, settings).value.status == Scored
    ensures PolicyVerdict(s, p).None? && HasModel(s, p) && HasMoscaInputs(s, c, p, settings)
    ensures TracksFor(s, c, p, settings).Success?
    ensures var t := TracksFor(s, c, p, settings).value;
            t.mosca.IsResolved() && t.mosca.shortfallYears.Some? && t.resource.status in {Calculated, BeyondHorizon}
  {
    RaisesExactlyInTheGap(s, c, p, settings);
    ScoredExactlyWhenResolved(s, c, p, settings);
    TracksOutcome(s, c, p, settings);
  }

  /** The tracks of a scored run, and the score their contributions add up to. */
  lemma ScoredRun(s: Subject, c: ArtefactContext, p: RiskProfiles, settings: RiskSettings, a: RiskAssessment)
    returns (tracks: Tracks, cs: seq<ScoreContribution>)
    requires IsValidProfiles(p) && IsValidContext(c)
    requires Classify(s, c, p, settings) == Success(a) && a.status == Scored
    ensures TracksFor(s, c, p, settings) == Success(tracks)
    ensures tracks.mosca.shortfallYears.Some? && tracks.resource.status in {Calculated, BeyondHorizon}
    ensures Contributions(s, c, p, tracks.mosca, tracks.resource) == Success(cs)
    ensures a.finalScore == Some(TotalPoints(cs)) && a.priority == BandForScore(TotalPoints(cs))
  {
    ScoredTracks(s, c, p, settings);
    tracks := TracksFor(s, c, p, settings).value;
    ContributionsExist(s, c, p, tracks.mosca, tracks.resource);
    cs := Contributions(s, c, p, tracks.mosca, tracks.resource).value;
    assert Classify(s, c, p, settings) == Combine(s.artefactId, tracks.mosca, tracks.resource, cs);
    ScoredByCombine(s.artefactId, tracks, cs, a);
  }

  lemma ScoredByCombine(id: string, tracks: Tracks, cs: seq<ScoreContribution>, a: RiskAssessment)
    requires Combine(id, tracks.mosca, tracks.resource, cs) == Success(a) && a.status == Scored
    ensures a.finalScore == Some(TotalPoints(cs)) && a.priority == BandForScore(TotalPoints(cs))
  {}

  /** Longer lifetimes and migrations and a nearer horizon, its own or the resource model's, lengthen the shortfall. */
  lemma ShortfallGrows(
    c: ArtefactContext, worse: ArtefactContext, p: RiskProfiles, horizon: Option<real>, nearer: Option<real>,
    resource: ResourceTrack, resource': ResourceTrack)
    requires IsValidContext(c) && IsValidContext(worse) && IsWorseContext(c, worse)
    requires resource.IsValid() && resource'.IsValid()
    requires resource.status == Calculated ==>
               resource'.status == Calculated && resource.mYears.Some? && resource'.mYears.Some?
               && resource'.mYears.value <= resource.mYears.value
    requires (horizon.Some? <==> nearer.Some?) && (horizon.Some? ==> nearer.value <= horizon.value)
    requires Mosca.TrackOf(c, p.retention, horizon, resource).Success?
    requires Mosca.TrackOf(worse, p.retention, nearer, resource').Success?
    requires Mosca.TrackOf(c, p.retention, horizon, resource).value.shortfallYears.Some?
    requires Mosca.TrackOf(worse, p.retention, nearer, resource').value.shortfallYears.Some?
    ensures Mosca.TrackOf(c, p.retention, horizon, resource).value.shortfallYears.value
         <= Mosca.TrackOf(worse, p.retention, nearer, resource').value.shortfallYears.value
  {
    Mosca.TrackOutcome(c, p.retention, horizon, resource);
    Mosca.TrackOutcome(worse, p.retention, nearer, resource');
    EvidenceLengthens(c, worse, p.retention);
    Mosca.LongerEvidenceLengthensX(Mosca.EvidenceFor(c, p.retention), Mosca.EvidenceFor(worse, p.retention));
  }

  /** With a longer shortfall and no later a crossing, no contribution falls. */
  lemma ContributionsGrow(
    s: Subject, c: ArtefactContext, worse: ArtefactContext, p: RiskProfiles,
    mosca: MoscaTrack, mosca': MoscaTrack, resource: ResourceTrack, resource': ResourceTrack)
    requires IsValidProfiles(p) && IsWorseContext(c, worse)
    requires mosca.shortfallYears.Some? && mosca'.shortfallYears.Some?
    requires mosca.shortfallYears.value <= mosca'.shortfallYears.value
    requires resource.status in {Calculated, BeyondHorizon} && resource'.status in {Calculated, BeyondHorizon}
    requires resource.status == Calculated ==>
               resource'.status == Calculated && resource.mYears.Some? && resource'.mYears.Some?
               && resource'.mYears.value <= resource.mYears.value
    ensures Contributions(s, c, p, mosca, resource).Success? && Contributions(s, worse, p, mosca', resource').Success?
    ensures TotalPoints(Contributions(s, c, p, mosca, resource).value)
         <= TotalPoints(Contributions(s, worse, p, mosca', resource').value)
  {
    ContributionsExist(s, c, p, mosca, resource);
    ContributionsExist(s, worse, p, mosca', resource');
    TimingGrows(mosca.shortfallYears.value, mosca'.shortfallYears.value, p.scoring);
    FeasibilityGrows(resource, resource', p.scoring);
    SumOfSeven(Contributions(s, c, p, mosca, resource).value);
    SumOfSeven(Contributions(s, worse, p, mosca', resource').value);
  }

  lemma TimingGrows(shortfall: real, longer: real, t: ScoringTables)
    requires IsValidScoring(t) && shortfall <= longer
    ensures MoscaContribution(Some(shortfall), t).Success? && MoscaContribution(Some(longer), t).Success?
    ensures MoscaContribution(Some(shortfall), t).value.points <= MoscaContribution(Some(longer), t).value.points
  {
    MoscaPointsInRange(shortfall, t.pointsPerShortfallYear);
    MoscaPointsInRange(longer, t.pointsPerShortfallYear);
    MoscaPointsGrow(shortfall, longer, t.pointsPerShortfallYear);
  }

  lemma FeasibilityGrows(resource: ResourceTrack, resource': ResourceTrack, t: ScoringTables)
    requires IsValidScoring(t)
    requires resource.status in {Calculated, BeyondHorizon} && resource'.status in {Calculated, BeyondHorizon}
    requires resource.status == Calculated ==>
               resource'.status == Calculated && resource.mYears.Some? && resource'.mYears.Some?
               && resource'.mYears.value <= resource.mYears.value
    ensures ResourceContribution(resource.status, resource.mYears, t).Success?
    ensures ResourceContribution(resource'.status, resource'.mYears, t).Success?
    ensures ResourceContribution(resource.status, resource.mYears, t).value.points
         <= ResourceContribution(resource'.status, resource'.mYears, t).value.points
  {
    if resource.status == Calculated {
      FeasibilityPointsGrow(resource.mYears.value, resource'.mYears.value, t);
    }
  }

  lemma ScoresGrow(
    s: Subject, c: ArtefactContext, worse: ArtefactContext, p: RiskProfiles, settings: RiskSettings, harsher: RiskSettings,
    t: Tracks, t': Tracks)
    requires IsValidProfiles(p) && IsValidContext(c) && IsValidContext(worse)
    requires IsWorseContext(c, worse) && IsWorseSetting(settings, harsher)
    requires TracksFor(s, c, p, settings) == Success(t) && TracksFor(s, worse, p, harsher) == Success(t')
    requires t.resource.status in {Calculated, BeyondHorizon} && t'.resource.status in {Calculated, BeyondHorizon}
    requires t.mosca.shortfallYears.Some? && t'.mosca.shortfallYears.Some?
    ensures Contributions(s, c, p, t.mosca, t.resource).Success?
    ensures Contributions(s, worse, p, t'.mosca, t'.resource).Success?
    ensures TotalPoints(Contributions(s, c, p, t.mosca, t.resource).value)
         <= TotalPoints(Contributions(s, worse, p, t'.mosca, t'.resource).value)
  {
    Resources.ScenarioOnlyScalesCapability(s, p.quantum, settings.scenario, harsher.scenario);
    Resources.TrackUnderValidProfile(s, p.quantum, settings.scenario);
    Resources.TrackUnderValidProfile(s, p.quantum, harsher.scenario);
    ShortfallGrows(c, worse, p, settings.planningHorizonYears, harsher.planningHorizonYears, t.resource, t'.resource);
    ContributionsGrow(s, c, worse, p, t.mosca, t'.mosca, t.resource, t'.resource);
  }

  lemma WorseKeepsInputs(
    s: Subject, c: ArtefactContext, worse: ArtefactContext, p: RiskProfiles, settings: RiskSettings, harsher: RiskSettings)
    requires IsValidProfiles(p) && IsWorseContext(c, worse) && IsWorseSetting(settings, harsher)
    requires HasModel(s, p) && HasMoscaInputs(s, c, p, settings)
    ensures HasMoscaInputs(s, worse, p, harsher)
  {
    EvidenceLengthens(c, worse, p.retention);
    Mosca.LongerEvidenceLengthensX(Mosca.EvidenceFor(c, p.retention), Mosca.EvidenceFor(worse, p.retention));
    if HasCrossing(s, p, settings) {
      var m := Resources.AttackModelFor(s, p.quantum).value;
      Resources.ModelComesFromProfile(p.quantum.models, Resources.CandidateKeys(s.algorithmKey.value), s.keySizeBits.value);
      Resources.CrossingMovesEarlier(p.quantum.curve, m, Resources.Scale(settings.scenario), Resources.Scale(harsher.scenario));
    }
  }

  /** A scored run stays scored when its inputs get worse, exactly as long as the organisation's horizon is not negative. */
  lemma ScoredStaysScored(
    s: Subject, c: ArtefactContext, worse: ArtefactContext, p: RiskProfiles, settings: RiskSettings, harsher: RiskSettings)
    requires IsValidProfiles(p) && IsValidContext(c) && IsValidContext(worse)
    requires IsWorseContext(c, worse) && IsWorseSetting(settings, harsher)
    requires Classify(s, c, p, settings).Success? && Classify(s, c, p, settings).value.status == Scored
    ensures Classify(s, worse, p, harsher).Success? && Classify(s, worse, p, harsher).value.status == Scored
            <==> (harsher.planningHorizonYears.Some? ==> harsher.planningHorizonYears.value >= 0.0)
  {
    ScoredTracks(s, c, p, settings);
    WorseKeepsInputs(s, c, worse, p, settings, harsher);
    RaisesExactlyInTheGap(s, worse, p, harsher);
    if !Raises(s, worse, p, harsher) {
      ScoredExactlyWhenResolved(s, worse, p, harsher);
    }
  }

  /**
   Between two scored runs of one subject under a valid profile, raising the scenario multiplier, any data lifetime or
   the migration time, or lowering the organisation's horizon, never lowers the score or makes the band less urgent,
   whether Z is the organisation's or comes from the resource model.
   */
  lemma WorseInputsNeverImprove(
    s: Subject, c: ArtefactContext, worse: ArtefactContext, p: RiskProfiles, settings: RiskSettings, harsher: RiskSettings,
    a: RiskAssessment, a': RiskAssessment)
    requires IsValidProfiles(p) && IsValidContext(c) && IsValidContext(worse)
    requires IsWorseContext(c, worse) && IsWorseSetting(settings, harsher)
    requires Classify(s, c, p, settings) == Success(a) && a.status == Scored
    requires Classify(s, worse, p, harsher) == Success(a') && a'.status == Scored
    ensures a.finalScore.Some? && a'.finalScore.Some?
    ensures a.finalScore.value <= a'.finalScore.value
    ensures Urgency(a.priority) <= Urgency(a'.priority)
  {
    var t, cs := ScoredRun(s, c, p, settings, a);
    var t', cs' := ScoredRun(s, worse, p, harsher, a');
    ScoresGrow(s, c, worse, p, settings, harsher, t, t');
  }
}
