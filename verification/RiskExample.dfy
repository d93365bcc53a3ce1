/** A small valid profile and an artefact that is scored under it: the theorems about scored runs are not about nothing. */
module RiskExample {
  import opened Wrappers
  import opened Enums
  import opened Contexts
  import opened RiskModel
  import opened RiskEngine
  import Mosca = MoscaEngine
  import Resources = ResourceEngine

  const FEASIBILITY: map<FeasibilityBand, real> :=
    map[Within5Years := 15.0, Within10Years := 10.0, Within15Years := 5.0, LaterWithinHorizon := 2.0]

  const CLASSIFICATION: map<DataClassification, real> :=
    map[DataClassification.Restricted := 12.0, DataClassification.Confidential := 9.0,
        DataClassification.Internal := 4.0, DataClassification.Public := 0.0]

  const CRITICALITY: map<BusinessCriticality, real> :=
    map[BusinessCriticality.Critical := 10.0, BusinessCriticality.High := 8.0,
        BusinessCriticality.Medium := 4.0, BusinessCriticality.Low := 1.0]

  const EXPOSURE: map<ExposureLevel, real> :=
    map[ExposureLevel.Internet := 10.0, ExposureLevel.Partner := 7.0,
        ExposureLevel.Internal := 3.0, ExposureLevel.Isolated := 0.0]

  const MIGRATION: map<MigrationKey, real> :=
    map[SourceAlgorithm := 2.0, ProviderManagedKey := 4.0, NonPqcHsm := 8.0, PqcCapableHsm := 3.0]

  function SmallTables(): ScoringTables {
    ScoringTables(2.0, FEASIBILITY, CLASSIFICATION, CRITICALITY, EXPOSURE, MIGRATION)
  }

  lemma ContextTablesCover()
    ensures Covers(CLASSIFICATION, {DataClassification.Restricted, DataClassification.Confidential,
                                    DataClassification.Internal, DataClassification.Public}, DataSensitivity)
    ensures Covers(CRITICALITY, {BusinessCriticality.Critical, BusinessCriticality.High,
                                 BusinessCriticality.Medium, BusinessCriticality.Low}, BusinessCriticalityFactor)
  {}

  lemma SystemTablesCover()
    ensures Covers(EXPOSURE, {ExposureLevel.Internet, ExposureLevel.Partner,
                              ExposureLevel.Internal, ExposureLevel.Isolated}, ExposureFactor)
    ensures Covers(MIGRATION, {SourceAlgorithm, ProviderManagedKey, NonPqcHsm, PqcCapableHsm}, MigrationComplexity)
  {}

  lemma SmallTablesAreValid()
    ensures IsValidScoring(SmallTables())
  {
    ContextTablesCover();
    SystemTablesCover();
  }

  const SMALL_MODEL := AttackModel("rsa", 2048, 1000, 1000000, "textbook", "source", map[])

  function SmallProfiles(): RiskProfiles {
    RiskProfiles(
      map[], QuantumProfile(2026, [CapabilityPoint(2035, Some(1000), Some(1000000), Roadmap)], [SMALL_MODEL]),
      SmallTables(), {}, {})
  }

  lemma SmallProfilesAreValid()
    ensures IsValidProfiles(SmallProfiles())
  {
    SmallTablesAreValid();
  }

  function RsaSubject(): Subject {
    Subject("rsa-2048", Algorithm, ShorBroken, Some(Pke), Some("rsa"), Some("rsa"), Some(2048), None, false)
  }

  function RsaContext(years: nat): ArtefactContext {
    ArtefactContext("rsa-2048", BusinessCriticality.High, DataClassification.Confidential, ExposureLevel.Internet,
                    None, Some(years), Some(2.0), [],
                    map["data_lifetime_years" := Provenance(ProvenanceTier.User, None)])
  }

  lemma RsaHasModel()
    ensures HasModel(RsaSubject(), SmallProfiles())
  {
    var s, q := RsaSubject(), SmallProfiles().quantum;
    assert Resources.FirstModel(q.models, "rsa", 2048) == Some(SMALL_MODEL);
    assert Resources.CandidateKeys("rsa")[0] == "rsa";
    assert Resources.AttackModelFor(s, q) == Some(SMALL_MODEL);
  }

  /** X and Y are stated; Z is the organisation's horizon where there is one, and the curve's crossing otherwise. */
  lemma RsaHasInputs(years: nat, horizon: Option<real>)
    ensures HasMoscaInputs(RsaSubject(), RsaContext(years), SmallProfiles(), RiskSettings(horizon, Baseline))
  {
    var c, p := RsaContext(years), SmallProfiles();
    assert |Mosca.DirectLifetimeEvidence(c)| == 1;
    Mosca.XIsLongestOfStrongest(Mosca.EvidenceFor(c, p.retention));
    RsaHasModel();
    assert Resources.Meets(p.quantum.curve[0], SMALL_MODEL, Resources.Scale(Baseline));
  }

  lemma RsaDoesNotRaise(years: nat, settings: RiskSettings)
    requires settings.planningHorizonYears.Some? ==> settings.planningHorizonYears.value >= 0.0
    ensures !Raises(RsaSubject(), RsaContext(years), SmallProfiles(), settings)
  {}

  /** RSA-2048 is scored whatever the stated lifetime, with any horizon of the organisation and with the resource model's. */
  lemma ScoredRunsExist(years: nat, horizon: Option<real>)
    requires horizon.Some? ==> horizon.value >= 0.0
    ensures IsValidProfiles(SmallProfiles()) && IsValidContext(RsaContext(years))
    ensures var r := Classify(RsaSubject(), RsaContext(years), SmallProfiles(), RiskSettings(horizon, Baseline));
            r.Success? && r.value.status == Scored
  {
    var settings := RiskSettings(horizon, Baseline);
    SmallProfilesAreValid();
    RsaHasInputs(years, horizon);
    RsaHasModel();
    RsaDoesNotRaise(years, settings);
    ScoredExactlyWhenResolved(RsaSubject(), RsaContext(years), SmallProfiles(), settings);
  }
}
