/** Where X, Y and Z come from, source by source and tier by tier. */
module MoscaEvidence {
  import opened Wrappers
  import opened Enums
  import opened Contexts
  import opened RiskModel
  import opened MoscaEngine

  ghost predicate HasSource(evidence: seq<RetentionEvidence>, source: EvidenceSource) {
    exists e :: e in evidence && e.source == source
  }

  /** `years` is the longest lifetime that `source` states. */
  ghost predicate IsLongestFrom(evidence: seq<RetentionEvidence>, source: EvidenceSource, years: nat) {
    && (exists e :: e in evidence && e.source == source && e.lifetimeYears == years)
    && (forall e :: e in evidence && e.source == source ==> e.lifetimeYears <= years)
  }

  ghost predicate IsLongestWith(
    x: Option<Lifetime>, evidence: seq<RetentionEvidence>, source: EvidenceSource, confidence: Confidence)
  {
    x.Some? && IsLongestFrom(evidence, source, x.value.years) && x.value.confidence == confidence
  }

  /** A user's lifetimes govern; then the scanner's, the organisation's, and last the legal profile's. */
  lemma UserThenScannerThenOrganisation(evidence: seq<RetentionEvidence>)
    ensures var x := ResolveX(evidence);
            if HasSource(evidence, EvidenceSource.User) then IsLongestWith(x, evidence, EvidenceSource.User, Confidence.High)
            else if HasSource(evidence, Scanner) then IsLongestWith(x, evidence, Scanner, Confidence.Medium)
            else if HasSource(evidence, OrgPolicy) then IsLongestWith(x, evidence, OrgPolicy, Confidence.High)
            else if HasSource(evidence, LegalProfile) then IsLongestWith(x, evidence, LegalProfile, Confidence.Low)
            else x == None
  {
    XIsLongestOfStrongest(evidence);
    if evidence != [] {
      var e :| Governs(evidence, e) && ResolveX(evidence) == Some(Lifetime(e.lifetimeYears, SourceConfidence(e.source)));
      assert HasSource(evidence, e.source);
      forall o | o in evidence && SourceRank(o.source) <= SourceRank(e.source)
        ensures o.source == e.source && o.lifetimeYears <= e.lifetimeYears {}
      assert IsLongestFrom(evidence, e.source, e.lifetimeYears);
    }
  }

  /** A lifetime typed in by a user or preset by the organisation; a bare number of any other tier is no evidence. */
  ghost predicate IsDirect(c: ArtefactContext, e: RetentionEvidence) {
    && c.dataLifetimeYears == Some(e.lifetimeYears)
    && e.dataCategory == (if c.dataCategory.Some? && c.dataCategory.value != "" then c.dataCategory.value
                          else "explicit_lifetime")
    && ((c.TierOf("data_lifetime_years") == ProvenanceTier.User && e.source == EvidenceSource.User)
        || (c.TierOf("data_lifetime_years") == OrgPreset && e.source == OrgPolicy))
  }

  /** The profile's lifetime of a known category, as strong as the tier that supplied the category. */
  ghost predicate IsOfCategory(c: ArtefactContext, p: RetentionProfile, e: RetentionEvidence) {
    && c.dataCategory == Some(e.dataCategory) && e.dataCategory in p
    && e.lifetimeYears == p[e.dataCategory].lifetimeYears
    && match c.TierOf("data_category") {
         case User => e.source == EvidenceSource.User
         case ScannerEvidence => e.source == Scanner
         case OrgPreset => e.source == OrgPolicy
         case Unknown => e.source == LegalProfile
       }
  }

  /** The evidence considered is what the context lists, its direct lifetime, and its category's; nothing else. */
  lemma EvidenceComesFrom(c: ArtefactContext, p: RetentionProfile, e: RetentionEvidence)
    ensures e in EvidenceFor(c, p) <==> e in c.retentionEvidence || IsDirect(c, e) || IsOfCategory(c, p, e)
  {
    var direct, category := DirectLifetimeEvidence(c), CategoryEvidence(c, p);
    assert e in direct <==> direct != [] && e == direct[0];
    assert e in category <==> category != [] && e == category[0];
  }

  /** The organisation's horizon wins, with high confidence; else a calculated crossing with its own; else there is none. */
  lemma HorizonRule(c: ArtefactContext, p: RetentionProfile, planningHorizon: Option<real>, resource: ResourceTrack)
    requires TrackOf(c, p, planningHorizon, resource).Success?
    ensures var t := TrackOf(c, p, planningHorizon, resource).value;
            if planningHorizon.Some? then t.zYears == planningHorizon && t.zBasis == OrgHorizon
            else if resource.status == Calculated && resource.mYears.Some? then
              t.zYears == resource.mYears && t.zBasis == ResourceModel
            else t.zYears == None && t.zBasis == Unavailable
  {}

  function Level(c: Confidence): nat {
    match c
    case High => 2
    case Medium => 1
    case Low => 0
  }

  /** A verdict is as sure as its least sure input: X by its source, Y by its tier, Z by its basis. */
  lemma VerdictIsAsSureAsItsInputs(c: ArtefactContext, p: RetentionProfile, planningHorizon: Option<real>, resource: ResourceTrack)
    requires TrackOf(c, p, planningHorizon, resource).Success?
    requires TrackOf(c, p, planningHorizon, resource).value.IsResolved()
    ensures var t := TrackOf(c, p, planningHorizon, resource).value;
            var x := ResolveX(EvidenceFor(c, p));
            && x.Some? && t.confidence.Some?
            && var y := if c.TierOf("migration_time_years") in {ProvenanceTier.User, OrgPreset} then 2 else 0;
               var z := if planningHorizon.Some? then 2
                        else if resource.confidence.Some? then Level(resource.confidence.value) else 2;
               var least := if Level(x.value.confidence) <= y then Level(x.value.confidence) else y;
               Level(t.confidence.value) == if least <= z then least else z
  {
    var x := ResolveX(EvidenceFor(c, p));
    var y := ConfidenceOfField(c, "migration_time_years");
    var z := HorizonFrom(planningHorizon, resource).confidence;
    var confidences := [x.value.confidence, y] + if z.Some? then [z.value] else [];
    assert TrackOf(c, p, planningHorizon, resource).value.confidence == Some(Weakest(confidences));
    if z.Some? {
      assert confidences == [x.value.confidence, y, z.value];
      LevelOfThree(x.value.confidence, y, z.value);
    } else {
      assert confidences == [x.value.confidence, y];
      LevelOfTwo(x.value.confidence, y);
    }
  }

  lemma LevelOfTwo(a: Confidence, b: Confidence)
    ensures Level(Weakest([a, b])) == if Level(a) <= Level(b) then Level(a) else Level(b)
  {
    assert [a, b][1..] == [b];
    assert Weakest([b]) == b;
  }

  lemma LevelOfThree(a: Confidence, b: Confidence, c: Confidence)
    ensures var least := if Level(a) <= Level(b) then Level(a) else Level(b);
            Level(Weakest([a, b, c])) == if least <= Level(c) then least else Level(c)
  {
    assert [a, b, c][1..] == [b, c];
    LevelOfTwo(b, c);
  }
}
