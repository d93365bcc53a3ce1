/** Track A: Mosca's X + Y > Z without invented inputs (backend/app/engines/mosca_engine.py). */
module MoscaEngine {
  import opened Wrappers
  import opened Enums
  import opened Contexts
  import opened RiskModel

  /** Lower rank is stronger. */
  function SourceRank(s: EvidenceSource): nat {
    match s
    case User => 0
    case Scanner => 1
    case OrgPolicy => 2
    case LegalProfile => 3
  }

  function SourceConfidence(s: EvidenceSource): Confidence {
    match s
    case User => Confidence.High
    case Scanner => Confidence.Medium
    case OrgPolicy => Confidence.High
    case LegalProfile => Confidence.Low
  }

  function SourceForTier(t: ProvenanceTier): EvidenceSource {
    match t
    case User => EvidenceSource.User
    case ScannerEvidence => EvidenceSource.Scanner
    case OrgPreset => EvidenceSource.OrgPolicy
    case Unknown => EvidenceSource.LegalProfile
  }

  // ----- evidence for X -----

  /** A bare number without a user or organisation behind it is not evidence. */
  function DirectLifetimeEvidence(c: ArtefactContext): seq<RetentionEvidence> {
    var tier := c.TierOf("data_lifetime_years");
    if c.dataLifetimeYears.None? || (tier != ProvenanceTier.User && tier != ProvenanceTier.OrgPreset) then []
    else [RetentionEvidence(SourceForTier(tier),
                            if c.dataCategory.GetOr("") == "" then "explicit_lifetime" else c.dataCategory.value,
                            c.dataLifetimeYears.value)]
  }

  function CategoryEvidence(c: ArtefactContext, p: RetentionProfile): seq<RetentionEvidence> {
    if c.dataCategory.None? || c.dataCategory.value !in p then []
    else [RetentionEvidence(SourceForTier(c.TierOf("data_category")), c.dataCategory.value,
                            p[c.dataCategory.value].lifetimeYears)]
  }

  function EvidenceFor(c: ArtefactContext, p: RetentionProfile): seq<RetentionEvidence> {
    c.retentionEvidence + DirectLifetimeEvidence(c) + CategoryEvidence(c, p)
  }

  function StrongestRank(evidence: seq<RetentionEvidence>): nat
    requires evidence != []
  {
    var first := SourceRank(evidence[0].source);
    if |evidence| == 1 then first
    else
      var rest := StrongestRank(evidence[1..]);
      if first <= rest then first else rest
  }

  function WithRank(evidence: seq<RetentionEvidence>, rank: nat): seq<RetentionEvidence> {
    if evidence == [] then []
    else (if SourceRank(evidence[0].source) == rank then [evidence[0]] else []) + WithRank(evidence[1..], rank)
  }

  /** `max(evidence, key=lifetime)`: the first of the longest. */
  function Longest(evidence: seq<RetentionEvidence>): RetentionEvidence
    requires evidence != []
  {
    if |evidence| == 1 then evidence[0]
    else
      var rest := Longest(evidence[1..]);
      if evidence[0].lifetimeYears >= rest.lifetimeYears then evidence[0] else rest
  }

  lemma {:induction false} StrongestRankIsLeast(evidence: seq<RetentionEvidence>)
    requires evidence != []
    ensures forall e :: e in evidence ==> StrongestRank(evidence) <= SourceRank(e.source)
    ensures exists e :: e in evidence && SourceRank(e.source) == StrongestRank(evidence)
  {
    assert evidence == [evidence[0]] + evidence[1..];
    assert evidence[0] in evidence;
    if |evidence| > 1 {
      StrongestRankIsLeast(evidence[1..]);
      var e :| e in evidence[1..] && SourceRank(e.source) == StrongestRank(evidence[1..]);
      assert e in evidence;
    }
  }

  lemma {:induction false} WithRankSelects(evidence: seq<RetentionEvidence>, rank: nat)
    ensures forall e :: e in WithRank(evidence, rank) <==> e in evidence && SourceRank(e.source) == rank
  {
    if evidence != [] {
      WithRankSelects(evidence[1..], rank);
      assert evidence == [evidence[0]] + evidence[1..];
    }
  }

  lemma {:induction false} LongestIsLongest(evidence: seq<RetentionEvidence>)
    requires evidence != []
    ensures Longest(evidence) in evidence
    ensures forall e :: e in evidence ==> e.lifetimeYears <= Longest(evidence).lifetimeYears
  {
    assert evidence == [evidence[0]] + evidence[1..];
    if |evidence| > 1 {
      LongestIsLongest(evidence[1..]);
    }
  }

  datatype Lifetime = Lifetime(years: nat, confidence: Confidence)

  function ResolveX(evidence: seq<RetentionEvidence>): Option<Lifetime> {
    if evidence == [] then None
    else
      StrongestRankIsLeast(evidence);
      WithRankSelects(evidence, StrongestRank(evidence));
      var governing := Longest(WithRank(evidence, StrongestRank(evidence)));
      Some(Lifetime(governing.lifetimeYears, SourceConfidence(governing.source)))
  }

  /** `e` comes from the strongest source present and is the longest from it. */
  ghost predicate Governs(evidence: seq<RetentionEvidence>, e: RetentionEvidence) {
    && e in evidence
    && forall o :: o in evidence ==>
                     || SourceRank(e.source) < SourceRank(o.source)
                     || (e.source == o.source && o.lifetimeYears <= e.lifetimeYears)
  }

  /** X is the largest value among evidence of the strongest source present, with that source's confidence. */
  lemma XIsLongestOfStrongest(evidence: seq<RetentionEvidence>)
    ensures ResolveX(evidence) == None <==> evidence == []
    ensures evidence != [] ==>
              exists e :: Governs(evidence, e) && ResolveX(evidence) == Some(Lifetime(e.lifetimeYears, SourceConfidence(e.source)))
  {
    if evidence != [] {
      var rank := StrongestRank(evidence);
      StrongestRankIsLeast(evidence);
      WithRankSelects(evidence, rank);
      LongestIsLongest(WithRank(evidence, rank));
      assert Governs(evidence, Longest(WithRank(evidence, rank)));
    }
  }

  lemma GoverningIsUnique(evidence: seq<RetentionEvidence>, e: RetentionEvidence, e': RetentionEvidence)
    requires Governs(evidence, e) && Governs(evidence, e')
    ensures e.source == e'.source && e.lifetimeYears == e'.lifetimeYears
  {}

  /** `wider` holds the same evidence in any order and multiplicity, plus any that is weaker than something present. */
  ghost predicate AddsOnlyWeaker(evidence: seq<RetentionEvidence>, wider: seq<RetentionEvidence>) {
    && (forall e :: e in evidence ==> e in wider)
    && (forall e :: e in wider ==>
                      e in evidence || exists s :: s in evidence && SourceRank(s.source) < SourceRank(e.source))
  }

  /** X and its confidence ignore the order of the evidence and everything from weaker sources. */
  lemma XIgnoresOrderAndWeakerSources(evidence: seq<RetentionEvidence>, wider: seq<RetentionEvidence>)
    requires AddsOnlyWeaker(evidence, wider)
    ensures ResolveX(wider) == ResolveX(evidence)
  {
    XIsLongestOfStrongest(evidence);
    XIsLongestOfStrongest(wider);
    if evidence != [] {
      var e :| Governs(evidence, e) && ResolveX(evidence) == Some(Lifetime(e.lifetimeYears, SourceConfidence(e.source)));
      assert e in wider;
      var e' :| Governs(wider, e') && ResolveX(wider) == Some(Lifetime(e'.lifetimeYears, SourceConfidence(e'.source)));
      assert Governs(wider, e);
      GoverningIsUnique(wider, e, e');
    }
  }

  /** The same for a context: its list of retention evidence may be permuted, or extended from weaker sources. */
  lemma LifetimeIgnoresOrderAndWeakerSources(
    c: ArtefactContext, retention: seq<RetentionEvidence>, p: RetentionProfile)
    requires forall e :: e in c.retentionEvidence ==> e in retention
    requires forall e :: e in retention ==>
                           || e in c.retentionEvidence
                           || exists s :: s in EvidenceFor(c, p) && SourceRank(s.source) < SourceRank(e.source)
    ensures ResolveX(EvidenceFor(c.(retentionEvidence := retention), p)) == ResolveX(EvidenceFor(c, p))
  {
    XIgnoresOrderAndWeakerSources(EvidenceFor(c, p), EvidenceFor(c.(retentionEvidence := retention), p));
  }

  /** The same sources in the same order, none with a shorter lifetime. */
  ghost predicate IsLengthened(evidence: seq<RetentionEvidence>, longer: seq<RetentionEvidence>) {
    && |evidence| == |longer|
    && forall i :: 0 <= i < |evidence| ==>
                     longer[i].source == evidence[i].source && longer[i].lifetimeYears >= evidence[i].lifetimeYears
  }

  lemma GoverningLengthens(
    evidence: seq<RetentionEvidence>, longer: seq<RetentionEvidence>, e: RetentionEvidence, e': RetentionEvidence)
    requires IsLengthened(evidence, longer)
    requires Governs(evidence, e) && Governs(longer, e')
    ensures e.lifetimeYears <= e'.lifetimeYears
  {
    var i :| 0 <= i < |evidence| && evidence[i] == e;
    var j :| 0 <= j < |longer| && longer[j] == e';
    assert longer[i] in longer && evidence[j] in evidence;
  }

  lemma LongerEvidenceLengthensX(evidence: seq<RetentionEvidence>, longer: seq<RetentionEvidence>)
    requires IsLengthened(evidence, longer)
    ensures ResolveX(evidence).Some? <==> ResolveX(longer).Some?
    ensures ResolveX(evidence).Some? ==> ResolveX(evidence).value.years <= ResolveX(longer).value.years
  {
    XIsLongestOfStrongest(evidence);
    XIsLongestOfStrongest(longer);
    if evidence != [] {
      var e :| Governs(evidence, e) && ResolveX(evidence) == Some(Lifetime(e.lifetimeYears, SourceConfidence(e.source)));
      var e' :| Governs(longer, e') && ResolveX(longer) == Some(Lifetime(e'.lifetimeYears, SourceConfidence(e'.source)));
      GoverningLengthens(evidence, longer, e, e');
    }
  }

  // ----- the track -----

  function ConfidenceOfField(c: ArtefactContext, field: string): Confidence {
    var tier := c.TierOf(field);
    if tier == ProvenanceTier.User || tier == ProvenanceTier.OrgPreset then Confidence.High else Confidence.Low
  }

  datatype Horizon = Horizon(years: Option<real>, basis: ZBasis, confidence: Option<Confidence>)

  /** The organisation's horizon where given, else the resource model's. */
  function HorizonFrom(planningHorizon: Option<real>, resource: ResourceTrack): Horizon {
    if planningHorizon.Some? then Horizon(planningHorizon, OrgHorizon, Some(Confidence.High))
    else if resource.status == Calculated && resource.mYears.Some? then
      Horizon(resource.mYears, ResourceModel, resource.confidence)
    else Horizon(None, Unavailable, None)
  }

  function TrackOf(c: ArtefactContext, p: RetentionProfile, planningHorizon: Option<real>, resource: ResourceTrack)
    : Result<MoscaTrack, RiskError>
  {
    var x := ResolveX(EvidenceFor(c, p));
    var xYears := if x.Some? then Some(x.value.years) else None;
    var y := c.migrationTimeYears;
    var z := HorizonFrom(planningHorizon, resource);
    if x.None? || y.None? || z.years.None? then
      NewMoscaTrack(MoscaTrack(xYears, y, z.years, z.basis, None, None, None))
    else
      var shortfall := x.value.years as real + y.value - z.years.value;
      var confidences := [x.value.confidence, ConfidenceOfField(c, "migration_time_years")]
                         + if z.confidence.Some? then [z.confidence.value] else [];
      NewMoscaTrack(MoscaTrack(xYears, y, z.years, z.basis, Some(shortfall > 0.0), Some(shortfall),
                               Some(Weakest(confidences))))
  }

  /** The confidence of X, of Y's tier, and of Z where its source has one. */
  function InputConfidences(c: ArtefactContext, p: RetentionProfile, planningHorizon: Option<real>, resource: ResourceTrack)
    : set<Confidence>
    requires ResolveX(EvidenceFor(c, p)).Some?
  {
    var z := HorizonFrom(planningHorizon, resource).confidence;
    {ResolveX(EvidenceFor(c, p)).value.confidence, ConfidenceOfField(c, "migration_time_years")}
    + if z.Some? then {z.value} else {}
  }

  /** One of the inputs' confidences, and none of them is weaker. */
  ghost predicate IsWeakestOfInputs(
    weakest: Confidence, c: ArtefactContext, p: RetentionProfile, planningHorizon: Option<real>, resource: ResourceTrack)
  {
    && ResolveX(EvidenceFor(c, p)).Some?
    && weakest in InputConfidences(c, p, planningHorizon, resource)
    && forall i :: i in InputConfidences(c, p, planningHorizon, resource) ==> ConfidenceRank(i) <= ConfidenceRank(weakest)
  }

  /**
   Track A fails only on a negative horizon.  Otherwise it reports exactly the inputs there are, and X + Y - Z with the
   weakest confidence among them exactly when all three are there.
   */
  lemma TrackOutcome(c: ArtefactContext, p: RetentionProfile, planningHorizon: Option<real>, resource: ResourceTrack)
    requires c.migrationTimeYears.Some? ==> c.migrationTimeYears.value >= 0.0
    requires resource.IsValid()
    ensures var x, z := ResolveX(EvidenceFor(c, p)), HorizonFrom(planningHorizon, resource).years;
            var track := TrackOf(c, p, planningHorizon, resource);
            && (track.Failure? <==> planningHorizon.Some? && planningHorizon.value < 0.0)
            && (track.Success? ==>
                  && track.value.xYears == (if x.Some? then Some(x.value.years) else None)
                  && track.value.yYears == c.migrationTimeYears
                  && track.value.zYears == z
                  && track.value.zBasis == HorizonFrom(planningHorizon, resource).basis
                  && (track.value.IsResolved() <==> track.value.confidence.Some?)
                  && (track.value.IsResolved() ==> IsWeakestOfInputs(track.value.confidence.value, c, p, planningHorizon, resource))
                  && track.value.shortfallYears ==
                     (if x.Some? && c.migrationTimeYears.Some? && z.Some?
                      then Some(x.value.years as real + c.migrationTimeYears.value - z.value) else None)
                  && track.value.isUrgent ==
                     (if track.value.shortfallYears.Some? then Some(track.value.shortfallYears.value > 0.0) else None))
  {
    var x, z := ResolveX(EvidenceFor(c, p)), HorizonFrom(planningHorizon, resource);
    if x.Some? && c.migrationTimeYears.Some? && z.years.Some? {
      var confidences := [x.value.confidence, ConfidenceOfField(c, "migration_time_years")]
                         + if z.confidence.Some? then [z.confidence.value] else [];
      WeakestIsWeakest(confidences);
      assert forall i :: i in InputConfidences(c, p, planningHorizon, resource) <==> i in confidences;
    }
  }
}
