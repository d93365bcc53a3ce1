/** A change report field by field: which of the eight tracked fields it lists, with which values, and what it counts. */
module DiffFields {
  import opened Wrappers
  import Enums
  import opened Artefacts
  import opened Deduplication
  import opened RiskModel
  import opened Diff

  // ----- the core fields -----

  /** A text that may be missing, as a report shows it. */
  ghost predicate Shows(v: Value, t: Option<string>) {
    (t.None? ==> v.Absent?) && (t.Some? ==> v.Text? && v.text == t.value)
  }

  ghost predicate ShowsPrimitive(v: Value, p: Option<Enums.Primitive>) {
    (p.None? ==> v.Absent?) && (p.Some? ==> v.PrimitiveKind? && v.primitive == p.value)
  }

  /** The five core fields of `changes`: each is listed exactly when it differs, old value first. */
  ghost predicate ListsCoreChanges(changes: Changes, o: CryptoArtefact, n: CryptoArtefact) {
    && (Name in changes <==> o.name != n.name)
    && (Name in changes ==> changes[Name].0 == Text(o.name) && changes[Name].1 == Text(n.name))
    && (Algorithm in changes <==> o.algorithm != n.algorithm)
    && (Algorithm in changes ==> Shows(changes[Algorithm].0, o.algorithm) && Shows(changes[Algorithm].1, n.algorithm))
    && (QuantumVulnerability in changes <==> o.vulnerability != n.vulnerability)
    && (QuantumVulnerability in changes ==>
          && changes[QuantumVulnerability].0 == Vulnerability(o.vulnerability)
          && changes[QuantumVulnerability].1 == Vulnerability(n.vulnerability))
    && (NistSecurityLevel in changes <==> o.nistSecurityLevel != n.nistSecurityLevel)
    && (NistSecurityLevel in changes ==>
          && changes[NistSecurityLevel].0 == Level(o.nistSecurityLevel)
          && changes[NistSecurityLevel].1 == Level(n.nistSecurityLevel))
    && (Primitive in changes <==> o.primitive != n.primitive)
    && (Primitive in changes ==>
          ShowsPrimitive(changes[Primitive].0, o.primitive) && ShowsPrimitive(changes[Primitive].1, n.primitive))
  }

  // ----- the assessment fields -----

  /** The score an artefact was given: none if it was not assessed, or assessed without one. */
  function GivenScore(assessed: Assessments, id: Id): Option<real> {
    if id in assessed then assessed[id].finalScore else None
  }

  ghost predicate ShowsScore(v: Value, s: Option<real>) {
    (s.None? ==> v.Absent?) && (s.Some? ==> v.Score? && v.score == s.value)
  }

  ghost predicate ShowsFlag(v: Value, f: Option<bool>) {
    (f.None? ==> v.Absent?) && (f.Some? ==> v.Flag? && v.flag == f.value)
  }

  /** Scores are compared on any assessment, bands and urgency only between two. */
  ghost predicate ListsAssessmentChanges(changes: Changes, before: Assessments, after: Assessments, id: Id) {
    && (RiskScore in changes <==> GivenScore(before, id) != GivenScore(after, id))
    && (RiskScore in changes ==>
          && ShowsScore(changes[RiskScore].0, GivenScore(before, id))
          && ShowsScore(changes[RiskScore].1, GivenScore(after, id)))
    && (Priority in changes <==> id in before && id in after && before[id].priority != after[id].priority)
    && (Priority in changes ==>
          changes[Priority].0 == Band(before[id].priority) && changes[Priority].1 == Band(after[id].priority))
    && (MoscaUrgent in changes <==>
          id in before && id in after && before[id].mosca.isUrgent != after[id].mosca.isUrgent)
    && (MoscaUrgent in changes ==>
          && ShowsFlag(changes[MoscaUrgent].0, before[id].mosca.isUrgent)
          && ShowsFlag(changes[MoscaUrgent].1, after[id].mosca.isUrgent))
  }

  lemma CoreChangesAreListed(before: Side, after: Side, id: Id)
    requires id in before.inventory && id in after.inventory
    ensures ListsCoreChanges(DeltaOf(before, after, id), before.inventory[id], after.inventory[id])
  {
    ViewFieldNames(before.inventory[id], after.inventory[id],
                   AssessmentFor(before.assessed, id), AssessmentFor(after.assessed, id));
    ViewFieldNames(after.inventory[id], before.inventory[id],
                   AssessmentFor(after.assessed, id), AssessmentFor(before.assessed, id));
  }

  lemma AssessmentChangesAreListed(before: Side, after: Side, id: Id)
    requires id in before.inventory && id in after.inventory
    ensures ListsAssessmentChanges(DeltaOf(before, after, id), before.assessed, after.assessed, id)
  {}

  // ----- the report -----

  /** Some tracked field differs. */
  ghost predicate Differs(before: Side, after: Side, id: Id)
    requires id in before.inventory && id in after.inventory
  {
    var o, n := before.inventory[id], after.inventory[id];
    || o.name != n.name || o.algorithm != n.algorithm || o.vulnerability != n.vulnerability
    || o.nistSecurityLevel != n.nistSecurityLevel || o.primitive != n.primitive
    || GivenScore(before.assessed, id) != GivenScore(after.assessed, id)
    || (id in before.assessed && id in after.assessed
        && (before.assessed[id].priority != after.assessed[id].priority
            || before.assessed[id].mosca.isUrgent != after.assessed[id].mosca.isUrgent))
  }

  lemma ChangesMeanDifference(before: Side, after: Side, id: Id)
    requires id in before.inventory && id in after.inventory
    ensures Differs(before, after, id) <==> DeltaOf(before, after, id) != map[]
  {
    CoreChangesAreListed(before, after, id);
    AssessmentChangesAreListed(before, after, id);
    var changes := DeltaOf(before, after, id);
    if changes != map[] {
      var k :| k in changes;
      match k
      case Name => case Algorithm => case QuantumVulnerability => case NistSecurityLevel => case Primitive =>
      case RiskScore => case Priority => case MoscaUrgent =>
    }
  }

  /** An artefact of both scans is reported as changed exactly when a tracked field differs. */
  lemma ChangedExactlyWhenSomethingDiffers(before: Side, after: Side, r: DiffReport, id: Id)
    requires IsDiff(before, after, r)
    ensures id in ChangeIds(r.changed) <==>
            id in before.inventory && id in after.inventory && Differs(before, after, id)
  {
    assert id in ChangeIds(r.changed) <==> id in ChangedIds(before, after);
    if id in before.inventory && id in after.inventory {
      ChangesMeanDifference(before, after, id);
    }
  }

  /** Every reported change is named after the current artefact and lists exactly the fields that differ. */
  lemma ReportedChangesAreExact(before: Side, after: Side, r: DiffReport, i: nat)
    requires IsDiff(before, after, r) && i < |r.changed|
    ensures var id, changes := r.changed[i].artefactId, r.changed[i].changes;
            && id in before.inventory && id in after.inventory && r.changed[i].name == after.inventory[id].name
            && ListsCoreChanges(changes, before.inventory[id], after.inventory[id])
            && ListsAssessmentChanges(changes, before.assessed, after.assessed, id)
  {
    assert IsChange(r.changed[i], before, after);
    CoreChangesAreListed(before, after, r.changed[i].artefactId);
    AssessmentChangesAreListed(before, after, r.changed[i].artefactId);
  }

  /** The ids of an inventory that a quantum computer breaks or weakens; an unknown label is not among them. */
  ghost function Weakened(inventory: Inventory): set<Id> {
    set id | id in inventory && inventory[id].vulnerability in {Enums.ShorBroken, Enums.GroverWeakened}
  }

  lemma WeakenedAreVulnerable(inventory: Inventory)
    ensures Weakened(inventory) == VulnerableIds(inventory)
  {}

  lemma PostureCounts(before: Side, after: Side, r: DiffReport)
    requires IsDiff(before, after, r)
    ensures r.posture.totalBefore == |before.inventory| && r.posture.totalAfter == |after.inventory|
    ensures r.posture.vulnerableBefore == |Weakened(before.inventory)|
    ensures r.posture.vulnerableAfter == |Weakened(after.inventory)|
    ensures r.posture.addedCount == |after.inventory.Keys - before.inventory.Keys|
    ensures r.posture.removedCount == |before.inventory.Keys - after.inventory.Keys|
    ensures r.posture.changedCount == |r.changed|
  {
    WeakenedAreVulnerable(before.inventory);
    WeakenedAreVulnerable(after.inventory);
    ListedCount(r.added, after.inventory, after.inventory.Keys - before.inventory.Keys);
    ListedCount(r.removed, before.inventory, before.inventory.Keys - after.inventory.Keys);
  }

  /** Of several assessments of an artefact the last one is compared. */
  lemma {:induction false} LastAssessmentWins(xs: seq<RiskAssessment>, i: nat)
    requires i < |xs| && forall j :: i < j < |xs| ==> xs[j].artefactId != xs[i].artefactId
    ensures xs[i].artefactId in AssessmentsOf(xs) && AssessmentsOf(xs)[xs[i].artefactId] == xs[i]
  {
    if i < |xs| - 1 {
      LastAssessmentWins(xs[..|xs| - 1], i);
    }
  }

  lemma {:induction false} OnlyAssessedAreCompared(xs: seq<RiskAssessment>, id: Id)
    requires forall a :: a in xs ==> a.artefactId != id
    ensures id !in AssessmentsOf(xs)
  {
    if xs != [] {
      OnlyAssessedAreCompared(xs[..|xs| - 1], id);
    }
  }
}
