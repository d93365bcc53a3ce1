/** What a migration plan says of each candidate, and in which order. */
module PlanItems {
  import opened Wrappers
  import opened Enums
  import opened Contexts
  import opened Ordering
  import opened MigrationPlanner

  /** The year the horizon is over: the assessed year plus Z, rounded down; no year without Z. */
  ghost predicate IsDeadlineOf(year: Option<int>, c: Candidate) {
    && (year.None? <==> c.zYears.None?)
    && (year.Some? ==> year.value as real <= c.assessedYear as real + c.zYears.value < year.value as real + 1.0)
  }

  /** The candidates that `c` depends on directly, each once and in string order. */
  ghost predicate AreDependenciesOf(ids: seq<Id>, c: Candidate, candidates: seq<Candidate>, dependencies: seq<DependencyEdge>) {
    && Sorted(StringLe, ids) && Distinct(ids)
    && forall t :: t in ids <==>
         DependencyEdge(c.artefactId, t) in dependencies && exists d :: d in candidates && d.artefactId == t
  }

  ghost predicate IsItemOf(item: PlanItem, c: Candidate, candidates: seq<Candidate>, dependencies: seq<DependencyEdge>) {
    && item.artefactId == c.artefactId
    && item.recommendationId == c.recommendationId && item.assessmentId == c.assessmentId
    && IsDeadlineOf(item.moscaDeadlineYear, c)
    && AreDependenciesOf(item.dependencyIds, c, candidates, dependencies)
  }

  lemma CandidateIdsAre(candidates: seq<Candidate>, id: Id)
    ensures id in CandidateIds(candidates) <==> exists d :: d in candidates && d.artefactId == id
  {
    if id in CandidateIds(candidates) {
      var i :| 0 <= i < |candidates| && IdsOf(candidates)[i] == id;
      assert candidates[i] in candidates;
    }
    if d :| d in candidates && d.artefactId == id {
      var i :| 0 <= i < |candidates| && candidates[i] == d;
      assert IdsOf(candidates)[i] == id;
    }
  }

  lemma DraftedItem(
    item: PlanItem, c: Candidate, candidates: seq<Candidate>, dependencies: seq<DependencyEdge>, waves: Waves)
    requires IsItemFor(item, c, PrerequisitesOf(CandidateIds(candidates), dependencies), waves)
    ensures IsItemOf(item, c, candidates, dependencies)
  {
    var ids := CandidateIds(candidates);
    forall t ensures t in item.dependencyIds <==>
                     DependencyEdge(c.artefactId, t) in dependencies && exists d :: d in candidates && d.artefactId == t
    {
      CandidateIdsAre(candidates, t);
      assert t in TargetsOf(ids, dependencies, c.artefactId) <==> DependencyEdge(c.artefactId, t) in dependencies && t in ids by {
        if DependencyEdge(c.artefactId, t) in dependencies && t in ids {
          assert DependencyEdge(c.artefactId, t).targetId == t;
        }
      }
    }
  }

  /** One item for each candidate and no other, with the candidate's own data. */
  lemma ItemsAreTheirCandidates(candidates: seq<Candidate>, dependencies: seq<DependencyEdge>, items: seq<PlanItem>)
    requires IsPlan(candidates, dependencies, items)
    ensures |items| == |candidates|
    ensures forall item :: item in items ==> exists c :: c in candidates && IsItemOf(item, c, candidates, dependencies)
    ensures forall c :: c in candidates ==> exists item :: item in items && IsItemOf(item, c, candidates, dependencies)
  {
    var prerequisites := PrerequisitesOf(CandidateIds(candidates), dependencies);
    var waves, draft :| IsDraft(candidates, prerequisites, waves, draft) && items == SortBy(PlanLe, draft);
    SortedDraft(draft);
    forall item | item in items ensures exists c :: c in candidates && IsItemOf(item, c, candidates, dependencies) {
      var i :| 0 <= i < |draft| && draft[i] == item;
      assert IsItemFor(draft[i], candidates[i], prerequisites, waves);
      DraftedItem(item, candidates[i], candidates, dependencies, waves);
      assert candidates[i] in candidates;
    }
    forall c | c in candidates ensures exists item :: item in items && IsItemOf(item, c, candidates, dependencies) {
      var i :| 0 <= i < |candidates| && candidates[i] == c;
      assert IsItemFor(draft[i], candidates[i], prerequisites, waves);
      DraftedItem(draft[i], c, candidates, dependencies, waves);
      assert draft[i] in items;
    }
  }

  /** An item's wave is the length of the longest chain of candidates that must be migrated first, itself included. */
  lemma WaveOfItem(candidates: seq<Candidate>, dependencies: seq<DependencyEdge>, items: seq<PlanItem>, i: nat)
    requires IsPlan(candidates, dependencies, items) && i < |items|
    ensures var prerequisites := PrerequisitesOf(CandidateIds(candidates), dependencies);
            && (exists chain :: IsChain(prerequisites, chain) && chain[0] == items[i].artefactId && |chain| == items[i].migrationWave)
            && (forall chain :: IsChain(prerequisites, chain) && chain[0] == items[i].artefactId ==> |chain| <= items[i].migrationWave)
  {
    var prerequisites := PrerequisitesOf(CandidateIds(candidates), dependencies);
    var waves, draft :| IsDraft(candidates, prerequisites, waves, draft) && items == SortBy(PlanLe, draft);
    SortedDraft(draft);
    assert items[i] in draft;
    var k :| 0 <= k < |draft| && draft[k] == items[i];
    assert IsItemFor(draft[k], candidates[k], prerequisites, waves);
    WaveIsTheLongestChain(prerequisites, waves, items[i].artefactId);
  }

  /**
   Earlier waves come first.  Within a wave dated items precede undated ones, earlier deadlines precede later ones, and
   ids break ties.
   */
  lemma OrderOfItems(candidates: seq<Candidate>, dependencies: seq<DependencyEdge>, items: seq<PlanItem>, i: nat, j: nat)
    requires IsPlan(candidates, dependencies, items) && i < j < |items|
    ensures var a, b := items[i], items[j];
            && a.migrationWave <= b.migrationWave
            && (a.migrationWave == b.migrationWave ==>
                  && (a.moscaDeadlineYear.None? ==> b.moscaDeadlineYear.None?)
                  && (a.moscaDeadlineYear.Some? && b.moscaDeadlineYear.Some? ==>
                        a.moscaDeadlineYear.value <= b.moscaDeadlineYear.value)
                  && (a.moscaDeadlineYear == b.moscaDeadlineYear ==> StringLe(a.artefactId, b.artefactId)))
  {
    var waves, draft :|
      && IsDraft(candidates, PrerequisitesOf(CandidateIds(candidates), dependencies), waves, draft)
      && items == SortBy(PlanLe, draft);
    SortedDraft(draft);
    assert PlanLe(items[i], items[j]);
  }
}
