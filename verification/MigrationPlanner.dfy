/**
 Dependency-first migration waves (backend/app/engines/migration_planner.py): a memoised depth-first search
 over the in-scope prerequisites, then a sort by wave, Mosca deadline and artefact id.
 */
module MigrationPlanner {
  import opened Wrappers
  import opened Enums
  import opened Contexts
  import opened Ordering

  datatype Candidate = Candidate(
    artefactId: Id,
    assessmentId: Id,
    recommendationId: Id,
    priority: Priority,
    zYears: Option<real>,
    assessedYear: int)

  datatype PlanItem = PlanItem(
    recommendationId: Id,
    assessmentId: Id,
    artefactId: Id,
    migrationWave: nat,
    moscaDeadlineYear: Option<int>,
    dependencyIds: seq<Id>)

  datatype PlanError = DuplicateCandidate | NotActionable | DependencyCycle

  type Prerequisites = map<Id, set<Id>>
  type Waves = map<Id, nat>

  // ----- specification: chains and layers -----

  /** Every prerequisite is itself in scope. */
  ghost predicate IsClosed(prerequisites: Prerequisites) {
    forall id, u :: id in prerequisites && u in prerequisites[id] ==> u in prerequisites
  }

  /** Each element needs the next one first. */
  ghost predicate IsChain(prerequisites: Prerequisites, chain: seq<Id>) {
    && chain != []
    && chain[0] in prerequisites
    && (|chain| == 1 || (chain[1] in prerequisites[chain[0]] && IsChain(prerequisites, chain[1..])))
  }

  ghost predicate HasCycle(prerequisites: Prerequisites) {
    exists chain :: |chain| >= 2 && IsChain(prerequisites, chain) && chain[0] == chain[|chain| - 1]
  }

  /** `id` sits directly above its highest prerequisite. */
  ghost predicate IsLayer(prerequisites: Prerequisites, waves: Waves, id: Id) {
    && id in prerequisites
    && id in waves
    && waves[id] >= 1
    && (forall u :: u in prerequisites[id] ==> u in waves && waves[u] < waves[id])
    && (waves[id] == 1 || exists u :: u in prerequisites[id] && u in waves && waves[u] == waves[id] - 1)
  }

  ghost predicate IsLayering(prerequisites: Prerequisites, waves: Waves) {
    forall id {:trigger IsLayer(prerequisites, waves, id)} :: id in waves ==> IsLayer(prerequisites, waves, id)
  }

  lemma {:induction false} ChainAppend(prerequisites: Prerequisites, chain: seq<Id>, id: Id)
    requires IsClosed(prerequisites) && IsChain(prerequisites, chain)
    requires chain[|chain| - 1] in prerequisites && id in prerequisites[chain[|chain| - 1]]
    ensures IsChain(prerequisites, chain + [id])
  {
    if |chain| == 1 {
      assert (chain + [id])[1..] == [id];
      assert IsChain(prerequisites, [id]);
    } else {
      ChainAppend(prerequisites, chain[1..], id);
      assert (chain + [id])[1..] == chain[1..] + [id];
    }
  }

  lemma {:induction false} ChainSuffix(prerequisites: Prerequisites, chain: seq<Id>, k: nat)
    requires IsChain(prerequisites, chain) && k < |chain|
    ensures IsChain(prerequisites, chain[k..])
  {
    if k > 0 {
      ChainSuffix(prerequisites, chain[1..], k - 1);
      assert chain[1..][k - 1..] == chain[k..];
    }
  }

  /** Waves fall by at least one at every step of a chain. */
  lemma {:induction false} WavesFallAlongChain(prerequisites: Prerequisites, waves: Waves, chain: seq<Id>)
    requires IsLayering(prerequisites, waves) && waves.Keys == prerequisites.Keys
    requires IsChain(prerequisites, chain)
    ensures chain[0] in waves && chain[|chain| - 1] in waves
    ensures waves[chain[0]] >= waves[chain[|chain| - 1]] + |chain| - 1
  {
    assert IsLayer(prerequisites, waves, chain[0]);
    if |chain| > 1 {
      WavesFallAlongChain(prerequisites, waves, chain[1..]);
    }
  }

  lemma {:induction false} ChainOfWaveLength(prerequisites: Prerequisites, waves: Waves, id: Id) returns (chain: seq<Id>)
    requires IsLayering(prerequisites, waves) && id in waves
    ensures IsChain(prerequisites, chain) && chain[0] == id && |chain| == waves[id]
    decreases waves[id]
  {
    assert IsLayer(prerequisites, waves, id);
    if waves[id] == 1 {
      chain := [id];
    } else {
      var u :| u in prerequisites[id] && u in waves && waves[u] == waves[id] - 1;
      var rest := ChainOfWaveLength(prerequisites, waves, u);
      chain := [id] + rest;
      assert chain[1..] == rest;
    }
  }

  /** A wave is the length of the longest chain of prerequisites, counting the artefact itself. */
  lemma WaveIsTheLongestChain(prerequisites: Prerequisites, waves: Waves, id: Id)
    requires IsLayering(prerequisites, waves) && waves.Keys == prerequisites.Keys && id in waves
    ensures exists chain :: IsChain(prerequisites, chain) && chain[0] == id && |chain| == waves[id]
    ensures forall chain :: IsChain(prerequisites, chain) && chain[0] == id ==> |chain| <= waves[id]
  {
    var longest := ChainOfWaveLength(prerequisites, waves, id);
    forall chain | IsChain(prerequisites, chain) && chain[0] == id ensures |chain| <= waves[id] {
      WavesFallAlongChain(prerequisites, waves, chain);
      assert IsLayer(prerequisites, waves, chain[|chain| - 1]);
    }
  }

  /** The in-scope graph can be layered at all only when it has no cycle. */
  lemma LayeringExcludesCycles(prerequisites: Prerequisites, waves: Waves)
    requires IsLayering(prerequisites, waves) && waves.Keys == prerequisites.Keys
    ensures !HasCycle(prerequisites)
  {
    forall chain | |chain| >= 2 && IsChain(prerequisites, chain) ensures chain[0] != chain[|chain| - 1] {
      WavesFallAlongChain(prerequisites, waves, chain);
    }
  }

  /** Numbers waves so that every prerequisite is in a strictly earlier one. */
  ghost predicate IsSchedule(prerequisites: Prerequisites, schedule: Waves) {
    forall id :: id in prerequisites ==>
                   && id in schedule && schedule[id] >= 1
                   && forall u :: u in prerequisites[id] ==> u in schedule && schedule[u] < schedule[id]
  }

  /** The planned waves are the pointwise least schedule. */
  lemma {:induction false} WavesAreLeast(prerequisites: Prerequisites, waves: Waves, schedule: Waves, id: Id)
    requires IsLayering(prerequisites, waves) && id in waves && id in prerequisites
    requires IsSchedule(prerequisites, schedule)
    ensures waves[id] <= schedule[id]
    decreases waves[id]
  {
    assert IsLayer(prerequisites, waves, id);
    if waves[id] > 1 {
      var u :| u in prerequisites[id] && u in waves && waves[u] == waves[id] - 1;
      assert IsLayer(prerequisites, waves, u);
      WavesAreLeast(prerequisites, waves, schedule, u);
    }
  }

  /** No wave number up to the last is left empty. */
  lemma {:induction false} NoWaveIsEmpty(prerequisites: Prerequisites, waves: Waves, id: Id, k: nat)
    requires IsLayering(prerequisites, waves) && id in waves
    requires 1 <= k <= waves[id]
    ensures exists w :: w in waves && waves[w] == k
    decreases waves[id]
  {
    assert IsLayer(prerequisites, waves, id);
    if k < waves[id] {
      var u :| u in prerequisites[id] && u in waves && waves[u] == waves[id] - 1;
      NoWaveIsEmpty(prerequisites, waves, u, k);
    }
  }

  // ----- the search -----

  function MaxOrZero(ns: seq<nat>): nat {
    if ns == [] then 0
    else
      var rest := MaxOrZero(ns[1..]);
      if ns[0] > rest then ns[0] else rest
  }

  lemma {:induction false} MaxOrZeroIsMax(ns: seq<nat>)
    ensures forall n :: n in ns ==> n <= MaxOrZero(ns)
    ensures MaxOrZero(ns) == 0 || MaxOrZero(ns) in ns
  {
    if ns != [] {
      MaxOrZeroIsMax(ns[1..]);
      assert ns == [ns[0]] + ns[1..];
    }
  }

  class WavePlanner {
    const prerequisites: Prerequisites
    var waveByArtefact: Waves
    var visiting: set<Id>

    constructor (prerequisites: Prerequisites)
      ensures this.prerequisites == prerequisites
      ensures waveByArtefact == map[] && visiting == {}
    {
      this.prerequisites := prerequisites;
      waveByArtefact := map[];
      visiting := {};
    }

    /** The memo is a correct partial layering and nothing under evaluation is in it yet. */
    ghost predicate Valid()
      reads this
    {
      && IsClosed(prerequisites)
      && IsLayering(prerequisites, waveByArtefact)
      && waveByArtefact.Keys !! visiting
    }

    /** The artefacts under evaluation form a chain, and `id` is a prerequisite of the last one. */
    ghost predicate IsCalledFrom(stack: seq<Id>, id: Id)
      reads this
    {
      && (forall u :: u in visiting <==> u in stack)
      && IsChain(prerequisites, stack + [id])
      && id in prerequisites
    }

    method WaveFor(id: Id, ghost stack: seq<Id>) returns (r: Result<nat, PlanError>)
      requires Valid() && IsCalledFrom(stack, id)
      modifies this
      decreases prerequisites.Keys - visiting
      ensures r.Failure? ==> r.error == DependencyCycle && HasCycle(prerequisites)
      ensures r.Success? ==>
                && Valid()
                && visiting == old(visiting)
                && id in waveByArtefact && waveByArtefact[id] == r.value
                && (forall u :: u in old(waveByArtefact) ==>
                                  u in waveByArtefact && waveByArtefact[u] == old(waveByArtefact)[u])
    {
      if id in waveByArtefact {
        return Success(waveByArtefact[id]);
      }
      if id in visiting {
        RevisitIsCycle(prerequisites, stack, id);
        return Failure(DependencyCycle);
      }
      visiting := visiting + {id};
      var prerequisiteWaves: seq<nat> := [];
      var rest := prerequisites[id];
      while rest != {}
        invariant Valid()
        invariant visiting == old(visiting) + {id}
        invariant rest <= prerequisites[id]
        invariant forall u :: u in prerequisites[id] - rest ==> u in waveByArtefact && waveByArtefact[u] in prerequisiteWaves
        invariant forall n :: n in prerequisiteWaves ==>
                                n >= 1 && exists u :: u in prerequisites[id] && u in waveByArtefact && waveByArtefact[u] == n
        invariant forall u :: u in old(waveByArtefact) ==>
                                u in waveByArtefact && waveByArtefact[u] == old(waveByArtefact)[u]
        decreases rest
      {
        var prerequisite :| prerequisite in rest;
        ChainAppend(prerequisites, stack + [id], prerequisite);
        var wave :- WaveFor(prerequisite, stack + [id]);
        assert IsLayer(prerequisites, waveByArtefact, prerequisite);
        prerequisiteWaves := prerequisiteWaves + [wave];
        rest := rest - {prerequisite};
      }
      visiting := visiting - {id};
      var result := 1 + MaxOrZero(prerequisiteWaves);
      MaxOrZeroIsMax(prerequisiteWaves);
      ghost var before := waveByArtefact;
      waveByArtefact := waveByArtefact[id := result];
      forall v | v in waveByArtefact ensures IsLayer(prerequisites, waveByArtefact, v) {
        assert v != id ==> IsLayer(prerequisites, before, v);
      }
      return Success(result);
    }
  }

  lemma RevisitIsCycle(prerequisites: Prerequisites, stack: seq<Id>, id: Id)
    requires IsChain(prerequisites, stack + [id]) && id in stack
    ensures HasCycle(prerequisites)
  {
    var k :| 0 <= k < |stack| && stack[k] == id;
    ChainSuffix(prerequisites, stack + [id], k);
    var cycle := (stack + [id])[k..];
    assert |cycle| >= 2 && cycle[0] == cycle[|cycle| - 1];
  }

  // ----- the plan -----

  /** The order of the final sort: wave, undated last, deadline, artefact id. */
  predicate PlanLe(a: PlanItem, b: PlanItem) {
    var da, db := a.moscaDeadlineYear.GetOr(0), b.moscaDeadlineYear.GetOr(0);
    if a.migrationWave != b.migrationWave then a.migrationWave < b.migrationWave
    else if a.moscaDeadlineYear.None? != b.moscaDeadlineYear.None? then b.moscaDeadlineYear.None?
    else if da != db then da < db
    else StringLe(a.artefactId, b.artefactId)
  }

  lemma PlanLeIsTotalPreorder()
    ensures IsTotalPreorder(PlanLe)
  {
    StringLeIsTotalPreorder();
  }

  /** A conservative year for Z; no date is invented. */
  function MoscaDeadlineYear(c: Candidate): Option<int> {
    if c.zYears.None? then None else Some(c.assessedYear + c.zYears.value.Floor)
  }

  function IdsOf(candidates: seq<Candidate>): seq<Id> {
    seq(|candidates|, i requires 0 <= i < |candidates| => candidates[i].artefactId)
  }

  function CandidateIds(candidates: seq<Candidate>): set<Id> {
    set id | id in IdsOf(candidates)
  }

  predicate IsActionable(c: Candidate) {
    c.priority == P0 || c.priority == P1
  }

  /** A consumer's in-scope prerequisites are the targets of its edges. */
  function TargetsOf(ids: set<Id>, dependencies: seq<DependencyEdge>, id: Id): set<Id> {
    set e | e in dependencies && e.sourceId == id && e.targetId in ids :: e.targetId
  }

  function PrerequisitesOf(ids: set<Id>, dependencies: seq<DependencyEdge>): Prerequisites {
    map id | id in ids :: TargetsOf(ids, dependencies, id)
  }

  method CollectPrerequisites(ids: set<Id>, dependencies: seq<DependencyEdge>) returns (prerequisites: Prerequisites)
    ensures prerequisites == PrerequisitesOf(ids, dependencies)
  {
    prerequisites := map id | id in ids :: {};
    for i := 0 to |dependencies|
      invariant prerequisites.Keys == ids
      invariant forall id :: id in ids ==> prerequisites[id] == TargetsOf(ids, dependencies[..i], id)
    {
      var edge := dependencies[i];
      var before := dependencies[..i];
      assert dependencies[..i + 1] == before + [edge];
      forall id | id in ids
        ensures TargetsOf(ids, before + [edge], id)
             == TargetsOf(ids, before, id)
                + if edge.sourceId == id && edge.targetId in ids then {edge.targetId} else {}
      {
        assert forall e :: e in before + [edge] <==> e in before || e == edge;
      }
      if edge.sourceId in ids && edge.targetId in ids {
        prerequisites := prerequisites[edge.sourceId := prerequisites[edge.sourceId] + {edge.targetId}];
      }
    }
    assert dependencies[..|dependencies|] == dependencies;
  }

  ghost predicate IsItemFor(item: PlanItem, c: Candidate, prerequisites: Prerequisites, waves: Waves) {
    && c.artefactId in prerequisites && c.artefactId in waves
    && IsSortedListing(item.dependencyIds, prerequisites[c.artefactId])
    && item == PlanItem(c.recommendationId, c.assessmentId, c.artefactId, waves[c.artefactId],
                        MoscaDeadlineYear(c), item.dependencyIds)
  }

  /** One item per candidate, in candidate order. */
  ghost predicate IsDraft(candidates: seq<Candidate>, prerequisites: Prerequisites, waves: Waves, draft: seq<PlanItem>) {
    && IsLayering(prerequisites, waves) && waves.Keys == prerequisites.Keys
    && |draft| == |candidates|
    && forall i {:trigger IsItemFor(draft[i], candidates[i], prerequisites, waves)} ::
         0 <= i < |candidates| ==> IsItemFor(draft[i], candidates[i], prerequisites, waves)
  }

  ghost predicate IsPlan(candidates: seq<Candidate>, dependencies: seq<DependencyEdge>, items: seq<PlanItem>) {
    var prerequisites := PrerequisitesOf(CandidateIds(candidates), dependencies);
    exists waves, draft :: IsDraft(candidates, prerequisites, waves, draft) && items == SortBy(PlanLe, draft)
  }

  /** Evaluates every candidate's wave; the search fails exactly on a cycle. */
  method ComputeWaves(ids: seq<Id>, prerequisites: Prerequisites) returns (r: Result<Waves, PlanError>)
    requires IsClosed(prerequisites)
    requires forall id :: id in ids <==> id in prerequisites
    ensures r.Failure? ==> r.error == DependencyCycle
    ensures r.Failure? <==> HasCycle(prerequisites)
    ensures r.Success? ==> IsLayering(prerequisites, r.value) && r.value.Keys == prerequisites.Keys
  {
    var planner := new WavePlanner(prerequisites);
    for i := 0 to |ids|
      invariant planner.Valid() && planner.visiting == {}
      invariant forall k :: 0 <= k < i ==> ids[k] in planner.waveByArtefact
    {
      assert [] + [ids[i]] == [ids[i]];
      var wave := planner.WaveFor(ids[i], []);
      if wave.Failure? {
        return Failure(wave.error);
      }
    }
    var waves := planner.waveByArtefact;
    forall id | id in waves ensures id in prerequisites {
      assert IsLayer(prerequisites, waves, id);
    }
    LayeringExcludesCycles(prerequisites, waves);
    return Success(waves);
  }

  method DraftItems(candidates: seq<Candidate>, prerequisites: Prerequisites, waves: Waves)
    returns (draft: seq<PlanItem>)
    requires IsLayering(prerequisites, waves) && waves.Keys == prerequisites.Keys == CandidateIds(candidates)
    ensures IsDraft(candidates, prerequisites, waves, draft)
  {
    draft := [];
    for i := 0 to |candidates|
      invariant |draft| == i
      invariant forall k {:trigger IsItemFor(draft[k], candidates[k], prerequisites, waves)} ::
                  0 <= k < i ==> IsItemFor(draft[k], candidates[k], prerequisites, waves)
    {
      var c := candidates[i];
      assert IdsOf(candidates)[i] in CandidateIds(candidates);
      var dependencyIds := SortedListing(prerequisites[c.artefactId]);
      var item := PlanItem(c.recommendationId, c.assessmentId, c.artefactId, waves[c.artefactId],
                           MoscaDeadlineYear(c), dependencyIds);
      assert IsItemFor(item, c, prerequisites, waves);
      draft := draft + [item];
    }
  }

  method PlanMigrationWaves(candidates: seq<Candidate>, dependencies: seq<DependencyEdge>)
    returns (r: Result<seq<PlanItem>, PlanError>)
    ensures r == Failure(DuplicateCandidate) <==> !Distinct(IdsOf(candidates))
    ensures r == Failure(NotActionable) <==>
            Distinct(IdsOf(candidates)) && exists c :: c in candidates && c.priority != P0 && c.priority != P1
    ensures r == Failure(DependencyCycle) <==>
            && Distinct(IdsOf(candidates))
            && (forall c :: c in candidates ==> c.priority == P0 || c.priority == P1)
            && HasCycle(PrerequisitesOf(CandidateIds(candidates), dependencies))
    ensures r.Success? ==> IsPlan(candidates, dependencies, r.value)
  {
    var ids := CandidateIds(candidates);
    DistinctLength(IdsOf(candidates));
    if |ids| != |candidates| {
      return Failure(DuplicateCandidate);
    }
    for i := 0 to |candidates|
      invariant forall k :: 0 <= k < i ==> IsActionable(candidates[k])
    {
      if !IsActionable(candidates[i]) {
        return Failure(NotActionable);
      }
    }
    var prerequisites := CollectPrerequisites(ids, dependencies);
    var waves := ComputeWaves(IdsOf(candidates), prerequisites);
    if waves.Failure? {
      return Failure(waves.error);
    }
    var draft := DraftItems(candidates, prerequisites, waves.value);
    return Success(SortBy(PlanLe, draft));
  }

  lemma SortedDraft(draft: seq<PlanItem>)
    ensures Sorted(PlanLe, SortBy(PlanLe, draft))
    ensures |SortBy(PlanLe, draft)| == |draft|
    ensures multiset(SortBy(PlanLe, draft)) == multiset(draft)
    ensures forall item :: item in SortBy(PlanLe, draft) <==> item in draft
  {
    PlanLeIsTotalPreorder();
    SortBySorts(PlanLe, draft);
    SortByPermutes(PlanLe, draft);
    SortByMembers(PlanLe, draft);
  }

  /** The sorted plan is a permutation of one item per candidate, each with its candidate's own data. */
  lemma PlanIsAPermutation(candidates: seq<Candidate>, dependencies: seq<DependencyEdge>, items: seq<PlanItem>)
    requires IsPlan(candidates, dependencies, items)
    ensures Sorted(PlanLe, items)
    ensures exists waves, draft ::
              && IsDraft(candidates, PrerequisitesOf(CandidateIds(candidates), dependencies), waves, draft)
              && multiset(items) == multiset(draft)
  {
    var prerequisites := PrerequisitesOf(CandidateIds(candidates), dependencies);
    var waves, draft :| IsDraft(candidates, prerequisites, waves, draft) && items == SortBy(PlanLe, draft);
    SortedDraft(draft);
  }

  lemma DraftedConsumer(
    candidates: seq<Candidate>, dependencies: seq<DependencyEdge>, waves: Waves, draft: seq<PlanItem>,
    consumer: PlanItem, prerequisite: PlanItem)
    requires IsDraft(candidates, PrerequisitesOf(CandidateIds(candidates), dependencies), waves, draft)
    requires consumer in draft && prerequisite in draft
    requires DependencyEdge(consumer.artefactId, prerequisite.artefactId) in dependencies
    ensures prerequisite.migrationWave < consumer.migrationWave
    ensures prerequisite.artefactId in consumer.dependencyIds
  {
    var ids := CandidateIds(candidates);
    var prerequisites := PrerequisitesOf(ids, dependencies);
    var k :| 0 <= k < |draft| && draft[k] == consumer;
    var m :| 0 <= m < |draft| && draft[m] == prerequisite;
    assert IsItemFor(draft[k], candidates[k], prerequisites, waves);
    assert IsItemFor(draft[m], candidates[m], prerequisites, waves);
    assert IsLayer(prerequisites, waves, consumer.artefactId);
    var edge := DependencyEdge(consumer.artefactId, prerequisite.artefactId);
    assert edge.targetId in TargetsOf(ids, dependencies, consumer.artefactId);
  }

  lemma EarlierWaveComesFirst(items: seq<PlanItem>, later: nat, earlier: nat)
    requires Sorted(PlanLe, items)
    requires later < |items| && earlier < |items|
    requires items[earlier].migrationWave < items[later].migrationWave
    ensures earlier < later
  {
    assert !PlanLe(items[later], items[earlier]);
  }

  /** In the sorted plan every prerequisite stands before each of its consumers. */
  lemma PrerequisitesComeFirst(
    candidates: seq<Candidate>, dependencies: seq<DependencyEdge>, items: seq<PlanItem>, consumer: nat, prerequisite: nat)
    requires IsPlan(candidates, dependencies, items)
    requires consumer < |items| && prerequisite < |items|
    requires DependencyEdge(items[consumer].artefactId, items[prerequisite].artefactId) in dependencies
    ensures prerequisite < consumer
    ensures items[prerequisite].migrationWave < items[consumer].migrationWave
    ensures items[prerequisite].artefactId in items[consumer].dependencyIds
  {
    var waves, draft :|
      && IsDraft(candidates, PrerequisitesOf(CandidateIds(candidates), dependencies), waves, draft)
      && items == SortBy(PlanLe, draft);
    SortedDraft(draft);
    DraftedConsumer(candidates, dependencies, waves, draft, items[consumer], items[prerequisite]);
    EarlierWaveComesFirst(items, consumer, prerequisite);
  }
}
