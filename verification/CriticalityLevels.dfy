/** Inheritance level by level, without ranks or worklists. */
module CriticalityLevels {
  import opened Wrappers
  import opened Enums
  import opened Contexts
  import opened Criticality

  /** What is known of a node: an application's criticality where it has one, else an artefact's own. */
  function Known(
    supplied: map<Id, ArtefactContext>, applications: map<Id, BusinessCriticality>, id: Id): BusinessCriticality
  {
    if id in applications && applications[id] != BusinessCriticality.Unknown then applications[id]
    else if id in supplied then supplied[id].businessCriticality
    else BusinessCriticality.Unknown
  }

  /** Some node known to be of the level leads to `id` by one or more edges. */
  ghost predicate IsReachedBy(
    edges: seq<DependencyEdge>, supplied: map<Id, ArtefactContext>, applications: map<Id, BusinessCriticality>, id: Id,
    level: BusinessCriticality)
  {
    exists s :: Known(supplied, applications, s) == level && Reaches(edges, s, id)
  }

  lemma SeedsAreTheKnown(supplied: map<Id, ArtefactContext>, applications: map<Id, BusinessCriticality>, id: Id)
    ensures var seeds := SeedsOf(supplied, applications);
            && (id in seeds <==> Known(supplied, applications, id) != BusinessCriticality.Unknown)
            && (id in seeds ==> seeds[id] == Known(supplied, applications, id))
  {}

  lemma LevelIsBelowBest(
    edges: seq<DependencyEdge>, supplied: map<Id, ArtefactContext>, applications: map<Id, BusinessCriticality>, id: Id,
    level: BusinessCriticality, best: nat)
    requires IsBestReaching(edges, SeedsOf(supplied, applications), id, best)
    requires level != BusinessCriticality.Unknown
    ensures IsReachedBy(edges, supplied, applications, id, level) ==> Rank(level) <= best
    ensures Rank(level) == best ==> IsReachedBy(edges, supplied, applications, id, level)
  {
    var seeds := SeedsOf(supplied, applications);
    if IsReachedBy(edges, supplied, applications, id, level) {
      var s :| Known(supplied, applications, s) == level && Reaches(edges, s, id);
      SeedsAreTheKnown(supplied, applications, s);
    }
    if Rank(level) == best {
      var s :| s in seeds && Reaches(edges, s, id) && Rank(seeds[s]) == best;
      SeedsAreTheKnown(supplied, applications, s);
      RankIsInjective(seeds[s], level);
    }
  }

  /**
   An artefact of unknown criticality becomes critical if anything critical leads to it, else high if anything high does,
   and so on down; it stays unknown if nothing known leads to it.
   */
  lemma InheritsTheHighestLevel(
    contexts: seq<ArtefactContext>, edges: seq<DependencyEdge>, applications: map<Id, BusinessCriticality>,
    resolved: map<Id, ArtefactContext>, id: Id)
    requires IsEnrichmentOfAll(edges, SeedsOf(Supplied(contexts), applications), Supplied(contexts), resolved)
    requires id in Supplied(contexts) && id !in applications
    requires Supplied(contexts)[id].businessCriticality == BusinessCriticality.Unknown
    ensures var supplied := Supplied(contexts);
            resolved[id].businessCriticality ==
            if IsReachedBy(edges, supplied, applications, id, BusinessCriticality.Critical) then BusinessCriticality.Critical
            else if IsReachedBy(edges, supplied, applications, id, BusinessCriticality.High) then BusinessCriticality.High
            else if IsReachedBy(edges, supplied, applications, id, BusinessCriticality.Medium) then BusinessCriticality.Medium
            else if IsReachedBy(edges, supplied, applications, id, BusinessCriticality.Low) then BusinessCriticality.Low
            else BusinessCriticality.Unknown
  {
    var supplied := Supplied(contexts);
    var best := BestReachingExists(edges, SeedsOf(supplied, applications), id);
    InheritedMaximum(contexts, edges, applications, resolved, id, best);
    LevelIsBelowBest(edges, supplied, applications, id, BusinessCriticality.Critical, best);
    LevelIsBelowBest(edges, supplied, applications, id, BusinessCriticality.High, best);
    LevelIsBelowBest(edges, supplied, applications, id, BusinessCriticality.Medium, best);
    LevelIsBelowBest(edges, supplied, applications, id, BusinessCriticality.Low, best);
  }

  /** The source's record of an inherited value: the organisation's preset, and the root it came from. */
  function InheritedFrom(root: Id): Provenance {
    Provenance(OrgPreset, Some("inherited from dependency root " + root))
  }

  /** Every other field and its provenance. */
  ghost predicate DiffersInCriticalityOnly(before: ArtefactContext, after: ArtefactContext) {
    && after == before.(businessCriticality := after.businessCriticality, provenance := after.provenance)
    && "business_criticality" in after.provenance
    && after.provenance == before.provenance["business_criticality" := after.provenance["business_criticality"]]
  }

  /**
   A value that was supplied stays, and so does everything else of a context; a value that was inherited names a root that
   is known to be of exactly that level and leads to the artefact.
   */
  lemma InheritanceIsExplained(
    contexts: seq<ArtefactContext>, edges: seq<DependencyEdge>, applications: map<Id, BusinessCriticality>,
    resolved: map<Id, ArtefactContext>, id: Id)
    requires IsEnrichmentOfAll(edges, SeedsOf(Supplied(contexts), applications), Supplied(contexts), resolved)
    requires id in Supplied(contexts)
    ensures id in resolved
    ensures var before, after := Supplied(contexts)[id], resolved[id];
            || after == before
            || (&& before.businessCriticality == BusinessCriticality.Unknown
                && DiffersInCriticalityOnly(before, after)
                && exists root ::
                     && Known(Supplied(contexts), applications, root) == after.businessCriticality
                     && Reaches(edges, root, id)
                     && after.provenance["business_criticality"] == InheritedFrom(root))
  {
    var supplied := Supplied(contexts);
    var seeds := SeedsOf(supplied, applications);
    SuppliedIsKeyedById(contexts);
    assert IsEnrichment(edges, seeds, supplied[id], resolved[id]);
    if resolved[id] != supplied[id] {
      var best: nat :| Takes(edges, seeds, supplied[id], resolved[id], best);
      var root :|
        && root in seeds && Reaches(edges, root, id) && Rank(seeds[root]) == best
        && resolved[id] == Inheriting(supplied[id], seeds[root], root);
      SeedsAreTheKnown(supplied, applications, root);
      assert resolved[id].provenance["business_criticality"] == InheritedFrom(root);
    }
  }

  /** Of several contexts for one artefact the last is the one that counts. */
  lemma {:induction false} LastContextCounts(contexts: seq<ArtefactContext>, i: nat)
    requires i < |contexts| && forall j :: i < j < |contexts| ==> contexts[j].artefactId != contexts[i].artefactId
    ensures contexts[i].artefactId in Supplied(contexts) && Supplied(contexts)[contexts[i].artefactId] == contexts[i]
  {
    if i < |contexts| - 1 {
      LastContextCounts(contexts[..|contexts| - 1], i);
    }
  }

  lemma {:induction false} OnlyContextsAreSupplied(contexts: seq<ArtefactContext>, id: Id)
    requires forall c :: c in contexts ==> c.artefactId != id
    ensures id !in Supplied(contexts)
  {
    if contexts != [] {
      OnlyContextsAreSupplied(contexts[..|contexts| - 1], id);
    }
  }

  /** What leads where: every edge does, in its direction; so do two ways in a row; and every way begins with an edge. */
  lemma WaysFollowTheEdges(edges: seq<DependencyEdge>, a: Id, b: Id, c: Id)
    ensures DependencyEdge(a, b) in edges ==> Reaches(edges, a, b)
    ensures Reaches(edges, a, b) && Reaches(edges, b, c) ==> Reaches(edges, a, c)
    ensures Reaches(edges, a, c) ==>
              exists e :: e in edges && e.sourceId == a && (e.targetId == c || Reaches(edges, e.targetId, c))
  {
    if DependencyEdge(a, b) in edges {
      ReachesAlongEdge(edges, a, a, b);
    }
    if Reaches(edges, a, b) && Reaches(edges, b, c) {
      var path :| |path| >= 2 && IsPath(edges, path) && path[0] == b && path[|path| - 1] == c;
      WayAlongPath(edges, a, path);
    }
    if Reaches(edges, a, c) {
      var path :| |path| >= 2 && IsPath(edges, path) && path[0] == a && path[|path| - 1] == c;
      var rest := path[1..];
      assert IsPath(edges, rest) && rest[|rest| - 1] == c;
      assert |rest| >= 2 ==> Reaches(edges, rest[0], c);
      assert DependencyEdge(a, rest[0]) in edges;
    }
  }

  lemma {:induction false} WayAlongPath(edges: seq<DependencyEdge>, a: Id, path: seq<Id>)
    requires IsPath(edges, path) && Reaches(edges, a, path[0])
    ensures Reaches(edges, a, path[|path| - 1])
  {
    if |path| > 1 {
      ReachesAlongEdge(edges, a, path[0], path[1]);
      WayAlongPath(edges, a, path[1..]);
    }
  }
}
