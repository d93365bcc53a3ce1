/** Business context of an artefact, with the tier that supplied each field. */
module Contexts {
  import opened Wrappers
  import opened Enums

  type Id = string

  datatype Provenance = Provenance(tier: ProvenanceTier, sourceDetail: Option<string>)

  datatype RetentionEvidence = RetentionEvidence(
    source: EvidenceSource,
    dataCategory: string,
    lifetimeYears: nat)

  datatype ArtefactContext = ArtefactContext(
    artefactId: Id,
    businessCriticality: BusinessCriticality,
    dataClassification: DataClassification,
    exposure: ExposureLevel,
    dataCategory: Option<string>,
    dataLifetimeYears: Option<nat>,
    migrationTimeYears: Option<real>,
    retentionEvidence: seq<RetentionEvidence>,
    provenance: map<string, Provenance>)
  {
    /** The tier of a field, `unknown` when the field was never resolved. */
    function TierOf(field: string): ProvenanceTier {
      if field in provenance then provenance[field].tier else ProvenanceTier.Unknown
    }
  }

  /** An edge of the dependency graph: application -> library -> algorithm. */
  datatype DependencyEdge = DependencyEdge(sourceId: Id, targetId: Id)

  /** A non-empty walk along the edges. */
  ghost predicate IsPath(edges: seq<DependencyEdge>, path: seq<Id>) {
    path != [] && (|path| == 1 || (DependencyEdge(path[0], path[1]) in edges && IsPath(edges, path[1..])))
  }

  /** `target` can be reached from `source` by one or more edges. */
  ghost predicate Reaches(edges: seq<DependencyEdge>, source: Id, target: Id) {
    exists path :: |path| >= 2 && IsPath(edges, path) && path[0] == source && path[|path| - 1] == target
  }

  lemma {:induction false} PathAppend(edges: seq<DependencyEdge>, path: seq<Id>, id: Id)
    requires IsPath(edges, path) && DependencyEdge(path[|path| - 1], id) in edges
    ensures IsPath(edges, path + [id])
  {
    if |path| == 1 {
      assert (path + [id])[1..] == [id];
      assert IsPath(edges, [id]);
    } else {
      PathAppend(edges, path[1..], id);
      assert (path + [id])[1..] == path[1..] + [id];
    }
  }

  lemma ReachesAlongEdge(edges: seq<DependencyEdge>, source: Id, middle: Id, target: Id)
    requires source == middle || Reaches(edges, source, middle)
    requires DependencyEdge(middle, target) in edges
    ensures Reaches(edges, source, target)
  {
    var prefix := [source];
    if source != middle {
      prefix :| |prefix| >= 2 && IsPath(edges, prefix) && prefix[0] == source && prefix[|prefix| - 1] == middle;
    }
    PathAppend(edges, prefix, target);
    var path := prefix + [target];
    assert path[0] == source && path[|path| - 1] == target;
  }
}
