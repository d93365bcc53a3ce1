/**
 Inheritance of business criticality along the dependency graph
 (backend/app/engines/context_engine.py).

 Known artefacts and applications seed a FIFO worklist; every value pushed along an edge
 carries the root it came from.  Entries may be stale: the claim on a node may have been
 raised again after the entry was queued.
 */
module Criticality {
  import opened Wrappers
  import opened Enums
  import opened Contexts

  function Rank(c: BusinessCriticality): nat {
    match c
    case Critical => 4
    case High => 3
    case Medium => 2
    case Low => 1
    case Unknown => 0
  }

  lemma RankIsInjective(a: BusinessCriticality, b: BusinessCriticality)
    requires Rank(a) == Rank(b)
    ensures a == b
  {}

  /** The best value known for a node, and the seed it was inherited from. */
  datatype Claim = Claim(criticality: BusinessCriticality, root: Id)

  type Claims = map<Id, Claim>
  type Seeds = map<Id, BusinessCriticality>

  /** `{context.artefact_id: context for context in contexts}`: a later duplicate wins. */
  function Supplied(contexts: seq<ArtefactContext>): map<Id, ArtefactContext> {
    if contexts == [] then map[]
    else
      var last := contexts[|contexts| - 1];
      Supplied(contexts[..|contexts| - 1])[last.artefactId := last]
  }

  /** The roots of inheritance.  An application overrides an artefact of the same id. */
  function SeedsOf(supplied: map<Id, ArtefactContext>, applications: map<Id, BusinessCriticality>): Seeds {
    (map id | id in supplied && supplied[id].businessCriticality != BusinessCriticality.Unknown
            :: supplied[id].businessCriticality)
    + (map id | id in applications && applications[id] != BusinessCriticality.Unknown :: applications[id])
  }

  function SeedRank(seeds: Seeds, id: Id): nat {
    if id in seeds then Rank(seeds[id]) else 0
  }

  // ----- specification -----

  /** `best` is the highest rank of a seed that reaches `id`, 0 when none does. */
  ghost predicate IsBestReaching(edges: seq<DependencyEdge>, seeds: Seeds, id: Id, best: nat) {
    && (forall s :: s in seeds && Reaches(edges, s, id) ==> Rank(seeds[s]) <= best)
    && (best != 0 ==> exists s :: s in seeds && Reaches(edges, s, id) && Rank(seeds[s]) == best)
  }

  /** `context` with a criticality inherited from `root`, and the provenance that records it. */
  function Inheriting(context: ArtefactContext, criticality: BusinessCriticality, root: Id): ArtefactContext {
    context.(businessCriticality := criticality,
             provenance := context.provenance[
               "business_criticality" :=
                 Provenance(ProvenanceTier.OrgPreset, Some("inherited from dependency root " + root))])
  }

  /**
   What an unknown context becomes when `best` is the best rank that reaches it: it takes that value, provided
   the value beats a seed carried by the very same id (an application that shares its id with the artefact).
   */
  ghost predicate Takes(
    edges: seq<DependencyEdge>, seeds: Seeds, before: ArtefactContext, after: ArtefactContext, best: nat)
  {
    var id := before.artefactId;
    && IsBestReaching(edges, seeds, id, best)
    && if best <= SeedRank(seeds, id) then after == before
       else exists root ::
           && root in seeds && Reaches(edges, root, id) && Rank(seeds[root]) == best
           && after == Inheriting(before, seeds[root], root)
  }

  /** What one context becomes.  A supplied value is never touched. */
  ghost predicate IsEnrichment(edges: seq<DependencyEdge>, seeds: Seeds, before: ArtefactContext, after: ArtefactContext) {
    if before.businessCriticality != BusinessCriticality.Unknown then after == before
    else exists best: nat :: Takes(edges, seeds, before, after, best)
  }

  lemma BestReachingExists(edges: seq<DependencyEdge>, seeds: Seeds, id: Id) returns (best: nat)
    ensures IsBestReaching(edges, seeds, id, best)
  {
    best := 4;
    while best > 0 && !exists s :: s in seeds && Reaches(edges, s, id) && Rank(seeds[s]) == best
      invariant forall s :: s in seeds && Reaches(edges, s, id) ==> Rank(seeds[s]) <= best
    {
      best := best - 1;
    }
  }

  // ----- worklist invariants -----

  /** A relation between nodes; the loop only needs that it is closed under taking one more edge. */
  type Relation = iset<(Id, Id)>

  ghost function Reachability(edges: seq<DependencyEdge>): Relation {
    iset source: Id, target: Id | Reaches(edges, source, target) :: (source, target)
  }

  function ClaimRank(claims: Claims, id: Id): int {
    if id in claims then Rank(claims[id].criticality) else -1
  }

  /** The claim's root is a seed of exactly that criticality, and the node or something reaching it. */
  ghost predicate IsSound(reach: Relation, seeds: Seeds, id: Id, claim: Claim) {
    && claim.root in seeds
    && seeds[claim.root] == claim.criticality
    && (claim.root == id || (claim.root, id) in reach)
  }

  /** Nothing more can flow out of `id`. */
  ghost predicate IsSettled(edges: seq<DependencyEdge>, claims: Claims, id: Id) {
    forall v :: DependencyEdge(id, v) in edges ==> ClaimRank(claims, v) >= ClaimRank(claims, id)
  }

  ghost predicate SeedsAreKnown(seeds: Seeds) {
    forall id :: id in seeds ==> seeds[id] != BusinessCriticality.Unknown
  }

  ghost predicate ClaimsAreSound(reach: Relation, seeds: Seeds, claims: Claims) {
    forall id :: id in claims ==> IsSound(reach, seeds, id, claims[id])
  }

  ghost predicate ClaimsCoverSeeds(seeds: Seeds, claims: Claims) {
    forall id {:trigger ClaimRank(claims, id)} :: id in seeds ==> ClaimRank(claims, id) >= Rank(seeds[id])
  }

  ghost predicate QueueIsSound(reach: Relation, seeds: Seeds, claims: Claims, queue: seq<(Id, Claim)>) {
    forall e :: e in queue ==>
                  && e.0 in claims
                  && IsSound(reach, seeds, e.0, e.1)
                  && Rank(e.1.criticality) <= ClaimRank(claims, e.0)
  }

  /** `inherited` holds the claim on `id` exactly when that claim beats the node's own seed. */
  ghost predicate AgreesOn(reach: Relation, seeds: Seeds, claims: Claims, inherited: Claims, id: Id) {
    if id in inherited
    then
      && id in claims
      && inherited[id] == claims[id]
      && ClaimRank(claims, id) > SeedRank(seeds, id)
      && (claims[id].root, id) in reach
    else id in claims ==> id in seeds && claims[id] == Claim(seeds[id], id)
  }

  ghost predicate InheritedAgrees(reach: Relation, seeds: Seeds, claims: Claims, inherited: Claims) {
    forall id {:trigger AgreesOn(reach, seeds, claims, inherited, id)} :: AgreesOn(reach, seeds, claims, inherited, id)
  }

  // ----- termination: total rank deficit of the edge targets -----

  ghost function Deficit(edges: seq<DependencyEdge>, claims: Claims): nat {
    if edges == [] then 0
    else 4 - ClaimRank(claims, edges[0].targetId) + Deficit(edges[1..], claims)
  }

  lemma {:induction false} RaisingLowersDeficit(edges: seq<DependencyEdge>, claims: Claims, id: Id, claim: Claim)
    requires ClaimRank(claims, id) < Rank(claim.criticality)
    ensures Deficit(edges, claims[id := claim]) <= Deficit(edges, claims)
    ensures (exists e :: e in edges && e.targetId == id) ==>
              Deficit(edges, claims[id := claim]) < Deficit(edges, claims)
  {
    if edges != [] {
      RaisingLowersDeficit(edges[1..], claims, id, claim);
      assert edges == [edges[0]] + edges[1..];
    }
  }

  // ----- optimality once nothing is pending -----

  lemma {:induction false} ClaimsGrowAlongPath(edges: seq<DependencyEdge>, claims: Claims, path: seq<Id>)
    requires IsPath(edges, path) && path[0] in claims
    requires forall id :: id in claims ==> IsSettled(edges, claims, id)
    ensures path[|path| - 1] in claims
    ensures ClaimRank(claims, path[|path| - 1]) >= ClaimRank(claims, path[0])
  {
    if |path| > 1 {
      assert DependencyEdge(path[0], path[1]) in edges;
      assert IsSettled(edges, claims, path[0]);
      ClaimsGrowAlongPath(edges, claims, path[1..]);
    }
  }

  /** With every node settled, the claim on a node is at least any seed that reaches it. */
  lemma SettledClaimsAreBest(edges: seq<DependencyEdge>, seeds: Seeds, claims: Claims, source: Id, id: Id)
    requires ClaimsCoverSeeds(seeds, claims)
    requires forall u :: u in claims ==> IsSettled(edges, claims, u)
    requires source in seeds && Reaches(edges, source, id)
    ensures id in claims && Rank(seeds[source]) <= ClaimRank(claims, id)
  {
    var path :| |path| >= 2 && IsPath(edges, path) && path[0] == source && path[|path| - 1] == id;
    assert ClaimRank(claims, source) >= Rank(seeds[source]);
    ClaimsGrowAlongPath(edges, claims, path);
  }

  // ----- the worklist -----

  type Graph = map<Id, seq<Id>>

  function Successors(graph: Graph, id: Id): seq<Id> {
    if id in graph then graph[id] else []
  }

  ghost predicate IsGraphOf(graph: Graph, edges: seq<DependencyEdge>) {
    forall u, v :: v in Successors(graph, u) <==> DependencyEdge(u, v) in edges
  }

  method BuildGraph(edges: seq<DependencyEdge>) returns (graph: Graph)
    ensures IsGraphOf(graph, edges)
  {
    graph := map[];
    for i := 0 to |edges|
      invariant IsGraphOf(graph, edges[..i])
    {
      var e := edges[i];
      assert edges[..i + 1] == edges[..i] + [e];
      graph := graph[e.sourceId := Successors(graph, e.sourceId) + [e.targetId]];
    }
    assert edges[..|edges|] == edges;
  }

  /** Every node is settled, or its current claim is still queued. */
  ghost predicate PendingOrSettled(edges: seq<DependencyEdge>, claims: Claims, queue: seq<(Id, Claim)>) {
    forall u :: u in claims ==> (u, claims[u]) in queue || IsSettled(edges, claims, u)
  }

  ghost predicate WorklistInvariant(
    reach: Relation, seeds: Seeds, claims: Claims, inherited: Claims, queue: seq<(Id, Claim)>)
  {
    && SeedsAreKnown(seeds)
    && ClaimsAreSound(reach, seeds, claims)
    && QueueIsSound(reach, seeds, claims, queue)
    && InheritedAgrees(reach, seeds, claims, inherited)
    && ClaimsCoverSeeds(seeds, claims)
  }

  /** What the worklist leaves behind for one node, stated without the worklist. */
  ghost predicate InheritsBest(edges: seq<DependencyEdge>, seeds: Seeds, inherited: Claims, id: Id) {
    if id in inherited
    then
      && Reaches(edges, inherited[id].root, id)
      && inherited[id].root in seeds
      && seeds[inherited[id].root] == inherited[id].criticality
      && Rank(inherited[id].criticality) > SeedRank(seeds, id)
      && IsBestReaching(edges, seeds, id, Rank(inherited[id].criticality))
    else
      forall s :: s in seeds && Reaches(edges, s, id) ==> Rank(seeds[s]) <= SeedRank(seeds, id)
  }

  ghost predicate IsInheritance(edges: seq<DependencyEdge>, seeds: Seeds, inherited: Claims) {
    forall id {:trigger InheritsBest(edges, seeds, inherited, id)} :: InheritsBest(edges, seeds, inherited, id)
  }

  /** As `PendingOrSettled`, but `source` is being relaxed with `claim` right now. */
  ghost predicate PendingBut(
    edges: seq<DependencyEdge>, claims: Claims, queue: seq<(Id, Claim)>, source: Id, claim: Claim)
  {
    forall u {:trigger HasNoLostUpdate(edges, claims, queue, source, claim, u)} ::
      HasNoLostUpdate(edges, claims, queue, source, claim, u)
  }

  ghost predicate HasNoLostUpdate(
    edges: seq<DependencyEdge>, claims: Claims, queue: seq<(Id, Claim)>, source: Id, claim: Claim, u: Id)
  {
    u in claims ==> (u, claims[u]) in queue || IsSettled(edges, claims, u) || (u == source && claims[u] == claim)
  }

  lemma RaisingKeepsInvariant(
    reach: Relation, seeds: Seeds, source: Id, claim: Claim, target: Id,
    claims: Claims, inherited: Claims, queue: seq<(Id, Claim)>)
    requires WorklistInvariant(reach, seeds, claims, inherited, queue)
    requires IsSound(reach, seeds, source, claim)
    requires (claim.root, target) in reach
    requires ClaimRank(claims, target) < Rank(claim.criticality)
    ensures WorklistInvariant(reach, seeds, claims[target := claim], inherited[target := claim], queue + [(target, claim)])
  {
    var claims', inherited', queue' := claims[target := claim], inherited[target := claim], queue + [(target, claim)];
    forall id | id in seeds ensures ClaimRank(claims', id) >= Rank(seeds[id]) {
      assert ClaimRank(claims, id) >= Rank(seeds[id]);
    }
    forall id ensures AgreesOn(reach, seeds, claims', inherited', id) {
      assert AgreesOn(reach, seeds, claims, inherited, id);
      if id == target {
        assert id in seeds ==> ClaimRank(claims, id) >= Rank(seeds[id]);
        assert seeds[claim.root] != BusinessCriticality.Unknown;
      }
    }
    forall e | e in queue'
      ensures e.0 in claims' && IsSound(reach, seeds, e.0, e.1) && Rank(e.1.criticality) <= ClaimRank(claims', e.0)
    {
      assert e in queue || e == (target, claim);
    }
  }

  lemma RaisingKeepsPending(
    edges: seq<DependencyEdge>, source: Id, claim: Claim, target: Id, claims: Claims, queue: seq<(Id, Claim)>)
    requires PendingBut(edges, claims, queue, source, claim)
    requires target != source
    requires ClaimRank(claims, target) < Rank(claim.criticality)
    ensures PendingBut(edges, claims[target := claim], queue + [(target, claim)], source, claim)
  {
    var claims', queue' := claims[target := claim], queue + [(target, claim)];
    forall u ensures HasNoLostUpdate(edges, claims', queue', source, claim, u) {
      assert HasNoLostUpdate(edges, claims, queue, source, claim, u);
      if u == target {
        assert queue'[|queue|] == (target, claim);
      } else if u in claims && IsSettled(edges, claims, u) {
        assert ClaimRank(claims', u) == ClaimRank(claims, u);
      }
    }
  }

  lemma RelaxedIsSettled(
    edges: seq<DependencyEdge>, claims: Claims, queue: seq<(Id, Claim)>, source: Id, claim: Claim, successors: seq<Id>)
    requires PendingBut(edges, claims, queue, source, claim)
    requires forall v :: v in successors <==> DependencyEdge(source, v) in edges
    requires forall j :: 0 <= j < |successors| ==> ClaimRank(claims, successors[j]) >= Rank(claim.criticality)
    ensures PendingOrSettled(edges, claims, queue)
  {
    forall u | u in claims ensures (u, claims[u]) in queue || IsSettled(edges, claims, u) {
      assert HasNoLostUpdate(edges, claims, queue, source, claim, u);
    }
  }

  /** Offers one claim to every successor of a node. */
  method Relax(
    ghost edges: seq<DependencyEdge>, ghost reach: Relation, ghost seeds: Seeds, source: Id, claim: Claim, successors: seq<Id>,
    claims0: Claims, inherited0: Claims, queue0: seq<(Id, Claim)>)
    returns (claims: Claims, inherited: Claims, queue: seq<(Id, Claim)>)
    requires WorklistInvariant(reach, seeds, claims0, inherited0, queue0)
    requires IsSound(reach, seeds, source, claim)
    requires ClaimRank(claims0, source) >= Rank(claim.criticality)
    requires PendingBut(edges, claims0, queue0, source, claim)
    requires forall v :: v in successors <==> DependencyEdge(source, v) in edges
    requires forall v :: v in successors ==> (claim.root, v) in reach
    ensures WorklistInvariant(reach, seeds, claims, inherited, queue)
    ensures PendingOrSettled(edges, claims, queue)
    ensures Deficit(edges, claims) < Deficit(edges, claims0) || (claims == claims0 && queue == queue0)
  {
    claims, inherited, queue := claims0, inherited0, queue0;
    for k := 0 to |successors|
      invariant WorklistInvariant(reach, seeds, claims, inherited, queue)
      invariant ClaimRank(claims, source) == ClaimRank(claims0, source)
      invariant forall j :: 0 <= j < k ==> ClaimRank(claims, successors[j]) >= Rank(claim.criticality)
      invariant PendingBut(edges, claims, queue, source, claim)
      invariant Deficit(edges, claims) < Deficit(edges, claims0) || (claims == claims0 && queue == queue0)
    {
      var target := successors[k];
      var existingRank := if target in claims then Rank(claims[target].criticality) else -1;
      if existingRank < Rank(claim.criticality) {
        RaisingKeepsInvariant(reach, seeds, source, claim, target, claims, inherited, queue);
        RaisingKeepsPending(edges, source, claim, target, claims, queue);
        RaisingLowersDeficit(edges, claims, target, claim);
        assert DependencyEdge(source, target).targetId == target;
        claims := claims[target := claim];
        inherited := inherited[target := claim];
        queue := queue + [(target, claim)];
      }
    }
    RelaxedIsSettled(edges, claims, queue, source, claim, successors);
  }

  lemma PopLeavesPending(
    edges: seq<DependencyEdge>, reach: Relation, seeds: Seeds, claims: Claims, inherited: Claims, queue: seq<(Id, Claim)>)
    requires queue != []
    requires WorklistInvariant(reach, seeds, claims, inherited, queue)
    requires PendingOrSettled(edges, claims, queue)
    ensures WorklistInvariant(reach, seeds, claims, inherited, queue[1..])
    ensures PendingBut(edges, claims, queue[1..], queue[0].0, queue[0].1)
    ensures IsSound(reach, seeds, queue[0].0, queue[0].1)
    ensures ClaimRank(claims, queue[0].0) >= Rank(queue[0].1.criticality)
  {
    assert queue[0] in queue;
    assert forall e :: e in queue <==> e in queue[1..] || e == queue[0];
    assert forall u :: u in claims ==> HasNoLostUpdate(edges, claims, queue[1..], queue[0].0, queue[0].1, u);
  }

  lemma InheritanceWhenSettled(edges: seq<DependencyEdge>, seeds: Seeds, claims: Claims, inherited: Claims)
    requires WorklistInvariant(Reachability(edges), seeds, claims, inherited, [])
    requires forall u :: u in claims ==> IsSettled(edges, claims, u)
    ensures IsInheritance(edges, seeds, inherited)
  {
    forall id ensures InheritsBest(edges, seeds, inherited, id) {
      assert AgreesOn(Reachability(edges), seeds, claims, inherited, id);
      forall s | s in seeds && Reaches(edges, s, id) ensures Rank(seeds[s]) <= ClaimRank(claims, id) {
        SettledClaimsAreBest(edges, seeds, claims, s, id);
      }
      if id in claims {
        assert IsSound(Reachability(edges), seeds, id, claims[id]);
      }
    }
  }

  /** The `while queue` loop. */
  method Propagate(edges: seq<DependencyEdge>, seeds: Seeds, order: seq<Id>) returns (inherited: Claims)
    requires forall id :: id in order <==> id in seeds
    requires SeedsAreKnown(seeds)
    ensures IsInheritance(edges, seeds, inherited)
  {
    var graph := BuildGraph(edges);
    ghost var reach := Reachability(edges);
    var claims, queue := InitialQueue(reach, seeds, order);
    inherited := map[];
    while queue != []
      invariant WorklistInvariant(reach, seeds, claims, inherited, queue)
      invariant PendingOrSettled(edges, claims, queue)
      decreases Deficit(edges, claims), |queue|
    {
      var (source, claim) := queue[0];
      PopLeavesPending(edges, reach, seeds, claims, inherited, queue);
      RootReachesSuccessors(edges, claim.root, source, Successors(graph, source));
      claims, inherited, queue :=
        Relax(edges, reach, seeds, source, claim, Successors(graph, source), claims, inherited, queue[1..]);
    }
    InheritanceWhenSettled(edges, seeds, claims, inherited);
  }

  /** `deque(candidates.items())` */
  method InitialQueue(ghost reach: Relation, seeds: Seeds, order: seq<Id>)
    returns (claims: Claims, queue: seq<(Id, Claim)>)
    requires forall id :: id in order <==> id in seeds
    requires SeedsAreKnown(seeds)
    ensures WorklistInvariant(reach, seeds, claims, map[], queue)
    ensures forall u :: u in claims ==> (u, claims[u]) in queue
  {
    claims := map id | id in seeds :: Claim(seeds[id], id);
    queue := [];
    for i := 0 to |order|
      invariant forall e :: e in queue ==> e.0 in seeds && e.1 == Claim(seeds[e.0], e.0)
      invariant forall k :: 0 <= k < i ==> (order[k], Claim(seeds[order[k]], order[k])) in queue
    {
      queue := queue + [(order[i], Claim(seeds[order[i]], order[i]))];
    }
  }

  lemma RootReachesSuccessors(edges: seq<DependencyEdge>, root: Id, source: Id, successors: seq<Id>)
    requires root == source || (root, source) in Reachability(edges)
    requires forall v :: v in successors ==> DependencyEdge(source, v) in edges
    ensures forall v :: v in successors ==> (root, v) in Reachability(edges)
  {
    forall v | v in successors ensures (root, v) in Reachability(edges) {
      ReachesAlongEdge(edges, root, source, v);
    }
  }

  /** Writes an inherited value, with its provenance, into a context that has none of its own. */
  method Enrich(ghost edges: seq<DependencyEdge>, ghost seeds: Seeds, inherited: Claims, context: ArtefactContext)
    returns (after: ArtefactContext)
    requires IsInheritance(edges, seeds, inherited)
    ensures IsEnrichment(edges, seeds, context, after)
    ensures after.artefactId == context.artefactId
  {
    ghost var id := context.artefactId;
    assert InheritsBest(edges, seeds, inherited, id);
    if context.businessCriticality != BusinessCriticality.Unknown || context.artefactId !in inherited {
      ghost var best := BestReachingExists(edges, seeds, id);
      assert context.businessCriticality == BusinessCriticality.Unknown ==> Takes(edges, seeds, context, context, best);
      return context;
    }
    var Claim(criticality, root) := inherited[context.artefactId];
    after := Inheriting(context, criticality, root);
    assert Takes(edges, seeds, context, after, Rank(criticality));
  }

  /** `resolved` enriches each supplied context, key by key. */
  ghost predicate IsEnrichmentOfAll(
    edges: seq<DependencyEdge>, seeds: Seeds, supplied: map<Id, ArtefactContext>, resolved: map<Id, ArtefactContext>)
  {
    && resolved.Keys == supplied.Keys
    && forall id {:trigger IsEnrichment(edges, seeds, supplied[id], resolved[id])} ::
         id in supplied ==> IsEnrichment(edges, seeds, supplied[id], resolved[id])
  }

  method EnrichAll(
    ghost edges: seq<DependencyEdge>, ghost seeds: Seeds, inherited: Claims, supplied: map<Id, ArtefactContext>)
    returns (resolved: map<Id, ArtefactContext>)
    requires IsInheritance(edges, seeds, inherited)
    ensures IsEnrichmentOfAll(edges, seeds, supplied, resolved)
  {
    resolved := supplied;
    var rest := supplied.Keys;
    while rest != {}
      invariant rest <= resolved.Keys == supplied.Keys
      invariant forall id {:trigger IsEnrichment(edges, seeds, supplied[id], resolved[id])} ::
                  id in supplied.Keys - rest ==> IsEnrichment(edges, seeds, supplied[id], resolved[id])
      decreases rest
    {
      var id :| id in rest;
      var context := Enrich(edges, seeds, inherited, supplied[id]);
      ghost var before := resolved;
      resolved := resolved[id := context];
      rest := rest - {id};
      assert forall v :: v in supplied && v != id ==> resolved[v] == before[v];
      forall v | v in supplied.Keys - rest ensures IsEnrichment(edges, seeds, supplied[v], resolved[v]) {
        assert v != id ==> IsEnrichment(edges, seeds, supplied[v], before[v]);
      }
    }
  }

  method InheritDependencyCriticality(
    contexts: seq<ArtefactContext>, edges: seq<DependencyEdge>, applications: map<Id, BusinessCriticality>)
    returns (resolved: map<Id, ArtefactContext>)
    ensures IsEnrichmentOfAll(edges, SeedsOf(Supplied(contexts), applications), Supplied(contexts), resolved)
  {
    var supplied: map<Id, ArtefactContext> := map[];
    for i := 0 to |contexts|
      invariant supplied == Supplied(contexts[..i])
    {
      assert contexts[..i + 1][..i] == contexts[..i];
      supplied := supplied[contexts[i].artefactId := contexts[i]];
    }
    assert contexts[..|contexts|] == contexts;
    var seeds := SeedsOf(supplied, applications);
    var order := AnyListing(seeds.Keys);
    var inherited := Propagate(edges, seeds, order);
    resolved := EnrichAll(edges, seeds, inherited, supplied);
  }

  /** The order in which a dictionary happens to iterate. */
  method AnyListing(ids: set<Id>) returns (order: seq<Id>)
    ensures forall id :: id in order <==> id in ids
  {
    order := [];
    var rest := ids;
    while rest != {}
      invariant rest <= ids
      invariant forall id :: id in order <==> id in ids - rest
      decreases rest
    {
      var id :| id in rest;
      order := order + [id];
      rest := rest - {id};
    }
  }

  // ----- what enrichment promises -----

  lemma BestIsUnique(edges: seq<DependencyEdge>, seeds: Seeds, id: Id, a: nat, b: nat)
    requires IsBestReaching(edges, seeds, id, a) && IsBestReaching(edges, seeds, id, b)
    ensures a == b
  {
    if a != 0 {
      var s :| s in seeds && Reaches(edges, s, id) && Rank(seeds[s]) == a;
    }
    if b != 0 {
      var s :| s in seeds && Reaches(edges, s, id) && Rank(seeds[s]) == b;
    }
  }

  /**
   An unknown artefact ends with the highest criticality that reaches it, exactly unless an application
   with the artefact's own id already carries at least that much.
   */
  lemma UnknownTakesTheMaximum(
    edges: seq<DependencyEdge>, seeds: Seeds, before: ArtefactContext, after: ArtefactContext, best: nat)
    requires before.businessCriticality == BusinessCriticality.Unknown
    requires IsEnrichment(edges, seeds, before, after)
    requires IsBestReaching(edges, seeds, before.artefactId, best)
    ensures Rank(after.businessCriticality) == best <==> best == 0 || best > SeedRank(seeds, before.artefactId)
    ensures before.artefactId !in seeds ==> Rank(after.businessCriticality) == best
  {
    var id := before.artefactId;
    var b: nat :| Takes(edges, seeds, before, after, b);
    BestIsUnique(edges, seeds, id, b, best);
  }

  /** Where the best that reaches an artefact does not beat its own id's seed, nothing is written at all. */
  lemma BlockedStaysUnknown(
    edges: seq<DependencyEdge>, seeds: Seeds, before: ArtefactContext, after: ArtefactContext, best: nat)
    requires before.businessCriticality == BusinessCriticality.Unknown
    requires IsEnrichment(edges, seeds, before, after)
    requires IsBestReaching(edges, seeds, before.artefactId, best) && best <= SeedRank(seeds, before.artefactId)
    ensures after == before
  {
    var b: nat :| Takes(edges, seeds, before, after, b);
    BestIsUnique(edges, seeds, before.artefactId, b, best);
  }

  lemma BlockedAlone(
    edges: seq<DependencyEdge>, seeds: Seeds, context: ArtefactContext, resolved: map<Id, ArtefactContext>, best: nat)
    requires context.businessCriticality == BusinessCriticality.Unknown
    requires IsEnrichmentOfAll(edges, seeds, map[context.artefactId := context], resolved)
    requires IsBestReaching(edges, seeds, context.artefactId, best) && best <= SeedRank(seeds, context.artefactId)
    ensures resolved == map[context.artefactId := context]
  {
    var id, supplied := context.artefactId, map[context.artefactId := context];
    assert id in supplied && IsEnrichment(edges, seeds, supplied[id], resolved[id]);
    BlockedStaysUnknown(edges, seeds, context, resolved[id], best);
  }

  const INTO_A: seq<DependencyEdge> := [DependencyEdge("r", "a")]

  /** The only edge leads from "r" to "a". */
  lemma OnlyRootReaches(source: Id)
    ensures Reaches(INTO_A, source, "a") <==> source == "r"
  {
    var path := ["r", "a"];
    assert IsPath(INTO_A, path[1..]) && DependencyEdge(path[0], path[1]) in INTO_A;
    assert IsPath(INTO_A, path);
  }

  const LOW_ROOT: Seeds := map["r" := BusinessCriticality.Low, "a" := BusinessCriticality.Critical]

  lemma BestIntoAIsLow()
    ensures IsBestReaching(INTO_A, LOW_ROOT, "a", Rank(BusinessCriticality.Low))
    ensures SeedRank(LOW_ROOT, "a") == Rank(BusinessCriticality.Critical)
  {
    forall s | s in LOW_ROOT && Reaches(INTO_A, s, "a") ensures Rank(LOW_ROOT[s]) <= 1 {
      OnlyRootReaches(s);
    }
    OnlyRootReaches("r");
    assert "r" in LOW_ROOT && Rank(LOW_ROOT["r"]) == 1;
  }

  lemma SeedsOfBlank(blank: ArtefactContext)
    requires blank.artefactId == "a" && blank.businessCriticality == BusinessCriticality.Unknown
    ensures Supplied([blank]) == map["a" := blank]
    ensures SeedsOf(Supplied([blank]), LOW_ROOT) == LOW_ROOT
  {
    var before := [blank][..0];
    assert before == [] && Supplied(before) == map[];
  }

  /**
   The promise fails on this input: a low root reaches an artefact of unknown criticality whose id a critical
   application shares.  The best that reaches it is low, yet it stays unknown.
   */
  lemma OwnApplicationBlocksInheritance(blank: ArtefactContext, resolved: map<Id, ArtefactContext>)
    requires blank.artefactId == "a" && blank.businessCriticality == BusinessCriticality.Unknown
    ensures IsBestReaching(INTO_A, SeedsOf(Supplied([blank]), LOW_ROOT), "a", Rank(BusinessCriticality.Low))
    ensures IsEnrichmentOfAll(INTO_A, SeedsOf(Supplied([blank]), LOW_ROOT), Supplied([blank]), resolved) ==>
              "a" in resolved && resolved["a"].businessCriticality == BusinessCriticality.Unknown
  {
    SeedsOfBlank(blank);
    BestIntoAIsLow();
    if IsEnrichmentOfAll(INTO_A, LOW_ROOT, Supplied([blank]), resolved) {
      BlockedAlone(INTO_A, LOW_ROOT, blank, resolved, 1);
    }
  }

  lemma {:induction false} SuppliedIsKeyedById(contexts: seq<ArtefactContext>)
    ensures forall id :: id in Supplied(contexts) ==> Supplied(contexts)[id].artefactId == id
  {
    if contexts != [] {
      SuppliedIsKeyedById(contexts[..|contexts| - 1]);
    }
  }

  /**
   With artefact and application ids disjoint, an artefact of unknown criticality ends with exactly the maximum
   over all known artefacts and applications that reach it by one or more edges, on any graph.
   */
  lemma InheritedMaximum(
    contexts: seq<ArtefactContext>, edges: seq<DependencyEdge>, applications: map<Id, BusinessCriticality>,
    resolved: map<Id, ArtefactContext>, id: Id, best: nat)
    requires IsEnrichmentOfAll(edges, SeedsOf(Supplied(contexts), applications), Supplied(contexts), resolved)
    requires id in Supplied(contexts) && id !in applications
    requires Supplied(contexts)[id].businessCriticality == BusinessCriticality.Unknown
    requires IsBestReaching(edges, SeedsOf(Supplied(contexts), applications), id, best)
    ensures Rank(resolved[id].businessCriticality) == best
  {
    var supplied := Supplied(contexts);
    var seeds := SeedsOf(supplied, applications);
    SuppliedIsKeyedById(contexts);
    assert IsEnrichment(edges, seeds, supplied[id], resolved[id]);
    UnknownTakesTheMaximum(edges, seeds, supplied[id], resolved[id], best);
  }

  lemma {:induction false} PathsDependOnTheEdgeSet(edges: seq<DependencyEdge>, edges': seq<DependencyEdge>, path: seq<Id>)
    requires forall e :: e in edges ==> e in edges'
    requires IsPath(edges, path)
    ensures IsPath(edges', path)
  {
    if |path| > 1 {
      PathsDependOnTheEdgeSet(edges, edges', path[1..]);
    }
  }

  lemma ReachesDependsOnTheEdgeSet(edges: seq<DependencyEdge>, edges': seq<DependencyEdge>, source: Id, target: Id)
    requires forall e :: e in edges ==> e in edges'
    requires Reaches(edges, source, target)
    ensures Reaches(edges', source, target)
  {
    var path :| |path| >= 2 && IsPath(edges, path) && path[0] == source && path[|path| - 1] == target;
    PathsDependOnTheEdgeSet(edges, edges', path);
  }

  lemma BestDependsOnTheEdgeSet(edges: seq<DependencyEdge>, edges': seq<DependencyEdge>, seeds: Seeds, id: Id, best: nat)
    requires forall e :: e in edges <==> e in edges'
    requires IsBestReaching(edges, seeds, id, best)
    ensures IsBestReaching(edges', seeds, id, best)
  {
    forall s | s in seeds && Reaches(edges', s, id) ensures Rank(seeds[s]) <= best {
      ReachesDependsOnTheEdgeSet(edges', edges, s, id);
    }
    if best != 0 {
      var s :| s in seeds && Reaches(edges, s, id) && Rank(seeds[s]) == best;
      ReachesDependsOnTheEdgeSet(edges, edges', s, id);
    }
  }

  /**
   The order and multiplicity of edges, and the order in which seeds are queued, never change a criticality:
   any two outcomes over the same edges and seeds agree.
   */
  lemma CriticalityIgnoresOrder(
    edges: seq<DependencyEdge>, edges': seq<DependencyEdge>, seeds: Seeds,
    before: ArtefactContext, after: ArtefactContext, after': ArtefactContext)
    requires forall e :: e in edges <==> e in edges'
    requires IsEnrichment(edges, seeds, before, after)
    requires IsEnrichment(edges', seeds, before, after')
    ensures after.businessCriticality == after'.businessCriticality
  {
    if before.businessCriticality == BusinessCriticality.Unknown {
      var id := before.artefactId;
      var best := BestReachingExists(edges, seeds, id);
      BestDependsOnTheEdgeSet(edges, edges', seeds, id, best);
      var b: nat :| Takes(edges, seeds, before, after, b);
      var b': nat :| Takes(edges', seeds, before, after', b');
      BestIsUnique(edges, seeds, id, b, best);
      BestIsUnique(edges', seeds, id, b', best);
      RankIsInjective(after.businessCriticality, after'.businessCriticality);
    }
  }
}
