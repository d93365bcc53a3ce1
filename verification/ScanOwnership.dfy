/**
 What becomes of a finished scan's artefacts.  Ingest moves rows between scans, so a later scan of the same target
 takes what it finds again, and a cache hit copies only what its source still owns.
 */
module ScanOwnership {
  import opened Wrappers
  import opened Enums
  import opened ScanModel
  import opened ScanInvariants
  import opened ScanRuns

  /** The ids a step ingests, if it completes an ingest. */
  ghost function IngestedBy(db: Db, step: Step): set<ArtefactId> {
    if step.Ingest? && step.w in db.workers && db.workers[step.w].phase.Responded? && IsLive(db, db.workers[step.w].scanId)
    then FindingIds(db.workers[step.w].phase.document.findings)
    else {}
  }

  /** The ids ingested by the steps from `i` up to, not including, `j`. */
  ghost function IngestedBetween(states: seq<Db>, steps: seq<Step>, i: nat, j: nat): set<ArtefactId>
    requires |states| == |steps| + 1 && i <= j <= |steps|
    decreases j - i
  {
    if i == j then {} else IngestedBetween(states, steps, i, j - 1) + IngestedBy(states[j - 1], steps[j - 1])
  }

  // ----- one step -----

  lemma DeleteTakesNothing(db: Db, other: ScanId, id: ScanId)
    requires id != other
    ensures Owned(AfterDelete(db, other).artefacts, id) == Owned(db.artefacts, id)
  {}

  lemma CloneTakesNothing(
    artefacts: map<ArtefactId, ArtefactRow>, source: ScanId, target: ScanId, names: map<ArtefactId, ArtefactId>, now: int,
    id: ScanId)
    requires NamesClones(artefacts, source, names)
    requires source != target && id != target && Owned(artefacts, target) == {}
    ensures Owned(Cloned(artefacts, source, target, names, now), id) == Owned(artefacts, id)
  {
    CloneIsOneToOne(artefacts, source, target, names, now);
    var after := Cloned(artefacts, source, target, names, now);
    forall a ensures a in Owned(after, id) <==> a in Owned(artefacts, id) {
      assert a in after && a !in artefacts ==> after[a].scanId == target;
    }
  }

  lemma BeginTakesNothing(
    db: Db, w: WorkerId, target: ScanId, hash: Option<string>, cached: Option<ScanId>, names: map<ArtefactId, ArtefactId>,
    now: int, id: ScanId)
    requires Invariant(db) && Enabled(db, Begin(w, target, hash, cached, names, now)) && IsOver(db, id)
    ensures Owned(AfterBegin(db, w, target, hash, cached, names, now).artefacts, id) == Owned(db.artefacts, id)
  {
    if IsLive(db, target) && cached.Some? {
      LiveScansOwnNothing(db, target);
      CloneTakesNothing(db.artefacts, cached.value, target, names, now, id);
    }
  }

  lemma IngestTakesTheIngested(db: Db, w: WorkerId, now: int, id: ScanId)
    requires Invariant(db) && Enabled(db, Ingest(w, now)) && IsOver(db, id)
    ensures Owned(AfterIngest(db, w, now).artefacts, id) == Owned(db.artefacts, id) - IngestedBy(db, Ingest(w, now))
  {
    if IsLive(db, db.workers[w].scanId) {
      IngestTakesExactlyTheFindings(db, w, now, id);
    }
  }

  lemma OthersTakeNothing(db: Db, step: Step)
    requires Enabled(db, step) && !step.Delete? && !step.Begin? && !step.Ingest?
    ensures Apply(db, step).artefacts == db.artefacts && IngestedBy(db, step) == {}
  {}

  /** A step takes from a finished scan exactly what it ingests. */
  lemma StepTakesTheIngested(db: Db, step: Step, id: ScanId)
    requires Invariant(db) && Enabled(db, step) && IsOver(db, id)
    requires id in Apply(db, step).scans
    ensures Owned(Apply(db, step).artefacts, id) == Owned(db.artefacts, id) - IngestedBy(db, step)
  {
    if step.Delete? {
      if step.id in db.scans {
        assert step.id != id;
        DeleteTakesNothing(db, step.id, id);
      }
    } else if step.Begin? {
      BeginTakesNothing(db, step.w, step.id, step.hash, step.cached, step.names, step.now, id);
    } else if step.Ingest? {
      IngestTakesTheIngested(db, step.w, step.now, id);
    } else {
      OthersTakeNothing(db, step);
    }
  }

  // ----- whole runs -----

  /**
   From the moment it is finished and until it is deleted, a scan owns exactly what it owned then, less what other scans
   have ingested since.
   */
  lemma {:induction false} OwnsWhatWasNotIngestedSince(states: seq<Db>, steps: seq<Step>, id: ScanId, i: nat, j: nat)
    requires IsRun(states, steps) && i <= j < |states|
    requires IsOver(states[i], id) && id in states[j].scans
    ensures Owned(states[j].artefacts, id) == Owned(states[i].artefacts, id) - IngestedBetween(states, steps, i, j)
    decreases j - i
  {
    if i < j {
      OverIsForever(states, steps, id, i, j - 1);
      if id !in states[j - 1].scans {
        GoneIsForever(states, steps, id, j - 1, j);
      }
      OwnsWhatWasNotIngestedSince(states, steps, id, i, j - 1);
      ReachableStatesAreSafe(states, steps, j - 1);
      StepTakesTheIngested(states[j - 1], steps[j - 1], id);
    }
  }

  /** An ingested scan owns, until it is deleted, exactly its findings that no other scan has ingested since. */
  lemma IngestedScanOwns(states: seq<Db>, steps: seq<Step>, k: nat, j: nat)
    requires IsRun(states, steps) && k < j < |states|
    requires steps[k].Ingest? && IsLive(states[k], states[k].workers[steps[k].w].scanId)
    requires states[k].workers[steps[k].w].scanId in states[j].scans
    ensures Owned(states[j].artefacts, states[k].workers[steps[k].w].scanId)
         == IngestedBy(states[k], steps[k]) - IngestedBetween(states, steps, k + 1, j)
  {
    var w, now := steps[k].w, steps[k].now;
    var id := states[k].workers[w].scanId;
    ReachableStatesAreSafe(states, steps, k);
    IngestTakesExactlyTheFindings(states[k], w, now, id + "'");
    GuardNeverFires(states[k], w, now);
    assert states[k + 1] == AfterIngest(states[k], w, now);
    RunEvolves(states, steps, k, id);
    ReachableStatesAreSafe(states, steps, k + 1);
    OwnsWhatWasNotIngestedSince(states, steps, id, k + 1, j);
  }

  // ----- what a cache hit reuses -----

  lemma {:induction false} ImageSize(rows: set<ArtefactId>, names: map<ArtefactId, ArtefactId>)
    requires rows <= names.Keys && IsInjective(names)
    ensures |set a | a in rows :: names[a]| == |rows|
    decreases |rows|
  {
    if rows != {} {
      var r :| r in rows;
      ImageSize(rows - {r}, names);
      assert (set a | a in rows :: names[a]) == (set a | a in rows - {r} :: names[a]) + {names[r]};
    }
  }

  lemma CacheHitCount(
    db: Db, w: WorkerId, id: ScanId, hash: Option<string>, source: ScanId, names: map<ArtefactId, ArtefactId>, now: int)
    requires Invariant(db) && Enabled(db, Begin(w, id, hash, Some(source), names, now)) && IsLive(db, id)
    ensures |Owned(AfterBegin(db, w, id, hash, Some(source), names, now).artefacts, id)| == |Owned(db.artefacts, source)|
  {
    CacheHitCopiesOneToOne(db, w, id, hash, source, names, now);
    ImageSize(Owned(db.artefacts, source), names);
  }

  lemma LessIsFewer(all: set<ArtefactId>, gone: set<ArtefactId>)
    ensures |all - gone| == |all| <==> all !! gone
    ensures |all - gone| == 0 <==> all <= gone
  {
    assert all == (all - gone) + all * gone;
    assert |all| == |all - gone| + |all * gone|;
    assert all * gone == {} <==> all !! gone;
    assert all - gone == {} <==> all <= gone;
  }

  /**
   A cache hit reuses everything its source was completed with exactly when none of it has been ingested by another scan
   since, and nothing at all exactly when all of it has.  Either way the hit takes over the source's status.
   */
  lemma CacheHitReusesWhatIsLeft(states: seq<Db>, steps: seq<Step>, source: ScanId, i: nat, m: nat)
    requires IsRun(states, steps) && i <= m < |steps|
    requires steps[m].Begin? && steps[m].cached == Some(source) && IsLive(states[m], steps[m].id)
    requires IsOver(states[i], source)
    ensures var all, gone := Owned(states[i].artefacts, source), IngestedBetween(states, steps, i, m);
            var id := steps[m].id;
            && id in states[m + 1].scans && source in states[m].scans
            && states[m].scans[source].status in {Succeeded, Partial}
            && states[m + 1].scans[id].status == states[m].scans[source].status
            && (|Owned(states[m + 1].artefacts, id)| == |all| <==> all !! gone)
            && (Owned(states[m + 1].artefacts, id) == {} <==> all <= gone)
  {
    var Begin(w, id, hash, cached, names, now) := steps[m];
    ReachableStatesAreSafe(states, steps, m);
    assert states[m + 1] == AfterBegin(states[m], w, id, hash, Some(source), names, now);
    OwnsWhatWasNotIngestedSince(states, steps, source, i, m);
    CacheHitCount(states[m], w, id, hash, source, names, now);
    LessIsFewer(Owned(states[i].artefacts, source), IngestedBetween(states, steps, i, m));
  }

  // ----- an empty cache hit -----

  /** Worker 0 is the only one, at work on scan `s`, and nothing else has changed since `base`. */
  ghost predicate IsAtWork(base: Db, db: Db, s: ScanId, phase: Phase) {
    && s in db.scans && db.scans[s].status == Running && db.scans[s].target == "repo"
    && db.scans[s].contentHash == None && db.scans[s].createdAt == 0
    && db.scans == base.scans[s := db.scans[s]]
    && db.artefacts == base.artefacts
    && db.workers == map[0 := Worker(s, None, phase)]
    && db.issued == base.issued + {s}
  }

  /** Nobody is at work; `s` was added to `base` and has taken its findings from the others. */
  ghost predicate IsIngested(base: Db, db: Db, s: ScanId, document: Document) {
    && s in db.scans && db.scans[s].status == Succeeded && db.scans[s].target == "repo"
    && db.scans[s].contentHash == Some(document.textHash) && db.scans[s].createdAt == 0
    && db.scans == base.scans[s := db.scans[s]]
    && db.workers == map[]
    && db.issued == base.issued + {s}
    && Owned(db.artefacts, s) == FindingIds(document.findings)
    && forall other :: other != s ==> Owned(db.artefacts, other) == Owned(base.artefacts, other) - FindingIds(document.findings)
  }

  lemma StartScan(states: seq<Db>, steps: seq<Step>, s: ScanId) returns (states': seq<Db>, steps': seq<Step>)
    requires IsRun(states, steps) && states[|steps|].workers == map[] && s !in states[|steps|].issued
    ensures IsRun(states', steps') && |steps'| == |steps| + 2 && states <= states' && steps <= steps'
    ensures IsAtWork(states[|steps|], states'[|steps'|], s, Preparing)
  {
    states', steps' := ExtendRun(states, steps, Create(s, "repo", [], 0));
    assert IsLive(states'[|steps'|], s);
    states', steps' := ExtendRun(states', steps', Begin(0, s, None, None, map[], 1));
  }

  lemma CarryOn(states: seq<Db>, steps: seq<Step>, base: Db, s: ScanId, document: Document)
    returns (states': seq<Db>, steps': seq<Step>)
    requires IsRun(states, steps) && IsAtWork(base, states[|steps|], s, Preparing)
    ensures IsRun(states', steps') && |steps'| == |steps| + 2 && states <= states' && steps <= steps'
    ensures IsAtWork(base, states'[|steps'|], s, Responded(document))
  {
    states', steps' := ExtendRun(states, steps, Announce(0));
    assert IsAtWork(base, states'[|steps'|], s, Scanning);
    states', steps' := ExtendRun(states', steps', Respond(0, document));
  }

  lemma FinishScan(base: Db, db: Db, s: ScanId, document: Document)
    requires Invariant(db) && IsAtWork(base, db, s, Responded(document)) && document.gaps == 0
    ensures Enabled(db, Ingest(0, 2)) && IsIngested(base, AfterIngest(db, 0, 2), s, document)
  {
    GuardNeverFires(db, 0, 2);
    forall other | other != s
      ensures Owned(AfterIngest(db, 0, 2).artefacts, other) == Owned(base.artefacts, other) - FindingIds(document.findings)
    {
      IngestTakesExactlyTheFindings(db, 0, 2, other);
    }
    IngestTakesExactlyTheFindings(db, 0, 2, s + "'");
    assert db.workers - {0} == map[];
  }

  /** Five steps that create and ingest one scan. */
  lemma RunScan(states: seq<Db>, steps: seq<Step>, s: ScanId, document: Document)
    returns (states': seq<Db>, steps': seq<Step>)
    requires IsRun(states, steps) && states[|steps|].workers == map[] && s !in states[|steps|].issued
    requires document.gaps == 0
    ensures IsRun(states', steps') && |steps'| == |steps| + 5 && states <= states' && steps <= steps'
    ensures IsIngested(states[|steps|], states'[|steps'|], s, document)
  {
    var base := states[|steps|];
    states', steps' := StartScan(states, steps, s);
    states', steps' := CarryOn(states', steps', base, s, document);
    ReachableStatesAreSafe(states', steps', |steps'|);
    FinishScan(base, states'[|steps'|], s, document);
    states', steps' := ExtendRun(states', steps', Ingest(0, 2));
  }

  function OneFinding(f: Finding, textHash: string): Document {
    Document([f], "source", [], 0, 0, textHash)
  }

  lemma OneFindingId(f: Finding, textHash: string)
    ensures FindingIds(OneFinding(f, textHash).findings) == {f.id}
  {}

  /** Two finished scans of one target with different content; the first one's findings have all been taken. */
  ghost predicate IsOvertaken(db: Db, first: ScanId, second: ScanId, hash: string) {
    && db.scans.Keys == {first, second} == db.issued && db.workers == map[]
    && Matches(db.scans[first], "repo", hash) && db.scans[first].createdAt == 0
    && db.scans[first].status == Succeeded
    && db.scans[second].contentHash != Some(hash)
    && Owned(db.artefacts, first) == {}
  }

  lemma TwoScans(first: ScanId, second: ScanId, f: Finding, hash: string, changed: string)
    returns (states: seq<Db>, steps: seq<Step>)
    requires first != second && hash != changed
    ensures IsRun(states, steps) && |steps| == 10
    ensures first in states[5].scans && states[5].scans[first].status == Succeeded
    ensures Owned(states[5].artefacts, first) == {f.id}
    ensures IsOvertaken(states[10], first, second, hash)
  {
    OneFindingId(f, hash);
    OneFindingId(f, changed);
    states, steps := RunScan([EMPTY], [], first, OneFinding(f, hash));
    var after := states[5];
    states, steps := RunScan(states, steps, second, OneFinding(f, changed));
    assert states[5] == after;
    assert states[10].scans[first] == after.scans[first];
  }

  lemma HitIsFirst(before: Db, first: ScanId, second: ScanId, third: ScanId, hash: string)
    requires IsOvertaken(before, first, second, hash) && third !in {first, second} && hash != ""
    ensures var db := AfterQueue(before, third, "repo", [], Some(0), 0);
            IsLive(db, third) && Enabled(db, Begin(0, third, Some(hash), Some(first), map[], 5))
  {
    var db := AfterQueue(before, third, "repo", [], Some(0), 0);
    assert db.scans[first] == before.scans[first] && db.scans[second] == before.scans[second];
  }

  lemma HitIsEmpty(db: Db, first: ScanId, third: ScanId, hash: string)
    requires Invariant(db) && IsLive(db, third) && Enabled(db, Begin(0, third, Some(hash), Some(first), map[], 5))
    ensures var db' := AfterBegin(db, 0, third, Some(hash), Some(first), map[], 5);
            && first in db.scans
            && third in db'.scans && db'.scans[third].status == db.scans[first].status
            && Owned(db'.artefacts, third) == {}
  {
    assert Owned(db.artefacts, first) == {};
    CacheHitCount(db, 0, third, Some(hash), first, map[], 5);
  }

  /**
   A run that ends in an empty cache hit.  The first scan finds `f`; the second finds it again after the content changed,
   and takes it; the content changes back, and the third scan succeeds from the first one's cache with nothing.
   */
  lemma EmptyCacheHit(first: ScanId, second: ScanId, third: ScanId, f: Finding, hash: string, changed: string)
    returns (states: seq<Db>, steps: seq<Step>)
    requires first != second && third !in {first, second} && hash != changed && hash != ""
    ensures IsRun(states, steps) && |steps| == 12
    ensures first in states[5].scans && states[5].scans[first].status == Succeeded
    ensures Owned(states[5].artefacts, first) == {f.id}
    ensures steps[11] == Begin(0, third, Some(hash), Some(first), map[], 5)
    ensures third in states[12].scans && states[12].scans[third].status == Succeeded
    ensures Owned(states[12].artefacts, third) == {}
  {
    states, steps := TwoScans(first, second, f, hash, changed);
    HitIsFirst(states[10], first, second, third, hash);
    states, steps := ExtendRun(states, steps, Create(third, "repo", [], 0));
    ReachableStatesAreSafe(states, steps, 11);
    HitIsEmpty(states[11], first, third, hash);
    states, steps := ExtendRun(states, steps, Begin(0, third, Some(hash), Some(first), map[], 5));
  }
}
