/**
 The handlers and worker blocks themselves, updating the shared tables in place.  Each is proved to take exactly the
 step of the state machine that the properties in ScanInvariants and ScanRuns are about.
 */
module ScanStore {
  import opened Wrappers
  import opened Enums
  import opened ScanModel

  class Store {
    var scans: map<ScanId, ScanRow>
    var artefacts: map<ArtefactId, ArtefactRow>
    var progress: seq<ProgressRow>
    var workers: map<WorkerId, Worker>
    ghost var issued: set<ScanId>

    constructor ()
      ensures Contents() == EMPTY
    {
      scans, artefacts, progress, workers, issued := map[], map[], [], map[], {};
    }

    ghost function Contents(): Db
      reads this
    {
      Db(scans, artefacts, progress, workers, issued)
    }

    // ----- repositories -----

    method RecordProgress(id: ScanId, percent: nat, stage: string, counts: Option<nat>)
      modifies this`progress
      ensures progress == Recorded(old(progress), id, percent, stage, counts)
    {
      var sequence := MaxSequence(progress, id) + 1;
      progress := progress + [ProgressRow(id, sequence, percent, stage, counts)];
    }

    // ----- cache -----

    method FindCachedScan(target: string, hash: Option<string>) returns (answer: Option<ScanId>)
      ensures IsCacheAnswer(scans, target, hash, answer)
    {
      answer := None;
      if !IsSet(hash) {
        return;
      }
      var rest := scans.Keys;
      while rest != {}
        invariant rest <= scans.Keys
        invariant match answer
                  case None => forall c :: c in scans.Keys - rest ==> !Matches(scans[c], target, hash.value)
                  case Some(c) =>
                    && c in scans && Matches(scans[c], target, hash.value)
                    && forall d :: d in scans.Keys - rest && Matches(scans[d], target, hash.value) ==>
                                     scans[d].createdAt <= scans[c].createdAt
        decreases rest
      {
        var c :| c in rest;
        if Matches(scans[c], target, hash.value)
           && (answer.None? || scans[answer.value].createdAt < scans[c].createdAt)
        {
          answer := Some(c);
        }
        rest := rest - {c};
      }
    }

    /** Copies the rows of one scan; `uuids[a]` is the id uuid4 draws for the copy of row `a`. */
    method CloneArtefacts(source: ScanId, target: ScanId, uuids: map<ArtefactId, ArtefactId>, now: int)
      returns (count: nat)
      requires NamesClones(artefacts, source, uuids)
      modifies this`artefacts
      ensures artefacts == Cloned(old(artefacts), source, target, uuids, now)
      ensures count == |Owned(old(artefacts), source)|
    {
      var owned := Owned(artefacts, source);
      var rest := owned;
      var added: map<ArtefactId, ArtefactRow> := map[];
      count := 0;
      while rest != {}
        invariant rest <= owned && count + |rest| == |owned|
        invariant AreCopies(added, artefacts, owned - rest, uuids, target, now)
        invariant artefacts == old(artefacts)
        decreases rest
      {
        var a :| a in rest;
        OneMoreCopy(added, artefacts, owned - rest, uuids, a, target, now);
        assert owned - rest + {a} == owned - (rest - {a});
        added := added[uuids[a] := artefacts[a].(scanId := target, lastSeen := now)];
        count := count + 1;
        rest := rest - {a};
      }
      assert owned - rest == owned;
      AreCopiesMeans(added, artefacts, owned, uuids, target, now);
      artefacts := artefacts + added;
    }

    // ----- API handlers -----

    method CreateScan(id: ScanId, target: string, scanners: seq<string>, now: int)
      requires id !in issued
      modifies this
      ensures Contents() == Apply(old(Contents()), Create(id, target, scanners, now))
    {
      scans := scans[id := ScanRow(target, Queued, None, now, None, None, Report(scanners, [], 0, 0), [])];
      RecordProgress(id, 0, "queued", Some(0));
      issued := issued + {id};
    }

    method RescanScan(id: ScanId, original: ScanId, now: int)
      requires id !in issued && original in scans
      modifies this
      ensures Contents() == Apply(old(Contents()), Rescan(id, original, now))
    {
      var row := scans[original];
      scans := scans[id := ScanRow(row.target, Queued, None, now, None, None, Report(row.report.scannersRun, [], 0, 0), [])];
      RecordProgress(id, 0, "queued", None);
      issued := issued + {id};
    }

    method FailDispatch(id: ScanId, isRescan: bool, error: string, now: int)
      modifies this
      ensures Contents() == Apply(old(Contents()), DispatchFailure(id, isRescan, error, now))
    {
      if id in scans {
        scans := scans[id := scans[id].(status := Failed, finishedAt := Some(now), errors := [error])];
        if !isRescan {
          RecordProgress(id, 100, "failed", None);
        }
      }
    }

    method CancelScan(id: ScanId, now: int)
      modifies this
      ensures Contents() == Apply(old(Contents()), Cancel(id, now))
    {
      if id in scans && !IsTerminal(scans[id].status) {
        scans := scans[id := scans[id].(status := Cancelled, finishedAt := Some(now))];
        RecordProgress(id, 100, "cancelled", None);
      }
    }

    method DeleteScan(id: ScanId)
      modifies this
      ensures Contents() == Apply(old(Contents()), Delete(id))
    {
      if id in scans {
        artefacts := artefacts - Owned(artefacts, id);
        progress := WithoutScan(progress, id);
        scans := scans - {id};
      }
    }

    // ----- the four blocks of `execute_scan` -----

    /** The cache branch of the first block. */
    method CompleteFromCache(id: ScanId, row: ScanRow, source: ScanId, uuids: map<ArtefactId, ArtefactId>, now: int)
      requires source in scans && NamesClones(artefacts, source, uuids)
      modifies this`scans, this`artefacts, this`progress
      ensures artefacts == Cloned(old(artefacts), source, id, uuids, now)
      ensures scans == old(scans)[id := row.(status := old(scans)[source].status, report := old(scans)[source].report,
                                             finishedAt := Some(now))]
      ensures progress == Recorded(old(progress), id, 100, "completed", Some(|Owned(old(artefacts), source)|))
    {
      var cached := scans[source];
      scans := scans[id := row.(status := cached.status, report := cached.report, finishedAt := Some(now))];
      var count := CloneArtefacts(source, id, uuids, now);
      RecordProgress(id, 100, "completed", Some(count));
    }

    method StartRunning(w: WorkerId, id: ScanId, hash: Option<string>, row: ScanRow, now: int)
      modifies this`scans, this`progress, this`workers
      ensures scans == old(scans)[id := row.(status := Running, startedAt := Some(now))]
      ensures progress == Recorded(old(progress), id, 1, "preparing", None)
      ensures workers == old(workers)[w := Worker(id, hash, Preparing)]
    {
      scans := scans[id := row.(status := Running, startedAt := Some(now))];
      RecordProgress(id, 1, "preparing", None);
      workers := workers[w := Worker(id, hash, Preparing)];
    }

    method BeginScan(w: WorkerId, id: ScanId, hash: Option<string>, uuids: map<ArtefactId, ArtefactId>, now: int)
      returns (ghost cached: Option<ScanId>)
      requires w !in workers
      requires IsFreshNaming(artefacts, uuids)
      modifies this
      ensures old(Enabled(Contents(), Begin(w, id, hash, cached, uuids, now)))
      ensures Contents() == AfterBegin(old(Contents()), w, id, hash, cached, uuids, now)
    {
      ghost var before := Contents();
      cached := None;
      if id !in scans || IsTerminal(scans[id].status) {
        return;
      }
      var row := scans[id];
      if IsSet(hash) && !IsSet(row.contentHash) {
        row := row.(contentHash := hash);
      }
      assert row == WithHash(before.scans[id], hash);
      var answer := FindCachedScan(row.target, row.contentHash);
      cached := answer;
      if answer.Some? && answer.value != id {
        FreshNamesClone(artefacts, answer.value, uuids);
        CompleteFromCache(id, row, answer.value, uuids, now);
      } else {
        StartRunning(w, id, hash, row, now);
      }
    }

    method AnnounceScanning(w: WorkerId)
      requires w in workers && workers[w].phase.Preparing?
      modifies this
      ensures Contents() == Apply(old(Contents()), Announce(w))
    {
      var id := workers[w].scanId;
      if id !in scans {
        workers := workers - {w};
        return;
      }
      RecordProgress(id, 10, "scanning", Some(0));
      workers := workers[w := workers[w].(phase := Scanning)];
    }

    /** The loop over `ingested.artefacts`. */
    method UpsertFindings(findings: seq<Finding>, id: ScanId, now: int)
      modifies this`artefacts
      ensures artefacts == Upsert(old(artefacts), findings, id, now)
    {
      for i := 0 to |findings|
        invariant artefacts == Upsert(old(artefacts), findings[..i], id, now)
      {
        var f := findings[i];
        assert findings[..i + 1][..i] == findings[..i];
        if f.id in artefacts {
          var row := artefacts[f.id];
          artefacts := artefacts[f.id := row.(scanId := id, lastSeen := now,
                                              vulnerability := f.vulnerability, location := f.location)];
        } else {
          artefacts := artefacts[f.id := ArtefactRow(id, f.core, f.vulnerability, f.location, f.seen, f.seen)];
        }
      }
      assert findings[..|findings|] == findings;
    }

    method IngestResponse(w: WorkerId, now: int)
      requires w in workers && workers[w].phase.Responded?
      modifies this
      ensures Contents() == Apply(old(Contents()), Ingest(w, now))
    {
      var Worker(id, hash, phase) := workers[w];
      var document := phase.document;
      if id !in scans || IsTerminal(scans[id].status) {
        workers := workers - {w};
        return;
      }
      var row := scans[id];
      if !IsSet(row.contentHash) {
        row := row.(contentHash := if IsSet(hash) then hash else Some(document.textHash));
      }
      if Owned(artefacts, id) != {} {
        workers := workers[w := workers[w].(phase := Failing("SCANNER_FAILED"))];
        return;
      }
      UpsertFindings(document.findings, id, now);
      row := row.(report := Report([document.scanner], document.tools, document.skipped, document.gaps));
      row := row.(status := if document.gaps > 0 then Partial else Succeeded);
      row := row.(finishedAt := Some(now));
      scans := scans[id := row];
      RecordProgress(id, 100, "completed", Some(|document.findings|));
      workers := workers - {w};
    }

    method RecordError(w: WorkerId, now: int)
      requires w in workers && workers[w].phase.Failing?
      modifies this
      ensures Contents() == Apply(old(Contents()), RecordFailure(w, now))
    {
      var Worker(id, _, phase) := workers[w];
      workers := workers - {w};
      if id !in scans {
        return;
      }
      scans := scans[id := scans[id].(status := Failed, finishedAt := Some(now), errors := [phase.error])];
      RecordProgress(id, 100, "failed", None);
    }
  }

  /** uuid4 draws a fresh id for the copy of any row. */
  ghost predicate IsFreshNaming(artefacts: map<ArtefactId, ArtefactRow>, names: map<ArtefactId, ArtefactId>) {
    && artefacts.Keys <= names.Keys
    && (forall a :: a in names ==> names[a] !in artefacts)
    && IsInjective(names)
  }

  lemma FreshNamesClone(artefacts: map<ArtefactId, ArtefactRow>, source: ScanId, names: map<ArtefactId, ArtefactId>)
    requires IsFreshNaming(artefacts, names)
    ensures NamesClones(artefacts, source, names)
  {}

  /** `added` holds exactly the copies of `rows`. */
  ghost predicate AreCopies(
    added: map<ArtefactId, ArtefactRow>, artefacts: map<ArtefactId, ArtefactRow>, rows: set<ArtefactId>,
    names: map<ArtefactId, ArtefactId>, target: ScanId, now: int)
  {
    && rows <= artefacts.Keys && rows <= names.Keys
    && added.Keys == (set a | a in rows :: names[a])
    && forall a :: a in rows ==> added[names[a]] == artefacts[a].(scanId := target, lastSeen := now)
  }

  lemma OneMoreCopy(
    added: map<ArtefactId, ArtefactRow>, artefacts: map<ArtefactId, ArtefactRow>, rows: set<ArtefactId>,
    names: map<ArtefactId, ArtefactId>, a: ArtefactId, target: ScanId, now: int)
    requires IsInjective(names) && AreCopies(added, artefacts, rows, names, target, now)
    requires a in artefacts && a in names && a !in rows
    ensures AreCopies(added[names[a] := artefacts[a].(scanId := target, lastSeen := now)],
                      artefacts, rows + {a}, names, target, now)
  {
    assert forall b :: b in rows ==> names[b] != names[a];
  }

  lemma AreCopiesMeans(
    added: map<ArtefactId, ArtefactRow>, artefacts: map<ArtefactId, ArtefactRow>, rows: set<ArtefactId>,
    names: map<ArtefactId, ArtefactId>, target: ScanId, now: int)
    requires IsInjective(names) && AreCopies(added, artefacts, rows, names, target, now)
    ensures added == Copies(artefacts, rows, names, target, now)
  {}
}
