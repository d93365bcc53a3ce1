/** What every reachable state of the scan protocol satisfies, and what no run can undo. */
module ScanInvariants {
  import opened Wrappers
  import opened Enums
  import opened ScanModel
  import opened ProgressLog

  // ----- state invariants -----

  /** Every artefact row belongs to a scan that has finished and was not cancelled. */
  ghost predicate OwnersHaveFinished(db: Db) {
    forall a :: a in db.artefacts ==> MayOwn(db, db.artefacts[a].scanId)
  }

  ghost predicate MayOwn(db: Db, id: ScanId) {
    id in db.scans && IsTerminal(db.scans[id].status) && db.scans[id].status != Cancelled
  }

  /** A finished scan says when, and a failed one says why. */
  ghost predicate IsAccountedFor(row: ScanRow) {
    && (IsTerminal(row.status) ==> row.finishedAt.Some?)
    && (row.status == Failed ==> row.errors != [])
  }

  ghost predicate ScansAreAccountedFor(db: Db) {
    && db.scans.Keys <= db.issued
    && forall id :: id in db.scans ==> IsAccountedFor(db.scans[id])
  }

  ghost predicate LogIsSound(db: Db, id: ScanId) {
    && IsNumbered(EventsOf(db.progress, id))
    && (id !in db.scans ==> EventsOf(db.progress, id) == [])
  }

  ghost predicate LogsAreSound(db: Db) {
    forall id {:trigger LogIsSound(db, id)} :: LogIsSound(db, id)
  }

  ghost predicate Invariant(db: Db) {
    OwnersHaveFinished(db) && ScansAreAccountedFor(db) && LogsAreSound(db)
  }

  // ----- one step -----

  /** A step that finishes a live scan with findings of its own. */
  ghost predicate Completes(db: Db, db': Db, id: ScanId) {
    IsLive(db, id) && id in db'.scans && db'.scans[id].status in {Succeeded, Partial}
  }

  /** What one step may do to one scan. */
  ghost predicate Evolves(db: Db, db': Db, id: ScanId) {
    && (id in db.issued ==> id in db'.issued)
    && (id in db.issued && id !in db.scans ==> id !in db'.scans)
    && (id in db.scans && id in db'.scans ==>
          && (IsTerminal(db.scans[id].status) ==> db'.scans[id].status in {db.scans[id].status, Failed})
          && EventsOf(db.progress, id) <= EventsOf(db'.progress, id))
    && (Completes(db, db', id) || Owned(db'.artefacts, id) <= Owned(db.artefacts, id))
  }

  lemma LogsAfterRecord(db: Db, db': Db, id: ScanId, percent: nat, stage: string, artefacts: Option<nat>)
    requires LogsAreSound(db)
    requires id in db'.scans && db.scans.Keys <= db'.scans.Keys
    requires db'.progress == Recorded(db.progress, id, percent, stage, artefacts)
    ensures LogsAreSound(db')
    ensures forall other :: EventsOf(db.progress, other) <= EventsOf(db'.progress, other)
  {
    assert LogIsSound(db, id);
    forall other ensures LogIsSound(db', other) && EventsOf(db.progress, other) <= EventsOf(db'.progress, other) {
      assert LogIsSound(db, other);
      RecordContinuesLog(db.progress, id, percent, stage, artefacts, other);
    }
  }

  lemma LogsAfterSilence(db: Db, db': Db)
    requires LogsAreSound(db)
    requires db.scans.Keys == db'.scans.Keys && db'.progress == db.progress
    ensures LogsAreSound(db')
  {
    forall other ensures LogIsSound(db', other) {
      assert LogIsSound(db, other);
    }
  }

  lemma LogsAfterDelete(db: Db, id: ScanId)
    requires LogsAreSound(db) && id in db.scans
    ensures LogsAreSound(AfterDelete(db, id))
    ensures forall other :: other != id ==>
                              EventsOf(AfterDelete(db, id).progress, other) == EventsOf(db.progress, other)
  {
    var db' := AfterDelete(db, id);
    forall other
      ensures LogIsSound(db', other)
      ensures other != id ==> EventsOf(db'.progress, other) == EventsOf(db.progress, other)
    {
      assert LogIsSound(db, other);
      EventsAfterDelete(db.progress, id, other);
    }
  }

  // ----- ingest and clone, row by row -----

  lemma {:induction false} UpsertMovesExactlyTheFindings(
    artefacts: map<ArtefactId, ArtefactRow>, findings: seq<Finding>, id: ScanId, now: int)
    ensures var after := Upsert(artefacts, findings, id, now);
            && after.Keys == artefacts.Keys + FindingIds(findings)
            && (forall a :: a in FindingIds(findings) ==> after[a].scanId == id)
            && (forall a :: a in artefacts && a !in FindingIds(findings) ==> after[a] == artefacts[a])
  {
    if findings != [] {
      var init, last := findings[..|findings| - 1], findings[|findings| - 1];
      UpsertMovesExactlyTheFindings(artefacts, init, id, now);
      UpsertOneMovesOne(Upsert(artefacts, init, id, now), last, id, now);
      FindingIdsAppend(init, last);
      assert findings == init + [last];
    }
  }

  lemma UpsertOneMovesOne(artefacts: map<ArtefactId, ArtefactRow>, f: Finding, id: ScanId, now: int)
    ensures var after := UpsertOne(artefacts, f, id, now);
            && after.Keys == artefacts.Keys + {f.id}
            && after[f.id].scanId == id
            && (forall a :: a in artefacts && a != f.id ==> after[a] == artefacts[a])
  {}

  lemma FindingIdsAppend(findings: seq<Finding>, last: Finding)
    ensures FindingIds(findings + [last]) == FindingIds(findings) + {last.id}
  {
    assert forall f :: f in findings + [last] <==> f in findings || f == last;
  }

  /** An existing row keeps what it was first found with and takes the new label, location and time; a new one is the finding. */
  ghost predicate IsRefreshed(
    artefacts: map<ArtefactId, ArtefactRow>, after: map<ArtefactId, ArtefactRow>, f: Finding, id: ScanId, now: int)
  {
    && f.id in after
    && after[f.id] ==
       if f.id in artefacts
       then ArtefactRow(id, artefacts[f.id].core, f.vulnerability, f.location, artefacts[f.id].firstSeen, now)
       else ArtefactRow(id, f.core, f.vulnerability, f.location, f.seen, f.seen)
  }

  lemma {:induction false} UpsertRefreshesEachFinding(
    artefacts: map<ArtefactId, ArtefactRow>, findings: seq<Finding>, id: ScanId, now: int)
    requires forall i, j :: 0 <= i < j < |findings| ==> findings[i].id != findings[j].id
    ensures forall i :: 0 <= i < |findings| ==>
                          IsRefreshed(artefacts, Upsert(artefacts, findings, id, now), findings[i], id, now)
  {
    if findings != [] {
      var n := |findings| - 1;
      var init := findings[..n];
      UpsertRefreshesEachFinding(artefacts, init, id, now);
      UpsertMovesExactlyTheFindings(artefacts, init, id, now);
      assert findings[n].id !in FindingIds(init);
      forall i | 0 <= i < n ensures IsRefreshed(artefacts, Upsert(artefacts, findings, id, now), findings[i], id, now) {
        assert IsRefreshed(artefacts, Upsert(artefacts, init, id, now), init[i], id, now);
      }
    }
  }

  /**
   A completed ingest leaves the scan owning exactly the ingested ids, takes from other scans exactly the shared ids,
   and never drops an id from the table.
   */
  lemma IngestTakesExactlyTheFindings(db: Db, w: WorkerId, now: int, other: ScanId)
    requires Invariant(db) && Enabled(db, Ingest(w, now))
    requires IsLive(db, db.workers[w].scanId) && other != db.workers[w].scanId
    ensures var db' := AfterIngest(db, w, now);
            var ids := FindingIds(db.workers[w].phase.document.findings);
            && Owned(db'.artefacts, db.workers[w].scanId) == ids
            && Owned(db'.artefacts, other) == Owned(db.artefacts, other) - ids
            && db'.artefacts.Keys == db.artefacts.Keys + ids
            && db'.scans[db.workers[w].scanId].status in {Succeeded, Partial}
  {
    GuardNeverFires(db, w, now);
    UpsertMovesExactlyTheFindings(db.artefacts, db.workers[w].phase.document.findings, db.workers[w].scanId, now);
  }

  /** The re-delivery guard of the ingest block never finds a row: its raising branch is dead. */
  lemma GuardNeverFires(db: Db, w: WorkerId, now: int)
    requires Invariant(db) && Enabled(db, Ingest(w, now))
    ensures IsLive(db, db.workers[w].scanId) ==> Owned(db.artefacts, db.workers[w].scanId) == {}
  {}

  /** The ids the copies of a scan's rows are given. */
  ghost function CloneIds(artefacts: map<ArtefactId, ArtefactRow>, source: ScanId, names: map<ArtefactId, ArtefactId>)
    : set<ArtefactId>
    requires NamesClones(artefacts, source, names)
  {
    set a | a in Owned(artefacts, source) :: names[a]
  }

  /** `after` is `artefacts` plus one copy, under its own fresh id, of each row of `source`. */
  ghost predicate IsOneToOneCopy(
    artefacts: map<ArtefactId, ArtefactRow>, after: map<ArtefactId, ArtefactRow>,
    source: ScanId, target: ScanId, names: map<ArtefactId, ArtefactId>, now: int)
  {
    && NamesClones(artefacts, source, names)
    && (forall a :: a in artefacts ==> a in after && after[a] == artefacts[a])
    && Owned(after, source) == Owned(artefacts, source)
    && Owned(after, target) == CloneIds(artefacts, source, names)
    && (forall a :: a in Owned(artefacts, source) ==>
          names[a] in after && after[names[a]] == artefacts[a].(scanId := target, lastSeen := now))
  }

  lemma CloneIsOneToOne(
    artefacts: map<ArtefactId, ArtefactRow>, source: ScanId, target: ScanId, names: map<ArtefactId, ArtefactId>, now: int)
    requires NamesClones(artefacts, source, names)
    requires source != target && Owned(artefacts, target) == {}
    ensures var after := Cloned(artefacts, source, target, names, now);
            && IsOneToOneCopy(artefacts, after, source, target, names, now)
            && (forall n :: n in after && n !in artefacts ==> after[n].scanId == target)
  {
    var after := Cloned(artefacts, source, target, names, now);
    var copies := Copies(artefacts, Owned(artefacts, source), names, target, now);
    forall a | a in Owned(artefacts, source)
      ensures names[a] in copies && copies[names[a]] == artefacts[a].(scanId := target, lastSeen := now) {}
    forall n | n in copies ensures n in CloneIds(artefacts, source, names) && copies[n].scanId == target {
      var a :| a in Owned(artefacts, source) && names[a] == n;
    }
    forall n | n in Owned(after, target) ensures n in CloneIds(artefacts, source, names) {
      assert n in artefacts ==> n in Owned(artefacts, target);
    }
  }

  /**
   A cache completion leaves every existing row untouched and gives the new scan a one-to-one copy of the source's
   rows under fresh ids, equal in every field but the owner and the time last seen.
   */
  lemma CacheHitCopiesOneToOne(
    db: Db, w: WorkerId, id: ScanId, hash: Option<string>, source: ScanId, names: map<ArtefactId, ArtefactId>, now: int)
    requires Invariant(db) && Enabled(db, Begin(w, id, hash, Some(source), names, now)) && IsLive(db, id)
    ensures IsOneToOneCopy(db.artefacts, AfterBegin(db, w, id, hash, Some(source), names, now).artefacts,
                           source, id, names, now)
    ensures AfterBegin(db, w, id, hash, Some(source), names, now).scans[source] == db.scans[source]
  {
    LiveScansOwnNothing(db, id);
    CloneIsOneToOne(db.artefacts, source, id, names, now);
  }

  /** A scan that has not finished, or was cancelled, owns no artefact. */
  lemma LiveScansOwnNothing(db: Db, id: ScanId)
    requires Invariant(db)
    requires id in db.scans ==> !IsTerminal(db.scans[id].status) || db.scans[id].status == Cancelled
    ensures Owned(db.artefacts, id) == {}
  {
    forall a | a in db.artefacts ensures db.artefacts[a].scanId != id {
      assert MayOwn(db, db.artefacts[a].scanId);
    }
  }

  // ----- every step keeps the invariant -----

  lemma QueueKeepsInvariant(db: Db, id: ScanId, target: string, scanners: seq<string>, artefacts: Option<nat>, now: int)
    requires Invariant(db) && id !in db.issued
    ensures Invariant(AfterQueue(db, id, target, scanners, artefacts, now))
    ensures forall s :: Evolves(db, AfterQueue(db, id, target, scanners, artefacts, now), s)
  {
    var db' := AfterQueue(db, id, target, scanners, artefacts, now);
    LogsAfterRecord(db, db', id, 0, "queued", artefacts);
    forall a | a in db'.artefacts ensures MayOwn(db', db'.artefacts[a].scanId) {
      assert MayOwn(db, db.artefacts[a].scanId);
    }
  }

  /** A row that stays finished, or becomes FAILED, may keep what it owns. */
  lemma RowChangeKeepsInvariant(db: Db, db': Db, id: ScanId, row: ScanRow)
    requires Invariant(db) && LogsAreSound(db')
    requires id in db.scans && IsAccountedFor(row)
    requires db'.scans == db.scans[id := row]
    requires db'.artefacts == db.artefacts && db'.issued == db.issued
    requires forall other :: EventsOf(db.progress, other) <= EventsOf(db'.progress, other)
    requires IsTerminal(db.scans[id].status) ==> row.status == Failed
    ensures Invariant(db')
    ensures forall s :: Evolves(db, db', s)
  {
    forall a | a in db'.artefacts ensures MayOwn(db', db'.artefacts[a].scanId) {
      assert MayOwn(db, db.artefacts[a].scanId);
    }
  }

  lemma DeleteKeepsInvariant(db: Db, id: ScanId)
    requires Invariant(db)
    ensures Invariant(AfterDelete(db, id))
    ensures forall s :: Evolves(db, AfterDelete(db, id), s)
  {
    if id in db.scans {
      var db' := AfterDelete(db, id);
      LogsAfterDelete(db, id);
      forall a | a in db'.artefacts ensures MayOwn(db', db'.artefacts[a].scanId) {
        assert MayOwn(db, db.artefacts[a].scanId);
      }
    }
  }

  lemma WorkersDoNotMatter(db: Db, workers: map<WorkerId, Worker>)
    requires Invariant(db)
    ensures Invariant(db.(workers := workers))
    ensures forall s :: Evolves(db, db.(workers := workers), s)
  {
    var db' := db.(workers := workers);
    LogsAfterSilence(db, db');
    forall a | a in db'.artefacts ensures MayOwn(db', db'.artefacts[a].scanId) {
      assert MayOwn(db, db.artefacts[a].scanId);
    }
  }

  /** A live scan that completes: the only way rows get a new owner. */
  lemma CompletionKeepsInvariant(db: Db, db': Db, id: ScanId, row: ScanRow)
    requires Invariant(db) && LogsAreSound(db')
    requires IsLive(db, id) && row.status in {Succeeded, Partial} && row.finishedAt.Some?
    requires db'.scans == db.scans[id := row] && db'.issued == db.issued
    requires forall other :: EventsOf(db.progress, other) <= EventsOf(db'.progress, other)
    requires forall a :: a in db'.artefacts ==>
                           || db'.artefacts[a].scanId == id
                           || (a in db.artefacts && db'.artefacts[a] == db.artefacts[a])
    ensures Invariant(db')
    ensures forall s :: Evolves(db, db', s)
  {
    forall a | a in db'.artefacts ensures MayOwn(db', db'.artefacts[a].scanId) {
      if db'.artefacts[a].scanId != id {
        assert MayOwn(db, db.artefacts[a].scanId);
      }
    }
  }

  lemma CacheHitKeepsInvariant(
    db: Db, db': Db, id: ScanId, row: ScanRow, source: ScanId, names: map<ArtefactId, ArtefactId>, now: int)
    requires Invariant(db) && IsLive(db, id) && source != id
    requires NamesClones(db.artefacts, source, names)
    requires row.status in {Succeeded, Partial} && row.finishedAt.Some?
    requires db'.scans == db.scans[id := row] && db'.issued == db.issued
    requires db'.artefacts == Cloned(db.artefacts, source, id, names, now)
    requires db'.progress == Recorded(db.progress, id, 100, "completed", Some(|Owned(db.artefacts, source)|))
    ensures Invariant(db')
    ensures forall s :: Evolves(db, db', s)
  {
    LogsAfterRecord(db, db', id, 100, "completed", Some(|Owned(db.artefacts, source)|));
    LiveScansOwnNothing(db, id);
    CloneIsOneToOne(db.artefacts, source, id, names, now);
    CompletionKeepsInvariant(db, db', id, row);
  }

  lemma BeginKeepsInvariant(
    db: Db, w: WorkerId, id: ScanId, hash: Option<string>, cached: Option<ScanId>, names: map<ArtefactId, ArtefactId>, now: int)
    requires Invariant(db) && Enabled(db, Begin(w, id, hash, cached, names, now))
    ensures Invariant(AfterBegin(db, w, id, hash, cached, names, now))
    ensures forall s :: Evolves(db, AfterBegin(db, w, id, hash, cached, names, now), s)
  {
    var db' := AfterBegin(db, w, id, hash, cached, names, now);
    if !IsLive(db, id) {
    } else if cached.Some? {
      CacheHitKeepsInvariant(db, db', id, db'.scans[id], cached.value, names, now);
    } else {
      LogsAfterRecord(db, db', id, 1, "preparing", None);
      RowChangeKeepsInvariant(db, db', id, db'.scans[id]);
    }
  }

  lemma IngestKeepsInvariant(db: Db, w: WorkerId, now: int)
    requires Invariant(db) && Enabled(db, Ingest(w, now))
    ensures Invariant(AfterIngest(db, w, now))
    ensures forall s :: Evolves(db, AfterIngest(db, w, now), s)
  {
    var db' := AfterIngest(db, w, now);
    var id := db.workers[w].scanId;
    if !IsLive(db, id) {
      WorkersDoNotMatter(db, db'.workers);
    } else {
      GuardNeverFires(db, w, now);
      var findings := db.workers[w].phase.document.findings;
      LogsAfterRecord(db, db', id, 100, "completed", Some(|findings|));
      UpsertMovesExactlyTheFindings(db.artefacts, findings, id, now);
      CompletionKeepsInvariant(db, db', id, db'.scans[id]);
    }
  }

  lemma AnnounceKeepsInvariant(db: Db, w: WorkerId)
    requires Invariant(db) && w in db.workers
    ensures Invariant(AfterAnnounce(db, w))
    ensures forall s :: Evolves(db, AfterAnnounce(db, w), s)
  {
    var db' := AfterAnnounce(db, w);
    var id := db.workers[w].scanId;
    if id in db.scans {
      LogsAfterRecord(db, db', id, 10, "scanning", Some(0));
      forall a | a in db'.artefacts ensures MayOwn(db', db'.artefacts[a].scanId) {
        assert MayOwn(db, db.artefacts[a].scanId);
      }
    } else {
      WorkersDoNotMatter(db, db'.workers);
    }
  }

  lemma FailureKeepsInvariant(db: Db, db': Db, id: ScanId, isSilent: bool)
    requires Invariant(db) && id in db.scans
    requires db'.scans.Keys == db.scans.Keys && IsAccountedFor(db'.scans[id])
    requires db'.scans == db.scans[id := db'.scans[id]] && db'.scans[id].status == Failed
    requires db'.artefacts == db.artefacts && db'.issued == db.issued
    requires db'.progress == if isSilent then db.progress else Recorded(db.progress, id, 100, "failed", None)
    ensures Invariant(db')
    ensures forall s :: Evolves(db, db', s)
  {
    if isSilent {
      LogsAfterSilence(db, db');
    } else {
      LogsAfterRecord(db, db', id, 100, "failed", None);
    }
    RowChangeKeepsInvariant(db, db', id, db'.scans[id]);
  }

  lemma StepKeepsInvariant(db: Db, step: Step)
    requires Invariant(db) && Enabled(db, step)
    ensures Invariant(Apply(db, step))
    ensures forall s :: Evolves(db, Apply(db, step), s)
  {
    var db' := Apply(db, step);
    match step {
      case Create(id, target, scanners, now) => QueueKeepsInvariant(db, id, target, scanners, Some(0), now);
      case Rescan(id, original, now) =>
        QueueKeepsInvariant(db, id, db.scans[original].target, db.scans[original].report.scannersRun, None, now);
      case DispatchFailure(id, isRescan, _, _) =>
        if id in db.scans {
          FailureKeepsInvariant(db, db', id, isRescan);
        }
      case Cancel(id, _) =>
        if IsLive(db, id) {
          LogsAfterRecord(db, db', id, 100, "cancelled", None);
          RowChangeKeepsInvariant(db, db', id, db'.scans[id]);
        }
      case Delete(id) => DeleteKeepsInvariant(db, id);
      case Begin(w, id, hash, cached, names, now) => BeginKeepsInvariant(db, w, id, hash, cached, names, now);
      case Announce(w) => AnnounceKeepsInvariant(db, w);
      case Ingest(w, now) => IngestKeepsInvariant(db, w, now);
      case RecordFailure(w, _) =>
        var id := db.workers[w].scanId;
        if id in db.scans {
          FailureKeepsInvariant(db, db', id, false);
        } else {
          WorkersDoNotMatter(db, db'.workers);
        }
      case PrepareFailure(w, _) => WorkersDoNotMatter(db, db'.workers);
      case Respond(w, _) => WorkersDoNotMatter(db, db'.workers);
      case ScannerFailure(w, _) => WorkersDoNotMatter(db, db'.workers);
      case IngestFailure(w, _) => WorkersDoNotMatter(db, db'.workers);
      case Vanish(w) => WorkersDoNotMatter(db, db'.workers);
    }
  }
}
