/** What each step of the scan protocol leaves in the tables, column by column. */
module ScanSteps {
  import opened Wrappers
  import opened Enums
  import opened ScanModel
  import opened ScanInvariants
  import ProgressLog

  predicate IsNonEmpty(s: Option<string>) {
    s.Some? && |s.value| > 0
  }

  /** The scan is there and QUEUED or RUNNING. */
  predicate IsPending(db: Db, id: ScanId) {
    id in db.scans && (db.scans[id].status == Queued || db.scans[id].status == Running)
  }

  /** One event was appended, numbered after those the scan had; no other event was touched. */
  ghost predicate Announces(
    db: Db, db': Db, id: ScanId, percent: nat, stage: string, artefacts: Option<nat>)
  {
    && |db'.progress| == |db.progress| + 1
    && db'.progress[..|db.progress|] == db.progress
    && var event := db'.progress[|db.progress|];
       && event.scanId == id && event.percent == percent && event.stage == stage && event.artefacts == artefacts
       && event.sequence == |ProgressLog.EventsOf(db.progress, id)| + 1
  }

  /** Every other scan keeps its row, and no scan appears or goes. */
  ghost predicate OnlyRowOf(db: Db, db': Db, id: ScanId) {
    && id in db.scans
    && db'.scans.Keys == db.scans.Keys
    && db'.issued == db.issued
    && forall s :: s in db.scans && s != id ==> db'.scans[s] == db.scans[s]
  }

  /** The worker is gone, and the others are where they were. */
  ghost predicate IsDone(db: Db, db': Db, w: WorkerId) {
    && w !in db'.workers
    && (forall v :: v in db'.workers <==> v in db.workers && v != w)
    && (forall v :: v in db'.workers ==> db'.workers[v] == db.workers[v])
  }

  /** The worker moved on to a phase, and the others are where they were. */
  ghost predicate MovesTo(db: Db, db': Db, w: WorkerId, phase: Phase) {
    && w in db.workers && db'.workers.Keys == db.workers.Keys
    && db'.workers[w].phase == phase
    && db'.workers[w].scanId == db.workers[w].scanId && db'.workers[w].contentHash == db.workers[w].contentHash
    && (forall v :: v in db.workers && v != w ==> db'.workers[v] == db.workers[v])
  }

  lemma RecordingAnnounces(
    db: Db, db': Db, id: ScanId, percent: nat, stage: string, artefacts: Option<nat>)
    requires Invariant(db) && db'.progress == Recorded(db.progress, id, percent, stage, artefacts)
    ensures Announces(db, db', id, percent, stage, artefacts)
  {
    assert LogIsSound(db, id);
    ProgressLog.NextSequence(db.progress, id);
  }

  // ----- ingest -----

  /**
   A completed ingest: PARTIAL if the document has gaps and SUCCEEDED otherwise, with the report of the document and the
   first hash there is among the row's own, the worker's, and that of the text.
   */
  lemma IngestSettlesTheScan(db: Db, w: WorkerId, now: int)
    requires Invariant(db) && Enabled(db, Ingest(w, now))
    requires IsPending(db, db.workers[w].scanId)
    ensures var db' := Apply(db, Ingest(w, now));
            var id, document := db.workers[w].scanId, db.workers[w].phase.document;
            var given := db.workers[w].contentHash;
            && OnlyRowOf(db, db', id)
            && var was, row := db.scans[id], db'.scans[id];
               && (row.status == Partial <==> document.gaps > 0)
               && (row.status == Succeeded <==> document.gaps == 0)
               && row.report.scannersRun == [document.scanner] && row.report.toolVersions == document.tools
               && row.report.skipped == document.skipped && row.report.gaps == document.gaps
               && (IsNonEmpty(was.contentHash) ==> row.contentHash == was.contentHash)
               && (!IsNonEmpty(was.contentHash) && IsNonEmpty(given) ==> row.contentHash == given)
               && (!IsNonEmpty(was.contentHash) && !IsNonEmpty(given) ==> row.contentHash == Some(document.textHash))
               && row.finishedAt == Some(now)
               && row.target == was.target && row.createdAt == was.createdAt
               && row.startedAt == was.startedAt && row.errors == was.errors
  {
    GuardNeverFires(db, w, now);
  }

  lemma IngestAnnouncesCompletion(db: Db, w: WorkerId, now: int)
    requires Invariant(db) && Enabled(db, Ingest(w, now))
    requires IsPending(db, db.workers[w].scanId)
    ensures var db' := Apply(db, Ingest(w, now));
            && Announces(db, db', db.workers[w].scanId, 100, "completed", Some(|db.workers[w].phase.document.findings|))
            && IsDone(db, db', w)
  {
    GuardNeverFires(db, w, now);
    RecordingAnnounces(db, Apply(db, Ingest(w, now)), db.workers[w].scanId, 100, "completed",
                       Some(|db.workers[w].phase.document.findings|));
  }

  /** What was scanned for a scan that is finished, cancelled or deleted by now is thrown away. */
  lemma LateResponseIsDropped(db: Db, w: WorkerId, now: int)
    requires Enabled(db, Ingest(w, now)) && !IsPending(db, db.workers[w].scanId)
    ensures var db' := Apply(db, Ingest(w, now));
            && db'.scans == db.scans && db'.artefacts == db.artefacts && db'.progress == db.progress
            && db'.issued == db.issued && IsDone(db, db', w)
  {}

  // ----- the ingested rows -----

  /** No finding before `k`, or after it, has the same id. */
  ghost predicate IsFirst(findings: seq<Finding>, k: nat) {
    k < |findings| && forall j :: 0 <= j < k ==> findings[j].id != findings[k].id
  }

  ghost predicate IsLast(findings: seq<Finding>, k: nat) {
    k < |findings| && forall j :: k < j < |findings| ==> findings[j].id != findings[k].id
  }

  /** A row is written once: by what the table had, or else by the first finding of its id. */
  lemma {:induction false} FirstFindingWrites(
    artefacts: map<ArtefactId, ArtefactRow>, findings: seq<Finding>, id: ScanId, now: int, k: nat)
    requires IsFirst(findings, k)
    ensures var f, after := findings[k], Upsert(artefacts, findings, id, now);
            && f.id in after
            && after[f.id].core == (if f.id in artefacts then artefacts[f.id].core else f.core)
            && after[f.id].firstSeen == (if f.id in artefacts then artefacts[f.id].firstSeen else f.seen)
  {
    var n := |findings| - 1;
    if k < n {
      FirstFindingWrites(artefacts, findings[..n], id, now, k);
    } else {
      UpsertMovesExactlyTheFindings(artefacts, findings[..n], id, now);
      assert forall f :: f in findings[..n] ==> f.id != findings[n].id;
    }
  }

  /** The last finding of an id labels and places its row, which has been seen now unless that finding inserted it. */
  lemma {:induction false} LastFindingLabels(
    artefacts: map<ArtefactId, ArtefactRow>, findings: seq<Finding>, id: ScanId, now: int, k: nat)
    requires IsLast(findings, k)
    ensures var f, after := findings[k], Upsert(artefacts, findings, id, now);
            && f.id in after && after[f.id].scanId == id
            && after[f.id].vulnerability == f.vulnerability && after[f.id].location == f.location
            && after[f.id].lastSeen == (if f.id !in artefacts && IsFirst(findings, k) then f.seen else now)
  {
    var n := |findings| - 1;
    if k < n {
      LastFindingLabels(artefacts, findings[..n], id, now, k);
    } else {
      UpsertMovesExactlyTheFindings(artefacts, findings[..n], id, now);
      assert IsFirst(findings, n) <==> forall f :: f in findings[..n] ==> f.id != findings[n].id;
    }
  }

  /** The table after a completed ingest, row by row. */
  lemma IngestWritesTheFindings(db: Db, w: WorkerId, now: int, k: nat)
    requires Invariant(db) && Enabled(db, Ingest(w, now))
    requires IsPending(db, db.workers[w].scanId)
    ensures var was, rows := db.artefacts, Apply(db, Ingest(w, now)).artefacts;
            var findings := db.workers[w].phase.document.findings;
            && (forall a :: a in was && (forall f :: f in findings ==> f.id != a) ==> a in rows && rows[a] == was[a])
            && (forall a :: a in rows ==> a in was || exists f :: f in findings && f.id == a)
            && (IsFirst(findings, k) ==>
                  var f := findings[k];
                  && f.id in rows
                  && rows[f.id].core == (if f.id in was then was[f.id].core else f.core)
                  && rows[f.id].firstSeen == (if f.id in was then was[f.id].firstSeen else f.seen))
            && (IsLast(findings, k) ==>
                  var f := findings[k];
                  && f.id in rows && rows[f.id].scanId == db.workers[w].scanId
                  && rows[f.id].vulnerability == f.vulnerability && rows[f.id].location == f.location
                  && rows[f.id].lastSeen == (if f.id !in was && IsFirst(findings, k) then f.seen else now))
  {
    GuardNeverFires(db, w, now);
    var findings, id := db.workers[w].phase.document.findings, db.workers[w].scanId;
    UpsertMovesExactlyTheFindings(db.artefacts, findings, id, now);
    if IsFirst(findings, k) {
      FirstFindingWrites(db.artefacts, findings, id, now, k);
    }
    if IsLast(findings, k) {
      LastFindingLabels(db.artefacts, findings, id, now, k);
    }
  }

  // ----- handlers -----

  /** The row a new scan starts with. */
  ghost predicate IsQueued(row: ScanRow, target: string, scanners: seq<string>, now: int) {
    && row.status == Queued && row.target == target && row.createdAt == now
    && row.contentHash.None? && row.startedAt.None? && row.finishedAt.None? && row.errors == []
    && row.report.scannersRun == scanners && row.report.toolVersions == []
    && row.report.skipped == 0 && row.report.gaps == 0
  }

  ghost predicate Appears(db: Db, db': Db, id: ScanId) {
    && id !in db.scans && id in db'.scans
    && db'.issued == db.issued + {id}
    && db'.scans.Keys == db.scans.Keys + {id}
    && (forall s :: s in db.scans ==> db'.scans[s] == db.scans[s])
    && db'.artefacts == db.artefacts && db'.workers == db.workers
  }

  /** A new scan, and a rescan of an old one: the rescan takes over the target and the scanners, nothing else. */
  lemma CreateQueues(db: Db, id: ScanId, target: string, scanners: seq<string>, now: int)
    requires Invariant(db) && Enabled(db, Create(id, target, scanners, now))
    ensures var db' := Apply(db, Create(id, target, scanners, now));
            && Appears(db, db', id) && IsQueued(db'.scans[id], target, scanners, now)
            && Announces(db, db', id, 0, "queued", Some(0))
  {
    RecordingAnnounces(db, Apply(db, Create(id, target, scanners, now)), id, 0, "queued", Some(0));
  }

  lemma RescanQueues(db: Db, id: ScanId, original: ScanId, now: int)
    requires Invariant(db) && Enabled(db, Rescan(id, original, now))
    ensures var db' := Apply(db, Rescan(id, original, now));
            && Appears(db, db', id)
            && IsQueued(db'.scans[id], db.scans[original].target, db.scans[original].report.scannersRun, now)
            && Announces(db, db', id, 0, "queued", None)
  {
    RecordingAnnounces(db, Apply(db, Rescan(id, original, now)), id, 0, "queued", None);
  }

  /** Status, end and errors of a row; everything else stays. */
  ghost predicate IsClosed(was: ScanRow, row: ScanRow, status: ScanStatus, now: int, errors: seq<string>) {
    && row.status == status && row.finishedAt == Some(now) && row.errors == errors
    && row.target == was.target && row.contentHash == was.contentHash && row.createdAt == was.createdAt
    && row.startedAt == was.startedAt && row.report == was.report
  }

  /** A refused dispatch fails the scan whatever its status; only for a new scan is there an event. */
  lemma RefusedDispatchFails(db: Db, id: ScanId, isRescan: bool, error: string, now: int)
    requires Invariant(db)
    ensures var db' := Apply(db, DispatchFailure(id, isRescan, error, now));
            && (id !in db.scans ==> db' == db)
            && (id in db.scans ==>
                  && OnlyRowOf(db, db', id) && IsClosed(db.scans[id], db'.scans[id], Failed, now, [error])
                  && (isRescan ==> db'.progress == db.progress)
                  && (!isRescan ==> Announces(db, db', id, 100, "failed", None))
                  && db'.artefacts == db.artefacts && db'.workers == db.workers)
  {
    if id in db.scans && !isRescan {
      RecordingAnnounces(db, Apply(db, DispatchFailure(id, isRescan, error, now)), id, 100, "failed", None);
    }
  }

  /** Cancelling touches a scan that is QUEUED or RUNNING, and only its status and end; any other is left as it is. */
  lemma CancelStopsPendingScans(db: Db, id: ScanId, now: int)
    requires Invariant(db)
    ensures var db' := Apply(db, Cancel(id, now));
            && (!IsPending(db, id) ==> db' == db)
            && (IsPending(db, id) ==>
                  && OnlyRowOf(db, db', id) && IsClosed(db.scans[id], db'.scans[id], Cancelled, now, db.scans[id].errors)
                  && Announces(db, db', id, 100, "cancelled", None)
                  && db'.artefacts == db.artefacts && db'.workers == db.workers)
  {
    if IsPending(db, id) {
      RecordingAnnounces(db, Apply(db, Cancel(id, now)), id, 100, "cancelled", None);
    }
  }

  /** Deleting removes the row, the artefacts it owns and its events, and nothing of any other scan. */
  lemma DeleteRemovesExactlyTheScan(db: Db, id: ScanId, other: ScanId)
    requires Invariant(db) && id in db.scans && other != id
    ensures var db' := Apply(db, Delete(id));
            && id !in db'.scans && db'.issued == db.issued && db'.workers == db.workers
            && (forall a :: a in db'.artefacts <==> a in db.artefacts && db.artefacts[a].scanId != id)
            && (forall a :: a in db'.artefacts ==> db'.artefacts[a] == db.artefacts[a])
            && (forall event :: event in db'.progress ==> event.scanId != id)
            && (other in db'.scans <==> other in db.scans)
            && (other in db.scans ==> db'.scans[other] == db.scans[other])
            && ProgressLog.EventsOf(db'.progress, other) == ProgressLog.EventsOf(db.progress, other)
  {
    ProgressLog.EventsAfterDelete(db.progress, id, other);
  }

  // ----- first block -----

  /** `c` finished for the same target with the same content. */
  predicate IsReusable(db: Db, c: ScanId, target: string, hash: string) {
    && c in db.scans && db.scans[c].target == target && db.scans[c].contentHash == Some(hash)
    && (db.scans[c].status == Succeeded || db.scans[c].status == Partial)
  }

  /** The hash a scan is looked up under: its own, or else the one the worker was given. */
  function LookupHash(row: ScanRow, given: Option<string>): Option<string> {
    if IsNonEmpty(row.contentHash) then row.contentHash
    else if IsNonEmpty(given) then given
    else None
  }

  /** Which scan is reused: none without a hash or a match, and otherwise a match no other match is younger than. */
  lemma ReusedScanIsTheLatestMatch(
    db: Db, w: WorkerId, id: ScanId, hash: Option<string>, cached: Option<ScanId>, names: map<ArtefactId, ArtefactId>, now: int)
    requires Enabled(db, Begin(w, id, hash, cached, names, now)) && IsPending(db, id)
    ensures var row, lookup := db.scans[id], LookupHash(db.scans[id], hash);
            && (lookup.None? ==> cached.None?)
            && (lookup.Some? && cached.None? ==> forall c :: !IsReusable(db, c, row.target, lookup.value))
            && (lookup.Some? && cached.Some? ==>
                  && IsReusable(db, cached.value, row.target, lookup.value)
                  && (forall c :: IsReusable(db, c, row.target, lookup.value) ==>
                        db.scans[c].createdAt <= db.scans[cached.value].createdAt)
                  && cached.value != id)
  {}

  /** A cache hit takes over status and report of the scan it reuses, and says how many artefacts were copied. */
  lemma CacheHitTakesOverTheReport(
    db: Db, w: WorkerId, id: ScanId, hash: Option<string>, source: ScanId, names: map<ArtefactId, ArtefactId>, now: int)
    requires Invariant(db) && Enabled(db, Begin(w, id, hash, Some(source), names, now)) && IsPending(db, id)
    ensures var db' := Apply(db, Begin(w, id, hash, Some(source), names, now));
            && OnlyRowOf(db, db', id) && db'.workers == db.workers
            && Announces(db, db', id, 100, "completed", Some(|Owned(db.artefacts, source)|))
            && var was, row := db.scans[id], db'.scans[id];
               && row.status == db.scans[source].status && row.report == db.scans[source].report
               && row.finishedAt == Some(now) && row.contentHash == LookupHash(was, hash)
               && row.target == was.target && row.createdAt == was.createdAt
               && row.startedAt == was.startedAt && row.errors == was.errors
  {
    RecordingAnnounces(db, Apply(db, Begin(w, id, hash, Some(source), names, now)), id, 100, "completed",
                       Some(|Owned(db.artefacts, source)|));
  }

  /** Without a hit the scan runs, and the worker carries on with the hash it was given. */
  lemma CacheMissStartsTheScan(
    db: Db, w: WorkerId, id: ScanId, hash: Option<string>, names: map<ArtefactId, ArtefactId>, now: int)
    requires Invariant(db) && Enabled(db, Begin(w, id, hash, None, names, now)) && IsPending(db, id)
    ensures var db' := Apply(db, Begin(w, id, hash, None, names, now));
            && OnlyRowOf(db, db', id) && db'.artefacts == db.artefacts
            && Announces(db, db', id, 1, "preparing", None)
            && db'.workers.Keys == db.workers.Keys + {w}
            && db'.workers[w].scanId == id && db'.workers[w].contentHash == hash && db'.workers[w].phase == Preparing
            && (forall v :: v in db.workers ==> db'.workers[v] == db.workers[v])
            && var was, row := db.scans[id], db'.scans[id];
               && row.status == Running && row.startedAt == Some(now)
               && (LookupHash(was, hash).Some? ==> row.contentHash == LookupHash(was, hash))
               && (LookupHash(was, hash).None? ==> row.contentHash == was.contentHash)
               && row.target == was.target && row.createdAt == was.createdAt && row.finishedAt == was.finishedAt
               && row.report == was.report && row.errors == was.errors
  {
    RecordingAnnounces(db, Apply(db, Begin(w, id, hash, None, names, now)), id, 1, "preparing", None);
  }

  /** A scan that is gone or over is not started: nothing at all happens. */
  lemma RedeliveryDoesNothing(
    db: Db, w: WorkerId, id: ScanId, hash: Option<string>, cached: Option<ScanId>, names: map<ArtefactId, ArtefactId>, now: int)
    requires Enabled(db, Begin(w, id, hash, cached, names, now)) && !IsPending(db, id)
    ensures Apply(db, Begin(w, id, hash, cached, names, now)) == db
  {}

  // ----- later blocks -----

  /** The scan is announced as long as its row exists, whatever its status. */
  lemma AnnounceIgnoresStatus(db: Db, w: WorkerId)
    requires Invariant(db) && Enabled(db, Announce(w))
    ensures var db', id := Apply(db, Announce(w)), db.workers[w].scanId;
            && db'.scans == db.scans && db'.artefacts == db.artefacts && db'.issued == db.issued
            && (id !in db.scans ==> IsDone(db, db', w) && db'.progress == db.progress)
            && (id in db.scans ==>
                  MovesTo(db, db', w, Scanning) && Announces(db, db', id, 10, "scanning", Some(0)))
  {
    if db.workers[w].scanId in db.scans {
      RecordingAnnounces(db, Apply(db, Announce(w)), db.workers[w].scanId, 10, "scanning", Some(0));
    }
  }

  /** An error anywhere fails the scan as long as its row exists, whatever its status. */
  lemma ErrorFailsTheScan(db: Db, w: WorkerId, now: int)
    requires Invariant(db) && Enabled(db, RecordFailure(w, now))
    ensures var db', id := Apply(db, RecordFailure(w, now)), db.workers[w].scanId;
            && IsDone(db, db', w) && db'.artefacts == db.artefacts && db'.issued == db.issued
            && (id !in db.scans ==> db'.scans == db.scans && db'.progress == db.progress)
            && (id in db.scans ==>
                  && OnlyRowOf(db, db', id)
                  && IsClosed(db.scans[id], db'.scans[id], Failed, now, [db.workers[w].phase.error])
                  && Announces(db, db', id, 100, "failed", None))
  {
    if db.workers[w].scanId in db.scans {
      RecordingAnnounces(db, Apply(db, RecordFailure(w, now)), db.workers[w].scanId, 100, "failed", None);
    }
  }

  ghost predicate IsPrivate(db: Db, db': Db) {
    db'.scans == db.scans && db'.artefacts == db.artefacts && db'.progress == db.progress && db'.issued == db.issued
  }

  /** What the scanner answers, and every error on the way, is known to its own worker alone until the next block. */
  lemma ResponsesStayWithTheWorker(db: Db, w: WorkerId, document: Document, error: string)
    ensures Enabled(db, Respond(w, document)) ==>
              && IsPrivate(db, Apply(db, Respond(w, document)))
              && MovesTo(db, Apply(db, Respond(w, document)), w, Responded(document))
    ensures Enabled(db, PrepareFailure(w, error)) ==>
              && IsPrivate(db, Apply(db, PrepareFailure(w, error)))
              && MovesTo(db, Apply(db, PrepareFailure(w, error)), w, Failing(error))
    ensures Enabled(db, ScannerFailure(w, error)) ==>
              && IsPrivate(db, Apply(db, ScannerFailure(w, error)))
              && MovesTo(db, Apply(db, ScannerFailure(w, error)), w, Failing(error))
    ensures Enabled(db, IngestFailure(w, error)) ==>
              && IsPrivate(db, Apply(db, IngestFailure(w, error)))
              && MovesTo(db, Apply(db, IngestFailure(w, error)), w, Failing(error))
    ensures Enabled(db, Vanish(w)) ==> IsPrivate(db, Apply(db, Vanish(w))) && IsDone(db, Apply(db, Vanish(w)), w)
  {}
}
