/**
 The scan lifecycle as a state machine over the shared tables: every `with session_factory()` block of the worker
 and every API handler up to its commit is one atomic step, and steps interleave arbitrarily
 (backend/app/services/scan_orchestrator.py, backend/app/api/routes.py, backend/app/services/cache.py,
 backend/app/repositories/__init__.py).

 Clocks, uuid4 and the scanner are parameters of the steps: `now`, fresh ids, and the document or error returned.
 */
module ScanModel {
  import opened Wrappers
  import opened Enums

  type ScanId = string
  type ArtefactId = string
  type WorkerId = nat

  // ----- tables -----

  /** The columns of an artefact row that ingest writes once and a clone copies. */
  datatype Core = Core(
    applicationId: Option<string>,
    kind: AssetType,
    name: string,
    algorithm: Option<string>,
    primitive: Option<Primitive>,
    purposes: seq<Purpose>,
    detail: string,
    evidence: seq<string>,
    discoveredBy: string)

  datatype ArtefactRow = ArtefactRow(
    scanId: ScanId,
    core: Core,
    vulnerability: QuantumVulnerability,
    location: string,
    firstSeen: int,
    lastSeen: int)

  /** What a finished scan reports about itself. */
  datatype Report = Report(scannersRun: seq<string>, toolVersions: seq<string>, skipped: nat, gaps: nat)

  datatype ScanRow = ScanRow(
    target: string,
    status: ScanStatus,
    contentHash: Option<string>,
    createdAt: int,
    startedAt: Option<int>,
    finishedAt: Option<int>,
    report: Report,
    errors: seq<string>)

  datatype ProgressRow = ProgressRow(
    scanId: ScanId, sequence: nat, percent: nat, stage: string, artefacts: Option<nat>)

  /** One artefact of an ingested document. */
  datatype Finding = Finding(
    id: ArtefactId,
    core: Core,
    vulnerability: QuantumVulnerability,
    location: string,
    seen: int)

  /** What the scanner produced, after ingest has parsed it; `textHash` is the hash of its text. */
  datatype Document = Document(
    findings: seq<Finding>, scanner: string, tools: seq<string>, skipped: nat, gaps: nat, textHash: string)

  /** Where a running `execute_scan` call stands between two of its session blocks. */
  datatype Phase =
    | Preparing
    | Scanning
    | Responded(document: Document)
    | Failing(error: string)

  datatype Worker = Worker(scanId: ScanId, contentHash: Option<string>, phase: Phase)

  /** `issued` records every scan id uuid4 has handed out, so that a fresh id is one outside it. */
  datatype Db = Db(
    scans: map<ScanId, ScanRow>,
    artefacts: map<ArtefactId, ArtefactRow>,
    progress: seq<ProgressRow>,
    workers: map<WorkerId, Worker>,
    issued: set<ScanId>)

  const EMPTY: Db := Db(map[], map[], [], map[], {})

  // ----- progress log -----

  /** `coalesce(max(sequence), 0)` over the rows of one scan. */
  function MaxSequence(rows: seq<ProgressRow>, id: ScanId): nat {
    if rows == [] then 0
    else
      var last := rows[|rows| - 1];
      var rest := MaxSequence(rows[..|rows| - 1], id);
      if last.scanId == id && last.sequence > rest then last.sequence else rest
  }

  function Recorded(rows: seq<ProgressRow>, id: ScanId, percent: nat, stage: string, artefacts: Option<nat>)
    : seq<ProgressRow>
  {
    rows + [ProgressRow(id, MaxSequence(rows, id) + 1, percent, stage, artefacts)]
  }

  function WithoutScan(rows: seq<ProgressRow>, id: ScanId): seq<ProgressRow> {
    if rows == [] then []
    else
      var last := rows[|rows| - 1];
      WithoutScan(rows[..|rows| - 1], id) + if last.scanId == id then [] else [last]
  }

  // ----- artefact ownership -----

  function Owned(artefacts: map<ArtefactId, ArtefactRow>, id: ScanId): set<ArtefactId> {
    set a | a in artefacts && artefacts[a].scanId == id
  }

  /** One finding: an existing row is moved to the scan and refreshed, otherwise a row is inserted. */
  function UpsertOne(artefacts: map<ArtefactId, ArtefactRow>, f: Finding, id: ScanId, now: int)
    : map<ArtefactId, ArtefactRow>
  {
    if f.id in artefacts
    then artefacts[f.id := artefacts[f.id].(
                     scanId := id, lastSeen := now, vulnerability := f.vulnerability, location := f.location)]
    else artefacts[f.id := ArtefactRow(id, f.core, f.vulnerability, f.location, f.seen, f.seen)]
  }

  function Upsert(artefacts: map<ArtefactId, ArtefactRow>, findings: seq<Finding>, id: ScanId, now: int)
    : map<ArtefactId, ArtefactRow>
  {
    if findings == [] then artefacts
    else UpsertOne(Upsert(artefacts, findings[..|findings| - 1], id, now), findings[|findings| - 1], id, now)
  }

  function FindingIds(findings: seq<Finding>): set<ArtefactId> {
    set f | f in findings :: f.id
  }

  ghost predicate IsInjective(names: map<ArtefactId, ArtefactId>) {
    forall a, b :: a in names && b in names && names[a] == names[b] ==> a == b
  }

  /** uuid4 gives every row to be cloned an id of its own that no row has yet. */
  ghost predicate NamesClones(artefacts: map<ArtefactId, ArtefactRow>, source: ScanId, names: map<ArtefactId, ArtefactId>) {
    && Owned(artefacts, source) <= names.Keys
    && (forall a :: a in names ==> names[a] !in artefacts)
    && IsInjective(names)
  }

  /** Some rows under their new ids: same columns, new owner, seen now. */
  ghost function Copies(
    artefacts: map<ArtefactId, ArtefactRow>, rows: set<ArtefactId>, names: map<ArtefactId, ArtefactId>,
    target: ScanId, now: int)
    : map<ArtefactId, ArtefactRow>
    requires rows <= artefacts.Keys && rows <= names.Keys && IsInjective(names)
  {
    map a | a in rows :: names[a] := artefacts[a].(scanId := target, lastSeen := now)
  }

  ghost function Cloned(
    artefacts: map<ArtefactId, ArtefactRow>, source: ScanId, target: ScanId, names: map<ArtefactId, ArtefactId>, now: int)
    : map<ArtefactId, ArtefactRow>
    requires NamesClones(artefacts, source, names)
  {
    artefacts + Copies(artefacts, Owned(artefacts, source), names, target, now)
  }

  // ----- cache lookup -----

  /** Python truthiness of an optional string. */
  predicate IsSet(s: Option<string>) {
    s.Some? && s.value != ""
  }

  predicate Matches(row: ScanRow, target: string, hash: string) {
    && row.target == target
    && row.contentHash == Some(hash)
    && (row.status == Succeeded || row.status == Partial)
  }

  /** The latest successful scan of the same target and content; ties go to either. */
  ghost predicate IsCacheAnswer(scans: map<ScanId, ScanRow>, target: string, hash: Option<string>, answer: Option<ScanId>) {
    if !IsSet(hash) then answer == None
    else match answer
      case None => forall c :: c in scans ==> !Matches(scans[c], target, hash.value)
      case Some(c) =>
        && c in scans && Matches(scans[c], target, hash.value)
        && forall d :: d in scans && Matches(scans[d], target, hash.value) ==> scans[d].createdAt <= scans[c].createdAt
  }

  /** A hash given to the worker is stored only when the row has none. */
  function WithHash(row: ScanRow, hash: Option<string>): ScanRow {
    if IsSet(hash) && !IsSet(row.contentHash) then row.(contentHash := hash) else row
  }

  // ----- steps -----

  datatype Step =
    | Create(id: ScanId, target: string, scanners: seq<string>, now: int)
    | Rescan(id: ScanId, original: ScanId, now: int)
    | DispatchFailure(id: ScanId, isRescan: bool, error: string, now: int)
    | Cancel(id: ScanId, now: int)
    | Delete(id: ScanId)
    | Begin(w: WorkerId, id: ScanId, hash: Option<string>, cached: Option<ScanId>, names: map<ArtefactId, ArtefactId>, now: int)
    | PrepareFailure(w: WorkerId, error: string)
    | Announce(w: WorkerId)
    | Respond(w: WorkerId, document: Document)
    | ScannerFailure(w: WorkerId, error: string)
    | Ingest(w: WorkerId, now: int)
    | IngestFailure(w: WorkerId, error: string)
    | RecordFailure(w: WorkerId, now: int)
    | Vanish(w: WorkerId)

  /** The scan the first block of `execute_scan` acts on: present and not terminal. */
  predicate IsLive(db: Db, id: ScanId) {
    id in db.scans && !IsTerminal(db.scans[id].status)
  }

  ghost predicate Enabled(db: Db, step: Step) {
    match step
    case Create(id, _, _, _) => id !in db.issued
    case Rescan(id, original, _) => id !in db.issued && original in db.scans
    case DispatchFailure(_, _, _, _) => true
    case Cancel(_, _) => true
    case Delete(_) => true
    case Begin(w, id, hash, cached, names, _) =>
      && w !in db.workers
      && (IsLive(db, id) ==>
            var row := WithHash(db.scans[id], hash);
            && IsCacheAnswer(db.scans, row.target, row.contentHash, cached)
            && (cached.Some? ==> NamesClones(db.artefacts, cached.value, names)))
    case PrepareFailure(w, _) => w in db.workers && db.workers[w].phase.Preparing?
    case Announce(w) => w in db.workers && db.workers[w].phase.Preparing?
    case Respond(w, _) => w in db.workers && db.workers[w].phase.Scanning?
    case ScannerFailure(w, _) => w in db.workers && db.workers[w].phase.Scanning?
    case Ingest(w, _) => w in db.workers && db.workers[w].phase.Responded?
    case IngestFailure(w, _) => w in db.workers && db.workers[w].phase.Responded?
    case RecordFailure(w, _) => w in db.workers && db.workers[w].phase.Failing?
    case Vanish(w) => w in db.workers
  }

  function InPhase(db: Db, w: WorkerId, phase: Phase): Db
    requires w in db.workers
  {
    db.(workers := db.workers[w := db.workers[w].(phase := phase)])
  }

  function Gone(db: Db, w: WorkerId): Db {
    db.(workers := db.workers - {w})
  }

  /** A new QUEUED row with its first event. */
  function AfterQueue(db: Db, id: ScanId, target: string, scanners: seq<string>, artefacts: Option<nat>, now: int): Db {
    var row := ScanRow(target, Queued, None, now, None, None, Report(scanners, [], 0, 0), []);
    db.(scans := db.scans[id := row],
        progress := Recorded(db.progress, id, 0, "queued", artefacts),
        issued := db.issued + {id})
  }

  /** The broker refused the task: the row, if it still exists, becomes FAILED whatever its status is by now. */
  function AfterDispatchFailure(db: Db, id: ScanId, isRescan: bool, error: string, now: int): Db {
    if id !in db.scans then db
    else
      db.(scans := db.scans[id := db.scans[id].(status := Failed, finishedAt := Some(now), errors := [error])],
          progress := if isRescan then db.progress else Recorded(db.progress, id, 100, "failed", None))
  }

  function AfterCancel(db: Db, id: ScanId, now: int): Db {
    if !IsLive(db, id) then db
    else
      db.(scans := db.scans[id := db.scans[id].(status := Cancelled, finishedAt := Some(now))],
          progress := Recorded(db.progress, id, 100, "cancelled", None))
  }

  /** The row goes with its artefacts and its progress events. */
  function AfterDelete(db: Db, id: ScanId): Db {
    if id !in db.scans then db
    else
      db.(scans := db.scans - {id},
          artefacts := db.artefacts - Owned(db.artefacts, id),
          progress := WithoutScan(db.progress, id))
  }

  /** First block: nothing for a finished scan, a copy on a cache hit, otherwise RUNNING. */
  ghost function AfterBegin(
    db: Db, w: WorkerId, id: ScanId, hash: Option<string>, cached: Option<ScanId>, names: map<ArtefactId, ArtefactId>, now: int)
    : Db
    requires Enabled(db, Begin(w, id, hash, cached, names, now))
  {
    if !IsLive(db, id) then db
    else
      var row := WithHash(db.scans[id], hash);
      match cached
      case Some(c) =>
        var source := db.scans[c];
        db.(scans := db.scans[id := row.(status := source.status, report := source.report, finishedAt := Some(now))],
            artefacts := Cloned(db.artefacts, c, id, names, now),
            progress := Recorded(db.progress, id, 100, "completed", Some(|Owned(db.artefacts, c)|)))
      case None =>
        db.(scans := db.scans[id := row.(status := Running, startedAt := Some(now))],
            progress := Recorded(db.progress, id, 1, "preparing", None),
            workers := db.workers[w := Worker(id, hash, Preparing)])
  }

  /** Second block: it reports progress without looking at the status. */
  function AfterAnnounce(db: Db, w: WorkerId): Db
    requires w in db.workers
  {
    var id := db.workers[w].scanId;
    if id !in db.scans then Gone(db, w)
    else InPhase(db.(progress := Recorded(db.progress, id, 10, "scanning", Some(0))), w, Scanning)
  }

  /**
   Third block.  Where a row already owned by the scan is found, the code calls `__bool__` on it, which no row has:
   the block raises and the worker goes on to record a failure.
   */
  function AfterIngest(db: Db, w: WorkerId, now: int): Db
    requires w in db.workers && db.workers[w].phase.Responded?
  {
    var Worker(id, hash, phase) := db.workers[w];
    var document := phase.document;
    if !IsLive(db, id) then Gone(db, w)
    else if Owned(db.artefacts, id) != {} then InPhase(db, w, Failing("SCANNER_FAILED"))
    else
      var row := db.scans[id];
      var row' := if IsSet(row.contentHash) then row
                  else row.(contentHash := if IsSet(hash) then hash else Some(document.textHash));
      Gone(db, w).(
        scans := db.scans[id := row'.(
                            status := if document.gaps > 0 then Partial else Succeeded,
                            finishedAt := Some(now),
                            report := Report([document.scanner], document.tools, document.skipped, document.gaps))],
        artefacts := Upsert(db.artefacts, document.findings, id, now),
        progress := Recorded(db.progress, id, 100, "completed", Some(|document.findings|)))
  }

  /** Error block: FAILED, with no look at the status. */
  function AfterRecordFailure(db: Db, w: WorkerId, now: int): Db
    requires w in db.workers && db.workers[w].phase.Failing?
  {
    var Worker(id, _, phase) := db.workers[w];
    if id !in db.scans then Gone(db, w)
    else
      Gone(db, w).(
        scans := db.scans[id := db.scans[id].(status := Failed, finishedAt := Some(now), errors := [phase.error])],
        progress := Recorded(db.progress, id, 100, "failed", None))
  }

  ghost function Apply(db: Db, step: Step): Db
    requires Enabled(db, step)
  {
    match step
    case Create(id, target, scanners, now) => AfterQueue(db, id, target, scanners, Some(0), now)
    case Rescan(id, original, now) =>
      AfterQueue(db, id, db.scans[original].target, db.scans[original].report.scannersRun, None, now)
    case DispatchFailure(id, isRescan, error, now) => AfterDispatchFailure(db, id, isRescan, error, now)
    case Cancel(id, now) => AfterCancel(db, id, now)
    case Delete(id) => AfterDelete(db, id)
    case Begin(w, id, hash, cached, names, now) => AfterBegin(db, w, id, hash, cached, names, now)
    case PrepareFailure(w, error) => InPhase(db, w, Failing(error))
    case Announce(w) => AfterAnnounce(db, w)
    case Respond(w, document) => InPhase(db, w, Responded(document))
    case ScannerFailure(w, error) => InPhase(db, w, Failing(error))
    case Ingest(w, now) => AfterIngest(db, w, now)
    case IngestFailure(w, error) => InPhase(db, w, Failing(error))
    case RecordFailure(w, now) => AfterRecordFailure(db, w, now)
    case Vanish(w) => Gone(db, w)
  }

  /** A run: the tables before the first step and after each one. */
  ghost predicate IsRun(states: seq<Db>, steps: seq<Step>) {
    && |states| == |steps| + 1
    && states[0] == EMPTY
    && forall i {:trigger steps[i]} :: 0 <= i < |steps| ==>
         Enabled(states[i], steps[i]) && states[i + 1] == Apply(states[i], steps[i])
  }
}
