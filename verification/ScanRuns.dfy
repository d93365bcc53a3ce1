/** Safety over whole runs of the scan protocol, whatever the interleaving. */
module ScanRuns {
  import opened Wrappers
  import opened Enums
  import opened ScanModel
  import opened ProgressLog
  import opened ScanInvariants

  /**
   In every reachable state a scan that has not finished, or was cancelled, owns no artefacts; finished scans are
   accounted for; and every progress log is numbered 1..n.
   */
  lemma {:induction false} ReachableStatesAreSafe(states: seq<Db>, steps: seq<Step>, i: nat)
    requires IsRun(states, steps) && i < |states|
    ensures Invariant(states[i])
    ensures forall id :: IsNumbered(EventsOf(states[i].progress, id))
    ensures forall id :: IsLive(states[i], id) ==> Owned(states[i].artefacts, id) == {}
  {
    if i == 0 {
      assert LogsAreSound(EMPTY);
    } else {
      ReachableStatesAreSafe(states, steps, i - 1);
      StepKeepsInvariant(states[i - 1], steps[i - 1]);
    }
    forall id ensures IsNumbered(EventsOf(states[i].progress, id)) {
      assert LogIsSound(states[i], id);
    }
    forall id | IsLive(states[i], id) ensures Owned(states[i].artefacts, id) == {} {
      LiveScansOwnNothing(states[i], id);
    }
  }

  lemma RunEvolves(states: seq<Db>, steps: seq<Step>, i: nat, id: ScanId)
    requires IsRun(states, steps) && i < |steps|
    ensures Evolves(states[i], states[i + 1], id)
  {
    ReachableStatesAreSafe(states, steps, i);
    StepKeepsInvariant(states[i], steps[i]);
  }

  // ----- finished is for ever -----

  /** The scan has reached a terminal status, or has been deleted. */
  ghost predicate IsOver(db: Db, id: ScanId) {
    id in db.issued && !IsLive(db, id)
  }

  /** No step takes a scan from terminal to non-terminal, no deleted scan returns, and neither gains artefacts. */
  lemma {:induction false} OverIsForever(states: seq<Db>, steps: seq<Step>, id: ScanId, i: nat, j: nat)
    requires IsRun(states, steps) && i <= j < |states|
    requires IsOver(states[i], id)
    ensures IsOver(states[j], id)
    ensures Owned(states[j].artefacts, id) <= Owned(states[i].artefacts, id)
    decreases j - i
  {
    if i < j {
      RunEvolves(states, steps, i, id);
      OverIsForever(states, steps, id, i + 1, j);
    }
  }

  /** Each scan is completed at most once, so its artefacts are ingested or copied in at most one step of the run. */
  lemma CompletedAtMostOnce(states: seq<Db>, steps: seq<Step>, id: ScanId, i: nat, j: nat)
    requires IsRun(states, steps) && i < j < |steps|
    requires Completes(states[i], states[i + 1], id)
    ensures !Completes(states[j], states[j + 1], id)
    ensures Owned(states[j + 1].artefacts, id) <= Owned(states[j].artefacts, id)
  {
    ReachableStatesAreSafe(states, steps, i + 1);
    OverIsForever(states, steps, id, i + 1, j);
    RunEvolves(states, steps, j, id);
  }

  /** A cancelled scan: gone, or still CANCELLED, or turned FAILED by a late error; without artefacts in any case. */
  ghost predicate IsWithdrawn(db: Db, id: ScanId) {
    && IsOver(db, id)
    && Owned(db.artefacts, id) == {}
    && (id in db.scans ==> db.scans[id].status in {Cancelled, Failed})
  }

  /** A scan that was ever CANCELLED owns no artefacts for the rest of the run. */
  lemma {:induction false} CancelledOwnsNothingEver(states: seq<Db>, steps: seq<Step>, id: ScanId, i: nat, j: nat)
    requires IsRun(states, steps) && i <= j < |states|
    requires id in states[i].scans && states[i].scans[id].status == Cancelled
    ensures IsWithdrawn(states[j], id)
    decreases j - i
  {
    ReachableStatesAreSafe(states, steps, i);
    LiveScansOwnNothing(states[i], id);
    WithdrawnIsForever(states, steps, id, i, j);
  }

  lemma {:induction false} WithdrawnIsForever(states: seq<Db>, steps: seq<Step>, id: ScanId, i: nat, j: nat)
    requires IsRun(states, steps) && i <= j < |states|
    requires IsWithdrawn(states[i], id)
    ensures IsWithdrawn(states[j], id)
    decreases j - i
  {
    if i < j {
      RunEvolves(states, steps, i, id);
      WithdrawnIsForever(states, steps, id, i + 1, j);
    }
  }

  // ----- a terminal status can still change -----

  /** The two blocks that write FAILED without looking at the status. */
  ghost predicate WritesFailure(db: Db, step: Step, id: ScanId) {
    || (step.DispatchFailure? && step.id == id)
    || (step.RecordFailure? && step.w in db.workers && db.workers[step.w].scanId == id)
  }

  /** A terminal status changes exactly when one of those blocks runs on a scan that is not FAILED already. */
  lemma TerminalStatusChangesExactlyOnLateFailure(db: Db, step: Step, id: ScanId)
    requires Invariant(db) && Enabled(db, step)
    requires id in db.scans && IsTerminal(db.scans[id].status)
    requires id in Apply(db, step).scans
    ensures Apply(db, step).scans[id].status != db.scans[id].status
            <==> WritesFailure(db, step, id) && db.scans[id].status != Failed
    ensures WritesFailure(db, step, id) ==> Apply(db, step).scans[id].status == Failed
  {}

  lemma ExtendRun(states: seq<Db>, steps: seq<Step>, step: Step) returns (states': seq<Db>, steps': seq<Step>)
    requires IsRun(states, steps) && Enabled(states[|steps|], step)
    ensures IsRun(states', steps')
    ensures states' == states + [Apply(states[|steps|], step)] && steps' == steps + [step]
  {
    states', steps' := states + [Apply(states[|steps|], step)], steps + [step];
    forall i | 0 <= i < |steps'|
      ensures Enabled(states'[i], steps'[i]) && states'[i + 1] == Apply(states'[i], steps'[i])
    {
      assert i < |steps| ==> steps'[i] == steps[i] && states'[i] == states[i];
    }
  }

  /** `s` has the given status and no hash; worker 0 works on it in the given phase. */
  ghost predicate IsAt(db: Db, s: ScanId, status: ScanStatus, phase: Phase) {
    && s in db.scans && db.scans[s].status == status && db.scans[s].contentHash == None
    && 0 in db.workers && db.workers[0] == Worker(s, None, phase)
  }

  lemma FirstSteps(s: ScanId) returns (states: seq<Db>, steps: seq<Step>)
    ensures IsRun(states, steps) && |steps| == 2
    ensures IsAt(states[2], s, Running, Preparing)
  {
    states, steps := [EMPTY], [];
    states, steps := ExtendRun(states, steps, Create(s, "repo", [], 0));
    assert IsLive(states[1], s);
    states, steps := ExtendRun(states, steps, Begin(0, s, None, None, map[], 1));
  }

  /** A run in which a cancelled scan ends up FAILED: the worker's preparation error arrives after the cancellation. */
  lemma LateErrorOverwritesCancellation(s: ScanId) returns (states: seq<Db>, steps: seq<Step>)
    ensures IsRun(states, steps) && |steps| == 5
    ensures s in states[4].scans && states[4].scans[s].status == Cancelled
    ensures s in states[5].scans && states[5].scans[s].status == Failed
  {
    states, steps := FirstSteps(s);
    states, steps := ExtendRun(states, steps, PrepareFailure(0, "TARGET_NOT_FOUND"));
    assert IsAt(states[3], s, Running, Failing("TARGET_NOT_FOUND"));
    states, steps := ExtendRun(states, steps, Cancel(s, 2));
    assert IsAt(states[4], s, Cancelled, Failing("TARGET_NOT_FOUND"));
    states, steps := ExtendRun(states, steps, RecordFailure(0, 3));
  }

  // ----- progress readers over a run -----

  /** As long as a scan is there, what has been recorded for it is never changed or removed, only extended. */
  lemma {:induction false} LogOnlyGrows(states: seq<Db>, steps: seq<Step>, id: ScanId, i: nat, j: nat)
    requires IsRun(states, steps) && i <= j < |states|
    requires id in states[j].scans
    ensures EventsOf(states[i].progress, id) <= EventsOf(states[j].progress, id)
    decreases j - i
  {
    ReachableStatesAreSafe(states, steps, i);
    assert LogIsSound(states[i], id);
    if i < j && id in states[i].scans {
      RunEvolves(states, steps, i, id);
      if id !in states[i + 1].scans {
        GoneIsForever(states, steps, id, i + 1, j);
      } else {
        LogOnlyGrows(states, steps, id, i + 1, j);
      }
    }
  }

  lemma {:induction false} GoneIsForever(states: seq<Db>, steps: seq<Step>, id: ScanId, i: nat, j: nat)
    requires IsRun(states, steps) && i <= j < |states|
    requires id in states[i].issued && id !in states[i].scans
    ensures id !in states[j].scans
    decreases j - i
  {
    if i < j {
      RunEvolves(states, steps, i, id);
      GoneIsForever(states, steps, id, i + 1, j);
    }
  }

  function PolledTables(states: seq<Db>, times: seq<nat>): seq<seq<ProgressRow>>
    requires forall k :: 0 <= k < |times| ==> times[k] < |states|
  {
    seq(|times|, k requires 0 <= k < |times| => states[times[k]].progress)
  }

  /** A reader that polls at any moments of a run has every event of the scan after its start, once and in order. */
  lemma ReaderMissesNothingInRun(states: seq<Db>, steps: seq<Step>, id: ScanId, times: seq<nat>, after: nat)
    requires IsRun(states, steps) && times != []
    requires forall k :: 0 <= k < |times| ==> times[k] < |states|
    requires forall k, m :: 0 <= k <= m < |times| ==> times[k] <= times[m]
    requires id in states[times[|times| - 1]].scans
    ensures var polls := PolledTables(states, times);
            IsCaughtUp(EventsOf(states[times[|times| - 1]].progress, id), after,
                       Delivered(polls, id, after), Cursor(polls, id, after))
  {
    var polls := PolledTables(states, times);
    forall k | 0 <= k < |times| ensures IsNumbered(EventsOf(polls[k], id)) {
      ReachableStatesAreSafe(states, steps, times[k]);
    }
    forall k, m | 0 <= k <= m < |polls| ensures EventsOf(polls[k], id) <= EventsOf(polls[m], id) {
      if id in states[times[m]].scans {
        LogOnlyGrows(states, steps, id, times[k], times[m]);
      } else {
        BeforeCreationNothing(states, steps, id, times[k], times[m], times[|times| - 1]);
      }
    }
    ReaderMissesNothing(polls, id, after);
  }

  /** A scan that is absent now and present later has not been created yet, so it has no events. */
  lemma BeforeCreationNothing(states: seq<Db>, steps: seq<Step>, id: ScanId, i: nat, j: nat, k: nat)
    requires IsRun(states, steps) && i <= j <= k < |states|
    requires id !in states[j].scans && id in states[k].scans
    ensures EventsOf(states[i].progress, id) == []
  {
    ReachableStatesAreSafe(states, steps, i);
    assert LogIsSound(states[i], id);
    if id in states[i].scans {
      StillIssued(states, steps, id, i, j);
      GoneIsForever(states, steps, id, j, k);
    }
  }

  lemma {:induction false} StillIssued(states: seq<Db>, steps: seq<Step>, id: ScanId, i: nat, j: nat)
    requires IsRun(states, steps) && i <= j < |states|
    requires id in states[i].issued
    ensures id in states[j].issued
    decreases j - i
  {
    if i < j {
      RunEvolves(states, steps, i, id);
      StillIssued(states, steps, id, i + 1, j);
    }
  }
}
