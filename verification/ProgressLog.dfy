/**
 The durable per-scan progress log and its cursor readers
 (backend/app/repositories/__init__.py, `scan_events` and `scan_websocket` in backend/app/api/routes.py).
 */
module ProgressLog {
  import opened Wrappers
  import opened Ordering
  import opened ScanModel

  /** The events of one scan, in the order they were recorded. */
  function EventsOf(rows: seq<ProgressRow>, id: ScanId): seq<ProgressRow> {
    if rows == [] then []
    else
      var last := rows[|rows| - 1];
      EventsOf(rows[..|rows| - 1], id) + if last.scanId == id then [last] else []
  }

  /** Numbered 1..n without gaps, in recording order. */
  ghost predicate IsNumbered(events: seq<ProgressRow>) {
    forall i :: 0 <= i < |events| ==> events[i].sequence == i + 1
  }

  lemma EventsOfAppend(rows: seq<ProgressRow>, row: ProgressRow, id: ScanId)
    ensures EventsOf(rows + [row], id) == EventsOf(rows, id) + if row.scanId == id then [row] else []
  {
    assert (rows + [row])[..|rows|] == rows;
  }

  lemma {:induction false} NextSequence(rows: seq<ProgressRow>, id: ScanId)
    requires IsNumbered(EventsOf(rows, id))
    ensures MaxSequence(rows, id) == |EventsOf(rows, id)|
  {
    if rows != [] {
      var init, last := rows[..|rows| - 1], rows[|rows| - 1];
      var before := EventsOf(init, id);
      assert IsNumbered(before) by {
        assert before <= EventsOf(rows, id);
        forall i | 0 <= i < |before| ensures before[i].sequence == i + 1 {
          assert before[i] == EventsOf(rows, id)[i];
        }
      }
      NextSequence(init, id);
      if last.scanId == id {
        assert EventsOf(rows, id)[|before|] == last;
      }
    }
  }

  /** Recording an event continues the numbering of its scan and leaves every other log alone. */
  lemma RecordContinuesLog(
    rows: seq<ProgressRow>, id: ScanId, percent: nat, stage: string, artefacts: Option<nat>, other: ScanId)
    requires IsNumbered(EventsOf(rows, id))
    ensures var after := Recorded(rows, id, percent, stage, artefacts);
            && EventsOf(after, id)
               == EventsOf(rows, id) + [ProgressRow(id, |EventsOf(rows, id)| + 1, percent, stage, artefacts)]
            && IsNumbered(EventsOf(after, id))
            && (other != id ==> EventsOf(after, other) == EventsOf(rows, other))
  {
    NextSequence(rows, id);
    var row := ProgressRow(id, MaxSequence(rows, id) + 1, percent, stage, artefacts);
    EventsOfAppend(rows, row, id);
    EventsOfAppend(rows, row, other);
  }

  lemma {:induction false} EventsAfterDelete(rows: seq<ProgressRow>, id: ScanId, other: ScanId)
    ensures EventsOf(WithoutScan(rows, id), other) == if other == id then [] else EventsOf(rows, other)
    ensures forall row :: row in WithoutScan(rows, id) ==> row in rows && row.scanId != id
  {
    if rows != [] {
      var init, last := rows[..|rows| - 1], rows[|rows| - 1];
      EventsAfterDelete(init, id, other);
      if last.scanId == id {
        assert WithoutScan(rows, id) == WithoutScan(init, id);
      } else {
        EventsOfAppend(WithoutScan(init, id), last, other);
      }
    }
  }

  // ----- reading -----

  predicate SequenceLe(a: ProgressRow, b: ProgressRow) {
    a.sequence <= b.sequence
  }

  function Later(events: seq<ProgressRow>, after: nat): seq<ProgressRow> {
    if events == [] then []
    else
      var last := events[|events| - 1];
      Later(events[..|events| - 1], after) + if last.sequence > after then [last] else []
  }

  /** `progress_since`: the scan's events with a larger sequence, ordered by sequence. */
  function ProgressSince(rows: seq<ProgressRow>, id: ScanId, after: nat): seq<ProgressRow> {
    SortBy(SequenceLe, Later(EventsOf(rows, id), after))
  }

  function Drop<T>(s: seq<T>, n: nat): seq<T> {
    if n <= |s| then s[n..] else []
  }

  lemma DropAppends(before: seq<ProgressRow>, events: seq<ProgressRow>, after: nat)
    requires after <= |before| && before <= events
    ensures Drop(before, after) + Drop(events, |before|) == Drop(events, after)
  {
    assert events == before + events[|before|..];
    assert before[after..] + events[|before|..] == events[after..];
  }

  lemma {:induction false} LaterIsDrop(events: seq<ProgressRow>, after: nat)
    requires IsNumbered(events)
    ensures Later(events, after) == Drop(events, after)
  {
    if events != [] {
      var init, last := events[..|events| - 1], events[|events| - 1];
      assert last.sequence == |events|;
      LaterIsDrop(init, after);
      if after <= |init| {
        assert Drop(events, |init|) == [last];
        DropAppends(init, events, after);
      } else {
        assert Drop(init, after) == [] && Drop(events, after) == [];
      }
    }
  }

  /** On a numbered log the query is simply the part after the cursor. */
  lemma SinceIsTheRest(rows: seq<ProgressRow>, id: ScanId, after: nat)
    requires IsNumbered(EventsOf(rows, id))
    ensures ProgressSince(rows, id, after) == Drop(EventsOf(rows, id), after)
  {
    LaterIsDrop(EventsOf(rows, id), after);
    SortBySorted(SequenceLe, Drop(EventsOf(rows, id), after));
  }

  /** A stream that has yielded `delivered` and will next ask for events after `sequence`. */
  class CursorReader {
    const scanId: ScanId
    var sequence: nat
    var delivered: seq<ProgressRow>

    constructor (scanId: ScanId, after: nat)
      ensures this.scanId == scanId && sequence == after && delivered == []
    {
      this.scanId := scanId;
      sequence := after;
      delivered := [];
    }

    /** One turn of the `while True` loop. */
    method Poll(rows: seq<ProgressRow>)
      modifies this
      ensures delivered == old(delivered) + ProgressSince(rows, scanId, old(sequence))
      ensures sequence == CursorAfter(old(sequence), ProgressSince(rows, scanId, old(sequence)))
    {
      var events := ProgressSince(rows, scanId, sequence);
      for i := 0 to |events|
        invariant delivered == old(delivered) + events[..i]
        invariant sequence == CursorAfter(old(sequence), events[..i])
      {
        sequence := events[i].sequence;
        delivered := delivered + [events[i]];
      }
    }
  }

  function CursorAfter(sequence: nat, events: seq<ProgressRow>): nat {
    if events == [] then sequence else events[|events| - 1].sequence
  }

  /** What a reader starting after `after` has delivered, and where its cursor stands, once it polled each table. */
  function Delivered(polls: seq<seq<ProgressRow>>, id: ScanId, after: nat): seq<ProgressRow> {
    if polls == [] then []
    else
      var init := polls[..|polls| - 1];
      Delivered(init, id, after) + ProgressSince(polls[|polls| - 1], id, Cursor(init, id, after))
  }

  function Cursor(polls: seq<seq<ProgressRow>>, id: ScanId, after: nat): nat {
    if polls == [] then after
    else
      var init := polls[..|polls| - 1];
      CursorAfter(Cursor(init, id, after), ProgressSince(polls[|polls| - 1], id, Cursor(init, id, after)))
  }

  /** Between two polls the log of the scan only grows. */
  ghost predicate LogGrows(polls: seq<seq<ProgressRow>>, id: ScanId) {
    && (forall i :: 0 <= i < |polls| ==> IsNumbered(EventsOf(polls[i], id)))
    && (forall i, j :: 0 <= i <= j < |polls| ==> EventsOf(polls[i], id) <= EventsOf(polls[j], id))
  }

  ghost predicate IsCaughtUp(events: seq<ProgressRow>, after: nat, delivered: seq<ProgressRow>, cursor: nat) {
    && delivered == Drop(events, after)
    && cursor == if |events| <= after then after else |events|
  }

  lemma CatchingUp(
    before: seq<ProgressRow>, events: seq<ProgressRow>, after: nat, delivered: seq<ProgressRow>, cursor: nat)
    requires IsNumbered(events) && before <= events
    requires IsCaughtUp(before, after, delivered, cursor)
    ensures IsCaughtUp(events, after, delivered + Drop(events, cursor), CursorAfter(cursor, Drop(events, cursor)))
  {
    if |events| <= after {
      assert delivered == [] && Drop(events, cursor) == [];
    } else {
      if |before| <= after {
        assert delivered == [] && cursor == after;
        assert delivered + Drop(events, after) == Drop(events, after);
      } else {
        DropAppends(before, events, after);
      }
      assert events[|events| - 1].sequence == |events|;
    }
  }

  /**
   Whatever is appended between polls, a reader has delivered every event after its starting point exactly once and
   in order, and stands at the end of the log it last saw.
   */
  lemma {:induction false} ReaderMissesNothing(polls: seq<seq<ProgressRow>>, id: ScanId, after: nat)
    requires polls != [] && LogGrows(polls, id)
    ensures Delivered(polls, id, after) == Drop(EventsOf(polls[|polls| - 1], id), after)
    ensures IsCaughtUp(EventsOf(polls[|polls| - 1], id), after, Delivered(polls, id, after), Cursor(polls, id, after))
  {
    var init, rows := polls[..|polls| - 1], polls[|polls| - 1];
    SinceIsTheRest(rows, id, Cursor(init, id, after));
    if init == [] {
      CatchingUp([], EventsOf(rows, id), after, [], after);
    } else {
      assert init[|init| - 1] == polls[|init| - 1];
      ReaderMissesNothing(init, id, after);
      CatchingUp(EventsOf(init[|init| - 1], id), EventsOf(rows, id), after,
                 Delivered(init, id, after), Cursor(init, id, after));
    }
  }
}
