/**
 The API's per-client request limiter (backend/app/api/main.py).  Its docstring calls it a fixed window; the
 code keeps a log of admission times and looks back sixty seconds from each request.
 */
module RateLimiter {
  import opened Wrappers

  /** `host` is absent when the transport knows no client address; `now` is `time.monotonic()`. */
  datatype Request = Request(path: string, host: Option<string>, now: real)

  datatype Verdict = Exempt | Admitted | RateLimited

  const WINDOW: real := 60.0

  predicate IsExempt(path: string) {
    path in {"/health", "/docs", "/openapi.json", "/redoc"}
  }

  function Client(r: Request): string {
    r.host.GetOr("unknown")
  }

  /** Drops the leading entries that are at most `cutoff`. */
  function Prune(entries: seq<real>, cutoff: real): seq<real> {
    if entries != [] && entries[0] <= cutoff then Prune(entries[1..], cutoff) else entries
  }

  type Log = map<string, seq<real>>

  function Entries(log: Log, client: string): seq<real> {
    if client in log then log[client] else []
  }

  function Decide(limit: int, log: Log, r: Request): Verdict {
    if IsExempt(r.path) then Exempt
    else if |Prune(Entries(log, Client(r)), r.now - WINDOW)| >= limit then RateLimited
    else Admitted
  }

  function Update(limit: int, log: Log, r: Request): Log {
    if IsExempt(r.path) then log
    else
      var entries := Prune(Entries(log, Client(r)), r.now - WINDOW);
      log[Client(r) := if |entries| >= limit then entries else entries + [r.now]]
  }

  class Middleware {
    const requestsPerMinute: int
    var requests: Log

    constructor (requestsPerMinute: int)
      ensures this.requestsPerMinute == requestsPerMinute && requests == map[]
    {
      this.requestsPerMinute := requestsPerMinute;
      requests := map[];
    }

    method Dispatch(r: Request) returns (verdict: Verdict)
      modifies this
      ensures verdict == Decide(requestsPerMinute, old(requests), r)
      ensures requests == Update(requestsPerMinute, old(requests), r)
    {
      if IsExempt(r.path) {
        return Exempt;
      }
      var client := Client(r);
      var entries := Entries(requests, client);
      while entries != [] && entries[0] <= r.now - WINDOW
        invariant Prune(entries, r.now - WINDOW) == Prune(Entries(requests, client), r.now - WINDOW)
        decreases |entries|
      {
        entries := entries[1..];
      }
      if |entries| >= requestsPerMinute {
        requests := requests[client := entries];
        return RateLimited;
      }
      requests := requests[client := entries + [r.now]];
      return Admitted;
    }
  }

  // ----- request histories -----

  /** The limiter's state after a history. */
  function LogAfter(limit: int, history: seq<Request>): Log {
    if history == [] then map[]
    else Update(limit, LogAfter(limit, history[..|history| - 1]), history[|history| - 1])
  }

  ghost predicate IsChronological(history: seq<Request>) {
    forall i, j :: 0 <= i < j < |history| ==> history[i].now <= history[j].now
  }

  /** The admission `r` adds to a client's record, if any. */
  function AdmittedNow(limit: int, log: Log, r: Request, client: string): seq<real> {
    if Client(r) == client && Decide(limit, log, r) == Admitted then [r.now] else []
  }

  /** Times at which a client's requests were admitted, oldest first. */
  function Admissions(limit: int, history: seq<Request>, client: string): seq<real> {
    if history == [] then []
    else
      var past := history[..|history| - 1];
      Admissions(limit, past, client) + AdmittedNow(limit, LogAfter(limit, past), history[|history| - 1], client)
  }

  /** How many of `times` lie in the half-open window (end - 60, end]. */
  function InWindow(times: seq<real>, end: real): nat {
    if times == [] then 0
    else InWindow(times[..|times| - 1], end) + if end - WINDOW < times[|times| - 1] <= end then 1 else 0
  }

  ghost predicate IsUpTo(times: seq<real>, end: real) {
    forall i :: 0 <= i < |times| ==> times[i] <= end
  }

  ghost predicate IsAscending(times: seq<real>) {
    forall i, j :: 0 <= i < j < |times| ==> times[i] <= times[j]
  }

  // ----- the log is the recent part of the admissions -----

  lemma {:induction false} PruneKeepsTail(times: seq<real>, cutoff: real)
    requires IsAscending(times)
    ensures |Prune(times, cutoff)| <= |times|
    ensures Prune(times, cutoff) == times[|times| - |Prune(times, cutoff)|..]
    ensures forall i :: 0 <= i < |times| - |Prune(times, cutoff)| ==> times[i] <= cutoff
    ensures Prune(times, cutoff) != [] ==> Prune(times, cutoff)[0] > cutoff
  {
    if times != [] && times[0] <= cutoff {
      PruneKeepsTail(times[1..], cutoff);
      var n := |Prune(times[1..], cutoff)|;
      assert times[1..][|times| - 1 - n..] == times[|times| - n..];
      forall i | 0 <= i < |times| - n ensures times[i] <= cutoff {
        assert i > 0 ==> times[i] == times[1..][i - 1];
      }
    }
  }

  lemma {:induction false} PruneAgain(times: seq<real>, cutoff: real, later: real)
    requires cutoff <= later
    ensures Prune(Prune(times, cutoff), later) == Prune(times, later)
  {
    if times != [] && times[0] <= cutoff {
      PruneAgain(times[1..], cutoff, later);
    }
  }

  lemma {:induction false} PruneAppend(times: seq<real>, x: real, cutoff: real)
    ensures Prune(times + [x], cutoff)
         == if Prune(times, cutoff) == [] then Prune([x], cutoff) else Prune(times, cutoff) + [x]
  {
    if times != [] && times[0] <= cutoff {
      assert (times + [x])[1..] == times[1..] + [x];
      PruneAppend(times[1..], x, cutoff);
    } else if times == [] {
      assert times + [x] == [x];
    }
  }

  lemma {:induction false} AdmissionsAscend(limit: int, history: seq<Request>, client: string)
    requires IsChronological(history)
    ensures IsAscending(Admissions(limit, history, client))
    ensures history == [] ==> Admissions(limit, history, client) == []
    ensures history != [] ==> IsUpTo(Admissions(limit, history, client), history[|history| - 1].now)
  {
    if history != [] {
      var init, last := history[..|history| - 1], history[|history| - 1];
      AdmissionsAscend(limit, init, client);
    }
  }

  lemma EntriesStep(limit: int, log: Log, r: Request, client: string, admissions: seq<real>, now: real)
    requires Prune(Entries(log, client), now - WINDOW) == Prune(admissions, now - WINDOW)
    requires r.now <= now
    ensures Prune(Entries(Update(limit, log, r), client), now - WINDOW)
         == Prune(admissions + AdmittedNow(limit, log, r, client), now - WINDOW)
  {
    var before := Entries(log, client);
    PruneAgain(before, r.now - WINDOW, now - WINDOW);
    PruneAppend(Prune(before, r.now - WINDOW), r.now, now - WINDOW);
    PruneAppend(admissions, r.now, now - WINDOW);
    assert admissions + [] == admissions;
  }

  /** Looking back from any time not before the last request, log and admissions agree. */
  lemma {:induction false} LogIsRecentAdmissions(limit: int, history: seq<Request>, client: string, now: real)
    requires IsChronological(history)
    requires history != [] ==> history[|history| - 1].now <= now
    ensures Prune(Entries(LogAfter(limit, history), client), now - WINDOW)
         == Prune(Admissions(limit, history, client), now - WINDOW)
  {
    if history != [] {
      var init, last := history[..|history| - 1], history[|history| - 1];
      LogIsRecentAdmissions(limit, init, client, now);
      EntriesStep(limit, LogAfter(limit, init), last, client, Admissions(limit, init, client), now);
    }
  }

  // ----- what the limiter promises -----

  /** On an ascending list, pruning at `end - 60` counts the window (end - 60, end]. */
  lemma {:induction false} PruneCountsWindow(times: seq<real>, end: real)
    requires IsAscending(times)
    requires IsUpTo(times, end)
    ensures |Prune(times, end - WINDOW)| == InWindow(times, end)
  {
    if times != [] {
      var init, last := times[..|times| - 1], times[|times| - 1];
      PruneCountsWindow(init, end);
      assert times == init + [last];
      PruneAppend(init, last, end - WINDOW);
      PruneKeepsTail(init, end - WINDOW);
    }
  }

  lemma WindowCountIsLogLength(limit: int, past: seq<Request>, client: string, now: real)
    requires IsChronological(past)
    requires past != [] ==> past[|past| - 1].now <= now
    ensures InWindow(Admissions(limit, past, client), now)
         == |Prune(Entries(LogAfter(limit, past), client), now - WINDOW)|
  {
    LogIsRecentAdmissions(limit, past, client, now);
    AdmissionsAscend(limit, past, client);
    PruneCountsWindow(Admissions(limit, past, client), now);
  }

  lemma VerdictByCount(limit: int, log: Log, r: Request, count: nat)
    requires count == |Prune(Entries(log, Client(r)), r.now - WINDOW)|
    ensures Decide(limit, log, r) == Exempt <==> IsExempt(r.path)
    ensures Decide(limit, log, r) == RateLimited <==> !IsExempt(r.path) && count >= limit
  {}

  /**
   After any history, the next request is rejected exactly when `limit` requests of its client were admitted in the
   sixty seconds up to it; requests to exempt paths are always let through.
   */
  lemma RejectedExactlyWhenFull(limit: int, past: seq<Request>, r: Request)
    requires IsChronological(past)
    requires past != [] ==> past[|past| - 1].now <= r.now
    ensures Decide(limit, LogAfter(limit, past), r) == Exempt <==> IsExempt(r.path)
    ensures Decide(limit, LogAfter(limit, past), r) == RateLimited <==>
            !IsExempt(r.path) && InWindow(Admissions(limit, past, Client(r)), r.now) >= limit
  {
    WindowCountIsLogLength(limit, past, Client(r), r.now);
    VerdictByCount(limit, LogAfter(limit, past), r, InWindow(Admissions(limit, past, Client(r)), r.now));
  }

  lemma AdmittedLeavesRoom(limit: int, past: seq<Request>, r: Request, end: real)
    requires IsChronological(past)
    requires past != [] ==> past[|past| - 1].now <= r.now
    requires Decide(limit, LogAfter(limit, past), r) == Admitted
    requires r.now <= end
    ensures InWindow(Admissions(limit, past, Client(r)), end) < limit
  {
    RejectedExactlyWhenFull(limit, past, r);
    AdmissionsAscend(limit, past, Client(r));
    LaterWindowHoldsLess(Admissions(limit, past, Client(r)), r.now, end);
  }

  /** No window of sixty seconds, wherever it ends, holds more admissions of one client than the limit. */
  lemma {:induction false} WindowNeverOverfull(limit: nat, history: seq<Request>, client: string, end: real)
    requires IsChronological(history)
    ensures InWindow(Admissions(limit, history, client), end) <= limit
  {
    if history != [] {
      var init, last := history[..|history| - 1], history[|history| - 1];
      WindowNeverOverfull(limit, init, client, end);
      var before := Admissions(limit, init, client);
      if AdmittedNow(limit, LogAfter(limit, init), last, client) == [] {
        assert before + [] == before;
      } else {
        assert (before + [last.now])[..|before|] == before;
        if last.now <= end {
          AdmittedLeavesRoom(limit, init, last, end);
        }
      }
    }
  }

  /** Among entries up to `end`, moving the window's end past all of them only loses entries. */
  lemma {:induction false} LaterWindowHoldsLess(times: seq<real>, end: real, later: real)
    requires IsUpTo(times, end)
    requires end <= later
    ensures InWindow(times, later) <= InWindow(times, end)
  {
    if times != [] {
      LaterWindowHoldsLess(times[..|times| - 1], end, later);
    }
  }

  /** The requests of one client, in order. */
  function OnlyClient(history: seq<Request>, client: string): seq<Request> {
    if history == [] then []
    else
      var last := history[|history| - 1];
      OnlyClient(history[..|history| - 1], client) + if Client(last) == client then [last] else []
  }

  /** A verdict depends on the client's own entries only, and changes no other client's. */
  lemma OwnEntriesDecide(limit: int, log: Log, log': Log, r: Request, client: string)
    requires Entries(log, client) == Entries(log', client)
    ensures Client(r) == client ==>
              && Decide(limit, log, r) == Decide(limit, log', r)
              && AdmittedNow(limit, log, r, client) == AdmittedNow(limit, log', r, client)
              && Entries(Update(limit, log, r), client) == Entries(Update(limit, log', r), client)
    ensures Client(r) != client ==>
              && AdmittedNow(limit, log, r, client) == []
              && Entries(Update(limit, log, r), client) == Entries(log, client)
  {}

  /** Clients never affect each other: the others' requests can be deleted from a history unnoticed. */
  lemma {:induction false} ClientsAreIndependent(limit: int, history: seq<Request>, client: string)
    ensures Entries(LogAfter(limit, history), client) == Entries(LogAfter(limit, OnlyClient(history, client)), client)
    ensures Admissions(limit, history, client) == Admissions(limit, OnlyClient(history, client), client)
  {
    if history != [] {
      var init, last := history[..|history| - 1], history[|history| - 1];
      var own := OnlyClient(init, client);
      ClientsAreIndependent(limit, init, client);
      OwnEntriesDecide(limit, LogAfter(limit, init), LogAfter(limit, own), last, client);
      assert (own + [last])[..|own|] == own;
      assert own + [] == own && Admissions(limit, init, client) + [] == Admissions(limit, init, client);
    }
  }

  /** Any `limit + 1` successive admissions of one client span at least sixty seconds. */
  lemma AdmissionsAreSpaced(limit: nat, history: seq<Request>, client: string, i: nat)
    requires IsChronological(history)
    requires i + limit < |Admissions(limit, history, client)|
    ensures var times := Admissions(limit, history, client); times[i + limit] - times[i] >= WINDOW
  {
    var times := Admissions(limit, history, client);
    AdmissionsAscend(limit, history, client);
    WindowNeverOverfull(limit, history, client, times[i + limit]);
    if times[i] > times[i + limit] - WINDOW {
      WindowHoldsRun(times, i, i + limit, times[i + limit]);
    }
  }

  lemma {:induction false} WindowHoldsRun(times: seq<real>, first: nat, last: nat, end: real)
    requires IsAscending(times) && first <= last < |times|
    requires end - WINDOW < times[first] && times[last] <= end
    ensures InWindow(times, end) >= last - first + 1
  {
    if last < |times| - 1 {
      WindowHoldsRun(times[..|times| - 1], first, last, end);
    } else if first < last {
      WindowHoldsRun(times[..|times| - 1], first, last - 1, end);
    }
  }
}
