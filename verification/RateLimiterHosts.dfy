/** The limiter in terms of hosts: each address has a log of its own, and requests without one share a log. */
module RateLimiterHosts {
  import opened Wrappers
  import opened RateLimiter

  /** An absent address counts as "unknown". */
  predicate IsFrom(r: Request, host: string) {
    if r.host.Some? then r.host.value == host else host == "unknown"
  }

  function OnlyFrom(history: seq<Request>, host: string): seq<Request> {
    if history == [] then []
    else
      var last := history[|history| - 1];
      OnlyFrom(history[..|history| - 1], host) + if IsFrom(last, host) then [last] else []
  }

  /** When requests from a host were let through, oldest first; requests to exempt paths do not count. */
  function AdmittedFrom(limit: int, history: seq<Request>, host: string): seq<real> {
    if history == [] then []
    else
      var past, last := history[..|history| - 1], history[|history| - 1];
      AdmittedFrom(limit, past, host)
      + if IsFrom(last, host) && Decide(limit, LogAfter(limit, past), last) == Admitted then [last.now] else []
  }

  /** How many of `times` lie in the sixty seconds up to `now`. */
  function InLastMinute(times: seq<real>, now: real): nat {
    if times == [] then 0
    else InLastMinute(times[..|times| - 1], now) + if now - 60.0 < times[|times| - 1] <= now then 1 else 0
  }

  lemma {:induction false} OnlyFromIsOnlyClient(history: seq<Request>, host: string)
    ensures OnlyFrom(history, host) == OnlyClient(history, host)
  {
    if history != [] {
      OnlyFromIsOnlyClient(history[..|history| - 1], host);
    }
  }

  lemma {:induction false} AdmittedFromIsAdmissions(limit: int, history: seq<Request>, host: string)
    ensures AdmittedFrom(limit, history, host) == Admissions(limit, history, host)
  {
    if history != [] {
      AdmittedFromIsAdmissions(limit, history[..|history| - 1], host);
    }
  }

  lemma {:induction false} LastMinuteIsTheWindow(times: seq<real>, now: real)
    ensures InLastMinute(times, now) == InWindow(times, now)
  {
    if times != [] {
      LastMinuteIsTheWindow(times[..|times| - 1], now);
    }
  }

  /** The verdict on a request is the same after deleting from the history every request of another host. */
  lemma OtherHostsDoNotMatter(limit: int, past: seq<Request>, r: Request, host: string)
    requires IsFrom(r, host)
    ensures Decide(limit, LogAfter(limit, past), r) == Decide(limit, LogAfter(limit, OnlyFrom(past, host)), r)
  {
    OnlyFromIsOnlyClient(past, host);
    ClientsAreIndependent(limit, past, host);
    OwnEntriesDecide(limit, LogAfter(limit, past), LogAfter(limit, OnlyFrom(past, host)), r, host);
  }

  /**
   After any history, whatever other hosts have sent: the four service paths are exempt, and any other request is admitted
   exactly when its host had fewer than `limit` requests admitted in the last sixty seconds.
   */
  lemma AdmittedExactlyBelowTheLimit(limit: int, past: seq<Request>, r: Request, host: string)
    requires IsChronological(past) && (past != [] ==> past[|past| - 1].now <= r.now)
    requires IsFrom(r, host)
    ensures Decide(limit, LogAfter(limit, past), r) ==
            if r.path in {"/health", "/docs", "/openapi.json", "/redoc"} then Exempt
            else if InLastMinute(AdmittedFrom(limit, past, host), r.now) < limit then Admitted
            else RateLimited
  {
    RejectedExactlyWhenFull(limit, past, r);
    AdmittedFromIsAdmissions(limit, past, host);
    LastMinuteIsTheWindow(AdmittedFrom(limit, past, host), r.now);
  }

  /** No sixty seconds, wherever they end, see more than the limit of one host's requests admitted. */
  lemma NoMinuteIsOverfull(limit: nat, history: seq<Request>, host: string, end: real)
    requires IsChronological(history)
    ensures InLastMinute(AdmittedFrom(limit, history, host), end) <= limit
  {
    AdmittedFromIsAdmissions(limit, history, host);
    LastMinuteIsTheWindow(AdmittedFrom(limit, history, host), end);
    WindowNeverOverfull(limit, history, host, end);
  }

  /** The first request a host sends is never rejected, however busy the others are. */
  lemma NewHostIsAdmitted(limit: int, past: seq<Request>, r: Request, host: string)
    requires IsChronological(past) && (past != [] ==> past[|past| - 1].now <= r.now)
    requires IsFrom(r, host) && (forall q :: q in past ==> !IsFrom(q, host)) && limit > 0
    ensures Decide(limit, LogAfter(limit, past), r) != RateLimited
  {
    AdmittedExactlyBelowTheLimit(limit, past, r, host);
    NothingAdmitted(limit, past, host);
  }

  lemma {:induction false} NothingAdmitted(limit: int, past: seq<Request>, host: string)
    requires forall q :: q in past ==> !IsFrom(q, host)
    ensures AdmittedFrom(limit, past, host) == []
  {
    if past != [] {
      NothingAdmitted(limit, past[..|past| - 1], host);
    }
  }
}
