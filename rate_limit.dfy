/** `checkRateLimit`, the per-IP fixed-window counter that each of the three
    handlers keeps in its own module-level `Map` (identical code in
    send-otp, manage-booking and create-booking; only the limits differ). */
module RateLimit {
  import opened Wrappers

  datatype RateRecord = RateRecord(count: int, resetTime: int)

  /** `{ allowed, remaining }`. */
  datatype Decision = Decision(allowed: bool, remaining: int)

  /** Expired records are swept only once the map holds more than this. */
  const PruneThreshold: nat := 10000

  /** The records a sweep at time `now` keeps. */
  function Pruned(m: map<string, RateRecord>, now: int): map<string, RateRecord>
  {
    map k | k in m && m[k].resetTime >= now :: m[k]
  }

  /** One call of `checkRateLimit(ip, maxRequests, windowMs)` at time `now`:
      the map afterwards and the decision returned. The caller's record is
      read before the sweep, as in the source. */
  function Step(m: map<string, RateRecord>, ip: string, maxRequests: int, windowMs: int, now: int)
    : (map<string, RateRecord>, Decision)
  {
    var swept := if |m| > PruneThreshold then Pruned(m, now) else m;
    if ip !in m || m[ip].resetTime < now then
      (swept[ip := RateRecord(1, now + windowMs)], Decision(true, maxRequests - 1))
    else if m[ip].count >= maxRequests then
      (swept, Decision(false, 0))
    else
      (swept[ip := m[ip].(count := m[ip].count + 1)], Decision(true, maxRequests - (m[ip].count + 1)))
  }

  /** The three outcomes of a call and what the sweep does to other clients. */
  lemma StepCases(m: map<string, RateRecord>, ip: string, maxRequests: int, windowMs: int, now: int)
    ensures var (m', d) := Step(m, ip, maxRequests, windowMs, now);
      && ip in m'
      // a missing or elapsed window starts afresh
      && ((ip !in m || m[ip].resetTime < now) ==>
            m'[ip] == RateRecord(1, now + windowMs) && d == Decision(true, maxRequests - 1))
      // a full window refuses and leaves the record as it was
      && ((ip in m && m[ip].resetTime >= now && m[ip].count >= maxRequests) ==>
            m'[ip] == m[ip] && d == Decision(false, 0))
      // otherwise the count goes up by exactly one
      && ((ip in m && m[ip].resetTime >= now && m[ip].count < maxRequests) ==>
            m'[ip] == RateRecord(m[ip].count + 1, m[ip].resetTime)
            && d == Decision(true, maxRequests - m'[ip].count))
      // other clients: kept as they were, except that a sweep drops exactly the expired ones
      && (forall k :: k != ip ==>
            (k in m' <==> k in m && (|m| <= PruneThreshold || m[k].resetTime >= now)))
      && (forall k :: k != ip && k in m' ==> m'[k] == m[k])
  {
  }

  /** Every live record counts between 1 and the limit. */
  ghost predicate Bounded(m: map<string, RateRecord>, maxRequests: int)
  {
    forall k :: k in m ==> 1 <= m[k].count <= maxRequests
  }

  /** With a limit of at least one, no count ever exceeds the limit. */
  lemma StepKeepsBound(m: map<string, RateRecord>, ip: string, maxRequests: int, windowMs: int, now: int)
    requires maxRequests >= 1 && Bounded(m, maxRequests)
    ensures Bounded(Step(m, ip, maxRequests, windowMs, now).0, maxRequests)
  {
    StepCases(m, ip, maxRequests, windowMs, now);
  }

  /** A client's successive calls at the given times. */
  function Run(m: map<string, RateRecord>, ip: string, maxRequests: int, windowMs: int, times: seq<int>)
    : (r: (map<string, RateRecord>, seq<Decision>))
    ensures |r.1| == |times|
    decreases |times|
  {
    if times == [] then (m, [])
    else
      var first := Step(m, ip, maxRequests, windowMs, times[0]);
      var rest := Run(first.0, ip, maxRequests, windowMs, times[1..]);
      (rest.0, [first.1] + rest.1)
  }

  function Min(a: int, b: int): int
  {
    if a <= b then a else b
  }

  /** Inside a window that has already counted `c` calls, call number i
      (from 0) is allowed exactly when c + i is below the limit, and the
      record saturates at the limit. */
  lemma {:induction false} RunInWindow(m: map<string, RateRecord>, ip: string, maxRequests: int,
                                      windowMs: int, times: seq<int>, c: int, reset: int)
    requires ip in m && m[ip] == RateRecord(c, reset) && 1 <= c <= maxRequests
    requires forall i :: 0 <= i < |times| ==> times[i] <= reset
    ensures var (m', ds) := Run(m, ip, maxRequests, windowMs, times);
      && ip in m' && m'[ip] == RateRecord(Min(c + |times|, maxRequests), reset)
      && forall i :: 0 <= i < |times| ==>
           ds[i] == if c + i < maxRequests then Decision(true, maxRequests - (c + i + 1)) else Decision(false, 0)
  {
    if times != [] {
      var first := Step(m, ip, maxRequests, windowMs, times[0]);
      StepCases(m, ip, maxRequests, windowMs, times[0]);
      var c' := Min(c + 1, maxRequests);
      assert first.0[ip] == RateRecord(c', reset);
      RunInWindow(first.0, ip, maxRequests, windowMs, times[1..], c', reset);
      var rest := Run(first.0, ip, maxRequests, windowMs, times[1..]);
      var ds := [first.1] + rest.1;
      forall i | 0 <= i < |times|
        ensures ds[i] == if c + i < maxRequests then Decision(true, maxRequests - (c + i + 1)) else Decision(false, 0)
      {
        if i > 0 {
          assert ds[i] == rest.1[i - 1];
          if c >= maxRequests { assert c' == maxRequests; }
        }
      }
    }
  }

  /** The scenario of a fresh client: within one window of a limit of N
      calls, the first N are allowed with N-1, N-2, ... remaining and every
      later one is refused; the window's reset time is fixed by the first. */
  lemma FreshClientRun(m: map<string, RateRecord>, ip: string, maxRequests: int, windowMs: int, times: seq<int>)
    requires maxRequests >= 1 && |times| >= 1
    requires ip !in m || m[ip].resetTime < times[0]
    requires forall i :: 0 <= i < |times| ==> times[i] <= times[0] + windowMs
    ensures var ds := Run(m, ip, maxRequests, windowMs, times).1;
      forall i :: 0 <= i < |times| ==>
        (ds[i].allowed <==> i < maxRequests)
        && ds[i].remaining == if i < maxRequests then maxRequests - (i + 1) else 0
  {
    var first := Step(m, ip, maxRequests, windowMs, times[0]);
    StepCases(m, ip, maxRequests, windowMs, times[0]);
    var tail := times[1..];
    assert forall i :: 0 <= i < |tail| ==> tail[i] == times[i + 1];
    RunInWindow(first.0, ip, maxRequests, windowMs, tail, 1, times[0] + windowMs);
    var ds := Run(m, ip, maxRequests, windowMs, times).1;
    assert ds == [first.1] + Run(first.0, ip, maxRequests, windowMs, tail).1;
  }

  /** The module-level `rateLimitMap` of one handler. */
  class RateLimiter {
    var records: map<string, RateRecord>

    constructor ()
      ensures records == map[]
    {
      records := map[];
    }

    /** `checkRateLimit(ip, maxRequests, windowMs)` with `Date.now()` = now. */
    method Check(ip: string, maxRequests: int, windowMs: int, now: int) returns (d: Decision)
      modifies this
      ensures (records, d) == Step(old(records), ip, maxRequests, windowMs, now)
    {
      var record: Option<RateRecord> := if ip in records then Some(records[ip]) else None;
      if |records| > PruneThreshold {
        PruneExpired(now);
      }
      if record.None? || record.value.resetTime < now {
        records := records[ip := RateRecord(1, now + windowMs)];
        return Decision(true, maxRequests - 1);
      }
      if record.value.count >= maxRequests {
        return Decision(false, 0);
      }
      // `record.count++` updates the record still held in the map: a record
      // that is not expired survives the sweep.
      records := records[ip := record.value.(count := record.value.count + 1)];
      return Decision(true, maxRequests - (record.value.count + 1));
    }

    /** The sweep: delete every entry whose window ended before `now`. */
    method PruneExpired(now: int)
      modifies this
      ensures records == Pruned(old(records), now)
    {
      ghost var original := records;
      var pending := records.Keys;
      while pending != {}
        invariant pending <= original.Keys
        invariant records == map k | k in original && (k in pending || original[k].resetTime >= now) :: original[k]
        decreases pending
      {
        var key :| key in pending;
        if records[key].resetTime < now {
          records := records - {key};
        }
        pending := pending - {key};
      }
    }
  }
}
