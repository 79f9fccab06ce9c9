/** The counters of backend/utils/performanceMonitor.js: the request
    tracker's `requests`, `errors` and bounded `responseTime` buffer, the
    socket connection counter, and `resetMetrics`. */
module Monitoring {
  import opened Common
  import Logging

  /** The buffer keeps at most this many response times. */
  const BUFFER_SIZE: nat := 1000

  /** `s.slice(-n)` when `s` is longer than `n`: the last `n` elements. */
  function KeepLast(s: seq<real>, n: nat): (r: seq<real>)
    ensures |r| == if |s| <= n then |s| else n
    ensures r == s[|s| - |r|..]
  {
    if |s| <= n then s else s[|s| - n..]
  }

  /** Trimming after every push keeps the same window as trimming the whole
      history once: the buffer always holds the latest `n` times in arrival
      order. */
  lemma KeepLastPush(history: seq<real>, x: real, n: nat)
    requires n > 0
    ensures KeepLast(KeepLast(history, n) + [x], n) == KeepLast(history + [x], n)
  {
    var h := history + [x];
    var kept := KeepLast(history, n) + [x];
    if |history| >= n {
      assert KeepLast(kept, n) == kept[1..];
      assert kept[1..] == h[|h| - n..];
    }
  }

  class PerformanceMonitor {
    var requests: int
    var errors: int
    var responseTime: seq<real>
    var activeConnections: int
    /** Every response time recorded since the last reset. */
    ghost var finished: seq<real>

    ghost predicate Valid()
      reads this
    {
      responseTime == KeepLast(finished, BUFFER_SIZE)
    }

    constructor ()
      ensures Valid()
      ensures requests == 0 && errors == 0 && responseTime == [] && activeConnections == 0
    {
      requests, errors, responseTime, activeConnections := 0, 0, [], 0;
      finished := [];
      assert KeepLast([], BUFFER_SIZE) == [];
    }

    /** The tracker on each request: one more request. */
    method OnRequest()
      modifies this`requests
      ensures requests == old(requests) + 1
    {
      requests := requests + 1;
    }

    /** The `finish` listener: push the response time, trim the buffer to
        the last 1000, count an error for a status of 400 or more, and log
        the request. Returns the logged line. */
    method OnFinish(elapsed: real, statusCode: int, lg: Logging.Logger) returns (line: Option<Logging.Line>)
      requires Valid()
      modifies this`responseTime, this`errors, this`finished
      ensures Valid()
      ensures finished == old(finished) + [elapsed]
      ensures |responseTime| <= BUFFER_SIZE && responseTime[|responseTime| - 1] == elapsed
      ensures |old(responseTime)| < BUFFER_SIZE ==> responseTime == old(responseTime) + [elapsed]
      ensures errors == old(errors) + (if statusCode >= 400 then 1 else 0)
      ensures line == Logging.LogRequest(lg, statusCode)
    {
      KeepLastPush(finished, elapsed, BUFFER_SIZE);
      responseTime := responseTime + [elapsed];
      finished := finished + [elapsed];
      if |responseTime| > BUFFER_SIZE {
        responseTime := responseTime[|responseTime| - BUFFER_SIZE..];
      }
      if statusCode >= 400 {
        errors := errors + 1;
      }
      line := Logging.LogRequest(lg, statusCode);
    }

    /** The `connection` listener. */
    method OnSocketConnection(lg: Logging.Logger) returns (line: Option<Logging.Line>)
      modifies this`activeConnections
      ensures activeConnections == old(activeConnections) + 1
      ensures line == Logging.LogSocketEvent(lg)
    {
      activeConnections := activeConnections + 1;
      line := Logging.LogSocketEvent(lg);
    }

    /** The `disconnect` listener of a tracked socket. */
    method OnSocketDisconnect(lg: Logging.Logger) returns (line: Option<Logging.Line>)
      modifies this`activeConnections
      ensures activeConnections == old(activeConnections) - 1
      ensures line == Logging.LogSocketEvent(lg)
    {
      activeConnections := activeConnections - 1;
      line := Logging.LogSocketEvent(lg);
    }

    /** `resetMetrics`: counters and buffer start over; the connection count
        is kept. */
    method ResetMetrics()
      modifies this`requests, this`errors, this`responseTime, this`finished
      ensures Valid()
      ensures requests == 0 && errors == 0 && responseTime == [] && finished == []
      ensures activeConnections == old(activeConnections)
    {
      requests, errors, responseTime := 0, 0, [];
      finished := [];
      assert KeepLast([], BUFFER_SIZE) == [];
    }
  }
}
