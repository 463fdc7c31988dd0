/** packages/db/src/counters.ts: what a client counts between two snapshots. */
module D1Counters {
  datatype Outcome =
    | OkOutcome | StatementFailed | Http429Outcome | ShedOutcome | CircuitOpen | QueueTimeoutOutcome | UnknownOutcome
    | Unavailable | Unauthorized | Rejected | Invalid | AbortedOutcome

  /** A window's numbers; `remainingMin` is -1 before any header. */
  datatype Window = Window(
    startMs: int, requestsSent: nat, outcomes: multiset<Outcome>, http429: nat, readRetries: nat,
    bucketWaits: nat, bucketWaitMsTotal: nat, bucketWaitMsMax: nat, remainingMin: real)

  function Empty(now: int): Window {
    Window(now, 0, multiset{}, 0, 0, 0, 0, 0, -1.0)
  }

  function Sent(w: Window): Window {
    w.(requestsSent := w.requestsSent + 1)
  }

  function Ended(w: Window, outcome: Outcome): Window {
    w.(outcomes := w.outcomes + multiset{outcome}, http429 := if outcome == Http429Outcome then w.http429 + 1 else w.http429)
  }

  function Retried(w: Window): Window {
    w.(readRetries := w.readRetries + 1)
  }

  function Waited(w: Window, ms: int): Window {
    if ms <= 0 then w
    else w.(bucketWaits := w.bucketWaits + 1, bucketWaitMsTotal := w.bucketWaitMsTotal + ms,
            bucketWaitMsMax := if ms > w.bucketWaitMsMax then ms else w.bucketWaitMsMax)
  }

  function Remaining(w: Window, remaining: real): Window {
    w.(remainingMin := if w.remainingMin == -1.0 || remaining < w.remainingMin then remaining else w.remainingMin)
  }

  /** The counters of one client, reset by every snapshot. */
  class Counters {
    var startMs: int
    var requestsSent: nat
    var outcomes: multiset<Outcome>
    var http429: nat
    var readRetries: nat
    var bucketWaits: nat
    var bucketWaitMsTotal: nat
    var bucketWaitMsMax: nat
    var remainingMin: real

    constructor (now: int)
      ensures Now() == Empty(now)
    {
      startMs, requestsSent, outcomes, http429, readRetries := now, 0, multiset{}, 0, 0;
      bucketWaits, bucketWaitMsTotal, bucketWaitMsMax, remainingMin := 0, 0, 0, -1.0;
    }

    ghost function Now(): Window
      reads this
    {
      Window(startMs, requestsSent, outcomes, http429, readRetries, bucketWaits, bucketWaitMsTotal, bucketWaitMsMax,
             remainingMin)
    }

    method RecordSent()
      modifies this
      ensures Now() == Sent(old(Now()))
    {
      requestsSent := requestsSent + 1;
    }

    method RecordOutcome(outcome: Outcome)
      modifies this
      ensures Now() == Ended(old(Now()), outcome)
    {
      outcomes := outcomes[outcome := outcomes[outcome] + 1];
      if outcome == Http429Outcome {
        http429 := http429 + 1;
      }
    }

    method RecordRetry()
      modifies this
      ensures Now() == Retried(old(Now()))
    {
      readRetries := readRetries + 1;
    }

    method RecordBucketWait(ms: int)
      modifies this
      ensures Now() == Waited(old(Now()), ms)
    {
      if ms <= 0 {
        return;
      }
      bucketWaits := bucketWaits + 1;
      bucketWaitMsTotal := bucketWaitMsTotal + ms;
      bucketWaitMsMax := if ms > bucketWaitMsMax then ms else bucketWaitMsMax;
    }

    method RecordRemaining(remaining: real)
      modifies this
      ensures Now() == Remaining(old(Now()), remaining)
    {
      if remainingMin == -1.0 {
        remainingMin := remaining;
      } else {
        remainingMin := if remaining < remainingMin then remaining else remainingMin;
      }
    }

    /** Hands out what has been counted; counting begins again from zero at `now`. */
    method Snapshot(now: int) returns (window: Window)
      modifies this
      ensures window == old(Now()) && Now() == Empty(now)
    {
      window := Window(startMs, requestsSent, outcomes, http429, readRetries, bucketWaits, bucketWaitMsTotal,
                       bucketWaitMsMax, remainingMin);
      startMs, requestsSent, outcomes, http429, readRetries := now, 0, multiset{}, 0, 0;
      bucketWaits, bucketWaitMsTotal, bucketWaitMsMax, remainingMin := 0, 0, 0, -1.0;
    }
  }
}
