/** The per-client rate limiter in front of the form-submission route: a map
    from client key to `{count, resetTime}`, a fixed window of 60 000 ms and at
    most 5 requests per window. Each request first sweeps every expired entry,
    then creates, resets, counts or blocks the caller's entry.

    `Step` is the specification of one request on the map's value; the class
    `RateLimiter` does the same work in place and is proved to agree with it.
    Time is the millisecond clock reading passed in by the caller. */
module RateLimit {

  const WindowMs: int := 60 * 1000
  const MaxRequests: int := 5

  datatype Entry = Entry(count: int, resetTime: int)

  /** `Allow` lets the request through to the handler; `Block` answers 429
      with the `retryAfter` hint in seconds. */
  datatype Decision = Allow | Block(retryAfter: int)

  datatype Outcome = Outcome(decision: Decision, entries: map<string, Entry>)

  predicate Expired(e: Entry, now: int) {
    now > e.resetTime
  }

  /** `Math.ceil(ms / 1000)` on a whole number of milliseconds: the least
      whole number of seconds that covers `ms`. */
  function CeilSeconds(ms: int): (r: int)
    ensures 1000 * (r - 1) < ms <= 1000 * r
  {
    -((-ms) / 1000)
  }

  /** The cleanup sweep: exactly the expired entries are deleted, every other
      entry is kept as it was. */
  function Sweep(m: map<string, Entry>, now: int): (r: map<string, Entry>)
    ensures forall k :: k in r <==> k in m && !Expired(m[k], now)
    ensures forall k :: k in r ==> r[k] == m[k]
  {
    map k | k in m && !Expired(m[k], now) :: m[k]
  }

  /** One request from `key` at time `now`, as `rateLimit` handles it. */
  function Step(m: map<string, Entry>, key: string, now: int): (r: Outcome)
    ensures r.decision == Allow <==> key !in m || Expired(m[key], now) || m[key].count < MaxRequests
    ensures r.decision == Allow ==> key in r.entries
    ensures forall k :: k != key ==> (k in r.entries <==> k in m && !Expired(m[k], now))
  {
    var live := Sweep(m, now);
    if key !in live then
      Outcome(Allow, live[key := Entry(1, now + WindowMs)])
    else if Expired(live[key], now) then
      Outcome(Allow, live[key := Entry(1, now + WindowMs)])
    else if live[key].count >= MaxRequests then
      Outcome(Block(CeilSeconds(live[key].resetTime - now)), live)
    else
      Outcome(Allow, live[key := live[key].(count := live[key].count + 1)])
  }

  /** Every entry holds between 1 and 5 counted requests. */
  ghost predicate CountsInRange(m: map<string, Entry>) {
    forall k :: k in m ==> 1 <= m[k].count <= MaxRequests
  }

  /** Every entry's window ends no later than one window after `now`. */
  ghost predicate WindowsWithin(m: map<string, Entry>, now: int) {
    forall k :: k in m ==> m[k].resetTime <= now + WindowMs
  }

  /** The limiter's invariant at time `now`: counts in range and windows at
      most one window ahead. */
  ghost predicate WellFormed(m: map<string, Entry>, now: int) {
    CountsInRange(m) && WindowsWithin(m, now)
  }

  // ---------------------------------------------------------------------
  // One request
  // ---------------------------------------------------------------------

  /** After the sweep no entry is expired, so the reset branch of `Step`
      (an existing but expired entry) can never be taken. */
  lemma ResetBranchUnreachable(m: map<string, Entry>, key: string, now: int)
    ensures key in Sweep(m, now) ==> !Expired(Sweep(m, now)[key], now)
  {
  }

  /** A client with no live entry is let through and gets a fresh entry
      `{count: 1, resetTime: now + 60000}`; nothing else changes beyond the sweep. */
  lemma FirstRequestCreatesEntry(m: map<string, Entry>, key: string, now: int)
    requires key !in m || Expired(m[key], now)
    ensures Step(m, key, now) == Outcome(Allow, Sweep(m, now)[key := Entry(1, now + WindowMs)])
  {
  }

  /** A let-through request changes only the caller's entry beyond the sweep:
      a live entry gains exactly one count and keeps its window. */
  lemma AllowTouchesOnlyCaller(m: map<string, Entry>, key: string, now: int)
    requires Step(m, key, now).decision == Allow
    ensures var r := Step(m, key, now).entries;
      && key in r
      && (forall k :: k != key ==> (k in r <==> k in m && !Expired(m[k], now)))
      && (forall k :: k != key && k in r ==> r[k] == m[k])
      && (key in m && !Expired(m[key], now) ==>
            r[key] == Entry(m[key].count + 1, m[key].resetTime))
  {
  }

  /** A blocked request leaves the map as the sweep left it, the caller's
      entry included, and its hint is the whole seconds left in the window.
      This holds whatever the clock did since earlier requests. */
  lemma BlockedKeepsEntry(m: map<string, Entry>, key: string, now: int)
    requires Step(m, key, now).decision.Block?
    ensures key in m && !Expired(m[key], now) && m[key].count >= MaxRequests
    ensures Step(m, key, now).entries == Sweep(m, now)
    ensures Step(m, key, now).entries[key] == m[key]
    ensures Step(m, key, now).decision.retryAfter == CeilSeconds(m[key].resetTime - now)
  {
  }

  /** For a well-formed map read at a time no earlier than the last one, a
      block happens at exactly 5 counted requests and its hint lies between
      0 and 60 seconds. */
  lemma BlockedHintBounds(m: map<string, Entry>, key: string, now: int, last: int)
    requires WellFormed(m, last) && last <= now
    requires Step(m, key, now).decision.Block?
    ensures key in m && m[key].count == MaxRequests
    ensures 0 <= Step(m, key, now).decision.retryAfter <= 60
  {
    BlockedKeepsEntry(m, key, now);
    var hint := Step(m, key, now).decision.retryAfter;
    assert 0 <= m[key].resetTime - now <= WindowMs;
    assert 1000 * (hint - 1) < m[key].resetTime - now <= 1000 * hint;
  }

  /** Counts stay between 1 and 5 whatever the clock does: every entry starts
      at 1 and is counted up only while below 5. */
  lemma {:induction false} StepKeepsCounts(m: map<string, Entry>, key: string, now: int)
    requires CountsInRange(m)
    ensures CountsInRange(Step(m, key, now).entries)
  {
    var live := Sweep(m, now);
    assert CountsInRange(live) by {
      forall k | k in live ensures 1 <= live[k].count <= MaxRequests {
        assert live[k] == m[k];
      }
    }
  }

  /** A well-formed map stays well-formed when the clock has not gone back:
      the counts as `StepKeepsCounts` says, and a new window ends one window
      after now while the old ones end no later than one window after `last`. */
  lemma {:induction false} StepKeepsWellFormed(m: map<string, Entry>, key: string, last: int, now: int)
    requires WellFormed(m, last) && last <= now
    ensures WellFormed(Step(m, key, now).entries, now)
  {
    StepKeepsCounts(m, key, now);
    var live := Sweep(m, now);
    assert WindowsWithin(live, now) by {
      forall k | k in live ensures live[k].resetTime <= now + WindowMs {
        assert live[k] == m[k];
      }
    }
  }

  // ---------------------------------------------------------------------
  // Runs of requests
  // ---------------------------------------------------------------------

  datatype Request = Request(key: string, now: int)

  datatype Trace = Trace(decisions: seq<Decision>, entries: map<string, Entry>)

  /** The decisions for a sequence of requests, and the map they leave. */
  function Run(m: map<string, Entry>, reqs: seq<Request>): (t: Trace)
    ensures |t.decisions| == |reqs|
    decreases |reqs|
  {
    if reqs == [] then Trace([], m)
    else
      var o := Step(m, reqs[0].key, reqs[0].now);
      var rest := Run(o.entries, reqs[1..]);
      Trace([o.decision] + rest.decisions, rest.entries)
  }

  /** How many of the requests from `c` were let through. */
  function AllowedFor(reqs: seq<Request>, ds: seq<Decision>, c: string): (n: nat)
    requires |ds| == |reqs|
    ensures n <= |reqs|
    decreases |reqs|
  {
    if reqs == [] then 0
    else (if reqs[0].key == c && ds[0] == Allow then 1 else 0) + AllowedFor(reqs[1..], ds[1..], c)
  }

  /** While every request arrives before `c`'s window ends, `c`'s entry keeps
      that window and counts exactly the requests of `c` let through, never
      going past 5, whatever other clients do in between. */
  lemma {:induction false} WindowCounts(m: map<string, Entry>, reqs: seq<Request>, c: string)
    requires c in m && m[c].count <= MaxRequests
    requires forall i :: 0 <= i < |reqs| ==> reqs[i].now <= m[c].resetTime
    ensures var t := Run(m, reqs);
      && c in t.entries
      && t.entries[c].resetTime == m[c].resetTime
      && t.entries[c].count == m[c].count + AllowedFor(reqs, t.decisions, c)
      && t.entries[c].count <= MaxRequests
    decreases |reqs|
  {
    if reqs != [] {
      var o := Step(m, reqs[0].key, reqs[0].now);
      assert c in o.entries && o.entries[c].resetTime == m[c].resetTime;
      assert o.entries[c].count == m[c].count + (if reqs[0].key == c && o.decision == Allow then 1 else 0);
      WindowCounts(o.entries, reqs[1..], c);
      var t := Run(m, reqs);
      assert t.decisions[1..] == Run(o.entries, reqs[1..]).decisions;
    }
  }

  /** Within one window a client is let through at most 5 times: counting
      from a request of `c` that finds no live entry, every request (from any
      client) up to 60 000 ms later lets `c` through at most 5 times. */
  lemma AtMostMaxPerWindow(m: map<string, Entry>, reqs: seq<Request>, c: string)
    requires reqs != [] && reqs[0].key == c
    requires c !in m || Expired(m[c], reqs[0].now)
    requires forall i :: 0 <= i < |reqs| ==> reqs[i].now <= reqs[0].now + WindowMs
    ensures AllowedFor(reqs, Run(m, reqs).decisions, c) <= MaxRequests
  {
    var o := Step(m, c, reqs[0].now);
    assert o.entries[c] == Entry(1, reqs[0].now + WindowMs);
    WindowCounts(o.entries, reqs[1..], c);
    assert Run(m, reqs).decisions[1..] == Run(o.entries, reqs[1..]).decisions;
  }

  /** Requests from `c` alone, all before its live window ends: the first
      `5 - count` are let through and every later one is blocked, with the
      seconds left in the window as its hint. */
  lemma {:induction false} WindowDecisions(m: map<string, Entry>, reqs: seq<Request>, c: string)
    requires c in m && 1 <= m[c].count
    requires forall i :: 0 <= i < |reqs| ==> reqs[i].key == c && reqs[i].now <= m[c].resetTime
    ensures var ds := Run(m, reqs).decisions;
      forall i :: 0 <= i < |reqs| ==>
        ds[i] == if i < MaxRequests - m[c].count then Allow
                 else Block(CeilSeconds(m[c].resetTime - reqs[i].now))
    decreases |reqs|
  {
    if reqs != [] {
      var o := Step(m, c, reqs[0].now);
      var e := o.entries[c];
      assert e.resetTime == m[c].resetTime;
      assert e.count == if m[c].count < MaxRequests then m[c].count + 1 else m[c].count;
      WindowDecisions(o.entries, reqs[1..], c);
      var ds := Run(m, reqs).decisions;
      assert ds[1..] == Run(o.entries, reqs[1..]).decisions;
      forall i | 1 <= i < |reqs|
        ensures ds[i] == if i < MaxRequests - m[c].count then Allow
                         else Block(CeilSeconds(m[c].resetTime - reqs[i].now))
      {
        assert ds[i] == ds[1..][i - 1];
        assert reqs[i] == reqs[1..][i - 1];
      }
    }
  }

  /** Six requests from a new client within one minute: the first five are
      let through, the sixth is blocked with a hint of at most 60 seconds
      (0 when it arrives exactly as the window ends). */
  lemma SixthRequestBlocked(m: map<string, Entry>, reqs: seq<Request>, c: string)
    requires |reqs| == 6 && c !in m
    requires forall i :: 0 <= i < 6 ==>
      reqs[i].key == c && reqs[0].now <= reqs[i].now <= reqs[0].now + WindowMs
    ensures var ds := Run(m, reqs).decisions;
      && (forall i :: 0 <= i < 5 ==> ds[i] == Allow)
      && ds[5].Block? && 0 <= ds[5].retryAfter <= 60
  {
    var o := Step(m, c, reqs[0].now);
    assert o.entries[c] == Entry(1, reqs[0].now + WindowMs);
    WindowDecisions(o.entries, reqs[1..], c);
    var ds := Run(m, reqs).decisions;
    assert ds[1..] == Run(o.entries, reqs[1..]).decisions;
    assert ds[5] == ds[1..][4];
    var hint := ds[5].retryAfter;
    assert hint == CeilSeconds(reqs[0].now + WindowMs - reqs[5].now);
    forall i | 1 <= i < 5 ensures ds[i] == Allow {
      assert ds[i] == ds[1..][i - 1];
    }
  }

  /** The hint is not always positive: a sixth request arriving exactly as the
      window ends is blocked with `retryAfter` 0. */
  lemma ZeroHintAtWindowEnd()
    ensures Step(map["a" := Entry(5, 60000)], "a", 60000) == Outcome(Block(0), map["a" := Entry(5, 60000)])
  {
  }

  // ---------------------------------------------------------------------
  // The limiter's state, updated in place
  // ---------------------------------------------------------------------

  /** `rateLimitStore` with the `rateLimit` middleware. */
  class RateLimiter {
    var entries: map<string, Entry>

    constructor ()
      ensures entries == map[]
    {
      entries := map[];
    }

    /** The cleanup loop: visits every entry once and deletes it when expired. */
    method SweepExpired(now: int)
      modifies this
      ensures entries == Sweep(old(entries), now)
    {
      ghost var start := entries;
      var pending := entries.Keys;
      while pending != {}
        invariant pending <= start.Keys
        invariant forall k :: k in entries <==> k in start && (k in pending || !Expired(start[k], now))
        invariant forall k :: k in entries ==> entries[k] == start[k]
        decreases pending
      {
        var ip :| ip in pending;
        if now > entries[ip].resetTime {
          entries := entries - {ip};
        }
        pending := pending - {ip};
      }
      assert entries == Sweep(start, now);
    }

    /** One request from `clientIp` at time `now`: the decision and the new
      map are those of `Step`. */
    method RateLimitRequest(clientIp: string, now: int) returns (d: Decision)
      modifies this
      ensures Outcome(d, entries) == Step(old(entries), clientIp, now)
    {
      SweepExpired(now);
      var clientEntries := entries;
      if clientIp !in clientEntries {
        clientEntries := clientEntries[clientIp := Entry(1, now + WindowMs)];
        d := Allow;
      } else {
        var clientData := clientEntries[clientIp];
        if now > clientData.resetTime {
          // never taken: the sweep above has just deleted every expired entry
          clientEntries := clientEntries[clientIp := Entry(1, now + WindowMs)];
          d := Allow;
        } else if clientData.count >= MaxRequests {
          d := Block(CeilSeconds(clientData.resetTime - now));
        } else {
          clientEntries := clientEntries[clientIp := clientData.(count := clientData.count + 1)];
          d := Allow;
        }
      }
      entries := clientEntries;
    }
  }
}
