/** The fixed-window limiter the attack tests use as their model of the gateway's minute quota. */
module RateLimiter {

  datatype Call = Call(identity: string, now: int)

  // Python's // floors, as does Dafny's / for a positive divisor.
  function Window(now: int): int {
    now / 60
  }

  function Count(counters: map<(string, int), nat>, key: (string, int)): nat {
    if key in counters then counters[key] else 0
  }

  class FixedWindowRateLimiter {
    const limit: int
    var counters: map<(string, int), nat>
    ghost var calls: seq<Call>  // every call made so far

    ghost predicate Valid()
      reads this
    {
      forall id: string, w: int :: Count(counters, (id, w)) == CallsIn(calls, id, w)
    }

    constructor (limit: int)
      ensures Valid() && this.limit == limit && calls == []
    {
      this.limit := limit;
      counters, calls := map[], [];
    }

    method Allow(identity: string, now: int) returns (allowed: bool)
      requires Valid()
      modifies this
      ensures Valid() && calls == old(calls) + [Call(identity, now)]
      ensures allowed == Admits(limit, old(calls), Call(identity, now))
    {
      var key := (identity, Window(now));
      counters := counters[key := (if key in counters then counters[key] else 0) + 1];
      calls := calls + [Call(identity, now)];
      allowed := counters[key] <= limit;
      assert calls[..|calls| - 1] == old(calls);
    }
  }

  // The earlier calls of this identity in this minute.
  function CallsIn(calls: seq<Call>, identity: string, window: int): nat {
    if calls == [] then 0
    else
      var last := calls[|calls| - 1];
      CallsIn(calls[..|calls| - 1], identity, window)
      + if last.identity == identity && Window(last.now) == window then 1 else 0
  }

  predicate Admits(limit: int, before: seq<Call>, call: Call) {
    CallsIn(before, call.identity, Window(call.now)) + 1 <= limit
  }

  // How many of the calls in [from, to) of the clock, made by this identity, are admitted.
  function Admitted(limit: int, calls: seq<Call>, identity: string, from: int, to: int): nat {
    if calls == [] then 0
    else
      var before, last := calls[..|calls| - 1], calls[|calls| - 1];
      Admitted(limit, before, identity, from, to)
      + if last.identity == identity && from <= last.now < to && Admits(limit, before, last) then 1 else 0
  }

  function Min(a: int, b: int): int {
    if a < b then a else b
  }

  function Positive(limit: int): nat {
    if limit < 0 then 0 else limit
  }

  /**
   Within one minute window exactly the first `limit` calls of an identity are admitted, in whatever order the
   clock reads.
   */
  lemma {:induction false} AdmittedInWindow(limit: int, calls: seq<Call>, identity: string, window: int)
    ensures Admitted(limit, calls, identity, 60 * window, 60 * window + 60)
         == Min(Positive(limit), CallsIn(calls, identity, window))
  {
    if calls != [] {
      AdmittedInWindow(limit, calls[..|calls| - 1], identity, window);
      var now := calls[|calls| - 1].now;
      assert 60 * window <= now < 60 * window + 60 <==> Window(now) == window;
    }
  }

  lemma {:induction false} AdmittedSplits(limit: int, calls: seq<Call>, identity: string, from: int, mid: int, to: int)
    requires from <= mid <= to
    ensures Admitted(limit, calls, identity, from, to)
         == Admitted(limit, calls, identity, from, mid) + Admitted(limit, calls, identity, mid, to)
  {
    if calls != [] { AdmittedSplits(limit, calls[..|calls| - 1], identity, from, mid, to); }
  }

  lemma {:induction false} AdmittedGrows(limit: int, calls: seq<Call>, identity: string,
                                         from: int, to: int, low: int, high: int)
    requires low <= from && to <= high
    ensures Admitted(limit, calls, identity, from, to) <= Admitted(limit, calls, identity, low, high)
  {
    if calls != [] { AdmittedGrows(limit, calls[..|calls| - 1], identity, from, to, low, high); }
  }

  /** In any 60 consecutive seconds an identity gets at most twice the limit. */
  lemma TwiceTheLimit(limit: int, calls: seq<Call>, identity: string, start: int)
    ensures Admitted(limit, calls, identity, start, start + 60) <= 2 * Positive(limit)
  {
    var w := Window(start);
    AdmittedGrows(limit, calls, identity, start, start + 60, 60 * w, 60 * w + 120);
    AdmittedSplits(limit, calls, identity, 60 * w, 60 * w + 60, 60 * w + 120);
    AdmittedInWindow(limit, calls, identity, w);
    AdmittedInWindow(limit, calls, identity, w + 1);
  }

  function CallsAt(n: nat, call: Call): seq<Call> {
    seq(n, i => call)
  }

  lemma {:induction false} BurstCount(n: nat, m: nat, identity: string, window: int)
    ensures CallsIn(CallsAt(n, Call(identity, 59)) + CallsAt(m, Call(identity, 60)), identity, window)
         == (if window == 0 then n else 0) + (if window == 1 then m else 0)
  {
    var calls := CallsAt(n, Call(identity, 59)) + CallsAt(m, Call(identity, 60));
    if m > 0 {
      assert calls[..|calls| - 1] == CallsAt(n, Call(identity, 59)) + CallsAt(m - 1, Call(identity, 60));
      BurstCount(n, m - 1, identity, window);
    } else if n > 0 {
      assert calls[..|calls| - 1] == CallsAt(n - 1, Call(identity, 59)) + CallsAt(0, Call(identity, 60));
      BurstCount(n - 1, 0, identity, window);
    }
  }

  /** The bound is reached: bursts on both sides of a minute boundary get through in two seconds. */
  lemma TwiceTheLimitIsReached(limit: nat, identity: string)
    ensures Admitted(limit, CallsAt(limit, Call(identity, 59)) + CallsAt(limit, Call(identity, 60)), identity, 59, 61)
         == 2 * limit
  {
    var calls := CallsAt(limit, Call(identity, 59)) + CallsAt(limit, Call(identity, 60));
    BurstCount(limit, limit, identity, 0);
    BurstCount(limit, limit, identity, 1);
    AdmittedInWindow(limit, calls, identity, 0);
    AdmittedInWindow(limit, calls, identity, 1);
    AdmittedSplits(limit, calls, identity, 0, 60, 120);
    AdmittedSplits(limit, calls, identity, 0, 59, 120);
    AdmittedSplits(limit, calls, identity, 59, 61, 120);
    NothingElsewhere(limit, limit, limit, identity);
  }

  lemma {:induction false} NothingElsewhere(limit: nat, n: nat, m: nat, identity: string)
    ensures var calls := CallsAt(n, Call(identity, 59)) + CallsAt(m, Call(identity, 60));
            Admitted(limit, calls, identity, 0, 59) == 0 && Admitted(limit, calls, identity, 61, 120) == 0
  {
    var calls := CallsAt(n, Call(identity, 59)) + CallsAt(m, Call(identity, 60));
    if m > 0 {
      assert calls[..|calls| - 1] == CallsAt(n, Call(identity, 59)) + CallsAt(m - 1, Call(identity, 60));
      NothingElsewhere(limit, n, m - 1, identity);
    } else if n > 0 {
      assert calls[..|calls| - 1] == CallsAt(n - 1, Call(identity, 59)) + CallsAt(0, Call(identity, 60));
      NothingElsewhere(limit, n - 1, 0, identity);
    }
  }

  // The calls of one identity, in order.
  function Own(calls: seq<Call>, identity: string): seq<Call> {
    if calls == [] then []
    else
      var last := calls[|calls| - 1];
      Own(calls[..|calls| - 1], identity) + if last.identity == identity then [last] else []
  }

  /** Nobody else's calls count: an identity is treated as if it were alone. */
  lemma {:induction false} OthersDoNotCount(limit: int, calls: seq<Call>, identity: string)
    ensures forall w :: CallsIn(Own(calls, identity), identity, w) == CallsIn(calls, identity, w)
    ensures forall call: Call :: call.identity == identity ==>
              Admits(limit, Own(calls, identity), call) == Admits(limit, calls, call)
  {
    if calls != [] {
      var before, last := calls[..|calls| - 1], calls[|calls| - 1];
      OthersDoNotCount(limit, before, identity);
      if last.identity == identity {
        assert (Own(before, identity) + [last])[..|Own(before, identity)|] == Own(before, identity);
      } else {
        assert Own(calls, identity) == Own(before, identity);
      }
    }
  }
}
