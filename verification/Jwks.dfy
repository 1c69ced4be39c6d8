/** The JWKS cache alone: `get_key` with its refresh when stale and its refresh on a miss. */
module Jwks {
  import opened Options

  // An entry of a JWK Set; `kid` is optional there.
  datatype Key = Key(kid: Option<string>, material: string)
  type KeySet = seq<Key>

  // The issuer's answer to a fetch, with the clock when it was stored, or an HTTP error.
  datatype Reply = Fetched(keys: KeySet, at: real) | Unreachable

  datatype Answer = Found(key: Key) | UnknownKey | FetchFailed

  // ----- the uncached lookup: the first key with that kid -----

  function First(keys: KeySet, kid: string): (r: Option<Key>)
    ensures r.Some? ==> r.value in keys && r.value.kid == Some(kid)
    ensures r.None? <==> forall i :: 0 <= i < |keys| ==> keys[i].kid != Some(kid)
  {
    if keys == [] then None
    else if keys[0].kid == Some(kid) then Some(keys[0])
    else First(keys[1..], kid)
  }

  lemma {:induction false} FirstAt(keys: KeySet, kid: string, i: nat)
    requires i < |keys| && keys[i].kid == Some(kid) && forall j :: 0 <= j < i ==> keys[j].kid != Some(kid)
    ensures First(keys, kid) == Some(keys[i])
  {
    if i > 0 { FirstAt(keys[1..], kid, i - 1); }
  }

  // ----- the cache -----

  datatype Cache = Cache(keys: Option<KeySet>, expiresAt: real)

  const EMPTY := Cache(None, 0.0)

  predicate Stale(c: Cache, now: real) {
    c.keys.None? || now >= c.expiresAt
  }

  function Store(ttl: real, c: Cache, reply: Reply): Cache {
    match reply
    case Fetched(keys, at) => Cache(Some(keys), at + ttl)
    case Unreachable => c
  }

  // One call of get_key: the clock it reads, and what the issuer would answer to each of its fetches.
  datatype Call = Call(kid: string, now: real, onStale: Reply, onMiss: Reply)

  datatype Trace = Trace(cache: Cache, answer: Answer, fetches: nat)

  function AnswerFrom(keys: KeySet, kid: string): Answer {
    match First(keys, kid) case Some(key) => Found(key) case None => UnknownKey
  }

  function AfterMiss(ttl: real, c: Cache, call: Call, fetches: nat): Trace {
    match call.onMiss
    case Unreachable => Trace(c, FetchFailed, fetches + 1)
    case Fetched(keys, _) => Trace(Store(ttl, c, call.onMiss), AnswerFrom(keys, call.kid), fetches + 1)
  }

  function Ask(ttl: real, c: Cache, call: Call): Trace {
    if Stale(c, call.now) then
      match call.onStale
      case Unreachable => Trace(c, FetchFailed, 1)
      case Fetched(keys, _) =>
        var c' := Store(ttl, c, call.onStale);
        if First(keys, call.kid).Some? then Trace(c', AnswerFrom(keys, call.kid), 1) else AfterMiss(ttl, c', call, 1)
    else
      if First(c.keys.value, call.kid).Some? then Trace(c, AnswerFrom(c.keys.value, call.kid), 0)
      else AfterMiss(ttl, c, call, 0)
  }

  class JWKSCache {
    const ttl: real
    var jwks: Option<KeySet>
    var expiresAt: real

    constructor (ttl: real)
      ensures this.ttl == ttl && State() == EMPTY
    {
      this.ttl := ttl;
      jwks, expiresAt := None, 0.0;
    }

    function State(): Cache
      reads this
    {
      Cache(jwks, expiresAt)
    }

    // None when the request raised.
    method Refresh(reply: Reply) returns (keys: Option<KeySet>)
      modifies this
      ensures State() == Store(ttl, old(State()), reply)
      ensures keys == if reply.Fetched? then Some(reply.keys) else None
    {
      if reply.Unreachable? {
        return None;
      }
      jwks := Some(reply.keys);
      expiresAt := reply.at + ttl;
      keys := jwks;
    }

    method GetJwks(now: real, reply: Reply) returns (keys: Option<KeySet>)
      modifies this
      ensures State() == if Stale(old(State()), now) then Store(ttl, old(State()), reply) else old(State())
      ensures keys == if Stale(old(State()), now) then (if reply.Fetched? then Some(reply.keys) else None)
                      else old(State()).keys
    {
      if jwks.None? || now >= expiresAt {
        keys := Refresh(reply);
      } else {
        keys := jwks;
      }
    }

    static method FindKey(keys: KeySet, kid: string) returns (key: Option<Key>)
      ensures key == First(keys, kid)
    {
      for i := 0 to |keys|
        invariant forall j :: 0 <= j < i ==> keys[j].kid != Some(kid)
      {
        if keys[i].kid == Some(kid) {
          FirstAt(keys, kid, i);
          return Some(keys[i]);
        }
      }
      key := None;
    }

    method GetKey(call: Call) returns (answer: Answer)
      modifies this
      ensures State() == Ask(ttl, old(State()), call).cache
      ensures answer == Ask(ttl, old(State()), call).answer
    {
      var keys := GetJwks(call.now, call.onStale);
      if keys.None? {
        return FetchFailed;
      }
      var key := FindKey(keys.value, call.kid);
      if key.None? {
        keys := Refresh(call.onMiss);
        if keys.None? {
          return FetchFailed;
        }
        key := FindKey(keys.value, call.kid);
      }
      if key.None? {
        return UnknownKey;
      }
      answer := Found(key.value);
    }
  }

  // ----- sequential runs -----

  ghost function RunCalls(ttl: real, calls: seq<Call>): Cache {
    if calls == [] then EMPTY
    else Ask(ttl, RunCalls(ttl, calls[..|calls| - 1]), calls[|calls| - 1]).cache
  }

  // The clock never goes back, within a call or from one call to the next.
  function EndOf(call: Call): real {
    var t := if call.onStale.Fetched? && call.onStale.at > call.now then call.onStale.at else call.now;
    if call.onMiss.Fetched? && call.onMiss.at > t then call.onMiss.at else t
  }

  ghost predicate ClockForward(calls: seq<Call>) {
    && (forall i :: 0 <= i < |calls| ==>
          && (calls[i].onStale.Fetched? ==> calls[i].now <= calls[i].onStale.at)
          && (calls[i].onMiss.Fetched? ==> calls[i].now <= calls[i].onMiss.at)
          && (calls[i].onStale.Fetched? && calls[i].onMiss.Fetched? ==> calls[i].onStale.at <= calls[i].onMiss.at))
    && (forall i, j :: 0 <= i < j < |calls| ==> EndOf(calls[i]) <= calls[j].now)
  }

  // The snapshot in the cache is one some call of the run stored, and it expires ttl after that.
  ghost predicate StoredBy(ttl: real, c: Cache, reply: Reply) {
    reply.Fetched? && c == Cache(Some(reply.keys), reply.at + ttl)
  }

  lemma {:induction false} CachedSnapshot(ttl: real, calls: seq<Call>)
    requires RunCalls(ttl, calls) != EMPTY
    ensures exists i :: 0 <= i < |calls| && (StoredBy(ttl, RunCalls(ttl, calls), calls[i].onStale)
                                             || StoredBy(ttl, RunCalls(ttl, calls), calls[i].onMiss))
  {
    var n := |calls| - 1;
    var before := RunCalls(ttl, calls[..n]);
    if RunCalls(ttl, calls) == before {
      CachedSnapshot(ttl, calls[..n]);
      var i :| 0 <= i < n && (StoredBy(ttl, before, calls[..n][i].onStale) || StoredBy(ttl, before, calls[..n][i].onMiss));
      assert calls[..n][i] == calls[i];
    } else {
      assert calls[n] == calls[n];
    }
  }

  ghost predicate FetchedBy(calls: seq<Call>, i: int, reply: Reply) {
    0 <= i < |calls| && reply.Fetched? && (reply == calls[i].onStale || reply == calls[i].onMiss)
  }

  // The snapshot the call looked at first, if it had one.
  function FirstLook(c: Cache, call: Call): Option<KeySet> {
    if !Stale(c, call.now) then c.keys
    else if call.onStale.Fetched? then Some(call.onStale.keys)
    else None
  }

  /**
   After any run of calls, get_key answers as an uncached lookup on the snapshot it leaves in the cache.
   That snapshot is less than ttl old, or was fetched by this very call; a key is called unknown only when
   the call's own last fetch lacks the kid. A call makes at most two fetches.
   */
  lemma CacheRefinesLookup(ttl: real, calls: seq<Call>, call: Call)
    ensures var c := RunCalls(ttl, calls);
            var result := Ask(ttl, c, call);
            && result.fetches <= 2
            && (!result.answer.FetchFailed? ==>
                  && result.cache.keys.Some?
                  && result.answer == AnswerFrom(result.cache.keys.value, call.kid)
                  && if result.fetches == 0
                     then result.cache == c
                          && exists i, reply :: FetchedBy(calls, i, reply) && StoredBy(ttl, c, reply)
                                                && call.now < reply.at + ttl
                     else StoredBy(ttl, result.cache, if FirstLook(c, call).Some?
                                                         && First(FirstLook(c, call).value, call.kid).Some?
                                                      then call.onStale else call.onMiss))
            && (result.answer.UnknownKey? ==> result.fetches >= 1 && StoredBy(ttl, result.cache, call.onMiss)
                                              && First(call.onMiss.keys, call.kid) == None)
            && (result.answer.FetchFailed? ==> call.onStale.Unreachable? || call.onMiss.Unreachable?)
  {
    var c := RunCalls(ttl, calls);
    if !Stale(c, call.now) {
      CachedSnapshot(ttl, calls);
      var i :| 0 <= i < |calls| && (StoredBy(ttl, c, calls[i].onStale) || StoredBy(ttl, c, calls[i].onMiss));
      if StoredBy(ttl, c, calls[i].onStale) {
        assert FetchedBy(calls, i, calls[i].onStale);
      } else {
        assert FetchedBy(calls, i, calls[i].onMiss);
      }
    }
  }

  // ----- how many fetches -----

  ghost function Fetches(ttl: real, calls: seq<Call>): nat {
    if calls == [] then 0
    else
      var n := |calls| - 1;
      Fetches(ttl, calls[..n]) + Ask(ttl, RunCalls(ttl, calls[..n]), calls[n]).fetches
  }

  ghost predicate Renews(ttl: real, c: Cache, call: Call) {
    Stale(c, call.now) && call.onStale.Fetched?
  }

  // Fetches of a stale cache that succeeded.
  ghost function Renewals(ttl: real, calls: seq<Call>): nat {
    if calls == [] then 0
    else
      var n := |calls| - 1;
      Renewals(ttl, calls[..n]) + if Renews(ttl, RunCalls(ttl, calls[..n]), calls[n]) then 1 else 0
  }

  // Calls whose kid the snapshot at hand lacked, or whose stale cache could not be renewed.
  ghost function Exceptions(ttl: real, calls: seq<Call>): nat {
    if calls == [] then 0
    else
      var n := |calls| - 1;
      var c := RunCalls(ttl, calls[..n]);
      var keys := if Stale(c, calls[n].now) then (if calls[n].onStale.Fetched? then Some(calls[n].onStale.keys) else None)
                  else c.keys;
      Exceptions(ttl, calls[..n]) + if keys.None? || First(keys.value, calls[n].kid).None? then 1 else 0
  }

  lemma {:induction false} FetchesAccounted(ttl: real, calls: seq<Call>)
    ensures Fetches(ttl, calls) == Renewals(ttl, calls) + Exceptions(ttl, calls)
  {
    if calls != [] { FetchesAccounted(ttl, calls[..|calls| - 1]); }
  }

  // What one call does to the expiry, the clock going forward from `prev`.
  lemma CallMovesExpiry(ttl: real, c: Cache, prev: real, call: Call)
    requires c.keys.Some? ==> c.expiresAt <= prev + ttl
    requires prev <= call.now && ClockForward([call])
    ensures var c' := Ask(ttl, c, call).cache;
            && (c'.keys.Some? ==> c'.expiresAt <= EndOf(call) + ttl)
            && (c.keys.Some? ==> c'.keys.Some? && c'.expiresAt >= c.expiresAt)
            && (Renews(ttl, c, call) ==> c'.keys.Some? && c'.expiresAt >= call.now + ttl
                                         && (c.keys.Some? ==> call.now >= c.expiresAt))
            && (!Renews(ttl, c, call) && c.keys.None? ==> c'.keys.None?)
  {
    assert [call][0] == call;
  }

  // k * ttl
  ghost function Times(k: nat, ttl: real): real {
    if k == 0 then 0.0 else Times(k - 1, ttl) + ttl
  }

  // After k renewals the expiry lies k periods after the first call, and the clock at least k - 1.
  ghost predicate Spread(ttl: real, c: Cache, k: nat, start: real, now: real, end: real) {
    && start <= now <= end
    && (c.keys.Some? ==> k > 0 && c.expiresAt <= end + ttl && c.expiresAt >= start + Times(k, ttl))
    && (k > 0 ==> c.keys.Some? && now >= start + Times(k - 1, ttl))
  }

  lemma CallSpreads(ttl: real, c: Cache, k: nat, start: real, now: real, end: real, call: Call)
    requires Spread(ttl, c, k, start, now, end) && end <= call.now && ClockForward([call])
    ensures Spread(ttl, Ask(ttl, c, call).cache, k + if Renews(ttl, c, call) then 1 else 0, start, call.now, EndOf(call))
  {
    CallMovesExpiry(ttl, c, end, call);
  }

  lemma {:induction false} RenewalsSpread(ttl: real, calls: seq<Call>)
    requires calls != [] && ClockForward(calls)
    ensures var last := calls[|calls| - 1];
            Spread(ttl, RunCalls(ttl, calls), Renewals(ttl, calls), calls[0].now, last.now, EndOf(last))
  {
    var n := |calls| - 1;
    var before, last := calls[..n], calls[n];
    if n == 0 {
      assert before == [] && RunCalls(ttl, before) == EMPTY && Renewals(ttl, before) == 0;
      CallSpreads(ttl, EMPTY, 0, last.now, last.now, last.now, last);
    } else {
      RenewalsSpread(ttl, before);
      assert before[0] == calls[0] && before[n - 1] == calls[n - 1];
      var prev := calls[n - 1];
      CallSpreads(ttl, RunCalls(ttl, before), Renewals(ttl, before), calls[0].now, prev.now, EndOf(prev), last);
    }
  }

  lemma {:induction false} TimesAtMost(k: nat, ttl: real, span: real)
    requires ttl > 0.0 && Times(k, ttl) <= span
    ensures k as real <= span / ttl
  {
    if k == 0 {
      QuotientNotNegative(ttl, span);
    } else {
      TimesAtMost(k - 1, ttl, span - ttl);
      OnePeriodLess(ttl, span);
    }
  }

  lemma QuotientNotNegative(ttl: real, span: real)
    requires ttl > 0.0 && span >= 0.0
    ensures span / ttl >= 0.0
  {
  }

  lemma Quotient(x: real, y: real, q: real)
    requires y > 0.0 && q * y == x
    ensures x / y == q
  {
    var r := x / y;
    assert r * y == x;
    assert (r - q) * y == 0.0;
  }

  lemma OnePeriodLess(ttl: real, span: real)
    requires ttl > 0.0
    ensures (span - ttl) / ttl == span / ttl - 1.0
  {
    var q := span / ttl;
    assert q * ttl == span;
    assert (q - 1.0) * ttl == span - ttl;
    Quotient(span - ttl, ttl, q - 1.0);
  }

  /**
   Over a run of calls whose clock spans T seconds, with no misses and no failed fetches, the cache makes
   at most T / ttl + 1 fetches; each miss or failure adds at most one.
   */
  lemma FetchBound(ttl: real, calls: seq<Call>)
    requires ttl > 0.0 && calls != [] && ClockForward(calls)
    ensures var span := calls[|calls| - 1].now - calls[0].now;
            Fetches(ttl, calls) as real <= span / ttl + 1.0 + Exceptions(ttl, calls) as real
  {
    var span := calls[|calls| - 1].now - calls[0].now;
    var k := Renewals(ttl, calls);
    FetchesAccounted(ttl, calls);
    RenewalsSpread(ttl, calls);
    TimesAtMost(if k > 0 then k - 1 else 0, ttl, span);
  }
}
