/**
 The JWKS cache shared by any number of concurrent requests. A refresh gives up the event loop twice,
 while it waits for the response and while it closes the client; everything else runs undisturbed.
 */
module JwksTasks {
  import opened Options
  import opened Jwks

  datatype Phase =
    | Asking(kid: string)
    | Fetching(kid: string, again: bool)                 // `again`: the snapshot at hand lacked the kid
    | Storing(kid: string, again: bool, keys: KeySet)    // response read, client closing
    | Done(kid: string, answer: Answer)

  // A snapshot put into the cache, when and by which task.
  datatype Stored = Stored(keys: KeySet, at: real, task: nat)

  datatype System = System(cache: Cache, tasks: map<nat, Phase>, stores: seq<Stored>)

  // `reply` is None when the request fails.
  datatype Step = Arrive(task: nat, kid: string) | Proceed(task: nat, now: real, reply: Option<KeySet>)

  function AfterLook(c: Cache, kid: string, now: real): Phase {
    if Stale(c, now) then Fetching(kid, false)
    else
      match First(c.keys.value, kid)
      case Some(key) => Done(kid, Found(key))
      case None => Fetching(kid, true)
  }

  function AfterStore(keys: KeySet, kid: string, again: bool): Phase {
    match First(keys, kid)
    case Some(key) => Done(kid, Found(key))
    case None => if again then Done(kid, UnknownKey) else Fetching(kid, true)
  }

  function Next(ttl: real, s: System, step: Step): System {
    match step
    case Arrive(w, kid) => if w in s.tasks then s else s.(tasks := s.tasks[w := Asking(kid)])
    case Proceed(w, now, reply) =>
      if w !in s.tasks then s
      else
        match s.tasks[w]
        case Asking(kid) => s.(tasks := s.tasks[w := AfterLook(s.cache, kid, now)])
        case Fetching(kid, again) =>
          s.(tasks := s.tasks[w := if reply.None? then Done(kid, FetchFailed) else Storing(kid, again, reply.value)])
        case Storing(kid, again, keys) =>
          System(Cache(Some(keys), now + ttl), s.tasks[w := AfterStore(keys, kid, again)],
                 s.stores + [Stored(keys, now, w)])
        case Done(_, _) => s
  }

  function Run(ttl: real, steps: seq<Step>): System {
    if steps == [] then System(EMPTY, map[], [])
    else Next(ttl, Run(ttl, steps[..|steps| - 1]), steps[|steps| - 1])
  }

  // The cache holds the snapshot stored last.
  ghost predicate HoldsLast(ttl: real, s: System) {
    if s.stores == [] then s.cache == EMPTY
    else
      var last := s.stores[|s.stores| - 1];
      s.cache == Cache(Some(last.keys), last.at + ttl)
  }

  function StoresOf(stores: seq<Stored>, task: nat): nat {
    if stores == [] then 0
    else StoresOf(stores[..|stores| - 1], task) + if stores[|stores| - 1].task == task then 1 else 0
  }

  // Requests a task has sent whose response it has not stored.
  function Unstored(phase: Phase): nat {
    if phase.Fetching? || phase.Storing? || (phase.Done? && phase.answer.FetchFailed?) then 1 else 0
  }

  function Allowance(phase: Phase): nat {
    match phase
    case Asking(_) => 0
    case Fetching(_, again) => if again then 2 else 1
    case Storing(_, again, _) => if again then 2 else 1
    case Done(_, _) => 2
  }

  ghost predicate FewRequests(s: System) {
    && (forall w :: w in s.tasks ==> StoresOf(s.stores, w) + Unstored(s.tasks[w]) <= Allowance(s.tasks[w]))
    && (forall w :: w !in s.tasks ==> StoresOf(s.stores, w) == 0)
  }

  lemma StoresOfMore(stores: seq<Stored>, last: Stored, task: nat)
    ensures StoresOf(stores + [last], task) == StoresOf(stores, task) + if last.task == task then 1 else 0
  {
    assert (stores + [last])[..|stores|] == stores;
  }

  lemma StepKeepsFew(ttl: real, s: System, step: Step)
    requires FewRequests(s)
    ensures FewRequests(Next(ttl, s, step))
  {
    var s' := Next(ttl, s, step);
    forall w: nat
      ensures s'.stores == s.stores || StoresOf(s'.stores, w) == StoresOf(s.stores, w) + if w == step.task then 1 else 0
    {
      if s'.stores != s.stores { StoresOfMore(s.stores, s'.stores[|s.stores|], w); }
    }
  }

  lemma {:induction false} RunKeeps(ttl: real, steps: seq<Step>)
    ensures HoldsLast(ttl, Run(ttl, steps)) && FewRequests(Run(ttl, steps))
  {
    if steps != [] {
      RunKeeps(ttl, steps[..|steps| - 1]);
      StepKeepsFew(ttl, Run(ttl, steps[..|steps| - 1]), steps[|steps| - 1]);
    }
  }

  ghost predicate Answers(s: System, s': System, w: nat, kid: string, answer: Answer) {
    w in s.tasks && !s.tasks[w].Done? && w in s'.tasks && s'.tasks[w] == Done(kid, answer)
  }

  // The snapshot has the key first with its kid, and it is fresh or the request's own.
  ghost predicate Backs(ttl: real, stored: Stored, w: nat, now: real, kid: string, key: Key) {
    First(stored.keys, kid) == Some(key) && (now < stored.at + ttl || stored.task == w)
  }

  ghost predicate SomeBacks(ttl: real, stores: seq<Stored>, w: nat, now: real, kid: string, key: Key) {
    exists i :: 0 <= i < |stores| && Backs(ttl, stores[i], w, now, kid, key)
  }

  // The request's own fetch, stored just now, lacks the kid.
  ghost predicate LastLacks(stores: seq<Stored>, w: nat, now: real, kid: string) {
    stores != [] && var last := stores[|stores| - 1]; last.task == w && last.at == now && First(last.keys, kid) == None
  }

  /**
   However the requests interleave, a key handed out is the first with its kid in a snapshot that was
   stored less than ttl before the lookup, or that this very request fetched. A key is called unknown
   only when the request's own fetch lacks it, and no request fetches more than twice.
   */
  lemma AnswersAreFresh(ttl: real, steps: seq<Step>, w: nat, now: real, reply: Option<KeySet>, kid: string,
                        answer: Answer)
    requires Answers(Run(ttl, steps), Next(ttl, Run(ttl, steps), Proceed(w, now, reply)), w, kid, answer)
    ensures var s' := Next(ttl, Run(ttl, steps), Proceed(w, now, reply));
            && (answer.Found? ==> SomeBacks(ttl, s'.stores, w, now, kid, answer.key))
            && (answer.UnknownKey? ==> LastLacks(s'.stores, w, now, kid))
            && StoresOf(s'.stores, w) + Unstored(s'.tasks[w]) <= 2
  {
    RunKeeps(ttl, steps);
    RunKeeps(ttl, steps + [Proceed(w, now, reply)]);
    assert (steps + [Proceed(w, now, reply)])[..|steps|] == steps;
    var s := Run(ttl, steps);
    var s' := Next(ttl, s, Proceed(w, now, reply));
    if answer.Found? {
      var i := |s'.stores| - 1;
      assert Backs(ttl, s'.stores[i], w, now, kid, answer.key);
    }
  }
  // ----- a request with nothing beside it -----

  // The clock when a reply is stored; a failed one is not.
  function StoredAt(reply: Reply): real {
    if reply.Fetched? then reply.at else 0.0
  }

  function KeysOf(reply: Reply): Option<KeySet> {
    if reply.Fetched? then Some(reply.keys) else None
  }

  function Fetch(ttl: real, s: System, w: nat, reply: Reply): System {
    Next(ttl, Next(ttl, s, Proceed(w, 0.0, KeysOf(reply))), Proceed(w, StoredAt(reply), None))
  }

  lemma FetchAlone(ttl: real, s: System, w: nat, kid: string, again: bool, reply: Reply)
    requires w in s.tasks && s.tasks[w] == Fetching(kid, again)
    ensures var s' := Fetch(ttl, s, w, reply);
            && w in s'.tasks && s'.cache == Store(ttl, s.cache, reply)
            && s'.tasks[w] == if reply.Fetched? then AfterStore(reply.keys, kid, again) else Done(kid, FetchFailed)
  {
  }

  lemma DoneStays(ttl: real, s: System, w: nat, reply: Reply)
    requires w in s.tasks && s.tasks[w].Done?
    ensures Fetch(ttl, s, w, reply) == s
  {
  }

  /**
   Left alone, a request that looks, and fetches at most twice, leaves the cache and gives the answer of one
   call of get_key.
   */
  lemma AloneIsACall(ttl: real, s: System, w: nat, call: Call)
    requires w in s.tasks && s.tasks[w] == Asking(call.kid)
    ensures var looked := Next(ttl, s, Proceed(w, call.now, None));
            var first, second := if Stale(s.cache, call.now) then call.onStale else call.onMiss, call.onMiss;
            var s' := Fetch(ttl, Fetch(ttl, looked, w, first), w, second);
            && w in s'.tasks && s'.cache == Ask(ttl, s.cache, call).cache
            && s'.tasks[w] == Done(call.kid, Ask(ttl, s.cache, call).answer)
  {
    var looked := Next(ttl, s, Proceed(w, call.now, None));
    var first := if Stale(s.cache, call.now) then call.onStale else call.onMiss;
    if looked.tasks[w].Done? {
      DoneStays(ttl, looked, w, first);
      DoneStays(ttl, looked, w, call.onMiss);
    } else {
      FetchAlone(ttl, looked, w, call.kid, !Stale(s.cache, call.now), first);
      var fetched := Fetch(ttl, looked, w, first);
      if fetched.tasks[w].Done? {
        DoneStays(ttl, fetched, w, call.onMiss);
      } else {
        FetchAlone(ttl, fetched, w, call.kid, true, call.onMiss);
      }
    }
  }
}
