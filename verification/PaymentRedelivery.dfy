/** Redelivered webhooks: repeats, retries after a lost race, and what `duplicate` really says. */
module PaymentRedelivery {
  import opened Options
  import opened PaymentTables
  import opened PaymentFlow
  import opened PaymentSystem
  import opened PaymentSafety

  // One delivery attempt, with the uuid4 it would give a new row.
  datatype Attempt = Attempt(d: Delivery, uid: Uuid)

  ghost function DeliverAll(t: Tables, attempts: seq<Attempt>): Tables {
    if attempts == [] then t
    else
      var n := |attempts| - 1;
      DeliverAlone(DeliverAll(t, attempts[..n]), attempts[n].d, attempts[n].uid).tables
  }

  ghost predicate Repeats(earlier: seq<Attempt>, id: string) {
    exists k :: 0 <= k < |earlier| && earlier[k].d.id == id
  }

  // The attempts without the later repeats of an event id.
  ghost function WithoutRepeats(attempts: seq<Attempt>): seq<Attempt> {
    if attempts == [] then []
    else
      var n := |attempts| - 1;
      WithoutRepeats(attempts[..n]) + if Repeats(attempts[..n], attempts[n].d.id) then [] else [attempts[n]]
  }

  // If the delivery had to insert a row, the schema's checks would take it.
  predicate Acceptable(tenants: set<Uuid>, d: Delivery) {
    Tracks(d) && !d.body.tenant.NoTenant? && d.body.user != "" ==>
      && d.body.tenant.TenantUuid? && d.body.tenant.id in tenants
      && d.body.amount.Some? && 0 < d.body.amount.value <= MAX_INTEGER
  }

  ghost predicate FreshUids(t: Tables, attempts: seq<Attempt>) {
    && (forall k :: 0 <= k < |attempts| ==> attempts[k].uid !in t.payments)
    && (forall j, k :: 0 <= j < k < |attempts| ==> attempts[j].uid != attempts[k].uid)
  }

  ghost predicate AllAcceptable(t: Tables, attempts: seq<Attempt>) {
    forall k :: 0 <= k < |attempts| ==> Acceptable(t.tenants, attempts[k].d)
  }

  lemma AcceptableCommits(t: Tables, d: Delivery, uid: Uuid)
    requires Consistent(t) && Acceptable(t.tenants, d) && uid !in t.payments && d.id !in t.events
    ensures DeliverAlone(t, d, uid).committed
  {
    LowerIsIdempotent(d.body.currency.GetOr("usd"));
    if Tracks(d) && IntentTaken(t.payments, d.body.id.value) {
      var id :| id in t.payments && t.payments[id].intent == d.body.id.value;
      LookupIsUnique(t, d.body.id.value, id);
      assert StoredPayment(t, id);
    }
  }

  lemma DeliverKeeps(t: Tables, d: Delivery, uid: Uuid)
    requires Consistent(t)
    ensures var t' := DeliverAlone(t, d, uid).tables;
            && Consistent(t') && Evolves(t, t')
            && t'.payments.Keys <= t.payments.Keys + {uid}
            && (forall e :: e in t'.events && e !in t.events ==> e == d.id && t'.events[e] == EventRowOf(d))
  {
    if d.id !in t.events && PlanFor(t, d, uid).Plan? {
      var staged := Staged(PlanFor(t, d, uid).change, Some(EventRowOf(d)));
      if Commit(t, staged).Committed? {
        CommitKeepsConsistent(t, staged);
        CommitEvolves(t, staged);
      }
    }
  }

  lemma {:induction false} DeliveriesKeep(t: Tables, attempts: seq<Attempt>)
    requires Consistent(t)
    ensures var t' := DeliverAll(t, attempts);
            && Consistent(t') && Evolves(t, t')
            && (forall id :: id in t'.payments && id !in t.payments ==>
                  exists k :: 0 <= k < |attempts| && attempts[k].uid == id)
  {
    if attempts != [] {
      var n := |attempts| - 1;
      var before := attempts[..n];
      DeliveriesKeep(t, before);
      DeliverKeeps(DeliverAll(t, before), attempts[n].d, attempts[n].uid);
      forall id | id in DeliverAll(t, attempts).payments && id !in t.payments
        ensures exists k :: 0 <= k < |attempts| && attempts[k].uid == id
      {
        if id in DeliverAll(t, before).payments {
          var k :| 0 <= k < |before| && before[k].uid == id;
          assert attempts[k].uid == id;
        } else {
          assert attempts[n].uid == id;
        }
      }
    }
  }

  // Whatever came before, an acceptable attempt leaves its event recorded.
  lemma LastIsRecorded(t: Tables, before: seq<Attempt>, last: Attempt)
    requires Consistent(t) && Acceptable(t.tenants, last.d) && last.uid !in t.payments
    requires forall k :: 0 <= k < |before| ==> before[k].uid != last.uid
    ensures var t1 := DeliverAll(t, before);
            var t2 := DeliverAlone(t1, last.d, last.uid).tables;
            last.d.id in t2.events && KeepsEvents(t1.events, t2.events)
  {
    DeliveriesKeep(t, before);
    var t1 := DeliverAll(t, before);
    DeliverKeeps(t1, last.d, last.uid);
    if last.d.id !in t1.events { AcceptableCommits(t1, last.d, last.uid); }
  }

  lemma {:induction false} AllRecorded(t: Tables, attempts: seq<Attempt>)
    requires Consistent(t) && FreshUids(t, attempts) && AllAcceptable(t, attempts)
    ensures forall k :: 0 <= k < |attempts| ==> attempts[k].d.id in DeliverAll(t, attempts).events
  {
    if attempts != [] {
      var n := |attempts| - 1;
      AllRecorded(t, attempts[..n]);
      LastIsRecorded(t, attempts[..n], attempts[n]);
      forall k | 0 <= k < n
        ensures attempts[k].d.id in DeliverAll(t, attempts).events
      {
        assert attempts[..n][k] == attempts[k];
      }
    }
  }

  // The first attempt of an event writes its row.
  lemma LastWrites(t: Tables, before: seq<Attempt>, last: Attempt)
    requires Consistent(t) && Acceptable(t.tenants, last.d) && last.uid !in t.payments
    requires forall k :: 0 <= k < |before| ==> before[k].uid != last.uid
    requires !Repeats(before, last.d.id) && last.d.id !in t.events
    ensures var t2 := DeliverAlone(DeliverAll(t, before), last.d, last.uid).tables;
            last.d.id in t2.events && t2.events[last.d.id] == EventRowOf(last.d)
  {
    if last.d.id in DeliverAll(t, before).events {
      OnlyAttemptsRecord(t, before, last.d.id);
    } else {
      LastIsRecorded(t, before, last);
      DeliveriesKeep(t, before);
      DeliverKeeps(DeliverAll(t, before), last.d, last.uid);
    }
  }

  ghost predicate Holds(t: Tables, row: EventRow) {
    row.id in t.events && t.events[row.id] == row
  }

  // The row an event id ends up with is the one its first attempt wrote.
  lemma {:induction false} FirstAttemptWrites(t: Tables, attempts: seq<Attempt>, k: nat)
    requires Consistent(t) && FreshUids(t, attempts) && AllAcceptable(t, attempts)
    requires k < |attempts| && !Repeats(attempts[..k], attempts[k].d.id) && attempts[k].d.id !in t.events
    ensures Holds(DeliverAll(t, attempts), EventRowOf(attempts[k].d))
    decreases |attempts|
  {
    var n := |attempts| - 1;
    if k == n {
      LastWrites(t, attempts[..n], attempts[n]);
    } else {
      assert attempts[..n][..k] == attempts[..k];
      FirstAttemptWrites(t, attempts[..n], k);
      LastIsRecorded(t, attempts[..n], attempts[n]);
    }
  }

  lemma {:induction false} OnlyAttemptsRecord(t: Tables, attempts: seq<Attempt>, e: string)
    requires e in DeliverAll(t, attempts).events && e !in t.events
    ensures Repeats(attempts, e)
  {
    if attempts != [] {
      var n := |attempts| - 1;
      if attempts[n].d.id == e {
        assert 0 <= n < |attempts| && attempts[n].d.id == e;
      } else {
        OnlyAttemptsRecord(t, attempts[..n], e);
        var k :| 0 <= k < |attempts[..n]| && attempts[..n][k].d.id == e;
        assert attempts[k].d.id == e;
      }
    }
  }

  // ----- when repeats change nothing -----

  // The attempt does not commit: DeliveryAnswer's conditions.
  ghost predicate Idle(t: Tables, a: Attempt) {
    a.d.id in t.events || Unsendable(t, a.d) || Refused(t, a.d, a.uid)
  }

  ghost predicate RepeatsIdle(t: Tables, attempts: seq<Attempt>) {
    forall k :: 0 <= k < |attempts| && Repeats(attempts[..k], attempts[k].d.id) ==>
      Idle(DeliverAll(t, attempts[..k]), attempts[k])
  }

  lemma RepeatsIdleGrows(t: Tables, attempts: seq<Attempt>)
    requires attempts != []
    ensures var n := |attempts| - 1;
            RepeatsIdle(t, attempts)
            <==> RepeatsIdle(t, attempts[..n])
                 && (Repeats(attempts[..n], attempts[n].d.id) ==> Idle(DeliverAll(t, attempts[..n]), attempts[n]))
  {
    var n := |attempts| - 1;
    forall k | 0 <= k < n
      ensures attempts[..n][..k] == attempts[..k] && attempts[..n][k] == attempts[k]
    {
    }
  }

  lemma {:induction false} IdleRepeatsVanish(t: Tables, attempts: seq<Attempt>)
    requires Consistent(t) && RepeatsIdle(t, attempts)
    ensures DeliverAll(t, attempts) == DeliverAll(t, WithoutRepeats(attempts))
  {
    if attempts != [] {
      var n := |attempts| - 1;
      var before, last := attempts[..n], attempts[n];
      RepeatsIdleGrows(t, attempts);
      IdleRepeatsVanish(t, before);
      if Repeats(before, last.d.id) {
        DeliveriesKeep(t, before);
        DeliveryAnswer(DeliverAll(t, before), last.d, last.uid);
        assert WithoutRepeats(attempts) == WithoutRepeats(before);
      } else {
        OneMoreDelivery(t, WithoutRepeats(before), last);
      }
    }
  }

  lemma OneMoreDelivery(t: Tables, before: seq<Attempt>, last: Attempt)
    ensures DeliverAll(t, before + [last]) == DeliverAlone(DeliverAll(t, before), last.d, last.uid).tables
  {
    assert (before + [last])[..|before|] == before;
  }

  // An event that a repeat recorded, and that the list without repeats never records.
  ghost predicate OnlyRepeatRecords(t: Tables, attempts: seq<Attempt>, e: string) {
    && Repeats(attempts, e) && e in DeliverAll(t, attempts).events
    && e !in DeliverAll(t, WithoutRepeats(attempts)).events
  }

  lemma OnlyRepeatStays(t: Tables, attempts: seq<Attempt>, e: string)
    requires Consistent(t) && attempts != [] && OnlyRepeatRecords(t, attempts[..|attempts| - 1], e)
    ensures OnlyRepeatRecords(t, attempts, e)
  {
    var n := |attempts| - 1;
    var before, last := attempts[..n], attempts[n];
    var kept := WithoutRepeats(before);
    var k :| 0 <= k < |before| && before[k].d.id == e;
    assert attempts[k].d.id == e;
    DeliveriesKeep(t, before);
    DeliverKeeps(DeliverAll(t, before), last.d, last.uid);
    if Repeats(before, last.d.id) {
      assert WithoutRepeats(attempts) == kept;
    } else {
      DeliveriesKeep(t, kept);
      DeliverKeeps(DeliverAll(t, kept), last.d, last.uid);
      OneMoreDelivery(t, kept, last);
    }
  }

  lemma {:induction false} CommittingRepeatShows(t: Tables, attempts: seq<Attempt>)
    requires Consistent(t) && !RepeatsIdle(t, attempts)
    ensures exists e :: OnlyRepeatRecords(t, attempts, e)
  {
    var n := |attempts| - 1;
    var before, last := attempts[..n], attempts[n];
    RepeatsIdleGrows(t, attempts);
    if !RepeatsIdle(t, before) {
      CommittingRepeatShows(t, before);
      var e :| OnlyRepeatRecords(t, before, e);
      OnlyRepeatStays(t, attempts, e);
    } else {
      IdleRepeatsVanish(t, before);
      DeliveriesKeep(t, before);
      DeliveryAnswer(DeliverAll(t, before), last.d, last.uid);
      assert WithoutRepeats(attempts) == WithoutRepeats(before);
      assert attempts[n].d.id == last.d.id;
      assert OnlyRepeatRecords(t, attempts, last.d.id);
    }
  }

  /**
   Sequential deliveries leave the tables of the list without later repeats of each event id if and only if
   every repeat finds its event recorded, or has a row to insert that cannot be sent or is refused.
   */
  lemma RepeatsChangeNothing(t: Tables, attempts: seq<Attempt>)
    requires Consistent(t)
    ensures DeliverAll(t, attempts) == DeliverAll(t, WithoutRepeats(attempts)) <==> RepeatsIdle(t, attempts)
  {
    if RepeatsIdle(t, attempts) {
      IdleRepeatsVanish(t, attempts);
    } else {
      CommittingRepeatShows(t, attempts);
    }
  }

  /** In particular repeats change nothing where every insert passes the schema's checks. */
  lemma AcceptableRepeatsChangeNothing(t: Tables, attempts: seq<Attempt>)
    requires Consistent(t) && FreshUids(t, attempts) && AllAcceptable(t, attempts)
    ensures DeliverAll(t, attempts) == DeliverAll(t, WithoutRepeats(attempts))
  {
    forall k | 0 <= k < |attempts| && Repeats(attempts[..k], attempts[k].d.id)
      ensures Idle(DeliverAll(t, attempts[..k]), attempts[k])
    {
      AllRecorded(t, attempts[..k]);
    }
    RepeatsChangeNothing(t, attempts);
  }

  /** A repeat is answered as a duplicate with the intent id its first delivery stored. */
  lemma RepeatReportsStoredIntent(t: Tables, attempts: seq<Attempt>, k: nat, again: Attempt)
    requires Consistent(t) && FreshUids(t, attempts) && AllAcceptable(t, attempts)
    requires k < |attempts| && !Repeats(attempts[..k], attempts[k].d.id) && attempts[k].d.id !in t.events
    requires again.d.id == attempts[k].d.id
    ensures var result := DeliverAlone(DeliverAll(t, attempts), again.d, again.uid);
            && result.tables == DeliverAll(t, attempts)
            && result.outcome == Replied(Report(again.d.id, again.d.kind, attempts[k].d.body.id, true, None))
  {
    FirstAttemptWrites(t, attempts, k);
  }

  // ----- what goes wrong without the checks -----

  const NO_AMOUNT := Delivery("evt_a", "payment_intent.payment_failed",
                              PaymentObject(Some("pi"), None, Some("usd"), TenantUuid(1), "user"))
  const PAID := Delivery("evt_b", "payment_intent.succeeded",
                         PaymentObject(Some("pi"), Some(100), Some("usd"), TenantUuid(1), "user"))

  const EMPTY := Tables({1}, map[], map[])
  const PAID_ROW := Payment(2, 1, "user", "pi", 100, "usd", "succeeded")

  lemma RefusedThenPaid()
    ensures var t := DeliverAll(EMPTY, [Attempt(NO_AMOUNT, 1), Attempt(PAID, 2)]);
            t == Tables({1}, map[2 := PAID_ROW], map["evt_b" := EventRowOf(PAID)])
  {
    var a, b := Attempt(NO_AMOUNT, 1), Attempt(PAID, 2);
    assert Lower("usd") == "usd";
    assert [a, b][..1] == [a] && [a][..0] == [];
    assert DeliverAll(EMPTY, [a]) == EMPTY;
  }

  lemma ComesBack()
    ensures "evt_a" in DeliverAlone(Tables({1}, map[2 := PAID_ROW], map["evt_b" := EventRowOf(PAID)]),
                                    NO_AMOUNT, 3).tables.events
  {
    var t := Tables({1}, map[2 := PAID_ROW], map["evt_b" := EventRowOf(PAID)]);
    assert 2 in t.payments && t.payments[2].intent == "pi";
    assert Lookup(t.payments, "pi") == Some(PAID_ROW);
  }

  lemma ThirdIsRepeat(a: Attempt, b: Attempt, c: Attempt)
    requires a.d.id != b.d.id && a.d.id == c.d.id
    ensures WithoutRepeats([a, b, c]) == [a, b]
  {
    assert [a, b, c][..2] == [a, b] && [a, b][..1] == [a] && [a][..0] == [];
    assert WithoutRepeats([a]) == [a];
    assert WithoutRepeats([a, b]) == [a, b];
    assert Repeats([a, b], c.d.id) by { assert [a, b][0].d.id == c.d.id; }
  }

  /** A first delivery the checks refuse is not recorded, so its repeat can still change a payment. */
  lemma RefusedInsertComesBack()
    ensures var attempts := [Attempt(NO_AMOUNT, 1), Attempt(PAID, 2), Attempt(NO_AMOUNT, 3)];
            && Consistent(EMPTY) && FreshUids(EMPTY, attempts)
            && DeliverAll(EMPTY, attempts) != DeliverAll(EMPTY, WithoutRepeats(attempts))
  {
    var a, b, c := Attempt(NO_AMOUNT, 1), Attempt(PAID, 2), Attempt(NO_AMOUNT, 3);
    ThirdIsRepeat(a, b, c);
    assert "evt_a" !in DeliverAll(EMPTY, [a, b]).events by { RefusedThenPaid(); }
    assert "evt_a" in DeliverAll(EMPTY, [a, b, c]).events by {
      RefusedThenPaid();
      ComesBack();
      OneMoreDelivery(EMPTY, [a, b], c);
      assert [a, b] + [c] == [a, b, c];
    }
  }

  // ----- duplicates without a record -----

  // The row a delivery has staged breaks a constraint of the payments table, as it stands now.
  predicate RowRefused(t: Tables, row: Payment) {
    && -MAX_INTEGER - 1 <= row.amount <= MAX_INTEGER
    && (IntentTaken(t.payments, row.intent) || row.amount <= 0 || row.tenant !in t.tenants || row.id in t.payments)
  }

  lemma RollbackMeaning(s: System, w: nat, choice: Choice)
    requires Safe(s) && w in s.workers && s.workers[w].Committing?
    ensures var Committing(d, uid, change) := s.workers[w];
            && (Next(s, Proceed(w, choice)).workers[w].RollingBack?
                <==> (d.id in s.tables.events && Executable(s.tables, change))
                     || (change.Insert? && RowRefused(s.tables, change.row)))
            && (change.Insert? ==> Tracks(d) && d.body.tenant.TenantUuid?
                                   && change.row == NewRow(d, d.body.tenant.id, uid))
  {
    assert PhaseFits(s.tables, s.workers[w]);
    LowerIsIdempotent(s.workers[w].d.body.currency.GetOr("usd"));
  }

  /**
   `duplicate` does not mean that the event is recorded. In any run, a delivery about to commit is rolled
   back with no record of its event, and then answered as a duplicate, exactly when it has a payment row to
   insert that the table refuses: the intent taken meanwhile, no positive amount, an unknown tenant or a
   taken id.
   */
  lemma DuplicateWithoutRecord(t: Tables, steps: seq<Step>, w: nat, choice: Choice)
    requires Consistent(t)
    requires w in Run(Initial(t), steps).workers && Run(Initial(t), steps).workers[w].Committing?
    ensures var s := Run(Initial(t), steps);
            var Committing(d, uid, change) := s.workers[w];
            var s' := Next(s, Proceed(w, choice));
            && (s'.workers[w].RollingBack? && d.id !in s'.tables.events
                <==> d.id !in s.tables.events && change.Insert? && RowRefused(s.tables, change.row))
            && (change.Insert? ==> Tracks(d) && d.body.tenant.TenantUuid?
                                   && change.row == NewRow(d, d.body.tenant.id, uid))
            && (s'.workers[w].RollingBack? ==>
                  && s'.tables == s.tables
                  && Next(s', Proceed(w, choice)).workers[w]
                     == Delivered(Replied(Report(d.id, d.kind, d.body.id, true, None))))
  {
    RunIsSafe(t, steps);
    RollbackMeaning(Run(Initial(t), steps), w, choice);
  }

  /** For a delivery alone there is no race, so only a refused row is left. */
  lemma DuplicateAlone(t: Tables, d: Delivery, uid: Uuid)
    requires Consistent(t)
    ensures var result := DeliverAlone(t, d, uid);
            (result.outcome.Replied? && result.outcome.report.duplicate && d.id !in result.tables.events)
            <==> d.id !in t.events && Refused(t, d, uid)
  {
    DeliveryAnswer(t, d, uid);
  }

  /**
   An answer that is not `duplicate` is truthful: in every reachable state the event it names is recorded, with
   the type and intent answered, and the status answered is the one that type maps to.
   */
  lemma AnswersAreTruthful(t: Tables, steps: seq<Step>, w: nat, report: Report)
    requires Consistent(t) && !report.duplicate
    requires w in Run(Initial(t), steps).workers
    requires Run(Initial(t), steps).workers[w] == Delivered(Replied(report))
    ensures var s := Run(Initial(t), steps);
            && report.eventId in s.tables.events
            && s.tables.events[report.eventId] == EventRow(report.eventId, report.kind, report.intent)
            && report.status == if report.kind == "payment_intent.succeeded" then Some("succeeded")
                                else if report.kind == "payment_intent.payment_failed" then Some("failed")
                                else None
  {
    RunIsSafe(t, steps);
    assert PhaseFits(Run(Initial(t), steps).tables, Run(Initial(t), steps).workers[w]);
  }

  // ----- payment-intent requests beside everything else -----

  // The table refuses the row of a request, whose status is Stripe's.
  predicate ChargeRefused(t: Tables, row: Payment) {
    RowRefused(t, row) || (-MAX_INTEGER - 1 <= row.amount <= MAX_INTEGER && row.status !in STATUSES)
  }

  lemma SaveMeaning(s: System, w: nat, choice: Choice)
    requires Safe(s) && w in s.workers && s.workers[w].Saving?
    ensures var Saving(c, row, secret) := s.workers[w];
            && IsRowOf(c, row)
            && var s' := Next(s, Proceed(w, choice));
               && (s'.workers[w].Undoing? <==> ChargeRefused(s.tables, row))
               && (s'.workers[w].Undoing? ==> s'.tables == s.tables)
               && (s'.tables != s.tables ==> s'.tables == s.tables.(payments := s.tables.payments[row.id := row]))
  {
    assert PhaseFits(s.tables, s.workers[w]);
    LowerIsIdempotent(s.workers[w].c.currency);
  }

  lemma UndoneIsConflict(s: System, w: nat, choice: Choice)
    requires w in s.workers && s.workers[w].Undoing?
    ensures Next(s, Proceed(w, choice)).workers[w] == Charged(Conflict)
  {
  }

  /**
   In any run a payment-intent request is answered 409 exactly when its row is refused at its commit: the
   intent or the row id taken by then, an unknown tenant, an amount that is not positive, or a status the
   schema does not list. No table changes. A row it does store has the request's tenant, user, amount and
   currency.
   */
  lemma ChargeConflict(t: Tables, steps: seq<Step>, w: nat, choice: Choice)
    requires Consistent(t)
    requires w in Run(Initial(t), steps).workers && Run(Initial(t), steps).workers[w].Saving?
    ensures var s := Run(Initial(t), steps);
            var Saving(c, row, secret) := s.workers[w];
            var s' := Next(s, Proceed(w, choice));
            && (s'.workers[w].Undoing? <==> ChargeRefused(s.tables, row))
            && (s'.workers[w].Undoing? ==>
                  s'.tables == s.tables && Next(s', Proceed(w, choice)).workers[w] == Charged(Conflict))
            && (s'.tables != s.tables ==> s'.tables == s.tables.(payments := s.tables.payments[row.id := row]))
            && row.tenant == c.tenant && row.user == c.user && row.amount == c.amount
            && row.currency == Lower(c.currency) && row.currency in CURRENCIES
  {
    RunIsSafe(t, steps);
    var s' := Next(Run(Initial(t), steps), Proceed(w, choice));
    SaveMeaning(Run(Initial(t), steps), w, choice);
    if s'.workers[w].Undoing? { UndoneIsConflict(s', w, choice); }
  }

  // ----- losing a race -----

  // The commit of w fails on a unique constraint, not on a check or the foreign key.
  ghost predicate LostARace(s: System, w: nat) {
    && w in s.workers && s.workers[w].Committing?
    && var Committing(d, uid, change) := s.workers[w];
      && Commit(s.tables, StagedBy(d, change)).Violated?
      && (change.Insert? ==>
            Checks(change.row) && change.row.tenant in s.tables.tenants && change.row.id !in s.tables.payments)
  }

  // An insert beaten by another row of its intent becomes an update when run again.
  lemma RetryCommits(t: Tables, d: Delivery, uid: Uuid)
    requires Consistent(t) && d.id !in t.events && Tracks(d) && IntentTaken(t.payments, d.body.id.value)
    ensures var retry := DeliverAlone(t, d, uid);
            && retry.committed && retry.outcome == Processed(d)
            && retry.tables.payments.Keys == t.payments.Keys
            && exists id :: id in retry.tables.payments
                            && retry.tables.payments[id].intent == d.body.id.value
                            && Some(retry.tables.payments[id].status) == StatusOf(d.kind)
  {
    var id :| id in t.payments && t.payments[id].intent == d.body.id.value;
    LookupIsUnique(t, d.body.id.value, id);
    assert StoredPayment(t, id);
    assert DeliverAlone(t, d, uid).tables.payments[id].intent == d.body.id.value;
  }

  /**
   A failed commit changes no table. If it lost only to a unique conflict, the same event run again
   alone either finds itself recorded or commits by updating the row that won.
   */
  lemma RetryAfterRace(t: Tables, steps: seq<Step>, w: nat, choice: Choice, uid: Uuid)
    requires Consistent(t)
    requires LostARace(Run(Initial(t), steps), w)
    ensures var s := Run(Initial(t), steps);
            var s' := Next(s, Proceed(w, choice));
            var d := s.workers[w].d;
            var retry := DeliverAlone(s'.tables, d, uid);
            && s'.tables == s.tables && s'.workers[w] == RollingBack(d)
            && if d.id in s.tables.events
               then retry == Alone(s.tables, AlreadySeen(d, s.tables.events[d.id]), false)
               else && retry.committed && retry.outcome == Processed(d)
                    && retry.tables.payments.Keys == s.tables.payments.Keys
                    && Tracks(d)
                    && exists id :: id in retry.tables.payments
                                    && retry.tables.payments[id].intent == d.body.id.value
                                    && Some(retry.tables.payments[id].status) == StatusOf(d.kind)
  {
    RunIsSafe(t, steps);
    var s := Run(Initial(t), steps);
    var d := s.workers[w].d;
    assert PhaseFits(s.tables, s.workers[w]);
    if d.id !in s.tables.events { RetryCommits(s.tables, d, uid); }
  }
}
