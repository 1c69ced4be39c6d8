/** Where every payment row comes from: a request or an event that arrived in the run. */
module PaymentSources {
  import opened Options
  import opened PaymentTables
  import opened PaymentFlow
  import opened PaymentSystem
  import opened PaymentSafety

  ghost predicate Arrived(steps: seq<Step>, w: nat, job: Job) {
    exists k :: 0 <= k < |steps| && steps[k] == Arrive(w, job)
  }

  ghost predicate Brought(steps: seq<Step>, w: nat, d: Delivery) {
    exists ev :: Arrived(steps, w, Deliver(ev)) && Open(ev) == Some(d)
  }

  // What a worker is at work on is what it arrived with.
  ghost predicate PhaseHasSource(steps: seq<Step>, w: nat, phase: Phase) {
    match phase
    case Checking(d) => Brought(steps, w, d)
    case Reading(d) => Brought(steps, w, d)
    case Committing(d, _, _) => Brought(steps, w, d)
    case Notifying(d) => Brought(steps, w, d)
    case Preparing(c) => Arrived(steps, w, Charge(c))
    case Calling(c) => Arrived(steps, w, Charge(c))
    case Saving(c, _, _) => Arrived(steps, w, Charge(c))
    case _ => true
  }

  lemma ArrivedStays(steps: seq<Step>, w: nat, job: Job)
    requires steps != [] && Arrived(steps[..|steps| - 1], w, job)
    ensures Arrived(steps, w, job)
  {
    var k :| 0 <= k < |steps| - 1 && steps[..|steps| - 1][k] == Arrive(w, job);
    assert steps[k] == Arrive(w, job);
  }

  lemma BroughtStays(steps: seq<Step>, w: nat, d: Delivery)
    requires steps != [] && Brought(steps[..|steps| - 1], w, d)
    ensures Brought(steps, w, d)
  {
    var ev :| Arrived(steps[..|steps| - 1], w, Deliver(ev)) && Open(ev) == Some(d);
    ArrivedStays(steps, w, Deliver(ev));
  }

  lemma PhaseSourceStays(steps: seq<Step>, w: nat, phase: Phase)
    requires steps != [] && PhaseHasSource(steps[..|steps| - 1], w, phase)
    ensures PhaseHasSource(steps, w, phase)
  {
    match phase
    case Checking(d) => BroughtStays(steps, w, d);
    case Reading(d) => BroughtStays(steps, w, d);
    case Committing(d, _, _) => BroughtStays(steps, w, d);
    case Notifying(d) => BroughtStays(steps, w, d);
    case Preparing(c) => ArrivedStays(steps, w, Charge(c));
    case Calling(c) => ArrivedStays(steps, w, Charge(c));
    case Saving(c, _, _) => ArrivedStays(steps, w, Charge(c));
    case _ =>
  }

  lemma NextPhaseHasSource(t: Tables, steps: seq<Step>, w: nat, phase: Phase, choice: Choice)
    requires PhaseHasSource(steps, w, phase)
    ensures PhaseHasSource(steps, w, NextPhase(t, phase, choice))
  {
  }

  lemma {:induction false} PhasesHaveSources(t: Tables, steps: seq<Step>, w: nat)
    requires w in Run(Initial(t), steps).workers
    ensures PhaseHasSource(steps, w, Run(Initial(t), steps).workers[w])
  {
    if steps != [] {
      var n := |steps| - 1;
      var s := Run(Initial(t), steps[..n]);
      if w in s.workers {
        PhasesHaveSources(t, steps[..n], w);
        PhaseSourceStays(steps, w, s.workers[w]);
        if steps[n].Proceed? && steps[n].worker == w {
          NextPhaseHasSource(s.tables, steps, w, s.workers[w], steps[n].choice);
        }
      } else {
        assert steps[n] == Arrive(w, steps[n].job);
        assert Arrived(steps, w, steps[n].job);
      }
    }
  }

  // ----- the sources of a row, whatever has become of its status -----

  ghost predicate WasThere(t: Tables, p: Payment) {
    p.id in t.payments && SameIdentity(t.payments[p.id], p)
  }

  ghost predicate WasCharged(steps: seq<Step>, p: Payment) {
    exists w, c :: Arrived(steps, w, Charge(c)) && IsRowOf(c, p)
  }

  predicate Describes(d: Delivery, p: Payment) {
    && Tracks(d) && d.body.id == Some(p.intent) && d.body.tenant == TenantUuid(p.tenant) && d.body.user == p.user
    && d.body.amount.GetOr(0) == p.amount && p.currency == Lower(d.body.currency.GetOr("usd"))
  }

  ghost predicate WasDelivered(steps: seq<Step>, p: Payment) {
    exists w, d :: Brought(steps, w, d) && Describes(d, p)
  }

  ghost predicate HasSource(t: Tables, steps: seq<Step>, p: Payment) {
    WasThere(t, p) || WasCharged(steps, p) || WasDelivered(steps, p)
  }

  lemma SourceStays(t: Tables, steps: seq<Step>, p: Payment, q: Payment)
    requires steps != [] && HasSource(t, steps[..|steps| - 1], p) && SameIdentity(p, q)
    ensures HasSource(t, steps, q)
  {
    var before := steps[..|steps| - 1];
    if WasCharged(before, p) {
      var w, c :| Arrived(before, w, Charge(c)) && IsRowOf(c, p);
      ArrivedStays(steps, w, Charge(c));
      assert IsRowOf(c, q);
    } else if WasDelivered(before, p) {
      var w, d :| Brought(before, w, d) && Describes(d, p);
      BroughtStays(steps, w, d);
      assert Describes(d, q);
    }
  }

  // A row that a step adds is what the worker that takes it is at work on.
  lemma AddedByWorker(s: System, step: Step, id: Uuid)
    requires Safe(s) && id !in s.tables.payments && id in Next(s, step).tables.payments
    ensures step.Proceed? && step.worker in s.workers
    ensures var phase, p := s.workers[step.worker], Next(s, step).tables.payments[id];
            (phase.Saving? && IsRowOf(phase.c, p)) || (phase.Committing? && Describes(phase.d, p))
  {
    assert PhaseFits(s.tables, s.workers[step.worker]);
  }

  lemma WorkIsSource(steps: seq<Step>, w: nat, phase: Phase, p: Payment)
    requires PhaseHasSource(steps, w, phase)
    requires (phase.Saving? && IsRowOf(phase.c, p)) || (phase.Committing? && Describes(phase.d, p))
    ensures WasCharged(steps, p) || WasDelivered(steps, p)
  {
  }

  lemma NewRowHasSource(t: Tables, before: seq<Step>, step: Step, id: Uuid)
    requires Consistent(t) && id !in Run(Initial(t), before).tables.payments
    requires id in Next(Run(Initial(t), before), step).tables.payments
    ensures var p := Next(Run(Initial(t), before), step).tables.payments[id];
            WasCharged(before, p) || WasDelivered(before, p)
  {
    var s := Run(Initial(t), before);
    RunIsSafe(t, before);
    AddedByWorker(s, step, id);
    PhasesHaveSources(t, before, step.worker);
    WorkIsSource(before, step.worker, s.workers[step.worker], Next(s, step).tables.payments[id]);
  }

  /**
   In any run every payment row was there before, or has the tenant, user, amount and currency of a
   payment-intent request that arrived, or those and the intent of a webhook event that arrived.
   */
  lemma {:induction false} RowHasSource(t: Tables, steps: seq<Step>, id: Uuid)
    requires Consistent(t) && id in Run(Initial(t), steps).tables.payments
    ensures HasSource(t, steps, Run(Initial(t), steps).tables.payments[id])
  {
    if steps != [] {
      var n := |steps| - 1;
      var s := Run(Initial(t), steps[..n]);
      if id in s.tables.payments {
        RowHasSource(t, steps[..n], id);
        RunIsSafe(t, steps[..n]);
        StepEvolves(s, steps[n]);
        SourceStays(t, steps, s.tables.payments[id], Run(Initial(t), steps).tables.payments[id]);
      } else {
        NewRowHasSource(t, steps[..n], steps[n], id);
        var p := Run(Initial(t), steps).tables.payments[id];
        SourceStays(t, steps, p, p);
      }
    } else {
      RunIsSafe(t, steps);
      assert StoredPayment(t, id);
    }
  }
  // ----- the source of a notification -----

  ghost predicate Announces(n: Notice, d: Delivery) {
    && d.kind == "payment_intent.succeeded" && d.body.id == Some(n.intent) && n.intent != ""
    && n.eventId == d.id && n.amount == d.body.amount.GetOr(0) && n.tenant == d.body.tenant
  }

  ghost predicate WasAnnounced(steps: seq<Step>, n: Notice) {
    exists w, d :: Brought(steps, w, d) && Announces(n, d)
  }

  lemma AnnouncedStays(steps: seq<Step>, n: Notice)
    requires steps != [] && WasAnnounced(steps[..|steps| - 1], n)
    ensures WasAnnounced(steps, n)
  {
    var w, d :| Brought(steps[..|steps| - 1], w, d) && Announces(n, d);
    BroughtStays(steps, w, d);
  }

  lemma NewNotice(s: System, step: Step)
    requires Safe(s)
    ensures || Next(s, step).notices == s.notices
            || (&& step.Proceed? && step.worker in s.workers && s.workers[step.worker].Notifying?
                && |Next(s, step).notices| == |s.notices| + 1
                && Next(s, step).notices[..|s.notices|] == s.notices
                && Announces(Next(s, step).notices[|s.notices|], s.workers[step.worker].d))
  {
    if step.Proceed? && step.worker in s.workers { assert PhaseFits(s.tables, s.workers[step.worker]); }
  }

  /** In any run every notification has the event id, intent, amount and tenant of a success event that arrived. */
  lemma {:induction false} NoticeHasSource(t: Tables, steps: seq<Step>, i: nat)
    requires Consistent(t) && i < |Run(Initial(t), steps).notices|
    ensures WasAnnounced(steps, Run(Initial(t), steps).notices[i])
  {
    var n := |steps| - 1;
    var s := Run(Initial(t), steps[..n]);
    RunIsSafe(t, steps[..n]);
    NewNotice(s, steps[n]);
    if i < |s.notices| {
      NoticeHasSource(t, steps[..n], i);
    } else {
      PhasesHaveSources(t, steps[..n], steps[n].worker);
      assert Brought(steps[..n], steps[n].worker, s.workers[steps[n].worker].d);
    }
    AnnouncedStays(steps, Run(Initial(t), steps).notices[i]);
  }
}
