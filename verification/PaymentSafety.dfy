/**
 What every interleaving of deliveries and payment-intent requests keeps:
 rows keep their identity, a status always has a recorded cause, an event is
 committed at most once and notified at most once, after its commit.
 */
module PaymentSafety {
  import opened Options
  import opened PaymentTables
  import opened PaymentFlow
  import opened PaymentSystem

  // ----- how tables may change over time -----

  ghost predicate SameIdentity(p: Payment, q: Payment) {
    p.(status := q.status) == q
  }

  ghost predicate KeepsRows(before: map<Uuid, Payment>, after: map<Uuid, Payment>) {
    forall id :: id in before ==> id in after && SameIdentity(before[id], after[id])
  }

  ghost predicate KeepsEvents(before: map<string, EventRow>, after: map<string, EventRow>) {
    forall e :: e in before ==> e in after && after[e] == before[e]
  }

  ghost predicate Evolves(before: Tables, after: Tables) {
    && after.tenants == before.tenants
    && KeepsRows(before.payments, after.payments)
    && KeepsEvents(before.events, after.events)
  }

  lemma CommitEvolves(t: Tables, staged: Staged)
    requires Commit(t, staged).Committed?
    ensures Evolves(t, Commit(t, staged).tables)
  {
    var t' := Commit(t, staged).tables;
    assert t'.payments == WriteChange(t.payments, staged.change);
  }

  lemma StepEvolves(s: System, step: Step)
    requires Consistent(s.tables)
    ensures Consistent(Next(s, step).tables)
    ensures Evolves(s.tables, Next(s, step).tables)
  {
    if step.Proceed? && step.worker in s.workers {
      var phase := s.workers[step.worker];
      if Commits(s.tables, phase) {
        CommitKeepsConsistent(s.tables, Pending(phase).value);
        CommitEvolves(s.tables, Pending(phase).value);
      }
    }
  }

  /** Over any run a payment's tenant, user, intent, amount and currency never change, and no row or event is lost. */
  lemma {:induction false} RunEvolves(s: System, steps: seq<Step>)
    requires Consistent(s.tables)
    ensures Consistent(Run(s, steps).tables)
    ensures Evolves(s.tables, Run(s, steps).tables)
  {
    if steps != [] {
      var before := steps[..|steps| - 1];
      RunEvolves(s, before);
      StepEvolves(Run(s, before), steps[|steps| - 1]);
    }
  }

  // ----- what a phase remembers of the tables -----

  ghost predicate ChangeFits(t: Tables, d: Delivery, uid: Uuid, change: Change) {
    match change
    case NoChange => true
    case Insert(row) =>
      Tracks(d) && d.body.tenant == TenantUuid(row.tenant) && d.body.user != "" && row == NewRow(d, row.tenant, uid)
    case SetStatus(id, status) =>
      && Tracks(d) && StatusOf(d.kind) == Some(status)
      && id in t.payments && t.payments[id].intent == d.body.id.value
  }

  // The report of an event that is in the table, with the status its kind maps to.
  predicate Recorded(t: Tables, report: Report) {
    && report.eventId in t.events
    && t.events[report.eventId] == EventRow(report.eventId, report.kind, report.intent)
    && report.status == StatusOf(report.kind)
  }

  // What a payment-intent request makes of a row, whatever Stripe answers.
  predicate IsRowOf(c: ChargeRequest, row: Payment) {
    && row.tenant == c.tenant && row.user == c.user && row.amount == c.amount
    && row.currency == Lower(c.currency) && row.currency in CURRENCIES
  }

  ghost predicate PhaseFits(t: Tables, phase: Phase) {
    match phase
    case Committing(d, uid, change) => ChangeFits(t, d, uid, change)
    case Reading(d) => Tracks(d)
    case Notifying(d) => Notifies(d) && d.id in t.events && t.events[d.id] == EventRowOf(d)
    case Delivered(Replied(report)) => report.duplicate || Recorded(t, report)
    case Calling(c) => Lower(c.currency) in CURRENCIES
    case Saving(c, row, _) => IsRowOf(c, row)
    case Refreshing(id, _) => id in t.payments
    case Charged(Created(row, _)) => row.id in t.payments && SameIdentity(row, t.payments[row.id])
    case _ => true
  }

  lemma FitsLater(t: Tables, t': Tables, phase: Phase)
    requires PhaseFits(t, phase) && Evolves(t, t')
    ensures PhaseFits(t', phase)
  {
  }

  lemma ReadFits(t: Tables, d: Delivery, uid: Uuid)
    requires Consistent(t) && Tracks(d)
    ensures PhaseFits(t, AfterRead(t, d, uid))
  {
    if IntentTaken(t.payments, d.body.id.value) {
      var id :| id in t.payments && t.payments[id].intent == d.body.id.value;
      LookupIsUnique(t, d.body.id.value, id);
      assert StoredPayment(t, id);
    }
  }

  lemma NextPhaseFits(t: Tables, phase: Phase, choice: Choice)
    requires Consistent(t) && PhaseFits(t, phase)
    ensures PhaseFits(NextTables(t, phase), NextPhase(t, phase, choice))
  {
    if phase.Reading? { ReadFits(t, phase.d, choice.uid); }
  }

  ghost predicate WorkersFit(s: System) {
    forall w :: w in s.workers ==> PhaseFits(s.tables, s.workers[w])
  }

  lemma StepKeepsWorkersFit(s: System, step: Step)
    requires Consistent(s.tables) && WorkersFit(s)
    ensures WorkersFit(Next(s, step))
  {
    var s' := Next(s, step);
    StepEvolves(s, step);
    forall w | w in s'.workers
      ensures PhaseFits(s'.tables, s'.workers[w])
    {
      if w == step.worker && step.Proceed? && w in s.workers {
        NextPhaseFits(s.tables, s.workers[w], step.choice);
      } else if w in s.workers {
        FitsLater(s.tables, s'.tables, s.workers[w]);
      }
    }
  }

  // ----- notifications -----

  ghost predicate NoticesSound(s: System) {
    && (forall i :: 0 <= i < |s.notices| ==>
          var n := s.notices[i];
          n.eventId in s.tables.events
          && s.tables.events[n.eventId] == EventRow(n.eventId, "payment_intent.succeeded", Some(n.intent)))
    && (forall i, j :: 0 <= i < j < |s.notices| ==> s.notices[i].eventId != s.notices[j].eventId)
  }

  // The event of a worker about to notify belongs to nobody else.
  ghost predicate NotifiersDistinct(s: System) {
    && (forall w, i :: w in s.workers && s.workers[w].Notifying? && 0 <= i < |s.notices| ==>
          s.notices[i].eventId != s.workers[w].d.id)
    && (forall v, w ::
          v in s.workers && w in s.workers && v != w && s.workers[v].Notifying? && s.workers[w].Notifying? ==>
            s.workers[v].d.id != s.workers[w].d.id)
  }

  ghost predicate Safe(s: System) {
    Consistent(s.tables) && WorkersFit(s) && NoticesSound(s) && NotifiersDistinct(s)
  }

  // A commit makes a notifier of an event that was in nobody's hands.
  lemma CommitMakesNotifier(s: System, step: Step)
    requires Safe(s)
    requires step.Proceed? && step.worker in s.workers && s.workers[step.worker].Committing?
    ensures NotifiersDistinct(Next(s, step))
  {
    var s' := Next(s, step);
    var d := s.workers[step.worker].d;
    if s'.workers[step.worker].Notifying? {
      assert d.id !in s.tables.events;
      forall w | w in s.workers && s.workers[w].Notifying?
        ensures s.workers[w].d.id != d.id
      {
        assert PhaseFits(s.tables, s.workers[w]);
      }
    }
  }

  lemma StepKeepsNotifiers(s: System, step: Step)
    requires Safe(s)
    ensures NotifiersDistinct(Next(s, step))
  {
    if step.Proceed? && step.worker in s.workers && s.workers[step.worker].Committing? {
      CommitMakesNotifier(s, step);
    } else if step.Proceed? && step.worker in s.workers {
      assert !Next(s, step).workers[step.worker].Notifying?;
    }
  }

  lemma StepKeepsNotices(s: System, step: Step)
    requires Safe(s)
    ensures NoticesSound(Next(s, step))
  {
    StepEvolves(s, step);
    if step.Proceed? && step.worker in s.workers {
      assert PhaseFits(s.tables, s.workers[step.worker]);
    }
  }

  lemma StepKeepsSafe(s: System, step: Step)
    requires Safe(s)
    ensures Safe(Next(s, step))
  {
    StepEvolves(s, step);
    StepKeepsWorkersFit(s, step);
    StepKeepsNotices(s, step);
    StepKeepsNotifiers(s, step);
  }

  /** Safe holds in every reachable state: any number of workers, any schedule, any redelivery. */
  lemma {:induction false} RunIsSafe(t: Tables, steps: seq<Step>)
    requires Consistent(t)
    ensures Safe(Run(Initial(t), steps))
  {
    if steps != [] {
      RunIsSafe(t, steps[..|steps| - 1]);
      StepKeepsSafe(Run(Initial(t), steps[..|steps| - 1]), steps[|steps| - 1]);
    }
  }

  // ----- one commit per event, with its effect -----

  ghost predicate Records(s: System, step: Step, e: string) {
    e !in s.tables.events && e in Next(s, step).tables.events
  }

  // The step is the commit of a delivery of e, and it writes the delivery's own
  // change of the payments in the same commit as the event row.
  ghost predicate CommitsEvent(s: System, step: Step, e: string) {
    && step.Proceed? && step.worker in s.workers
    && s.workers[step.worker].Committing?
    && var Committing(d, uid, change) := s.workers[step.worker];
      && d.id == e
      && ChangeFits(s.tables, d, uid, change)
      && Next(s, step).tables == Tables(s.tables.tenants, WriteChange(s.tables.payments, change),
                                        s.tables.events[e := EventRowOf(d)])
  }

  /**
   An event row is written only together with its delivery's payment change, and every other step leaves the
   events alone.
   */
  lemma RecordingIsAtomic(s: System, step: Step, e: string)
    requires Safe(s)
    ensures Records(s, step, e) ==> CommitsEvent(s, step, e)
    ensures (forall x :: !Records(s, step, x)) ==> Next(s, step).tables.events == s.tables.events
    ensures (forall x :: !Records(s, step, x)) && Next(s, step).tables.payments != s.tables.payments ==>
              step.Proceed? && step.worker in s.workers && s.workers[step.worker].Saving?
  {
    StepEvolves(s, step);
    if step.Proceed? && step.worker in s.workers {
      var phase := s.workers[step.worker];
      assert PhaseFits(s.tables, phase);
      if phase.Committing? && Commits(s.tables, phase) {
        assert Records(s, step, phase.d.id);
      }
    }
  }

  ghost predicate RecordsAt(s: System, steps: seq<Step>, k: nat, e: string) {
    k < |steps| && Records(Run(s, steps[..k]), steps[k], e)
  }

  ghost function RecordingSteps(s: System, steps: seq<Step>, e: string): set<nat> {
    set k: nat | k < |steps| && RecordsAt(s, steps, k, e)
  }

  lemma RecordingStepsGrow(s: System, steps: seq<Step>, e: string)
    requires steps != []
    ensures var n := |steps| - 1;
            RecordingSteps(s, steps, e)
            == RecordingSteps(s, steps[..n], e) + if Records(Run(s, steps[..n]), steps[n], e) then {n} else {}
  {
    var n := |steps| - 1;
    forall k: nat | k < n
      ensures RecordsAt(s, steps[..n], k, e) == RecordsAt(s, steps, k, e)
    {
      assert steps[..n][..k] == steps[..k] && steps[..n][k] == steps[k];
    }
  }

  lemma {:induction false} RecordedByOneStep(s: System, steps: seq<Step>, e: string)
    requires Consistent(s.tables) && e !in s.tables.events
    ensures e in Run(s, steps).tables.events ==> exists k: nat :: k < |steps| && RecordingSteps(s, steps, e) == {k}
    ensures e !in Run(s, steps).tables.events ==> RecordingSteps(s, steps, e) == {}
  {
    if steps != [] {
      var before := steps[..|steps| - 1];
      RecordedByOneStep(s, before, e);
      RunEvolves(s, before);
      StepEvolves(Run(s, before), steps[|steps| - 1]);
      RecordingStepsGrow(s, steps, e);
    }
  }

  /** Each event id is committed at most once over any run, in one step that also carries its payment effect. */
  lemma EventCommitsOnce(t: Tables, steps: seq<Step>, e: string)
    requires Consistent(t) && e !in t.events
    ensures var s := Initial(t);
            if e in Run(s, steps).tables.events
            then exists k: nat :: k < |steps| && RecordingSteps(s, steps, e) == {k}
                                  && CommitsEvent(Run(s, steps[..k]), steps[k], e)
            else RecordingSteps(s, steps, e) == {}
  {
    var s := Initial(t);
    RecordedByOneStep(s, steps, e);
    var ks := RecordingSteps(s, steps, e);
    if e in Run(s, steps).tables.events {
      var k: nat :| k < |steps| && ks == {k};
      assert k in ks;
      RunIsSafe(t, steps[..k]);
      RecordingIsAtomic(Run(s, steps[..k]), steps[k], e);
    }
  }

  /**
   A notification is emitted at most once for each event, and only when the event
   is committed: in every reachable state the notices name distinct recorded events.
   */
  lemma NotifiedOnceAfterCommit(t: Tables, steps: seq<Step>, step: Step)
    requires Consistent(t)
    ensures var s := Run(Initial(t), steps);
            && (forall i, j :: 0 <= i < j < |s.notices| ==> s.notices[i].eventId != s.notices[j].eventId)
            && (forall i :: 0 <= i < |s.notices| ==>
                  s.notices[i].eventId in s.tables.events
                  && s.tables.events[s.notices[i].eventId].kind == "payment_intent.succeeded"
                  && s.tables.events[s.notices[i].eventId].intent == Some(s.notices[i].intent))
            && (Next(s, step).notices == s.notices
                || exists d :: HasIntent(d) && Next(s, step).notices == s.notices + [NoticeOf(d)]
                               && d.id in s.tables.events && s.tables.events[d.id] == EventRowOf(d))
  {
    RunIsSafe(t, steps);
    var s := Run(Initial(t), steps);
    if step.Proceed? && step.worker in s.workers {
      assert PhaseFits(s.tables, s.workers[step.worker]);
    }
  }

  // ----- where a status comes from -----

  // Step k of the run is the commit of a payment-intent request that inserted the row with this status.
  ghost predicate SavesRow(s: System, step: Step, id: Uuid, status: string) {
    && step.Proceed? && step.worker in s.workers && s.workers[step.worker].Saving?
    && s.workers[step.worker].row.id == id && s.workers[step.worker].row.status == status
    && id !in s.tables.payments && id in Next(s, step).tables.payments
  }

  ghost predicate SavedIn(s: System, steps: seq<Step>, id: Uuid, status: string) {
    exists k: nat :: k < |steps| && SavesRow(Run(s, steps[..k]), steps[k], id, status)
  }

  ghost predicate EventCauses(t: Tables, p: Payment) {
    exists e :: e in t.events && t.events[e].intent == Some(p.intent) && StatusOf(t.events[e].kind) == Some(p.status)
  }

  ghost predicate HasCause(t: Tables, steps: seq<Step>, p: Payment) {
    || (p.id in t.payments && t.payments[p.id].status == p.status)
    || SavedIn(Initial(t), steps, p.id, p.status)
    || EventCauses(Run(Initial(t), steps).tables, p)
  }

  lemma SavedStays(s: System, steps: seq<Step>, id: Uuid, status: string)
    requires steps != [] && SavedIn(s, steps[..|steps| - 1], id, status)
    ensures SavedIn(s, steps, id, status)
  {
    var before := steps[..|steps| - 1];
    var k: nat :| k < |before| && SavesRow(Run(s, before[..k]), before[k], id, status);
    assert before[..k] == steps[..k] && before[k] == steps[k];
  }

  lemma StepCause(s: System, step: Step, id: Uuid)
    requires Safe(s)
    requires id in Next(s, step).tables.payments
    ensures var p := Next(s, step).tables.payments[id];
            || (id in s.tables.payments && s.tables.payments[id] == p)
            || SavesRow(s, step, id, p.status)
            || EventCauses(Next(s, step).tables, p)
  {
    if step.Proceed? && step.worker in s.workers {
      var phase := s.workers[step.worker];
      assert PhaseFits(s.tables, phase);
      if phase.Committing? && Commits(s.tables, phase) && !phase.change.NoChange? {
        assert phase.d.id in Next(s, step).tables.events;
      }
    }
  }

  /**
   In every reachable state a payment's status is its initial one, or the one a payment-intent
   request stored, or the mapping of a recorded event with the same intent id.
   */
  lemma {:induction false} StatusHasCause(t: Tables, steps: seq<Step>, id: Uuid)
    requires Consistent(t)
    requires id in Run(Initial(t), steps).tables.payments
    ensures HasCause(t, steps, Run(Initial(t), steps).tables.payments[id])
  {
    var s := Initial(t);
    var p := Run(s, steps).tables.payments[id];
    RunEvolves(s, steps);
    assert StoredPayment(Run(s, steps).tables, id);
    if steps != [] {
      var n := |steps| - 1;
      var before := steps[..n];
      var last := Run(s, before);
      RunIsSafe(t, before);
      StepCause(last, steps[n], id);
      if id in last.tables.payments && last.tables.payments[id] == p {
        StatusHasCause(t, before, id);
        StepEvolves(last, steps[n]);
        if SavedIn(s, before, id, p.status) { SavedStays(s, steps, id, p.status); }
        if EventCauses(last.tables, p) {
          var e :| e in last.tables.events && last.tables.events[e].intent == Some(p.intent)
                   && StatusOf(last.tables.events[e].kind) == Some(p.status);
          assert e in Run(s, steps).tables.events;
        }
      }
    }
  }
}
