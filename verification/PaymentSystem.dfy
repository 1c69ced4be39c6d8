/**
 Any number of webhook deliveries and payment-intent requests in flight at once
 against the shared tables. One step runs a worker from one await to the next.
 */
module PaymentSystem {
  import opened Options
  import opened PaymentTables
  import opened PaymentFlow

  datatype Job = Deliver(event: StripeEvent) | Charge(request: ChargeRequest)

  // Where a worker stands: each phase names the await it is about to perform.
  datatype Phase =
    | Checking(d: Delivery)                             // db.get of the event row
    | Reading(d: Delivery)                              // SELECT of the payment row
    | Committing(d: Delivery, uid: Uuid, change: Change)
    | RollingBack(d: Delivery)
    | Notifying(d: Delivery)                            // committed; the notification is still to sign
    | Delivered(outcome: Outcome)
    | Preparing(c: ChargeRequest)                       // set_tenant_context
    | Calling(c: ChargeRequest)                         // Stripe creates the intent
    | Saving(c: ChargeRequest, row: Payment, secret: Option<string>) // commit of the new row
    | Undoing
    | Refreshing(id: Uuid, secret: Option<string>)      // committed; the row is read back
    | Charged(result: ChargeOutcome)

  // A signed outbound notification, with the event that caused it.
  datatype Notice = Notice(eventId: string, intent: string, amount: int, tenant: TenantText)

  // Everything the code does not decide: uuid4, Stripe's reply, whether the signing key is available.
  datatype Choice = Choice(uid: Uuid, reply: StripeReply, signs: bool)

  datatype System = System(tables: Tables, workers: map<nat, Phase>, notices: seq<Notice>)

  datatype Step = Arrive(worker: nat, job: Job) | Proceed(worker: nat, choice: Choice)

  function NoticeOf(d: Delivery): Notice
    requires HasIntent(d)
  {
    Notice(d.id, d.body.id.value, d.body.amount.GetOr(0), d.body.tenant)
  }

  function Start(job: Job): Phase {
    match job
    case Deliver(ev) =>
      (match Open(ev)
       case None => Delivered(BadRequest)
       case Some(d) => Checking(d))
    case Charge(c) => Preparing(c)
  }

  // ----- one step of a webhook delivery -----

  function AfterCheck(t: Tables, d: Delivery): Phase {
    if d.id in t.events then Delivered(AlreadySeen(d, t.events[d.id]))
    else if Tracks(d) then Reading(d)
    else Committing(d, 0, NoChange)
  }

  ghost function AfterRead(t: Tables, d: Delivery, uid: Uuid): Phase {
    match PlanFor(t, d, uid)
    case BadTenant => Delivered(ServerError)
    case Plan(change) => Committing(d, uid, change)
  }

  function StagedBy(d: Delivery, change: Change): Staged {
    Staged(change, Some(EventRowOf(d)))
  }

  function AfterCommit(t: Tables, d: Delivery, change: Change): Phase {
    match Commit(t, StagedBy(d, change))
    case Committed(_) => if Notifies(d) then Notifying(d) else Delivered(Processed(d))
    case Violated => RollingBack(d)
    case Failed => Delivered(ServerError)
  }

  // ----- one step of a payment-intent request -----

  function AfterReply(c: ChargeRequest, choice: Choice): Phase {
    match choice.reply
    case StripeDown => Charged(ChargeError)
    case StripeReply(None, _, _) => Charged(BadReply)
    case StripeReply(Some(intent), status, secret) => Saving(c, ChargeRow(c, intent, status, choice.uid), secret)
  }

  function AfterSave(t: Tables, row: Payment, secret: Option<string>): Phase {
    match Commit(t, Staged(Insert(row), None))
    case Committed(_) => Refreshing(row.id, secret)
    case Violated => Undoing
    case Failed => Charged(ChargeError)
  }

  function AfterRefresh(t: Tables, id: Uuid, secret: Option<string>): Phase {
    if id !in t.payments then Charged(ChargeError)
    else if secret.None? then Charged(BadReply)
    else Charged(Created(t.payments[id], secret.value))
  }

  // ----- a step of any worker -----

  ghost function NextPhase(t: Tables, phase: Phase, choice: Choice): Phase {
    match phase
    case Checking(d) => AfterCheck(t, d)
    case Reading(d) => AfterRead(t, d, choice.uid)
    case Committing(d, _, change) => AfterCommit(t, d, change)
    case RollingBack(d) => Delivered(Conflicted(d))
    case Notifying(d) => Delivered(Processed(d))
    case Delivered(_) => phase
    case Preparing(c) => if Lower(c.currency) in CURRENCIES then Calling(c) else Charged(Unsupported)
    case Calling(c) => AfterReply(c, choice)
    case Saving(_, row, secret) => AfterSave(t, row, secret)
    case Undoing => Charged(Conflict)
    case Refreshing(id, secret) => AfterRefresh(t, id, secret)
    case Charged(_) => phase
  }

  // What a worker in this phase would commit now.
  function Pending(phase: Phase): Option<Staged> {
    match phase
    case Committing(d, _, change) => Some(StagedBy(d, change))
    case Saving(_, row, _) => Some(Staged(Insert(row), None))
    case _ => None
  }

  predicate Commits(t: Tables, phase: Phase) {
    Pending(phase).Some? && Commit(t, Pending(phase).value).Committed?
  }

  function NextTables(t: Tables, phase: Phase): Tables {
    if Commits(t, phase) then Commit(t, Pending(phase).value).tables else t
  }

  function NextNotices(notices: seq<Notice>, phase: Phase, choice: Choice): seq<Notice> {
    if phase.Notifying? && HasIntent(phase.d) && choice.signs then notices + [NoticeOf(phase.d)] else notices
  }

  // A step that is not possible leaves the system as it is.
  ghost function Next(s: System, step: Step): System {
    var w := step.worker;
    match step
    case Arrive(_, job) => if w in s.workers then s else s.(workers := s.workers[w := Start(job)])
    case Proceed(_, choice) =>
      if w !in s.workers then s
      else
        var phase := s.workers[w];
        System(NextTables(s.tables, phase), s.workers[w := NextPhase(s.tables, phase, choice)],
               NextNotices(s.notices, phase, choice))
  }

  ghost function Run(s: System, steps: seq<Step>): System {
    if steps == [] then s else Next(Run(s, steps[..|steps| - 1]), steps[|steps| - 1])
  }

  // The system before anything arrives.
  function Initial(t: Tables): System {
    System(t, map[], [])
  }

  lemma RunOneMore(s: System, steps: seq<Step>, step: Step)
    ensures Run(s, steps + [step]) == Next(Run(s, steps), step)
  {
    assert (steps + [step])[..|steps|] == steps;
  }

  ghost function Go(s: System, w: nat, choice: Choice): System {
    Next(s, Proceed(w, choice))
  }

  lemma FourMoves(s: System, w: nat, choice: Choice)
    ensures Run(s, [Proceed(w, choice), Proceed(w, choice), Proceed(w, choice), Proceed(w, choice)])
         == Go(Go(Go(Go(s, w, choice), w, choice), w, choice), w, choice)
  {
    var go := Proceed(w, choice);
    RunOneMore(s, [], go);
    RunOneMore(s, [go], go);
    RunOneMore(s, [go, go], go);
    RunOneMore(s, [go, go, go], go);
    assert [] + [go] == [go] && [go] + [go] == [go, go] && [go, go] + [go] == [go, go, go];
    assert [go, go, go] + [go] == [go, go, go, go];
  }

  // The rest of a delivery that has staged its change.
  lemma CommitAlone(s: System, w: nat, d: Delivery, uid: Uuid, change: Change, choice: Choice)
    requires w in s.workers && s.workers[w] == Committing(d, uid, change)
    ensures var s' := Go(Go(s, w, choice), w, choice);
            var result := Commit(s.tables, StagedBy(d, change));
            && w in s'.workers
            && s'.tables == (if result.Committed? then result.tables else s.tables)
            && s'.workers[w] == Delivered(match result
                                          case Committed(_) => Processed(d)
                                          case Violated => Conflicted(d)
                                          case Failed => ServerError)
            && s'.notices == if result.Committed? && Notifies(d) && choice.signs
                             then s.notices + [NoticeOf(d)] else s.notices
  {
  }

  lemma FinishedStays(s: System, w: nat, choice: Choice)
    requires w in s.workers && (s.workers[w].Delivered? || s.workers[w].Charged?)
    ensures Go(s, w, choice) == s
  {
    assert s.workers[w := s.workers[w]] == s.workers;
  }

  /** Left alone, a worker that takes its steps one after another does what DeliverAlone says. */
  lemma AloneIsARun(t: Tables, w: nat, ev: StripeEvent, choice: Choice)
    ensures var s := Run(Next(Initial(t), Arrive(w, Deliver(ev))),
                         [Proceed(w, choice), Proceed(w, choice), Proceed(w, choice), Proceed(w, choice)]);
            && s.tables == ProcessAlone(t, ev, choice.uid).tables
            && w in s.workers && s.workers[w] == Delivered(ProcessAlone(t, ev, choice.uid).outcome)
            && s.notices == if || !ProcessAlone(t, ev, choice.uid).committed || !choice.signs
                               || ev.kind != Some("payment_intent.succeeded") || ev.body.value.id.GetOr("") == ""
                            then []
                            else
                              var object' := ev.body.value;
                              [Notice(ev.id.value, object'.id.value, object'.amount.GetOr(0), object'.tenant)]
  {
    var s := Next(Initial(t), Arrive(w, Deliver(ev)));
    FourMoves(s, w, choice);
    if Open(ev).None? {
      FinishedStays(s, w, choice);
    } else {
      var d := Open(ev).value;
      var checked := Go(s, w, choice);
      if d.id in t.events {
        FinishedStays(checked, w, choice);
      } else if !Tracks(d) {
        CommitAlone(checked, w, d, 0, NoChange, choice);
        FinishedStays(Go(Go(checked, w, choice), w, choice), w, choice);
      } else {
        var read := Go(checked, w, choice);
        match PlanFor(t, d, choice.uid)
        case BadTenant => FinishedStays(read, w, choice);
        case Plan(change) => CommitAlone(read, w, d, choice.uid, change, choice);
      }
    }
  }
  // The rest of a payment-intent request that has a row to save.
  lemma SaveAlone(s: System, w: nat, c: ChargeRequest, row: Payment, secret: Option<string>, choice: Choice)
    requires w in s.workers && s.workers[w] == Saving(c, row, secret)
    ensures var s' := Go(Go(s, w, choice), w, choice);
            var result := Commit(s.tables, Staged(Insert(row), None));
            && w in s'.workers && s'.notices == s.notices
            && s'.tables == (if result.Committed? then result.tables else s.tables)
            && s'.workers[w] == Charged(match result
                                        case Committed(_) => if secret.None? then BadReply else Created(row, secret.value)
                                        case Violated => Conflict
                                        case Failed => ChargeError)
  {
  }

  /** The same for a payment-intent request and ChargeAlone; it notifies nobody. */
  lemma ChargeAloneIsARun(t: Tables, w: nat, c: ChargeRequest, choice: Choice)
    ensures var s := Run(Next(Initial(t), Arrive(w, Charge(c))),
                         [Proceed(w, choice), Proceed(w, choice), Proceed(w, choice), Proceed(w, choice)]);
            var result := ChargeAlone(t, c, choice.reply, choice.uid);
            && s.tables == result.0 && s.notices == []
            && w in s.workers && s.workers[w] == Charged(result.1)
  {
    var s := Next(Initial(t), Arrive(w, Charge(c)));
    FourMoves(s, w, choice);
    var prepared := Go(s, w, choice);
    if Lower(c.currency) !in CURRENCIES {
      FinishedStays(prepared, w, choice);
    } else {
      var called := Go(prepared, w, choice);
      match AfterReply(c, choice)
      case Saving(_, row, secret) => SaveAlone(called, w, c, row, secret, choice);
      case _ => FinishedStays(called, w, choice);
    }
  }
}
