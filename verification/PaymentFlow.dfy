/**
 What one webhook delivery or one payment-intent request does to the tables: the
 parts of `PaymentService` that lie between two awaits, and a delivery run alone.
 */
module PaymentFlow {
  import opened Options
  import opened PaymentTables

  // ----- Stripe's event object; None is a field Stripe did not send -----

  datatype TenantText = NoTenant | NotUuid | TenantUuid(id: Uuid)

  // `user` is "" when the metadata has no user id: the code tests both for truth.
  datatype PaymentObject = PaymentObject(id: Option<string>, amount: Option<int>, currency: Option<string>,
                                         tenant: TenantText, user: string)

  datatype StripeEvent = StripeEvent(id: Option<string>, kind: Option<string>, body: Option<PaymentObject>)

  // An event whose mandatory fields are all present.
  datatype Delivery = Delivery(id: string, kind: string, body: PaymentObject)

  function Open(ev: StripeEvent): Option<Delivery> {
    match ev
    case StripeEvent(Some(id), Some(kind), Some(body)) => Some(Delivery(id, kind, body))
    case _ => None
  }

  function StatusOf(kind: string): (r: Option<string>) {
    if kind == "payment_intent.succeeded" then Some("succeeded")
    else if kind == "payment_intent.payment_failed" then Some("failed")
    else None
  }

  predicate HasIntent(d: Delivery) {
    d.body.id.Some? && d.body.id.value != ""
  }

  // The deliveries that look up a payment row.
  predicate Tracks(d: Delivery) {
    StatusOf(d.kind).Some? && HasIntent(d)
  }

  predicate Notifies(d: Delivery) {
    d.kind == "payment_intent.succeeded" && HasIntent(d)
  }

  function EventRowOf(d: Delivery): EventRow {
    EventRow(d.id, d.kind, d.body.id)
  }

  // ----- _upsert_payment_from_webhook, after its query returned `found` -----

  datatype Plan = Plan(change: Change) | BadTenant

  function NewRow(d: Delivery, tenant: Uuid, uid: Uuid): Payment
    requires Tracks(d)
  {
    Payment(uid, tenant, d.body.user, d.body.id.value, d.body.amount.GetOr(0),
            Lower(d.body.currency.GetOr("usd")), StatusOf(d.kind).value)
  }

  function PlanUpsert(found: Option<Payment>, d: Delivery, uid: Uuid): Plan
    requires Tracks(d)
  {
    match found
    case None =>
      if d.body.tenant.NoTenant? || d.body.user == "" then Plan(NoChange)
      else if d.body.tenant.NotUuid? then BadTenant
      else Plan(Insert(NewRow(d, d.body.tenant.id, uid)))
    case Some(row) =>
      var status := StatusOf(d.kind).value;
      // Assigning the value that was read leaves the object clean, so no UPDATE is sent.
      if row.status == status then Plan(NoChange) else Plan(SetStatus(row.id, status))
  }

  ghost function PlanFor(t: Tables, d: Delivery, uid: Uuid): Plan {
    if Tracks(d) then PlanUpsert(Lookup(t.payments, d.body.id.value), d, uid) else Plan(NoChange)
  }

  // ----- process_stripe_event with nothing else running -----

  datatype Report = Report(eventId: string, kind: string, intent: Option<string>,
                           duplicate: bool, status: Option<string>)
  datatype Outcome = Replied(report: Report) | BadRequest | ServerError

  // `committed` tells whether the session's commit went through.
  datatype Alone = Alone(tables: Tables, outcome: Outcome, committed: bool)

  function Processed(d: Delivery): Outcome {
    Replied(Report(d.id, d.kind, d.body.id, false, StatusOf(d.kind)))
  }

  function Conflicted(d: Delivery): Outcome {
    Replied(Report(d.id, d.kind, d.body.id, true, None))
  }

  function AlreadySeen(d: Delivery, row: EventRow): Outcome {
    Replied(Report(d.id, d.kind, row.intent, true, None))
  }

  ghost function DeliverAlone(t: Tables, d: Delivery, uid: Uuid): Alone {
    if d.id in t.events then Alone(t, AlreadySeen(d, t.events[d.id]), false)
    else
      match PlanFor(t, d, uid)
      case BadTenant => Alone(t, ServerError, false)
      case Plan(change) =>
        match Commit(t, Staged(change, Some(EventRowOf(d))))
        case Committed(t') => Alone(t', Processed(d), true)
        case Violated => Alone(t, Conflicted(d), false)
        case Failed => Alone(t, ServerError, false)
  }

  ghost function ProcessAlone(t: Tables, ev: StripeEvent, uid: Uuid): Alone {
    match Open(ev)
    case None => Alone(t, BadRequest, false)
    case Some(d) => DeliverAlone(t, d, uid)
  }

  /**
   An event is refused with 400 exactly when its id, type or object is missing; every other, of any type, is
   delivered.
   */
  lemma ProcessAnswer(t: Tables, ev: StripeEvent, uid: Uuid)
    ensures if ev.id.None? || ev.kind.None? || ev.body.None?
            then ProcessAlone(t, ev, uid) == Alone(t, BadRequest, false)
            else ProcessAlone(t, ev, uid) == DeliverAlone(t, Delivery(ev.id.value, ev.kind.value, ev.body.value), uid)
  {
  }

  // ----- create_payment_intent -----

  datatype ChargeRequest = ChargeRequest(amount: int, currency: string, tenant: Uuid, user: string)

  // What Stripe answers; StripeDown is an exception from the SDK.
  datatype StripeReply = StripeReply(id: Option<string>, status: Option<string>, secret: Option<string>) | StripeDown

  datatype ChargeOutcome =
    | Created(row: Payment, secret: string)
    | Unsupported
    | Conflict
    | BadReply
    | ChargeError

  const CURRENCIES := {"usd", "vnd"}

  function ChargeRow(c: ChargeRequest, intent: string, status: Option<string>, uid: Uuid): Payment {
    Payment(uid, c.tenant, c.user, intent, c.amount, Lower(c.currency), status.GetOr("requires_payment_method"))
  }

  // create_payment_intent with nothing else running.
  function ChargeAlone(t: Tables, c: ChargeRequest, reply: StripeReply, uid: Uuid): (Tables, ChargeOutcome) {
    if Lower(c.currency) !in CURRENCIES then (t, Unsupported)
    else
      match reply
      case StripeDown => (t, ChargeError)
      case StripeReply(None, _, _) => (t, BadReply)
      case StripeReply(Some(intent), status, secret) =>
        var row := ChargeRow(c, intent, status, uid);
        match Commit(t, Staged(Insert(row), None))
        case Committed(t') => (t', if secret.None? then BadReply else Created(row, secret.value))
        case Violated => (t, Conflict)
        case Failed => (t, ChargeError)
  }

  /**
   A payment-intent request answers 409 "already exists" for every broken constraint, so also
   when the intent is new: exactly for a taken intent or row id, an unknown tenant, an amount
   that is not positive, or a Stripe status the schema does not list.
   */
  lemma ConflictMeaning(t: Tables, c: ChargeRequest, intent: string, status: Option<string>,
                        secret: Option<string>, uid: Uuid)
    requires Lower(c.currency) in CURRENCIES && -MAX_INTEGER - 1 <= c.amount <= MAX_INTEGER
    ensures var result := ChargeAlone(t, c, StripeReply(Some(intent), status, secret), uid);
            && (result.1.Conflict? <==>
                  || IntentTaken(t.payments, intent) || uid in t.payments || c.tenant !in t.tenants || c.amount <= 0
                  || (status.Some? && status.value !in STATUSES))
            && (result.1.Conflict? ==> result.0 == t)
            && (!result.1.Conflict? ==>
                  result.0 == t.(payments := t.payments[uid := Payment(uid, c.tenant, c.user, intent, c.amount,
                                   Lower(c.currency), status.GetOr("requires_payment_method"))]))
  {
    LowerIsIdempotent(c.currency);
  }

  // The schema's constraints on the row of a charge, with its columns' literals.
  predicate ChargeBreaksSchema(t: Tables, c: ChargeRequest, intent: string, status: Option<string>, uid: Uuid) {
    || (exists id :: id in t.payments && t.payments[id].intent == intent)
    || uid in t.payments || c.tenant !in t.tenants || c.amount <= 0
    || (status.Some? && status.value !in {"requires_payment_method", "requires_confirmation", "processing",
                                          "succeeded", "canceled", "failed"})
  }

  /** A payment-intent request alone: tables and answer in every case. */
  lemma ChargeAnswer(t: Tables, c: ChargeRequest, reply: StripeReply, uid: Uuid)
    ensures ChargeAlone(t, c, reply, uid)
         == if Lower(c.currency) != "usd" && Lower(c.currency) != "vnd" then (t, Unsupported)
            else if reply.StripeDown? then (t, ChargeError)
            else if reply.id.None? then (t, BadReply)
            else if c.amount < -0x8000_0000 || c.amount > 0x7FFF_FFFF then (t, ChargeError)
            else if ChargeBreaksSchema(t, c, reply.id.value, reply.status, uid) then (t, Conflict)
            else
              var row := Payment(uid, c.tenant, c.user, reply.id.value, c.amount, Lower(c.currency),
                                 reply.status.GetOr("requires_payment_method"));
              (t.(payments := t.payments[uid := row]),
               if reply.secret.None? then BadReply else Created(row, reply.secret.value))
  {
    LowerIsIdempotent(c.currency);
  }

  /**
   So a request with a new intent and nothing wrong with it is told that the intent already exists when Stripe
   answers with a status the schema does not list, such as "requires_action", and its charge is not stored.
   */
  lemma UnlistedStatusConflicts(t: Tables, c: ChargeRequest, intent: string, secret: Option<string>, uid: Uuid)
    requires c.tenant in t.tenants && 0 < c.amount <= MAX_INTEGER && Lower(c.currency) in CURRENCIES
    requires !IntentTaken(t.payments, intent) && uid !in t.payments
    ensures ChargeAlone(t, c, StripeReply(Some(intent), Some("requires_action"), secret), uid) == (t, Conflict)
  {
    ConflictMeaning(t, c, intent, Some("requires_action"), secret, uid);
  }

  // The delivery would insert a payment row.
  predicate Inserts(t: Tables, d: Delivery) {
    && d.kind in {"payment_intent.succeeded", "payment_intent.payment_failed"} && d.body.id.GetOr("") != ""
    && !IntentTaken(t.payments, d.body.id.value) && !d.body.tenant.NoTenant? && d.body.user != ""
  }

  // The row to insert cannot be built or sent: its tenant id is no UUID, or its amount is beyond 32 bits.
  predicate Unsendable(t: Tables, d: Delivery) {
    Inserts(t, d) && (d.body.tenant.NotUuid?
                      || d.body.amount.GetOr(0) < -MAX_INTEGER - 1 || d.body.amount.GetOr(0) > MAX_INTEGER)
  }

  // The schema refuses the row to insert.
  predicate Refused(t: Tables, d: Delivery, uid: Uuid) {
    && Inserts(t, d) && !Unsendable(t, d)
    && (d.body.amount.GetOr(0) <= 0 || d.body.tenant.id !in t.tenants || uid in t.payments)
  }

  /**
   When a delivery commits and what it answers: it fails exactly where a row to insert has a tenant id that
   is no UUID or an amount beyond 32 bits, it is called a duplicate exactly when the event is recorded or
   the schema refuses the row, and without a commit nothing changes.
   */
  lemma DeliveryAnswer(t: Tables, d: Delivery, uid: Uuid)
    requires Consistent(t)
    ensures var result := DeliverAlone(t, d, uid);
            && (result.committed <==> d.id !in t.events && !Unsendable(t, d) && !Refused(t, d, uid))
            && (!result.committed ==> result.tables == t)
            && (result.committed ==> d.id in result.tables.events)
            && result.outcome
               == if d.id in t.events then Replied(Report(d.id, d.kind, t.events[d.id].intent, true, None))
                  else if Unsendable(t, d) then ServerError
                  else if Refused(t, d, uid) then Replied(Report(d.id, d.kind, d.body.id, true, None))
                  else Replied(Report(d.id, d.kind, d.body.id, false,
                                      if d.kind == "payment_intent.succeeded" then Some("succeeded")
                                      else if d.kind == "payment_intent.payment_failed" then Some("failed")
                                      else None))
  {
    LowerIsIdempotent(d.body.currency.GetOr("usd"));
    if Tracks(d) && IntentTaken(t.payments, d.body.id.value) {
      var id :| id in t.payments && t.payments[id].intent == d.body.id.value;
      LookupIsUnique(t, d.body.id.value, id);
      assert StoredPayment(t, id);
    }
  }

  lemma UpdateEffect(t: Tables, d: Delivery, uid: Uuid)
    requires Consistent(t) && Tracks(d) && IntentTaken(t.payments, d.body.id.value)
    requires DeliverAlone(t, d, uid).committed
    ensures var t' := DeliverAlone(t, d, uid).tables;
            && t'.payments.Keys == t.payments.Keys
            && forall id :: id in t.payments ==>
                 t'.payments[id] == if t.payments[id].intent == d.body.id.value
                                    then t.payments[id].(status := StatusOf(d.kind).value)
                                    else t.payments[id]
  {
    var id :| id in t.payments && t.payments[id].intent == d.body.id.value;
    LookupIsUnique(t, d.body.id.value, id);
    assert StoredPayment(t, id);
  }

  /** The effect of a delivery that commits alone, read off the tables. */
  lemma DeliveryEffect(t: Tables, d: Delivery, uid: Uuid)
    requires Consistent(t)
    requires DeliverAlone(t, d, uid).committed
    ensures var t' := DeliverAlone(t, d, uid).tables;
            var tracked := d.kind in {"payment_intent.succeeded", "payment_intent.payment_failed"}
                           && d.body.id.GetOr("") != "";
            var status := if d.kind == "payment_intent.succeeded" then "succeeded" else "failed";
            && t'.events == t.events[d.id := EventRow(d.id, d.kind, d.body.id)]
            && t'.tenants == t.tenants
            && (forall id :: id in t.payments ==>
                  id in t'.payments &&
                  t'.payments[id] == if tracked && t.payments[id].intent == d.body.id.value
                                     then t.payments[id].(status := status)
                                     else t.payments[id])
            && (forall id :: id in t'.payments && id !in t.payments ==>
                  && tracked && !IntentTaken(t.payments, d.body.id.value)
                  && t'.payments[id].intent == d.body.id.value
                  && t'.payments[id].status == status
                  && d.body.tenant == TenantUuid(t'.payments[id].tenant)
                  && t'.payments[id].user == d.body.user != ""
                  && d.body.amount == Some(t'.payments[id].amount)
                  && t'.payments[id].currency == Lower(d.body.currency.GetOr("usd")))
  {
    var t' := DeliverAlone(t, d, uid).tables;
    if Tracks(d) && IntentTaken(t.payments, d.body.id.value) {
      UpdateEffect(t, d, uid);
    } else if PlanFor(t, d, uid).Plan? && PlanFor(t, d, uid).change.Insert? {
      assert t'.payments == t.payments[uid := PlanFor(t, d, uid).change.row];
    } else {
      assert t'.payments == t.payments;
    }
  }
}
