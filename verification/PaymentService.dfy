/** `PaymentService` itself: a session over the database, run with nothing else beside it. */
module PaymentServices {
  import opened Options
  import opened PaymentTables
  import opened PaymentFlow
  import opened PaymentSystem

  class Database {
    var tables: Tables

    constructor (tables: Tables)
      ensures this.tables == tables
    {
      this.tables := tables;
    }
  }

  datatype Saved = Ok | IntegrityError | OtherError

  class PaymentService {
    const db: Database

    // The session: the payment row it has read, the same row as the code left it, and the new objects.
    var loaded: Option<Payment>
    var current: Option<Payment>
    var newPayment: Option<Payment>
    var newEvent: Option<EventRow>

    // The notifications signed so far.
    var notices: seq<Notice>

    constructor (db: Database)
      ensures this.db == db && Clean() && notices == []
    {
      this.db := db;
      loaded, current, newPayment, newEvent, notices := None, None, None, None, [];
    }

    predicate Clean()
      reads this
    {
      loaded == None && current == None && newPayment == None && newEvent == None
    }

    // What the unit of work would write: a new row, or the attributes that differ from those read.
    function Work(): Staged
      reads this
    {
      var change :=
        if newPayment.Some? then Insert(newPayment.value)
        else if loaded.Some? && current.Some? && current.value.status != loaded.value.status
        then SetStatus(loaded.value.id, current.value.status)
        else NoChange;
      Staged(change, newEvent)
    }

    method Save() returns (saved: Saved)
      modifies db, this`loaded, this`current, this`newPayment, this`newEvent
      ensures match Commit(old(db.tables), old(Work()))
              case Committed(t) => saved == Ok && db.tables == t && Clean()
              case Violated => saved == IntegrityError && db.tables == old(db.tables)
              case Failed => saved == OtherError && db.tables == old(db.tables)
    {
      match Commit(db.tables, Work())
      case Committed(t) =>
        db.tables := t;
        Rollback();
        saved := Ok;
      case Violated => saved := IntegrityError;
      case Failed => saved := OtherError;
    }

    // Forgets everything staged.
    method Rollback()
      modifies this`loaded, this`current, this`newPayment, this`newEvent
      ensures Clean()
    {
      loaded, current, newPayment, newEvent := None, None, None, None;
    }

    method FindByIntent(intent: string) returns (row: Option<Payment>)
      requires Consistent(db.tables)
      ensures row == Lookup(db.tables.payments, intent)
    {
      if IntentTaken(db.tables.payments, intent) {
        var id :| id in db.tables.payments && db.tables.payments[id].intent == intent;
        LookupIsUnique(db.tables, intent, id);
        row := Some(db.tables.payments[id]);
      } else {
        row := None;
      }
    }

    // `raised` is the ValueError of a tenant id that is no UUID.
    method UpsertPaymentFromWebhook(d: Delivery, status: string, uid: Uuid) returns (raised: bool)
      requires Consistent(db.tables) && Clean() && Tracks(d) && StatusOf(d.kind) == Some(status)
      modifies this`loaded, this`current, this`newPayment
      ensures newEvent == None
      ensures raised <==> PlanFor(db.tables, d, uid).BadTenant?
      ensures !raised ==> Work() == Staged(PlanFor(db.tables, d, uid).change, None)
    {
      loaded := FindByIntent(d.body.id.value);
      current := loaded;
      raised := false;
      if loaded.None? {
        if d.body.tenant.NoTenant? || d.body.user == "" {
          return;
        }
        if d.body.tenant.NotUuid? {
          return true;
        }
        newPayment := Some(Payment(uid, d.body.tenant.id, d.body.user, d.body.id.value, d.body.amount.GetOr(0),
                                   Lower(d.body.currency.GetOr("usd")), status));
        return;
      }
      current := Some(current.value.(status := status));
    }

    method EmitSignedPaymentNotification(d: Delivery, signs: bool)
      requires HasIntent(d)
      modifies this`notices
      ensures notices == if signs then old(notices) + [NoticeOf(d)] else old(notices)
    {
      if !signs {
        return;
      }
      notices := notices + [Notice(d.id, d.body.id.value, d.body.amount.GetOr(0), d.body.tenant)];
    }

    /** One delivery alone: the tables, the answer and the notification are those of ProcessAlone. */
    method ProcessStripeEvent(ev: StripeEvent, uid: Uuid, signs: bool) returns (outcome: Outcome)
      requires Consistent(db.tables) && Clean()
      modifies db, this
      ensures db.tables == ProcessAlone(old(db.tables), ev, uid).tables
      ensures outcome == ProcessAlone(old(db.tables), ev, uid).outcome
      ensures notices == if ProcessAlone(old(db.tables), ev, uid).committed && Notifies(Open(ev).value) && signs
                         then old(notices) + [NoticeOf(Open(ev).value)] else old(notices)
    {
      if ev.id.None? || ev.kind.None? || ev.body.None? {
        return BadRequest;
      }
      var d := Delivery(ev.id.value, ev.kind.value, ev.body.value);
      if d.id in db.tables.events {
        var row := db.tables.events[d.id];
        return Replied(Report(d.id, d.kind, row.intent, true, None));
      }
      var status := StatusOf(d.kind);
      if status.Some? && HasIntent(d) {
        var raised := UpsertPaymentFromWebhook(d, status.value, uid);
        if raised {
          return ServerError;
        }
      }
      newEvent := Some(EventRow(d.id, d.kind, d.body.id));
      assert Work() == Staged(PlanFor(db.tables, d, uid).change, Some(EventRowOf(d)));
      var saved := Save();
      if saved == IntegrityError {
        Rollback();
        return Replied(Report(d.id, d.kind, d.body.id, true, None));
      }
      if saved == OtherError {
        return ServerError;
      }
      if d.kind == "payment_intent.succeeded" && HasIntent(d) {
        EmitSignedPaymentNotification(d, signs);
      }
      outcome := Replied(Report(d.id, d.kind, d.body.id, false, status));
    }

    method CreatePaymentIntent(c: ChargeRequest, reply: StripeReply, uid: Uuid) returns (outcome: ChargeOutcome)
      requires Consistent(db.tables) && Clean()
      modifies db, this`loaded, this`current, this`newPayment, this`newEvent
      ensures (db.tables, outcome) == ChargeAlone(old(db.tables), c, reply, uid)
    {
      var currency := Lower(c.currency);
      if currency !in CURRENCIES {
        return Unsupported;
      }
      if reply.StripeDown? {
        return ChargeError;
      }
      if reply.id.None? {
        return BadReply;
      }
      var row := Payment(uid, c.tenant, c.user, reply.id.value, c.amount, currency,
                         reply.status.GetOr("requires_payment_method"));
      newPayment := Some(row);
      var saved := Save();
      if saved == IntegrityError {
        Rollback();
        return Conflict;
      }
      if saved == OtherError {
        return ChargeError;
      }
      var stored := db.tables.payments[row.id];
      if reply.secret.None? {
        return BadReply;
      }
      outcome := Created(stored, reply.secret.value);
    }

    method ListPayments(tenant: Option<Uuid>, includeAll: bool) returns (rows: set<Payment>)
      ensures forall p :: p in rows <==>
                p in db.tables.payments.Values && (tenant.None? || includeAll || p.tenant == tenant.value)
    {
      rows := db.tables.payments.Values;
      if tenant.Some? && !includeAll {
        rows := set p | p in rows && p.tenant == tenant.value;
      }
    }

    method GetPayment(id: Uuid) returns (row: Option<Payment>)
      requires Consistent(db.tables)
      ensures row.Some? <==> id in db.tables.payments
      ensures row.Some? ==> row.value == db.tables.payments[id] && row.value.id == id
    {
      if id in db.tables.payments {
        assert StoredPayment(db.tables, id);
        row := Some(db.tables.payments[id]);
      } else {
        row := None;
      }
    }
  }
}
