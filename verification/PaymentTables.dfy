/**
 The payment service's two tables, `payments` and `stripe_webhook_events`, the
 constraints the schema puts on them, and a commit as one atomic step.
 */
module PaymentTables {
  import opened Letters
  import opened Options

  // A UUID is only ever compared with another one.
  type Uuid = nat

  datatype Payment = Payment(id: Uuid, tenant: Uuid, user: string, intent: string,
                             amount: int, currency: string, status: string)

  datatype EventRow = EventRow(id: string, kind: string, intent: Option<string>)

  // `tenants` is the set of known tenant ids, the target of the foreign key.
  datatype Tables = Tables(tenants: set<Uuid>, payments: map<Uuid, Payment>, events: map<string, EventRow>)

  const MAX_INTEGER := 0x7FFF_FFFF

  const STATUSES := {"requires_payment_method", "requires_confirmation", "processing",
                     "succeeded", "canceled", "failed"}

  function LowerChar(c: char): char {
    if 'A' <= c <= 'Z' then (c as int + 32) as char else c
  }

  function Lower(s: string): (r: string)
    ensures |r| == |s|
    ensures forall i :: 0 <= i < |s| ==> r[i] == LowerChar(s[i])
  {
    if s == "" then "" else [LowerChar(s[0])] + Lower(s[1..])
  }

  lemma LowerIsIdempotent(s: string)
    ensures Lower(Lower(s)) == Lower(s)
  {
    assert forall i :: 0 <= i < |s| ==> Lower(Lower(s))[i] == LowerChar(Lower(s)[i]) == Lower(s)[i];
  }

  /** Each capital becomes the small letter at its place in the alphabet; every other character stays. */
  lemma LowerByAlphabet(c: char)
    ensures forall i :: 0 <= i < 26 ==> LowerChar(CAPITALS[i]) == SMALL[i]
    ensures (forall i :: 0 <= i < 26 ==> c != CAPITALS[i]) ==> LowerChar(c) == c
  {
    if 'A' <= c <= 'Z' { assert CAPITALS[c as int - 'A' as int] == c; }
  }

  // What a session has staged when it commits: at most one change of a payment
  // row, and at most one new event row.
  datatype Change = NoChange | Insert(row: Payment) | SetStatus(id: Uuid, status: string)
  datatype Staged = Staged(change: Change, event: Option<EventRow>)

  // Violated is an IntegrityError; Failed is any other database error.
  datatype CommitResult = Committed(tables: Tables) | Violated | Failed

  predicate IntentTaken(payments: map<Uuid, Payment>, intent: string) {
    exists id :: id in payments && payments[id].intent == intent
  }

  predicate Checks(p: Payment) {
    p.amount > 0 && p.currency == Lower(p.currency) && p.status in STATUSES
  }

  // Values the driver can send at all: an INTEGER column holds 32 bits.
  predicate Executable(t: Tables, change: Change) {
    match change
    case NoChange => true
    case Insert(row) => -MAX_INTEGER - 1 <= row.amount <= MAX_INTEGER
    case SetStatus(id, _) => id in t.payments
  }

  predicate RespectsConstraints(t: Tables, staged: Staged) {
    && (match staged.change
        case NoChange => true
        case Insert(row) =>
          row.id !in t.payments && row.tenant in t.tenants && !IntentTaken(t.payments, row.intent) && Checks(row)
        case SetStatus(_, status) => status in STATUSES)
    && (staged.event.Some? ==> staged.event.value.id !in t.events)
  }

  function WriteChange(payments: map<Uuid, Payment>, change: Change): map<Uuid, Payment> {
    match change
    case NoChange => payments
    case Insert(row) => payments[row.id := row]
    case SetStatus(id, status) =>
      if id in payments then payments[id := payments[id].(status := status)] else payments
  }

  function AddEvent(t: Tables, row: EventRow): Tables {
    t.(events := t.events[row.id := row])
  }

  function Write(t: Tables, staged: Staged): Tables {
    var t' := t.(payments := WriteChange(t.payments, staged.change));
    if staged.event.Some? then AddEvent(t', staged.event.value) else t'
  }

  function Commit(t: Tables, staged: Staged): CommitResult {
    if !Executable(t, staged.change) then Failed
    else if !RespectsConstraints(t, staged) then Violated
    else Committed(Write(t, staged))
  }

  // ----- What the constraints guarantee of every stored table -----

  ghost predicate UniqueIntents(payments: map<Uuid, Payment>) {
    forall i, j :: i in payments && j in payments && payments[i].intent == payments[j].intent ==> i == j
  }

  ghost predicate StoredPayment(t: Tables, id: Uuid)
    requires id in t.payments
  {
    var p := t.payments[id];
    p.id == id && p.tenant in t.tenants && Checks(p) && p.amount <= MAX_INTEGER
  }

  ghost predicate Consistent(t: Tables) {
    && (forall id :: id in t.payments ==> StoredPayment(t, id))
    && UniqueIntents(t.payments)
    && (forall e :: e in t.events ==> t.events[e].id == e)
  }

  lemma CommitKeepsConsistent(t: Tables, staged: Staged)
    requires Consistent(t)
    requires Commit(t, staged).Committed?
    ensures Consistent(Commit(t, staged).tables)
  {
    var t' := Commit(t, staged).tables;
    forall id | id in t'.payments
      ensures StoredPayment(t', id)
    {
      if id in t.payments { assert StoredPayment(t, id); }
    }
  }

  // `SELECT ... WHERE stripe_payment_intent_id = intent`, read by scalar_one_or_none.
  ghost function Lookup(payments: map<Uuid, Payment>, intent: string): (r: Option<Payment>)
    ensures r.Some? <==> IntentTaken(payments, intent)
    ensures r.Some? ==> exists id :: id in payments && payments[id] == r.value && r.value.intent == intent
  {
    if IntentTaken(payments, intent) then
      var id :| id in payments && payments[id].intent == intent;
      Some(payments[id])
    else None
  }

  /** At most one row matches an intent id, so the lookup never meets MultipleResultsFound. */
  lemma LookupIsUnique(t: Tables, intent: string, id: Uuid)
    requires Consistent(t)
    requires id in t.payments && t.payments[id].intent == intent
    ensures Lookup(t.payments, intent) == Some(t.payments[id])
    ensures (set i | i in t.payments && t.payments[i].intent == intent) == {id}
  {
  }
}
