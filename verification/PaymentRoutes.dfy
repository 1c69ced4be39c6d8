/** The payment-intent route in front of `PaymentService`: who may create an intent, and for which tenant. */
module PaymentRoutes {
  import opened Options
  import opened Roles
  import opened Callers
  import Routes
  import opened PaymentTables
  import opened PaymentFlow
  import opened PaymentSystem
  import opened PaymentSafety
  import opened PaymentSources
  import opened PaymentServices

  // What the route decides before it calls the service.
  datatype Admission = Refuse(status: nat) | Admit(request: ChargeRequest)

  function AdmitIntent(user: CurrentUser, amount: int, currency: string): Admission {
    if !PassesGate(user.roles, Routes.GateOf(Routes.CreateIntent)) then Refuse(403)
    else
      match RequiredTenant(user)
      case Refused(status) => Refuse(status)
      case Tenant(own) => Admit(ChargeRequest(amount, currency, own, user.id))
  }

  /** A request is admitted exactly for a caller with a tenant role and a tenant, as that caller's own and unchanged. */
  lemma AdmissionMeaning(user: CurrentUser, amount: int, currency: string)
    ensures AdmitIntent(user, amount, currency)
         == if "tenant_user" !in user.roles && "tenant_admin" !in user.roles then Refuse(403)
            else if user.tenant.None? then Refuse(403)
            else if user.tenant.value.uuid.None? then Refuse(500)
            else Admit(ChargeRequest(amount, currency, user.tenant.value.uuid.value, user.id))
  {
    RolesPass(user.roles, TENANT_USER, Routes.GateOf(Routes.CreateIntent));
    RolesPass(user.roles, TENANT_ADMIN, Routes.GateOf(Routes.CreateIntent));
  }

  datatype IntentReply = Rejected(status: nat) | Answered(outcome: ChargeOutcome)

  class IntentRoute {
    const service: PaymentService

    constructor (service: PaymentService)
      ensures this.service == service
    {
      this.service := service;
    }

    // The reply and tables of a run in which the request, if admitted, arrives and is left alone.
    method CreatePaymentIntent(user: CurrentUser, amount: int, currency: string, w: nat, choice: Choice)
        returns (reply: IntentReply)
      requires Consistent(service.db.tables) && service.Clean()
      modifies service, service.db
      ensures match AdmitIntent(user, amount, currency)
              case Refuse(status) => reply == Rejected(status) && service.db.tables == old(service.db.tables)
              case Admit(c) =>
                var s := Run(Next(Initial(old(service.db.tables)), Arrive(w, Charge(c))),
                             [Proceed(w, choice), Proceed(w, choice), Proceed(w, choice), Proceed(w, choice)]);
                && reply.Answered? && w in s.workers && s.workers[w] == Charged(reply.outcome)
                && service.db.tables == s.tables
    {
      if !PassesGate(user.roles, Routes.GateOf(Routes.CreateIntent)) {
        return Rejected(403);
      }
      match RequiredTenant(user)
      case Refused(status) => return Rejected(status);
      case Tenant(own) =>
        var c := ChargeRequest(amount, currency, own, user.id);
        ChargeAloneIsARun(service.db.tables, w, c, choice);
        var outcome := service.CreatePaymentIntent(c, choice.reply, choice.uid);
        reply := Answered(outcome);
    }
  }

  // Every payment-intent request of the run came through the route, from the caller at hand.
  ghost predicate ThroughRoute(steps: seq<Step>, callers: map<nat, CurrentUser>) {
    forall k :: 0 <= k < |steps| && steps[k].Arrive? && steps[k].job.Charge? ==>
      && steps[k].worker in callers
      && var c := steps[k].job.request;
         AdmitIntent(callers[steps[k].worker], c.amount, c.currency) == Admit(c)
  }

  // A caller with a tenant role, for the caller's own tenant and under the caller's own name.
  ghost predicate CreatedBy(user: CurrentUser, p: Payment) {
    && (TENANT_USER in user.roles || TENANT_ADMIN in user.roles)
    && TenantOf(user) == Some(p.tenant) && p.user == user.id && p.currency in CURRENCIES
  }

  /**
   In any run whose payment-intent requests come through the route, every payment row was there before, or
   comes from a webhook event, or was created by a caller with a tenant role in that caller's own tenant.
   */
  lemma IntentsStayInTenant(t: Tables, steps: seq<Step>, callers: map<nat, CurrentUser>, id: Uuid)
    requires Consistent(t) && ThroughRoute(steps, callers)
    requires id in Run(Initial(t), steps).tables.payments
    ensures var p := Run(Initial(t), steps).tables.payments[id];
            || WasThere(t, p) || WasDelivered(steps, p)
            || exists w :: w in callers && CreatedBy(callers[w], p)
  {
    var p := Run(Initial(t), steps).tables.payments[id];
    RowHasSource(t, steps, id);
    if WasCharged(steps, p) {
      var w, c :| Arrived(steps, w, Charge(c)) && IsRowOf(c, p);
      var k :| 0 <= k < |steps| && steps[k] == Arrive(w, Charge(c));
      assert AdmitIntent(callers[steps[k].worker], c.amount, c.currency) == Admit(c);
      assert CreatedBy(callers[w], p);
    }
  }
}
