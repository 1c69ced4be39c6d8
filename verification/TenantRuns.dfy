/**
 Authenticated requests of the user, resource and payment services, any number in flight at once over
 the shared tables, one step from await to await. What every run keeps about tenants.
 */
module TenantRuns {
  import opened Options
  import opened Accounts
  import opened Callers
  import opened Roles
  import Routes

  datatype Request =
    | ListUsers(tenant: Option<Uuid>)
    | GetUser(key: UserRef)
    | CreateUser(inTenant: Option<Uuid>, keycloak: string, email: string, role: string)
    | ChangeUser(key: UserRef, userFields: seq<UserField>)
    | DeactivateUser(key: UserRef)
    | ListResources(tenant: Option<Uuid>)
    | GetResource(id: Uuid)
    | CreateResource(name: string, data: string, url: Option<string>)
    | ChangeResource(id: Uuid, resourceFields: seq<ResourceField>)
    | RemoveResource(id: Uuid)
    | ListPayments(tenant: Option<Uuid>)
    | GetPayment(id: Uuid)

  datatype Reply =
    | Users(users: set<User>)
    | Resources(resources: set<Resource>)
    | Payments(payments: set<Payment>)
    | NoContent
    | Error(status: nat)

  datatype Phase =
    | Begin(user: CurrentUser, request: Request)
    | SelfLookup(user: CurrentUser)
    | SavingNewUser(user: CurrentUser, newUser: User)
    | SavingUser(user: CurrentUser, readUser: User, userDraft: UserDraft)
    | Disabling(user: CurrentUser, readUser: User)
    | ReadBackUser(user: CurrentUser, id: Uuid)
    | SavingNewResource(user: CurrentUser, newResource: Resource)
    | SavingResource(user: CurrentUser, readResource: Resource, resourceDraft: ResourceDraft)
    | Removing(user: CurrentUser, id: Uuid)
    | ReadBackResource(user: CurrentUser, id: Uuid)
    | Finished(user: CurrentUser, reply: Reply)

  function RouteOf(request: Request): Routes.Route {
    match request
    case ListUsers(_) => Routes.ListUsers
    case GetUser(_) => Routes.GetUser
    case CreateUser(_, _, _, _) => Routes.CreateUser
    case ChangeUser(_, _) => Routes.UpdateUser
    case DeactivateUser(_) => Routes.DeactivateUser
    case ListResources(_) => Routes.ListResources
    case GetResource(_) => Routes.GetResource
    case CreateResource(_, _, _) => Routes.CreateResource
    case ChangeResource(_, _) => Routes.UpdateResource
    case RemoveResource(_) => Routes.DeleteResource
    case ListPayments(_) => Routes.ListPayments
    case GetPayment(_) => Routes.GetPayment
  }

  // require_roles
  predicate MayEnter(user: CurrentUser, request: Request) {
    PassesGate(user.roles, Routes.GateOf(RouteOf(request)))
  }

  // ----- the first step: the role gate, the checks on the caller, the first query -----

  function UsersOf(db: Db, tenant: Option<Uuid>): Reply {
    Users(set id | id in db.users && (tenant.None? || db.users[id].tenant == tenant.value) :: db.users[id])
  }

  function ResourcesOf(db: Db, tenant: Option<Uuid>): Reply {
    Resources(set id | id in db.resources && (tenant.None? || db.resources[id].tenant == tenant.value) :: db.resources[id])
  }

  function PaymentsOf(db: Db, tenant: Option<Uuid>): Reply {
    Payments(set id | id in db.payments && (tenant.None? || db.payments[id].tenant == tenant.value) :: db.payments[id])
  }

  function FailWith(user: CurrentUser, status: nat): Phase {
    Finished(user, Error(status))
  }

  function AfterUserRead(user: CurrentUser, profile: Option<User>): Phase {
    if profile.None? then FailWith(user, 404)
    else if MayReadUser(user, profile.value) then Finished(user, Users({profile.value}))
    else FailWith(user, 403)
  }

  // 404 without a row, then _authorize_same_tenant_admin before the handler goes on with the row.
  function AfterUserOwned(user: CurrentUser, profile: Option<User>, goOn: User -> Phase): Phase {
    if profile.None? then FailWith(user, 404)
    else
      match RequiredTenant(user)
      case Refused(status) => FailWith(user, status)
      case Tenant(id) => if profile.value.tenant != id then FailWith(user, 403) else goOn(profile.value)
  }

  // _authorize_resource_access on the row read: 0 when allowed.
  function ResourceRefusal(user: CurrentUser, row: Resource): nat {
    if IsPlatformAdmin(user) then 0
    else
      match RequiredTenant(user)
      case Refused(status) => status
      case Tenant(id) => if row.tenant == id then 0 else 403
  }

  function PaymentRefusal(user: CurrentUser, row: Payment): nat {
    if IsPlatformAdmin(user) then 0
    else
      match RequiredTenant(user)
      case Refused(status) => status
      case Tenant(id) => if row.tenant == id then 0 else 403
  }

  // get_resource, 404 without a row, then _authorize_resource_access before the handler goes on with the row.
  function AfterResourceRead(db: Db, user: CurrentUser, id: Uuid, goOn: Resource -> Phase): Phase {
    if id !in db.resources then FailWith(user, 404)
    else
      var refusal := ResourceRefusal(user, db.resources[id]);
      if refusal != 0 then FailWith(user, refusal) else goOn(db.resources[id])
  }

  // The handlers of the resource service.
  function ResourceStep(db: Db, user: CurrentUser, request: Request, uid: Uuid): Phase
    requires request.ListResources? || request.GetResource? || request.CreateResource? || request.ChangeResource?
             || request.RemoveResource?
  {
    match request
    case ListResources(tenant) =>
      if IsPlatformAdmin(user) then Finished(user, ResourcesOf(db, tenant))
      else
        (match RequiredTenant(user)
         case Refused(status) => FailWith(user, status)
         case Tenant(own) => Finished(user, ResourcesOf(db, Some(own))))
    case CreateResource(name, data, url) =>
      (match RequiredTenant(user)
       case Refused(status) => FailWith(user, status)
       case Tenant(own) => SavingNewResource(user, Resource(uid, own, user.id, name, data, url)))
    case GetResource(id) => AfterResourceRead(db, user, id, row => Finished(user, Resources({row})))
    case ChangeResource(id, fields) =>
      AfterResourceRead(db, user, id, row => SavingResource(user, row, SetResourceFields(ResourceDraftOf(row), fields)))
    case RemoveResource(id) => AfterResourceRead(db, user, id, (row: Resource) => Removing(user, row.id))
  }

  // The handlers of the user service.
  ghost function UserStep(db: Db, user: CurrentUser, request: Request, uid: Uuid): Phase
    requires request.ListUsers? || request.GetUser? || request.CreateUser? || request.ChangeUser?
             || request.DeactivateUser?
  {
    match request
    case ListUsers(tenant) =>
      if IsPlatformAdmin(user) then Finished(user, UsersOf(db, tenant))
      else if TenantOf(user).None? then FailWith(user, 500)
      else Finished(user, UsersOf(db, TenantOf(user)))
    case GetUser(key) =>
      var profile := FindUser(db.users, key);
      if profile.None? && IsSelfLookup(key, user) then
        (match RequiredTenant(user)
         case Refused(status) => FailWith(user, status)
         case Tenant(_) => SelfLookup(user))
      else AfterUserRead(user, profile)
    case CreateUser(inTenant, keycloak, email, role) =>
      (match RequiredTenant(user)
       case Refused(status) => FailWith(user, status)
       case Tenant(own) =>
         if inTenant.Some? && inTenant.value != own then FailWith(user, 403)
         else SavingNewUser(user, User(uid, keycloak, own, email, role, "active")))
    case ChangeUser(key, fields) =>
      AfterUserOwned(user, FindUser(db.users, key),
                     (row: User) => SavingUser(user, row, SetUserFields(UserDraftOf(row), fields)))
    case DeactivateUser(key) => AfterUserOwned(user, FindUser(db.users, key), (row: User) => Disabling(user, row))
  }

  // The reading handlers of the payment service.
  function PaymentStep(db: Db, user: CurrentUser, request: Request): Phase
    requires request.ListPayments? || request.GetPayment?
  {
    match request
    case ListPayments(tenant) =>
      if IsPlatformAdmin(user) then Finished(user, PaymentsOf(db, tenant))
      else
        (match RequiredTenant(user)
         case Refused(status) => FailWith(user, status)
         case Tenant(own) => Finished(user, PaymentsOf(db, Some(own))))
    case GetPayment(id) =>
      if id !in db.payments then FailWith(user, 404)
      else if PaymentRefusal(user, db.payments[id]) != 0 then FailWith(user, PaymentRefusal(user, db.payments[id]))
      else Finished(user, Payments({db.payments[id]}))
  }

  ghost function FirstStep(db: Db, user: CurrentUser, request: Request, uid: Uuid): Phase {
    if !MayEnter(user, request) then FailWith(user, 403)
    else
      match request
      case ListPayments(_) => PaymentStep(db, user, request)
      case GetPayment(_) => PaymentStep(db, user, request)
      case ListUsers(_) => UserStep(db, user, request, uid)
      case GetUser(_) => UserStep(db, user, request, uid)
      case CreateUser(_, _, _, _) => UserStep(db, user, request, uid)
      case ChangeUser(_, _) => UserStep(db, user, request, uid)
      case DeactivateUser(_) => UserStep(db, user, request, uid)
      case _ => ResourceStep(db, user, request, uid)
  }

  // ----- the later steps -----

  function Attempt(db: Db, phase: Phase): Written {
    match phase
    case SavingNewUser(_, row) => InsertUser(db, row)
    case SavingUser(_, read, draft) => UpdateUser(db, read, draft)
    case Disabling(_, read) => UpdateUser(db, read, Disabled(read))
    case SavingNewResource(_, row) => InsertResource(db, row)
    case SavingResource(_, read, draft) => UpdateResource(db, read, draft)
    case Removing(_, id) => Wrote(DeleteResource(db, id))
    case _ => Wrote(db)
  }

  // A conflict is rolled back and answered with 409, an UPDATE without a row with 500. deactivate_user
  // catches neither.
  function NextDb(db: Db, phase: Phase): Db {
    match Attempt(db, phase) case Wrote(db') => db' case _ => db
  }

  function AfterWrite(db: Db, phase: Phase, id: Uuid): Phase {
    match Attempt(db, phase)
    case Wrote(_) =>
      if phase.Disabling? then Finished(phase.user, NoContent)
      else if phase.SavingNewUser? || phase.SavingUser? then ReadBackUser(phase.user, id) else ReadBackResource(phase.user, id)
    case Conflict => FailWith(phase.user, if phase.Disabling? then 500 else 409)
    case Stale => FailWith(phase.user, 500)
  }

  ghost function NextPhase(db: Db, phase: Phase, uid: Uuid): Phase {
    match phase
    case Begin(user, request) => FirstStep(db, user, request, uid)
    case SelfLookup(user) =>
      (match RequiredTenant(user)
       case Refused(status) => FailWith(user, status)
       case Tenant(own) => AfterUserRead(user, FindByEmail(db.users, own, user.email.GetOr(""))))
    case SavingNewUser(_, row) => AfterWrite(db, phase, row.id)
    case SavingUser(_, read, _) => AfterWrite(db, phase, read.id)
    case Disabling(_, read) => AfterWrite(db, phase, read.id)
    case SavingNewResource(_, row) => AfterWrite(db, phase, row.id)
    case SavingResource(_, read, _) => AfterWrite(db, phase, read.id)
    case Removing(user, _) => Finished(user, NoContent)
    case ReadBackUser(user, id) =>
      if id in db.users then Finished(user, Users({db.users[id]})) else FailWith(user, 500)
    case ReadBackResource(user, id) =>
      if id in db.resources then Finished(user, Resources({db.resources[id]})) else FailWith(user, 500)
    case Finished(_, _) => phase
  }

  // ----- runs -----

  // `homes` records the tenant of every resource id ever in use: uuid4 never gives one out twice.
  datatype System = System(db: Db, handlers: map<nat, Phase>, homes: map<Uuid, Uuid>)

  // PaymentsChange is any write of the payments table, by a webhook or a payment-intent request.
  datatype Step =
    | Arrive(worker: nat, user: CurrentUser, request: Request)
    | Proceed(worker: nat, uid: Uuid)
    | PaymentsChange(payments: map<Uuid, Payment>)

  ghost function Next(s: System, step: Step): System {
    match step
    case Arrive(w, user, request) =>
      if w in s.handlers then s else s.(handlers := s.handlers[w := Begin(user, request)])
    case PaymentsChange(payments) => s.(db := s.db.(payments := payments))
    case Proceed(w, uid) =>
      if w !in s.handlers || uid in s.homes then s
      else
        var phase' := NextPhase(s.db, s.handlers[w], uid);
        System(NextDb(s.db, s.handlers[w]), s.handlers[w := phase'],
               if phase'.SavingNewResource? && !s.handlers[w].SavingNewResource?
               then s.homes[uid := phase'.newResource.tenant] else s.homes)
  }

  ghost function Run(db: Db, steps: seq<Step>): System {
    if steps == [] then System(db, map[], map id | id in db.resources :: db.resources[id].tenant)
    else Next(Run(db, steps[..|steps| - 1]), steps[|steps| - 1])
  }

  // ----- a request with nothing beside it -----

  // Three steps end every request: the first one, a commit or a second lookup, and the row read back.
  ghost function Alone(db: Db, user: CurrentUser, request: Request, uid: Uuid): (Db, Phase) {
    var first := FirstStep(db, user, request, uid);
    var db', second := NextDb(db, first), NextPhase(db, first, uid);
    (NextDb(db', second), NextPhase(db', second, uid))
  }

  lemma FourSteps(db: Db, steps: seq<Step>)
    requires |steps| == 4
    ensures Run(db, steps) == Next(Next(Next(Next(Run(db, []), steps[0]), steps[1]), steps[2]), steps[3])
  {
    assert steps[..3][..2] == steps[..2] && steps[..2][..1] == steps[..1] && steps[..1][..0] == [];
    assert Run(db, steps[..1]) == Next(Run(db, []), steps[0]);
    assert Run(db, steps[..2]) == Next(Run(db, steps[..1]), steps[1]);
    assert Run(db, steps[..3]) == Next(Run(db, steps[..2]), steps[2]);
  }

  lemma Moves(s: System, w: nat, uid: Uuid)
    requires w in s.handlers && uid !in s.homes
    ensures var s' := Next(s, Proceed(w, uid));
            && w in s'.handlers && s'.db == NextDb(s.db, s.handlers[w])
            && s'.handlers[w] == NextPhase(s.db, s.handlers[w], uid)
            && s'.homes.Keys <= s.homes.Keys + {uid}
  {
  }

  lemma FirstMove(db: Db, w: nat, user: CurrentUser, request: Request, uid: Uuid)
    requires uid !in db.resources
    ensures var s := Next(Next(Run(db, []), Arrive(w, user, request)), Proceed(w, uid));
            && w in s.handlers && s.db == db && s.handlers[w] == FirstStep(db, user, request, uid)
            && s.homes.Keys <= db.resources.Keys + {uid}
  {
    var s1 := Next(Run(db, []), Arrive(w, user, request));
    assert s1.handlers[w] == Begin(user, request);
    Moves(s1, w, uid);
  }

  lemma FirstStepBegan(db: Db, user: CurrentUser, request: Request, uid: Uuid)
    ensures !FirstStep(db, user, request, uid).Begin?
  {
  }

  /**
   Left alone, a handler that takes its steps one after another does what Alone says; if it creates no row,
   whatever the uuids given out.
   */
  lemma AloneIsARun(db: Db, w: nat, user: CurrentUser, request: Request, uid: Uuid, uid2: Uuid, uid3: Uuid)
    requires uid !in db.resources && uid2 !in db.resources && uid3 !in db.resources
    requires uid != uid2 && uid != uid3 && uid2 != uid3
    ensures var s := Run(db, [Arrive(w, user, request), Proceed(w, uid), Proceed(w, uid2), Proceed(w, uid3)]);
            && w in s.handlers && (s.db, s.handlers[w]) == Alone(db, user, request, uid)
            && (!request.CreateUser? && !request.CreateResource? ==>
                  (s.db, s.handlers[w]) == Alone(db, user, request, 0))
  {
    var steps := [Arrive(w, user, request), Proceed(w, uid), Proceed(w, uid2), Proceed(w, uid3)];
    FourSteps(db, steps);
    FirstMove(db, w, user, request, uid);
    FirstStepBegan(db, user, request, uid);
    LastMoves(Next(Next(Run(db, []), steps[0]), steps[1]), w, uid, uid2, uid3);
    if !request.CreateUser? && !request.CreateResource? { AloneIgnoresUid(db, user, request, uid, 0); }
  }

  lemma LastMoves(s: System, w: nat, uid: Uuid, uid2: Uuid, uid3: Uuid)
    requires w in s.handlers && !s.handlers[w].Begin? && uid2 !in s.homes && uid3 !in s.homes && uid2 != uid3
    ensures var s' := Next(Next(s, Proceed(w, uid2)), Proceed(w, uid3));
            var db', second := NextDb(s.db, s.handlers[w]), NextPhase(s.db, s.handlers[w], uid);
            w in s'.handlers && s'.db == NextDb(db', second) && s'.handlers[w] == NextPhase(db', second, uid)
  {
    var phase := s.handlers[w];
    Moves(s, w, uid2);
    LaterIgnoresUid(s.db, phase, uid, uid2);
    Moves(Next(s, Proceed(w, uid2)), w, uid3);
    LaterIgnoresUid(NextDb(s.db, phase), NextPhase(s.db, phase, uid), uid, uid3);
  }

  lemma LaterIgnoresUid(db: Db, phase: Phase, u: Uuid, v: Uuid)
    requires !phase.Begin?
    ensures NextPhase(db, phase, u) == NextPhase(db, phase, v) && !NextPhase(db, phase, u).Begin?
    ensures !NextPhase(db, phase, u).SavingNewResource?
  {
  }

  // Only a request that creates a row uses the uuid4.
  lemma AloneIgnoresUid(db: Db, user: CurrentUser, request: Request, u: Uuid, v: Uuid)
    requires !request.CreateUser? && !request.CreateResource?
    ensures Alone(db, user, request, u) == Alone(db, user, request, v)
  {
    var first := FirstStep(db, user, request, u);
    assert first == FirstStep(db, user, request, v);
    LaterIgnoresUid(db, first, u, v);
    LaterIgnoresUid(NextDb(db, first), NextPhase(db, first, u), u, v);
  }

  // What an update's commit comes to with nothing in between.
  lemma AloneUpdatesUser(db: Db, user: CurrentUser, read: User, draft: UserDraft, uid: Uuid)
    requires Consistent(db) && read.id in db.users && db.users[read.id] == read
    ensures var phase := SavingUser(user, read, draft);
            var db', second := NextDb(db, phase), NextPhase(db, phase, uid);
            if UserUpdateClashes(db, read, draft) then (db', second) == (db, FailWith(user, 409))
            else
              var row := read.(email := draft.email.value, role := draft.role.value, status := draft.status.value);
              && db' == db.(users := db.users[read.id := row])
              && NextDb(db', second) == db' && NextPhase(db', second, uid) == Finished(user, Users({row}))
  {
    UpdateUserClashes(db, read, draft);
    if !UserUpdateClashes(db, read, draft) { UpdateUserWrites(db, read, draft); }
  }

  lemma AloneUpdatesResource(db: Db, user: CurrentUser, read: Resource, draft: ResourceDraft, uid: Uuid)
    requires Consistent(db) && read.id in db.resources && db.resources[read.id] == read
    ensures var phase := SavingResource(user, read, draft);
            var db', second := NextDb(db, phase), NextPhase(db, phase, uid);
            if ResourceUpdateClashes(db, read, draft) then (db', second) == (db, FailWith(user, 409))
            else
              var row := read.(name := draft.name.value, data := draft.data, url := draft.url);
              && db' == db.(resources := db.resources[read.id := row])
              && NextDb(db', second) == db' && NextPhase(db', second, uid) == Finished(user, Resources({row}))
  {
    UpdateResourceClashes(db, read, draft);
    if !ResourceUpdateClashes(db, read, draft) { UpdateResourceWrites(db, read, draft); }
  }

  lemma AloneChangesUser(db: Db, user: CurrentUser, key: UserRef, fields: seq<UserField>, uid: Uuid)
    requires Consistent(db) && MayEnter(user, ChangeUser(key, fields)) && FindUser(db.users, key).Some?
    requires TenantOf(user) == Some(FindUser(db.users, key).value.tenant)
    ensures var read := FindUser(db.users, key).value;
            var draft := SetUserFields(UserDraftOf(read), fields);
            Alone(db, user, ChangeUser(key, fields), uid)
            == if UserUpdateClashes(db, read, draft) then (db, FailWith(user, 409))
               else
                 var row := read.(email := draft.email.value, role := draft.role.value, status := draft.status.value);
                 (db.(users := db.users[read.id := row]), Finished(user, Users({row})))
  {
    var read := FindUser(db.users, key).value;
    AloneUpdatesUser(db, user, read, SetUserFields(UserDraftOf(read), fields), uid);
  }

  lemma AloneChangesResource(db: Db, user: CurrentUser, id: Uuid, fields: seq<ResourceField>, uid: Uuid)
    requires Consistent(db) && MayEnter(user, ChangeResource(id, fields)) && id in db.resources
    requires IsPlatformAdmin(user) || TenantOf(user) == Some(db.resources[id].tenant)
    ensures var read := db.resources[id];
            var draft := SetResourceFields(ResourceDraftOf(read), fields);
            Alone(db, user, ChangeResource(id, fields), uid)
            == if ResourceUpdateClashes(db, read, draft) then (db, FailWith(user, 409))
               else
                 var row := read.(name := draft.name.value, data := draft.data, url := draft.url);
                 (db.(resources := db.resources[id := row]), Finished(user, Resources({row})))
  {
    var read := db.resources[id];
    AloneUpdatesResource(db, user, read, SetResourceFields(ResourceDraftOf(read), fields), uid);
  }

  // ----- who may write a row of a tenant -----

  predicate MayWriteUser(user: CurrentUser, tenant: Uuid) {
    TENANT_ADMIN in user.roles && TenantOf(user) == Some(tenant)
  }

  // Another tenant's resources are written only by a holder of both a tenant role and platform_admin.
  predicate MayWriteResource(user: CurrentUser, tenant: Uuid) {
    && (TENANT_USER in user.roles || TENANT_ADMIN in user.roles)
    && (TenantOf(user) == Some(tenant) || IsPlatformAdmin(user))
  }

  ghost predicate ShowsOwn(user: CurrentUser, reply: Reply) {
    IsPlatformAdmin(user) ||
    (match reply
     case Users(rows) => forall u :: u in rows ==> TenantOf(user) == Some(u.tenant)
     case Resources(rows) => forall r :: r in rows ==> TenantOf(user) == Some(r.tenant)
     case Payments(rows) => forall p :: p in rows ==> TenantOf(user) == Some(p.tenant)
     case _ => true)
  }

  // ----- what a phase has established -----

  ghost predicate PhaseFits(s: System, phase: Phase) {
    match phase
    case SavingNewUser(user, row) => MayWriteUser(user, row.tenant)
    case SavingUser(user, read, _) =>
      read.id in s.db.users && s.db.users[read.id].tenant == read.tenant && MayWriteUser(user, read.tenant)
    case Disabling(user, read) =>
      read.id in s.db.users && s.db.users[read.id].tenant == read.tenant && MayWriteUser(user, read.tenant)
    case ReadBackUser(user, id) => id in s.db.users && MayWriteUser(user, s.db.users[id].tenant)
    case SavingNewResource(user, row) =>
      row.id in s.homes && s.homes[row.id] == row.tenant && TenantOf(user) == Some(row.tenant)
      && MayWriteResource(user, row.tenant)
    case SavingResource(user, read, _) =>
      read.id in s.homes && s.homes[read.id] == read.tenant && MayWriteResource(user, read.tenant)
    case Removing(user, id) => id in s.homes && TENANT_ADMIN in user.roles && MayWriteResource(user, s.homes[id])
    case ReadBackResource(user, id) => id in s.homes && MayWriteResource(user, s.homes[id])
    case Finished(user, reply) => ShowsOwn(user, reply)
    case _ => true
  }

  ghost predicate HomesFit(s: System) {
    forall id :: id in s.db.resources ==> id in s.homes && s.homes[id] == s.db.resources[id].tenant
  }

  ghost predicate Safe(s: System) {
    Consistent(s.db) && HomesFit(s) && forall w :: w in s.handlers ==> PhaseFits(s, s.handlers[w])
  }

  // ----- how the tables move -----

  ghost predicate KeepsTenants(s: System, s': System) {
    && s'.db.tenants == s.db.tenants
    && (forall id :: id in s.db.users ==> id in s'.db.users && s'.db.users[id].tenant == s.db.users[id].tenant)
    && (forall id :: id in s.homes ==> id in s'.homes && s'.homes[id] == s.homes[id])
  }

  /**
   Every write keeps the schema's constraints: unique ids, Keycloak ids, e-mails and names, tenants, roles,
   statuses.
   */
  lemma WritesKeepConsistent(db: Db, phase: Phase)
    requires Consistent(db)
    ensures Consistent(NextDb(db, phase))
  {
    match phase
    case SavingNewUser(_, row) => InsertUserConsistent(db, row);
    case SavingUser(_, read, draft) => UpdateUserConsistent(db, read, draft);
    case Disabling(_, read) => UpdateUserConsistent(db, read, Disabled(read));
    case SavingNewResource(_, row) => InsertResourceConsistent(db, row);
    case SavingResource(_, read, draft) => UpdateResourceConsistent(db, read, draft);
    case Removing(_, id) => DeleteResourceConsistent(db, id);
    case _ =>
  }

  lemma WriteKeepsTenants(db: Db, phase: Phase)
    requires Consistent(db)
    ensures var db' := NextDb(db, phase);
            && db'.tenants == db.tenants
            && (forall id :: id in db.users ==> id in db'.users && db'.users[id].tenant == db.users[id].tenant)
            && (forall id :: id in db.resources && id in db'.resources ==>
                  db'.resources[id].tenant == db.resources[id].tenant)
            && (forall id :: id in db'.resources && id !in db.resources ==>
                  phase.SavingNewResource? && db'.resources[id] == phase.newResource && id == phase.newResource.id)
  {
  }

  lemma StepKeepsTables(s: System, step: Step)
    requires Safe(s)
    ensures Consistent(Next(s, step).db) && HomesFit(Next(s, step)) && KeepsTenants(s, Next(s, step))
  {
    if step.Proceed? && step.worker in s.handlers && step.uid !in s.homes {
      assert PhaseFits(s, s.handlers[step.worker]);
      WritesKeepConsistent(s.db, s.handlers[step.worker]);
      WriteKeepsTenants(s.db, s.handlers[step.worker]);
    }
  }

  lemma FitsLater(s: System, s': System, phase: Phase)
    requires PhaseFits(s, phase) && KeepsTenants(s, s')
    ensures PhaseFits(s', phase)
  {
  }

  lemma ResourceStepFits(s: System, s': System, user: CurrentUser, request: Request, uid: Uuid)
    requires Safe(s) && KeepsTenants(s, s') && MayEnter(user, request)
    requires request.ListResources? || request.GetResource? || request.CreateResource? || request.ChangeResource?
             || request.RemoveResource?
    requires var p := ResourceStep(s.db, user, request, uid);
             p.SavingNewResource? ==> uid in s'.homes && s'.homes[uid] == p.newResource.tenant
    ensures PhaseFits(s', ResourceStep(s.db, user, request, uid))
  {
  }

  // The row the handler goes on with is of the caller's tenant.
  lemma OwnedRowIsOwn(db: Db, user: CurrentUser, request: Request, uid: Uuid)
    requires request.ChangeUser? || request.DeactivateUser?
    ensures var phase := UserStep(db, user, request, uid);
            || (phase.Finished? && phase.reply.Error?)
            || ((phase.SavingUser? || phase.Disabling?) && phase.user == user && phase.readUser in db.users.Values
                && TenantOf(user) == Some(phase.readUser.tenant))
  {
  }

  lemma OwnedUserFits(s: System, s': System, user: CurrentUser, request: Request, uid: Uuid)
    requires Safe(s) && KeepsTenants(s, s') && MayEnter(user, request)
    requires request.ChangeUser? || request.DeactivateUser?
    ensures PhaseFits(s', UserStep(s.db, user, request, uid))
  {
    OwnedRowIsOwn(s.db, user, request, uid);
    assert TENANT_ADMIN in user.roles;
    var phase := UserStep(s.db, user, request, uid);
    if !phase.Finished? {
      var id :| id in s.db.users && s.db.users[id] == phase.readUser;
    }
  }

  lemma UserStepFits(s: System, s': System, user: CurrentUser, request: Request, uid: Uuid)
    requires Safe(s) && KeepsTenants(s, s') && MayEnter(user, request)
    requires request.ListUsers? || request.GetUser? || request.CreateUser? || request.ChangeUser?
             || request.DeactivateUser?
    ensures PhaseFits(s', UserStep(s.db, user, request, uid))
  {
    if request.ChangeUser? || request.DeactivateUser? { OwnedUserFits(s, s', user, request, uid); }
  }

  lemma PaymentStepFits(s: System, s': System, user: CurrentUser, request: Request)
    requires request.ListPayments? || request.GetPayment?
    ensures PhaseFits(s', PaymentStep(s.db, user, request))
  {
  }

  lemma FirstStepFits(s: System, step: Step)
    requires Safe(s) && step.Proceed? && step.worker in s.handlers && step.uid !in s.homes
    requires s.handlers[step.worker].Begin?
    ensures PhaseFits(Next(s, step), Next(s, step).handlers[step.worker])
  {
    var s', phase := Next(s, step), s.handlers[step.worker];
    StepKeepsTables(s, step);
    if MayEnter(phase.user, phase.request) {
      var request := phase.request;
      if request.ListPayments? || request.GetPayment? {
        PaymentStepFits(s, s', phase.user, request);
      } else if request.ListUsers? || request.GetUser? || request.CreateUser? || request.ChangeUser?
                || request.DeactivateUser? {
        UserStepFits(s, s', phase.user, request, step.uid);
      } else {
        ResourceStepFits(s, s', phase.user, request, step.uid);
      }
    }
  }

  predicate WritesUser(phase: Phase) {
    phase.SavingNewUser? || phase.SavingUser? || phase.Disabling?
  }

  predicate WritesResource(phase: Phase) {
    phase.SavingNewResource? || phase.SavingResource? || phase.Removing?
  }

  predicate Writes(phase: Phase) {
    WritesUser(phase) || WritesResource(phase)
  }

  lemma NewUserFits(s: System, step: Step)
    requires Safe(s) && step.Proceed? && step.worker in s.handlers && step.uid !in s.homes
    requires s.handlers[step.worker].SavingNewUser?
    ensures PhaseFits(Next(s, step), Next(s, step).handlers[step.worker])
  {
    assert PhaseFits(s, s.handlers[step.worker]);
  }

  lemma ChangedUserFits(s: System, step: Step)
    requires Safe(s) && step.Proceed? && step.worker in s.handlers && step.uid !in s.homes
    requires s.handlers[step.worker].SavingUser? || s.handlers[step.worker].Disabling?
    ensures PhaseFits(Next(s, step), Next(s, step).handlers[step.worker])
  {
    assert PhaseFits(s, s.handlers[step.worker]);
    WriteKeepsTenants(s.db, s.handlers[step.worker]);
  }

  lemma ResourceWriteFits(s: System, step: Step)
    requires Safe(s) && step.Proceed? && step.worker in s.handlers && step.uid !in s.homes
    requires WritesResource(s.handlers[step.worker])
    ensures PhaseFits(Next(s, step), Next(s, step).handlers[step.worker])
  {
    assert PhaseFits(s, s.handlers[step.worker]);
  }

  lemma ReadStepFits(s: System, step: Step)
    requires Safe(s) && step.Proceed? && step.worker in s.handlers && step.uid !in s.homes
    requires !Writes(s.handlers[step.worker]) && !s.handlers[step.worker].Begin?
    ensures PhaseFits(Next(s, step), Next(s, step).handlers[step.worker])
  {
    assert PhaseFits(s, s.handlers[step.worker]);
  }

  lemma NextPhaseFits(s: System, step: Step)
    requires Safe(s) && step.Proceed? && step.worker in s.handlers && step.uid !in s.homes
    ensures PhaseFits(Next(s, step), Next(s, step).handlers[step.worker])
  {
    if s.handlers[step.worker].Begin? {
      FirstStepFits(s, step);
    } else if s.handlers[step.worker].SavingNewUser? {
      NewUserFits(s, step);
    } else if WritesUser(s.handlers[step.worker]) {
      ChangedUserFits(s, step);
    } else if WritesResource(s.handlers[step.worker]) {
      ResourceWriteFits(s, step);
    } else {
      ReadStepFits(s, step);
    }
  }

  lemma StepKeepsSafe(s: System, step: Step)
    requires Safe(s)
    ensures Safe(Next(s, step))
  {
    var s' := Next(s, step);
    StepKeepsTables(s, step);
    forall w | w in s'.handlers
      ensures PhaseFits(s', s'.handlers[w])
    {
      if step.Proceed? && w == step.worker && step.uid !in s.homes {
        NextPhaseFits(s, step);
      } else if w in s.handlers {
        FitsLater(s, s', s.handlers[w]);
      }
    }
  }

  /**
   Safe holds in every reachable state, so in each of them the constraints hold and every lookup matches at
   most one row.
   */
  lemma {:induction false} RunIsSafe(db: Db, steps: seq<Step>)
    requires Consistent(db)
    ensures Safe(Run(db, steps))
  {
    if steps != [] {
      RunIsSafe(db, steps[..|steps| - 1]);
      StepKeepsSafe(Run(db, steps[..|steps| - 1]), steps[|steps| - 1]);
    }
  }

  // ----- the laws -----

  /** Over any run no user row is lost or changes tenant, and no resource id ever stands for two tenants. */
  lemma {:induction false} TenantsNeverChange(db: Db, first: seq<Step>, second: seq<Step>)
    requires Consistent(db)
    ensures var before, after := Run(db, first), Run(db, first + second);
            && (forall id :: id in before.db.users ==>
                  id in after.db.users && after.db.users[id].tenant == before.db.users[id].tenant)
            && (forall id :: id in before.db.resources && id in after.db.resources ==>
                  after.db.resources[id].tenant == before.db.resources[id].tenant)
  {
    RunKeepsTenants(db, first, second);
    RunIsSafe(db, first);
    RunIsSafe(db, first + second);
  }

  lemma {:induction false} RunKeepsTenants(db: Db, first: seq<Step>, second: seq<Step>)
    requires Consistent(db)
    ensures KeepsTenants(Run(db, first), Run(db, first + second))
  {
    if second == [] {
      assert first + second == first;
    } else {
      var before := first + second[..|second| - 1];
      assert (first + second)[..|first + second| - 1] == before;
      RunKeepsTenants(db, first, second[..|second| - 1]);
      RunIsSafe(db, before);
      StepKeepsTables(Run(db, before), second[|second| - 1]);
    }
  }

  ghost predicate UserRowChanged(a: Db, b: Db, id: Uuid) {
    id in b.users && (id in a.users ==> a.users[id] != b.users[id])
  }

  ghost predicate ResourceRowChanged(a: Db, b: Db, id: Uuid) {
    (id in a.resources || id in b.resources)
    && (id in a.resources && id in b.resources ==> a.resources[id] != b.resources[id])
  }

  lemma UserWriteIsAuthorized(s: System, w: nat, uid: Uuid, id: Uuid)
    requires Safe(s) && w in s.handlers && uid !in s.homes
    requires UserRowChanged(s.db, Next(s, Proceed(w, uid)).db, id)
    ensures MayWriteUser(s.handlers[w].user, Next(s, Proceed(w, uid)).db.users[id].tenant)
  {
    assert PhaseFits(s, s.handlers[w]);
    WriteKeepsTenants(s.db, s.handlers[w]);
  }

  lemma ResourceWriteIsAuthorized(s: System, w: nat, uid: Uuid, id: Uuid)
    requires Safe(s) && w in s.handlers && uid !in s.homes
    requires ResourceRowChanged(s.db, Next(s, Proceed(w, uid)).db, id)
    ensures id in s.homes
    ensures var user, s' := s.handlers[w].user, Next(s, Proceed(w, uid));
            && MayWriteResource(user, s.homes[id])
            && (id !in s.db.resources ==> TenantOf(user) == Some(s.homes[id]))
            && (id !in s'.db.resources ==> TENANT_ADMIN in user.roles)
  {
    assert PhaseFits(s, s.handlers[w]);
    WriteKeepsTenants(s.db, s.handlers[w]);
  }

  /**
   In any run a user row is written only by a tenant_admin of its tenant, and a resource row only by a
   caller with a tenant role who is of its tenant or also holds platform_admin; a new resource is always
   of the caller's tenant, and only a tenant_admin removes one.
   */
  lemma WritesAreAuthorized(db: Db, steps: seq<Step>, step: Step, id: Uuid)
    requires Consistent(db)
    ensures var s := Run(db, steps);
            var s' := Next(s, step);
            && (UserRowChanged(s.db, s'.db, id) ==>
                  step.Proceed? && step.worker in s.handlers
                  && MayWriteUser(s.handlers[step.worker].user, s'.db.users[id].tenant))
            && (ResourceRowChanged(s.db, s'.db, id) ==>
                  step.Proceed? && step.worker in s.handlers && id in s'.homes
                  && var user := s.handlers[step.worker].user;
                     && MayWriteResource(user, s'.homes[id])
                     && (id !in s.db.resources ==> TenantOf(user) == Some(s'.homes[id]))
                     && (id !in s'.db.resources ==> TENANT_ADMIN in user.roles))
  {
    RunIsSafe(db, steps);
    var s := Run(db, steps);
    if step.Proceed? && step.worker in s.handlers && step.uid !in s.homes {
      if UserRowChanged(s.db, Next(s, step).db, id) { UserWriteIsAuthorized(s, step.worker, step.uid, id); }
      if ResourceRowChanged(s.db, Next(s, step).db, id) {
        ResourceWriteIsAuthorized(s, step.worker, step.uid, id);
        StepKeepsTables(s, step);
      }
    }
  }

  /** In any run a caller without platform_admin is only ever answered with rows of the caller's own tenant. */
  lemma RepliesStayInTenant(db: Db, steps: seq<Step>, w: nat)
    requires Consistent(db)
    requires w in Run(db, steps).handlers && Run(db, steps).handlers[w].Finished?
    requires !IsPlatformAdmin(Run(db, steps).handlers[w].user)
    ensures match Run(db, steps).handlers[w].reply
            case Users(rows) => forall u :: u in rows ==> TenantOf(Run(db, steps).handlers[w].user) == Some(u.tenant)
            case Resources(rows) => forall r :: r in rows ==> TenantOf(Run(db, steps).handlers[w].user) == Some(r.tenant)
            case Payments(rows) => forall p :: p in rows ==> TenantOf(Run(db, steps).handlers[w].user) == Some(p.tenant)
            case _ => true
  {
    RunIsSafe(db, steps);
    assert PhaseFits(Run(db, steps), Run(db, steps).handlers[w]);
  }

  // ----- what is answered: the caller's rows, all of them -----

  // The rows a caller's list covers: those of one tenant, or with None all.
  function Scope(user: CurrentUser, asked: Option<Uuid>): Option<Uuid> {
    if IsPlatformAdmin(user) then asked else TenantOf(user)
  }

  // What _required_tenant_id answers a caller whose claim names no tenant.
  function ClaimError(user: CurrentUser): Reply
    requires TenantOf(user).None?
  {
    Error(if user.tenant.None? then 403 else 500)
  }

  /**
   Lists are complete: every caller gets exactly the rows of the scope, no more and no fewer, or the error its
   roles or its tenant claim call for. Listing users answers 500 even without a claim.
   */
  lemma ListsAreComplete(db: Db, user: CurrentUser, asked: Option<Uuid>, uid: Uuid)
    ensures var scope, staff := Scope(user, asked), IsPlatformAdmin(user) || TENANT_ADMIN in user.roles;
            var lost := !IsPlatformAdmin(user) && TenantOf(user).None?;
            var users := FirstStep(db, user, ListUsers(asked), uid);
            var resources := FirstStep(db, user, ListResources(asked), uid);
            var payments := FirstStep(db, user, ListPayments(asked), uid);
            && users.Finished? && resources.Finished? && payments.Finished?
            && (if !staff then users.reply == Error(403)
                else if lost then users.reply == Error(500)
                else
                  users.reply.Users? && forall u :: u in users.reply.users <==>
                    u in db.users.Values && (scope.None? || u.tenant == scope.value))
            && (if !staff then payments.reply == Error(403)
                else if lost then payments.reply == ClaimError(user)
                else
                  payments.reply.Payments? && forall p :: p in payments.reply.payments <==>
                    p in db.payments.Values && (scope.None? || p.tenant == scope.value))
            && (if !staff && TENANT_USER !in user.roles then resources.reply == Error(403)
                else if lost then resources.reply == ClaimError(user)
                else
                  resources.reply.Resources? && forall r :: r in resources.reply.resources <==>
                    r in db.resources.Values && (scope.None? || r.tenant == scope.value))
  {
    GateMeansRole(user);
  }

  lemma GateMeansRole(user: CurrentUser)
    ensures forall gate :: PLATFORM_ADMIN in user.roles && PLATFORM_ADMIN in gate ==> PassesGate(user.roles, gate)
    ensures forall gate :: TENANT_ADMIN in user.roles && TENANT_ADMIN in gate ==> PassesGate(user.roles, gate)
    ensures forall gate :: TENANT_USER in user.roles && TENANT_USER in gate ==> PassesGate(user.roles, gate)
  {
  }

  // To whom a user row is shown: platform_admin, the tenant's admins, and the user the subject or e-mail names.
  predicate Sees(user: CurrentUser, row: User) {
    || IsPlatformAdmin(user)
    || (&& user.tenant == Some(TenantClaim(Some(row.tenant), true))
        && (TENANT_ADMIN in user.roles || row.keycloak == user.id || (row.email != "" && user.email == Some(row.email))))
  }

  // A caller with one of the three roles.
  predicate MayRead(user: CurrentUser) {
    IsPlatformAdmin(user) || TENANT_USER in user.roles || TENANT_ADMIN in user.roles
  }

  // What a caller gets that asks for a row of this tenant.
  function AnswerFor(user: CurrentUser, tenant: Uuid, shown: Reply): Reply {
    if IsPlatformAdmin(user) || TenantOf(user) == Some(tenant) then shown
    else if TenantOf(user).None? then ClaimError(user)
    else Error(403)
  }

  // The row the self-lookup finds by the caller's e-mail.
  predicate OwnRow(user: CurrentUser, row: User) {
    TenantOf(user) == Some(row.tenant) && user.email == Some(row.email)
  }

  /**
   A resource or payment is shown to exactly the right callers: 403 without a role, 404 without such a row, the
   row to platform_admin and its own tenant, an error to others.
   */
  lemma ReadsAreExact(db: Db, user: CurrentUser, id: Uuid, uid: Uuid)
    ensures Alone(db, user, GetResource(id), uid)
         == (db, Finished(user, if !MayRead(user) then Error(403)
                                else if id !in db.resources then Error(404)
                                else AnswerFor(user, db.resources[id].tenant, Resources({db.resources[id]}))))
    ensures Alone(db, user, GetPayment(id), uid)
         == (db, Finished(user, if !MayRead(user) then Error(403)
                                else if id !in db.payments then Error(404)
                                else AnswerFor(user, db.payments[id].tenant, Payments({db.payments[id]}))))
  {
    ResourceReadIsExact(db, user, id, uid);
    PaymentReadIsExact(db, user, id, uid);
  }

  ghost predicate Unmatched(db: Db, key: UserRef) {
    forall j :: !Named(db, key, j)
  }

  // The caller asks for itself, by its subject or as "me", and has an e-mail.
  predicate AsksForItself(user: CurrentUser, key: UserRef) {
    (key.text == user.id || key.text == "me") && user.email.Some?
  }

  // No user has the caller's e-mail in the caller's tenant.
  ghost predicate Unknown(db: Db, user: CurrentUser) {
    forall j :: j in db.users ==> !OwnRow(user, db.users[j])
  }

  /**
   So is a user row. One found by its key is shown as `Sees` says. A caller that asks for itself and is found
   by no key is looked up by e-mail in its tenant: the claim's error, 404 without a row, or that row, shown as
   `Sees` says.
   */
  lemma UserReadsAreExact(db: Db, user: CurrentUser, id: Uuid, key: UserRef, uid: Uuid)
    requires Consistent(db)
    ensures !MayRead(user) ==> Alone(db, user, GetUser(key), uid) == (db, FailWith(user, 403))
    ensures MayRead(user) && Named(db, key, id) ==>
              Alone(db, user, GetUser(key), uid)
              == (db, Finished(user, if Sees(user, db.users[id]) then Users({db.users[id]}) else Error(403)))
    ensures MayRead(user) && Unmatched(db, key) && !AsksForItself(user, key) ==>
              Alone(db, user, GetUser(key), uid) == (db, FailWith(user, 404))
    ensures MayRead(user) && Unmatched(db, key) && AsksForItself(user, key) ==>
              && (TenantOf(user).None? ==>
                    Alone(db, user, GetUser(key), uid) == (db, Finished(user, ClaimError(user))))
              && (TenantOf(user).Some? && Unknown(db, user) ==>
                    Alone(db, user, GetUser(key), uid) == (db, FailWith(user, 404)))
              && (id in db.users && OwnRow(user, db.users[id]) ==>
                    Alone(db, user, GetUser(key), uid)
                    == (db, Finished(user, if Sees(user, db.users[id]) then Users({db.users[id]}) else Error(403))))
  {
    MayReadIsGate(user, key);
    NamedIsFound(db, key, id);
    if !MayRead(user) {
      StrangerReadsNothing(db, user, key, uid);
    } else if Named(db, key, id) {
      UserReadIsExact(db, user, id, key, uid);
    } else if Unmatched(db, key) && IsSelfLookup(key, user) {
      SelfReadIsExact(db, user, id, key, uid);
    } else if Unmatched(db, key) {
      UnmatchedIsNotFound(db, user, key, uid);
    }
  }

  lemma MayReadIsGate(user: CurrentUser, key: UserRef)
    ensures MayRead(user) <==> MayEnter(user, GetUser(key))
  {
    GateMeansRole(user);
  }

  lemma StrangerReadsNothing(db: Db, user: CurrentUser, key: UserRef, uid: Uuid)
    requires !MayEnter(user, GetUser(key))
    ensures Alone(db, user, GetUser(key), uid) == (db, FailWith(user, 403))
  {
  }

  lemma UnmatchedIsNotFound(db: Db, user: CurrentUser, key: UserRef, uid: Uuid)
    requires Consistent(db) && MayEnter(user, GetUser(key)) && Unmatched(db, key) && !IsSelfLookup(key, user)
    ensures Alone(db, user, GetUser(key), uid) == (db, FailWith(user, 404))
  {
    NamedIsFound(db, key, 0);
  }

  lemma ResourceReadIsExact(db: Db, user: CurrentUser, id: Uuid, uid: Uuid)
    ensures Alone(db, user, GetResource(id), uid)
         == (db, Finished(user, if !MayRead(user) then Error(403)
                                else if id !in db.resources then Error(404)
                                else AnswerFor(user, db.resources[id].tenant, Resources({db.resources[id]}))))
  {
    GateMeansRole(user);
  }

  lemma PaymentReadIsExact(db: Db, user: CurrentUser, id: Uuid, uid: Uuid)
    ensures Alone(db, user, GetPayment(id), uid)
         == (db, Finished(user, if !MayRead(user) then Error(403)
                                else if id !in db.payments then Error(404)
                                else AnswerFor(user, db.payments[id].tenant, Payments({db.payments[id]}))))
  {
    GateMeansRole(user);
  }

  lemma UserReadIsExact(db: Db, user: CurrentUser, id: Uuid, key: UserRef, uid: Uuid)
    requires Consistent(db) && Named(db, key, id) && MayEnter(user, GetUser(key))
    ensures Alone(db, user, GetUser(key), uid)
         == (db, Finished(user, if Sees(user, db.users[id]) then Users({db.users[id]}) else Error(403)))
  {
    NamedIsFound(db, key, id);
  }

  lemma SelfReadIsExact(db: Db, user: CurrentUser, id: Uuid, key: UserRef, uid: Uuid)
    requires Consistent(db) && MayEnter(user, GetUser(key)) && IsSelfLookup(key, user)
    requires Unmatched(db, key)
    ensures TenantOf(user).None? ==>
              Alone(db, user, GetUser(key), uid) == (db, Finished(user, ClaimError(user)))
    ensures TenantOf(user).Some? && Unknown(db, user) ==>
              Alone(db, user, GetUser(key), uid) == (db, FailWith(user, 404))
    ensures id in db.users && OwnRow(user, db.users[id]) ==>
              Alone(db, user, GetUser(key), uid)
              == (db, Finished(user, if Sees(user, db.users[id]) then Users({db.users[id]}) else Error(403)))
  {
    NamedIsFound(db, key, id);
    assert FirstStep(db, user, GetUser(key), uid)
        == if TenantOf(user).None? then Finished(user, ClaimError(user)) else SelfLookup(user);
    if TenantOf(user).Some? {
      var found := FindByEmail(db.users, TenantOf(user).value, user.email.value);
      if id in db.users && OwnRow(user, db.users[id]) {
        var j :| j in db.users && db.users[j] == found.value;
        LookupsAreUnique(db, id, j, key, TenantOf(user).value, user.email.value);
      }
    }
  }

  // ----- which writes are refused -----

  // When the commit a handler is about to make answers 409.
  predicate Conflicts(db: Db, phase: Phase) {
    match phase
    case SavingNewUser(_, row) => UserClashes(db, row)
    case SavingUser(_, read, draft) => UserUpdateClashes(db, read, draft)
    case SavingNewResource(_, row) => ResourceClashes(db, row)
    case SavingResource(_, read, draft) => read.id in db.resources && ResourceUpdateClashes(db, read, draft)
    case _ => false
  }

  lemma AttemptConflicts(s: System, phase: Phase)
    requires Safe(s) && PhaseFits(s, phase)
    ensures Attempt(s.db, phase).Conflict? <==> Conflicts(s.db, phase)
    ensures Attempt(s.db, phase).Stale? ==> phase.SavingResource? && phase.readResource.id !in s.db.resources
  {
    match phase
    case SavingNewUser(_, row) => InsertUserClashes(s.db, row);
    case SavingUser(_, read, draft) => UpdateUserClashes(s.db, read, draft);
    case Disabling(_, read) => DisablingNeverFails(s.db, read);
    case SavingNewResource(_, row) => InsertResourceClashes(s.db, row);
    case SavingResource(_, read, draft) =>
      if read.id in s.db.resources { UpdateResourceClashes(s.db, read, draft); }
    case _ =>
  }

  /**
   In any run a handler's commit answers 409 exactly when a unique key, a foreign key, a check or a NOT NULL
   stands against it, 500 only when the resource to update was removed meanwhile, and in both cases every
   table stays as it was. Disabling a user never fails.
   */
  lemma ConflictChangesNothing(db: Db, steps: seq<Step>, w: nat, uid: Uuid)
    requires Consistent(db)
    requires w in Run(db, steps).handlers && Writes(Run(db, steps).handlers[w]) && uid !in Run(db, steps).homes
    ensures var s := Run(db, steps);
            var s' := Next(s, Proceed(w, uid));
            var phase, after := s.handlers[w], s'.handlers[w];
            && (after == FailWith(phase.user, 409) <==> Conflicts(s.db, phase))
            && (after == FailWith(phase.user, 500) ==>
                  phase.SavingResource? && phase.readResource.id !in s.db.resources)
            && (after == FailWith(phase.user, 409) || after == FailWith(phase.user, 500) ==> s'.db == s.db)
            && (phase.Disabling? ==> after == Finished(phase.user, NoContent))
  {
    RunIsSafe(db, steps);
    var s := Run(db, steps);
    assert PhaseFits(s, s.handlers[w]);
    AttemptConflicts(s, s.handlers[w]);
  }
}
