/** What each writing request of the user and resource services, left alone, does to the tables and answers. */
module TenantWrites {
  import opened Options
  import opened Accounts
  import opened Roles
  import opened Callers
  import opened TenantRuns

  // ----- the schema, column by column -----

  // Another user stands in the way of this row.
  ghost predicate UserInTheWay(db: Db, u: User) {
    exists id :: id in db.users && id != u.id &&
      (db.users[id].keycloak == u.keycloak || (db.users[id].tenant == u.tenant && db.users[id].email == u.email))
  }

  ghost predicate UserAccepted(db: Db, u: User) {
    && u.tenant in db.tenants && u.role in {"tenant_admin", "tenant_user", "platform_admin"}
    && u.status in {"active", "disabled", "deleted"} && !UserInTheWay(db, u)
  }

  ghost predicate NameInTheWay(db: Db, r: Resource) {
    exists id :: id in db.resources && id != r.id && db.resources[id].tenant == r.tenant
                 && db.resources[id].name == r.name
  }

  ghost predicate ResourceAccepted(db: Db, r: Resource) {
    r.tenant in db.tenants && !NameInTheWay(db, r)
  }

  lemma SchemaMeaning(db: Db, u: User, r: Resource)
    ensures UserFits(db, u) <==> UserAccepted(db, u)
    ensures ResourceFits(db, r) <==> ResourceAccepted(db, r)
  {
  }

  // ----- inserts -----

  /** POST /users: tenant_admin only, in the caller's own tenant, and 409 exactly where the schema refuses the row. */
  lemma CreateUserAnswer(db: Db, user: CurrentUser, inTenant: Option<Uuid>, keycloak: string, email: string,
                         role: string, uid: Uuid)
    ensures Alone(db, user, CreateUser(inTenant, keycloak, email, role), uid)
         == if "tenant_admin" !in user.roles then (db, FailWith(user, 403))
            else if TenantOf(user).None? then (db, Finished(user, ClaimError(user)))
            else if inTenant.Some? && inTenant != TenantOf(user) then (db, FailWith(user, 403))
            else
              var row := User(uid, keycloak, TenantOf(user).value, email, role, "active");
              if uid in db.users || !UserAccepted(db, row) then (db, FailWith(user, 409))
              else (db.(users := db.users[uid := row]), Finished(user, Users({row})))
  {
    GateMeansRole(user);
    SchemaMeaning(db, User(uid, keycloak, TenantOf(user).GetOr(0), email, role, "active"),
                  Resource(0, 0, "", "", "", None));
  }

  /**
   POST /resources: a tenant role, owned by the caller in the caller's own tenant, 409 exactly for a name taken
   there, an unknown tenant or a taken id.
   */
  lemma CreateResourceAnswer(db: Db, user: CurrentUser, name: string, data: string, url: Option<string>, uid: Uuid)
    ensures Alone(db, user, CreateResource(name, data, url), uid)
         == if "tenant_user" !in user.roles && "tenant_admin" !in user.roles then (db, FailWith(user, 403))
            else if TenantOf(user).None? then (db, Finished(user, ClaimError(user)))
            else
              var row := Resource(uid, TenantOf(user).value, user.id, name, data, url);
              if uid in db.resources || !ResourceAccepted(db, row) then (db, FailWith(user, 409))
              else (db.(resources := db.resources[uid := row]), Finished(user, Resources({row})))
  {
    GateMeansRole(user);
    SchemaMeaning(db, User(0, "", 0, "", "", ""),
                  Resource(uid, TenantOf(user).GetOr(0), user.id, name, data, url));
  }

  // ----- users that are there -----

  /**
   DELETE /users: tenant_admin only, 404 without the user, and a user of the caller's tenant is disabled and
   stays.
   */
  lemma DeactivateAnswer(db: Db, user: CurrentUser, key: UserRef, id: Uuid, uid: Uuid)
    requires Consistent(db)
    ensures "tenant_admin" !in user.roles ==> Alone(db, user, DeactivateUser(key), uid) == (db, FailWith(user, 403))
    ensures "tenant_admin" in user.roles && (forall j :: !Named(db, key, j)) ==>
              Alone(db, user, DeactivateUser(key), uid) == (db, FailWith(user, 404))
    ensures "tenant_admin" in user.roles && Named(db, key, id) ==>
              Alone(db, user, DeactivateUser(key), uid)
              == if TenantOf(user).None? then (db, Finished(user, ClaimError(user)))
                 else if TenantOf(user) != Some(db.users[id].tenant) then (db, FailWith(user, 403))
                 else (db.(users := db.users[id := db.users[id].(status := "disabled")]), Finished(user, NoContent))
  {
    GateMeansRole(user);
    NamedIsFound(db, key, id);
    if Named(db, key, id) { DisablingNeverFails(db, db.users[id]); }
  }

  // The columns after the fields given, each with its last value; None is a null.
  ghost predicate UserAfter(row: User, fields: seq<UserField>, email: Option<string>, role: Option<string>,
                            status: Option<string>) {
    && LastGiven(fields, EmailIn, Some(row.email), email) && LastGiven(fields, RoleIn, Some(row.role), role)
    && LastGiven(fields, StatusIn, Some(row.status), status)
  }

  /**
   PUT /users: tenant_admin only, 404 without the user, and a user of the caller's tenant gets the last value
   of each field, or 409 exactly where the schema refuses the row.
   */
  lemma ChangeUserAnswer(db: Db, user: CurrentUser, key: UserRef, fields: seq<UserField>, id: Uuid, uid: Uuid,
                         email: Option<string>, role: Option<string>, status: Option<string>)
    requires Consistent(db) && (Named(db, key, id) ==> UserAfter(db.users[id], fields, email, role, status))
    ensures "tenant_admin" !in user.roles ==>
              Alone(db, user, ChangeUser(key, fields), uid) == (db, FailWith(user, 403))
    ensures "tenant_admin" in user.roles && (forall j :: !Named(db, key, j)) ==>
              Alone(db, user, ChangeUser(key, fields), uid) == (db, FailWith(user, 404))
    ensures "tenant_admin" in user.roles && Named(db, key, id) ==>
              Alone(db, user, ChangeUser(key, fields), uid)
              == if TenantOf(user).None? then (db, Finished(user, ClaimError(user)))
                 else if TenantOf(user) != Some(db.users[id].tenant) then (db, FailWith(user, 403))
                 else if email.None? || role.None? || status.None? then (db, FailWith(user, 409))
                 else
                   var row := User(id, db.users[id].keycloak, db.users[id].tenant, email.value, role.value,
                                   status.value);
                   if !UserAccepted(db, row) then (db, FailWith(user, 409))
                   else (db.(users := db.users[id := row]), Finished(user, Users({row})))
  {
    GateMeansRole(user);
    NamedIsFound(db, key, id);
    if "tenant_admin" in user.roles && Named(db, key, id) && TenantOf(user) == Some(db.users[id].tenant) {
      UserFieldsDetermine(UserDraftOf(db.users[id]), fields, UserDraft(email, role, status));
      AloneChangesUser(db, user, key, fields, uid);
      UpdateRefused(db, db.users[id], UserDraft(email, role, status));
    }
  }

  lemma UpdateRefused(db: Db, read: User, d: UserDraft)
    requires Consistent(db) && read.id in db.users && db.users[read.id] == read
    ensures UserUpdateClashes(db, read, d)
       <==> || d.email.None? || d.role.None? || d.status.None?
            || !UserAccepted(db, read.(email := d.email.value, role := d.role.value, status := d.status.value))
  {
    assert UserFits(db, read);
    SchemaMeaning(db, read, Resource(0, 0, "", "", "", None));
  }

  // ----- resources that are there -----

  // The caller may do this at all, and what a caller gets that may not touch a row of this tenant.
  function Barred(user: CurrentUser, tenant: Uuid): Option<Reply> {
    if IsPlatformAdmin(user) || TenantOf(user) == Some(tenant) then None
    else if TenantOf(user).None? then Some(ClaimError(user))
    else Some(Error(403))
  }

  function Without(rows: map<Uuid, Resource>, id: Uuid): map<Uuid, Resource> {
    map j | j in rows && j != id :: rows[j]
  }

  /**
   DELETE /resources: tenant_admin only, 404 without the row, and the row is gone for platform_admin or its own
   tenant.
   */
  lemma RemoveAnswer(db: Db, user: CurrentUser, id: Uuid, uid: Uuid)
    requires Consistent(db)
    ensures Alone(db, user, RemoveResource(id), uid)
         == if "tenant_admin" !in user.roles then (db, FailWith(user, 403))
            else if id !in db.resources then (db, FailWith(user, 404))
            else if Barred(user, db.resources[id].tenant).Some?
            then (db, Finished(user, Barred(user, db.resources[id].tenant).value))
            else (db.(resources := Without(db.resources, id)), Finished(user, NoContent))
  {
    GateMeansRole(user);
    if id in db.resources { assert db.resources[id].id == id && db.resources - {id} == Without(db.resources, id); }
  }

  ghost predicate ResourceAfter(row: Resource, fields: seq<ResourceField>, name: Option<string>, data: string,
                                url: Option<string>) {
    && LastGiven(fields, NameIn, Some(row.name), name) && LastGiven(fields, DataIn, row.data, data)
    && LastGiven(fields, UrlIn, row.url, url)
  }

  /**
   PUT /resources: a tenant role, 404 without the row, and the row gets the last value of each field for
   platform_admin or its own tenant, or 409 exactly for no name or one taken there.
   */
  lemma ChangeResourceAnswer(db: Db, user: CurrentUser, id: Uuid, fields: seq<ResourceField>, uid: Uuid,
                             name: Option<string>, data: string, url: Option<string>)
    requires Consistent(db) && (id in db.resources ==> ResourceAfter(db.resources[id], fields, name, data, url))
    ensures Alone(db, user, ChangeResource(id, fields), uid)
         == if "tenant_user" !in user.roles && "tenant_admin" !in user.roles then (db, FailWith(user, 403))
            else if id !in db.resources then (db, FailWith(user, 404))
            else if Barred(user, db.resources[id].tenant).Some?
            then (db, Finished(user, Barred(user, db.resources[id].tenant).value))
            else if name.None? then (db, FailWith(user, 409))
            else
              var row := Resource(id, db.resources[id].tenant, db.resources[id].owner, name.value, data, url);
              if NameInTheWay(db, row) then (db, FailWith(user, 409))
              else (db.(resources := db.resources[id := row]), Finished(user, Resources({row})))
  {
    GateMeansRole(user);
    if MayEnter(user, ChangeResource(id, fields)) && id in db.resources
       && Barred(user, db.resources[id].tenant).None? {
      ResourceFieldsDetermine(ResourceDraftOf(db.resources[id]), fields, ResourceDraft(name, data, url));
      AloneChangesResource(db, user, id, fields, uid);
      RenameRefused(db, db.resources[id], ResourceDraft(name, data, url));
    }
  }

  lemma RenameRefused(db: Db, read: Resource, d: ResourceDraft)
    requires Consistent(db) && read.id in db.resources && db.resources[read.id] == read
    ensures ResourceUpdateClashes(db, read, d)
       <==> d.name.None? || NameInTheWay(db, read.(name := d.name.value, data := d.data, url := d.url))
  {
    assert ResourceFits(db, read);
  }
}
