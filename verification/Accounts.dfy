/** The users and resources tables with their constraints, and the writes the two services make. */
module Accounts {
  import opened Options
  import PaymentTables

  type Uuid = PaymentTables.Uuid
  type Payment = PaymentTables.Payment

  datatype User = User(id: Uuid, keycloak: string, tenant: Uuid, email: string, role: string, status: string)

  // `data` is the text of the JSON column, where a null is stored as the JSON value null.
  datatype Resource = Resource(id: Uuid, tenant: Uuid, owner: string, name: string, data: string, url: Option<string>)

  datatype Db = Db(tenants: set<Uuid>, users: map<Uuid, User>, resources: map<Uuid, Resource>,
                   payments: map<Uuid, Payment>)

  const USER_ROLES := {"tenant_admin", "tenant_user", "platform_admin"}
  const USER_STATUSES := {"active", "disabled", "deleted"}

  // ----- constraints, for a row that is to stand beside the rows of the other ids -----

  predicate UserFits(db: Db, u: User) {
    && u.tenant in db.tenants && u.role in USER_ROLES && u.status in USER_STATUSES
    && forall id :: id in db.users && id != u.id ==>
         db.users[id].keycloak != u.keycloak && (db.users[id].tenant != u.tenant || db.users[id].email != u.email)
  }

  predicate ResourceFits(db: Db, r: Resource) {
    && r.tenant in db.tenants
    && forall id :: id in db.resources && id != r.id ==>
         db.resources[id].tenant != r.tenant || db.resources[id].name != r.name
  }

  ghost predicate Consistent(db: Db) {
    && (forall id :: id in db.users ==> db.users[id].id == id && UserFits(db, db.users[id]))
    && (forall id :: id in db.resources ==> db.resources[id].id == id && ResourceFits(db, db.resources[id]))
  }

  // Done with the new tables, an IntegrityError, or an UPDATE that matched no row.
  datatype Written = Wrote(db: Db) | Conflict | Stale

  // ----- inserts -----

  function InsertUser(db: Db, u: User): Written {
    if u.id !in db.users && UserFits(db, u) then Wrote(db.(users := db.users[u.id := u])) else Conflict
  }

  function InsertResource(db: Db, r: Resource): Written {
    if r.id !in db.resources && ResourceFits(db, r) then Wrote(db.(resources := db.resources[r.id := r])) else Conflict
  }

  // ----- updates: a field set to null is None -----

  datatype UserField = Email(email: Option<string>) | Role(role: Option<string>) | Status(status: Option<string>)
  datatype UserDraft = UserDraft(email: Option<string>, role: Option<string>, status: Option<string>)

  function UserDraftOf(u: User): UserDraft {
    UserDraft(Some(u.email), Some(u.role), Some(u.status))
  }

  function SetUserField(d: UserDraft, f: UserField): UserDraft {
    match f
    case Email(e) => d.(email := e)
    case Role(r) => d.(role := r)
    case Status(s) => d.(status := s)
  }

  function SetUserFields(d: UserDraft, fields: seq<UserField>): UserDraft {
    if fields == [] then d else SetUserField(SetUserFields(d, fields[..|fields| - 1]), fields[|fields| - 1])
  }

  // Only the attributes that differ from those read are written, over whatever the row holds by now.
  function UpdateUser(db: Db, read: User, d: UserDraft): Written {
    if d == UserDraftOf(read) then Wrote(db)
    else if read.id !in db.users then Stale
    else if d.email.None? || d.role.None? || d.status.None? then Conflict
    else
      var now := db.users[read.id];
      var row := now.(email := if d.email.value != read.email then d.email.value else now.email,
                      role := if d.role.value != read.role then d.role.value else now.role,
                      status := if d.status.value != read.status then d.status.value else now.status);
      if UserFits(db, row) then Wrote(db.(users := db.users[row.id := row])) else Conflict
  }

  datatype ResourceField = Name(name: Option<string>) | Data(data: string) | Url(url: Option<string>)
  datatype ResourceDraft = ResourceDraft(name: Option<string>, data: string, url: Option<string>)

  function ResourceDraftOf(r: Resource): ResourceDraft {
    ResourceDraft(Some(r.name), r.data, r.url)
  }

  function SetResourceField(d: ResourceDraft, f: ResourceField): ResourceDraft {
    match f
    case Name(n) => d.(name := n)
    case Data(t) => d.(data := t)
    case Url(u) => d.(url := u)
  }

  function SetResourceFields(d: ResourceDraft, fields: seq<ResourceField>): ResourceDraft {
    if fields == [] then d else SetResourceField(SetResourceFields(d, fields[..|fields| - 1]), fields[|fields| - 1])
  }

  function UpdateResource(db: Db, read: Resource, d: ResourceDraft): Written {
    if d == ResourceDraftOf(read) then Wrote(db)
    else if read.id !in db.resources then Stale
    else if d.name.None? then Conflict
    else
      var now := db.resources[read.id];
      var row := now.(name := if d.name.value != read.name then d.name.value else now.name,
                      data := if d.data != read.data then d.data else now.data,
                      url := if d.url != read.url then d.url else now.url);
      if ResourceFits(db, row) then Wrote(db.(resources := db.resources[row.id := row])) else Conflict
  }

  // A DELETE that matches no row is no error.
  function DeleteResource(db: Db, id: Uuid): Db {
    db.(resources := db.resources - {id})
  }

  // ----- which writes clash, read off the rows -----

  predicate EmailTaken(db: Db, tenant: Uuid, email: string, except: Uuid) {
    exists id :: id in db.users && id != except && db.users[id].tenant == tenant && db.users[id].email == email
  }

  predicate KeycloakTaken(db: Db, keycloak: string, except: Uuid) {
    exists id :: id in db.users && id != except && db.users[id].keycloak == keycloak
  }

  predicate NameTaken(db: Db, tenant: Uuid, name: string, except: Uuid) {
    exists id :: id in db.resources && id != except && db.resources[id].tenant == tenant && db.resources[id].name == name
  }

  predicate UserClashes(db: Db, u: User) {
    || u.id in db.users || u.tenant !in db.tenants || u.role !in USER_ROLES || u.status !in USER_STATUSES
    || KeycloakTaken(db, u.keycloak, u.id) || EmailTaken(db, u.tenant, u.email, u.id)
  }

  predicate UserUpdateClashes(db: Db, read: User, d: UserDraft) {
    || d.email.None? || d.role.None? || d.status.None?
    || (d.role.value != read.role && d.role.value !in USER_ROLES)
    || (d.status.value != read.status && d.status.value !in USER_STATUSES)
    || (d.email.value != read.email && EmailTaken(db, read.tenant, d.email.value, read.id))
  }

  predicate ResourceClashes(db: Db, r: Resource) {
    r.id in db.resources || r.tenant !in db.tenants || NameTaken(db, r.tenant, r.name, r.id)
  }

  predicate ResourceUpdateClashes(db: Db, read: Resource, d: ResourceDraft) {
    d.name.None? || (d.name.value != read.name && NameTaken(db, read.tenant, d.name.value, read.id))
  }

  lemma InsertUserClashes(db: Db, u: User)
    ensures InsertUser(db, u).Conflict? <==> UserClashes(db, u)
    ensures !InsertUser(db, u).Stale?
  {
  }

  lemma InsertResourceClashes(db: Db, r: Resource)
    ensures InsertResource(db, r).Conflict? <==> ResourceClashes(db, r)
    ensures !InsertResource(db, r).Stale?
  {
  }

  lemma UpdateUserClashes(db: Db, read: User, d: UserDraft)
    requires Consistent(db) && read.id in db.users && db.users[read.id].tenant == read.tenant
    ensures UpdateUser(db, read, d).Conflict? <==> UserUpdateClashes(db, read, d)
    ensures !UpdateUser(db, read, d).Stale?
  {
    assert UserFits(db, db.users[read.id]);
  }

  lemma UpdateResourceClashes(db: Db, read: Resource, d: ResourceDraft)
    requires Consistent(db) && read.id in db.resources && db.resources[read.id].tenant == read.tenant
    ensures UpdateResource(db, read, d).Conflict? <==> ResourceUpdateClashes(db, read, d)
    ensures !UpdateResource(db, read, d).Stale?
  {
    assert ResourceFits(db, db.resources[read.id]);
  }

  // With nothing in between, the draft is what gets stored.
  lemma UpdateUserWrites(db: Db, read: User, d: UserDraft)
    requires Consistent(db) && read.id in db.users && db.users[read.id] == read && !UserUpdateClashes(db, read, d)
    ensures UpdateUser(db, read, d)
         == Wrote(db.(users := db.users[read.id := read.(email := d.email.value, role := d.role.value,
                                                         status := d.status.value)]))
  {
    UpdateUserClashes(db, read, d);
    if d == UserDraftOf(read) { assert db.users[read.id := read] == db.users; }
  }

  lemma UpdateResourceWrites(db: Db, read: Resource, d: ResourceDraft)
    requires Consistent(db) && read.id in db.resources && db.resources[read.id] == read
    requires !ResourceUpdateClashes(db, read, d)
    ensures UpdateResource(db, read, d)
         == Wrote(db.(resources := db.resources[read.id := read.(name := d.name.value, data := d.data, url := d.url)]))
  {
    UpdateResourceClashes(db, read, d);
    if d == ResourceDraftOf(read) { assert db.resources[read.id := read] == db.resources; }
  }

  /**
   An UPDATE writes only the columns that were given a new value. The others keep what the row holds by then,
   so updates of different columns do not undo each other; and every other row stays.
   */
  lemma UpdatesOnlyChanges(db: Db, read: User, d: UserDraft, r: Resource, e: ResourceDraft, id: Uuid)
    requires Consistent(db)
    ensures UpdateUser(db, read, d).Wrote? && id in db.users ==>
              var now, row := db.users[id], UpdateUser(db, read, d).db.users[id];
              if id != read.id then row == now
              else
                && row.id == id && row.keycloak == now.keycloak && row.tenant == now.tenant
                && Some(row.email) == (if d.email == Some(read.email) then Some(now.email) else d.email)
                && Some(row.role) == (if d.role == Some(read.role) then Some(now.role) else d.role)
                && Some(row.status) == (if d.status == Some(read.status) then Some(now.status) else d.status)
    ensures UpdateResource(db, r, e).Wrote? && id in db.resources ==>
              var now, row := db.resources[id], UpdateResource(db, r, e).db.resources[id];
              if id != r.id then row == now
              else
                && row.id == id && row.tenant == now.tenant && row.owner == now.owner
                && Some(row.name) == (if e.name == Some(r.name) then Some(now.name) else e.name)
                && row.data == (if e.data == r.data then now.data else e.data)
                && row.url == (if e.url == r.url then now.url else e.url)
  {
  }

  // deactivate_user's UPDATE
  function Disabled(u: User): UserDraft {
    UserDraftOf(u).(status := Some("disabled"))
  }

  lemma DisablingNeverFails(db: Db, read: User)
    requires Consistent(db) && read.id in db.users && db.users[read.id].tenant == read.tenant
    ensures UpdateUser(db, read, Disabled(read)).Wrote?
    ensures db.users[read.id] == read ==>
              UpdateUser(db, read, Disabled(read)).db
              == db.(users := db.users[read.id := read.(status := "disabled")])
  {
    UpdateUserClashes(db, read, Disabled(read));
    if db.users[read.id] == read { UpdateUserWrites(db, read, Disabled(read)); }
  }

  // ----- the values a list of fields leaves: the last one given, or the one before -----

  ghost predicate LastGiven<F, V>(fields: seq<F>, pick: F -> Option<V>, before: V, after: V) {
    || (exists i :: 0 <= i < |fields| && pick(fields[i]) == Some(after)
                    && forall j :: i < j < |fields| ==> pick(fields[j]).None?)
    || (after == before && forall j :: 0 <= j < |fields| ==> pick(fields[j]).None?)
  }

  lemma LastGivenIsUnique<F, V>(fields: seq<F>, pick: F -> Option<V>, before: V, a: V, b: V)
    requires LastGiven(fields, pick, before, a) && LastGiven(fields, pick, before, b)
    ensures a == b
  {
  }

  lemma LastGivenGrows<F, V>(fields: seq<F>, pick: F -> Option<V>, before: V, after: V)
    requires fields != [] && LastGiven(fields[..|fields| - 1], pick, before, after)
    ensures LastGiven(fields, pick, before, pick(fields[|fields| - 1]).GetOr(after))
  {
    var n := |fields| - 1;
    if pick(fields[n]).None? && !(after == before && forall j :: 0 <= j < n ==> pick(fields[..n][j]).None?) {
      var i :| 0 <= i < n && pick(fields[..n][i]) == Some(after) && forall j :: i < j < n ==> pick(fields[..n][j]).None?;
      assert pick(fields[i]) == Some(after);
      forall j | i < j < |fields|
        ensures pick(fields[j]).None?
      {
        if j < n { assert fields[..n][j] == fields[j]; }
      }
    } else if pick(fields[n]).None? {
      forall j | 0 <= j < |fields|
        ensures pick(fields[j]).None?
      {
        if j < n { assert fields[..n][j] == fields[j]; }
      }
    }
  }

  function EmailIn(f: UserField): Option<Option<string>> { if f.Email? then Some(f.email) else None }
  function RoleIn(f: UserField): Option<Option<string>> { if f.Role? then Some(f.role) else None }
  function StatusIn(f: UserField): Option<Option<string>> { if f.Status? then Some(f.status) else None }
  function NameIn(f: ResourceField): Option<Option<string>> { if f.Name? then Some(f.name) else None }
  function DataIn(f: ResourceField): Option<string> { if f.Data? then Some(f.data) else None }
  function UrlIn(f: ResourceField): Option<Option<string>> { if f.Url? then Some(f.url) else None }

  ghost predicate UserFieldsLeave(before: UserDraft, fields: seq<UserField>, after: UserDraft) {
    && LastGiven(fields, EmailIn, before.email, after.email)
    && LastGiven(fields, RoleIn, before.role, after.role)
    && LastGiven(fields, StatusIn, before.status, after.status)
  }

  ghost predicate ResourceFieldsLeave(before: ResourceDraft, fields: seq<ResourceField>, after: ResourceDraft) {
    && LastGiven(fields, NameIn, before.name, after.name)
    && LastGiven(fields, DataIn, before.data, after.data)
    && LastGiven(fields, UrlIn, before.url, after.url)
  }

  /** Setting fields one after another leaves for each the last value given, or the one before. */
  lemma {:induction false} SetUserFieldsLeave(d: UserDraft, fields: seq<UserField>)
    ensures UserFieldsLeave(d, fields, SetUserFields(d, fields))
  {
    if fields != [] {
      var before := SetUserFields(d, fields[..|fields| - 1]);
      SetUserFieldsLeave(d, fields[..|fields| - 1]);
      LastGivenGrows(fields, EmailIn, d.email, before.email);
      LastGivenGrows(fields, RoleIn, d.role, before.role);
      LastGivenGrows(fields, StatusIn, d.status, before.status);
    }
  }

  lemma {:induction false} SetResourceFieldsLeave(d: ResourceDraft, fields: seq<ResourceField>)
    ensures ResourceFieldsLeave(d, fields, SetResourceFields(d, fields))
  {
    if fields != [] {
      var before := SetResourceFields(d, fields[..|fields| - 1]);
      SetResourceFieldsLeave(d, fields[..|fields| - 1]);
      LastGivenGrows(fields, NameIn, d.name, before.name);
      LastGivenGrows(fields, DataIn, d.data, before.data);
      LastGivenGrows(fields, UrlIn, d.url, before.url);
    }
  }

  /** What the fields leave is determined, so it is what SetUserFields computes. */
  lemma UserFieldsDetermine(d: UserDraft, fields: seq<UserField>, after: UserDraft)
    ensures UserFieldsLeave(d, fields, after) <==> after == SetUserFields(d, fields)
  {
    var set' := SetUserFields(d, fields);
    SetUserFieldsLeave(d, fields);
    if UserFieldsLeave(d, fields, after) {
      LastGivenIsUnique(fields, EmailIn, d.email, after.email, set'.email);
      LastGivenIsUnique(fields, RoleIn, d.role, after.role, set'.role);
      LastGivenIsUnique(fields, StatusIn, d.status, after.status, set'.status);
    }
  }

  lemma ResourceFieldsDetermine(d: ResourceDraft, fields: seq<ResourceField>, after: ResourceDraft)
    ensures ResourceFieldsLeave(d, fields, after) <==> after == SetResourceFields(d, fields)
  {
    var set' := SetResourceFields(d, fields);
    SetResourceFieldsLeave(d, fields);
    if ResourceFieldsLeave(d, fields, after) {
      LastGivenIsUnique(fields, NameIn, d.name, after.name, set'.name);
      LastGivenIsUnique(fields, DataIn, d.data, after.data, set'.data);
      LastGivenIsUnique(fields, UrlIn, d.url, after.url, set'.url);
    }
  }

  // ----- the constraints hold in every table the writes leave -----

  lemma ReplaceUserConsistent(db: Db, u: User)
    requires Consistent(db) && UserFits(db, u)
    ensures Consistent(db.(users := db.users[u.id := u]))
  {
    var db' := db.(users := db.users[u.id := u]);
    forall id | id in db'.users
      ensures db'.users[id].id == id && UserFits(db', db'.users[id])
    {
      if id != u.id { assert UserFits(db, db.users[id]); }
    }
    forall id | id in db'.resources
      ensures ResourceFits(db', db'.resources[id])
    {
      assert ResourceFits(db, db.resources[id]);
    }
  }

  lemma InsertUserConsistent(db: Db, u: User)
    requires Consistent(db)
    ensures InsertUser(db, u).Wrote? ==> Consistent(InsertUser(db, u).db)
  {
    if InsertUser(db, u).Wrote? { ReplaceUserConsistent(db, u); }
  }

  lemma ReplaceResourceConsistent(db: Db, r: Resource)
    requires Consistent(db) && ResourceFits(db, r)
    ensures Consistent(db.(resources := db.resources[r.id := r]))
  {
    var db' := db.(resources := db.resources[r.id := r]);
    forall id | id in db'.resources
      ensures db'.resources[id].id == id && ResourceFits(db', db'.resources[id])
    {
      if id != r.id { assert ResourceFits(db, db.resources[id]); }
    }
    forall id | id in db'.users
      ensures UserFits(db', db'.users[id])
    {
      assert UserFits(db, db.users[id]);
    }
  }

  lemma InsertResourceConsistent(db: Db, r: Resource)
    requires Consistent(db)
    ensures InsertResource(db, r).Wrote? ==> Consistent(InsertResource(db, r).db)
  {
    if InsertResource(db, r).Wrote? { ReplaceResourceConsistent(db, r); }
  }

  lemma UpdateUserConsistent(db: Db, read: User, draft: UserDraft)
    requires Consistent(db)
    ensures UpdateUser(db, read, draft).Wrote? ==> Consistent(UpdateUser(db, read, draft).db)
  {
    if UpdateUser(db, read, draft).Wrote? && draft != UserDraftOf(read) {
      ReplaceUserConsistent(db, UpdateUser(db, read, draft).db.users[read.id]);
    }
  }

  lemma UpdateResourceConsistent(db: Db, read: Resource, draft: ResourceDraft)
    requires Consistent(db)
    ensures UpdateResource(db, read, draft).Wrote? ==> Consistent(UpdateResource(db, read, draft).db)
  {
    if UpdateResource(db, read, draft).Wrote? && draft != ResourceDraftOf(read) {
      ReplaceResourceConsistent(db, UpdateResource(db, read, draft).db.resources[read.id]);
    }
  }

  lemma DeleteResourceConsistent(db: Db, id: Uuid)
    requires Consistent(db)
    ensures Consistent(DeleteResource(db, id))
  {
  }

  // ----- the lookups that scalar_one_or_none reads -----

  // A path parameter, and the UUID it denotes if it is one.
  datatype UserRef = UserRef(text: string, uuid: Option<Uuid>)

  predicate Matches(u: User, key: UserRef) {
    if key.uuid.Some? then u.id == key.uuid.value else u.keycloak == key.text
  }

  ghost function FindUser(users: map<Uuid, User>, key: UserRef): (r: Option<User>)
    ensures r.Some? ==> r.value in users.Values && Matches(r.value, key)
    ensures r.None? ==> forall id :: id in users ==> !Matches(users[id], key)
  {
    if exists id :: id in users && Matches(users[id], key) then
      var id :| id in users && Matches(users[id], key);
      Some(users[id])
    else None
  }

  ghost function FindByEmail(users: map<Uuid, User>, tenant: Uuid, email: string): (r: Option<User>)
    ensures r.Some? ==> r.value in users.Values && r.value.tenant == tenant && r.value.email == email
    ensures r.None? ==> forall id :: id in users ==> users[id].tenant != tenant || users[id].email != email
  {
    if exists id :: id in users && users[id].tenant == tenant && users[id].email == email then
      var id :| id in users && users[id].tenant == tenant && users[id].email == email;
      Some(users[id])
    else None
  }

  /** No lookup of a user, by id, by Keycloak id or by e-mail within a tenant, ever matches two rows. */
  lemma LookupsAreUnique(db: Db, i: Uuid, j: Uuid, key: UserRef, tenant: Uuid, email: string)
    requires Consistent(db) && i in db.users && j in db.users
    ensures Matches(db.users[i], key) && Matches(db.users[j], key) ==> i == j
    ensures (db.users[i].tenant == db.users[j].tenant == tenant && db.users[i].email == db.users[j].email == email)
            ==> i == j
  {
    assert UserFits(db, db.users[i]);
  }
  // ----- which user a path parameter names -----

  ghost predicate Named(db: Db, key: UserRef, id: Uuid) {
    id in db.users && if key.uuid.Some? then id == key.uuid.value else db.users[id].keycloak == key.text
  }

  lemma NamedIsFound(db: Db, key: UserRef, id: Uuid)
    requires Consistent(db)
    ensures Named(db, key, id) ==> FindUser(db.users, key) == Some(db.users[id]) && db.users[id].id == id
    ensures (forall j :: !Named(db, key, j)) ==> FindUser(db.users, key).None?
  {
    var found := FindUser(db.users, key);
    if found.Some? {
      var j :| j in db.users && db.users[j] == found.value;
      assert Named(db, key, j);
      if Named(db, key, id) { LookupsAreUnique(db, id, j, key, 0, ""); }
    }
  }
}
