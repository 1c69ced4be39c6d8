/** `UserService`: a session over the tables, run with nothing else beside it. */
module UserServices {
  import opened Options
  import opened Accounts
  import opened Callers

  class Store {
    var db: Db

    constructor (db: Db)
      ensures this.db == db
    {
      this.db := db;
    }
  }

  // What a service method gives its route: a row, a 409 or a server error.
  datatype Result<T> = Ok(value: T) | Clash | Broken

  class UserService {
    const store: Store

    constructor (store: Store)
      ensures this.store == store
    {
      this.store := store;
    }

    // Broken is the ValueError of a tenant claim that is no UUID.
    method ListUsers(caller: CurrentUser, tenant: Option<Uuid>) returns (rows: Result<set<User>>)
      ensures rows.Broken? <==> !IsPlatformAdmin(caller) && TenantOf(caller).None?
      ensures !rows.Clash?
      ensures rows.Ok? ==> forall u :: u in rows.value <==>
                u in store.db.users.Values
                && (if IsPlatformAdmin(caller) then tenant.None? || u.tenant == tenant.value
                    else TenantOf(caller) == Some(u.tenant))
    {
      var query := store.db.users.Values;
      if IsPlatformAdmin(caller) {
        if tenant.Some? {
          query := set u | u in query && u.tenant == tenant.value;
        }
      } else {
        if TenantOf(caller).None? {
          return Broken;
        }
        query := set u | u in query && u.tenant == TenantOf(caller).value;
      }
      rows := Ok(query);
    }

    method GetUser(key: UserRef) returns (profile: Option<User>)
      requires Consistent(store.db)
      ensures profile == FindUser(store.db.users, key)
    {
      var users := store.db.users;
      if key.uuid.Some? {
        profile := if key.uuid.value in users then Some(users[key.uuid.value]) else None;
        assert profile.Some? ==> Matches(profile.value, key);
      } else if exists id :: id in users && users[id].keycloak == key.text {
        var id :| id in users && users[id].keycloak == key.text;
        profile := Some(users[id]);
        assert Matches(users[id], key);
      } else {
        profile := None;
      }
      forall i, j | i in users && j in users
        ensures Matches(users[i], key) && Matches(users[j], key) ==> i == j
      {
        LookupsAreUnique(store.db, i, j, key, 0, "");
      }
    }

    method GetUserByEmail(email: string, tenant: Uuid) returns (profile: Option<User>)
      requires Consistent(store.db)
      ensures profile == FindByEmail(store.db.users, tenant, email)
    {
      var users := store.db.users;
      if exists id :: id in users && users[id].tenant == tenant && users[id].email == email {
        var id :| id in users && users[id].tenant == tenant && users[id].email == email;
        profile := Some(users[id]);
        forall j | j in users && users[j].tenant == tenant && users[j].email == email
          ensures j == id
        {
          LookupsAreUnique(store.db, id, j, UserRef("", None), tenant, email);
        }
      } else {
        profile := None;
      }
    }

    method CreateUser(keycloak: string, email: string, role: string, tenant: Uuid, uid: Uuid)
        returns (result: Result<User>)
      modifies store
      ensures result.Clash? <==> UserClashes(old(store.db), User(uid, keycloak, tenant, email, role, "active"))
      ensures result.Ok? <==> !result.Clash?
      ensures result.Clash? ==> store.db == old(store.db)
      ensures result.Ok? ==>
                && result.value.id == uid && result.value.keycloak == keycloak && result.value.tenant == tenant
                && result.value.email == email && result.value.role == role && result.value.status == "active"
                && uid !in old(store.db.users)
                && store.db == old(store.db).(users := old(store.db.users)[uid := result.value])
    {
      var profile := User(uid, keycloak, tenant, email, role, "active");
      InsertUserClashes(store.db, profile);
      var written := InsertUser(store.db, profile);
      if !written.Wrote? {
        return Clash;
      }
      store.db := written.db;
      result := Ok(store.db.users[uid]);
    }

    // `draft` is what the given fields leave, the last value of a field winning.
    method UpdateProfile(profile: User, fields: seq<UserField>) returns (result: Result<User>)
      requires Consistent(store.db) && profile.id in store.db.users && store.db.users[profile.id] == profile
      modifies store
      ensures result.Ok? <==> !result.Clash?
      ensures result.Clash? ==> store.db == old(store.db)
      ensures forall draft :: UserFieldsLeave(UserDraftOf(profile), fields, draft) ==>
                && (result.Clash? <==> UserUpdateClashes(old(store.db), profile, draft))
                && (result.Ok? ==>
                      && draft.email == Some(result.value.email) && draft.role == Some(result.value.role)
                      && draft.status == Some(result.value.status))
      ensures result.Ok? ==>
                && result.value.id == profile.id && result.value.keycloak == profile.keycloak
                && result.value.tenant == profile.tenant
                && store.db == old(store.db).(users := old(store.db.users)[profile.id := result.value])
    {
      var draft := UserDraftOf(profile);
      for i := 0 to |fields|
        invariant draft == SetUserFields(UserDraftOf(profile), fields[..i])
      {
        draft := SetUserField(draft, fields[i]);
        assert fields[..i + 1][..i] == fields[..i];
      }
      assert fields[..|fields|] == fields;
      forall after: UserDraft
        ensures UserFieldsLeave(UserDraftOf(profile), fields, after) ==> after == draft
      {
        UserFieldsDetermine(UserDraftOf(profile), fields, after);
      }
      UpdateUserClashes(store.db, profile, draft);
      var written := UpdateUser(store.db, profile, draft);
      if !written.Wrote? {
        return Clash;
      }
      store.db := written.db;
      result := Ok(store.db.users[profile.id]);
    }

    method DeactivateUser(profile: User)
      requires Consistent(store.db) && profile.id in store.db.users && store.db.users[profile.id] == profile
      modifies store
      ensures store.db == old(store.db).(users := old(store.db).users[profile.id := profile.(status := "disabled")])
    {
      DisablingNeverFails(store.db, profile);
      store.db := UpdateUser(store.db, profile, Disabled(profile)).db;
    }
  }
}
