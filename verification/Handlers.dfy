/**
 The route handlers of the user and resource services over the service classes, each run with nothing else
 beside it: tables and reply are those of the same request in a run of TenantRuns.
 */
module Handlers {
  import opened Options
  import opened Accounts
  import opened Callers
  import opened UserServices
  import opened ResourceServices
  import opened TenantRuns

  class UserRoutes {
    const service: UserService

    constructor (service: UserService)
      ensures this.service == service
    {
      this.service := service;
    }

    method ListUsers(user: CurrentUser, tenant: Option<Uuid>) returns (reply: Reply)
      ensures (service.store.db, Finished(user, reply))
           == Alone(service.store.db, user, Request.ListUsers(tenant), 0)
    {
      if !MayEnter(user, Request.ListUsers(tenant)) {
        return Error(403);
      }
      var rows := service.ListUsers(user, tenant);
      if rows.Broken? {
        return Error(500);
      }
      reply := Users(rows.value);
      ghost var db := service.store.db;
      assert rows.value == UsersOf(db, if IsPlatformAdmin(user) then tenant else TenantOf(user)).users;
    }

    method GetUser(user: CurrentUser, key: UserRef) returns (reply: Reply)
      requires Consistent(service.store.db)
      ensures (service.store.db, Finished(user, reply)) == Alone(service.store.db, user, Request.GetUser(key), 0)
    {
      if !MayEnter(user, Request.GetUser(key)) {
        return Error(403);
      }
      var profile := service.GetUser(key);
      if profile.None? && IsSelfLookup(key, user) {
        var required := RequiredTenant(user);
        if required.Refused? {
          return Error(required.status);
        }
        profile := service.GetUserByEmail(user.email.GetOr(""), required.id);
      }
      if profile.None? {
        return Error(404);
      }
      if !MayReadUser(user, profile.value) {
        return Error(403);
      }
      reply := Users({profile.value});
    }

    method CreateUser(user: CurrentUser, inTenant: Option<Uuid>, keycloak: string, email: string, role: string,
                      uid: Uuid)
        returns (reply: Reply)
      modifies service.store
      ensures (service.store.db, Finished(user, reply))
           == Alone(old(service.store.db), user, Request.CreateUser(inTenant, keycloak, email, role), uid)
    {
      if !MayEnter(user, Request.CreateUser(inTenant, keycloak, email, role)) {
        return Error(403);
      }
      var required := RequiredTenant(user);
      if required.Refused? {
        return Error(required.status);
      }
      if inTenant.Some? && inTenant.value != required.id {
        return Error(403);
      }
      InsertUserClashes(service.store.db, User(uid, keycloak, required.id, email, role, "active"));
      var result := service.CreateUser(keycloak, email, role, required.id, uid);
      if result.Clash? {
        return Error(409);
      }
      reply := Users({result.value});
    }

    // _authorize_same_tenant_admin: None when it passes.
    method Refusal(user: CurrentUser, profile: User) returns (status: Option<nat>)
      ensures status.None? <==> TenantOf(user) == Some(profile.tenant)
      ensures status.Some? ==> status.value == match RequiredTenant(user) case Refused(code) => code case Tenant(_) => 403
    {
      match RequiredTenant(user)
      case Refused(code) => status := Some(code);
      case Tenant(id) => status := if profile.tenant != id then Some(403) else None;
    }

    method UpdateUser(user: CurrentUser, key: UserRef, fields: seq<UserField>) returns (reply: Reply)
      requires Consistent(service.store.db)
      modifies service.store
      ensures (service.store.db, Finished(user, reply))
           == Alone(old(service.store.db), user, Request.ChangeUser(key, fields), 0)
    {
      if !MayEnter(user, Request.ChangeUser(key, fields)) {
        return Error(403);
      }
      var profile := service.GetUser(key);
      if profile.None? {
        return Error(404);
      }
      var status := Refusal(user, profile.value);
      if status.Some? {
        return Error(status.value);
      }
      ghost var draft := SetUserFields(UserDraftOf(profile.value), fields);
      UserFieldsDetermine(UserDraftOf(profile.value), fields, draft);
      AloneChangesUser(service.store.db, user, key, fields, 0);
      var result := service.UpdateProfile(profile.value, fields);
      if result.Clash? {
        return Error(409);
      }
      reply := Users({result.value});
    }

    method DeactivateUser(user: CurrentUser, key: UserRef) returns (reply: Reply)
      requires Consistent(service.store.db)
      modifies service.store
      ensures (service.store.db, Finished(user, reply))
           == Alone(old(service.store.db), user, Request.DeactivateUser(key), 0)
    {
      if !MayEnter(user, Request.DeactivateUser(key)) {
        return Error(403);
      }
      var profile := service.GetUser(key);
      if profile.None? {
        return Error(404);
      }
      var status := Refusal(user, profile.value);
      if status.Some? {
        return Error(status.value);
      }
      DisablingNeverFails(service.store.db, profile.value);
      service.DeactivateUser(profile.value);
      reply := NoContent;
    }
  }

  class ResourceRoutes {
    const service: ResourceService

    constructor (service: ResourceService)
      ensures this.service == service
    {
      this.service := service;
    }

    method ListResources(user: CurrentUser, tenant: Option<Uuid>) returns (reply: Reply)
      ensures (service.store.db, Finished(user, reply))
           == Alone(service.store.db, user, Request.ListResources(tenant), 0)
    {
      if !MayEnter(user, Request.ListResources(tenant)) {
        return Error(403);
      }
      var scope := tenant;
      if !IsPlatformAdmin(user) {
        var required := RequiredTenant(user);
        if required.Refused? {
          return Error(required.status);
        }
        scope := Some(required.id);
      }
      var rows := service.ListResources(scope, IsPlatformAdmin(user) && tenant.None?);
      reply := Resources(rows);
      assert rows == ResourcesOf(service.store.db, scope).resources;
    }

    // _authorize_resource_access: None when it passes.
    method Refusal(user: CurrentUser, resource: Resource) returns (status: Option<nat>)
      ensures status.None? <==> IsPlatformAdmin(user) || TenantOf(user) == Some(resource.tenant)
      ensures status.Some? ==> status.value == match RequiredTenant(user) case Refused(code) => code case Tenant(_) => 403
    {
      if IsPlatformAdmin(user) {
        return None;
      }
      match RequiredTenant(user)
      case Refused(code) => status := Some(code);
      case Tenant(id) => status := if resource.tenant == id then None else Some(403);
    }

    method GetResource(user: CurrentUser, id: Uuid) returns (reply: Reply)
      requires Consistent(service.store.db)
      ensures (service.store.db, Finished(user, reply)) == Alone(service.store.db, user, Request.GetResource(id), 0)
    {
      if !MayEnter(user, Request.GetResource(id)) {
        return Error(403);
      }
      var resource := service.GetResource(id);
      if resource.None? {
        return Error(404);
      }
      var status := Refusal(user, resource.value);
      if status.Some? {
        return Error(status.value);
      }
      reply := Resources({resource.value});
    }

    method CreateResource(user: CurrentUser, name: string, data: string, url: Option<string>, uid: Uuid)
        returns (reply: Reply)
      modifies service.store
      ensures (service.store.db, Finished(user, reply))
           == Alone(old(service.store.db), user, Request.CreateResource(name, data, url), uid)
    {
      if !MayEnter(user, Request.CreateResource(name, data, url)) {
        return Error(403);
      }
      var required := RequiredTenant(user);
      if required.Refused? {
        return Error(required.status);
      }
      InsertResourceClashes(service.store.db, Resource(uid, required.id, user.id, name, data, url));
      var result := service.CreateResource(name, data, url, required.id, user.id, uid);
      if result.Clash? {
        return Error(409);
      }
      reply := Resources({result.value});
    }

    method UpdateResource(user: CurrentUser, id: Uuid, fields: seq<ResourceField>) returns (reply: Reply)
      requires Consistent(service.store.db)
      modifies service.store
      ensures (service.store.db, Finished(user, reply))
           == Alone(old(service.store.db), user, Request.ChangeResource(id, fields), 0)
    {
      if !MayEnter(user, Request.ChangeResource(id, fields)) {
        return Error(403);
      }
      var resource := service.GetResource(id);
      if resource.None? {
        return Error(404);
      }
      var status := Refusal(user, resource.value);
      if status.Some? {
        return Error(status.value);
      }
      ghost var draft := SetResourceFields(ResourceDraftOf(resource.value), fields);
      ResourceFieldsDetermine(ResourceDraftOf(resource.value), fields, draft);
      AloneChangesResource(service.store.db, user, id, fields, 0);
      var result := service.UpdateRow(resource.value, fields);
      if result.Clash? {
        return Error(409);
      }
      reply := Resources({result.value});
    }

    method DeleteResource(user: CurrentUser, id: Uuid) returns (reply: Reply)
      requires Consistent(service.store.db)
      modifies service.store
      ensures (service.store.db, Finished(user, reply))
           == Alone(old(service.store.db), user, Request.RemoveResource(id), 0)
    {
      if !MayEnter(user, Request.RemoveResource(id)) {
        return Error(403);
      }
      var resource := service.GetResource(id);
      if resource.None? {
        return Error(404);
      }
      var status := Refusal(user, resource.value);
      if status.Some? {
        return Error(status.value);
      }
      service.DeleteRow(resource.value);
      reply := NoContent;
    }
  }
}
