/** The gateway's OPA policy, and how it relates to the role gates of the services behind it. */
module OpaPolicy {
  import opened Letters
  import opened Options
  import opened Roles
  import opened Routes

  // `tenant` is None when the input has no tenant or a null one; the gateway sends "" for a missing claim.
  datatype Input = Input(verb: string, path: seq<string>, tenant: Option<string>, roles: seq<string>)

  function UpperChar(c: char): char {
    if 'a' <= c <= 'z' then (c as int - 32) as char else c
  }

  function Upper(s: string): string {
    if s == "" then "" else [UpperChar(s[0])] + Upper(s[1..])
  }

  lemma {:induction false} UpperAt(s: string, i: nat)
    requires i < |s|
    ensures |Upper(s)| == |s| && Upper(s)[i] == UpperChar(s[i])
  {
    if |s| > 1 { UpperAt(s[1..], if i > 0 then i - 1 else 0); }
  }

  /** Each small letter becomes the capital at its place in the alphabet; every other character stays. */
  lemma UpperByAlphabet(s: string, i: nat)
    requires i < |s|
    ensures |Upper(s)| == |s|
    ensures forall k :: 0 <= k < 26 && s[i] == SMALL[k] ==> Upper(s)[i] == CAPITALS[k]
    ensures (forall k :: 0 <= k < 26 ==> s[i] != SMALL[k]) ==> Upper(s)[i] == s[i]
  {
    UpperAt(s, i);
    if 'a' <= s[i] <= 'z' {
      SmallAt(s[i] as int - 'a' as int);
      CapitalAt(s[i] as int - 'a' as int);
    }
    forall k | 0 <= k < 26 && s[i] == SMALL[k]
      ensures Upper(s)[i] == CAPITALS[k]
    {
      SmallAt(k);
      CapitalAt(k);
    }
  }

  // normalized_path: the segments that are not empty.
  function Normalized(path: seq<string>): seq<string> {
    if path == [] then []
    else (if path[0] == "" then [] else [path[0]]) + Normalized(path[1..])
  }

  // The two rules for resource_kind, each of which may define it.
  ghost predicate IsKind(path: seq<string>, kind: string) {
    var n := Normalized(path);
    (|n| > 2 && kind == n[2]) || (|n| == 1 && kind == n[0])
  }

  function KindOf(path: seq<string>): Option<string> {
    var n := Normalized(path);
    if |n| > 2 then Some(n[2]) else if |n| == 1 then Some(n[0]) else None
  }

  function Permission(verb: string, kind: string): Option<string> {
    if verb == "GET" then
      if kind == "users" then Some("read:users")
      else if kind == "resources" then Some("read:resources")
      else if kind == "payments" then Some("read:billing")
      else if kind == "admin" then Some("read:admin")
      else None
    else if verb == "POST" then
      if kind == "users" then Some("write:users")
      else if kind == "resources" then Some("write:resources")
      else if kind == "payments" then Some("write:billing")
      else if kind == "admin" then Some("write:admin")
      else None
    else if verb == "PUT" || verb == "PATCH" then
      if kind == "users" then Some("write:users")
      else if kind == "resources" then Some("write:resources")
      else None
    else if verb == "DELETE" then
      if kind == "users" then Some("delete:users")
      else if kind == "resources" then Some("delete:resources")
      else None
    else None
  }

  // opa/data/roles.json
  predicate Grants(role: string, permission: string) {
    if role == TENANT_ADMIN then
      permission in ["read:users", "write:users", "delete:users", "read:resources", "write:resources",
                     "delete:resources", "read:billing", "write:billing"]
    else if role == TENANT_USER then
      permission in ["read:resources", "write:resources", "write:billing"]
    else if role == PLATFORM_ADMIN then
      permission in ["read:users", "write:users", "delete:users", "read:resources", "write:resources",
                     "delete:resources", "read:billing", "write:billing", "read:admin", "write:admin"]
    else false
  }

  predicate RolesGrant(roles: seq<string>, permission: string) {
    exists i :: 0 <= i < |roles| && Grants(roles[i], permission)
  }

  function PermissionFor(i: Input): Option<string> {
    match KindOf(i.path)
    case None => None
    case Some(kind) => Permission(Upper(i.verb), kind)
  }

  predicate Allow(i: Input) {
    || PLATFORM_ADMIN in i.roles
    || (&& i.tenant.Some? && i.tenant.value != ""
        && KindOf(i.path) != Some("admin")
        && PermissionFor(i).Some? && RolesGrant(i.roles, PermissionFor(i).value))
  }

  // ----- the policy by itself -----

  lemma {:induction false} NormalizedAppends(a: seq<string>, b: seq<string>)
    ensures Normalized(a + b) == Normalized(a) + Normalized(b)
  {
    if a == [] {
      assert a + b == b;
    } else {
      assert (a + b)[1..] == a[1..] + b;
      NormalizedAppends(a[1..], b);
    }
  }

  lemma {:induction false} NormalizedClean(path: seq<string>)
    requires "" !in path
    ensures Normalized(path) == path
  {
    if path != [] {
      assert path[0] in path;
      NormalizedClean(path[1..]);
      assert [path[0]] + path[1..] == path;
    }
  }

  lemma NormalizedSkipsEmpty(a: seq<string>, b: seq<string>)
    ensures Normalized(a + [""] + b) == Normalized(a + b)
  {
    assert a + [""] + b == a + ([""] + b);
    assert ([""] + b)[1..] == b;
    NormalizedAppends(a, b);
    NormalizedAppends(a, [""] + b);
  }

  /**
   Empty path segments, wherever they stand, do not change the decision; nor the resource kind, for which the
   two rules never give two values, which OPA would report as a conflict.
   */
  lemma EmptySegmentsIgnored(i: Input, a: seq<string>, b: seq<string>)
    requires i.path == a + b
    ensures Allow(i.(path := a + [""] + b)) == Allow(i)
    ensures forall kind :: IsKind(a + [""] + b, kind) <==> KindOf(i.path) == Some(kind)
  {
    NormalizedSkipsEmpty(a, b);
  }

  /** More roles, in whatever order, never take an allowed request away. */
  lemma MonotoneInRoles(i: Input, more: seq<string>)
    requires forall r :: r in i.roles ==> r in more
    ensures Allow(i) ==> Allow(i.(roles := more))
  {
    if Allow(i) && PLATFORM_ADMIN !in i.roles {
      var k :| 0 <= k < |i.roles| && Grants(i.roles[k], PermissionFor(i).value);
      assert i.roles[k] in more;
      var j :| 0 <= j < |more| && more[j] == i.roles[k];
    }
  }

  // ----- who may do what -----

  /**
   The whole policy: platform_admin may do everything; with a tenant, tenant_admin may read and write users and
   resources, delete them, and read and write payments; tenant_user may read and write resources and write
   payments; nobody else may do anything, and nothing below admin is for a tenant role.
   */
  lemma AllowMeaning(i: Input)
    ensures Allow(i)
       <==> || "platform_admin" in i.roles
            || (&& i.tenant.Some? && i.tenant.value != ""
                && var segments := Normalized(i.path);
                && (|segments| > 2 || |segments| == 1)
                && var kind, verb := if |segments| > 2 then segments[2] else segments[0], Upper(i.verb);
                   || ("tenant_admin" in i.roles
                       && (|| (kind in {"users", "resources"} && verb in {"GET", "POST", "PUT", "PATCH", "DELETE"})
                           || (kind == "payments" && verb in {"GET", "POST"})))
                   || ("tenant_user" in i.roles
                       && (|| (kind == "resources" && verb in {"GET", "POST", "PUT", "PATCH"})
                           || (kind == "payments" && verb == "POST"))))
  {
    var permission := PermissionFor(i);
    if permission.Some? {
      GrantTable(KindOf(i.path).value, Upper(i.verb));
      if RolesGrant(i.roles, permission.value) {
        var k :| 0 <= k < |i.roles| && Grants(i.roles[k], permission.value);
        assert i.roles[k] in i.roles;
      }
      if k :| 0 <= k < |i.roles| && i.roles[k] == "tenant_admin" && Grants("tenant_admin", permission.value) {
        assert Grants(i.roles[k], permission.value);
      }
      if k :| 0 <= k < |i.roles| && i.roles[k] == "tenant_user" && Grants("tenant_user", permission.value) {
        assert Grants(i.roles[k], permission.value);
      }
    }
  }

  lemma GrantTable(kind: string, verb: string)
    requires Permission(verb, kind).Some?
    ensures var p := Permission(verb, kind).value;
            && (Grants("tenant_admin", p)
                <==> || (kind in {"users", "resources"} && verb in {"GET", "POST", "PUT", "PATCH", "DELETE"})
                     || (kind == "payments" && verb in {"GET", "POST"}))
            && (Grants("tenant_user", p)
                <==> || (kind == "resources" && verb in {"GET", "POST", "PUT", "PATCH"})
                     || (kind == "payments" && verb == "POST"))
            && forall role :: role != "tenant_admin" && role != "tenant_user" && role != "platform_admin" ==>
                 !Grants(role, p)
  {
  }

  // ----- the requests of the routes the services implement -----

  function MethodOf(route: Route): string {
    match route
    case ListUsers => "GET" case GetUser => "GET" case CreateUser => "POST"
    case UpdateUser => "PUT" case DeactivateUser => "DELETE"
    case ListResources => "GET" case GetResource => "GET" case CreateResource => "POST"
    case UpdateResource => "PUT" case DeleteResource => "DELETE"
    case CreateIntent => "POST" case ListPayments => "GET" case GetPayment => "GET"
    case ListTenants => "GET" case CreateTenant => "POST" case TenantStats => "GET" case RotateTenantKey => "POST"
  }

  function ServiceOf(route: Route): string {
    match route
    case ListUsers | GetUser | CreateUser | UpdateUser | DeactivateUser => "users"
    case ListResources | GetResource | CreateResource | UpdateResource | DeleteResource => "resources"
    case CreateIntent | ListPayments | GetPayment => "payments"
    case ListTenants | CreateTenant | TenantStats | RotateTenantKey => "admin"
  }

  // The path below /api/v1/<service>, with the identifier the route takes.
  function PathBelow(route: Route, id: string): seq<string> {
    match route
    case GetUser | UpdateUser | DeactivateUser | GetResource | UpdateResource | DeleteResource | GetPayment => [id]
    case CreateIntent => ["intent"]
    case ListTenants | CreateTenant => ["tenants"]
    case TenantStats => ["tenants", id, "stats"]
    case RotateTenantKey => ["tenants", id, "keys"]
    case _ => []
  }

  function PathOf(route: Route, id: string): seq<string> {
    ["api", "v1", ServiceOf(route)] + PathBelow(route, id)
  }

  function RequestFor(route: Route, id: string, tenant: Option<string>, roles: seq<string>): Input {
    Input(MethodOf(route), PathOf(route, id), tenant, roles)
  }

  // ----- the policy and the gates -----

  lemma RouteKind(route: Route, id: string)
    requires id != ""
    ensures KindOf(PathOf(route, id)) == Some(ServiceOf(route))
  {
    NormalizedClean(PathOf(route, id));
  }

  lemma {:induction false} UpperKeepsCapitals(s: string)
    requires forall i :: 0 <= i < |s| ==> 'A' <= s[i] <= 'Z'
    ensures Upper(s) == s
  {
    if s != "" {
      UpperKeepsCapitals(s[1..]);
      assert [s[0]] + s[1..] == s;
    }
  }

  lemma UpperMethod(route: Route)
    ensures Upper(MethodOf(route)) == MethodOf(route)
  {
    UpperKeepsCapitals(MethodOf(route));
  }

  // Which tenant roles the policy lets through on a route outside /admin.
  lemma RouteGrants(route: Route, role: string)
    requires ServiceOf(route) != "admin" && role != PLATFORM_ADMIN
    ensures Permission(MethodOf(route), ServiceOf(route)).Some?
    ensures Grants(role, Permission(MethodOf(route), ServiceOf(route)).value)
       <==> role in GateOf(route) && (route.GetUser? || route.GetPayment? ==> role == TENANT_ADMIN)
  {
  }

  /**
   For a caller with a tenant and without platform_admin, the gateway lets a request for an implemented
   route through exactly when the service's own role gate would, except that reading one user or one
   payment also takes tenant_admin at the gateway.
   */
  lemma GatewayAgainstGate(route: Route, id: string, tenant: string, roles: seq<string>)
    requires id != "" && tenant != "" && PLATFORM_ADMIN !in roles
    ensures Allow(RequestFor(route, id, Some(tenant), roles))
       <==> PassesGate(roles, GateOf(route)) && (route.GetUser? || route.GetPayment? ==> TENANT_ADMIN in roles)
  {
    RouteKind(route, id);
    UpperMethod(route);
    var i := RequestFor(route, id, Some(tenant), roles);
    if ServiceOf(route) == "admin" {
      assert GateOf(route) == {PLATFORM_ADMIN};
    } else {
      forall k | 0 <= k < |roles|
        ensures Grants(roles[k], PermissionFor(i).value)
           <==> roles[k] in GateOf(route) && (route.GetUser? || route.GetPayment? ==> roles[k] == TENANT_ADMIN)
      {
        RouteGrants(route, roles[k]);
      }
      RouteGrants(route, TENANT_ADMIN);
      if PassesGate(roles, GateOf(route)) && (route.GetUser? || route.GetPayment?) && TENANT_ADMIN in roles {
        var k :| 0 <= k < |roles| && roles[k] == TENANT_ADMIN;
        assert Grants(roles[k], PermissionFor(i).value);
      }
      if Allow(i) {
        var k :| 0 <= k < |roles| && Grants(roles[k], PermissionFor(i).value);
        assert roles[k] in GateOf(route);
      }
    }
  }

  /**
   A platform admin passes the gateway everywhere, but a service's gate may still refuse: unless a tenant role
   held beside it opens the route, exactly on those whose gate does not list platform_admin.
   */
  lemma PlatformAdminAgainstGate(route: Route, id: string, tenant: Option<string>, roles: seq<string>)
    requires PLATFORM_ADMIN in roles
    ensures Allow(RequestFor(route, id, tenant, roles))
    ensures PassesGate(roles, GateOf(route))
       <==> || route !in {CreateUser, UpdateUser, DeactivateUser, CreateResource, UpdateResource, DeleteResource,
                          CreateIntent}
            || TENANT_ADMIN in roles
            || (TENANT_USER in roles && route in {CreateResource, UpdateResource, CreateIntent})
  {
    RolesPass(roles, PLATFORM_ADMIN, GateOf(route));
    RolesPass(roles, TENANT_ADMIN, GateOf(route));
    RolesPass(roles, TENANT_USER, GateOf(route));
  }
}
