/** The gateway in front of a service: what a forwarded request meets at the handler's own checks. */
module EndToEnd {
  import opened Options
  import opened Roles
  import opened Callers
  import Accounts
  import Gateway
  import OpaPolicy
  import TenantRuns

  // The service verifies the same token the gateway decoded.
  predicate SameToken(c: Gateway.Claims, user: CurrentUser) {
    user.roles == Gateway.ServiceRoles(c)
  }

  /**
   A request of a caller without platform_admin that the gateway forwards to its route passes the handler's
   role gate if and only if the token's realm lists roles; otherwise the handler answers 403 and nothing else.
   */
  lemma ForwardedEnters(conf: Gateway.Conf, id: string, json: bool, c: Gateway.Claims, opa: Gateway.Opa,
                        db: Accounts.Db, user: CurrentUser, request: TenantRuns.Request, uid: Accounts.Uuid)
    requires Gateway.CleanId(id) && SameToken(c, user) && PLATFORM_ADMIN !in Gateway.RolesFromClaims(c)
    requires var route := TenantRuns.RouteOf(request);
             Gateway.Decide(conf, OpaPolicy.MethodOf(route), Gateway.PathText(OpaPolicy.PathOf(route, id)), json,
                            Some(c), opa) == Gateway.Forward
    ensures TenantRuns.MayEnter(user, request) <==> c.realmRoles.Some?
    ensures c.realmRoles.None? ==> TenantRuns.Alone(db, user, request, uid) == (db, TenantRuns.FailWith(user, 403))
  {
    Gateway.ForwardedPassesGate(conf, TenantRuns.RouteOf(request), id, json, c, opa);
  }
}
