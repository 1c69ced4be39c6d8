/** The authenticated caller and the checks the route modules make on it. */
module Callers {
  import opened Options
  import opened Accounts
  import opened Roles

  // The tenant claim: the UUID it denotes, if any, and whether it is written the way str(UUID) writes it.
  datatype TenantClaim = TenantClaim(uuid: Option<Uuid>, canonical: bool)

  datatype CurrentUser = CurrentUser(id: string, tenant: Option<TenantClaim>, email: Option<string>, roles: seq<string>)

  predicate IsPlatformAdmin(user: CurrentUser) {
    PLATFORM_ADMIN in user.roles
  }

  function TenantOf(user: CurrentUser): Option<Uuid> {
    match user.tenant case None => None case Some(claim) => claim.uuid
  }

  // _required_tenant_id: 403 without the claim, a ValueError (500) if it is no UUID.
  datatype Required = Tenant(id: Uuid) | Refused(status: nat)

  function RequiredTenant(user: CurrentUser): Required {
    match user.tenant
    case None => Refused(403)
    case Some(TenantClaim(None, _)) => Refused(500)
    case Some(TenantClaim(Some(id), _)) => Tenant(id)
  }

  // str(row.tenant_id) == user.tenant_id
  predicate ClaimNames(user: CurrentUser, tenant: Uuid) {
    user.tenant.Some? && user.tenant.value.canonical && user.tenant.value.uuid == Some(tenant)
  }

  predicate MayReadUser(user: CurrentUser, profile: User) {
    || IsPlatformAdmin(user)
    || (profile.keycloak == user.id && ClaimNames(user, profile.tenant))
    || (user.email.GetOr("") != "" && user.email == Some(profile.email) && ClaimNames(user, profile.tenant))
    || (TENANT_ADMIN in user.roles && ClaimNames(user, profile.tenant))
  }

  predicate IsSelfLookup(key: UserRef, user: CurrentUser) {
    (key.text == user.id || key.text == "me") && user.email.Some?
  }
}
