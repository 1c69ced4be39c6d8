/** The routes the services implement, and the role gate of each. */
module Routes {
  import opened Roles

  datatype Route =
    | ListUsers | GetUser | CreateUser | UpdateUser | DeactivateUser
    | ListResources | GetResource | CreateResource | UpdateResource | DeleteResource
    | CreateIntent | ListPayments | GetPayment
    | ListTenants | CreateTenant | TenantStats | RotateTenantKey

  // The arguments of require_roles.
  function GateOf(route: Route): set<string> {
    match route
    case ListUsers | ListPayments => {TENANT_ADMIN, PLATFORM_ADMIN}
    case GetUser | GetResource | ListResources | GetPayment => {TENANT_USER, TENANT_ADMIN, PLATFORM_ADMIN}
    case CreateUser | UpdateUser | DeactivateUser | DeleteResource => {TENANT_ADMIN}
    case CreateResource | UpdateResource | CreateIntent => {TENANT_USER, TENANT_ADMIN}
    case ListTenants | CreateTenant | TenantStats | RotateTenantKey => {PLATFORM_ADMIN}
  }
}
