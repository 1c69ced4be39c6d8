/** The roles a token can carry, and `require_roles`. */
module Roles {
  const PLATFORM_ADMIN := "platform_admin"
  const TENANT_ADMIN := "tenant_admin"
  const TENANT_USER := "tenant_user"

  predicate PassesGate(roles: seq<string>, gate: set<string>) {
    exists i :: 0 <= i < |roles| && roles[i] in gate
  }

  // A role held opens every gate that lists it.
  lemma RolesPass(roles: seq<string>, role: string, gate: set<string>)
    ensures role in roles && role in gate ==> PassesGate(roles, gate)
  {
  }
}
