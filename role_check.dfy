/** roleCheck(allowedRoles): the middleware that admits an authenticated user
    whose role is in a fixed list, and the four checkers built from it. */
module RoleCheck {
  import opened Common

  const Unauthenticated := Failure(401, "Authentication required")
  const Forbidden := Failure(403, "Insufficient permissions")

  const AdminRoles := ["ADMIN"]
  const ManagerRoles := ["MANAGER", "ADMIN"]
  const StaffRoles := ["STAFF", "MANAGER", "ADMIN"]
  const CustomerRoles := ["CUSTOMER", "STAFF", "MANAGER", "ADMIN"]

  /** The closure roleCheck(allowed) returns, applied to a request's user. */
  function RoleGate(allowed: seq<string>, user: Option<User>): (g: Gate)
    ensures user.None? ==> g == Deny(Unauthenticated)
    ensures user.Some? ==> (g == Pass <==> user.value.role in allowed)
    ensures user.Some? && user.value.role !in allowed ==> g == Deny(Forbidden)
  {
    if user.None? then Deny(Unauthenticated)
    else if user.value.role !in allowed then Deny(Forbidden)
    else Pass
  }

  function RequireAdmin(user: Option<User>): Gate { RoleGate(AdminRoles, user) }
  function RequireManager(user: Option<User>): Gate { RoleGate(ManagerRoles, user) }
  function RequireStaff(user: Option<User>): Gate { RoleGate(StaffRoles, user) }
  function RequireCustomer(user: Option<User>): Gate { RoleGate(CustomerRoles, user) }

  /** Exactly which roles each checker admits. */
  lemma CheckersAdmit(user: Option<User>)
    ensures RequireAdmin(user) == Pass <==> user.Some? && user.value.role == "ADMIN"
    ensures RequireManager(user) == Pass <==> user.Some? && user.value.role in {"MANAGER", "ADMIN"}
    ensures RequireStaff(user) == Pass <==> user.Some? && user.value.role in {"STAFF", "MANAGER", "ADMIN"}
    ensures RequireCustomer(user) == Pass <==> user.Some? && user.value.role in {"CUSTOMER", "STAFF", "MANAGER", "ADMIN"}
  {
  }

  /** Widening the allowed list never turns a pass into a refusal. */
  lemma RoleGateMonotone(narrow: seq<string>, wide: seq<string>, user: Option<User>)
    requires forall r :: r in narrow ==> r in wide
    ensures RoleGate(narrow, user) == Pass ==> RoleGate(wide, user) == Pass
  {
  }

  /** The role lists nest, Admin within Manager within Staff within Customer, so
      passing a stricter checker implies passing every looser one. */
  lemma CheckersNest(user: Option<User>)
    ensures RequireAdmin(user) == Pass ==> RequireManager(user) == Pass
    ensures RequireManager(user) == Pass ==> RequireStaff(user) == Pass
    ensures RequireStaff(user) == Pass ==> RequireCustomer(user) == Pass
  {
    RoleGateMonotone(AdminRoles, ManagerRoles, user);
    RoleGateMonotone(ManagerRoles, StaffRoles, user);
    RoleGateMonotone(StaffRoles, CustomerRoles, user);
  }
}
