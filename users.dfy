/** The authenticated caller and its role predicates (app/Models/User.php). */
module Users {

  /** The values of the `role` column's enumeration. */
  const Roles: set<string> := {"superadmin", "admin", "user"}

  /** The caller of an action: its id and its `role` column, kept as the stored string. */
  datatype User = User(id: nat, role: string) {

    predicate IsSuperadmin() { role == "superadmin" }

    predicate IsAdmin() { role == "admin" }

    predicate IsUser() { role == "user" }

    /** Managers are the callers whose role is in the list [superadmin, admin]. */
    predicate CanManageInventory() { role in ["superadmin", "admin"] }
  }

  /** A manager is exactly a superadmin or an admin. */
  lemma ManagerIsSuperadminOrAdmin(u: User)
    ensures u.CanManageInventory() <==> u.IsSuperadmin() || u.IsAdmin()
  {
  }

  /** For a role of the enumeration, exactly one of the three role predicates holds. */
  lemma ExactlyOneRole(u: User)
    requires u.role in Roles
    ensures (if u.IsSuperadmin() then 1 else 0) + (if u.IsAdmin() then 1 else 0)
          + (if u.IsUser() then 1 else 0) == 1
  {
  }

  /** For a role of the enumeration, the managers are exactly the non-users. */
  lemma ManagerIffNotUser(u: User)
    requires u.role in Roles
    ensures u.CanManageInventory() <==> !u.IsUser()
  {
  }
}
