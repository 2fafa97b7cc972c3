/** The `users` table record and its role helpers (app/src/db/models.py). */
module Models {
  import opened Wrappers

  /** A `UUID(as_uuid=True)` primary key; only compared for equality. */
  type Uuid = bv128

  // The string values of the `AdminRole` enumeration.
  const ROLE_CLIENT: string := "client"
  const ROLE_ADMIN: string := "admin"
  const ROLE_SUPERADMIN: string := "superadmin"

  /** One row of `users`. `roles` is the `ARRAY(String)` column: order and repeats are kept. */
  datatype User = User(
    id: Uuid,
    fullname: string,
    hashedPassword: string,
    isActive: bool,
    roles: seq<string>)

  /** The roles of a list, as a Python `set` built from it would hold them. */
  function RoleSet(roles: seq<string>): set<string>
  {
    set role | role in roles
  }

  /** Property `User.is_superadmin`. */
  function IsSuperadmin(u: User): (b: bool)
    ensures b <==> ROLE_SUPERADMIN in RoleSet(u.roles)
  {
    ROLE_SUPERADMIN in u.roles
  }

  /** Property `User.is_admin`. */
  function IsAdmin(u: User): (b: bool)
    ensures b <==> ROLE_ADMIN in RoleSet(u.roles)
  {
    ROLE_ADMIN in u.roles
  }

  /** `User.enrich_admin_roles_by_admin_role`: a new role set with `admin` added, or
    * `None` (the method falls off its end) when the user is already an admin. */
  function EnrichAdminRoles(u: User): (r: Option<set<string>>)
    ensures r.Some? <==> !IsAdmin(u)
    ensures r.Some? ==> forall role :: role in r.value <==> role in u.roles || role == ROLE_ADMIN
    ensures r.Some? ==> |r.value| == |RoleSet(u.roles)| + 1
  {
    if !IsAdmin(u) then Some(RoleSet(u.roles) + {ROLE_ADMIN}) else None
  }

  /** `User.remove_admin_privileges_from_model`: a new role set without `admin`, or
    * `None` when the user is not an admin. */
  function RemoveAdminPrivileges(u: User): (r: Option<set<string>>)
    ensures r.Some? <==> IsAdmin(u)
    ensures r.Some? ==> forall role :: role in r.value <==> role in u.roles && role != ROLE_ADMIN
    ensures r.Some? ==> |r.value| == |RoleSet(u.roles)| - 1
  {
    if IsAdmin(u) then
      var kept := set role | role in u.roles && role != ROLE_ADMIN;
      assert kept == RoleSet(u.roles) - {ROLE_ADMIN};
      Some(kept)
    else None
  }

  /** A user whose stored roles list holds exactly the role set `s`. */
  predicate HoldsRoles(u: User, s: set<string>)
  {
    RoleSet(u.roles) == s
  }

  /** Storing the enriched roles and then removing admin gives back the original role set. */
  lemma {:induction false} RemoveAfterEnrich(u: User, promoted: User)
    requires !IsAdmin(u)
    requires HoldsRoles(promoted, EnrichAdminRoles(u).value)
    ensures RemoveAdminPrivileges(promoted) == Some(RoleSet(u.roles))
  {
    assert IsAdmin(promoted);
    var removed := RemoveAdminPrivileges(promoted).value;
    forall role
      ensures role in removed <==> role in RoleSet(u.roles)
    {
      assert role in promoted.roles <==> role in RoleSet(promoted.roles);
    }
    assert removed == RoleSet(u.roles);
  }

  /** Storing the reduced roles of an admin and then enriching gives back the original role set. */
  lemma {:induction false} EnrichAfterRemove(u: User, demoted: User)
    requires IsAdmin(u)
    requires HoldsRoles(demoted, RemoveAdminPrivileges(u).value)
    ensures EnrichAdminRoles(demoted) == Some(RoleSet(u.roles))
  {
    assert !IsAdmin(demoted);
    var enriched := EnrichAdminRoles(demoted).value;
    forall role
      ensures role in enriched <==> role in RoleSet(u.roles)
    {
      assert role in demoted.roles <==> role in RoleSet(demoted.roles);
    }
    assert enriched == RoleSet(u.roles);
  }
}
