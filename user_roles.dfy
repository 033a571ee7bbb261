/** `UserRole`: the closed enumeration of roles, whose values are their names,
    and the role a response record gets when none is given. */
module UserRoles {
  import opened Wrappers

  datatype UserRole = Anonymous | Authenticated | Manager | Admin

  const AllRoles: seq<UserRole> := [Anonymous, Authenticated, Manager, Admin]

  /** `UserResponse.role` defaults to AUTHENTICATED. */
  const DefaultResponseRole: UserRole := Authenticated

  /** The enumeration value of each member. */
  function RoleValue(role: UserRole): string {
    match role
    case Anonymous => "ANONYMOUS"
    case Authenticated => "AUTHENTICATED"
    case Manager => "MANAGER"
    case Admin => "ADMIN"
  }

  /** Looking a member up by its value, as validating `UserRole` input does. */
  function ParseRole(s: string): (r: Option<UserRole>)
    ensures r.Some? ==> RoleValue(r.value) == s
    ensures r.None? ==> forall role :: RoleValue(role) != s
  {
    if s == "ANONYMOUS" then Some(Anonymous)
    else if s == "AUTHENTICATED" then Some(Authenticated)
    else if s == "MANAGER" then Some(Manager)
    else if s == "ADMIN" then Some(Admin)
    else None
  }

  /** Every member is found again from its value. */
  lemma ParseRoleValue(role: UserRole)
    ensures ParseRole(RoleValue(role)) == Some(role)
  {
  }

  /** The enumeration has exactly the four members, with distinct values. */
  lemma RolesClosed()
    ensures |AllRoles| == 4
    ensures forall role :: role in AllRoles
    ensures forall i, j :: 0 <= i < j < |AllRoles| ==> RoleValue(AllRoles[i]) != RoleValue(AllRoles[j])
    ensures DefaultResponseRole in AllRoles && RoleValue(DefaultResponseRole) == "AUTHENTICATED"
  {
    forall role: UserRole ensures role in AllRoles {
      match role
      case Anonymous => assert AllRoles[0] == role;
      case Authenticated => assert AllRoles[1] == role;
      case Manager => assert AllRoles[2] == role;
      case Admin => assert AllRoles[3] == role;
    }
  }
}
