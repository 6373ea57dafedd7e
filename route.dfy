/** `ProtectedRoute`: what a guarded route renders, decided in a fixed order from the
    authentication state and the route's role restrictions. */
module Route {
  import opened Remote
  import opened Types

  datatype Role = Admin | Member

  function RoleName(r: Role): string
  {
    match r
    case Admin => "admin"
    case Member => "user"
  }

  datatype View = Spinner | Redirect(to: string) | DeniedRequired(required: Role) | DeniedAllowed(allowed: seq<Role>) | Children

  const LoginPath: string := "/admin/login"

  /** The user's role equals the required one (no user never does). */
  predicate HasRole(user: Option<User>, r: Role)
  {
    user.Some? && user.value.role == RoleName(r)
  }

  /** The user's role is among the allowed ones. */
  predicate RoleAllowed(user: Option<User>, allowed: seq<Role>)
  {
    exists i :: 0 <= i < |allowed| && HasRole(user, allowed[i])
  }

  function Decide(isLoading: bool, isAuthenticated: bool, user: Option<User>,
                  requiredRole: Option<Role>, allowedRoles: Option<seq<Role>>): (v: View)
    ensures isLoading ==> v == Spinner
    ensures !isLoading && !isAuthenticated ==> v == Redirect(LoginPath)
    ensures v.DeniedRequired? <==>
      !isLoading && isAuthenticated && requiredRole.Some? && !HasRole(user, requiredRole.value)
    ensures v == Children <==>
      !isLoading && isAuthenticated
      && (requiredRole.None? || HasRole(user, requiredRole.value))
      && (allowedRoles.None? || allowedRoles.value == [] || RoleAllowed(user, allowedRoles.value))
  {
    if isLoading then Spinner
    else if !isAuthenticated then Redirect(LoginPath)
    else if requiredRole.Some? && !HasRole(user, requiredRole.value) then DeniedRequired(requiredRole.value)
    else if allowedRoles.Some? && |allowedRoles.value| > 0 && !RoleAllowed(user, allowedRoles.value) then DeniedAllowed(allowedRoles.value)
    else Children
  }

  /** Any role restriction keeps a signed-in session without a user profile out. */
  lemma NoProfileNoRestrictedRoute(requiredRole: Option<Role>, allowedRoles: Option<seq<Role>>)
    requires requiredRole.Some? || (allowedRoles.Some? && allowedRoles.value != [])
    ensures Decide(false, true, None, requiredRole, allowedRoles) != Children
  {
  }
}
