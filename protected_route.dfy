/** The route guard (frontend/src/components/ProtectedRoute.jsx): what a route renders for the
    signed-in user, the loading flag, the route's `requireAuth` flag and its optional role list. */
module ProtectedRoute {
  import opened Wrappers
  import opened AuthSlice
  import AuthRedirect

  /** The location a redirect to the sign-in page carries in its state. */
  datatype Location = Location(pathname: string, search: string)

  datatype Outcome =
    | Placeholder
    | Redirect(to: string, from: Option<Location>)
    | Render(user: Option<AuthUser>)

  /** `roles?.length && !roles.includes(user.role)`. */
  predicate RoleRefused(roles: Option<seq<string>>, role: string)
  {
    roles.Some? && |roles.value| > 0 && role !in roles.value
  }

  /** The component's conditional returns in order. */
  function Guard(loading: bool, user: Option<AuthUser>, requireAuth: bool, roles: Option<seq<string>>, here: Location)
    : (o: Outcome)
    ensures loading ==> o == Placeholder
    ensures !loading && !requireAuth && user.Some? ==>
      o == Redirect(if user.value.role == "admin" then "/admin"
                    else if user.value.role == "theaterManager" then "/manager" else "/", None)
    ensures !loading && requireAuth && user.None? ==> o == Redirect("/signin", Some(here))
    ensures !loading && requireAuth && user.Some? && RoleRefused(roles, user.value.role) ==> o == Redirect("/", None)
    ensures o.Render? <==>
      !loading && (if requireAuth then user.Some? && !RoleRefused(roles, user.value.role) else user.None?)
    ensures o.Render? ==> o.user == user
  {
    if loading then Placeholder
    else if !requireAuth && user.Some? then
      if user.value.role == "admin" then Redirect("/admin", None)
      else if user.value.role == "theaterManager" then Redirect("/manager", None)
      else Redirect("/", None)
    else if requireAuth && user.None? then Redirect("/signin", Some(here))
    else if requireAuth && RoleRefused(roles, user.value.role) then Redirect("/", None)
    else Render(user)
  }

  /** A protected route never renders without a user, and a role-restricted one only for a
      listed role. */
  lemma {:induction false} RenderNeedsAccess(loading: bool, user: Option<AuthUser>, roles: Option<seq<string>>, here: Location)
    requires Guard(loading, user, true, roles, here).Render?
    ensures user.Some?
    ensures roles.Some? && |roles.value| > 0 ==> user.value.role in roles.value
  {
  }

  /** A public-only route sends a signed-in user where the page redirect would. */
  lemma {:induction false} PublicRouteAgreesWithRedirect(user: Option<AuthUser>, roles: Option<seq<string>>, here: Location)
    requires user.Some?
    ensures Guard(false, user, false, roles, here) == Redirect(AuthRedirect.Target(user, None).value, None)
  {
  }
}
