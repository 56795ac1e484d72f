/** The sign-in page's submit handler (frontend/src/pages/SignIn.jsx, `onSubmit`): where a
    completed login navigates. The toasts and the dispatch itself are effects outside this model. */
module SignIn {
  import opened Wrappers
  import opened AuthSlice
  import ProtectedRoute
  import AuthRedirect

  /** The location a guarded route saved in `location.state.from`: its path and query string. */
  datatype FromLocation = FromLocation(pathname: string, search: string)

  /** The page state the handler reads: the form and the location it was sent from. The role
      buttons only set `roleTarget`. */
  datatype Page = Page(email: string, password: string, roleTarget: string, from: Option<FromLocation>)

  /** How the dispatched `login` settled. */
  datatype LoginOutcome = Fulfilled(payload: Option<AuthUser>) | Rejected

  datatype Submit = Navigate(to: string) | NoNavigation | Throws

  /** The role chain of a signed-in user. */
  function Destination(u: AuthUser, from: Option<FromLocation>): (to: string)
    ensures u.role == "admin" ==> to == "/admin"
    ensures u.role == "theaterManager" ==> to == "/manager"
    ensures u.role != "admin" && u.role != "theaterManager" ==>
      to == (if from.Some? then from.value.pathname + from.value.search else "/")
  {
    if u.role == "admin" then "/admin"
    else if u.role == "theaterManager" then "/manager"
    else if from.Some? then from.value.pathname + from.value.search
    else "/"
  }

  /** The sign-in page and the redirect component send a signed-in user to the same place when the
      redirect is given the saved location's path and query string (or nothing without one). */
  lemma SignInAgreesWithRedirect(u: AuthUser, from: Option<FromLocation>)
    ensures AuthRedirect.Target(Some(u), if from.Some? then Some(from.value.pathname + from.value.search) else None)
         == Some(Destination(u, from))
  {
  }

  /** `onSubmit` as written: it reads `loggedInUser.name` first, which throws when the fulfilled
      payload is `null` (the thunk returns `data?.data?.user || null`). */
  function OnSubmitAsWritten(page: Page, outcome: LoginOutcome): (r: Submit)
    ensures outcome.Rejected? ==> r == NoNavigation
    ensures outcome == Fulfilled(None) ==> r == Throws
    ensures outcome.Fulfilled? && outcome.payload.Some? ==> r == Navigate(Destination(outcome.payload.value, page.from))
  {
    match outcome
    case Rejected => NoNavigation
    case Fulfilled(u) => if u.None? then Throws else Navigate(Destination(u.value, page.from))
  }

  /** A login the server accepted but whose `/auth/me` call returned no user reaches the property
      read and throws instead of navigating or reporting failure. */
  lemma NullPayloadThrows(page: Page)
    ensures OnSubmitAsWritten(page, Fulfilled(None)) == Throws
  {
  }

  /** `onSubmit` with the missing user treated as a failed sign-in. */
  function OnSubmit(page: Page, outcome: LoginOutcome): (r: Submit)
    ensures r != Throws
    ensures r.Navigate? <==> outcome.Fulfilled? && outcome.payload.Some?
    ensures r.Navigate? ==> r == Navigate(Destination(outcome.payload.value, page.from))
    ensures outcome.Fulfilled? && outcome.payload.Some? ==> r == OnSubmitAsWritten(page, outcome)
  {
    if outcome.Fulfilled? && outcome.payload.Some? then Navigate(Destination(outcome.payload.value, page.from))
    else NoNavigation
  }

  /** The chosen role button does not change where a sign-in leads. */
  lemma RoleTargetIgnored(page: Page, outcome: LoginOutcome, roleTarget: string)
    ensures OnSubmit(page.(roleTarget := roleTarget), outcome) == OnSubmit(page, outcome)
  {
  }

  /** The sign-in page goes back to the location the route guard saved. */
  lemma {:induction false} BackToGuardedRoute(u: AuthUser, user: Option<AuthUser>, roles: Option<seq<string>>,
                                              here: ProtectedRoute.Location, page: Page)
    requires ProtectedRoute.Guard(false, user, true, roles, here) == ProtectedRoute.Redirect("/signin", Some(here))
    requires page.from == Some(FromLocation(here.pathname, here.search))
    requires u.role != "admin" && u.role != "theaterManager"
    ensures OnSubmit(page, Fulfilled(Some(u))) == Navigate(here.pathname + here.search)
  {
  }

  /** The submit button's label. */
  function ButtonLabel(loading: bool, roleTarget: string): (text: string)
    ensures loading ==> text == "Signing in..."
    ensures !loading && roleTarget == "endUser" ==> text == "Sign In as User"
    ensures !loading && roleTarget == "theaterManager" ==> text == "Sign In as Manager"
    ensures !loading && roleTarget != "endUser" && roleTarget != "theaterManager" ==> text == "Sign In as Admin"
  {
    if loading then "Signing in..."
    else "Sign In as " + (if roleTarget == "endUser" then "User" else if roleTarget == "theaterManager" then "Manager" else "Admin")
  }

  /** The four labels tell the states apart: each role button names its own role, and none reads
      like the pending label. */
  lemma LabelsDistinct(roleTarget: string, other: string)
    requires roleTarget in ["endUser", "theaterManager", "admin"] && other in ["endUser", "theaterManager", "admin"]
    ensures ButtonLabel(false, roleTarget) != ButtonLabel(true, roleTarget)
    ensures roleTarget != other ==> ButtonLabel(false, roleTarget) != ButtonLabel(false, other)
  {
    assert "Signing in..."[8] != "Sign In as User"[8];
  }
}
