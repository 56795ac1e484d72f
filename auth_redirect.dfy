/** The redirect that sends a signed-in user away from a page (frontend/src/components/AuthRedirect.jsx). */
module AuthRedirect {
  import opened Wrappers
  import opened AuthSlice

  /** The target of `navigate`, or `None` when the effect navigates nowhere. `to` defaults to '/'. */
  function Target(user: Option<AuthUser>, to: Option<string>): (r: Option<string>)
    ensures r.None? <==> user.None?
    ensures user.Some? && user.value.role == "admin" ==> r == Some("/admin")
    ensures user.Some? && user.value.role == "theaterManager" ==> r == Some("/manager")
    ensures user.Some? && user.value.role != "admin" && user.value.role != "theaterManager" ==> r == Some(to.GetOr("/"))
  {
    if user.None? then None
    else if user.value.role == "admin" then Some("/admin")
    else if user.value.role == "theaterManager" then Some("/manager")
    else Some(to.GetOr("/"))
  }
}
