/** The route guard: what a protected page renders for the current session. */
module ProtectedRoute {
  import opened Options
  import opened Session

  /** The four things the guard can render. */
  datatype Outcome = Spinner | RedirectToLogin | AccessDenied | Children

  /** `ProtectedRoute`: a spinner while the session loads, a redirect to the
      login page without a user, "Access Denied" when a role list is given and
      does not contain the user's role (an empty list therefore denies
      everyone), and the page itself otherwise. */
  function Decide(loading: bool, user: Option<User>, requiredRole: Option<seq<string>>): (r: Outcome)
    ensures r == Spinner <==> loading
    ensures r == RedirectToLogin <==> !loading && user.None?
    ensures r == AccessDenied <==> !loading && user.Some? && requiredRole.Some? && user.value.role !in requiredRole.value
    ensures r == Children <==> !loading && user.Some? && (requiredRole.None? || user.value.role in requiredRole.value)
  {
    if loading then Spinner
    else if user.None? then RedirectToLogin
    else if requiredRole.Some? && user.value.role !in requiredRole.value then AccessDenied
    else Children
  }

  /** A route without a role list admits every signed-in user once loading is over. */
  lemma OpenRouteAdmitsEveryone(u: User)
    ensures Decide(false, Some(u), None) == Children
  {
  }

  /** An empty role list is present, so it denies every signed-in user. */
  lemma EmptyRoleListDeniesEveryone(u: User)
    ensures Decide(false, Some(u), Some([])) == AccessDenied
  {
  }

  /** The role list the router attaches to each page: admins and managers only
      for adding employees and for the reports, none for the other pages. */
  function RouteRequirement(path: string): (r: Option<seq<string>>)
    ensures r.Some? <==> path == "/add-employee" || path == "/reports"
    ensures r.Some? ==> r.value == ["admin", "manager"]
  {
    if path == "/add-employee" || path == "/reports" then Some(["admin", "manager"]) else None
  }
}
