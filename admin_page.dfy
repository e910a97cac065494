/** The admin page's guard: a spinner while authentication is loading, a
    redirect to the login page and nothing rendered for a visitor who is not
    signed in, and the panel otherwise. */
module AdminPage {
  import opened Wrappers

  const LoginPath := "/login"

  /** What the page renders. The panel's three counters are literals. */
  datatype View = Spinner | Nothing | Panel(total: nat, reviewed: nat, pending: nat)

  /** The render. */
  function Render(authIsLoading: bool, isAuthenticated: bool): (v: View)
    ensures v == Spinner <==> authIsLoading
    ensures v == Nothing <==> !authIsLoading && !isAuthenticated
    ensures v.Panel? <==> !authIsLoading && isAuthenticated
    ensures v.Panel? ==> v.total == 0 && v.reviewed == 0 && v.pending == 0
  {
    if authIsLoading then Spinner
    else if !isAuthenticated then Nothing
    else Panel(0, 0, 0)
  }

  /** The effect: the path pushed to the router, if any. */
  function Redirect(authIsLoading: bool, isAuthenticated: bool): (to: Option<string>)
    ensures to.Some? <==> !authIsLoading && !isAuthenticated
    ensures to.Some? ==> to.value == LoginPath
  {
    if !authIsLoading && !isAuthenticated then Some(LoginPath) else None
  }

  /** Every state is exactly one of: loading (spinner, no redirect), signed
      out (redirect, nothing shown), signed in (panel, no redirect). */
  lemma GuardCases(authIsLoading: bool, isAuthenticated: bool)
    ensures Redirect(authIsLoading, isAuthenticated).Some? <==> Render(authIsLoading, isAuthenticated) == Nothing
    ensures Render(authIsLoading, isAuthenticated).Panel? ==> Redirect(authIsLoading, isAuthenticated).None?
    ensures Render(authIsLoading, isAuthenticated) == Spinner ==> Redirect(authIsLoading, isAuthenticated).None?
  {
  }
}
