/** The route guard: while the session is loading it renders nothing; without
    a role it sends the visitor to the login page; with a role the route does
    not allow it sends them to the unauthorized page; otherwise it renders the
    protected page. */
module ProtectedRoute {
  import opened Wrappers

  datatype Decision = RenderNothing | Redirect(path: string) | RenderChildren

  /** `!role`: no role, or the empty string. */
  predicate HasRole(role: Option<string>)
  {
    role.Some? && role.value != ""
  }

  /** The guard's chain of early returns. */
  function Decide(loading: bool, role: Option<string>, allowed: seq<string>): Decision
  {
    if loading then RenderNothing
    else if !HasRole(role) then Redirect("/login")
    else if role.value !in allowed then Redirect("/unauthorized")
    else RenderChildren
  }

  /** Each outcome, stated by the inputs that lead to it: nothing while
      loading whatever the role, the login page without a role, the
      unauthorized page for a role the route does not allow, and the page
      itself exactly when a role the route allows is present. */
  lemma DecideCases(loading: bool, role: Option<string>, allowed: seq<string>)
    ensures Decide(loading, role, allowed) == RenderNothing <==> loading
    ensures Decide(loading, role, allowed) == Redirect("/login") <==> !loading && !HasRole(role)
    ensures Decide(loading, role, allowed) == Redirect("/unauthorized") <==>
      !loading && HasRole(role) && role.value !in allowed
    ensures Decide(loading, role, allowed) == RenderChildren <==>
      !loading && HasRole(role) && role.value in allowed
  {
    assert "/login" != "/unauthorized" by {
      assert |"/login"| != |"/unauthorized"|;
    }
  }

  /** A route that allows no role never renders its page. */
  lemma EmptyAllowedNeverRenders(loading: bool, role: Option<string>)
    ensures Decide(loading, role, []) != RenderChildren
  {
  }

  /** Allowing more roles never takes a rendered page away. */
  lemma WiderAllowedKeepsAccess(loading: bool, role: Option<string>, allowed: seq<string>, more: seq<string>)
    requires Decide(loading, role, allowed) == RenderChildren
    ensures Decide(loading, role, allowed + more) == RenderChildren
  {
  }
}
