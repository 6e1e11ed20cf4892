/** The landing page's redirect (app/page.tsx): a signed-in user goes to their role's dashboard. */
module HomePage {
  import opened Wrappers
  import Auth

  /** The dashboard for a role in the landing page's switch; any other role goes back to /login. */
  function DashboardFor(role: Option<string>): string {
    if role == Some("STUDENT") then "/student/dashboard"
    else if role == Some("STAFF") then "/staff/dashboard"
    else if role == Some("ADMIN") then "/admin/dashboard"
    else "/login"
  }

  /**
   * Where the landing page's effect navigates; `None` when it does not navigate
   * (signed in but no stored user, or a stored user that does not parse).
   */
  function HomeRoute(entries: map<string, string>): Option<string> {
    if !Auth.AuthenticatedIn(entries) then Some("/login")
    else match Auth.StoredUserIn(entries, true)
      case NoUser => None
      case Unreadable => None
      case Found(u) => Some(DashboardFor(u.role))
  }

  /** The landing page's routing, case by case. */
  lemma HomeRouteSpec(entries: map<string, string>)
    ensures !Auth.AuthenticatedIn(entries) ==> HomeRoute(entries) == Some("/login")
    ensures HomeRoute(entries).None? <==>
      Auth.AuthenticatedIn(entries) && !Auth.StoredUserIn(entries, true).Found?
    ensures HomeRoute(entries) == Some("/student/dashboard") <==>
      Auth.AuthenticatedIn(entries) && Auth.StoredUserIn(entries, true).Found?
      && Auth.StoredUserIn(entries, true).user.role == Some("STUDENT")
    ensures HomeRoute(entries) == Some("/staff/dashboard") <==>
      Auth.AuthenticatedIn(entries) && Auth.StoredUserIn(entries, true).Found?
      && Auth.StoredUserIn(entries, true).user.role == Some("STAFF")
    ensures HomeRoute(entries) == Some("/admin/dashboard") <==>
      Auth.AuthenticatedIn(entries) && Auth.StoredUserIn(entries, true).Found?
      && Auth.StoredUserIn(entries, true).user.role == Some("ADMIN")
  {
  }

  /** A signed-in user with any role outside the three is sent back to /login. */
  lemma UnknownRoleToLogin(entries: map<string, string>, u: Auth.User)
    requires Auth.AuthenticatedIn(entries) && Auth.StoredUserIn(entries, true) == Auth.Found(u)
    requires u.role !in {Some("STUDENT"), Some("STAFF"), Some("ADMIN")}
    ensures HomeRoute(entries) == Some("/login")
  {
  }
}
