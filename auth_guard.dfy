/** The route guard wrapped around every dashboard (components/auth-guard.tsx). */
module AuthGuard {
  import opened Wrappers
  import Auth

  /** The guard's effect: send elsewhere, authorise, or stop when the stored user does not parse. */
  datatype Decision = Redirect(route: string) | Authorized | Stopped

  function Decide(entries: map<string, string>, allowedRoles: Option<seq<string>>): Decision {
    if !Auth.AuthenticatedIn(entries) then Redirect("/login")
    else if allowedRoles.Some? then
      match Auth.StoredUserIn(entries, true)
      case NoUser => Redirect("/unauthorized")
      case Unreadable => Stopped
      case Found(u) =>
        if u.role.Some? && u.role.value in allowedRoles.value then Authorized else Redirect("/unauthorized")
    else Authorized
  }

  /** Children are rendered only once the effect has authorised the visitor. */
  predicate RendersChildren(d: Decision) {
    d.Authorized?
  }

  /** Without a session the guard always redirects to /login and never authorises. */
  lemma GuardRequiresSession(entries: map<string, string>, allowedRoles: Option<seq<string>>)
    ensures !Auth.AuthenticatedIn(entries) ==>
      Decide(entries, allowedRoles) == Redirect("/login") && !RendersChildren(Decide(entries, allowedRoles))
    ensures Decide(entries, allowedRoles) == Redirect("/login") ==> !Auth.AuthenticatedIn(entries)
  {
  }

  /** Without a role list every signed-in visitor is authorised. */
  lemma NoRoleListAuthorisesSession(entries: map<string, string>)
    ensures Decide(entries, None) == Authorized <==> Auth.AuthenticatedIn(entries)
  {
  }

  /** With a role list the guard agrees with `hasRole` from lib/auth.ts; an empty list authorises nobody. */
  lemma RoleListMatchesHasRole(entries: map<string, string>, roles: seq<string>)
    ensures Decide(entries, Some(roles)) == Authorized <==>
      Auth.AuthenticatedIn(entries) && Auth.HasRoleIn(entries, true, roles) == Some(true)
    ensures Decide(entries, Some(roles)) == Redirect("/unauthorized") <==>
      Auth.AuthenticatedIn(entries) && Auth.HasRoleIn(entries, true, roles) == Some(false)
    ensures roles == [] ==> !RendersChildren(Decide(entries, Some(roles)))
  {
  }
}
