/** `withAdminProtection`: the admin-only wrapper around a page. It decides
    from the login flag and the role alone, renders the page only for a
    logged-in admin, and otherwise renders nothing and redirects to `/403`. */
module AdminGate {
  import opened Outcomes
  import Session

  const ForbiddenPath := "/403"
  const AdminRole := "admin"

  /** Whether the wrapped page renders, and where the effect redirects. */
  datatype View = View(render: bool, nav: Option<string>)

  /** The effect's redirect test and the render test are written separately
      in `ProtectedRoute.tsx`; together they are exclusive and exhaustive. */
  function Decide(isLoggedIn: bool, userRole: Option<string>): (v: View)
    ensures v.render <==> isLoggedIn && userRole == Some(AdminRole)
    ensures v.nav.Some? <==> !v.render
    ensures v.nav.Some? ==> v.nav.value == ForbiddenPath
  {
    var redirect := !isLoggedIn || userRole != Some(AdminRole);
    var render := isLoggedIn && userRole == Some(AdminRole);
    View(render, if redirect then Some(ForbiddenPath) else None)
  }

  /** The two gates send a visitor who is not logged in to different places:
      the context to the login page, this wrapper to the forbidden page. */
  lemma GatesDisagreeOnVisitor(a: Session.Auth, roles: Option<seq<string>>)
    requires !a.isLoggedIn
    ensures Session.ProtectRoute(a, roles).nav == Some(Session.LoginPath)
    ensures Decide(a.isLoggedIn, a.userRole).nav == Some(ForbiddenPath)
    ensures Session.LoginPath != ForbiddenPath
  {
  }

  /** Both gates grant access to the same states when the context is asked
      for the admin role alone; a refused logged-in user is still sent to
      different pages (`/unauthorized` against `/403`). */
  lemma GatesAgreeOnAdminAccess(a: Session.Auth)
    ensures Decide(a.isLoggedIn, a.userRole).render <==>
            Session.ProtectRoute(a, Some([AdminRole])).allowed
  {
    assert Session.RoleAdmitted(a.userRole, [AdminRole]) <==> a.userRole == Some(AdminRole);
  }

  /** A logged-in ordinary user is redirected to `/403`. */
  lemma UserRoleForbidden()
    ensures Decide(true, Some("user")) == View(false, Some(ForbiddenPath))
  {
  }
}
