/**
 * `RootLayout` (app/layout.tsx, lines 26-50): what the navigation bar is told
 * about the caller. Logged in means a provider user or a `custom_session` cookie;
 * admin means the resolved id's stored role is exactly `ADMIN`.
 */
module RootLayout {
  import opened Wrappers
  import opened Session

  datatype NavState = NavState(isLoggedIn: bool, isAdmin: bool)

  /**
   * The layout's two flags. The role query's data is `null` on an error or a
   * missing row, so only an `ADMIN` row makes `isAdmin` true.
   */
  function LayoutFlags(provider: Option<Identity>, cookie: Option<string>, lookup: string -> RoleQuery): (s: NavState)
    ensures s.isLoggedIn <==> provider.Some? || cookie.Some?
    ensures s.isAdmin <==> ResolveId(provider, cookie) != "" && lookup(ResolveId(provider, cookie)) == Row(AdminRole)
  {
    var id := ResolveId(provider, cookie);
    var isAdmin := id != "" && lookup(id).Row? && lookup(id).role == AdminRole;
    NavState(provider.Some? || cookie.Some?, isAdmin)
  }

  /** Only a logged-in caller can be shown the admin link. */
  lemma AdminImpliesLoggedIn(provider: Option<Identity>, cookie: Option<string>, lookup: string -> RoleQuery)
    ensures LayoutFlags(provider, cookie, lookup).isAdmin ==> LayoutFlags(provider, cookie, lookup).isLoggedIn
  {
  }

  /** With no id there is no role query: the flags do not depend on what it would say. */
  lemma NoQueryWithoutId(provider: Option<Identity>, cookie: Option<string>, l1: string -> RoleQuery, l2: string -> RoleQuery)
    requires ResolveId(provider, cookie) == ""
    ensures LayoutFlags(provider, cookie, l1) == LayoutFlags(provider, cookie, l2)
    ensures !LayoutFlags(provider, cookie, l1).isAdmin
  {
  }

  /**
   * An empty `custom_session` cookie counts as logged in, but yields no id and so
   * never admin.
   */
  lemma EmptyCookieLoggedInNotAdmin(lookup: string -> RoleQuery)
    ensures LayoutFlags(None, Some(""), lookup) == NavState(true, false)
  {
  }
}
