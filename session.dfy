/**
 * Who the caller is, as the admin gate and the root layout work it out: the
 * identity provider's user first, then the raw value of the `custom_session`
 * cookie. The provider call and the cookie jar are inputs here.
 */
module Session {
  import opened Wrappers

  /** The identity provider's user, as far as the gates look at it. */
  datatype Identity = Identity(id: string, email: Option<string>)

  /** The name of the fallback session cookie. */
  const CookieName := "custom_session"

  /** The stored role an administrator must have, compared with `===`. */
  const AdminRole := "ADMIN"

  /**
   * The answer of the data store to "select role from users where id = ... single":
   * an error (which `.single()` also reports for a missing row), no row, or the row's role.
   */
  datatype RoleQuery = QueryFailed(message: string) | NoRow | Row(role: string)

  /**
   * `user?.id || customSession?.value`. JavaScript treats `undefined` and the empty
   * string alike, so the empty string stands for "no id". The id comes from one of
   * the two sources, and it is empty only when neither gives a non-empty one.
   */
  function ResolveId(provider: Option<Identity>, cookie: Option<string>): (id: string)
    ensures id != "" ==> (provider.Some? && provider.value.id == id) || cookie == Some(id)
    ensures id == "" <==> (provider.None? || provider.value.id == "") && (cookie.None? || cookie.value == "")
  {
    if provider.Some? && provider.value.id != "" then provider.value.id
    else if cookie.Some? then cookie.value
    else ""
  }

  /** A provider user with an id decides the caller id; the cookie is not consulted. */
  lemma ProviderWins(user: Identity, c1: Option<string>, c2: Option<string>)
    requires user.id != ""
    ensures ResolveId(Some(user), c1) == user.id
    ensures ResolveId(Some(user), c1) == ResolveId(Some(user), c2)
  {
  }

  /** Without a provider id the raw cookie value is the caller id, unverified. */
  lemma CookieFallback(provider: Option<Identity>, value: string)
    requires provider.None? || provider.value.id == ""
    ensures ResolveId(provider, Some(value)) == value
  {
  }
}
