/**
 * `verifyAdmin` (lib/admin-auth.ts): resolve the caller id, check that it has the
 * textual shape of a UUID (section 3 of RFC 4122, without the version and variant
 * bits), look up its stored role and let only `ADMIN` through. Every other outcome
 * is one of three redirects. The role query is a parameter: the data store's answer
 * for a given id.
 */
module AdminAuth {
  import opened Wrappers
  import opened Session

  /** What the gate does: throw a redirect, or hand back the caller id. */
  datatype Gate = Redirect(target: string) | Allow(id: string)

  const NoUserTarget := "/login?error=admin_no_user"
  const InvalidUuidTarget := "/login?error=admin_invalid_uuid"
  const DeniedTarget := "/"

  /** `[0-9a-f]` under the case-insensitive flag. */
  predicate IsHex(c: char) {
    ('0' <= c <= '9') || ('a' <= c <= 'f') || ('A' <= c <= 'F')
  }

  /** The positions of the four hyphens in `8-4-4-4-12`. */
  predicate IsDashPosition(i: int) {
    i == 8 || i == 13 || i == 18 || i == 23
  }

  /** `/^[0-9a-f]{8}-[0-9a-f]{4}-[0-9a-f]{4}-[0-9a-f]{4}-[0-9a-f]{12}$/i.test(s)` */
  predicate IsUuid(s: string) {
    |s| == 36 && forall i :: 0 <= i < 36 ==> if IsDashPosition(i) then s[i] == '-' else IsHex(s[i])
  }

  predicate AllHex(g: string) {
    forall i :: 0 <= i < |g| ==> IsHex(g[i])
  }

  /** Five hex groups of lengths 8, 4, 4, 4 and 12 joined by hyphens form an accepted id. */
  lemma UuidFromGroups(g1: string, g2: string, g3: string, g4: string, g5: string)
    requires |g1| == 8 && |g2| == 4 && |g3| == 4 && |g4| == 4 && |g5| == 12
    requires AllHex(g1) && AllHex(g2) && AllHex(g3) && AllHex(g4) && AllHex(g5)
    ensures IsUuid(g1 + "-" + g2 + "-" + g3 + "-" + g4 + "-" + g5)
  {
    var s := g1 + "-" + g2 + "-" + g3 + "-" + g4 + "-" + g5;
    forall i | 0 <= i < 36
      ensures if IsDashPosition(i) then s[i] == '-' else IsHex(s[i])
    {
      if i < 8 { assert s[i] == g1[i]; }
      else if 8 < i < 13 { assert s[i] == g2[i - 9]; }
      else if 13 < i < 18 { assert s[i] == g3[i - 14]; }
      else if 18 < i < 23 { assert s[i] == g4[i - 19]; }
      else if 23 < i { assert s[i] == g5[i - 24]; }
    }
  }

  /** Every accepted id is five hex groups of lengths 8, 4, 4, 4 and 12 joined by hyphens. */
  lemma UuidGroups(s: string)
    requires IsUuid(s)
    ensures s == s[..8] + "-" + s[9..13] + "-" + s[14..18] + "-" + s[19..23] + "-" + s[24..]
    ensures AllHex(s[..8]) && AllHex(s[9..13]) && AllHex(s[14..18]) && AllHex(s[19..23]) && AllHex(s[24..])
  {
    assert !IsDashPosition(0);
    var t := s[..8] + "-" + s[9..13] + "-" + s[14..18] + "-" + s[19..23] + "-" + s[24..];
    assert s[8] == '-' && s[13] == '-' && s[18] == '-' && s[23] == '-';
    assert |t| == |s|;
    forall i | 0 <= i < 36 ensures t[i] == s[i] { }
  }

  /** `verifyAdmin()` as a decision on the provider user, the cookie and the role query. */
  function VerifyAdmin(provider: Option<Identity>, cookie: Option<string>, lookup: string -> RoleQuery): (g: Gate)
    ensures var id := ResolveId(provider, cookie);
      && (g.Allow? <==> id != "" && IsUuid(id) && lookup(id) == Row(AdminRole))
      && (g.Allow? ==> g.id == id)
      && (g == Redirect(NoUserTarget) <==> id == "")
      && (g == Redirect(InvalidUuidTarget) <==> id != "" && !IsUuid(id))
      && (g == Redirect(DeniedTarget) <==> id != "" && IsUuid(id) && lookup(id) != Row(AdminRole))
  {
    var id := ResolveId(provider, cookie);
    if id == "" then Redirect(NoUserTarget)
    else if !IsUuid(id) then Redirect(InvalidUuidTarget)
    else match lookup(id)
      case Row(role) => if role == AdminRole then Allow(id) else Redirect(DeniedTarget)
      case _ => Redirect(DeniedTarget)
  }

  /**
   * Without a usable id the data store is never asked: the outcome is the same
   * whatever the role query would have answered.
   */
  lemma NoLookupBeforeValidId(provider: Option<Identity>, cookie: Option<string>, l1: string -> RoleQuery, l2: string -> RoleQuery)
    requires var id := ResolveId(provider, cookie); id == "" || !IsUuid(id)
    ensures VerifyAdmin(provider, cookie, l1) == VerifyAdmin(provider, cookie, l2)
  {
  }

  /** A failed query, a missing row or any role other than `ADMIN` sends the caller home. */
  lemma FailsClosed(provider: Option<Identity>, cookie: Option<string>, lookup: string -> RoleQuery)
    requires var id := ResolveId(provider, cookie); id != "" && IsUuid(id)
    requires lookup(ResolveId(provider, cookie)).QueryFailed? || lookup(ResolveId(provider, cookie)).NoRow?
             || (lookup(ResolveId(provider, cookie)).Row? && lookup(ResolveId(provider, cookie)).role != AdminRole)
    ensures VerifyAdmin(provider, cookie, lookup) == Redirect(DeniedTarget)
  {
  }

  /** The id handed back is the non-empty, 36-character id the gate resolved. */
  lemma AllowedIdShape(provider: Option<Identity>, cookie: Option<string>, lookup: string -> RoleQuery)
    requires VerifyAdmin(provider, cookie, lookup).Allow?
    ensures var id := VerifyAdmin(provider, cookie, lookup).id;
      id == ResolveId(provider, cookie) && |id| == 36 && IsUuid(id)
  {
  }

  /**
   * When the provider reports a user and the cookie names someone else, the gate
   * judges the provider's user.
   */
  lemma ProviderIdentityDecides(user: Identity, cookieValue: string, lookup: string -> RoleQuery)
    requires user.id != "" && cookieValue != user.id
    ensures VerifyAdmin(Some(user), Some(cookieValue), lookup) == VerifyAdmin(Some(user), None, lookup)
    ensures VerifyAdmin(Some(user), Some(cookieValue), lookup).Allow? ==>
              VerifyAdmin(Some(user), Some(cookieValue), lookup).id == user.id
  {
  }

  /** What a gated admin action sees of its caller: the provider user, the cookie and the role query. */
  datatype AdminRequest = AdminRequest(provider: Option<Identity>, cookie: Option<string>, lookup: string -> RoleQuery)

  function GateOf(req: AdminRequest): Gate {
    VerifyAdmin(req.provider, req.cookie, req.lookup)
  }

  /**
   * How a gated server action ends: the gate's redirect (nothing after it ran), or
   * a return with an optional `{message}` reply, the paths revalidated and an
   * optional final redirect.
   */
  datatype ActionOutcome =
    | Halted(target: string)
    | Returned(message: Option<string>, revalidated: seq<string>, redirectTo: Option<string>)
}
