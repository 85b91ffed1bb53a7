/**
 * The edge route guard (middleware.ts): refresh the provider session, then send
 * a caller with neither a provider user nor a `custom_session` cookie from a
 * protected path to `/login`. Any exception lets the request through untouched.
 * The `config.matcher` pattern decides on which paths the guard runs at all.
 */
module EdgeGuard {
  import opened Text

  /** The request URL, split into what the redirect keeps and what it replaces. */
  datatype Url = Url(origin: string, pathname: string, search: string)

  /** What `updateSession` does: return (with or without a user) or throw. */
  datatype Refresh = Refreshed(hasUser: bool) | RefreshThrew

  /** The three responses the guard can give. */
  datatype Response =
    | RedirectTo(url: Url)   // NextResponse.redirect(url)
    | ProviderResponse       // the refreshed `supabaseResponse`
    | Continue               // NextResponse.next() with the request's headers

  const LoginPath := "/login"

  /** The path prefixes the guard protects. */
  predicate IsProtected(pathname: string) {
    StartsWith(pathname, "/programs") || StartsWith(pathname, "/dashboard")
  }

  /** The default `middleware(request)`; `hasSessionCookie` is whether `custom_session` is present. */
  function Middleware(url: Url, refresh: Refresh, hasSessionCookie: bool): (r: Response)
    ensures r.RedirectTo? <==> refresh.Refreshed? && IsProtected(url.pathname) && !refresh.hasUser && !hasSessionCookie
    ensures r.RedirectTo? ==> r.url == url.(pathname := LoginPath)
    ensures r == Continue <==> refresh == RefreshThrew
  {
    match refresh
    case RefreshThrew => Continue
    case Refreshed(hasUser) =>
      if IsProtected(url.pathname) && !hasUser && !hasSessionCookie
      then RedirectTo(url.(pathname := LoginPath))
      else ProviderResponse
  }

  /** A plain prefix test: `/programsX` is protected, `/admin` is not. */
  lemma ProtectedIsPrefixTest()
    ensures IsProtected("/programsX")
    ensures IsProtected("/dashboard/settings")
    ensures !IsProtected("/admin")
    ensures !IsProtected("/admin/users")
  {
    assert "/programsX"[..9] == "/programs";
    assert "/dashboard/settings"[..10] == "/dashboard";
    assert "/admin/users"[..9][1] != "/programs"[1];
    assert "/admin/users"[..10][1] != "/dashboard"[1];
  }

  /** The guard lets an anonymous request to an admin page through: it does not protect `/admin`. */
  lemma AdminNotGuarded(url: Url)
    requires url.pathname == "/admin" || url.pathname == "/admin/users"
    ensures Middleware(url, Refreshed(false), false) == ProviderResponse
  {
    ProtectedIsPrefixTest();
  }

  /** The cookie's presence alone admits the request; its value plays no part. */
  lemma CookiePresenceSuffices(url: Url, hasUser: bool)
    ensures Middleware(url, Refreshed(hasUser), true) == ProviderResponse
  {
  }

  /** Fail open: a throwing refresh never yields a redirect, whatever the path. */
  lemma FailsOpen(url: Url, hasSessionCookie: bool)
    ensures !Middleware(url, RefreshThrew, hasSessionCookie).RedirectTo?
  {
  }

  /** The extensions of static images the matcher leaves alone. */
  predicate HasImageExtension(rest: string) {
    EndsWith(rest, ".svg") || EndsWith(rest, ".png") || EndsWith(rest, ".jpg")
    || EndsWith(rest, ".jpeg") || EndsWith(rest, ".gif") || EndsWith(rest, ".webp")
  }

  /**
   * `favicon.ico` in the pattern: its unescaped `.` matches any one character,
   * so `faviconXico` is excluded too.
   */
  predicate StartsFavicon(rest: string) {
    |rest| >= 11 && rest[..7] == "favicon" && rest[8..11] == "ico"
  }

  /**
   * `config.matcher`: `/((?!_next/static|_next/image|favicon.ico|.*\.(?:svg|png|jpg|jpeg|gif|webp)$).*)`.
   * The negative look-ahead is taken at the character after the leading `/`.
   */
  predicate GuardRuns(pathname: string) {
    |pathname| >= 1 && pathname[0] == '/' &&
    var rest := pathname[1..];
    !StartsWith(rest, "_next/static") && !StartsWith(rest, "_next/image")
    && !StartsFavicon(rest) && !HasImageExtension(rest)
  }

  /** A path whose last character ends none of the listed extensions has no image extension. */
  lemma NoImageExtension(rest: string)
    requires |rest| > 0 && rest[|rest| - 1] != 'g' && rest[|rest| - 1] != 'f' && rest[|rest| - 1] != 'p'
    ensures !HasImageExtension(rest)
  {
    forall ext | ext in [".svg", ".png", ".jpg", ".jpeg", ".gif", ".webp"]
      ensures !EndsWith(rest, ext)
    {
      if |ext| <= |rest| {
        assert rest[|rest| - |ext|..][|ext| - 1] == rest[|rest| - 1];
      }
    }
  }

  /** After a leading `/`, starting with `/` + `x` is starting the rest with `x`. */
  lemma StartsAfterSlash(p: string, x: string)
    requires |p| >= 1 && p[0] == '/'
    ensures StartsWith(p, "/" + x) <==> StartsWith(p[1..], x)
  {
    if |x| + 1 <= |p| {
      assert p[..|x| + 1] == [p[0]] + p[1..][..|x|];
      assert ("/" + x)[1..] == x;
      if StartsWith(p, "/" + x) {
        assert p[1..][..|x|] == p[..|x| + 1][1..];
      }
    }
  }

  /**
   * The matcher leaves out every `/_next/static` and `/_next/image` path, every
   * `/favicon?ico` path and every path ending in one of the image extensions.
   */
  lemma MatcherExcludesAssets(p: string)
    requires StartsWith(p, "/_next/static") || StartsWith(p, "/_next/image")
             || (|p| >= 1 && (StartsFavicon(p[1..]) || HasImageExtension(p[1..])))
    ensures !GuardRuns(p)
  {
    if |p| >= 1 && p[0] == '/' {
      AssetPrefixes(p);
    }
  }

  lemma AssetPrefixes(p: string)
    requires |p| >= 1 && p[0] == '/'
    ensures StartsWith(p, "/_next/static") <==> StartsWith(p[1..], "_next/static")
    ensures StartsWith(p, "/_next/image") <==> StartsWith(p[1..], "_next/image")
  {
    assert "/" + "_next/static" == "/_next/static";
    assert "/" + "_next/image" == "/_next/image";
    StartsAfterSlash(p, "_next/static");
    StartsAfterSlash(p, "_next/image");
  }

  /** The matcher runs exactly on `/` paths that none of the exclusions describe. */
  lemma GuardRunsExactly(p: string)
    requires |p| >= 1 && p[0] == '/'
    ensures GuardRuns(p) <==>
              !(StartsWith(p, "/_next/static") || StartsWith(p, "/_next/image")
                || StartsFavicon(p[1..]) || HasImageExtension(p[1..]))
  {
    AssetPrefixes(p);
  }

  /** Concrete paths: static chunks, the favicon and an image under a protected prefix. */
  lemma MatcherExamples()
    ensures !GuardRuns("/_next/static/chunk.js")
    ensures !GuardRuns("/_next/image/x")
    ensures !GuardRuns("/favicon.ico")
    ensures !GuardRuns("/programs/logo.png")
  {
    assert "_next/static/chunk.js"[..12] == "_next/static";
    assert "_next/image/x"[..11] == "_next/image";
    assert "favicon.ico"[..7] == "favicon" && "favicon.ico"[8..11] == "ico";
    var png := "programs/logo.png";
    assert png[|png| - 4..] == ".png";
  }

  /** The two example page paths `/programs/abc` and `/dashboard` are seen by the guard. */
  lemma MatcherKeepsPages()
    ensures GuardRuns("/programs/abc")
    ensures GuardRuns("/dashboard")
  {
    var abc := "programs/abc";
    assert abc[..12][0] != "_next/static"[0];
    assert abc[..11][0] != "_next/image"[0];
    assert abc[..7][0] != "favicon"[0];
    NoImageExtension(abc);
    var d := "dashboard";
    assert d[..7][0] != "favicon"[0];
    NoImageExtension(d);
  }
}
