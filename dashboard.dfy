/**
 * `DashboardPage` (app/dashboard/page.tsx): who the caller is, the login redirect,
 * and the text the page derives from the stored user row: the display name, its
 * first letter, the level label and the email shown.
 */
module Dashboard {
  import opened Wrappers
  import opened Text
  import opened Session

  /** The stored user row's fields the page selects. */
  datatype Profile = Profile(name: Option<string>, email: Option<string>, level: Option<string>)

  /** The caller as the page resolves it, or the redirect to `/login`. */
  datatype Caller = LoginRedirect | SignedIn(userId: string, providerEmail: Option<string>)

  /** What the page shows about the caller. */
  datatype View = Redirect(target: string) | Page(displayName: string, avatar: char, level: string, email: Option<string>)

  const DefaultName := "Student"
  const NoLevel := "N/A"

  /**
   * Lines 15-30. A provider user supplies the id and the email, even when its id is
   * empty (then the page redirects); only without a provider user is the raw cookie
   * value the id, and then there is no email.
   */
  function ResolveCaller(provider: Option<Identity>, cookie: Option<string>): (c: Caller)
    ensures provider.Some? ==>
              c == (if provider.value.id != "" then SignedIn(provider.value.id, provider.value.email) else LoginRedirect)
    ensures provider.None? ==>
              c == (if cookie.Some? && cookie.value != "" then SignedIn(cookie.value, None) else LoginRedirect)
    ensures c.SignedIn? ==> c.userId != ""
  {
    var userId := if provider.Some? then provider.value.id else if cookie.Some? then cookie.value else "";
    var userEmail := if provider.Some? then provider.value.email else None;
    if userId == "" then LoginRedirect else SignedIn(userId, userEmail)
  }

  /**
   * Unlike the layout, the page does not fall back to the cookie when the provider
   * reports a user without an id.
   */
  lemma ProviderUserWithoutIdRedirects(email: Option<string>, value: string)
    requires value != ""
    ensures ResolveCaller(Some(Identity("", email)), Some(value)) == LoginRedirect
    ensures ResolveId(Some(Identity("", email)), Some(value)) == value
  {
  }

  /** `name || userEmail?.split('@')[0] || "Student"`: never empty, drawn from the three in order. */
  function DisplayName(storedName: Option<string>, providerEmail: Option<string>): (n: string)
    ensures n != ""
    ensures storedName.Some? && storedName.value != "" ==> n == storedName.value
    ensures (storedName.None? || storedName.value == "") && providerEmail.Some? && n != DefaultName ==>
              n == Before(providerEmail.value, '@') && StartsWith(providerEmail.value, n) && '@' !in n
    ensures n == DefaultName ==>
              (storedName.None? || storedName.value == "" || storedName.value == DefaultName)
    ensures (storedName.None? || storedName.value == "") && providerEmail.Some? && Before(providerEmail.value, '@') != "" ==>
              n == Before(providerEmail.value, '@')
    ensures (storedName.None? || storedName.value == "") && (providerEmail.None? || Before(providerEmail.value, '@') == "") ==>
              n == DefaultName
  {
    if storedName.Some? && storedName.value != "" then storedName.value
    else if providerEmail.Some? && Before(providerEmail.value, '@') != "" then Before(providerEmail.value, '@')
    else DefaultName
  }

  /** An email that starts with `@` gives no name part, so the default shows. */
  lemma EmailWithoutLocalPart(domain: string)
    ensures DisplayName(None, Some("@" + domain)) == DefaultName
  {
    assert ("@" + domain)[0] == '@';
  }

  /** `displayName[0].toUpperCase()`: always defined, since the name is never empty. */
  function Avatar(displayName: string): (a: char)
    requires displayName != ""
    ensures 'a' <= displayName[0] <= 'z' ==> 'A' <= a <= 'Z' && a as int == displayName[0] as int - 32
    ensures !('a' <= displayName[0] <= 'z') ==> a == displayName[0]
  {
    UpperChar(displayName[0])
  }

  /**
   * `level?.toString().replace('_', ' ').toLowerCase() || 'N/A'`: only the first
   * underscore becomes a space.
   */
  function LevelLabel(level: Option<string>): (text: string)
    ensures text != ""
    ensures level.None? || level.value == "" ==> text == NoLevel
    ensures level.Some? && level.value != "" ==>
              |text| == |level.value|
              && forall i :: 0 <= i < |text| && i != FirstIndexOr(level.value, '_') ==> text[i] == LowerChar(level.value[i])
    ensures level.Some? && level.value != "" && FirstIndexOr(level.value, '_') < |level.value| ==>
              text[FirstIndexOr(level.value, '_')] == ' '
  {
    if level.None? then NoLevel
    else
      var t := ToLower(ReplaceFirstChar(level.value, '_', ' '));
      if t == "" then NoLevel else t
  }

  /** Index of the first `c`, or the length when there is none. */
  function FirstIndexOr(s: string, c: char): (i: nat)
    ensures i <= |s| && c !in s[..i]
    ensures i < |s| ==> s[i] == c
  {
    if c in s then FirstIndex(s, c) else |s|
  }

  /** Lower-casing a string is lower-casing it character by character. */
  lemma {:induction false} LowerEq(s: string, t: string)
    requires |s| == |t| && forall i :: 0 <= i < |s| ==> LowerChar(s[i]) == t[i]
    ensures ToLower(s) == t
  {
  }

  /** A level whose first `_` is at `i` shows as the lower-cased level with a space there. */
  lemma LabelWithUnderscore(level: string, i: nat, shown: string)
    requires i < |level| && level[i] == '_' && '_' !in level[..i]
    requires |shown| == |level| && shown[i] == ' '
    requires forall j :: 0 <= j < |level| && j != i ==> shown[j] == LowerChar(level[j])
    ensures LevelLabel(Some(level)) == shown
  {
    var r := ReplaceFirstChar(level, '_', ' ');
    assert FirstIndex(level, '_') == i;
    assert r == level[i := ' '];
    LowerEq(r, shown);
  }

  /** `HIGH_SCHOOL` shows as `high school`. */
  lemma HighSchoolLabel()
    ensures LevelLabel(Some("HIGH_SCHOOL")) == "high school"
  {
    var level := "HIGH_SCHOOL";
    assert level[..4] == "HIGH";
    LabelWithUnderscore(level, 4, "high school");
  }

  /** `UNIVERSITY` shows as `university`. */
  lemma UniversityLabel()
    ensures LevelLabel(Some("UNIVERSITY")) == "university"
  {
    var u := "UNIVERSITY";
    assert forall i :: 0 <= i < |u| ==> u[i] != '_';
    assert ReplaceFirstChar(u, '_', ' ') == u;
    LowerEq(u, "university");
  }

  /** `EARLY_CAREER` shows as `early career`. */
  lemma EarlyCareerLabel()
    ensures LevelLabel(Some("EARLY_CAREER")) == "early career"
  {
    var level := "EARLY_CAREER";
    assert level[..5] == "EARLY";
    LabelWithUnderscore(level, 5, "early career");
  }

  /** A second underscore is kept: `A_B_C` shows as `a b_c`. */
  lemma OnlyFirstUnderscore()
    ensures LevelLabel(Some("A_B_C")) == "a b_c"
  {
    var level := "A_B_C";
    assert level[..1] == "A";
    LabelWithUnderscore(level, 1, "a b_c");
  }

  /** `dbUser?.email || userEmail` */
  function ShownEmail(stored: Option<string>, providerEmail: Option<string>): (e: Option<string>)
    ensures stored.Some? && stored.value != "" ==> e == stored
    ensures (stored.None? || stored.value == "") ==> e == providerEmail
  {
    if stored.Some? && stored.value != "" then stored else providerEmail
  }

  /**
   * The page: redirect without a caller id, otherwise read the stored row (`fetch`
   * stands for `users.findUnique` on the id) and derive what is shown.
   */
  function DashboardPage(provider: Option<Identity>, cookie: Option<string>, fetch: string -> Option<Profile>): (v: View)
    ensures ResolveCaller(provider, cookie) == LoginRedirect <==> v == Redirect("/login")
    ensures ResolveCaller(provider, cookie).SignedIn? <==> v.Page?
    ensures v.Page? ==> v.displayName != "" && v.avatar == UpperChar(v.displayName[0]) && v.level != ""
    ensures v.Page? ==>
              var c := ResolveCaller(provider, cookie);
              var row := fetch(c.userId);
              && v.displayName == DisplayName(if row.Some? then row.value.name else None, c.providerEmail)
              && v.level == LevelLabel(if row.Some? then row.value.level else None)
              && v.email == ShownEmail(if row.Some? then row.value.email else None, c.providerEmail)
  {
    match ResolveCaller(provider, cookie)
    case LoginRedirect => Redirect("/login")
    case SignedIn(id, providerEmail) =>
      var row := fetch(id);
      var name := DisplayName(if row.Some? then row.value.name else None, providerEmail);
      Page(name, Avatar(name),
           LevelLabel(if row.Some? then row.value.level else None),
           ShownEmail(if row.Some? then row.value.email else None, providerEmail))
  }

  /** The login redirect comes before any data query: its outcome ignores the store. */
  lemma NoQueryBeforeRedirect(provider: Option<Identity>, cookie: Option<string>, f1: string -> Option<Profile>, f2: string -> Option<Profile>)
    requires ResolveCaller(provider, cookie) == LoginRedirect
    ensures DashboardPage(provider, cookie, f1) == DashboardPage(provider, cookie, f2)
  {
  }
}
