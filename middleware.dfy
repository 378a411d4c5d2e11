/** The site-wide password gate (middleware.ts): a decision over the
    configured password, the `site-auth` cookie, the request method and the
    path, plus the path matcher that decides which requests reach it. */
module Middleware {
  import opened Wrappers
  import opened Text

  const LoginPath: string := "/login"
  const AuthPath: string := "/api/auth"

  /** `NextResponse.next()` or a redirect to a same-origin path. */
  datatype Decision = Next | Redirect(location: string)

  /** A password is configured: `SITE_PASSWORD` is set and non-empty. */
  predicate PasswordSet(sitePassword: Option<string>) {
    sitePassword.Some? && sitePassword.value != ""
  }

  /** middleware: redirect to `/login` exactly when a password is set, the
      cookie does not carry it, and the path is neither the auth route nor
      the login page; every other request passes through. */
  function Decide(sitePassword: Option<string>, authCookie: Option<string>, httpMethod: string, pathname: string): (d: Decision)
    ensures d.Next? || d == Redirect(LoginPath)
    ensures d == Redirect(LoginPath) <==>
      PasswordSet(sitePassword) && authCookie != sitePassword && pathname != AuthPath && pathname != LoginPath
    ensures !PasswordSet(sitePassword) ==> d == Next
    ensures PasswordSet(sitePassword) && authCookie == sitePassword ==> d == Next
    ensures pathname == AuthPath || pathname == LoginPath ==> d == Next
  {
    if !PasswordSet(sitePassword) then Next
    else if authCookie.Some? && authCookie.value == sitePassword.value then Next
    else if httpMethod == "POST" && pathname == AuthPath then Next
    else if pathname == AuthPath then Next
    else if pathname != LoginPath then Redirect(LoginPath)
    else Next
  }

  /** The characters a JavaScript regular expression's `.` does not match. */
  predicate IsLineTerminator(c: char) {
    c == '\n' || c == '\r' || c == '\U{2028}' || c == '\U{2029}'
  }

  /** `s` starts with text matching the regular-expression literal `pat`,
      in which `.` matches any character but a line terminator and every
      other character matches itself. */
  predicate StartsWithPattern(s: string, pat: string) {
    |pat| <= |s| &&
    forall i :: 0 <= i < |pat| ==> if pat[i] == '.' then !IsLineTerminator(s[i]) else s[i] == pat[i]
  }

  /** The matcher `/((?!_next/static|_next/image|favicon.ico).*)`, anchored
      at both ends: a path starting with `/` whose remainder does not start
      with one of the three excluded patterns and holds no line terminator. */
  predicate MatcherSelects(pathname: string) {
    && |pathname| >= 1 && pathname[0] == '/'
    && !StartsWithPattern(pathname[1..], "_next/static")
    && !StartsWithPattern(pathname[1..], "_next/image")
    && !StartsWithPattern(pathname[1..], "favicon.ico")
    && forall i :: 1 <= i < |pathname| ==> !IsLineTerminator(pathname[i])
  }

  /** What a request meets: the middleware when the matcher selects its
      path, otherwise nothing (it passes through). */
  function Gate(sitePassword: Option<string>, authCookie: Option<string>, httpMethod: string, pathname: string): (d: Decision)
    ensures d == Redirect(LoginPath) <==>
      && MatcherSelects(pathname)
      && PasswordSet(sitePassword) && authCookie != sitePassword
      && pathname != AuthPath && pathname != LoginPath
  {
    if MatcherSelects(pathname) then Decide(sitePassword, authCookie, httpMethod, pathname) else Next
  }

  /** Static build output, optimised images and the favicon are never
      gated, whatever the password and cookie. */
  lemma ExcludedPathsPass(sitePassword: Option<string>, authCookie: Option<string>, httpMethod: string, pathname: string)
    requires IsPrefix("/_next/static", pathname) || IsPrefix("/_next/image", pathname) || IsPrefix("/favicon.ico", pathname)
    ensures Gate(sitePassword, authCookie, httpMethod, pathname) == Next
  {
    var rest := pathname[1..];
    if IsPrefix("/_next/static", pathname) {
      assert pathname[..13] == "/" + "_next/static";
      assert rest[..12] == pathname[..13][1..] == "_next/static";
      assert StartsWithPattern(rest, "_next/static");
    } else if IsPrefix("/_next/image", pathname) {
      assert pathname[..12] == "/" + "_next/image";
      assert rest[..11] == pathname[..12][1..] == "_next/image";
      assert StartsWithPattern(rest, "_next/image");
    } else {
      assert pathname[..12] == "/" + "favicon.ico";
      assert rest[..11] == pathname[..12][1..] == "favicon.ico";
      assert StartsWithPattern(rest, "favicon.ico");
    }
  }

  /** The unescaped `.` in `favicon.ico` is a wildcard, so a path such as
      `/favicon-ico` is excluded from the gate as well. */
  lemma FaviconDotIsWildcard(sitePassword: Option<string>, authCookie: Option<string>, httpMethod: string)
    ensures !MatcherSelects("/favicon-ico")
    ensures Gate(sitePassword, authCookie, httpMethod, "/favicon-ico") == Next
  {
    assert StartsWithPattern("/favicon-ico"[1..], "favicon.ico");
  }

  /** Every redirect goes to `/login`, and `/login` itself is never
      redirected, so the gate cannot send a browser round in a loop. */
  lemma NoRedirectLoop(sitePassword: Option<string>, authCookie: Option<string>, httpMethod: string, pathname: string)
    ensures Gate(sitePassword, authCookie, httpMethod, pathname).Redirect? ==>
      Gate(sitePassword, authCookie, "GET", Gate(sitePassword, authCookie, httpMethod, pathname).location) == Next
  {
  }
}
