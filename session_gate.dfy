/**
 * The session gate (middleware.ts): a store-free decision, per request,
 * from the path and the `Authorization` cookie to "continue" or a
 * redirect, possibly deleting the cookie; and the matcher that decides
 * which paths the gate sees at all.
 */
module SessionGate {
  import opened Types
  import opened Strings
  import JwtEdge

  /** `NextResponse.next()`, or a redirect that may delete the session cookie. */
  datatype Decision = Next | Redirect(location: string, deleteCookie: bool)

  const PublicRoutes: seq<string> := ["/login", "/register"]

  /** `publicRoutes.some(route => pathname.startsWith(route))`. */
  predicate IsPublicRoute(pathname: string)
  {
    exists i :: 0 <= i < |PublicRoutes| && StartsWith(pathname, PublicRoutes[i])
  }

  /** The test is a prefix test on exactly the two public routes. */
  lemma PublicRouteIsPrefixTest(pathname: string)
    ensures IsPublicRoute(pathname) <==> StartsWith(pathname, "/login") || StartsWith(pathname, "/register")
  {
    if StartsWith(pathname, "/login") {
      assert StartsWith(pathname, PublicRoutes[0]);
    }
    if StartsWith(pathname, "/register") {
      assert StartsWith(pathname, PublicRoutes[1]);
    }
  }

  /** Paths below or extending a public route are public; others are not. */
  lemma PublicRouteExamples()
    ensures IsPublicRoute("/login/x") && IsPublicRoute("/registered") && IsPublicRoute("/login")
    ensures !IsPublicRoute("/") && !IsPublicRoute("/todo/login") && !IsPublicRoute("/Login")
  {
    PublicRouteIsPrefixTest("/login/x");
    PublicRouteIsPrefixTest("/registered");
    PublicRouteIsPrefixTest("/login");
    PublicRouteIsPrefixTest("/");
    PublicRouteIsPrefixTest("/todo/login");
    PublicRouteIsPrefixTest("/Login");
    // a prefix agrees with the string at every position it covers
    assert "/todo/login"[1] != "/login"[1] && "/todo/login"[1] != "/register"[1];
    assert "/Login"[1] != "/login"[1] && "/Login"[1] != "/register"[1];
  }

  /** `middleware(request)` for a request to `pathname` carrying `cookie`, at clock `now`. */
  function Middleware(pathname: string, cookie: Option<string>, now: int, decode: JwtEdge.Decoder): (d: Decision)
    // public route, token passes the check: already logged in, go home
    ensures (d == Redirect("/", false)) <==>
      IsPublicRoute(pathname) && Present(cookie) && JwtEdge.VerifyTokenSync(cookie.value, now, decode).Some?
    // protected route without a token: to the login page, cookie untouched
    ensures (d == Redirect("/login", false)) <==> !IsPublicRoute(pathname) && !Present(cookie)
    // protected route with a rejected token: to the login page, cookie deleted
    ensures (d == Redirect("/login", true)) <==>
      !IsPublicRoute(pathname) && Present(cookie) && JwtEdge.VerifyTokenSync(cookie.value, now, decode).None?
    // every other request continues
    ensures d.Next? <==>
      if IsPublicRoute(pathname)
      then !(Present(cookie) && JwtEdge.VerifyTokenSync(cookie.value, now, decode).Some?)
      else Present(cookie) && JwtEdge.VerifyTokenSync(cookie.value, now, decode).Some?
    // the cookie is deleted in exactly one case
    ensures (d.Redirect? && d.deleteCookie) <==>
      !IsPublicRoute(pathname) && Present(cookie) && JwtEdge.VerifyTokenSync(cookie.value, now, decode).None?
  {
    var isPublic := IsPublicRoute(pathname);
    if isPublic && Present(cookie) && JwtEdge.VerifyTokenSync(cookie.value, now, decode).Some? then
      Redirect("/", false)
    else if !isPublic && !Present(cookie) then
      Redirect("/login", false)
    else if !isPublic && JwtEdge.VerifyTokenSync(cookie.value, now, decode).None? then
      Redirect("/login", true)
    else
      Next
  }

  /** The characters a regular expression's '.' does not match. */
  predicate LineTerminator(ch: char)
  {
    ch == '\n' || ch == '\r' || ch == '\U{2028}' || ch == '\U{2029}'
  }

  /**
   * `(?!api|_next/static|_next/image|favicon.ico)`; the unescaped '.'
   * matches any character but a line terminator.
   */
  predicate Excluded(rest: string)
  {
    || StartsWith(rest, "api")
    || StartsWith(rest, "_next/static")
    || StartsWith(rest, "_next/image")
    || (|rest| >= 11 && rest[..7] == "favicon" && !LineTerminator(rest[7]) && rest[8..11] == "ico")
  }

  /**
   * `config.matcher`: `/((?!api|_next/static|_next/image|favicon.ico).*)`,
   * anchored; the closing `.*` consumes no line terminator.
   */
  predicate Matches(pathname: string)
  {
    && |pathname| >= 1 && pathname[0] == '/' && !Excluded(pathname[1..])
    && forall i :: 1 <= i < |pathname| ==> !LineTerminator(pathname[i])
  }

  /** The pattern is anchored and its `.*` stops at a line terminator. */
  lemma MatchesIff(pathname: string)
    ensures Matches(pathname) <==>
      && StartsWith(pathname, "/")
      && !Excluded(pathname[1..])
      && '\n' !in pathname && '\r' !in pathname && '\U{2028}' !in pathname && '\U{2029}' !in pathname
  {
  }

  /** A request as the framework handles it: the gate runs only on matched paths. */
  function Gate(pathname: string, cookie: Option<string>, now: int, decode: JwtEdge.Decoder): (d: Decision)
    ensures !Matches(pathname) ==> d == Next
    ensures Matches(pathname) ==> d == Middleware(pathname, cookie, now, decode)
  {
    if Matches(pathname) then Middleware(pathname, cookie, now, decode) else Next
  }

  /** API routes, build assets and the icon are never redirected and never lose the cookie. */
  lemma ExcludedPathsBypassGate(rest: string, cookie: Option<string>, now: int, decode: JwtEdge.Decoder)
    requires StartsWith(rest, "api") || StartsWith(rest, "_next/static")
          || StartsWith(rest, "_next/image") || StartsWith(rest, "favicon.ico")
    ensures Gate("/" + rest, cookie, now, decode) == Next
  {
  }

  /**
   * The pattern's '.' is a wildcard: `/faviconXico` bypasses the gate too,
   * `/apiary` as well, while a line terminator anywhere after the leading
   * '/' keeps a path from being matched.
   */
  lemma MatcherWildcard(cookie: Option<string>, now: int, decode: JwtEdge.Decoder)
    ensures Gate("/faviconXico", cookie, now, decode) == Next
    ensures Gate("/apiary", cookie, now, decode) == Next
    ensures Matches("/") && Matches("/login") && Matches("/todo")
    ensures !Matches("/favicon\nico") && !Matches("/todo\n")
  {
    assert "/favicon\nico"[8] == '\n';
    assert "/todo\n"[5] == '\n';
    assert "/faviconXico"[1..] == "faviconXico";
    assert "/faviconXico"[1..][..7] == "favicon";
    assert "/apiary"[1..] == "apiary";
    assert StartsWith("apiary", "api");
    assert "/login"[1..] == "login" && "login"[0] != 'a' && "login"[0] != '_';
    assert "/todo"[1..] == "todo" && "todo"[0] != 'a' && "todo"[0] != '_';
  }

  /**
   * Requests to the home page: without a cookie they go to the login page
   * and keep the (absent) cookie; with a token of fewer than three
   * segments they go there and the cookie is deleted.
   */
  lemma ProtectedPathScenario(token: string, now: int, decode: JwtEdge.Decoder)
    requires token != "" && Count(token, '.') < 2
    ensures Gate("/", None, now, decode) == Redirect("/login", false)
    ensures Gate("/", Some(""), now, decode) == Redirect("/login", false)
    ensures Gate("/", Some(token), now, decode) == Redirect("/login", true)
  {
  }
}
