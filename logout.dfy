/**
 * POST /api/auth/logout: takes no input, always succeeds and always
 * deletes the session cookie. Nothing is revoked on the server.
 */
module Logout {
  import opened Types

  const LoggedOut: string := "登出成功"

  /** The handler: one constant response. */
  function Post(): (r: Response)
    ensures r.status == 200 && r.body == Success(MessageData(LoggedOut))
    ensures r.cookie == DeleteCookie(CookieName)
  {
    Response(200, Success(MessageData(LoggedOut)), DeleteCookie(CookieName))
  }

  /** Whatever the browser held, it holds no session cookie afterwards; a second logout changes nothing. */
  lemma LogoutClearsJar(jar: Option<string>)
    ensures ApplyCookie(jar, Post().cookie) == None
    ensures ApplyCookie(ApplyCookie(jar, Post().cookie), Post().cookie) == ApplyCookie(jar, Post().cookie)
  {
  }
}
