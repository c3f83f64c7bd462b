/**
 * GET /api/auth/me: two guards around token resolution. It reads the
 * cookie and the table and changes neither.
 */
module Me {
  import opened Types
  import Auth

  /** The catch-all error of the handler. */
  const MeFailed: string := "获取用户信息失败"

  /** The handler for a request carrying `cookie`. */
  function Get(crypto: Auth.Crypto, config: Auth.Config, users: seq<UserRecord>,
               cookie: Option<string>, now: int): (r: Response)
    // even a rejected token leaves the cookie in place
    ensures r.cookie == KeepCookie
    ensures !Present(cookie) ==> r == Fail(401, Unauthorized)
    ensures r.status == 200 <==>
      Present(cookie) && Auth.GetUserFromToken(crypto, config, users, cookie.value, now).Found?
    ensures r.status == 200 ==>
      r.body == Success(UserData(Auth.GetUserFromToken(crypto, config, users, cookie.value, now).user))
    ensures Present(cookie) && Auth.GetUserFromToken(crypto, config, users, cookie.value, now).NoUser? ==>
      r == Fail(401, UserMissing)
    // a verified payload without a string `userId` makes the lookup throw
    ensures Present(cookie) && Auth.GetUserFromToken(crypto, config, users, cookie.value, now).QueryThrew? ==>
      r == Fail(500, MeFailed)
  {
    if !Present(cookie) then Fail(401, Unauthorized)
    else
      match Auth.GetUserFromToken(crypto, config, users, cookie.value, now)
      case NoUser => Fail(401, UserMissing)
      case QueryThrew => Fail(500, MeFailed)
      case Found(user) => Ok(UserData(user))
  }
}
