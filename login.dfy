/**
 * POST /api/auth/login: read-only guards over the user table, one generic
 * 401 for an unknown email and for a wrong password, and on success a
 * fresh token returned in the body and set as the session cookie with
 * the attributes of section 4.1.2 of RFC 6265.
 */
module Login {
  import opened Types
  import Users
  import Auth

  const InvalidCredentials: string := "邮箱或密码错误"
  const LoginFailed: string := "登录失败，请稍后重试"

  /** `maxAge: 7 * 24 * 60 * 60`, in seconds. */
  const SessionMaxAge: int := 7 * 24 * 60 * 60

  /** `response.cookies.set('Authorization', token, { ... })`. */
  function SessionCookie(config: Auth.Config, token: string): (c: CookieAction)
    ensures c.SetCookie? && c.name == CookieName && c.value == token
    ensures c.SetCookie? ==>
      && c.options.httpOnly
      && c.options.sameSite == "lax"
      && c.options.path == "/"
      && c.options.maxAge == 604800
      && (c.options.secure <==> config.nodeEnv == Some("production"))
  {
    SetCookie(CookieName, token,
      CookieOptions(true, config.nodeEnv == Some("production"), "lax", SessionMaxAge, "/"))
  }

  /** The stored row for `email` matches `password`. */
  predicate Matches(crypto: Auth.Crypto, users: seq<UserRecord>, email: string, password: string)
  {
    var found := Users.FindUnique(users, Users.ByEmail(email));
    found.Some? && Auth.VerifyPassword(crypto, password, found.value.passwordHash)
  }

  /** The handler. It only reads the table: no outcome carries a new one. */
  function Post(crypto: Auth.Crypto, config: Auth.Config, users: seq<UserRecord>,
                body: Option<Credentials>, now: int): (r: Response)
    ensures r.status in {200, 400, 401, 500}
    ensures body.None? ==> r == Fail(500, LoginFailed)
    ensures body.Some? && !(Present(body.value.email) && Present(body.value.password)) ==>
      r == Fail(400, MissingCredentials)
    // unknown email and wrong password: one status, one message
    ensures r.status == 401 <==>
      body.Some? && Present(body.value.email) && Present(body.value.password)
      && !Matches(crypto, users, body.value.email.value, body.value.password.value)
    ensures r.status == 401 ==> r == Fail(401, InvalidCredentials)
    // success: the projection of the matching row, a token for its id, and the same token as cookie
    ensures r.status == 200 ==>
      exists k :: 0 <= k < |users| && users[k].email == body.value.email.value
        && Auth.VerifyPassword(crypto, body.value.password.value, users[k].passwordHash)
        && r == Response(200,
                         Success(AuthData(Project(users[k]), Auth.GenerateToken(crypto, config, users[k].id, now))),
                         SessionCookie(config, Auth.GenerateToken(crypto, config, users[k].id, now)))
    ensures r.status != 200 ==> r.cookie == KeepCookie
  {
    if body.None? then Fail(500, LoginFailed)
    else
      var b := body.value;
      if !Present(b.email) || !Present(b.password) then Fail(400, MissingCredentials)
      else
        match Users.FindUnique(users, Users.ByEmail(b.email.value))
        case None => Fail(401, InvalidCredentials)
        case Some(user) =>
          if !Auth.VerifyPassword(crypto, b.password.value, user.passwordHash) then
            Fail(401, InvalidCredentials)
          else
            var token := Auth.GenerateToken(crypto, config, user.id, now);
            Response(200, Success(AuthData(Project(user), token)), SessionCookie(config, token))
  }

  /**
   * Enumeration resistance: a request for an unknown email and a request
   * with a known email but a wrong password get the identical response.
   */
  lemma UnknownEmailLooksLikeWrongPassword(crypto: Auth.Crypto, config: Auth.Config, users: seq<UserRecord>,
                                           unknown: Credentials, wrong: Credentials, now1: int, now2: int)
    requires Present(unknown.email) && Present(unknown.password)
    requires Present(wrong.email) && Present(wrong.password)
    requires Users.FindUnique(users, Users.ByEmail(unknown.email.value)).None?
    requires Users.FindUnique(users, Users.ByEmail(wrong.email.value)).Some?
    requires !Auth.VerifyPassword(crypto, wrong.password.value,
                                  Users.FindUnique(users, Users.ByEmail(wrong.email.value)).value.passwordHash)
    ensures Post(crypto, config, users, Some(unknown), now1) == Post(crypto, config, users, Some(wrong), now2)
  {
  }

  /** With unique emails, login succeeds exactly for a stored email and a password matching its digest. */
  lemma LoginSucceedsIffCredentialsMatch(crypto: Auth.Crypto, config: Auth.Config,
                                         users: seq<UserRecord>, nextId: Id,
                                         body: Credentials, now: int)
    requires Users.TableInvariant(users, nextId)
    requires Present(body.email) && Present(body.password)
    ensures Post(crypto, config, users, Some(body), now).status == 200 <==>
      exists k :: 0 <= k < |users| && users[k].email == body.email.value
        && Auth.VerifyPassword(crypto, body.password.value, users[k].passwordHash)
  {
  }
}
