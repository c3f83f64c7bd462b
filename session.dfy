/**
 * Properties of the session scheme as a whole: the browser's cookie
 * carried from handler to handler, the split between the gate's
 * restricted check and the handlers' full verification, and the absence
 * of server-side revocation.
 */
module Session {
  import opened Types
  import Strings
  import Users
  import Auth
  import JwtEdge
  import SessionGate
  import Register
  import Login
  import Me
  import Logout
  import TodoRoute

  /**
   * Register, log in, ask who is logged in, log out, ask again: the first
   * three succeed with the registered email, logout clears the browser's
   * cookie, and the last request is refused for want of a token.
   */
  lemma RegisterLoginMeLogout(crypto: Auth.Crypto, config: Auth.Config,
                              users: seq<UserRecord>, nextId: Id,
                              email: string, password: string, now: int)
    requires Auth.SignThenVerify(crypto) && Auth.HashThenCompare(crypto)
    requires Users.TableInvariant(users, nextId)
    requires email != "" && |password| >= Register.MinPasswordLength
    requires Users.FindUnique(users, Users.ByEmail(email)).None?
    ensures var body := Credentials(Some(email), Some(password), None);
            var reg := Register.Post(crypto, users, nextId, Some(body), now);
            var login := Login.Post(crypto, config, reg.users, Some(body), now);
            var jar := ApplyCookie(None, login.cookie);
            var me := Me.Get(crypto, config, reg.users, jar, now);
            var jar' := ApplyCookie(jar, Logout.Post().cookie);
            && reg.response.status == 200
            && login.status == 200 && login.cookie.SetCookie?
            && me.status == 200 && me.body.Success? && me.body.data.UserData?
            && me.body.data.user.email == email
            && jar' == None
            && Me.Get(crypto, config, reg.users, jar', now) == Fail(401, Unauthorized)
  {
  }

  /**
   * Logout is only client-side: after it the browser holds no cookie, but
   * the token login issued still resolves to the user for its lifetime.
   */
  lemma LogoutDoesNotRevoke(crypto: Auth.Crypto, config: Auth.Config, users: seq<UserRecord>, nextId: Id,
                            body: Credentials, issuedAt: int, later: int)
    requires Auth.SignThenVerify(crypto)
    requires Users.TableInvariant(users, nextId)
    requires Login.Post(crypto, config, users, Some(body), issuedAt).status == 200
    requires Auth.WithinLifetime(issuedAt, later)
    ensures var login := Login.Post(crypto, config, users, Some(body), issuedAt);
            && ApplyCookie(ApplyCookie(None, login.cookie), Logout.Post().cookie) == None
            && Auth.GetUserFromToken(crypto, config, users, login.body.data.token, later) == Auth.Found(login.body.data.user)
  {
  }

  /**
   * The gate is signature-blind: a compact token with a well-formed,
   * unexpired payload passes it on the home page even when the full
   * verifier rejects its signature, and only the handlers then refuse it.
   */
  lemma ForgedSignaturePassesGate(crypto: Auth.Crypto, config: Auth.Config, users: seq<UserRecord>,
                                  todos: seq<Todo>, query: TodoRoute.Query, parse: TodoRoute.DateParser,
                                  header: string, payload: string, signature: string,
                                  now: int, decode: JwtEdge.Decoder)
    requires '.' !in header && '.' !in payload && '.' !in signature
    requires decode(payload).Some? && !JwtEdge.Expired(decode(payload).value, now)
    requires crypto.verify(header + "." + payload + "." + signature,
                           Auth.SigningKey(config), Auth.Seconds(now)) == Auth.Threw
    ensures var token := header + "." + payload + "." + signature;
            && SessionGate.Gate("/", Some(token), now, decode) == SessionGate.Next
            && Me.Get(crypto, config, users, Some(token), now) == Fail(401, UserMissing)
            && TodoRoute.Get(crypto, config, users, todos, Some(token), query, now, parse)
               == Fail(401, UserMissing)
  {
    var token := header + "." + payload + "." + signature;
    JwtEdge.SignatureBlind(header, header, payload, signature, signature, now, decode);
    assert token[|header|] == '.';
    assert SessionGate.Matches("/");
    SessionGate.PublicRouteExamples();
  }

  /**
   * A token the restricted check rejects makes the gate delete the cookie
   * on a protected page, while the identity handler answers 401 and
   * leaves the cookie alone.
   */
  lemma RejectedTokenGateVersusMe(crypto: Auth.Crypto, config: Auth.Config, users: seq<UserRecord>,
                                  token: string, now: int, decode: JwtEdge.Decoder)
    requires token != "" && JwtEdge.VerifyTokenSync(token, now, decode).None?
    ensures SessionGate.Gate("/", Some(token), now, decode) == SessionGate.Redirect("/login", true)
    ensures Me.Get(crypto, config, users, Some(token), now).cookie == KeepCookie
  {
    assert SessionGate.Matches("/");
    SessionGate.PublicRouteExamples();
  }

  /**
   * Assumption linking the signing library to the gate's decoder: a
   * signed token is in compact form, and its middle segment decodes to a
   * payload whose `exp` is the issue second plus the lifetime. What the
   * decoder makes of the payload's `userId` is left open.
   */
  ghost predicate SignedExpReadable(crypto: Auth.Crypto, decode: JwtEdge.Decoder)
  {
    forall c, key, iat ::
      && |Strings.Split(crypto.sign(c, key, iat, Auth.TokenLifetime), '.')| == 3
      && decode(Strings.Split(crypto.sign(c, key, iat, Auth.TokenLifetime), '.')[1]).Some?
      && decode(Strings.Split(crypto.sign(c, key, iat, Auth.TokenLifetime), '.')[1]).value.exp
         == Some(iat + Auth.TokenLifetime)
  }

  /**
   * Seven days after login the session is over everywhere: the gate
   * sends the home page to the login page and deletes the cookie, and
   * the identity and todo handlers answer 401 without touching a table.
   */
  lemma ExpiredSessionRefused(crypto: Auth.Crypto, config: Auth.Config, users: seq<UserRecord>,
                              todos: seq<Todo>, nextId: Id, query: TodoRoute.Query,
                              body: Option<TodoRequest>, parse: TodoRoute.DateParser,
                              userId: Id, issuedAt: int, now: int, decode: JwtEdge.Decoder)
    requires Auth.SignThenVerify(crypto) && SignedExpReadable(crypto, decode)
    requires issuedAt >= 0
    requires Auth.Seconds(now) >= Auth.Seconds(issuedAt) + Auth.TokenLifetime
    ensures var token := Auth.GenerateToken(crypto, config, userId, issuedAt);
            && SessionGate.Gate("/", Some(token), now, decode) == SessionGate.Redirect("/login", true)
            && Me.Get(crypto, config, users, Some(token), now) == Fail(401, UserMissing)
            && TodoRoute.Get(crypto, config, users, todos, Some(token), query, now, parse)
               == Fail(401, UserMissing)
            && TodoRoute.Post(crypto, config, users, todos, nextId, Some(token), body, now, parse)
               == TodoRoute.Outcome(Fail(401, UserMissing), todos, nextId)
  {
  }
}
