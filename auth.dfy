/**
 * lib/auth.ts: password hashing, token issue and full verification over a
 * configured secret, and resolution of a token to a user. The hashing and
 * signing libraries are uninterpreted functions; their round trips are
 * named assumptions, used only as preconditions of lemmas.
 */
module Auth {
  import opened Types
  import Users

  /** The key used when `JWT_SECRET` is unset or empty. */
  const FallbackSecret: string := "fallback-secret"

  /** `expiresIn: '7d'`, in seconds. */
  const TokenLifetime: int := 7 * 24 * 60 * 60

  /** bcrypt's cost factor. */
  const HashRounds: nat := 12

  /** The process environment the core reads, fixed at start-up. */
  datatype Config = Config(jwtSecret: Option<string>, nodeEnv: Option<string>)

  /** `process.env.JWT_SECRET || 'fallback-secret'`. */
  function SigningKey(config: Config): (key: string)
    ensures key != ""
    ensures Present(config.jwtSecret) ==> key == config.jwtSecret.value
    ensures !Present(config.jwtSecret) ==> key == FallbackSecret
  {
    if Present(config.jwtSecret) then config.jwtSecret.value else FallbackSecret
  }

  /**
   * The verified payload, read as `{ userId: string }`. The cast at
   * lib/auth.ts:24 checks nothing: `userId` is `None` when the payload has
   * no such member or one that is not a string.
   */
  datatype Claims = Claims(userId: Option<Id>)

  /** What `jwt.verify` does: return the payload, or throw. */
  datatype Verification = Verified(claims: Claims) | Threw

  /**
   * The foreign libraries: `jwt.sign(payload, key, issued-at seconds,
   * lifetime seconds)`, `jwt.verify(token, key, clock seconds)`,
   * `bcrypt.hash(password, rounds)` and `bcrypt.compare(password, digest)`.
   */
  datatype Crypto = Crypto(
    sign: (Claims, string, int, int) -> string,
    verify: (string, string, int) -> Verification,
    hash: (string, nat) -> string,
    compare: (string, string) -> bool)

  /**
   * Assumption about the signing library: a signed token is never empty,
   * and under the same key it verifies to its payload until it expires and
   * is refused from the second `iat + TokenLifetime` on.
   */
  ghost predicate SignThenVerify(crypto: Crypto)
  {
    && (forall c, key, iat, life :: crypto.sign(c, key, iat, life) != "")
    && (forall c, key, iat, clock ::
      iat <= clock < iat + TokenLifetime ==>
      crypto.verify(crypto.sign(c, key, iat, TokenLifetime), key, clock) == Verified(c))
    && (forall c, key, iat, clock ::
      clock >= iat + TokenLifetime ==>
      crypto.verify(crypto.sign(c, key, iat, TokenLifetime), key, clock) == Threw)
  }

  /** Assumption about the hashing library: a password matches its own digest. */
  ghost predicate HashThenCompare(crypto: Crypto)
  {
    forall p :: crypto.compare(p, crypto.hash(p, HashRounds))
  }

  /** `hashPassword(password)`: a digest at cost 12 that the password matches. */
  function HashPassword(crypto: Crypto, password: string): (digest: string)
    ensures HashThenCompare(crypto) ==> crypto.compare(password, digest)
  {
    crypto.hash(password, HashRounds)
  }

  /** `verifyPassword(password, hashedPassword)`: accepts the password's own digest. */
  function VerifyPassword(crypto: Crypto, password: string, digest: string): (ok: bool)
    ensures HashThenCompare(crypto) && digest == crypto.hash(password, HashRounds) ==> ok
  {
    crypto.compare(password, digest)
  }

  /** The library's clock: whole seconds of `Date.now()`. */
  function Seconds(now: int): int
  {
    now / 1000
  }

  /** `verifyToken(token)`: whatever `jwt.verify` throws becomes `None`. */
  function VerifyToken(crypto: Crypto, config: Config, token: string, now: int): (r: Option<Claims>)
    ensures r.Some? <==> crypto.verify(token, SigningKey(config), Seconds(now)).Verified?
    ensures r.Some? ==> r.value == crypto.verify(token, SigningKey(config), Seconds(now)).claims
  {
    match crypto.verify(token, SigningKey(config), Seconds(now))
    case Verified(claims) => Some(claims)
    case Threw => None
  }

  /**
   * `generateToken(userId)` at clock `now` (milliseconds): `{ userId }`
   * signed with the configured key, issued at the current second, for
   * seven days. Under the signing assumption the token verifies to that id
   * for the seconds of its lifetime and is refused from then on.
   */
  function GenerateToken(crypto: Crypto, config: Config, userId: Id, now: int): (token: string)
    ensures SignThenVerify(crypto) ==> token != ""
    ensures SignThenVerify(crypto) ==>
      forall later :: Seconds(now) <= Seconds(later) < Seconds(now) + TokenLifetime ==>
        VerifyToken(crypto, config, token, later) == Some(Claims(Some(userId)))
    ensures SignThenVerify(crypto) ==>
      forall later :: Seconds(later) >= Seconds(now) + TokenLifetime ==>
        VerifyToken(crypto, config, token, later) == None
  {
    crypto.sign(Claims(Some(userId)), SigningKey(config), Seconds(now), TokenLifetime)
  }

  /**
   * What `getUserFromToken` comes to: the public projection of a row,
   * `null`, or an exception from `findUnique`, which rejects a `where`
   * without a string id.
   */
  datatype Lookup = Found(user: User) | NoUser | QueryThrew

  /** `getUserFromToken(token)`: verification, then the public projection of the row with that id. */
  function GetUserFromToken(crypto: Crypto, config: Config, users: seq<UserRecord>, token: string, now: int)
    : (r: Lookup)
    ensures VerifyToken(crypto, config, token, now).None? ==> r == NoUser
    ensures r.QueryThrew? <==>
      VerifyToken(crypto, config, token, now).Some? && VerifyToken(crypto, config, token, now).value.userId.None?
    ensures r.Found? <==>
      var v := VerifyToken(crypto, config, token, now);
      v.Some? && v.value.userId.Some? && exists i :: 0 <= i < |users| && users[i].id == v.value.userId.value
    ensures r.Found? ==>
      exists i :: 0 <= i < |users| && Some(users[i].id) == VerifyToken(crypto, config, token, now).value.userId
                  && r.user == Project(users[i])
  {
    match VerifyToken(crypto, config, token, now)
    case None => NoUser
    case Some(claims) =>
      match claims.userId
      case None => QueryThrew
      case Some(id) =>
        match Users.FindUnique(users, Users.ById(id))
        case None => NoUser
        case Some(rec) => Found(Project(rec))
  }

  /** A token the verifier rejects resolves to no user, whatever the store holds. */
  lemma RejectedTokenSkipsStore(crypto: Crypto, config: Config, users1: seq<UserRecord>,
                                users2: seq<UserRecord>, token: string, now: int)
    requires VerifyToken(crypto, config, token, now).None?
    ensures GetUserFromToken(crypto, config, users1, token, now) == NoUser
    ensures GetUserFromToken(crypto, config, users1, token, now)
         == GetUserFromToken(crypto, config, users2, token, now)
  {
  }

  /** The clock of `now` lies within the lifetime of a token issued at `issuedAt`. */
  predicate WithinLifetime(issuedAt: int, now: int)
  {
    Seconds(issuedAt) <= Seconds(now) < Seconds(issuedAt) + TokenLifetime
  }

  /**
   * Under the signing assumption, a token issued for a stored user
   * resolves to that user's projection for its whole lifetime, because
   * sign and verify use the same key.
   */
  lemma IssuedTokenResolves(crypto: Crypto, config: Config, users: seq<UserRecord>, nextId: Id,
                            k: nat, issuedAt: int, now: int)
    requires SignThenVerify(crypto)
    requires Users.TableInvariant(users, nextId)
    requires k < |users|
    requires WithinLifetime(issuedAt, now)
    ensures GetUserFromToken(crypto, config, users, GenerateToken(crypto, config, users[k].id, issuedAt), now)
         == Found(Project(users[k]))
  {
  }

  /**
   * Under the signing assumption, from the second its seven days are
   * over, an issued token resolves to no user, whatever the table holds.
   */
  lemma ExpiredTokenRejected(crypto: Crypto, config: Config, users: seq<UserRecord>, userId: Id,
                             issuedAt: int, now: int)
    requires SignThenVerify(crypto)
    requires Seconds(now) >= Seconds(issuedAt) + TokenLifetime
    ensures GetUserFromToken(crypto, config, users, GenerateToken(crypto, config, userId, issuedAt), now)
         == NoUser
  {
  }
}
