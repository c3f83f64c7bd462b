/**
 * POST /api/auth/register: three guards in a fixed order (missing fields,
 * short password, taken email), then one new row holding the password's
 * digest, and the public projection of that row in the response.
 */
module Register {
  import opened Types
  import Users
  import Auth

  const PasswordTooShort: string := "密码至少需要6个字符"
  const EmailTaken: string := "该邮箱已被注册"
  const RegisterFailed: string := "注册失败，请稍后重试"

  const MinPasswordLength: nat := 6

  /** The guards, in the handler's order: the error response, or `None` to go on. */
  function Check(users: seq<UserRecord>, body: Option<Credentials>): (r: Option<Response>)
    ensures r.Some? ==> r.value.status in {400, 409, 500} && r.value.body.Failure? && r.value.cookie == KeepCookie
    // an unreadable JSON body throws inside the try block
    ensures body.None? ==> r == Some(Fail(500, RegisterFailed))
    // missing fields are reported first, whatever the password or the table
    ensures body.Some? && !(Present(body.value.email) && Present(body.value.password)) ==>
      r == Some(Fail(400, MissingCredentials))
    // then a password shorter than six characters; exactly six passes
    ensures body.Some? && Present(body.value.email) && Present(body.value.password) ==>
      (|body.value.password.value| < MinPasswordLength ==> r == Some(Fail(400, PasswordTooShort)))
    // then a taken email
    ensures body.Some? && Present(body.value.email) && Present(body.value.password)
            && |body.value.password.value| >= MinPasswordLength ==>
      (r.Some? <==> Users.FindUnique(users, Users.ByEmail(body.value.email.value)).Some?)
      && (r.Some? ==> r == Some(Fail(409, EmailTaken)))
    ensures r.None? ==> body.Some? && Present(body.value.email) && Present(body.value.password)
  {
    if body.None? then Some(Fail(500, RegisterFailed))
    else
      var b := body.value;
      if !Present(b.email) || !Present(b.password) then Some(Fail(400, MissingCredentials))
      else if |b.password.value| < MinPasswordLength then Some(Fail(400, PasswordTooShort))
      else if Users.FindUnique(users, Users.ByEmail(b.email.value)).Some? then Some(Fail(409, EmailTaken))
      else None
  }

  /** The row `prisma.user.create` inserts. */
  function NewUser(crypto: Auth.Crypto, id: Id, body: Credentials, now: int): UserRecord
    requires Present(body.email) && Present(body.password)
  {
    UserRecord(id, body.email.value, Auth.HashPassword(crypto, body.password.value), body.name, now, now)
  }

  /** The handler's response and the user table it leaves. */
  datatype Outcome = Outcome(response: Response, users: seq<UserRecord>, nextId: Id)

  /** The whole handler, as a function of the table before the request. */
  function Post(crypto: Auth.Crypto, users: seq<UserRecord>, nextId: Id, body: Option<Credentials>, now: int)
    : (out: Outcome)
    // registration never sets a cookie and never returns a token
    ensures out.response.cookie == KeepCookie
    ensures out.response.body.Success? ==> out.response.body.data.UserData?
    ensures out.response.status == 200 <==> Check(users, body).None?
    // every error leaves the table as it was
    ensures out.response.status != 200 ==>
      out.response == Check(users, body).value && out.users == users && out.nextId == nextId
    // success adds exactly one row: that email, the digest of that password, that name, a fresh id
    ensures out.response.status == 200 ==>
      && |out.users| == |users| + 1
      && out.users[..|users|] == users
      && out.users[|users|].id == nextId
      && out.users[|users|].email == body.value.email.value
      && out.users[|users|].passwordHash == Auth.HashPassword(crypto, body.value.password.value)
      && out.users[|users|].name == body.value.name
      && out.users[|users|].createdAt == now && out.users[|users|].updatedAt == now
      && out.nextId == nextId + 1
      && out.response == Ok(UserData(Project(out.users[|users|])))
    ensures Users.TableInvariant(users, nextId) ==> Users.TableInvariant(out.users, out.nextId)
  {
    match Check(users, body)
    case Some(error) => Outcome(error, users, nextId)
    case None =>
      var rec := NewUser(crypto, nextId, body.value, now);
      Outcome(Ok(UserData(Project(rec))), users + [rec], nextId + 1)
  }

  /** Registering an email twice: the first request succeeds, the second is a conflict. */
  lemma RegisterTwice(crypto: Auth.Crypto, users: seq<UserRecord>, nextId: Id,
                      body: Credentials, now1: int, now2: int)
    requires Present(body.email) && Present(body.password) && |body.password.value| >= MinPasswordLength
    requires Users.FindUnique(users, Users.ByEmail(body.email.value)).None?
    ensures Post(crypto, users, nextId, Some(body), now1).response.status == 200
    ensures var first := Post(crypto, users, nextId, Some(body), now1);
            var second := Post(crypto, first.users, first.nextId, Some(body), now2);
            second.response == Fail(409, EmailTaken) && second.users == first.users
  {
  }
}
