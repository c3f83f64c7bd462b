# Session and authentication core of a daily-todo web application, in Dafny

This project models the authentication and session core of a Next.js todo
application, and the small amount of decision logic around it:

- the **restricted token check** (`verifyTokenSync`). The session gate runs it without
  the signing library. It splits a compact JWT (section 7.1 of RFC 7515) into
  exactly three segments, decodes the middle one, and tests its `exp` NumericDate
  (section 4.1.4 of RFC 7519). It never reads the header or the signature;
- the **session gate** (`middleware` and its `config.matcher`). For each request it
  decides, from the path and the `Authorization` cookie alone, whether to continue,
  redirect home, or redirect to the login page and delete the cookie;
- **token issue and full verification** (lib/auth.ts). This covers the configured
  secret with its fallback, `verifyToken` turning every library failure into
  "no claims", and `getUserFromToken` resolving a token to the public projection of
  a stored user;
- the four **auth handlers**: register, login, me and logout. Each yields a tagged
  response made of a status, a success or failure body and a cookie action;
- the **todo route**. Both handlers authenticate first. The listing builds a
  `where` filter from the owner, an optional one-day window and an optional
  completion flag, then orders its rows by (completed, dueDate, dueTime). Creation
  validates the body and inserts a row owned by the caller;
- `formatTime` and the string branch of `formatDateForInput` (lib/utils.ts).

## Layout

| file | module | models |
|---|---|---|
| types.dfy | `Types` | the shapes of lib/types.ts, and the response and cookie records |
| strings.dfy | `Strings` | JavaScript `split` on one character, `startsWith`, text-column order |
| users.dfy | `Users` | the user table: unique email and id, lookup by either |
| jwt_edge.dfy | `JwtEdge` | lib/jwt-edge.ts |
| session_gate.dfy | `SessionGate` | middleware.ts |
| auth.dfy | `Auth` | lib/auth.ts |
| register.dfy, login.dfy, me.dfy, logout.dfy | `Register`, `Login`, `Me`, `Logout` | app/api/auth/*/route.ts |
| todo_route.dfy | `TodoRoute` | app/api/todo/route.ts |
| store.dfy | `Store` | the shared database: a class whose two writing handlers update its tables in place |
| utils.dfy | `Utils` | lib/utils.ts |
| session.dfy | `Session` | properties that span several handlers |

## How the outside world enters the model

- **Time.** `Date.now()` becomes a parameter `now`, in milliseconds. The JWT
  library's clock is `now / 1000`, which equals `Math.floor` for a non-negative clock.
- **Decoding.** `JSON.parse(atob(segment))` becomes an abstract partial function
  `JwtEdge.Decoder`. `None` stands for every way it throws, and for a `null`
  payload.
- **The foreign libraries.** `jwt.sign`, `jwt.verify`, `bcrypt.hash` and
  `bcrypt.compare` are the uninterpreted fields of `Auth.Crypto`. Their round trips
  are never proved. They are named assumptions (`Auth.SignThenVerify`,
  `Auth.HashThenCompare`), used only as preconditions of the lemmas that need them.
- **Configuration.** `JWT_SECRET` and `NODE_ENV` arrive as an injected
  `Auth.Config`.
- **Dates.** `new Date(s)` becomes an abstract `TodoRoute.DateParser` to an instant
  in milliseconds.
- **Storage.** The database is a pair of sequences. Pure handlers read them, and the
  class `Store.Database` updates them. A sequence is used rather than a map so that
  both unique columns, email and id, can be looked up the same way.
- **Ids.** The string ids the database generates become natural numbers issued by
  counters.

Details of the code that the model follows:

- JWT segments are base64url (section 5 of RFC 4648), but `verifyTokenSync`
  decodes the payload with `atob`, which accepts only the alphabet of section 4.
  This sits inside the abstract decoder `JwtEdge.Decoder`.
- In the restricted check, an `exp` of 0 or an absent `exp` never expires
  (`JwtEdge.NoExpNeverExpires`).
- Registration rejects an empty password before any hashing happens.
- The matcher's `favicon.ico` has an unescaped `.`, which matches any character
  except a line terminator. `SessionGate.Excluded` reads the pattern as written,
  so `/faviconXico` also bypasses the gate (`SessionGate.MatcherWildcard`). The
  closing `.*` stops at a line terminator too, so the anchored pattern matches no
  path that holds one.
- `verifyToken` only casts the verified payload to `{ userId: string }`. A token
  signed with the active key whose payload has no string `userId` passes
  verification, and the `findUnique` that follows throws. The handlers then
  answer 500.

## Model

| member | source | states |
|---|---|---|
| `Strings.Split` | lib/jwt-edge.ts:5 | `split` on one character gives one more piece than there are separators. No piece contains the separator, and joining the pieces gives back the input. |
| `Strings.SplitAt` | lib/jwt-edge.ts:5 | Splitting `a + c + b`, with no `c` in `a`, yields `a` followed by the pieces of `b`. |
| `Strings.SplitHead` | lib/utils.ts:29 | The first piece is a prefix of the input. When there is a separator, the first piece is followed by it; otherwise the first piece is the whole input. |
| `Strings.LexLeTotal` | app/api/todo/route.ts:52 | The text order used for `dueTime` relates every pair of strings. |
| `Strings.LexLeTransitive` | app/api/todo/route.ts:52 | The text order used for `dueTime` is transitive. |
| `Users.FindUnique` | lib/auth.ts:37-46 | Lookup on a unique column, by email or by id, returns a stored row that the clause selects, and returns none exactly when no row is selected. |
| `Users.FindUniqueFinds` | app/api/auth/register/route.ts:26-28 | With unique emails and ids, the lookup returns the one row the clause selects. |
| `Users.InsertKeepsInvariant` | app/api/auth/register/route.ts:26-41 | Inserting a row with an unused email and a fresh id keeps both unique constraints. |
| `JwtEdge.VerifyTokenSync` | lib/jwt-edge.ts:2-23 | It succeeds exactly when the token has three segments, the middle one decodes, and the payload is not expired. A successful token has exactly two dots. The result carries the payload's `userId` and nothing else. |
| `JwtEdge.CompactSegments` | lib/jwt-edge.ts:5-8 | `header.payload.signature` splits into exactly those three segments. |
| `JwtEdge.SignatureBlind` | lib/jwt-edge.ts:5-18 | Replacing the header or the signature never changes the outcome. The outcome is a function of the decoded middle segment and the clock. |
| `JwtEdge.WrongShapeRejected` | lib/jwt-edge.ts:5-8 | A token whose dot count is not two, so with 2 or 4 segments, is rejected. |
| `JwtEdge.ExpiryBoundary` | lib/jwt-edge.ts:14-16 | With a truthy `exp`, the token is rejected exactly when `now >= exp * 1000`. The instant `exp * 1000` itself counts as expired. |
| `JwtEdge.NoExpNeverExpires` | lib/jwt-edge.ts:14-18 | A payload with an absent or zero `exp` is accepted at any time, with its own `userId`, which may be absent. |
| `JwtEdge.UndecodableRejected` | lib/jwt-edge.ts:11-22 | A middle segment that does not decode is rejected and never becomes an error. |
| `SessionGate.PublicRouteIsPrefixTest` | middleware.ts:13-14 | A path is public exactly when it starts with `/login` or `/register`. |
| `SessionGate.PublicRouteExamples` | middleware.ts:13-14 | `/login/x` and `/registered` are public. `/`, `/todo/login` and `/Login` are not. |
| `SessionGate.Middleware` | middleware.ts:5-53 | The whole decision table. A public path with an accepted token redirects to `/`. Any other public request continues. A protected path with no token or an empty token redirects to `/login` and keeps the cookie. A protected path with a rejected token redirects to `/login` and deletes the cookie. A protected path with an accepted token continues. The cookie is deleted in exactly one case. |
| `SessionGate.Gate` | middleware.ts:55-66 | Paths the matcher leaves out always continue. Matched paths get the gate's decision. |
| `SessionGate.ExcludedPathsBypassGate` | middleware.ts:64 | `/api…`, `/_next/static…`, `/_next/image…` and `/favicon.ico…` are never redirected, and their cookie is never deleted. |
| `SessionGate.MatchesIff` | middleware.ts:63-65 | A path is matched exactly when it starts with `/`, holds no line terminator, and what follows the `/` starts with none of `api`, `_next/static`, `_next/image`, or `favicon`, any character but a line terminator, `ico`. |
| `SessionGate.MatcherWildcard` | middleware.ts:64 | The pattern is read as written: `/faviconXico` and `/apiary` bypass the gate, and `/`, `/login` and `/todo` are matched. A path with a line feed, such as `/todo` followed by one, is not matched. |
| `SessionGate.ProtectedPathScenario` | middleware.ts:34-48 | On `/`, no cookie and an empty cookie both redirect to login without deleting anything. A token with fewer than three segments redirects to login and deletes the cookie. |
| `Auth.SigningKey` | lib/auth.ts:6 | The key is the configured `JWT_SECRET` when it is non-empty, and `fallback-secret` otherwise. It is never empty. |
| `Auth.VerifyToken` | lib/auth.ts:21-31 | Claims are returned exactly when the library verifies the token with the signing key at the current second. Every throw becomes "no claims". |
| `Auth.HashPassword` | lib/auth.ts:9-11 | The digest is taken at cost 12. Assuming the hashing round trip, the password matches its digest. |
| `Auth.VerifyPassword` | lib/auth.ts:13-15 | Assuming the hashing round trip, a password is accepted against its own digest. |
| `Auth.GenerateToken` | lib/auth.ts:17-19 | `{ userId }` is signed with `SigningKey(config)`, issued at the current second, with a lifetime of 604800 s. Assuming the signing round trip, the token is not empty, verifies to that id for each second of its lifetime, and is refused from second `iat + 604800` on. |
| `Auth.GetUserFromToken` | lib/auth.ts:33-49 | A rejected token gives no user. A verified payload without a string `userId` makes the lookup throw. Otherwise it gives a user exactly when a row has the claimed id, and then gives that row's projection, which has no password hash. |
| `Auth.RejectedTokenSkipsStore` | lib/auth.ts:33-35 | For a rejected token the answer is "no user", whatever the table holds. |
| `Auth.IssuedTokenResolves` | lib/auth.ts:17-26 | Assuming the signing round trip, a token generated for a stored user resolves to that user's projection for 7 days. Sign and verify use the same key. |
| `Auth.ExpiredTokenRejected` | lib/auth.ts:17-35 | Assuming the signing round trip, a token generated 604800 s or more earlier resolves to no user, whatever the table holds. |
| `Register.Check` | app/api/auth/register/route.ts:7-35 | The guards run in a fixed order. An unreadable body gives 500. Missing fields give 400, whatever else holds. A password under 6 characters gives 400, and exactly 6 passes. A taken email gives 409. |
| `Register.Post` | app/api/auth/register/route.ts:6-68 | No cookie and no token are ever returned. Errors leave the table and the counter unchanged. Success appends exactly one row, with that email, the digest of that password, that name, a fresh id and both timestamps at the request's clock, and returns its projection. The table's unique constraints are preserved. |
| `Register.RegisterTwice` | app/api/auth/register/route.ts:26-54 | Registering one email twice succeeds the first time and gets 409 the second time, leaving the table as the first call left it. |
| `Login.SessionCookie` | app/api/auth/login/route.ts:61-67 | The cookie `Authorization` holds the token, with httpOnly, sameSite `lax`, path `/` and maxAge 604800. It is secure exactly when `NODE_ENV` is `production`. |
| `Login.Post` | app/api/auth/login/route.ts:6-78 | An unreadable body gives 500 and missing fields give 400. An unknown email and a wrong password both give 401 with one message. Success returns the matching row's projection, a token for its id, and that same token as the cookie. No other outcome touches the cookie. |
| `Login.UnknownEmailLooksLikeWrongPassword` | app/api/auth/login/route.ts:23-38 | A request for an unknown email and a request with a wrong password get identical responses. |
| `Login.LoginSucceedsIffCredentialsMatch` | app/api/auth/login/route.ts:19-43 | With unique emails, login succeeds exactly when some row has the email and a digest matching the password. |
| `Me.Get` | app/api/auth/me/route.ts:5-36 | No token or an empty token gives 401 "未授权访问". A token that resolves to no user gives 401 "用户不存在". A verified payload without a string `userId` gives 500 "获取用户信息失败". Otherwise it gives 200 with the resolved user. The cookie is never touched, even for an invalid token. |
| `Logout.Post` | app/api/auth/logout/route.ts:4-13 | Without any input, it always responds 200 "登出成功" and deletes `Authorization`. |
| `Logout.LogoutClearsJar` | app/api/auth/logout/route.ts:11 | After logout the browser holds no session cookie, whatever it held before. A second logout changes nothing. |
| `TodoRoute.BuildWhere` | app/api/todo/route.ts:30 | The filter's owner is always the caller. |
| `TodoRoute.WhereSelects` | app/api/todo/route.ts:30-45 | The filter selects the caller's rows. With a date, it keeps rows due in [date, date + 1 day). With a `completed` parameter, it keeps rows whose `completed` equals `param == 'true'`, so "" and "false" select open todos. |
| `TodoRoute.Filter` | app/api/todo/route.ts:47-48 | Exactly the matching rows are kept, each as many times as it is stored. |
| `TodoRoute.KeyLeTotal` | app/api/todo/route.ts:49-53 | The (completed, dueDate, dueTime) order relates every pair of rows. |
| `TodoRoute.KeyLeTransitive` | app/api/todo/route.ts:49-53 | The (completed, dueDate, dueTime) order is transitive. |
| `TodoRoute.ChainedIsSorted` | app/api/todo/route.ts:49-53 | A list with each row ordered before its successor is ordered in every pair. |
| `TodoRoute.Insert` | app/api/todo/route.ts:49-53 | Inserting into an ordered list keeps it ordered, adding exactly that one row. |
| `TodoRoute.Sort` | app/api/todo/route.ts:49-53 | The result is ordered by the key and is a permutation of the input. |
| `TodoRoute.FindMany` | app/api/todo/route.ts:47-54 | The query returns exactly the matching rows with their multiplicities, ordered by completed, then dueDate, then dueTime. |
| `TodoRoute.Get` | app/api/todo/route.ts:7-67 | No token gives 401. A token that resolves to no user gives 401. A verified payload without a string `userId` gives 500 "获取待办事项失败". Otherwise it gives 200 with the query's rows for the resolved caller. The cookie is never touched. |
| `TodoRoute.ListingIsCallersMatchingRows` | app/api/todo/route.ts:25-59 | A successful listing is ordered and holds exactly the caller's rows that match the date window and the flag, so never another user's row. |
| `TodoRoute.Post` | app/api/todo/route.ts:71-120 | Authentication comes first: no token gives 401, a token that resolves to no user gives 401, and a verified payload without a string `userId` gives 500. Then an unreadable body gives 500 and a missing title or dueDate gives 400. All of these leave the table unchanged. Success appends one row owned by the caller, with the body's four fields, not completed, with a fresh id and both timestamps at the request's clock, and returns it. Unique ids are preserved. |
| `TodoRoute.NoTokenNoStoreAccess` | app/api/todo/route.ts:9-15 | Without a token, both handlers give the same response whatever the tables hold. |
| `TodoRoute.BodyCannotChooseOwner` | app/api/todo/route.ts:89-107 | A `userId` or `completed` sent in the body never changes the outcome. |
| `Store.Database.RegisterUser` | app/api/auth/register/route.ts:6-59 | It mutates the user table exactly as `Register.Post` describes, keeps the unique constraints, and leaves the todo table alone. |
| `Store.Database.CreateTodo` | app/api/todo/route.ts:71-112 | It mutates the todo table exactly as `TodoRoute.Post` describes, keeps the unique ids, and leaves the user table alone. |
| `Utils.FormatTime` | lib/utils.ts:16-18 | The identity. |
| `Utils.FormatDateForInput` | lib/utils.ts:25-32 | The result holds no 'T' and is a prefix of the input. When the input has a 'T', the result stops right before the first one; otherwise the result is the input itself. |
| `Utils.FormatDateIdempotent` | lib/utils.ts:26-32 | Applying it twice equals applying it once. |
| `Utils.IsoTimestampExample` | lib/utils.ts:28-30 | `2024-01-05T10:30Z` becomes `2024-01-05`. |
| `Session.RegisterLoginMeLogout` | app/api/auth/login/route.ts:43-67 | Assuming both round trips: register, login and me succeed, and me reports the registered email. Logout then clears the browser's cookie, and the next me gets 401 "未授权访问". |
| `Session.LogoutDoesNotRevoke` | app/api/auth/logout/route.ts:4-13 | Logout clears only the browser's copy. The token login issued still resolves to the user for its lifetime. |
| `Session.ForgedSignaturePassesGate` | lib/jwt-edge.ts:2-18 | A well-formed, unexpired token whose signature the full verifier rejects passes the gate on `/`. Then me and the todo listing both refuse it with 401. |
| `Session.ExpiredSessionRefused` | lib/auth.ts:17-19 | Assuming the signing round trip, and that the decoder reads a signed token's `exp` as issue second plus 604800, whatever it makes of `userId`: once that second has passed, the gate sends `/` to the login page and deletes the cookie, me answers 401 "用户不存在", and the todo listing and creation answer 401 and leave the table unchanged. |
| `Session.RejectedTokenGateVersusMe` | middleware.ts:40-48 | For a token the restricted check rejects, the gate deletes the cookie on `/`, while me leaves the cookie in place. |

## Left out

- bcrypt and jsonwebtoken internals. Signing, verification, hashing and comparison are uninterpreted. Their round trips are assumptions, never proved. `hash` is a function, so bcrypt's random salt is not modelled.
- `atob` and `JSON.parse` are an abstract decoder. The Base64 alphabet, JSON syntax and JavaScript coercion of a non-numeric `exp` all sit inside it. `exp` is an optional integer and `userId` an optional string; other JSON types are not modelled.
- The clock and JavaScript `Date`. Both the clock and date parsing are parameters.
- TodoRoute.WhereSelects: the window's end is its start plus 24 hours, so a calendar day affected by a daylight-saving change in local time is not modelled. An invalid date makes the database throw, and that is not modelled either, because the parser is total.
- Me.Get: its 500 branch (app/api/auth/me/route.ts:30-36) is modelled only for a verified payload without a string `userId`. A failure of the database itself is outside the model. The same holds for the 500 branches of TodoRoute.Get (app/api/todo/route.ts:61-67) and TodoRoute.Post (app/api/todo/route.ts:114-120).
- Login.Post: a 500 is modelled only for an unreadable JSON body, because database and bcrypt failures are outside the model. The same holds for Register.Post and TodoRoute.Post.
- Register.Check: the password length is counted in Unicode characters, whereas JavaScript counts UTF-16 code units. The two differ only for characters outside the Basic Multilingual Plane.
- Request fields are optional strings. A non-string JSON value for `email`, `password` or `title`, such as a number, is not modelled.
- TodoRoute.FindMany: rows with equal keys come out in a deterministic order chosen by the model, where the database promises none. An absent `dueTime` sorts before every present one; real databases differ on null ordering.
- The database schema is not part of this model. A new todo is taken to start not completed, and both timestamps of a new row are the request's `now`.
- Redirect targets are plain paths; the absolute URLs built from `request.url` are not modelled. How Next.js compiles the matcher is not modelled either; the pattern is read literally.
- Concurrency: the race between the duplicate check and the insert in registration is not modelled. It relies on the database's unique constraint.
- All `console.log` calls.
- app/page.tsx, components/ui/toast.tsx, scripts/dev-https.js, app/api/test-jwt/route.ts and app/api/todo/[id]/route.ts are not part of this model. They are user interface, process plumbing or a debug endpoint.
- The rest of lib/utils.ts is not modelled: `cn`, `formatDate`, `getTodayString`, `parseDate`, and the `Date` branch of `formatDateForInput`. They depend on styling libraries, `Intl` or the clock.
