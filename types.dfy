/**
 * The shapes of lib/types.ts and the response records the route handlers
 * build. Dates and instants are integers (milliseconds since the epoch);
 * record ids are naturals handed out by the store.
 */
module Types {

  datatype Option<+T> = None | Some(value: T)

  type Id = nat

  /** JavaScript truthiness of an optional string: absent, null and "" are all falsy. */
  predicate Present(s: Option<string>)
  {
    s.Some? && s.value != ""
  }

  /** A row of the user table, password hash included. */
  datatype UserRecord = UserRecord(
    id: Id,
    email: string,
    passwordHash: string,
    name: Option<string>,
    createdAt: int,
    updatedAt: int)

  /** The public projection of a user (the `User` interface): no password hash. */
  datatype User = User(
    id: Id,
    email: string,
    name: Option<string>,
    createdAt: int,
    updatedAt: int)

  /** The columns every handler selects: everything but the hash. */
  function Project(r: UserRecord): User
  {
    User(r.id, r.email, r.name, r.createdAt, r.updatedAt)
  }

  /** A row of the todo table. */
  datatype Todo = Todo(
    id: Id,
    userId: Id,
    title: string,
    description: Option<string>,
    dueDate: int,
    dueTime: Option<string>,
    completed: bool,
    createdAt: int,
    updatedAt: int)

  /** The JSON body of register and login: `{ email, password, name }`. */
  datatype Credentials = Credentials(
    email: Option<string>,
    password: Option<string>,
    name: Option<string>)

  /**
   * The JSON body of a todo creation. The first four fields are
   * `CreateTodoData`; `userId` and `completed` stand for what a client may
   * send beyond it.
   */
  datatype TodoRequest = TodoRequest(
    title: Option<string>,
    description: Option<string>,
    dueDate: Option<string>,
    dueTime: Option<string>,
    userId: Option<Id>,
    completed: Option<bool>)

  /** The session cookie's name. */
  const CookieName: string := "Authorization"

  datatype CookieOptions = CookieOptions(
    httpOnly: bool,
    secure: bool,
    sameSite: string,
    maxAge: int,
    path: string)

  /** What a response does to the browser's `Authorization` cookie. */
  datatype CookieAction =
    | KeepCookie
    | SetCookie(name: string, value: string, options: CookieOptions)
    | DeleteCookie(name: string)

  /** The `data` member of an `ApiResponse`. */
  datatype Data =
    | UserData(user: User)
    | AuthData(user: User, token: string)
    | MessageData(message: string)
    | TodoList(todos: seq<Todo>)
    | TodoData(todo: Todo)

  /** `ApiResponse`: `success: true` with data, or `success: false` with an error text. */
  datatype Body = Success(data: Data) | Failure(error: string)

  datatype Response = Response(status: int, body: Body, cookie: CookieAction)

  function Ok(data: Data): Response
  {
    Response(200, Success(data), KeepCookie)
  }

  function Fail(status: int, error: string): Response
  {
    Response(status, Failure(error), KeepCookie)
  }

  /** The browser's copy of the session cookie after it applies a response. */
  function ApplyCookie(jar: Option<string>, action: CookieAction): (jar': Option<string>)
    ensures action.KeepCookie? ==> jar' == jar
    ensures action.DeleteCookie? && action.name == CookieName ==> jar' == None
    ensures action.SetCookie? && action.name == CookieName ==> jar' == Some(action.value)
  {
    match action
    case KeepCookie => jar
    case SetCookie(name, value, _) => if name == CookieName then Some(value) else jar
    case DeleteCookie(name) => if name == CookieName then None else jar
  }

  // Messages shared by several handlers.
  const MissingCredentials: string := "邮箱和密码是必填项"
  const Unauthorized: string := "未授权访问"
  const UserMissing: string := "用户不存在"
}
