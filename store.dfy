/**
 * The database the handlers share: the user and todo tables, updated in
 * place by the two handlers that write (registration and todo creation).
 * Each method is specified by its handler's function over the old state.
 */
module Store {
  import opened Types
  import Users
  import Auth
  import Register
  import TodoRoute

  class Database {
    var users: seq<UserRecord>
    var todos: seq<Todo>
    var nextUserId: Id
    var nextTodoId: Id

    /** The tables' unique constraints, and ids below the counters. */
    ghost predicate Valid()
      reads this
    {
      Users.TableInvariant(users, nextUserId) && TodoRoute.TableInvariant(todos, nextTodoId)
    }

    constructor ()
      ensures Valid()
      ensures users == [] && todos == []
    {
      users, todos := [], [];
      nextUserId, nextTodoId := 0, 0;
    }

    /** POST /api/auth/register: the guards, then `prisma.user.create`. */
    method RegisterUser(crypto: Auth.Crypto, body: Option<Credentials>, now: int) returns (response: Response)
      requires Valid()
      modifies this
      ensures Valid()
      ensures Register.Post(crypto, old(users), old(nextUserId), body, now)
           == Register.Outcome(response, users, nextUserId)
      ensures todos == old(todos) && nextTodoId == old(nextTodoId)
    {
      var error := Register.Check(users, body);
      if error.Some? {
        return error.value;
      }
      var rec := Register.NewUser(crypto, nextUserId, body.value, now);
      users := users + [rec];
      nextUserId := nextUserId + 1;
      response := Ok(UserData(Project(rec)));
    }

    /** POST /api/todo: authentication and validation, then `prisma.todo.create`. */
    method CreateTodo(crypto: Auth.Crypto, config: Auth.Config, cookie: Option<string>,
                      body: Option<TodoRequest>, now: int, parse: TodoRoute.DateParser)
      returns (response: Response)
      requires Valid()
      modifies this
      ensures Valid()
      ensures TodoRoute.Post(crypto, config, old(users), old(todos), old(nextTodoId), cookie, body, now, parse)
           == TodoRoute.Outcome(response, todos, nextTodoId)
      ensures users == old(users) && nextUserId == old(nextUserId)
    {
      if !Present(cookie) {
        return Fail(401, Unauthorized);
      }
      var user := Auth.GetUserFromToken(crypto, config, users, cookie.value, now);
      if user.NoUser? {
        return Fail(401, UserMissing);
      }
      if user.QueryThrew? {
        return Fail(500, TodoRoute.CreateFailed);
      }
      if body.None? {
        return Fail(500, TodoRoute.CreateFailed);
      }
      if !Present(body.value.title) || !Present(body.value.dueDate) {
        return Fail(400, TodoRoute.MissingTodoFields);
      }
      var t := TodoRoute.NewTodo(nextTodoId, user.user.id, body.value, now, parse);
      todos := todos + [t];
      nextTodoId := nextTodoId + 1;
      response := Ok(TodoData(t));
    }
  }
}
