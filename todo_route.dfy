/**
 * /api/todo: listing and creation of the caller's todos. Both handlers
 * authenticate first; the listing builds a `where` filter (owner, an
 * optional one-day window, an optional completion flag) and orders by
 * (completed, dueDate, dueTime); creation validates and inserts a row
 * owned by the caller.
 */
module TodoRoute {
  import opened Types
  import opened Strings
  import Auth

  const ListFailed: string := "获取待办事项失败"
  const MissingTodoFields: string := "标题和日期是必填项"
  const CreateFailed: string := "创建待办事项失败"

  /** One day in milliseconds: `endDate.setDate(endDate.getDate() + 1)`. */
  const DayMs: int := 24 * 60 * 60 * 1000

  /** `new Date(s)`, as an instant in milliseconds. */
  type DateParser = string -> int

  /** The search parameters `date` and `completed`; `None` when absent. */
  datatype Query = Query(date: Option<string>, completed: Option<string>)

  /** `{ gte, lt }` on `dueDate`. */
  datatype Window = Window(gte: int, lt: int)

  /** The `where` object: `userId`, then optionally `dueDate` and `completed`. */
  datatype Where = Where(userId: Id, dueDate: Option<Window>, completed: Option<bool>)

  /** The `where` object as the GET handler assembles it for caller `userId`. */
  function BuildWhere(userId: Id, query: Query, parse: DateParser): (w: Where)
    ensures w.userId == userId
  {
    var window := if Present(query.date)
                  then Some(Window(parse(query.date.value), parse(query.date.value) + DayMs))
                  else None;
    var completed := if query.completed.Some? then Some(query.completed.value == "true") else None;
    Where(userId, window, completed)
  }

  /** A row satisfies a `where` filter. */
  predicate Matches(w: Where, t: Todo)
  {
    && t.userId == w.userId
    && (w.dueDate.Some? ==> w.dueDate.value.gte <= t.dueDate < w.dueDate.value.lt)
    && (w.completed.Some? ==> t.completed == w.completed.value)
  }

  /**
   * What the assembled filter selects: the caller's rows, due within
   * [date, date + 1 day) when a date is given, with `completed` equal to
   * `param == 'true'` when the parameter is present (so "", "false" and
   * "TRUE" all select open todos).
   */
  lemma WhereSelects(userId: Id, query: Query, parse: DateParser, t: Todo)
    ensures Matches(BuildWhere(userId, query, parse), t) <==>
      && t.userId == userId
      && (Present(query.date) ==> parse(query.date.value) <= t.dueDate < parse(query.date.value) + DayMs)
      && (query.completed.Some? ==> (t.completed <==> query.completed.value == "true"))
  {
  }

  /** The rows of `todos` that satisfy `w`, with their multiplicities, in table order. */
  function Filter(todos: seq<Todo>, w: Where): (r: seq<Todo>)
    ensures forall t :: multiset(r)[t] == if Matches(w, t) then multiset(todos)[t] else 0
  {
    if todos == [] then []
    else
      assert todos == [todos[0]] + todos[1..];
      (if Matches(w, todos[0]) then [todos[0]] else []) + Filter(todos[1..], w)
  }

  /** `dueTime` ascending, an absent time before every present one. */
  predicate TimeLe(x: Option<string>, y: Option<string>)
  {
    x.None? || (y.Some? && LexLe(x.value, y.value))
  }

  /** `orderBy: [{ completed: 'asc' }, { dueDate: 'asc' }, { dueTime: 'asc' }]`. */
  predicate KeyLe(a: Todo, b: Todo)
  {
    if a.completed != b.completed then !a.completed
    else if a.dueDate != b.dueDate then a.dueDate < b.dueDate
    else TimeLe(a.dueTime, b.dueTime)
  }

  lemma KeyLeTotal(a: Todo, b: Todo)
    ensures KeyLe(a, b) || KeyLe(b, a)
  {
    if a.completed == b.completed && a.dueDate == b.dueDate && a.dueTime.Some? && b.dueTime.Some? {
      LexLeTotal(a.dueTime.value, b.dueTime.value);
    }
  }

  lemma KeyLeTransitive(a: Todo, b: Todo, c: Todo)
    requires KeyLe(a, b) && KeyLe(b, c)
    ensures KeyLe(a, c)
  {
    if a.completed == b.completed == c.completed && a.dueDate == b.dueDate == c.dueDate
       && a.dueTime.Some? && b.dueTime.Some? && c.dueTime.Some? {
      LexLeTransitive(a.dueTime.value, b.dueTime.value, c.dueTime.value);
    }
  }

  /** In key order: every element is at most every later one. */
  predicate Sorted(s: seq<Todo>)
  {
    forall i, j :: 0 <= i < j < |s| ==> KeyLe(s[i], s[j])
  }

  /** Every element is at most its successor. */
  predicate Chained(s: seq<Todo>)
  {
    forall i :: 0 <= i < |s| - 1 ==> KeyLe(s[i], s[i + 1])
  }

  /** By transitivity of the key order, neighbours in order means all pairs in order. */
  lemma {:induction false} ChainedIsSorted(s: seq<Todo>)
    requires Chained(s)
    ensures Sorted(s)
  {
    if |s| > 1 {
      ChainedIsSorted(s[1..]);
      forall j | 1 <= j < |s| ensures KeyLe(s[0], s[j]) {
        if j > 1 {
          assert KeyLe(s[1], s[j]) by { assert s[1..][0] == s[1] && s[1..][j - 1] == s[j]; }
          KeyLeTransitive(s[0], s[1], s[j]);
        }
      }
      forall i, j | 0 <= i < j < |s| ensures KeyLe(s[i], s[j]) {
        if i > 0 { assert s[1..][i - 1] == s[i] && s[1..][j - 1] == s[j]; }
      }
    }
  }

  /** Insert `x` into an ordered list, before the first element it does not follow. */
  function Insert(x: Todo, s: seq<Todo>): (r: seq<Todo>)
    requires Chained(s)
    ensures Chained(r)
    ensures multiset(r) == multiset(s) + multiset{x}
    ensures |r| == |s| + 1 && (r[0] == x || (s != [] && r[0] == s[0]))
  {
    if s == [] then [x]
    else if KeyLe(x, s[0]) then [x] + s
    else
      var rest := Insert(x, s[1..]);
      KeyLeTotal(x, s[0]);
      assert s == [s[0]] + s[1..];
      [s[0]] + rest
  }

  /** The rows reordered by the `orderBy` key. */
  function Sort(s: seq<Todo>): (r: seq<Todo>)
    ensures Chained(r)
    ensures multiset(r) == multiset(s)
  {
    if s == [] then []
    else
      assert s == [s[0]] + s[1..];
      Insert(s[0], Sort(s[1..]))
  }

  /**
   * `prisma.todo.findMany({ where, orderBy })`: exactly the rows that
   * satisfy the filter, each as often as it is stored, ordered by the key.
   */
  function FindMany(todos: seq<Todo>, w: Where): (r: seq<Todo>)
    ensures Sorted(r)
    ensures forall t :: multiset(r)[t] == if Matches(w, t) then multiset(todos)[t] else 0
    ensures forall t :: t in r <==> t in todos && Matches(w, t)
  {
    var r := Sort(Filter(todos, w));
    ChainedIsSorted(r);
    assert forall t :: t in r <==> t in multiset(r);
    assert forall t :: t in todos <==> t in multiset(todos);
    r
  }

  /** GET: authenticate, then list with the filter built from the query. */
  function Get(crypto: Auth.Crypto, config: Auth.Config, users: seq<UserRecord>, todos: seq<Todo>,
               cookie: Option<string>, query: Query, now: int, parse: DateParser): (r: Response)
    ensures r.cookie == KeepCookie
    ensures !Present(cookie) ==> r == Fail(401, Unauthorized)
    ensures Present(cookie) && Auth.GetUserFromToken(crypto, config, users, cookie.value, now).NoUser? ==>
      r == Fail(401, UserMissing)
    // a verified payload without a string `userId` makes the lookup throw
    ensures Present(cookie) && Auth.GetUserFromToken(crypto, config, users, cookie.value, now).QueryThrew? ==>
      r == Fail(500, ListFailed)
    ensures r.status == 200 <==>
      Present(cookie) && Auth.GetUserFromToken(crypto, config, users, cookie.value, now).Found?
    ensures r.status == 200 ==>
      r.body == Success(TodoList(FindMany(todos,
        BuildWhere(Auth.GetUserFromToken(crypto, config, users, cookie.value, now).user.id, query, parse))))
  {
    if !Present(cookie) then Fail(401, Unauthorized)
    else
      match Auth.GetUserFromToken(crypto, config, users, cookie.value, now)
      case NoUser => Fail(401, UserMissing)
      case QueryThrew => Fail(500, ListFailed)
      case Found(user) => Ok(TodoList(FindMany(todos, BuildWhere(user.id, query, parse))))
  }

  /**
   * A successful listing is exactly the caller's rows that match the
   * query, in key order: never another user's row.
   */
  lemma ListingIsCallersMatchingRows(crypto: Auth.Crypto, config: Auth.Config,
                                     users: seq<UserRecord>, todos: seq<Todo>,
                                     cookie: Option<string>, query: Query, now: int,
                                     parse: DateParser)
    requires Get(crypto, config, users, todos, cookie, query, now, parse).status == 200
    ensures var r := Get(crypto, config, users, todos, cookie, query, now, parse);
            var caller := Auth.GetUserFromToken(crypto, config, users, cookie.value, now).user;
            && r.body.Success? && r.body.data.TodoList?
            && Sorted(r.body.data.todos)
            && (forall t :: t in r.body.data.todos ==> t.userId == caller.id)
            && (forall t :: t in r.body.data.todos <==>
                  && t in todos && t.userId == caller.id
                  && (Present(query.date) ==> parse(query.date.value) <= t.dueDate < parse(query.date.value) + DayMs)
                  && (query.completed.Some? ==> (t.completed <==> query.completed.value == "true")))
  {
  }

  /** Unique ids below the next one to be issued. */
  ghost predicate TableInvariant(todos: seq<Todo>, nextId: Id)
  {
    && (forall i, j :: 0 <= i < j < |todos| ==> todos[i].id != todos[j].id)
    && (forall i :: 0 <= i < |todos| ==> todos[i].id < nextId)
  }

  /** The row `prisma.todo.create` inserts: four body fields, the caller as owner, not completed. */
  function NewTodo(id: Id, owner: Id, body: TodoRequest, now: int, parse: DateParser): Todo
    requires Present(body.title) && Present(body.dueDate)
  {
    Todo(id, owner, body.title.value, body.description, parse(body.dueDate.value), body.dueTime, false, now, now)
  }

  /** The creation handler's response and the todo table it leaves. */
  datatype Outcome = Outcome(response: Response, todos: seq<Todo>, nextId: Id)

  /** POST: authenticate, read the body, validate, insert. */
  function Post(crypto: Auth.Crypto, config: Auth.Config, users: seq<UserRecord>, todos: seq<Todo>,
                nextId: Id, cookie: Option<string>, body: Option<TodoRequest>, now: int,
                parse: DateParser): (out: Outcome)
    ensures out.response.cookie == KeepCookie
    // authentication comes first: no body is read and nothing is written
    ensures !Present(cookie) ==> out.response == Fail(401, Unauthorized)
    ensures Present(cookie) && Auth.GetUserFromToken(crypto, config, users, cookie.value, now).NoUser? ==>
      out.response == Fail(401, UserMissing)
    ensures Present(cookie) && Auth.GetUserFromToken(crypto, config, users, cookie.value, now).QueryThrew? ==>
      out.response == Fail(500, CreateFailed)
    ensures Present(cookie) && Auth.GetUserFromToken(crypto, config, users, cookie.value, now).Found? ==>
      && (body.None? ==> out.response == Fail(500, CreateFailed))
      && (body.Some? && !(Present(body.value.title) && Present(body.value.dueDate)) ==>
            out.response == Fail(400, MissingTodoFields))
    ensures out.response.status != 200 ==> out.todos == todos && out.nextId == nextId
    ensures out.response.status == 200 <==>
      && Present(cookie) && Auth.GetUserFromToken(crypto, config, users, cookie.value, now).Found?
      && body.Some? && Present(body.value.title) && Present(body.value.dueDate)
    // the new row belongs to the caller, whatever the body says about owner or completion
    ensures out.response.status == 200 ==>
      && |out.todos| == |todos| + 1
      && out.todos[..|todos|] == todos
      && out.nextId == nextId + 1
      && out.todos[|todos|].id == nextId
      && out.todos[|todos|].userId == Auth.GetUserFromToken(crypto, config, users, cookie.value, now).user.id
      && out.todos[|todos|].title == body.value.title.value
      && out.todos[|todos|].description == body.value.description
      && out.todos[|todos|].dueDate == parse(body.value.dueDate.value)
      && out.todos[|todos|].dueTime == body.value.dueTime
      && !out.todos[|todos|].completed
      && out.todos[|todos|].createdAt == now && out.todos[|todos|].updatedAt == now
      && out.response == Ok(TodoData(out.todos[|todos|]))
    ensures TableInvariant(todos, nextId) ==> TableInvariant(out.todos, out.nextId)
  {
    if !Present(cookie) then Outcome(Fail(401, Unauthorized), todos, nextId)
    else
      match Auth.GetUserFromToken(crypto, config, users, cookie.value, now)
      case NoUser => Outcome(Fail(401, UserMissing), todos, nextId)
      case QueryThrew => Outcome(Fail(500, CreateFailed), todos, nextId)
      case Found(user) =>
        if body.None? then Outcome(Fail(500, CreateFailed), todos, nextId)
        else if !Present(body.value.title) || !Present(body.value.dueDate) then
          Outcome(Fail(400, MissingTodoFields), todos, nextId)
        else
          var t := NewTodo(nextId, user.id, body.value, now, parse);
          Outcome(Ok(TodoData(t)), todos + [t], nextId + 1)
  }

  /** Without a token neither handler looks at either table. */
  lemma NoTokenNoStoreAccess(crypto: Auth.Crypto, config: Auth.Config,
                             users1: seq<UserRecord>, todos1: seq<Todo>, next1: Id,
                             users2: seq<UserRecord>, todos2: seq<Todo>, next2: Id,
                             cookie: Option<string>, query: Query, body: Option<TodoRequest>,
                             now: int, parse: DateParser)
    requires !Present(cookie)
    ensures Get(crypto, config, users1, todos1, cookie, query, now, parse)
         == Get(crypto, config, users2, todos2, cookie, query, now, parse)
    ensures Post(crypto, config, users1, todos1, next1, cookie, body, now, parse).response
         == Post(crypto, config, users2, todos2, next2, cookie, body, now, parse).response
  {
  }

  /** The body's own `userId` and `completed` never reach the new row. */
  lemma BodyCannotChooseOwner(crypto: Auth.Crypto, config: Auth.Config, users: seq<UserRecord>,
                              todos: seq<Todo>, nextId: Id, cookie: Option<string>,
                              body: TodoRequest, forgedOwner: Option<Id>, forgedFlag: Option<bool>,
                              now: int, parse: DateParser)
    ensures Post(crypto, config, users, todos, nextId, cookie, Some(body), now, parse)
         == Post(crypto, config, users, todos, nextId, cookie,
                 Some(body.(userId := forgedOwner, completed := forgedFlag)), now, parse)
  {
  }
}
