/**
 * The user table as the handlers see it: a sequence of rows in which
 * emails and ids are unique (the table's unique columns), with the
 * lookup the core performs, `findUnique` on one of those columns.
 */
module Users {
  import opened Types

  /** The unique constraints, and every id below the next one to be issued. */
  ghost predicate TableInvariant(users: seq<UserRecord>, nextId: Id)
  {
    && (forall i, j :: 0 <= i < j < |users| ==> users[i].email != users[j].email)
    && (forall i, j :: 0 <= i < j < |users| ==> users[i].id != users[j].id)
    && (forall i :: 0 <= i < |users| ==> users[i].id < nextId)
  }

  /** A `where` clause on a unique column: `{ email }` or `{ id }`. */
  datatype Unique = ByEmail(email: string) | ById(id: Id)

  /** The row satisfies the `where` clause. */
  predicate Selects(key: Unique, rec: UserRecord)
  {
    match key
    case ByEmail(email) => rec.email == email
    case ById(id) => rec.id == id
  }

  /** `findUnique({ where })`. */
  function FindUnique(users: seq<UserRecord>, key: Unique): (r: Option<UserRecord>)
    ensures r.Some? ==> r.value in users && Selects(key, r.value)
    ensures r.None? <==> forall i :: 0 <= i < |users| ==> !Selects(key, users[i])
  {
    if users == [] then None
    else if Selects(key, users[0]) then Some(users[0])
    else FindUnique(users[1..], key)
  }

  /** With unique columns, a lookup finds the one row the clause selects. */
  lemma FindUniqueFinds(users: seq<UserRecord>, nextId: Id, k: nat, key: Unique)
    requires TableInvariant(users, nextId)
    requires k < |users| && Selects(key, users[k])
    ensures FindUnique(users, key) == Some(users[k])
  {
  }

  /** Appending a row with a new email and a fresh id keeps the constraints. */
  lemma InsertKeepsInvariant(users: seq<UserRecord>, nextId: Id, rec: UserRecord)
    requires TableInvariant(users, nextId)
    requires FindUnique(users, ByEmail(rec.email)).None?
    requires rec.id == nextId
    ensures TableInvariant(users + [rec], nextId + 1)
  {
  }
}
