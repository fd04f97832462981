/**
 * The user table, reduced to what the credential flow touches: records keyed
 * by their unique email, with ids handed out by an auto-increment counter.
 * `Find` is the lookup by unique email and `Create` the insert that the
 * database's unique constraint on email guards.
 */
module Store {
  import opened Wrappers

  /** One account as stored: `password` holds the bcrypt digest, never the plaintext. */
  datatype User = User(id: nat, name: string, email: string, password: string, createdAt: nat)

  /** The table: each record sits under its own email; `nextId` is the next auto-increment id. */
  datatype Db = Db(users: map<string, User>, nextId: nat)

  /** The empty table. */
  const Empty := Db(map[], 1)

  /**
   * The table's invariant: every record is filed under its own email, ids
   * are below the counter, and no two records share an id.
   */
  ghost predicate Valid(db: Db) {
    && (forall e :: e in db.users ==> db.users[e].email == e && db.users[e].id < db.nextId)
    && (forall e1, e2 :: e1 in db.users && e2 in db.users && db.users[e1].id == db.users[e2].id ==> e1 == e2)
  }

  /** Every record of `db` is still in `db'`, unchanged, and the counter never goes back. */
  ghost predicate Extends(db: Db, db': Db) {
    && db.users.Keys <= db'.users.Keys
    && (forall e :: e in db.users ==> db'.users[e] == db.users[e])
    && db.nextId <= db'.nextId
  }

  /** The result of a successful insert: the new table and the row it returned. */
  datatype Created = Created(db: Db, user: User)

  /**
   * Lookup by the unique email column, `findUnique({ where: { email } })`:
   * in a valid table it finds a stored record exactly when some record
   * carries that email, and then it is that record.
   */
  function Find(db: Db, email: string): (r: Option<User>)
    ensures r.Some? <==> email in db.users
    ensures r.Some? ==> r.value in db.users.Values
    ensures Valid(db) ==> (r.Some? <==> exists u :: u in db.users.Values && u.email == email)
    ensures Valid(db) && r.Some? ==> r.value.email == email
  {
    if email in db.users then Some(db.users[email]) else None
  }

  /**
   * Insert a record with a fresh id and the given creation time. A second
   * row with the same email violates the unique constraint and fails.
   */
  function Create(db: Db, name: string, email: string, password: string, now: nat): (r: Option<Created>)
    ensures r.None? <==> email in db.users
    ensures r.Some? ==> && r.value.db.users.Keys == db.users.Keys + {email}
                        && r.value.db.users[email] == r.value.user
                        && r.value.user.name == name && r.value.user.email == email
                        && r.value.user.password == password && r.value.user.createdAt == now
                        && Extends(db, r.value.db)
    ensures r.Some? && Valid(db) ==> && Valid(r.value.db)
                                     && forall e :: e in db.users ==> db.users[e].id != r.value.user.id
  {
    if email in db.users then None
    else
      var u := User(db.nextId, name, email, password, now);
      Some(Created(Db(db.users[email := u], db.nextId + 1), u))
  }

  /** In a valid table an email identifies at most one record. */
  lemma EmailsUnique(db: Db, e1: string, e2: string)
    requires Valid(db) && e1 in db.users && e2 in db.users
    ensures db.users[e1].email == db.users[e2].email ==> e1 == e2
  {
  }

  /** The empty table is valid. */
  lemma EmptyValid()
    ensures Valid(Empty)
  {
  }
}
