/**
 * The user table and the admin seeding at start-up (database/postgresql.go). The table
 * is a map from primary key to row with a serial counter for new keys; `readsFail` and
 * `writesFail` stand for a database that refuses queries or writes.
 */
module Database {
  import opened Base
  import opened Models

  datatype DbError = ReadRefused | WriteRefused | DuplicateKey(id: nat)

  class UserTable {
    var rows: map<nat, User>
    var nextId: nat
    const readsFail: bool
    const writesFail: bool

    /** Keys are the rows' ids; 0 is never a key, and the serial counter starts at 1. */
    ghost predicate Valid()
      reads this
    {
      0 < nextId && 0 !in rows && forall k :: k in rows ==> rows[k].id == k
    }

    constructor (readsFail: bool, writesFail: bool)
      ensures Valid() && rows == map[] && nextId == 1
      ensures this.readsFail == readsFail && this.writesFail == writesFail
    {
      rows := map[];
      nextId := 1;
      this.readsFail := readsFail;
      this.writesFail := writesFail;
    }

    /** gorm `First` with a condition: the matching row with the lowest key. */
    function FirstWhere(p: User -> bool): (q: Query<User>)
      reads this
    {
      Models.FirstWhere(rows, p, readsFail)
    }

    /** gorm `Create`: insert `u`, drawing the next serial id when `u.id` is 0. */
    method Create(u: User) returns (saved: User, err: Option<DbError>)
      requires Valid()
      modifies this
      ensures Valid()
      ensures var id := if u.id == 0 then old(nextId) else u.id;
        && (err.None? <==> !writesFail && id !in old(rows))
        && (err.None? ==> saved == u.(id := id) && rows == old(rows)[id := saved])
        && (err.Some? ==> err.value == if writesFail then WriteRefused else DuplicateKey(id))
      ensures err.Some? ==> rows == old(rows)
      ensures nextId == if u.id == 0 && !writesFail then old(nextId) + 1 else old(nextId)
    {
      if writesFail {
        return u, Some(WriteRefused);
      }
      var id := u.id;
      if id == 0 {
        id := nextId;
        nextId := nextId + 1;
      }
      if id in rows {
        return u, Some(DuplicateKey(id));
      }
      saved := u.(id := id);
      rows := rows[id := saved];
      err := None;
    }

    /** gorm `Save` of a row with a non-zero id: write all of its fields under its key. */
    method Save(u: User) returns (err: Option<DbError>)
      requires Valid() && u.id != 0
      modifies this
      ensures Valid() && nextId == old(nextId)
      ensures err.None? <==> !writesFail
      ensures err.Some? ==> err.value == WriteRefused
      ensures rows == if err.None? then old(rows)[u.id := u] else old(rows)
    {
      if writesFail {
        return Some(WriteRefused);
      }
      rows := rows[u.id := u];
      err := None;
    }
  }

  const AdminEmail := "admin@admin.com"

  predicate HasAdminEmail(u: User)
  {
    u.email == AdminEmail
  }

  /** The keys of the rows whose email is the admin's. */
  ghost function AdminKeys(rows: map<nat, User>): set<nat>
  {
    set k | k in rows && HasAdminEmail(rows[k])
  }

  datatype SetupResult =
    | SetupOk
    | SetupFailed(err: DbError)  // the error `SetupAdminUser` returns
    | SetupFatal                 // bcrypt failed: log.Fatalf ends the process

  /**
   * `SetupAdminUser`: hash ADMIN_PASSWORD with `hash` (bcrypt), then update the first
   * row with the admin email to username "admin", that hash and the admin flag, or
   * create such a row when there is none.
   */
  method SetupAdminUser(db: UserTable, env: Env, hash: string -> Option<string>) returns (result: SetupResult)
    requires db.Valid()
    modifies db
    ensures db.Valid()
    ensures result == SetupFatal <==> hash(Getenv(env, "ADMIN_PASSWORD")).None?
    ensures hash(Getenv(env, "ADMIN_PASSWORD")).Some? && db.readsFail ==> result == SetupFailed(ReadRefused)
    ensures !result.SetupOk? ==> db.rows == old(db.rows)
    // the serial counter advances for every insert that reaches a writable table, taken key or not
    ensures db.nextId ==
      if hash(Getenv(env, "ADMIN_PASSWORD")).Some? && !db.readsFail && !db.writesFail && AdminKeys(old(db.rows)) == {}
      then old(db.nextId) + 1 else old(db.nextId)
    // the seeding succeeds exactly when hashing, the lookup and the write all succeed
    ensures result.SetupOk? <==>
      && hash(Getenv(env, "ADMIN_PASSWORD")).Some? && !db.readsFail && !db.writesFail
      && (AdminKeys(old(db.rows)) == {} ==> old(db.nextId) !in old(db.rows))
    ensures hash(Getenv(env, "ADMIN_PASSWORD")).Some? && !db.readsFail && db.writesFail ==>
      result == SetupFailed(WriteRefused)
    ensures hash(Getenv(env, "ADMIN_PASSWORD")).Some? && !db.readsFail && !db.writesFail &&
            AdminKeys(old(db.rows)) == {} && old(db.nextId) in old(db.rows) ==>
      result == SetupFailed(DuplicateKey(old(db.nextId)))
    // no admin row yet: one is created under a fresh key, and it is the only one
    ensures result.SetupOk? && AdminKeys(old(db.rows)) == {} ==>
      && db.rows == old(db.rows)[old(db.nextId) := User(old(db.nextId), "admin", AdminEmail,
                                                        hash(Getenv(env, "ADMIN_PASSWORD")).value, true, 0, 0)]
      && AdminKeys(db.rows) == {old(db.nextId)}
    // an admin row exists: the first one is overwritten in place, keeping its id and email; no row is added
    ensures result.SetupOk? && AdminKeys(old(db.rows)) != {} ==>
      var k := FirstKeyWhere(old(db.rows), HasAdminEmail).value;
      && db.rows == old(db.rows)[k := old(db.rows)[k].(username := "admin",
                                                      password := hash(Getenv(env, "ADMIN_PASSWORD")).value,
                                                      isAdmin := true)]
      && db.rows.Keys == old(db.rows.Keys)
      && AdminKeys(db.rows) == AdminKeys(old(db.rows))
    // rows with any other email are untouched
    ensures forall k :: k in old(db.rows) && !HasAdminEmail(old(db.rows)[k]) ==> k in db.rows && db.rows[k] == old(db.rows)[k]
  {
    var hashed := hash(Getenv(env, "ADMIN_PASSWORD"));
    if hashed.None? {
      return SetupFatal;
    }
    var admin := User(0, "admin", AdminEmail, hashed.value, true, 0, 0);

    var existing := db.FirstWhere(HasAdminEmail);
    if existing.NotFound? {
      assert forall k :: k in db.rows ==> !HasAdminEmail(db.rows[k]);
      var _, err := db.Create(admin);
      if err.Some? {
        return SetupFailed(err.value);
      }
      assert AdminKeys(db.rows) == {old(db.nextId)};
    } else if existing.Found? {
      var k := FirstKeyWhere(db.rows, HasAdminEmail).value;
      var existingUser := existing.row;
      assert existingUser == db.rows[k] && existingUser.id == k;
      existingUser := existingUser.(username := admin.username);
      existingUser := existingUser.(password := admin.password);
      existingUser := existingUser.(isAdmin := admin.isAdmin);
      var err := db.Save(existingUser);
      if err.Some? {
        return SetupFailed(err.value);
      }
      assert db.rows.Keys == old(db.rows.Keys);
      assert AdminKeys(db.rows) == AdminKeys(old(db.rows)) by {
        forall j | j in db.rows ensures HasAdminEmail(db.rows[j]) == HasAdminEmail(old(db.rows)[j]) {
        }
      }
    } else {
      return SetupFailed(ReadRefused);
    }
    return SetupOk;
  }
}
