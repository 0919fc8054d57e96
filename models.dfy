/**
 * The stored records (models/user.go, models/place.go) and the one query shape the core
 * issues against them: gorm's `First`, which returns the matching row with the lowest
 * primary key, or `ErrRecordNotFound`, or a database error.
 */
module Models {
  import opened Base
  import opened Http

  /** A user account; `id` 0 is gorm's "no row". Times are Unix seconds. */
  datatype User = User(
    id: nat,
    username: string,
    email: string,
    password: string,
    isAdmin: bool,
    createdAt: int,
    updatedAt: int)

  /** The zero value `var user models.User`. */
  const ZeroUser := User(0, "", "", "", false, 0, 0)

  /** A place (activity); `userId` is its owner. Fields the core never reads are left out. */
  datatype Place = Place(id: nat, name: string, userId: nat)

  /** The fields of a user that responses expose: everything but the password hash. */
  datatype PublicUser = PublicUser(id: nat, username: string, email: string, isAdmin: bool)

  function Public(u: User): PublicUser
  {
    PublicUser(u.id, u.username, u.email, u.isAdmin)
  }

  /** The three ways a gorm `First` can end. */
  datatype Query<+T> = Found(row: T) | NotFound | Failed

  /** Proof helper: a non-empty set of naturals has a least element. */
  lemma {:induction false} LeastOf(s: set<nat>) returns (m: nat)
    requires s != {}
    ensures m in s && forall k :: k in s ==> m <= k
    decreases |s|
  {
    var x :| x in s;
    var rest := s - {x};
    if rest == {} {
      m := x;
      forall k | k in s ensures m <= k {
        assert k !in rest;
      }
    } else {
      var r := LeastOf(rest);
      m := if x < r then x else r;
      forall k | k in s ensures m <= k {
        if k != x { assert k in rest; }
      }
    }
  }

  lemma HasLeast(s: set<nat>)
    requires s != {}
    ensures exists m :: m in s && forall k :: k in s ==> m <= k
  {
    var m := LeastOf(s);
  }

  /** The lowest key of `rows` whose row satisfies `p`. */
  function FirstKeyWhere<T>(rows: map<nat, T>, p: T -> bool): (r: Option<nat>)
    ensures r.None? <==> forall k :: k in rows ==> !p(rows[k])
    ensures r.Some? ==> r.value in rows && p(rows[r.value])
    ensures r.Some? ==> forall k :: k in rows && p(rows[k]) ==> r.value <= k
  {
    var keys := set k | k in rows && p(rows[k]);
    assert forall k :: k in rows && p(rows[k]) ==> k in keys;
    if keys == {} then None
    else
      HasLeast(keys);
      var m :| m in keys && forall k :: k in keys ==> m <= k;
      Some(m)
  }

  /** gorm `First` with a condition: the matching row with the lowest key. */
  function FirstWhere<T>(rows: map<nat, T>, p: T -> bool, readsFail: bool): (q: Query<T>)
    ensures q.Failed? <==> readsFail
    ensures q.NotFound? <==> !readsFail && forall k :: k in rows ==> !p(rows[k])
    ensures q.Found? ==>
      exists k :: k in rows && rows[k] == q.row && p(q.row) && forall j :: j in rows && p(rows[j]) ==> k <= j
  {
    if readsFail then Failed
    else
      match FirstKeyWhere(rows, p)
      case None => NotFound
      case Some(k) =>
        assert forall j :: j in rows && p(rows[j]) ==> k <= j;
        Found(rows[k])
  }

  /** gorm `First` by primary key. */
  function FindById<T>(rows: map<nat, T>, id: nat, readsFail: bool): (q: Query<T>)
    ensures q.Found? <==> !readsFail && id in rows
    ensures q.Found? ==> q.row == rows[id]
    ensures q.NotFound? <==> !readsFail && id !in rows
  {
    if readsFail then Failed else if id in rows then Found(rows[id]) else NotFound
  }

  /** The id read from a path parameter is a stored key (a negative number never is). */
  predicate IsStoredKey<T>(rows: map<nat, T>, id: Option<int>)
  {
    id.Some? && 0 <= id.value && id.value as nat in rows
  }

  /** gorm `First` with `id = ?` bound to the text of a path parameter. */
  function FindByText<T>(rows: map<nat, T>, text: string, readsFail: bool): (q: Query<T>)
    ensures q.Failed? <==> readsFail || ParseId(text).None?
    ensures q.Found? <==> !readsFail && IsStoredKey(rows, ParseId(text))
    ensures q.Found? ==> q.row == rows[ParseId(text).value as nat]
  {
    if readsFail then Failed
    else
      match ParseId(text)
      case None => Failed
      case Some(id) => if 0 <= id && id as nat in rows then Found(rows[id as nat]) else NotFound
  }
}
