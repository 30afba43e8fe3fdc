/**
 * The user table the backend reads and writes through Prisma: rows, the public
 * projection every `select` of the backend returns, lookups by a unique column,
 * and the `create` / `update` writes with the table's uniqueness constraints.
 */
module Users {
  import opened Wrappers

  /** A row of the user table; `password` holds the bcrypt hash, never the plaintext. */
  datatype UserRecord = UserRecord(
    id: int,
    email: string,
    username: string,
    password: string,
    favoriteDriversIds: seq<string>,
    favoriteTeamsIds: seq<string>)

  /**
   * The columns the backend selects when it answers with a user: a type without
   * a password field (the timestamps are not modelled).
   */
  datatype PublicUser = PublicUser(
    id: int,
    email: string,
    username: string,
    favoriteDriversIds: seq<string>,
    favoriteTeamsIds: seq<string>)

  function Public(u: UserRecord): PublicUser {
    PublicUser(u.id, u.email, u.username, u.favoriteDriversIds, u.favoriteTeamsIds)
  }

  /** The position of the first row satisfying `p`; rows are kept in insertion order. */
  function FindIndex(rows: seq<UserRecord>, p: UserRecord -> bool): (k: Option<nat>)
    ensures k.Some? ==> k.value < |rows| && p(rows[k.value])
    ensures k.Some? ==> forall j :: 0 <= j < k.value ==> !p(rows[j])
    ensures k.None? <==> forall j :: 0 <= j < |rows| ==> !p(rows[j])
  {
    if rows == [] then None
    else if p(rows[0]) then Some(0)
    else match FindIndex(rows[1..], p)
      case None => None
      case Some(k) => Some(k + 1)
  }

  /**
   * The first row satisfying `p`. For `findUnique` on a unique column there is at most
   * one; for `findFirst` without an ordering, the earliest inserted row is taken.
   */
  function FindFirst(rows: seq<UserRecord>, p: UserRecord -> bool): (r: Option<UserRecord>)
    ensures r.Some? ==> r.value in rows && p(r.value)
    ensures r.Some? ==> exists i :: 0 <= i < |rows| && rows[i] == r.value && forall j :: 0 <= j < i ==> !p(rows[j])
    ensures r.None? <==> forall j :: 0 <= j < |rows| ==> !p(rows[j])
  {
    match FindIndex(rows, p)
    case None => None
    case Some(k) => Some(rows[k])
  }

  /** `findUnique({ where: { email } })`. */
  function WithEmail(rows: seq<UserRecord>, email: string): (r: Option<UserRecord>)
    ensures r.Some? ==> r.value in rows && r.value.email == email
    ensures r.None? <==> forall j :: 0 <= j < |rows| ==> rows[j].email != email
  {
    FindFirst(rows, (u: UserRecord) => u.email == email)
  }

  /** `findUnique({ where: { username } })`. */
  function WithUsername(rows: seq<UserRecord>, username: string): (r: Option<UserRecord>)
    ensures r.Some? ==> r.value in rows && r.value.username == username
    ensures r.None? <==> forall j :: 0 <= j < |rows| ==> rows[j].username != username
  {
    FindFirst(rows, (u: UserRecord) => u.username == username)
  }

  /** `findUnique({ where: { id } })`. */
  function WithId(rows: seq<UserRecord>, id: int): (r: Option<UserRecord>)
    ensures r.Some? ==> r.value in rows && r.value.id == id
    ensures r.None? <==> forall j :: 0 <= j < |rows| ==> rows[j].id != id
  {
    FindFirst(rows, (u: UserRecord) => u.id == id)
  }

  /** `findFirst({ where: { OR: [{ username }, { email }] } })`, in insertion order. */
  function WithUsernameOrEmail(rows: seq<UserRecord>, identifier: string): (r: Option<UserRecord>)
    ensures r.Some? ==> r.value in rows && (r.value.username == identifier || r.value.email == identifier)
    ensures r.Some? ==> exists i :: 0 <= i < |rows| && rows[i] == r.value
                                    && forall j :: 0 <= j < i ==> rows[j].username != identifier && rows[j].email != identifier
    ensures r.None? <==> forall j :: 0 <= j < |rows| ==> rows[j].username != identifier && rows[j].email != identifier
  {
    FindFirst(rows, (u: UserRecord) => u.username == identifier || u.email == identifier)
  }

  /** Under the table's constraints a unique column names at most one row: the lookup finds that row. */
  lemma UniqueLookups(rows: seq<UserRecord>, k: nat)
    requires UniqueKeys(rows) && k < |rows|
    ensures WithEmail(rows, rows[k].email) == Some(rows[k])
    ensures WithUsername(rows, rows[k].username) == Some(rows[k])
    ensures WithId(rows, rows[k].id) == Some(rows[k])
  {
    var e := WithEmail(rows, rows[k].email);
    var u := WithUsername(rows, rows[k].username);
    var i := WithId(rows, rows[k].id);
    assert e.Some? && u.Some? && i.Some?;
  }

  /** The table's constraints: `id`, `email` and `username` are each unique. */
  predicate UniqueKeys(rows: seq<UserRecord>) {
    forall i, j :: 0 <= i < j < |rows| ==>
      rows[i].id != rows[j].id && rows[i].email != rows[j].email && rows[i].username != rows[j].username
  }

  /** No row other than the one with id `self` holds `email` or `username`. */
  predicate ClashFree(rows: seq<UserRecord>, self: int, email: string, username: string) {
    forall i :: 0 <= i < |rows| && rows[i].id != self ==>
      rows[i].email != email && rows[i].username != username
  }

  /** The fields an `update` writes; an absent field keeps its value. */
  datatype Patch = Patch(
    email: Option<string>,
    username: Option<string>,
    password: Option<string>,
    favoriteDriversIds: Option<seq<string>>,
    favoriteTeamsIds: Option<seq<string>>)

  /** A row after `update` with `patch`: each given field replaced, every other field and the id kept. */
  function Apply(u: UserRecord, patch: Patch): (v: UserRecord)
    ensures v.id == u.id
    ensures v.email == (if patch.email.Some? then patch.email.value else u.email)
    ensures v.username == (if patch.username.Some? then patch.username.value else u.username)
    ensures v.password == (if patch.password.Some? then patch.password.value else u.password)
    ensures v.favoriteDriversIds == (if patch.favoriteDriversIds.Some? then patch.favoriteDriversIds.value else u.favoriteDriversIds)
    ensures v.favoriteTeamsIds == (if patch.favoriteTeamsIds.Some? then patch.favoriteTeamsIds.value else u.favoriteTeamsIds)
  {
    UserRecord(
      u.id,
      patch.email.Or(u.email),
      patch.username.Or(u.username),
      patch.password.Or(u.password),
      patch.favoriteDriversIds.Or(u.favoriteDriversIds),
      patch.favoriteTeamsIds.Or(u.favoriteTeamsIds))
  }

  /** An empty patch changes nothing. */
  lemma ApplyEmpty(u: UserRecord)
    ensures Apply(u, Patch(None, None, None, None, None)) == u
  {
  }

  /** Replacing one row by a row with the same id that clashes with no other row keeps the constraints. */
  lemma {:induction false} ReplaceKeepsUnique(rows: seq<UserRecord>, k: nat, v: UserRecord)
    requires UniqueKeys(rows) && k < |rows| && v.id == rows[k].id
    requires ClashFree(rows, v.id, v.email, v.username)
    ensures UniqueKeys(rows[k := v])
  {
    var rs := rows[k := v];
    forall i, j | 0 <= i < j < |rs|
      ensures rs[i].id != rs[j].id && rs[i].email != rs[j].email && rs[i].username != rs[j].username
    {
      if i == k {
        assert rows[j].id != v.id;
      } else if j == k {
        assert rows[i].id != v.id;
      }
    }
  }

  /** Appending a row whose id is new and that clashes with no row keeps the constraints. */
  lemma AppendKeepsUnique(rows: seq<UserRecord>, v: UserRecord)
    requires UniqueKeys(rows) && forall i :: 0 <= i < |rows| ==> rows[i].id != v.id
    requires ClashFree(rows, v.id, v.email, v.username)
    ensures UniqueKeys(rows + [v])
  {
    var rs := rows + [v];
    forall i, j | 0 <= i < j < |rs|
      ensures rs[i].id != rs[j].id && rs[i].email != rs[j].email && rs[i].username != rs[j].username
    {
      if j == |rows| {
        assert rs[i] == rows[i] && rs[j] == v;
      } else {
        assert rs[i] == rows[i] && rs[j] == rows[j];
      }
    }
  }

  /** The user table, with Prisma's autoincrement counter. */
  class UserTable {
    var rows: seq<UserRecord>
    var nextId: int

    ghost predicate Valid()
      reads this
    {
      nextId > 0 && UniqueKeys(rows) && forall i :: 0 <= i < |rows| ==> 0 < rows[i].id < nextId
    }

    constructor ()
      ensures Valid() && rows == [] && nextId == 1
    {
      rows, nextId := [], 1;
    }

    /**
     * `prisma.user.create`: appends a row with the next id, unless the email or the
     * username is already held, in which case the table is unchanged and None is returned.
     */
    method Create(email: string, username: string, password: string,
                  favoriteDriversIds: seq<string>, favoriteTeamsIds: seq<string>)
      returns (r: Option<UserRecord>)
      requires Valid()
      modifies this
      ensures Valid()
      ensures ClashFree(old(rows), old(nextId), email, username) <==> r.Some?
      ensures r.Some? ==>
                r.value == UserRecord(old(nextId), email, username, password, favoriteDriversIds, favoriteTeamsIds)
                && rows == old(rows) + [r.value] && nextId == old(nextId) + 1
      ensures r.None? ==> rows == old(rows) && nextId == old(nextId)
    {
      if !ClashFree(rows, nextId, email, username) {
        return None;
      }
      var u := UserRecord(nextId, email, username, password, favoriteDriversIds, favoriteTeamsIds);
      AppendKeepsUnique(rows, u);
      rows := rows + [u];
      nextId := nextId + 1;
      r := Some(u);
    }

    /**
     * `prisma.user.update({ where: { id } })`: the row with that id gets `patch` applied
     * in place; a missing row or a write that would duplicate another row's email or
     * username fails, leaving the table unchanged.
     */
    method Update(id: int, patch: Patch) returns (r: Option<UserRecord>)
      requires Valid()
      modifies this
      ensures Valid() && nextId == old(nextId)
      ensures old(WithId(rows, id)).None? ==> r.None?
      ensures old(WithId(rows, id)).Some? ==>
                var v := Apply(old(WithId(rows, id)).value, patch);
                (r.Some? <==> ClashFree(old(rows), id, v.email, v.username))
                && (r.Some? ==> r.value == v)
      ensures r.Some? ==> exists k :: 0 <= k < |old(rows)| && old(rows)[k].id == id && rows == old(rows)[k := r.value]
      ensures r.None? ==> rows == old(rows)
    {
      var k := FindIndex(rows, (u: UserRecord) => u.id == id);
      if k.None? {
        return None;
      }
      var v := Apply(rows[k.value], patch);
      if !ClashFree(rows, id, v.email, v.username) {
        return None;
      }
      ReplaceKeepsUnique(rows, k.value, v);
      rows := rows[k.value := v];
      r := Some(v);
    }
  }
}
