/**
 * The /user handlers behind the bearer gate (backend/src/controllers/user.controller.ts):
 * reading one's own profile and a partial profile update. bcrypt's `hash` is a parameter.
 */
module UserController {
  import opened Wrappers
  import opened Http
  import opened Users
  import opened AuthMiddleware

  const UnauthorizedMessage := "Unauthorized"
  const UserNotFoundMessage := "User not found"
  const EmailInUseMessage := "Email already in use"
  const UsernameInUseMessage := "Username already in use"
  const UpdateFailedMessage := "Failed to update user"

  /** `req.user?.id` is truthy: a user was set and its id is not 0. */
  predicate Authorised(user: Option<RequestUser>) {
    user.Some? && user.value.id != 0
  }

  /** GET /user/me: 401 without a user id, 404 without a row, otherwise 200 with the row minus its password. */
  function GetMe(rows: seq<UserRecord>, user: Option<RequestUser>): (reply: Reply<PublicUser>)
    ensures !Authorised(user) <==> reply == Reply(401, Message(UnauthorizedMessage))
    ensures Authorised(user) ==>
              (reply == Reply(404, Message(UserNotFoundMessage))
               <==> forall j :: 0 <= j < |rows| ==> rows[j].id != user.value.id)
    ensures reply.status == 200 <==> reply.body.Data?
    ensures reply.status == 200 ==>
              exists k :: 0 <= k < |rows| && rows[k].id == user.value.id && reply.body == Data(Public(rows[k]))
    ensures reply.status in {200, 401, 404}
  {
    if !Authorised(user) then Reply(401, Message(UnauthorizedMessage))
    else
      match WithId(rows, user.value.id)
      case None => Reply(404, Message(UserNotFoundMessage))
      case Some(u) => Reply(200, Data(Public(u)))
  }

  /** The value under one key of the JSON body: `undefined` when the key is absent, `null`, or a value. */
  datatype Field<T> = Undefined | Null | Given(value: T)

  /** The fields of an update body. */
  datatype UpdateBody = UpdateBody(
    email: Field<string>,
    username: Field<string>,
    favoriteDriversIds: Field<seq<string>>,
    favoriteTeamsIds: Field<seq<string>>,
    password: Field<string>)

  /** `if (s)` for a string key: a value, and not empty; `null` is falsy. */
  predicate Truthy(s: Field<string>) {
    s.Given? && s.value != ""
  }

  /** The value of a key that holds one. */
  function Defined<T>(f: Field<T>): Option<T> {
    if f.Given? then Some(f.value) else None
  }

  /**
   * Some key is `null`. It passes the `!== undefined` test and is put into `data`, where
   * bcrypt refuses a null password and Prisma a null column, so the update throws.
   */
  predicate HasNull(body: UpdateBody) {
    body.email.Null? || body.username.Null? || body.favoriteDriversIds.Null?
    || body.favoriteTeamsIds.Null? || body.password.Null?
  }

  /** The email check, then the username check: a truthy value held by a row with another id is a conflict. */
  function Conflict(rows: seq<UserRecord>, userId: int, body: UpdateBody): (r: Option<string>)
    ensures r.Some? ==> (r.value == EmailInUseMessage && Truthy(body.email))
                        || (r.value == UsernameInUseMessage && Truthy(body.username))
    ensures !Truthy(body.email) && !Truthy(body.username) ==> r.None?
  {
    if Truthy(body.email) && WithEmail(rows, body.email.value).Some?
       && WithEmail(rows, body.email.value).value.id != userId
    then Some(EmailInUseMessage)
    else if Truthy(body.username) && WithUsername(rows, body.username.value).Some?
            && WithUsername(rows, body.username.value).value.id != userId
    then Some(UsernameInUseMessage)
    else None
  }

  /** The `data` object of a body without nulls: each given key, the password replaced by its hash. */
  function PatchOf(body: UpdateBody, hash: string -> string): (p: Patch)
    requires !HasNull(body)
    ensures p.email.Some? <==> body.email.Given?
    ensures p.username.Some? <==> body.username.Given?
    ensures p.password.Some? <==> body.password.Given?
    ensures p.favoriteDriversIds.Some? <==> body.favoriteDriversIds.Given?
    ensures p.favoriteTeamsIds.Some? <==> body.favoriteTeamsIds.Given?
    ensures p.password.Some? ==> p.password.value == hash(body.password.value)
  {
    Patch(
      Defined(body.email),
      Defined(body.username),
      if body.password.Given? then Some(hash(body.password.value)) else None,
      Defined(body.favoriteDriversIds),
      Defined(body.favoriteTeamsIds))
  }

  /**
   * With the table's constraints, the email conflict arises exactly when another user
   * holds the given truthy email, and the username conflict exactly when there is no
   * email conflict and another user holds the given truthy username.
   */
  lemma {:induction false} ConflictIff(rows: seq<UserRecord>, userId: int, body: UpdateBody)
    requires UniqueKeys(rows)
    ensures Conflict(rows, userId, body) == Some(EmailInUseMessage) <==>
              Truthy(body.email) && exists i :: 0 <= i < |rows| && rows[i].email == body.email.value && rows[i].id != userId
    ensures Conflict(rows, userId, body) == Some(UsernameInUseMessage) <==>
              Conflict(rows, userId, body) != Some(EmailInUseMessage)
              && Truthy(body.username)
              && exists i :: 0 <= i < |rows| && rows[i].username == body.username.value && rows[i].id != userId
  {
    if Truthy(body.email) {
      if i :| 0 <= i < |rows| && rows[i].email == body.email.value && rows[i].id != userId {
        UniqueLookups(rows, i);
      }
    }
    if Truthy(body.username) {
      if i :| 0 <= i < |rows| && rows[i].username == body.username.value && rows[i].id != userId {
        UniqueLookups(rows, i);
      }
    }
  }

  /** Sending one's own current email and username back is never a conflict. */
  lemma OwnDetailsAllowed(rows: seq<UserRecord>, k: nat, body: UpdateBody)
    requires UniqueKeys(rows) && k < |rows|
    requires !body.email.Given? || body.email == Given(rows[k].email)
    requires !body.username.Given? || body.username == Given(rows[k].username)
    ensures Conflict(rows, rows[k].id, body) == None
  {
    UniqueLookups(rows, k);
  }

  /**
   * Only the keys present in the body are written, a present password as its hash;
   * the id and every absent key keep their values.
   */
  lemma OnlyGivenFieldsWritten(u: UserRecord, body: UpdateBody, hash: string -> string)
    requires !HasNull(body)
    ensures var v := Apply(u, PatchOf(body, hash));
            v.id == u.id
            && v.email == (if body.email.Given? then body.email.value else u.email)
            && v.username == (if body.username.Given? then body.username.value else u.username)
            && v.favoriteDriversIds == (if body.favoriteDriversIds.Given? then body.favoriteDriversIds.value else u.favoriteDriversIds)
            && v.favoriteTeamsIds == (if body.favoriteTeamsIds.Given? then body.favoriteTeamsIds.value else u.favoriteTeamsIds)
            && v.password == (if body.password.Given? then hash(body.password.value) else u.password)
  {
  }

  /**
   * The checks test truthiness and the writes test presence: an empty email skips the
   * conflict check and is still written, so when another user already has the empty
   * email the write breaks the uniqueness constraint (and the handler answers 500, not 409).
   */
  lemma EmptyEmailSkipsCheck(rows: seq<UserRecord>, k: nat, userId: int, u: UserRecord,
                             body: UpdateBody, hash: string -> string)
    requires k < |rows| && rows[k].email == "" && rows[k].id != userId
    requires body.email == Given("") && !Truthy(body.username) && !HasNull(body)
    ensures Conflict(rows, userId, body) == None
    ensures Apply(u, PatchOf(body, hash)).email == ""
    ensures !ClashFree(rows, userId, Apply(u, PatchOf(body, hash)).email, Apply(u, PatchOf(body, hash)).username)
  {
  }

  /**
   * PATCH /user/me: 401 without a user id; a conflict's 409; 500 when a key is `null`;
   * otherwise the row is updated with exactly the given fields and returned without its
   * password (200), or, when the row is missing or the write breaks a uniqueness
   * constraint, 500. Every 500 leaves the table unchanged.
   */
  method UpdateUser(db: UserTable, user: Option<RequestUser>, body: UpdateBody, hash: string -> string)
    returns (reply: Reply<PublicUser>)
    requires db.Valid()
    modifies db
    ensures db.Valid()
    ensures !Authorised(user) ==> reply == Reply(401, Message(UnauthorizedMessage)) && db.rows == old(db.rows)
    ensures Authorised(user) && old(Conflict(db.rows, user.value.id, body)).Some? ==>
              reply == Reply(409, Message(old(Conflict(db.rows, user.value.id, body)).value))
              && db.rows == old(db.rows)
    ensures Authorised(user) && old(Conflict(db.rows, user.value.id, body)).None? && HasNull(body) ==>
              reply == Reply(500, Message(UpdateFailedMessage)) && db.rows == old(db.rows)
    ensures Authorised(user) && old(Conflict(db.rows, user.value.id, body)).None? && !HasNull(body) ==>
              var id := user.value.id;
              var cur := old(WithId(db.rows, id));
              if cur.Some? && ClashFree(old(db.rows), id, Apply(cur.value, PatchOf(body, hash)).email,
                                        Apply(cur.value, PatchOf(body, hash)).username)
              then
                reply == Reply(200, Data(Public(Apply(cur.value, PatchOf(body, hash)))))
                && exists k :: 0 <= k < |old(db.rows)| && old(db.rows)[k].id == id
                               && db.rows == old(db.rows)[k := Apply(cur.value, PatchOf(body, hash))]
              else
                reply == Reply(500, Message(UpdateFailedMessage)) && db.rows == old(db.rows)
  {
    if !Authorised(user) {
      return Reply(401, Message(UnauthorizedMessage));
    }
    var userId := user.value.id;
    if Truthy(body.email) {
      var existing := WithEmail(db.rows, body.email.value);
      if existing.Some? && existing.value.id != userId {
        return Reply(409, Message(EmailInUseMessage));
      }
    }
    if Truthy(body.username) {
      var existing := WithUsername(db.rows, body.username.value);
      if existing.Some? && existing.value.id != userId {
        return Reply(409, Message(UsernameInUseMessage));
      }
    }
    var data := BuildPatch(body, hash);
    if data.None? {
      return Reply(500, Message(UpdateFailedMessage));
    }
    var updated := db.Update(userId, data.value);
    match updated
    case Some(u) => reply := Reply(200, Data(Public(u)));
    case None => reply := Reply(500, Message(UpdateFailedMessage));
  }

  /**
   * The handler's `data` object, filled in key by key, with every key that is not
   * `undefined`; None when a `null` among them makes the hashing or the write throw.
   */
  method BuildPatch(body: UpdateBody, hash: string -> string) returns (data: Option<Patch>)
    ensures data.None? <==> HasNull(body)
    ensures data.Some? ==> data.value == PatchOf(body, hash)
  {
    var patch := Patch(None, None, None, None, None);
    var refused := false;
    if !body.email.Undefined? {
      if body.email.Null? { refused := true; } else { patch := patch.(email := Some(body.email.value)); }
    }
    if !body.username.Undefined? {
      if body.username.Null? { refused := true; } else { patch := patch.(username := Some(body.username.value)); }
    }
    if !body.favoriteDriversIds.Undefined? {
      if body.favoriteDriversIds.Null? {
        refused := true;
      } else {
        patch := patch.(favoriteDriversIds := Some(body.favoriteDriversIds.value));
      }
    }
    if !body.favoriteTeamsIds.Undefined? {
      if body.favoriteTeamsIds.Null? {
        refused := true;
      } else {
        patch := patch.(favoriteTeamsIds := Some(body.favoriteTeamsIds.value));
      }
    }
    if !body.password.Undefined? {
      if body.password.Null? { refused := true; } else { patch := patch.(password := Some(hash(body.password.value))); }
    }
    data := if refused then None else Some(patch);
  }

  /** A `null` email skips the conflict check, since it is falsy, and the update answers 500. */
  lemma NullEmailFails(rows: seq<UserRecord>, userId: int, body: UpdateBody)
    requires body.email.Null? && !Truthy(body.username)
    ensures Conflict(rows, userId, body) == None && HasNull(body)
  {
  }
}
