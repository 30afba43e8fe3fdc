/**
 * `AuthService` (backend/src/services/auth.service.ts): registration against the user
 * table and login. bcrypt's `hash` and `compare` and jsonwebtoken's `sign` are parameters.
 */
module AuthService {
  import opened Wrappers
  import opened Users
  import opened AuthDto
  import opened AuthMiddleware

  /** The `{ status, message }` object a service method throws; an unexpected error may lack either. */
  datatype ServiceError = ServiceError(status: Option<int>, message: Option<string>)

  const EmailInUse := ServiceError(Some(409), Some("Email already in use"))
  const UsernameInUse := ServiceError(Some(409), Some("Username already in use"))
  const InvalidCredentials := ServiceError(Some(401), Some("Invalid credentials"))

  /** What a successful login returns: the signed token and the user without the password. */
  datatype Session = Session(token: string, user: PublicUser)

  /**
   * The row `register` inserts: the hashed password, and the favourite lists, which the
   * call leaves `undefined`, at the column default, taken to be empty.
   */
  function NewUser(id: int, dto: RegisterDto, hash: string -> string): UserRecord {
    UserRecord(id, dto.email, dto.username, hash(dto.password), [], [])
  }

  /**
   * The singular favourites the schema accepts are never stored: `register` writes only the
   * plural lists, which the parsed body never holds, so the new row does not depend on them.
   */
  lemma SingularFavouritesDiscarded(id: int, dto: RegisterDto, hash: string -> string,
                                    driver: Option<string>, team: Option<string>)
    ensures NewUser(id, dto.(favoriteDriverId := driver, favoriteTeamId := team), hash) == NewUser(id, dto, hash)
    ensures NewUser(id, dto, hash).favoriteDriversIds == [] && NewUser(id, dto, hash).favoriteTeamsIds == []
  {
  }

  /**
   * `register`: refuses a taken email, then a taken username, each with 409 and no row
   * added; otherwise adds exactly one row and returns it without the password.
   */
  method Register(db: UserTable, dto: RegisterDto, hash: string -> string)
    returns (r: Result<PublicUser, ServiceError>)
    requires db.Valid()
    modifies db
    ensures db.Valid()
    ensures old(WithEmail(db.rows, dto.email)).Some? ==>
              r == Failure(EmailInUse) && db.rows == old(db.rows)
    ensures old(WithEmail(db.rows, dto.email)).None? && old(WithUsername(db.rows, dto.username)).Some? ==>
              r == Failure(UsernameInUse) && db.rows == old(db.rows)
    ensures old(WithEmail(db.rows, dto.email)).None? && old(WithUsername(db.rows, dto.username)).None? ==>
              var u := NewUser(old(db.nextId), dto, hash);
              r == Success(Public(u)) && db.rows == old(db.rows) + [u]
  {
    if WithEmail(db.rows, dto.email).Some? {
      return Failure(EmailInUse);
    }
    if WithUsername(db.rows, dto.username).Some? {
      return Failure(UsernameInUse);
    }
    var created := db.Create(dto.email, dto.username, hash(dto.password), [], []);
    if created.None? {
      assert false;
    }
    r := Success(Public(created.value));
  }

  /**
   * `login`: the row `findFirst` returns for the identifier as username or email, accepted
   * when `compare(password, row.password)` holds, and the session is signed for that same
   * row; both failures throw the same value.
   */
  function Login(rows: seq<UserRecord>, identifier: string, password: string,
                 compare: (string, string) -> bool, sign: TokenPayload -> string)
    : (r: Result<Session, ServiceError>)
    ensures r.Failure? ==> r.error == InvalidCredentials
    ensures r.Success? <==> WithUsernameOrEmail(rows, identifier).Some?
                            && compare(password, WithUsernameOrEmail(rows, identifier).value.password)
    ensures r.Success? ==>
              var u := WithUsernameOrEmail(rows, identifier).value;
              (u.username == identifier || u.email == identifier)
              && r.value == Session(sign(TokenPayload(u.id, u.username)), Public(u))
  {
    match WithUsernameOrEmail(rows, identifier)
    case None => Failure(InvalidCredentials)
    case Some(u) =>
      if !compare(password, u.password) then Failure(InvalidCredentials)
      else Success(Session(sign(TokenPayload(u.id, u.username)), Public(u)))
  }

  /** An unknown identifier and a wrong password cannot be told apart by the caller. */
  lemma LoginFailuresAlike(rows: seq<UserRecord>, unknown: string, known: string, password: string,
                           compare: (string, string) -> bool, sign: TokenPayload -> string)
    requires forall j :: 0 <= j < |rows| ==> rows[j].username != unknown && rows[j].email != unknown
    requires WithUsernameOrEmail(rows, known).Some?
    requires !compare(password, WithUsernameOrEmail(rows, known).value.password)
    ensures Login(rows, unknown, password, compare, sign) == Login(rows, known, password, compare, sign)
    ensures Login(rows, unknown, password, compare, sign) == Failure(InvalidCredentials)
  {
  }

  /**
   * Logging in by username picks that user when no row has the identifier as its email;
   * the token then carries that user's id and username.
   */
  lemma LoginByUsername(rows: seq<UserRecord>, k: nat, password: string,
                        compare: (string, string) -> bool, sign: TokenPayload -> string)
    requires UniqueKeys(rows) && k < |rows|
    requires forall j :: 0 <= j < |rows| ==> rows[j].email != rows[k].username
    requires compare(password, rows[k].password)
    ensures Login(rows, rows[k].username, password, compare, sign)
            == Success(Session(sign(TokenPayload(rows[k].id, rows[k].username)), Public(rows[k])))
  {
    var u := WithUsernameOrEmail(rows, rows[k].username);
    assert u.Some?;
    assert u.value == rows[k] by {
      var i :| 0 <= i < |rows| && rows[i] == u.value;
      assert rows[i].username == rows[k].username;
    }
  }

  /**
   * The lookup matches usernames and emails alike: when one user's email is another
   * user's username, that identifier can reach only one of them, and with the lookup
   * resolved to the earliest row it logs in as the older user.
   */
  lemma UsernameShadowedByEmail(older: UserRecord, newer: UserRecord, password: string,
                                compare: (string, string) -> bool, sign: TokenPayload -> string)
    requires older.email == newer.username
    requires compare(password, older.password)
    ensures Login([older, newer], newer.username, password, compare, sign)
            == Success(Session(sign(TokenPayload(older.id, older.username)), Public(older)))
  {
    assert FindIndex([older, newer], (u: UserRecord) => u.username == newer.username || u.email == newer.username) == Some(0);
  }
}
