/**
 * The /auth handlers (backend/src/controllers/auth.controller.ts): parse the body,
 * call the service, and map its outcome to a status and a JSON body.
 */
module AuthController {
  import opened Wrappers
  import opened Http
  import opened Strings
  import opened Users
  import opened AuthDto
  import opened AuthMiddleware
  import opened AuthService

  const RegisterFallback := "Registration failed"
  const LoginFallback := "Login failed"

  /** The 400 reply to a body that does not parse: every issue message, joined by ", ". */
  function IssuesReply<T>(issues: seq<string>): Reply<T> {
    Reply(400, Message(JoinWith(issues, ", ")))
  }

  /** The catch block: `err.status ?? 500` and `err.message ?? fallback`. */
  function ErrorReply<T>(e: ServiceError, fallback: string): Reply<T> {
    Reply(e.status.Or(500), Message(e.message.Or(fallback)))
  }

  /** The service's own errors pass through; an error without status or message gets 500 and the fallback. */
  lemma ErrorReplies<T>(fallback: string)
    ensures ErrorReply<T>(EmailInUse, fallback) == Reply(409, Message("Email already in use"))
    ensures ErrorReply<T>(UsernameInUse, fallback) == Reply(409, Message("Username already in use"))
    ensures ErrorReply<T>(InvalidCredentials, fallback) == Reply(401, Message("Invalid credentials"))
    ensures ErrorReply<T>(ServiceError(None, None), fallback) == Reply(500, Message(fallback))
  {
  }

  /**
   * POST /auth/register: 400 with the issues and no table access when the body does not
   * parse; the service's 409s as they are; otherwise 201 with the new user.
   */
  method Register(db: UserTable, body: RegisterBody, isEmail: string -> bool, hash: string -> string)
    returns (reply: Reply<PublicUser>)
    requires db.Valid()
    modifies db
    ensures db.Valid()
    ensures ParseRegister(body, isEmail).Failure? ==>
              reply == IssuesReply(ParseRegister(body, isEmail).error) && db.rows == old(db.rows)
    ensures ParseRegister(body, isEmail).Success? ==>
              var dto := ParseRegister(body, isEmail).value;
              if old(WithEmail(db.rows, dto.email)).Some? then
                reply == Reply(409, Message("Email already in use")) && db.rows == old(db.rows)
              else if old(WithUsername(db.rows, dto.username)).Some? then
                reply == Reply(409, Message("Username already in use")) && db.rows == old(db.rows)
              else
                var u := NewUser(old(db.nextId), dto, hash);
                reply == Reply(201, Data(Public(u))) && db.rows == old(db.rows) + [u]
  {
    var parsed := ParseRegister(body, isEmail);
    if parsed.Failure? {
      return IssuesReply(parsed.error);
    }
    var r := AuthService.Register(db, parsed.value, hash);
    match r
    case Success(user) => reply := Reply(201, Data(user));
    case Failure(e) => reply := ErrorReply(e, RegisterFallback);
  }

  /** POST /auth/login: 400 with the issues, the service's 401, or the default 200 with the session. */
  function Login(rows: seq<UserRecord>, body: LoginBody,
                 compare: (string, string) -> bool, sign: TokenPayload -> string): (reply: Reply<Session>)
    ensures ParseLogin(body).Failure? ==> reply == IssuesReply(ParseLogin(body).error)
    ensures ParseLogin(body).Success? ==>
              var dto := ParseLogin(body).value;
              var r := AuthService.Login(rows, dto.usernameOrEmail, dto.password, compare, sign);
              (r.Success? ==> reply == Reply(200, Data(r.value)))
              && (r.Failure? ==> reply == Reply(401, Message("Invalid credentials")))
    ensures reply.status in {200, 400, 401}
  {
    match ParseLogin(body)
    case Failure(issues) => IssuesReply(issues)
    case Success(dto) =>
      match AuthService.Login(rows, dto.usernameOrEmail, dto.password, compare, sign)
      case Success(session) => Reply(200, Data(session))
      case Failure(e) => ErrorReply(e, LoginFallback)
  }

  /** A login body missing both fields is answered with both issue messages joined. */
  lemma EmptyLoginBody(rows: seq<UserRecord>, compare: (string, string) -> bool, sign: TokenPayload -> string)
    ensures Login(rows, LoginBody(Absent, Absent), compare, sign) == Reply(400, Message("Required, Required"))
  {
    assert LengthIssues(Absent, LoginMin, None) == [RequiredMessage];
    assert [RequiredMessage] + [RequiredMessage] == [RequiredMessage, RequiredMessage];
    assert ParseLogin(LoginBody(Absent, Absent)) == Failure([RequiredMessage, RequiredMessage]);
    assert JoinWith([RequiredMessage, RequiredMessage], ", ") == RequiredMessage + ", " + RequiredMessage;
    assert RequiredMessage + ", " + RequiredMessage == "Required, Required";
  }
}
