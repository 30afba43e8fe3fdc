/**
 * The request-body schemas of /auth/register and /auth/login (backend/src/dto/auth.dto.ts),
 * with the issue messages zod reports in the order of the schema's keys. Keys the schema
 * does not declare are stripped from the parsed value. Zod's email check is a parameter.
 */
module AuthDto {
  import opened Wrappers
  import opened Strings

  const RequiredMessage := "Required"
  const InvalidEmailMessage := "Invalid email"

  const UsernameMin := 3
  const UsernameMax := 30
  const PasswordMin := 6
  const PasswordMax := 100
  const LoginMin := 1

  function TooShortMessage(n: nat): string {
    "String must contain at least " + NatToString(n) + " character(s)"
  }

  function TooLongMessage(n: nat): string {
    "String must contain at most " + NatToString(n) + " character(s)"
  }

  /** zod's message for a value of the wrong type; `received` is zod's name for its type. */
  function TypeMessage(received: string): string {
    "Expected string, received " + received
  }

  /**
   * The JSON value under one key of a body: absent, a string, or a value of another type
   * (`null`, a number, an object, …), given by the name zod reports for its type.
   */
  datatype Input = Absent | Text(s: string) | NotText(received: string)

  /** The value of an optional string key: the string, or nothing. */
  function OptionalValue(v: Input): Option<string> {
    if v.Text? then Some(v.s) else None
  }

  /**
   * A register request body: the declared keys, and the plural favourite lists the
   * mobile client sends, which the schema does not declare.
   */
  datatype RegisterBody = RegisterBody(
    email: Input,
    username: Input,
    password: Input,
    favoriteDriverId: Input,
    favoriteTeamId: Input,
    favoriteDriversIds: Option<seq<string>>,
    favoriteTeamsIds: Option<seq<string>>)

  /** The parsed register body. */
  datatype RegisterDto = RegisterDto(
    email: string,
    username: string,
    password: string,
    favoriteDriverId: Option<string>,
    favoriteTeamId: Option<string>)

  datatype LoginBody = LoginBody(usernameOrEmail: Input, password: Input)

  datatype LoginDto = LoginDto(usernameOrEmail: string, password: string)

  /**
   * The issues of one `z.string().min(lo).max(hi)` field. A value that is not a string has
   * only the type issue; the bounds count UTF-16 code units, as `.length` does.
   */
  function LengthIssues(v: Input, lo: nat, hi: Option<nat>): (issues: seq<string>)
    requires hi.None? || lo <= hi.value
    ensures issues == [] <==> v.Text? && lo <= Utf16Length(v.s) && (hi.None? || Utf16Length(v.s) <= hi.value)
    ensures v.Absent? ==> issues == [RequiredMessage]
    ensures v.NotText? ==> issues == [TypeMessage(v.received)]
    ensures v.Text? && Utf16Length(v.s) < lo ==> issues == [TooShortMessage(lo)]
    ensures v.Text? && hi.Some? && hi.value < Utf16Length(v.s) ==> issues == [TooLongMessage(hi.value)]
    ensures |issues| <= 1
  {
    match v
    case Absent => [RequiredMessage]
    case NotText(received) => [TypeMessage(received)]
    case Text(s) =>
      var n := Utf16Length(s);
      (if n < lo then [TooShortMessage(lo)] else [])
      + (if hi.Some? && hi.value < n then [TooLongMessage(hi.value)] else [])
  }

  /** The issues of the `z.string().email()` field. */
  function EmailIssues(v: Input, isEmail: string -> bool): (issues: seq<string>)
    ensures issues == [] <==> v.Text? && isEmail(v.s)
    ensures v.Absent? ==> issues == [RequiredMessage]
    ensures v.NotText? ==> issues == [TypeMessage(v.received)]
    ensures v.Text? && !isEmail(v.s) ==> issues == [InvalidEmailMessage]
  {
    match v
    case Absent => [RequiredMessage]
    case NotText(received) => [TypeMessage(received)]
    case Text(s) => if isEmail(s) then [] else [InvalidEmailMessage]
  }

  /** The issues of a `z.string().optional()` field: only a value that is not a string is refused. */
  function OptionalIssues(v: Input): (issues: seq<string>)
    ensures issues == [] <==> !v.NotText?
    ensures v.NotText? ==> issues == [TypeMessage(v.received)]
  {
    if v.NotText? then [TypeMessage(v.received)] else []
  }

  /** All issues of a register body, in the order of the schema's keys. */
  function RegisterIssues(body: RegisterBody, isEmail: string -> bool): seq<string> {
    EmailIssues(body.email, isEmail)
    + LengthIssues(body.username, UsernameMin, Some(UsernameMax))
    + LengthIssues(body.password, PasswordMin, Some(PasswordMax))
    + OptionalIssues(body.favoriteDriverId)
    + OptionalIssues(body.favoriteTeamId)
  }

  /** `registerDto.safeParse(body)`. */
  function ParseRegister(body: RegisterBody, isEmail: string -> bool): (r: Result<RegisterDto, seq<string>>)
    ensures r.Success? <==>
              body.email.Text? && isEmail(body.email.s)
              && body.username.Text? && UsernameMin <= Utf16Length(body.username.s) <= UsernameMax
              && body.password.Text? && PasswordMin <= Utf16Length(body.password.s) <= PasswordMax
              && !body.favoriteDriverId.NotText? && !body.favoriteTeamId.NotText?
    ensures r.Success? ==>
              r.value == RegisterDto(body.email.s, body.username.s, body.password.s,
                                     OptionalValue(body.favoriteDriverId), OptionalValue(body.favoriteTeamId))
    ensures r.Failure? ==> r.error != [] && r.error == RegisterIssues(body, isEmail)
  {
    var issues := RegisterIssues(body, isEmail);
    if issues == [] then
      Success(RegisterDto(body.email.s, body.username.s, body.password.s,
                          OptionalValue(body.favoriteDriverId), OptionalValue(body.favoriteTeamId)))
    else Failure(issues)
  }

  /** `loginDto.safeParse(body)`: both fields must be non-empty strings, of any length. */
  function ParseLogin(body: LoginBody): (r: Result<LoginDto, seq<string>>)
    ensures r.Success? <==> body.usernameOrEmail.Text? && body.usernameOrEmail.s != ""
                            && body.password.Text? && body.password.s != ""
    ensures r.Success? ==> r.value == LoginDto(body.usernameOrEmail.s, body.password.s)
    ensures r.Failure? ==> 1 <= |r.error| <= 2
  {
    var issues := LengthIssues(body.usernameOrEmail, LoginMin, None) + LengthIssues(body.password, LoginMin, None);
    if issues == [] then Success(LoginDto(body.usernameOrEmail.s, body.password.s))
    else Failure(issues)
  }

  /** A body with the three required strings and no favourites. */
  function Credentials(email: string, username: string, password: string): RegisterBody {
    RegisterBody(Text(email), Text(username), Text(password), Absent, Absent, None, None)
  }

  /** Username length is bounded by 3 and 30 code units, inclusive: one unit either side is refused. */
  lemma UsernameBoundaries(email: string, username: string, password: string, isEmail: string -> bool)
    requires isEmail(email) && PasswordMin <= Utf16Length(password) <= PasswordMax
    ensures Utf16Length(username) == 2 ==>
              ParseRegister(Credentials(email, username, password), isEmail) == Failure([TooShortMessage(3)])
    ensures Utf16Length(username) == 31 ==>
              ParseRegister(Credentials(email, username, password), isEmail) == Failure([TooLongMessage(30)])
    ensures Utf16Length(username) == 3 || Utf16Length(username) == 30 ==>
              ParseRegister(Credentials(email, username, password), isEmail).Success?
  {
    var body := Credentials(email, username, password);
    assert EmailIssues(body.email, isEmail) == [];
    assert LengthIssues(body.password, PasswordMin, Some(PasswordMax)) == [];
    assert OptionalIssues(body.favoriteDriverId) == [] && OptionalIssues(body.favoriteTeamId) == [];
    if Utf16Length(username) == 2 {
      assert RegisterIssues(body, isEmail) == [TooShortMessage(3)];
    }
    if Utf16Length(username) == 31 {
      assert LengthIssues(body.username, UsernameMin, Some(UsernameMax)) == [TooLongMessage(30)];
      assert RegisterIssues(body, isEmail) == [TooLongMessage(30)];
    }
  }

  /** Two characters above U+FFFF are four code units, so they make an acceptable username. */
  lemma AstralUsernameAccepted(email: string, password: string, isEmail: string -> bool)
    requires isEmail(email) && PasswordMin <= Utf16Length(password) <= PasswordMax
    ensures ParseRegister(Credentials(email, "\U{1F600}\U{1F600}", password), isEmail).Success?
  {
    var u := "\U{1F600}\U{1F600}";
    assert u[..1] == "\U{1F600}" && u[..1][..0] == [];
    assert Utf16Length(u) == 4;
  }

  /** An empty body reports one "Required" per required field, in schema order. */
  lemma EmptyRegisterBody(isEmail: string -> bool)
    ensures ParseRegister(RegisterBody(Absent, Absent, Absent, Absent, Absent, None, None), isEmail)
            == Failure([RequiredMessage, RequiredMessage, RequiredMessage])
  {
    var body := RegisterBody(Absent, Absent, Absent, Absent, Absent, None, None);
    assert EmailIssues(body.email, isEmail) == [RequiredMessage];
    assert LengthIssues(body.username, UsernameMin, Some(UsernameMax)) == [RequiredMessage];
    assert LengthIssues(body.password, PasswordMin, Some(PasswordMax)) == [RequiredMessage];
    assert [RequiredMessage] + [RequiredMessage] + [RequiredMessage] + [] + []
           == [RequiredMessage, RequiredMessage, RequiredMessage];
  }

  /**
   * The favourite keys decide whether a body parses only by holding a value that is not a
   * string: such a value is always refused with its type, and a string or an absent key
   * never changes the outcome. The plural lists are stripped, so they never matter.
   */
  lemma FavouritesDoNotMatter(body: RegisterBody, d: Input, t: Input,
                              ds: Option<seq<string>>, ts: Option<seq<string>>, isEmail: string -> bool)
    ensures var other := body.(favoriteDriverId := d, favoriteTeamId := t, favoriteDriversIds := ds, favoriteTeamsIds := ts);
            d.NotText? == body.favoriteDriverId.NotText? && t.NotText? == body.favoriteTeamId.NotText? ==>
              ParseRegister(other, isEmail).Success? == ParseRegister(body, isEmail).Success?
    ensures d.NotText? ==>
              var other := body.(favoriteDriverId := d);
              ParseRegister(other, isEmail).Failure? && TypeMessage(d.received) in ParseRegister(other, isEmail).error
    ensures var other := body.(favoriteDriversIds := ds, favoriteTeamsIds := ts);
            ParseRegister(other, isEmail) == ParseRegister(body, isEmail)
  {
    if d.NotText? {
      var other := body.(favoriteDriverId := d);
      var pre := EmailIssues(other.email, isEmail)
                 + LengthIssues(other.username, UsernameMin, Some(UsernameMax))
                 + LengthIssues(other.password, PasswordMin, Some(PasswordMax));
      assert RegisterIssues(other, isEmail) == pre + [TypeMessage(d.received)] + OptionalIssues(other.favoriteTeamId);
      assert RegisterIssues(other, isEmail)[|pre|] == TypeMessage(d.received);
    }
  }

  /** A password of 6 to 100 code units is accepted, 5 is refused with the minimum's message. */
  lemma PasswordBoundaries(email: string, username: string, password: string, isEmail: string -> bool)
    requires isEmail(email) && UsernameMin <= Utf16Length(username) <= UsernameMax
    ensures Utf16Length(password) == 5 ==>
              ParseRegister(Credentials(email, username, password), isEmail) == Failure([TooShortMessage(6)])
    ensures Utf16Length(password) == 101 ==>
              ParseRegister(Credentials(email, username, password), isEmail) == Failure([TooLongMessage(100)])
    ensures PasswordMin <= Utf16Length(password) <= PasswordMax ==>
              ParseRegister(Credentials(email, username, password), isEmail).Success?
  {
    var body := Credentials(email, username, password);
    assert EmailIssues(body.email, isEmail) == [];
    assert LengthIssues(body.username, UsernameMin, Some(UsernameMax)) == [];
    assert OptionalIssues(body.favoriteDriverId) == [] && OptionalIssues(body.favoriteTeamId) == [];
    if Utf16Length(password) == 5 {
      assert RegisterIssues(body, isEmail) == [TooShortMessage(6)];
    }
    if Utf16Length(password) == 101 {
      assert LengthIssues(body.password, PasswordMin, Some(PasswordMax)) == [TooLongMessage(100)];
      assert RegisterIssues(body, isEmail) == [TooLongMessage(100)];
    }
  }

  /** A null where a string is required is refused with its type, not reported missing. */
  lemma NullIsNotMissing(isEmail: string -> bool)
    ensures LengthIssues(NotText("null"), UsernameMin, Some(UsernameMax)) == ["Expected string, received null"]
    ensures ParseLogin(LoginBody(NotText("null"), Text("x"))) == Failure(["Expected string, received null"])
  {
    assert TypeMessage("null") == "Expected string, received null";
    assert LengthIssues(Text("x"), LoginMin, None) == [];
    assert [TypeMessage("null")] + [] == [TypeMessage("null")];
  }
}
