/**
 * The sign-up form (screens/RegisterScreen.tsx): its validation chain, the email
 * pattern, the favourite toggles and the body it submits to /auth/register.
 */
module RegisterScreen {
  import opened Wrappers
  import opened Strings
  import opened ClientTypes
  import AuthDto

  const FillAllMessage := "Please fill in all fields."
  const BadEmailMessage := "Invalid email address."
  const ShortPasswordMessage := "Password must be at least 6 characters."
  const MismatchMessage := "Passwords do not match."
  const NoDriverMessage := "Please select at least one favorite driver."
  const NoTeamMessage := "Please select at least one favorite team."
  const FailureFallback := "Registration failed"

  const ClientPasswordMin := 6

  /** The form's state. */
  datatype RegisterForm = RegisterForm(
    username: string,
    email: string,
    password: string,
    confirm: string,
    favoriteDriversIds: seq<string>,
    favoriteTeamsIds: seq<string>)

  /** A character `[^\s@]` matches. */
  predicate Plain(c: char) {
    !IsSpace(c) && c != '@'
  }

  predicate AllPlain(s: string) {
    forall i :: 0 <= i < |s| ==> Plain(s[i])
  }

  /**
   * The language of `/^[^\s@]+@[^\s@]+\.[^\s@]+$/`: an '@' at `k` and a '.' at `j`
   * cut the string into three non-empty runs of characters that are neither
   * whitespace nor '@'.
   */
  predicate EmailPattern(s: string) {
    exists k, j :: 0 < k && k + 1 < j && j + 1 < |s| && s[k] == '@' && s[j] == '.'
                   && AllPlain(s[..k]) && AllPlain(s[k + 1..j]) && AllPlain(s[j + 1..])
  }

  /** Whether the string has a '.' with at least one character on either side. */
  predicate HasInnerDot(r: string) {
    exists i :: 0 < i < |r| - 1 && r[i] == '.'
  }

  predicate NoSpace(s: string) {
    forall i :: 0 <= i < |s| ==> !IsSpace(s[i])
  }

  /**
   * The pattern test as the screen's check decides it: splitting on '@' gives exactly a
   * non-empty local part and a domain, neither with whitespace, the domain with an inner '.'.
   */
  predicate EmailTest(s: string)
    ensures EmailTest(s) ==> multiset(s)['@'] == 1 && s[0] != '@' && !IsSpace(s[0])
  {
    var parts := Split(s, '@');
    var r := |parts| == 2 && parts[0] != "" && NoSpace(parts[0]) && NoSpace(parts[1]) && HasInnerDot(parts[1]);
    if r then SplitTwoIff(s, '@', parts[0], parts[1]); assert s[0] == parts[0][0]; r else r
  }

  /** Whatever the test accepts is in the pattern's language. */
  lemma EmailTestSound(s: string)
    requires EmailTest(s)
    ensures EmailPattern(s)
  {
    var parts := Split(s, '@');
    var a, b := parts[0], parts[1];
    SplitTwoIff(s, '@', a, b);
    var i :| 0 < i < |b| - 1 && b[i] == '.';
    var k, j := |a|, |a| + 1 + i;
    assert s[..k] == a;
    assert s[k + 1..j] == b[..i];
    assert s[j + 1..] == b[i + 1..];
    assert s[k] == '@' && s[j] == '.';
  }

  /** Whatever is in the pattern's language the test accepts. */
  lemma EmailTestComplete(s: string)
    requires EmailPattern(s)
    ensures EmailTest(s)
  {
    var k, j :| 0 < k && k + 1 < j && j + 1 < |s| && s[k] == '@' && s[j] == '.'
                && AllPlain(s[..k]) && AllPlain(s[k + 1..j]) && AllPlain(s[j + 1..]);
    CompleteAt(s, k, j);
  }

  lemma CompleteAt(s: string, k: nat, j: nat)
    requires 0 < k && k + 1 < j && j + 1 < |s| && s[k] == '@' && s[j] == '.'
    requires AllPlain(s[..k]) && AllPlain(s[k + 1..j]) && AllPlain(s[j + 1..])
    ensures EmailTest(s)
  {
    var a, b := s[..k], s[k + 1..];
    PlainRun(a);
    assert b == s[k + 1..j] + ['.'] + s[j + 1..];
    DottedRun(b, s[k + 1..j], s[j + 1..]);
    assert s == a + ['@'] + b;
    SplitTwoIff(s, '@', a, b);
  }

  lemma PlainRun(a: string)
    requires AllPlain(a)
    ensures '@' !in a && NoSpace(a)
  {
  }

  lemma DottedRun(b: string, c: string, d: string)
    requires b == c + ['.'] + d && c != [] && d != []
    requires AllPlain(c) && AllPlain(d)
    ensures '@' !in b && NoSpace(b) && HasInnerDot(b)
  {
    forall m | 0 <= m < |b|
      ensures b[m] != '@' && !IsSpace(b[m])
    {
      if m < |c| {
        assert b[m] == c[m];
      } else if m > |c| {
        assert b[m] == d[m - |c| - 1];
      }
    }
    assert b[|c|] == '.';
  }

  /** The test accepts exactly the pattern's language. */
  lemma EmailTestIff(s: string)
    ensures EmailTest(s) <==> EmailPattern(s)
  {
    if EmailTest(s) {
      EmailTestSound(s);
    }
    if EmailPattern(s) {
      EmailTestComplete(s);
    }
  }

  /** An email that starts with whitespace never passes the pattern. */
  lemma LeadingSpaceRejected(e: string)
    requires |e| > 0 && IsSpace(e[0])
    ensures !EmailTest(e)
  {
    EmailTestIff(e);
  }

  /** All six checks pass. */
  predicate Passes(f: RegisterForm) {
    Trim(f.username) != "" && Trim(f.email) != "" && f.password != ""
    && EmailTest(f.email)
    && Utf16Length(f.password) >= ClientPasswordMin
    && f.password == f.confirm
    && f.favoriteDriversIds != []
    && f.favoriteTeamsIds != []
  }

  /**
   * `validate`: the message of the first failing check, in the order presence (username and
   * email trimmed, the password as typed), email pattern on the untrimmed email, password
   * length in UTF-16 code units, confirmation, a driver, a team; null exactly when all pass.
   */
  function Validate(f: RegisterForm): (r: Option<string>)
    ensures r.None? <==> Passes(f)
    ensures r == Some(FillAllMessage) <==> Trim(f.username) == "" || Trim(f.email) == "" || f.password == ""
    ensures r == Some(BadEmailMessage) <==>
              Trim(f.username) != "" && Trim(f.email) != "" && f.password != "" && !EmailTest(f.email)
    ensures r == Some(ShortPasswordMessage) <==>
              Trim(f.username) != "" && Trim(f.email) != "" && f.password != "" && EmailTest(f.email)
              && Utf16Length(f.password) < ClientPasswordMin
    ensures r == Some(MismatchMessage) <==>
              Trim(f.username) != "" && Trim(f.email) != "" && f.password != "" && EmailTest(f.email)
              && Utf16Length(f.password) >= ClientPasswordMin && f.password != f.confirm
    ensures r == Some(NoDriverMessage) <==>
              Trim(f.username) != "" && Trim(f.email) != "" && f.password != "" && EmailTest(f.email)
              && Utf16Length(f.password) >= ClientPasswordMin && f.password == f.confirm && f.favoriteDriversIds == []
    ensures r == Some(NoTeamMessage) <==>
              Trim(f.username) != "" && Trim(f.email) != "" && f.password != "" && EmailTest(f.email)
              && Utf16Length(f.password) >= ClientPasswordMin && f.password == f.confirm && f.favoriteDriversIds != []
              && f.favoriteTeamsIds == []
  {
    if Trim(f.username) == "" || Trim(f.email) == "" || f.password == "" then Some(FillAllMessage)
    else if !EmailTest(f.email) then Some(BadEmailMessage)
    else if Utf16Length(f.password) < ClientPasswordMin then Some(ShortPasswordMessage)
    else if f.password != f.confirm then Some(MismatchMessage)
    else if f.favoriteDriversIds == [] then Some(NoDriverMessage)
    else if f.favoriteTeamsIds == [] then Some(NoTeamMessage)
    else None
  }

  /**
   * The pattern sees the email as typed although the trimmed email is submitted: with a
   * leading space an otherwise valid form is refused.
   */
  lemma UntrimmedEmailRejected(f: RegisterForm)
    requires |f.email| > 0 && IsSpace(f.email[0]) && Trim(f.email) != ""
    requires Trim(f.username) != "" && f.password != ""
    ensures Validate(f) == Some(BadEmailMessage)
  {
    LeadingSpaceRejected(f.email);
  }

  /** A driver or team row's toggle: remove every occurrence of a present id, append an absent one. */
  function Toggle(prev: seq<string>, id: string): (next: seq<string>)
    ensures id in prev ==> id !in next && forall y :: y != id ==> multiset(next)[y] == multiset(prev)[y]
    ensures id !in prev ==> next == prev + [id]
    ensures id in next <==> id !in prev
  {
    if id in prev then
      var r := Without(prev, id);
      assert forall y :: y != id ==> multiset(r)[y] == multiset(prev)[y] by {
        forall y | y != id
          ensures multiset(r)[y] == multiset(prev)[y]
        {
          if y !in prev {
            assert y !in r;
          }
        }
      }
      r
    else prev + [id]
  }

  /** The toggles never introduce a repeated id. */
  lemma ToggleKeepsNoDuplicates(prev: seq<string>, id: string)
    requires NoDuplicates(prev)
    ensures NoDuplicates(Toggle(prev, id))
  {
    if id in prev {
      WithoutKeepsNoDuplicates(prev, id);
    }
  }

  /** Toggling an absent id twice restores the list. */
  lemma {:induction false} ToggleTwice(prev: seq<string>, id: string)
    requires id !in prev
    ensures Toggle(Toggle(prev, id), id) == prev
  {
    WithoutConcat(prev, [id], id);
    assert Without([id], id) == [] by {
      assert [id][1..] == [];
    }
    assert prev + [] == prev;
  }

  /** The body of `registerUser`: username and email trimmed, the password as typed, empty favourite lists left out. */
  datatype RegisterPayload = RegisterPayload(
    username: string,
    email: string,
    password: string,
    favoriteDriversIds: Option<seq<string>>,
    favoriteTeamsIds: Option<seq<string>>)

  function Payload(f: RegisterForm): (p: RegisterPayload)
    ensures p.username == Trim(f.username) && p.email == Trim(f.email) && p.password == f.password
    ensures p.favoriteDriversIds.None? <==> f.favoriteDriversIds == []
    ensures p.favoriteTeamsIds.None? <==> f.favoriteTeamsIds == []
    ensures p.favoriteDriversIds.Some? ==> p.favoriteDriversIds.value == f.favoriteDriversIds
    ensures p.favoriteTeamsIds.Some? ==> p.favoriteTeamsIds.value == f.favoriteTeamsIds
  {
    RegisterPayload(
      Trim(f.username),
      Trim(f.email),
      f.password,
      if |f.favoriteDriversIds| > 0 then Some(f.favoriteDriversIds) else None,
      if |f.favoriteTeamsIds| > 0 then Some(f.favoriteTeamsIds) else None)
  }

  /** The payload as the backend's register handler receives it. */
  function BodyOf(p: RegisterPayload): AuthDto.RegisterBody {
    AuthDto.RegisterBody(AuthDto.Text(p.email), AuthDto.Text(p.username), AuthDto.Text(p.password), AuthDto.Absent, AuthDto.Absent,
                         p.favoriteDriversIds, p.favoriteTeamsIds)
  }

  /**
   * The form and the backend disagree: the form has no username length or password
   * maximum, so a form it accepts with a username of fewer than 3 code units, or a password
   * of more than 100, is still refused by the backend; and the plural favourite lists it
   * sends never reach the parsed registration.
   */
  lemma ClientChecksLooserThanServer(f: RegisterForm, isEmail: string -> bool)
    requires Passes(f)
    ensures Utf16Length(Trim(f.username)) < AuthDto.UsernameMin ==> AuthDto.ParseRegister(BodyOf(Payload(f)), isEmail).Failure?
    ensures Utf16Length(f.password) > AuthDto.PasswordMax ==> AuthDto.ParseRegister(BodyOf(Payload(f)), isEmail).Failure?
    ensures AuthDto.ParseRegister(BodyOf(Payload(f)), isEmail).Success? ==>
              var dto := AuthDto.ParseRegister(BodyOf(Payload(f)), isEmail).value;
              dto.favoriteDriverId.None? && dto.favoriteTeamId.None?
              && Utf16Length(f.password) >= AuthDto.PasswordMin
  {
    var b := BodyOf(Payload(f));
    assert b.username == AuthDto.Text(Trim(f.username)) && b.password == AuthDto.Text(f.password);
    assert b.favoriteDriverId == AuthDto.Absent && b.favoriteTeamId == AuthDto.Absent;
  }

  /** The alert of a failed registration: the rejection's message, or the fallback when it is empty. */
  function FailureAlert(payload: Option<string>): (m: string)
    ensures m != ""
    ensures Truthy(payload) ==> m == payload.value
  {
    OrIfFalsy(payload, FailureFallback)
  }
}
