/**
 * The client's authentication slice (screens/authSlice.ts): the persisted token slot,
 * the axios error mapping, the decisions of the `registerUser`, `loginUser` and `fetchMe`
 * thunks, and the reducer. The network is a parameter of each thunk; AsyncStorage is
 * one `TokenSlot`.
 */
module AuthSlice {
  import opened Wrappers
  import opened Strings
  import opened ClientTypes
  import AuthMiddleware

  const MissingTokenOrUserMessage := "Invalid server response: missing token or user"
  const NoTokenMessage := "No token"
  const RegisterFallback := "Register failed"
  const LoginFallback := "Login failed"
  const FetchUserFallback := "Fetch user failed"
  const UnauthorizedWord := "unauthorized"

  /** The slot's content after `saveToken(token)`: a truthy token is stored, anything else empties the slot. */
  function Stored(token: Option<string>): (r: Option<string>)
    ensures r.Some? <==> Truthy(token)
    ensures r.Some? ==> r == token
    ensures r.None? || r.value != ""
  {
    if Truthy(token) then token else None
  }

  /** Saving what the slot holds leaves it as it is. */
  lemma SaveStoredIdempotent(token: Option<string>)
    ensures Stored(Stored(token)) == Stored(token)
  {
  }

  /** The AsyncStorage entry under the key "f1kz_token". */
  class TokenSlot {
    var value: Option<string>

    constructor (stored: Option<string>)
      ensures value == stored
    {
      value := stored;
    }

    /** `saveToken`. */
    method Save(token: Option<string>)
      modifies this
      ensures value == Stored(token)
    {
      if Truthy(token) {
        value := token;
      } else {
        value := None;
      }
    }

    /** `loadToken`. */
    function Load(): Option<string>
      reads this
    {
      value
    }
  }

  /**
   * `extractAxiosErrorMessage`: "Unknown error" without an error; a non-empty string
   * body as it is; an object body's truthy `message`, else its truthy `error`, else its
   * JSON; with no (truthy) body, the truthy `error.message`, else `String(error)`.
   */
  function ErrorMessage(error: Option<HttpError>): (m: string)
    ensures error.None? ==> m == "Unknown error"
    ensures error.Some? && error.value.response.Some? && error.value.response.value.data.Some? ==>
              match error.value.response.value.data.value
              case Text(t) => t != "" ==> m == t
              case Object(msg, err, json) =>
                (Truthy(msg) ==> m == msg.value)
                && (!Truthy(msg) && Truthy(err) ==> m == err.value)
                && (!Truthy(msg) && !Truthy(err) ==> m == json)
    ensures error.Some? && !BodyTruthy(error.value) ==>
              (Truthy(error.value.message) ==> m == error.value.message.value)
              && (!Truthy(error.value.message) ==> m == error.value.text)
  {
    if error.None? then "Unknown error"
    else if BodyTruthy(error.value) then
      match error.value.response.value.data.value
      case Text(t) => t
      case Object(msg, err, json) => OrIfFalsy(msg, OrIfFalsy(err, json))
    else OrIfFalsy(error.value.message, error.value.text)
  }

  /** `error.response?.data` is truthy: a body arrived and it is not the empty string. */
  predicate BodyTruthy(e: HttpError) {
    e.response.Some? && e.response.value.data.Some?
    && (e.response.value.data.value.Text? ==> e.response.value.data.value.text != "")
  }

  /** The error axios raises for a backend reply `res.status(status).json({ message })`. */
  function BackendError(status: int, statusText: string, message: string, json: string,
                        axiosMessage: Option<string>, text: string): HttpError {
    HttpError(Some(HttpResponse(status, statusText, Some(Object(Some(message), None, json)))), axiosMessage, text)
  }

  /** A backend error with a non-empty message reaches the client as exactly that message. */
  lemma BackendMessageShown(status: int, statusText: string, message: string, json: string,
                            axiosMessage: Option<string>, text: string)
    requires message != ""
    ensures ErrorMessage(Some(BackendError(status, statusText, message, json, axiosMessage, text))) == message
  {
  }

  /** A thunk's settled promise: fulfilled with a value, or rejected with the `rejectWithValue` string. */
  datatype Outcome<+T> = Fulfilled(value: T) | Rejected(reason: string)

  /** `registerUser`: the response body as the user, or the error's message. */
  function RegisterUser(response: Result<UserInfo, HttpError>): (o: Outcome<UserInfo>)
    ensures response.Success? <==> o.Fulfilled?
    ensures response.Success? ==> o.value == response.value
    ensures response.Failure? ==> o.reason == ErrorMessage(Some(response.error))
  {
    match response
    case Success(u) => Fulfilled(u)
    case Failure(e) => Rejected(ErrorMessage(Some(e)))
  }

  /** The `token` and `user` keys of the login response body, each possibly absent. */
  datatype LoginResponse = LoginResponse(token: Option<string>, user: Option<UserInfo>)

  /**
   * `loginUser`: a response without a truthy token or without a user is refused and the
   * slot is not written; otherwise the token is saved before the thunk fulfils with
   * token and user. A failed request is refused with the error's message.
   */
  method LoginUser(slot: TokenSlot, response: Result<LoginResponse, HttpError>)
    returns (o: Outcome<(string, UserInfo)>)
    modifies slot
    ensures response.Failure? ==>
              o == Rejected(ErrorMessage(Some(response.error))) && slot.value == old(slot.value)
    ensures response.Success? && (!Truthy(response.value.token) || response.value.user.None?) ==>
              o == Rejected(MissingTokenOrUserMessage) && slot.value == old(slot.value)
    ensures response.Success? && Truthy(response.value.token) && response.value.user.Some? ==>
              o == Fulfilled((response.value.token.value, response.value.user.value))
              && slot.value == response.value.token
  {
    if response.Failure? {
      return Rejected(ErrorMessage(Some(response.error)));
    }
    var data := response.value;
    if !Truthy(data.token) || data.user.None? {
      return Rejected(MissingTokenOrUserMessage);
    }
    slot.Save(data.token);
    o := Fulfilled((data.token.value, data.user.value));
  }

  /**
   * `fetchMe`: the token is the state's, else the slot's. Without a truthy token the thunk
   * is refused with "No token" and no request is sent (`header` is None). Otherwise the
   * request carries "Bearer <token>"; a failure is refused with the error's message, and a
   * 401 reply also empties the slot.
   */
  method FetchMe(stateToken: Option<string>, slot: TokenSlot, send: string -> Result<UserInfo, HttpError>)
    returns (o: Outcome<UserInfo>, header: Option<string>)
    modifies slot
    ensures var token := stateToken.OrElse(old(slot.value));
            if !Truthy(token) then
              o == Rejected(NoTokenMessage) && header.None? && slot.value == old(slot.value)
            else
              header == Some(AuthMiddleware.BearerPrefix + token.value)
              && match send(header.value)
                 case Success(u) => o == Fulfilled(u) && slot.value == old(slot.value)
                 case Failure(e) =>
                   o == Rejected(ErrorMessage(Some(e)))
                   && slot.value == (if e.response.Some? && e.response.value.status == 401 then None
                                     else old(slot.value))
  {
    var token := if stateToken.Some? then stateToken else slot.Load();
    if !Truthy(token) {
      return Rejected(NoTokenMessage), None;
    }
    header := Some("Bearer " + token.value);
    match send(header.value)
    case Success(u) =>
      o := Fulfilled(u);
    case Failure(e) =>
      if e.response.Some? && e.response.value.status == 401 {
        slot.Save(None);
      }
      o := Rejected(ErrorMessage(Some(e)));
  }

  /**
   * The header `fetchMe` sends is the one the backend's gate accepts, and the gate hands
   * verification exactly the client's token, whenever that token has no space in it.
   */
  lemma ClientHeaderAccepted(token: string)
    requires ' ' !in token
    ensures AuthMiddleware.BearerToken(AuthMiddleware.BearerPrefix + token) == Some(token)
  {
    var h := AuthMiddleware.BearerPrefix + token;
    assert h[..|AuthMiddleware.BearerPrefix|] == AuthMiddleware.BearerPrefix;
    assert h[|AuthMiddleware.BearerPrefix|..] == token;
  }

  /**
   * `loadTokenFromStorage`: the slot's token, and whether `fetchMe` is dispatched,
   * which it is exactly for a truthy token.
   */
  function LoadTokenFromStorage(slot: TokenSlot): (r: (Option<string>, bool))
    reads slot
    ensures r.0 == slot.value
    ensures r.1 <==> Truthy(slot.value)
  {
    (slot.Load(), Truthy(slot.Load()))
  }

  /** The slice's state. */
  datatype AuthState = AuthState(token: Option<string>, user: Option<UserInfo>, status: Status, error: Option<string>)

  const Initial := AuthState(None, None, Idle, None)

  /** The actions the slice handles; a rejection carries its payload and `action.error.message`. */
  datatype Action =
    | SetUser(token: Option<string>, user: Option<UserInfo>)
    | Logout
    | LoadTokenFulfilled(token: Option<string>)
    | RegisterPending
    | RegisterFulfilled(registered: UserInfo)
    | RegisterRejected(payload: Option<string>, message: Option<string>)
    | LoginPending
    | LoginFulfilled(loginToken: string, loginUser: UserInfo)
    | LoginRejected(payload: Option<string>, message: Option<string>)
    | FetchMePending
    | FetchMeFulfilled(me: UserInfo)
    | FetchMeRejected(payload: Option<string>, message: Option<string>)

  predicate IsPending(a: Action) {
    a.RegisterPending? || a.LoginPending? || a.FetchMePending?
  }

  predicate IsRejected(a: Action) {
    a.RegisterRejected? || a.LoginRejected? || a.FetchMeRejected?
  }

  /** `action.payload ?? action.error.message ?? fallback`. */
  function RejectionError(payload: Option<string>, message: Option<string>, fallback: string): string {
    payload.Or(message.Or(fallback))
  }

  /** A `fetchMe` rejection whose payload says "unauthorized", in any case, ends the session. */
  predicate EndsSession(payload: Option<string>) {
    Truthy(payload) && ContainsIgnoreCase(payload.value, UnauthorizedWord)
  }

  /** The reducer: `reducers` and `extraReducers` on the slice's state. */
  function Reduce(s: AuthState, a: Action): (r: AuthState)
    ensures r.token != s.token ==>
              a.SetUser? || a.Logout? || a.LoadTokenFulfilled? || a.LoginFulfilled?
              || (a.FetchMeRejected? && EndsSession(a.payload) && r.token.None?)
    ensures r.user != s.user ==>
              a.SetUser? || a.Logout? || a.LoginFulfilled? || a.FetchMeFulfilled?
              || (a.FetchMeRejected? && EndsSession(a.payload) && r.user.None?)
    ensures IsPending(a) ==> r.status == Loading && r.error.None?
    ensures a.RegisterRejected? || a.LoginRejected? || a.FetchMeRejected? ==> r.status == Failed && r.error.Some?
    ensures r.error.Some? ==>
              a.RegisterRejected? || a.LoginRejected? || a.FetchMeRejected? || (a.LoadTokenFulfilled? && r.error == s.error)
  {
    match a
    case SetUser(token, user) => s.(token := token, user := user, error := None)
    case Logout => Initial
    case LoadTokenFulfilled(token) => s.(token := token)
    case RegisterPending => s.(status := Loading, error := None)
    case RegisterFulfilled(_) => s.(status := Succeeded, error := None)
    case RegisterRejected(p, m) => s.(status := Failed, error := Some(RejectionError(p, m, RegisterFallback)))
    case LoginPending => s.(status := Loading, error := None)
    case LoginFulfilled(token, user) => s.(status := Succeeded, token := Some(token), user := Some(user), error := None)
    case LoginRejected(p, m) => s.(status := Failed, error := Some(RejectionError(p, m, LoginFallback)))
    case FetchMePending => s.(status := Loading, error := None)
    case FetchMeFulfilled(user) => s.(status := Succeeded, user := Some(user), error := None)
    case FetchMeRejected(p, m) =>
      var t := s.(status := Failed, error := Some(RejectionError(p, m, FetchUserFallback)));
      if EndsSession(p) then t.(token := None, user := None) else t
  }

  /** The slot after the reducer's own `saveToken` calls: setUser saves its token, logout and an ending fetchMe rejection empty it. */
  function SlotAfter(slot: Option<string>, a: Action): (r: Option<string>)
    ensures r != slot ==> a.SetUser? || a.Logout? || (a.FetchMeRejected? && EndsSession(a.payload) && r.None?)
    ensures r != slot ==> r.None? || r.value != ""
    ensures a.Logout? ==> r.None?
  {
    match a
    case SetUser(token, _) => Stored(token)
    case Logout => None
    case FetchMeRejected(p, _) => if EndsSession(p) then None else slot
    case _ => slot
  }

  /** The store: the slice's fields, updated in place by `Dispatch`. */
  class AuthStore {
    var token: Option<string>
    var user: Option<UserInfo>
    var status: Status
    var error: Option<string>

    function State(): AuthState
      reads this
    {
      AuthState(token, user, status, error)
    }

    constructor ()
      ensures State() == Initial
    {
      token := None;
      user := None;
      status := Idle;
      error := None;
    }

    /** Runs the case reducer for `a`, including its writes to the slot. */
    method Dispatch(a: Action, slot: TokenSlot)
      modifies this, slot
      ensures State() == Reduce(old(State()), a)
      ensures slot.value == SlotAfter(old(slot.value), a)
    {
      match a
      case SetUser(t, u) =>
        token := t;
        user := u;
        error := None;
        slot.Save(t);
      case Logout =>
        token := None;
        user := None;
        status := Idle;
        error := None;
        slot.Save(None);
      case LoadTokenFulfilled(t) =>
        token := t;
      case RegisterPending =>
        status := Loading;
        error := None;
      case RegisterFulfilled(_) =>
        status := Succeeded;
        error := None;
      case RegisterRejected(p, m) =>
        status := Failed;
        error := Some(RejectionError(p, m, RegisterFallback));
      case LoginPending =>
        status := Loading;
        error := None;
      case LoginFulfilled(t, u) =>
        status := Succeeded;
        token := Some(t);
        user := Some(u);
        error := None;
      case LoginRejected(p, m) =>
        status := Failed;
        error := Some(RejectionError(p, m, LoginFallback));
      case FetchMePending =>
        status := Loading;
        error := None;
      case FetchMeFulfilled(u) =>
        status := Succeeded;
        user := Some(u);
        error := None;
      case FetchMeRejected(p, m) =>
        status := Failed;
        error := Some(RejectionError(p, m, FetchUserFallback));
        if EndsSession(p) {
          token := None;
          user := None;
          slot.Save(None);
        }
    }
  }

  /** `logout` resets the whole state and empties the slot; a second logout changes nothing. */
  lemma LogoutIdempotent(s: AuthState, slot: Option<string>)
    ensures Reduce(s, Logout) == Initial && SlotAfter(slot, Logout) == None
    ensures Reduce(Reduce(s, Logout), Logout) == Reduce(s, Logout)
    ensures SlotAfter(SlotAfter(slot, Logout), Logout) == SlotAfter(slot, Logout)
  {
  }

  /** Every pending case sets status "loading" and clears the error, and changes nothing else. */
  lemma PendingTouchesOnlyStatus(s: AuthState, a: Action, slot: Option<string>)
    requires IsPending(a)
    ensures Reduce(s, a) == s.(status := Loading, error := None)
    ensures SlotAfter(slot, a) == slot
  {
  }

  /** Every rejection sets status "failed" and some error message, and leaves the slot alone unless it ends the session. */
  lemma RejectionSetsError(s: AuthState, a: Action, slot: Option<string>)
    requires IsRejected(a)
    ensures Reduce(s, a).status == Failed && Reduce(s, a).error.Some?
    ensures a.payload.Some? ==> Reduce(s, a).error == a.payload
    ensures !(a.FetchMeRejected? && EndsSession(a.payload)) ==>
              Reduce(s, a).token == s.token && Reduce(s, a).user == s.user && SlotAfter(slot, a) == slot
  {
  }

  /** A successful login sets token and user; a successful registration leaves both untouched. */
  lemma FulfilledSessions(s: AuthState, token: string, u: UserInfo, v: UserInfo)
    ensures Reduce(s, LoginFulfilled(token, u)) == AuthState(Some(token), Some(u), Succeeded, None)
    ensures var t := Reduce(s, RegisterFulfilled(v));
            t.token == s.token && t.user == s.user && t.status == Succeeded && t.error == None
  {
  }

  /**
   * A message whose lower-cased text never has 'u' directly followed by 'n' does not
   * contain "unauthorized" in any letter case.
   */
  lemma LacksWord(m: string, lowered: string)
    requires Lower(m) == lowered
    requires forall i :: 0 <= i < |lowered| - 1 ==> !(lowered[i] == 'u' && lowered[i + 1] == 'n')
    ensures !ContainsIgnoreCase(m, UnauthorizedWord)
  {
    UnauthorizedLowered();
    NoPairNoMatch(lowered, Lower(UnauthorizedWord));
  }

  lemma NoHeaderLowered()
    ensures Lower("No Authorization header") == "no authorization header"
  {
  }

  lemma BadFormatLowered()
    ensures Lower("Invalid Authorization format") == "invalid authorization format"
  {
  }

  lemma BadTokenLowered()
    ensures Lower("Invalid token") == "invalid token"
  {
  }

  lemma UnauthorizedLowered()
    ensures Lower("unauthorized") == "unauthorized"
  {
  }

  /** None of the gate's three 401 messages says "unauthorized", in any case. */
  lemma GateMessagesLackWord(m: string)
    requires m == AuthMiddleware.NoHeaderMessage || m == AuthMiddleware.BadFormatMessage
             || m == AuthMiddleware.BadTokenMessage
    ensures !EndsSession(Some(m))
  {
    if m == AuthMiddleware.NoHeaderMessage {
      NoHeaderLowered();
      LacksWord(m, "no authorization header");
    } else if m == AuthMiddleware.BadFormatMessage {
      BadFormatLowered();
      LacksWord(m, "invalid authorization format");
    } else {
      BadTokenLowered();
      LacksWord(m, "invalid token");
    }
  }

  /** The profile handler's own 401 message, "Unauthorized", does end the session. */
  lemma HandlerMessageEndsSession()
    ensures EndsSession(Some("Unauthorized"))
  {
    assert Lower(UnauthorizedWord) == "unauthorized";
    assert Lower("Unauthorized") == "unauthorized";
    assert StartsWith(Lower("Unauthorized"), Lower(UnauthorizedWord));
  }

  /**
   * When `fetchMe` is refused by the gate, the thunk has emptied the slot (a 401) but the
   * rejection keeps the in-memory token and user.
   */
  lemma GateRejectionKeepsToken(s: AuthState, slot: Option<string>, header: Option<string>,
                                verify: string -> Option<AuthMiddleware.TokenPayload>, message: Option<string>)
    requires AuthMiddleware.Decide(header, verify).Reject?
    ensures var a := FetchMeRejected(Some(AuthMiddleware.Decide(header, verify).message), message);
            Reduce(s, a).token == s.token && Reduce(s, a).user == s.user && SlotAfter(slot, a) == slot
  {
    var m := AuthMiddleware.Decide(header, verify).message;
    GateMessagesLackWord(m);
    KeptUnlessEnding(s, slot, Some(m), message);
  }

  /** A rejection whose payload does not end the session keeps the token, the user and the slot. */
  lemma KeptUnlessEnding(s: AuthState, slot: Option<string>, p: Option<string>, message: Option<string>)
    requires !EndsSession(p)
    ensures Reduce(s, FetchMeRejected(p, message)).token == s.token
    ensures Reduce(s, FetchMeRejected(p, message)).user == s.user
    ensures SlotAfter(slot, FetchMeRejected(p, message)) == slot
  {
  }
}
