/**
 * The bearer-token gate in front of the protected `/user` endpoints
 * (backend/src/middlewares/auth.middleware.ts). Token verification is a parameter.
 */
module AuthMiddleware {
  import opened Wrappers
  import opened Http
  import opened Strings

  /** The claims the gate reads from a verified token. */
  datatype TokenPayload = TokenPayload(userId: int, username: string)

  /** `req.user` as the gate sets it. */
  datatype RequestUser = RequestUser(id: int, username: string)

  const NoHeaderMessage := "No Authorization header"
  const BadFormatMessage := "Invalid Authorization format"
  const BadTokenMessage := "Invalid token"

  const BearerPrefix := "Bearer "

  /** Either the request goes on to the handler with `req.user` set, or a response is written. */
  datatype Decision = Pass(user: RequestUser) | Reject(status: int, message: string)

  /**
   * The token of a header of shape `Bearer <token>`, found by splitting on " ":
   * accepted exactly when the header is "Bearer ", case-sensitively, followed by
   * a token without spaces (the token may be empty).
   */
  function BearerToken(header: string): (r: Option<string>)
    ensures r.Some? <==> |header| >= |BearerPrefix| && header[..|BearerPrefix|] == BearerPrefix
                           && ' ' !in header[|BearerPrefix|..]
    ensures r.Some? ==> r.value == header[|BearerPrefix|..]
  {
    var parts := Split(header, ' ');
    BearerSplit(header);
    if |parts| == 2 && parts[0] == "Bearer" then Some(parts[1]) else None
  }

  lemma BearerSplit(header: string)
    ensures var parts := Split(header, ' ');
            (|parts| == 2 && parts[0] == "Bearer")
            <==> (|header| >= |BearerPrefix| && header[..|BearerPrefix|] == BearerPrefix
                  && ' ' !in header[|BearerPrefix|..])
    ensures var parts := Split(header, ' ');
            |parts| == 2 && parts[0] == "Bearer" ==> parts[1] == header[|BearerPrefix|..]
  {
    var parts := Split(header, ' ');
    SplitTwoIff(header, ' ', "Bearer", parts[|parts| - 1]);
    if |BearerPrefix| <= |header| {
      assert header == header[..|BearerPrefix|] + header[|BearerPrefix|..];
      SplitTwoIff(header, ' ', "Bearer", header[|BearerPrefix|..]);
    }
  }

  /** `authMiddleware`: the decision for one request, given the `Authorization` header. */
  function Decide(header: Option<string>, verify: string -> Option<TokenPayload>): (d: Decision)
    ensures d.Reject? ==> d.status == 401
    ensures d.Reject? ==> d.message == NoHeaderMessage || d.message == BadFormatMessage || d.message == BadTokenMessage
    ensures (header.None? || header.value == "") ==> d == Reject(401, NoHeaderMessage)
    ensures header.Some? && header.value != "" && BearerToken(header.value).None? ==>
              d == Reject(401, BadFormatMessage)
    ensures d.Pass? <==> header.Some? && BearerToken(header.value).Some?
                         && verify(BearerToken(header.value).value).Some?
    ensures d.Pass? ==> var p := verify(BearerToken(header.value).value).value;
                        d.user == RequestUser(p.userId, p.username)
  {
    if header.None? || header.value == "" then Reject(401, NoHeaderMessage)
    else
      match BearerToken(header.value)
      case None => Reject(401, BadFormatMessage)
      case Some(token) =>
        match verify(token)
        case None => Reject(401, BadTokenMessage)
        case Some(payload) => Pass(RequestUser(payload.userId, payload.username))
  }

  /** A well-formed header whose token fails verification is rejected with "Invalid token". */
  lemma FailedVerification(header: string, verify: string -> Option<TokenPayload>)
    requires header != "" && BearerToken(header).Some? && verify(BearerToken(header).value).None?
    ensures Decide(Some(header), verify) == Reject(401, BadTokenMessage)
  {
  }

  /** Lower-case scheme, no token, a token with a space, two spaces: all "Invalid Authorization format". */
  lemma MalformedHeaders(verify: string -> Option<TokenPayload>)
    ensures Decide(Some("bearer x"), verify) == Reject(401, BadFormatMessage)
    ensures Decide(Some("Bearer"), verify) == Reject(401, BadFormatMessage)
    ensures Decide(Some("Bearer a b"), verify) == Reject(401, BadFormatMessage)
    ensures Decide(Some("Bearer  x"), verify) == Reject(401, BadFormatMessage)
  {
    assert "bearer x"[..7] != BearerPrefix by { assert "bearer x"[0] == 'b'; }
    assert ' ' in "Bearer a b"[7..] by { assert "Bearer a b"[7..][1] == ' '; }
    assert ' ' in "Bearer  x"[7..] by { assert "Bearer  x"[7..][0] == ' '; }
  }

  /** "Bearer " followed by a space-free token hands exactly that token to verification; so does "Bearer ". */
  lemma TokenHandedToVerify(token: string)
    requires ' ' !in token
    ensures BearerToken(BearerPrefix + token) == Some(token)
    ensures BearerToken("Bearer ") == Some("")
  {
    assert (BearerPrefix + token)[..|BearerPrefix|] == BearerPrefix;
    assert (BearerPrefix + token)[|BearerPrefix|..] == token;
    assert "Bearer "[7..] == "";
  }

  /** The request and response objects the gate touches, and the `next` callback. */
  class Exchange {
    var user: Option<RequestUser>
    var response: Option<Reply<()>>
    var nextCalls: nat

    constructor ()
      ensures user == None && response == None && nextCalls == 0
    {
      user, response, nextCalls := None, None, 0;
    }

    /**
     * Runs the gate: on success sets `req.user` and calls `next` once, writing no
     * response; otherwise writes the 401 reply and leaves `req.user` and `next` alone.
     */
    method Authenticate(header: Option<string>, verify: string -> Option<TokenPayload>)
      modifies this
      ensures Decide(header, verify).Pass? ==>
                user == Some(Decide(header, verify).user) && response == old(response)
                && nextCalls == old(nextCalls) + 1
      ensures Decide(header, verify).Reject? ==>
                response == Some(Reply(401, Message(Decide(header, verify).message)))
                && user == old(user) && nextCalls == old(nextCalls)
    {
      if header.None? || header.value == "" {
        response := Some(Reply(401, Message(NoHeaderMessage)));
        return;
      }
      var parts := Split(header.value, ' ');
      if |parts| != 2 || parts[0] != "Bearer" {
        response := Some(Reply(401, Message(BadFormatMessage)));
        return;
      }
      var token := parts[1];
      var payload := verify(token);
      if payload.Some? {
        user := Some(RequestUser(payload.value.userId, payload.value.username));
        nextCalls := nextCalls + 1;
      } else {
        response := Some(Reply(401, Message(BadTokenMessage)));
      }
    }
  }
}
