/**
 * The shapes the mobile client works with (screens/types.ts, types/auth.types.ts) and
 * the parts of an axios error its error mappings look at.
 */
module ClientTypes {
  import opened Wrappers

  /** The request lifecycle every slice tracks. */
  datatype Status = Idle | Loading | Succeeded | Failed

  /** A driver row as the backend's /f1/drivers returns it (timestamps left out). */
  datatype Driver = Driver(
    id: int,
    driverId: string,
    imgUrl: string,
    teamId: string,
    nationality: string,
    nationalityImgUrl: string)

  /** A team row as the backend's /f1/teams returns it (timestamps left out). */
  datatype Team = Team(id: int, teamId: string, teamImgUrl: string, bolidImgUrl: string)

  /**
   * The signed-in user as the client holds it. The two plural lists are what the backend
   * returns; the `favoriteDriverIds` / `favoriteTeamIds` keys are older spellings the
   * settings screen still falls back to.
   */
  datatype UserInfo = UserInfo(
    id: int,
    email: string,
    username: string,
    favoriteDriversIds: Option<seq<string>>,
    favoriteTeamsIds: Option<seq<string>>,
    favoriteDriverIds: Option<seq<string>>,
    favoriteTeamIds: Option<seq<string>>)

  /** `error.response.data`: a string, or an object with optional `message` and `error` keys and its JSON text. */
  datatype ResponseData = Text(text: string) | Object(message: Option<string>, error: Option<string>, json: string)

  datatype HttpResponse = HttpResponse(status: int, statusText: string, data: Option<ResponseData>)

  /** An axios error: the response if one arrived, `error.message`, and `String(error)`. */
  datatype HttpError = HttpError(response: Option<HttpResponse>, message: Option<string>, text: string)

  /** `if (s)` for an optional string. */
  predicate Truthy(s: Option<string>) {
    s.Some? && s.value != ""
  }

  /** `a || b` for strings. */
  function OrIfFalsy(a: Option<string>, b: string): string {
    if Truthy(a) then a.value else b
  }

  /** The value a fetch thunk rejects with: a message and, for teams, the response status. */
  datatype RejectPayload = RejectPayload(message: Option<string>, status: Option<int>)

  /** The rejected case's error: `payload?.message ?? error.message ?? "Error"`. */
  function RejectionMessage(payload: Option<RejectPayload>, message: Option<string>): (m: string)
    ensures payload.Some? && payload.value.message.Some? ==> m == payload.value.message.value
    ensures (payload.None? || payload.value.message.None?) && message.Some? ==> m == message.value
    ensures (payload.None? || payload.value.message.None?) && message.None? ==> m == "Error"
  {
    if payload.Some? && payload.value.message.Some? then payload.value.message.value
    else message.Or("Error")
  }

  /** One row of a session's results, as the results screen reads it. */
  datatype SessionResult = SessionResult(
    position: Option<int>,
    gridPosition: Option<int>,
    time: Option<string>,
    retired: Option<string>,
    points: Option<int>)

  /** `sessionData.races`: each session kind keeps its rows under its own key. */
  datatype SessionRaces = SessionRaces(
    results: Option<seq<SessionResult>>,
    fp1Results: Option<seq<SessionResult>>,
    fp2Results: Option<seq<SessionResult>>,
    fp3Results: Option<seq<SessionResult>>,
    qualyResults: Option<seq<SessionResult>>,
    sprintRaceResults: Option<seq<SessionResult>>,
    sprintQualyResults: Option<seq<SessionResult>>)

  /** The body of a year/round/session request. */
  datatype SessionData = SessionData(races: Option<SessionRaces>)

  /** A round of a season: its number and its circuit's country. */
  datatype RaceRound = RaceRound(round: Option<int>, country: Option<string>)

  /** The body of a season request. */
  datatype RacesYear = RacesYear(races: Option<seq<RaceRound>>)

  /** `xs.find(p)`: the first element satisfying `p`, or `undefined`. */
  function Find<T>(xs: seq<T>, p: T -> bool): (r: Option<T>)
    ensures r.None? <==> forall i :: 0 <= i < |xs| ==> !p(xs[i])
    ensures r.Some? ==> exists i :: 0 <= i < |xs| && xs[i] == r.value && p(xs[i])
                                    && forall j :: 0 <= j < i ==> !p(xs[j])
    decreases |xs|
  {
    if xs == [] then None
    else if p(xs[0]) then Some(xs[0])
    else
      var r := Find(xs[1..], p);
      assert forall j :: 1 <= j < |xs| ==> xs[j] == xs[1..][j - 1];
      r
  }
}
