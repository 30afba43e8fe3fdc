/**
 * The proxy in front of the public F1 statistics API (backend/src/routes/f1api.routes.ts):
 * the router's route table with first-match dispatch, the upstream path each route builds,
 * the rewrite `fetchFromF1Api` applies to that path, and the translation of the upstream
 * outcome into a reply. The upstream call itself is a parameter.
 */
module F1Proxy {
  import opened Wrappers
  import opened Http
  import opened Strings

  const GatewayMessage := "Error fetching data from external F1 API"
  const MissingQueryMessage := "Missing search query (?q=...)"
  const CurrentPrefix := "current/"

  /** `path.replace(/^\/+/, "")`: every leading '/' removed and nothing else. */
  function StripLeadingSlashes(s: string): (r: string)
    ensures |r| <= |s| && r == s[|s| - |r|..]
    ensures r == "" || r[0] != '/'
    ensures forall i :: 0 <= i < |s| - |r| ==> s[i] == '/'
  {
    if |s| > 0 && s[0] == '/' then StripLeadingSlashes(s[1..]) else s
  }

  /**
   * The path `fetchFromF1Api` requests: leading slashes stripped (a missing path is ""),
   * then, when the path mentions "search" in any case, one leading "current/" in any case removed.
   */
  function CleanPath(path: Option<string>): (r: string)
    ensures var p := path.Or(""); |r| <= |p| && r == p[|p| - |r|..]
    ensures var c := StripLeadingSlashes(path.Or(""));
            r == c || (ContainsIgnoreCase(c, "search") && StartsWithIgnoreCase(c, CurrentPrefix)
                       && r == c[|CurrentPrefix|..])
    ensures var c := StripLeadingSlashes(path.Or(""));
            !ContainsIgnoreCase(c, "search") ==> r == c
  {
    var c := StripLeadingSlashes(path.Or(""));
    if ContainsIgnoreCase(c, "search") && StartsWithIgnoreCase(c, CurrentPrefix) then c[|CurrentPrefix|..] else c
  }

  /** A missing path is requested as the empty path. */
  lemma MissingPathIsEmpty()
    ensures CleanPath(None) == ""
  {
  }

  /**
   * A search path behind one "current/" prefix, spelt in any case, loses exactly that prefix.
   */
  lemma {:induction false} OneCurrentDropped(prefix: string, rest: string)
    requires |prefix| == |CurrentPrefix| && Lower(prefix) == Lower(CurrentPrefix)
    requires ContainsIgnoreCase(rest, "search")
    ensures CleanPath(Some(prefix + rest)) == rest
  {
    var p := prefix + rest;
    assert LowerChar(p[0]) == 'c';
    assert p[0] != '/';
    assert StripLeadingSlashes(p) == p;
    LowerConcat(prefix, rest);
    ContainsSuffix(Lower(prefix), Lower(rest), Lower("search"));
    assert p[..|CurrentPrefix|] == prefix;
    assert p[|CurrentPrefix|..] == rest;
  }

  /**
   * The rewrite is not idempotent: a search path with two "current/" prefixes loses one
   * per application.
   */
  lemma NotIdempotent(rest: string)
    requires ContainsIgnoreCase(rest, "search")
    ensures CleanPath(Some(CurrentPrefix + CurrentPrefix + rest)) == CurrentPrefix + rest
    ensures CleanPath(Some(CleanPath(Some(CurrentPrefix + CurrentPrefix + rest)))) == rest
    ensures CurrentPrefix + rest != rest
  {
    LowerConcat(CurrentPrefix, rest);
    ContainsSuffix(Lower(CurrentPrefix), Lower(rest), Lower("search"));
    assert ContainsIgnoreCase(CurrentPrefix + rest, "search");
    assert CurrentPrefix + CurrentPrefix + rest == CurrentPrefix + (CurrentPrefix + rest);
    OneCurrentDropped(CurrentPrefix, CurrentPrefix + rest);
    OneCurrentDropped(CurrentPrefix, rest);
  }

  /** One segment of an Express path pattern. */
  datatype Segment = Lit(text: string) | Param

  /** The handlers of the router, one per registered route. */
  datatype Route =
    | Drivers | DriverById | DriverSearch
    | Teams | TeamById | TeamDrivers | TeamSearch
    | LastFp1 | LastFp2 | LastFp3 | LastQualy | LastRace | LastSprintQualy | LastSprintRace
    | StandingsTeams | StandingsDrivers
    | Races | RacesLast | RacesNext

  /** The routes in the order they are registered, which is the order Express tries them. */
  const Table: seq<Route> := [
    Drivers, DriverById, DriverSearch,
    Teams, TeamById, TeamDrivers, TeamSearch,
    LastFp1, LastFp2, LastFp3, LastQualy, LastRace, LastSprintQualy, LastSprintRace,
    StandingsTeams, StandingsDrivers,
    Races, RacesLast, RacesNext]

  function PatternOf(r: Route): seq<Segment> {
    match r
    case Drivers => [Lit("drivers")]
    case DriverById => [Lit("drivers"), Param]
    case DriverSearch => [Lit("drivers"), Lit("search")]
    case Teams => [Lit("teams")]
    case TeamById => [Lit("teams"), Param]
    case TeamDrivers => [Lit("teams"), Param, Lit("drivers")]
    case TeamSearch => [Lit("teams"), Lit("search")]
    case LastFp1 => [Lit("last"), Lit("fp1")]
    case LastFp2 => [Lit("last"), Lit("fp2")]
    case LastFp3 => [Lit("last"), Lit("fp3")]
    case LastQualy => [Lit("last"), Lit("qualy")]
    case LastRace => [Lit("last"), Lit("race")]
    case LastSprintQualy => [Lit("last"), Lit("sprint"), Lit("qualy")]
    case LastSprintRace => [Lit("last"), Lit("sprint"), Lit("race")]
    case StandingsTeams => [Lit("standings"), Lit("teams")]
    case StandingsDrivers => [Lit("standings"), Lit("drivers")]
    case Races => [Lit("races")]
    case RacesLast => [Lit("races"), Lit("last")]
    case RacesNext => [Lit("races"), Lit("next")]
  }

  /** Express compares literal segments case-insensitively; a parameter takes any non-empty segment. */
  predicate SegmentMatches(pattern: Segment, segment: string) {
    match pattern
    case Lit(text) => Lower(segment) == text
    case Param => segment != ""
  }

  predicate Matches(pattern: seq<Segment>, segments: seq<string>) {
    |pattern| == |segments| && forall i :: 0 <= i < |segments| ==> SegmentMatches(pattern[i], segments[i])
  }

  /** The index of the first route in `routes` whose pattern matches the request path. */
  function FirstMatch(routes: seq<Route>, segments: seq<string>): (k: Option<nat>)
    ensures k.Some? ==> k.value < |routes| && Matches(PatternOf(routes[k.value]), segments)
    ensures k.Some? ==> forall j :: 0 <= j < k.value ==> !Matches(PatternOf(routes[j]), segments)
    ensures k.None? ==> forall j :: 0 <= j < |routes| ==> !Matches(PatternOf(routes[j]), segments)
  {
    if routes == [] then None
    else if Matches(PatternOf(routes[0]), segments) then Some(0)
    else match FirstMatch(routes[1..], segments)
      case None => None
      case Some(k) => Some(k + 1)
  }

  /** The handler that serves a request path, given as its '/'-separated segments. */
  function Dispatch(segments: seq<string>): (r: Option<Route>)
    ensures r.Some? ==> Matches(PatternOf(r.value), segments)
  {
    match FirstMatch(Table, segments)
    case None => None
    case Some(k) => Some(Table[k])
  }

  /**
   * Express's first-match rule: the route chosen is registered before every other route
   * matching the path, and no route is chosen only when none in the table matches.
   */
  lemma DispatchFirst(segments: seq<string>)
    ensures Dispatch(segments).None? <==> forall j :: 0 <= j < |Table| ==> !Matches(PatternOf(Table[j]), segments)
    ensures Dispatch(segments).Some? ==>
              exists k :: 0 <= k < |Table| && Table[k] == Dispatch(segments).value
                          && forall j :: 0 <= j < k ==> !Matches(PatternOf(Table[j]), segments)
  {
  }

  /** What a handler does: ask upstream for a path, or answer 400 itself. */
  datatype Plan = Fetch(path: string) | BadRequest(message: string)

  /** The search handlers: a missing or empty `q` is refused; otherwise `q` is put into the path as it is. */
  function SearchPlan(resource: string, q: Option<string>): (p: Plan)
    ensures q.None? || q.value == "" <==> p == BadRequest(MissingQueryMessage)
    ensures q.Some? && q.value != "" ==> p == Fetch(resource + "/search?q=" + q.value)
  {
    if q.None? || q.value == "" then BadRequest(MissingQueryMessage)
    else Fetch(resource + "/search?q=" + q.value)
  }

  /** The upstream path each handler builds from the route parameters. */
  function PlanFor(r: Route, segments: seq<string>, q: Option<string>): Plan
    requires Matches(PatternOf(r), segments)
  {
    match r
    case Drivers => Fetch("current/drivers")
    case DriverById => Fetch(CurrentPrefix + "drivers/" + segments[1])
    case DriverSearch => SearchPlan("drivers", q)
    case Teams => Fetch("current/teams")
    case TeamById => Fetch(CurrentPrefix + "teams/" + segments[1])
    case TeamDrivers => Fetch(CurrentPrefix + "teams/" + segments[1] + "/drivers")
    case TeamSearch => SearchPlan("teams", q)
    case LastFp1 => Fetch("current/last/fp1")
    case LastFp2 => Fetch("current/last/fp2")
    case LastFp3 => Fetch("current/last/fp3")
    case LastQualy => Fetch("current/last/qualy")
    case LastRace => Fetch("current/last/race")
    case LastSprintQualy => Fetch("current/last/sprint/qualy")
    case LastSprintRace => Fetch("current/last/sprint/race")
    case StandingsTeams => Fetch("current/constructors-championship")
    case StandingsDrivers => Fetch("current/drivers-championship")
    case Races => Fetch("current")
    case RacesLast => Fetch("current/last")
    case RacesNext => Fetch("current/next")
  }

  /** The plan for a request path, or None when no route of this router matches it. */
  function PlanOf(segments: seq<string>, q: Option<string>): Option<Plan> {
    match Dispatch(segments)
    case None => None
    case Some(r) => Some(PlanFor(r, segments, q))
  }

  /**
   * `fetchFromF1Api`: the upstream body is forwarded unchanged; any failure becomes a 502
   * with one fixed message that does not depend on the path.
   */
  function Forward<J>(path: string, upstream: string -> Option<J>): (reply: Reply<J>)
    ensures upstream(CleanPath(Some(path))).Some? ==>
              reply == Reply(200, Data(upstream(CleanPath(Some(path))).value))
    ensures upstream(CleanPath(Some(path))).None? ==> reply == Reply(502, Message(GatewayMessage))
  {
    match upstream(CleanPath(Some(path)))
    case Some(data) => Reply(200, Data(data))
    case None => Reply(502, Message(GatewayMessage))
  }

  /** The only 400 a handler answers itself is the missing search query. */
  lemma BadRequestIsMissingQuery(segments: seq<string>, q: Option<string>)
    ensures PlanOf(segments, q).Some? && PlanOf(segments, q).value.BadRequest? ==>
              PlanOf(segments, q).value.message == MissingQueryMessage
  {
    match Dispatch(segments)
    case None =>
    case Some(r) =>
      if r != DriverSearch && r != TeamSearch {
        assert PlanFor(r, segments, q).Fetch?;
      }
  }

  /** The reply of the router to a GET of `segments` with query parameter `q`. */
  function Serve<J>(segments: seq<string>, q: Option<string>, upstream: string -> Option<J>): (reply: Option<Reply<J>>)
    ensures PlanOf(segments, q).None? <==> reply.None?
    ensures PlanOf(segments, q).Some? && PlanOf(segments, q).value.BadRequest? ==>
              reply == Some(Reply(400, Message(MissingQueryMessage)))
    ensures PlanOf(segments, q).Some? && PlanOf(segments, q).value.Fetch? ==>
              reply == Some(Forward(PlanOf(segments, q).value.path, upstream))
  {
    BadRequestIsMissingQuery(segments, q);
    match PlanOf(segments, q)
    case None => None
    case Some(BadRequest(message)) => Some(Reply(400, Message(message)))
    case Some(Fetch(path)) => Some(Forward(path, upstream))
  }

  lemma LowerOfLowercase(s: string)
    requires forall i :: 0 <= i < |s| ==> !('A' <= s[i] <= 'Z')
    ensures Lower(s) == s
  {
  }

  /** A path the search route matches is also matched by the parameter route registered before it. */
  lemma SearchShadowed(segments: seq<string>)
    ensures Matches(PatternOf(DriverSearch), segments) ==> Matches(PatternOf(DriverById), segments)
    ensures Matches(PatternOf(TeamSearch), segments) ==> Matches(PatternOf(TeamById), segments)
  {
    if Matches(PatternOf(DriverSearch), segments) || Matches(PatternOf(TeamSearch), segments) {
      assert Lower(segments[1]) == "search";
      assert segments[1] != "";
    }
  }

  /**
   * The search handlers can never run: any path the search route matches is matched
   * first by the `:driverId` (or `:teamId`) route registered before it.
   */
  lemma SearchRoutesUnreachable(segments: seq<string>)
    ensures Dispatch(segments) != Some(DriverSearch)
    ensures Dispatch(segments) != Some(TeamSearch)
  {
    SearchShadowed(segments);
    assert Table[1] == DriverById && Table[4] == TeamById;
    assert forall j :: 0 <= j < |Table| && Table[j] == DriverSearch ==> j == 2;
    assert forall j :: 0 <= j < |Table| && Table[j] == TeamSearch ==> j == 6;
  }

  /** Where GET /drivers/search and GET /teams/search are dispatched. */
  lemma SearchPathsDispatch()
    ensures Dispatch(["drivers", "search"]) == Some(DriverById)
    ensures Dispatch(["teams", "search"]) == Some(TeamById)
  {
    DriverSearchDispatch();
    TeamSearchDispatch();
  }

  lemma DriverSearchDispatch()
    ensures Dispatch(["drivers", "search"]) == Some(DriverById)
  {
    LowerOfLowercase("drivers");
    LowerOfLowercase("search");
    var d := ["drivers", "search"];
    LengthDiffers(0, d);
    assert Matches(PatternOf(Table[1]), d);
    DispatchAt(1, d);
  }

  lemma TeamSearchDispatch()
    ensures Dispatch(["teams", "search"]) == Some(TeamById)
  {
    LowerOfLowercase("teams");
    LowerOfLowercase("search");
    var t := ["teams", "search"];
    FirstLiteralDiffers(0, t, "teams");
    FirstLiteralDiffers(1, t, "teams");
    FirstLiteralDiffers(2, t, "teams");
    LengthDiffers(3, t);
    assert Matches(PatternOf(Table[4]), t);
    DispatchAt(4, t);
  }

  lemma EndsWithSearch(resource: string)
    ensures ContainsIgnoreCase(resource + "search", "search")
  {
    LowerConcat(resource, "search");
    assert StartsWith(Lower("search"), Lower("search"));
    ContainsSuffix(Lower(resource), Lower("search"), Lower("search"));
  }

  /** A search path behind "current/" loses the prefix; one without it is kept. */
  lemma SearchPathRewritten(resource: string)
    requires |resource| > 0 && LowerChar(resource[0]) != 'c' && resource[0] != '/'
    ensures CleanPath(Some(CurrentPrefix + resource + "search")) == resource + "search"
    ensures CleanPath(Some(resource + "search")) == resource + "search"
  {
    EndsWithSearch(resource);
    assert CurrentPrefix + resource + "search" == CurrentPrefix + (resource + "search");
    OneCurrentDropped(CurrentPrefix, resource + "search");
    var p := resource + "search";
    assert p[0] == resource[0];
    assert StripLeadingSlashes(p) == p;
    if |CurrentPrefix| <= |p| {
      assert Lower(p[..|CurrentPrefix|])[0] != Lower(CurrentPrefix)[0];
    }
  }

  /** Two paths rewritten to the same upstream path get the same reply. */
  lemma ForwardSameUpstream<J>(p1: string, p2: string, upstream: string -> Option<J>)
    requires CleanPath(Some(p1)) == CleanPath(Some(p2))
    ensures Forward(p1, upstream) == Forward(p2, upstream)
  {
  }

  lemma SearchPathsPlanned(q: Option<string>)
    ensures PlanOf(["drivers", "search"], q) == Some(Fetch(CurrentPrefix + "drivers/" + "search"))
    ensures PlanOf(["teams", "search"], q) == Some(Fetch(CurrentPrefix + "teams/" + "search"))
  {
    SearchPathsDispatch();
    assert ["drivers", "search"][1] == "search";
    assert ["teams", "search"][1] == "search";
  }

  /**
   * GET /drivers/search reaches the `:driverId` handler with driverId "search" and requests
   * "drivers/search" upstream, without the query.
   */
  lemma DriverSearchCaptured<J>(q: Option<string>, upstream: string -> Option<J>)
    ensures Serve(["drivers", "search"], q, upstream) == Some(Forward(CurrentPrefix + "drivers/" + "search", upstream))
    ensures Forward(CurrentPrefix + "drivers/" + "search", upstream) == Forward("drivers/" + "search", upstream)
  {
    SearchPathsPlanned(q);
    SearchPathRewritten("drivers/");
    ForwardSameUpstream(CurrentPrefix + "drivers/" + "search", "drivers/" + "search", upstream);
  }

  /** GET /teams/search likewise reaches the `:teamId` handler and requests "teams/search". */
  lemma TeamSearchCaptured<J>(q: Option<string>, upstream: string -> Option<J>)
    ensures Serve(["teams", "search"], q, upstream) == Some(Forward(CurrentPrefix + "teams/" + "search", upstream))
    ensures Forward(CurrentPrefix + "teams/" + "search", upstream) == Forward("teams/" + "search", upstream)
  {
    SearchPathsPlanned(q);
    SearchPathRewritten("teams/");
    ForwardSameUpstream(CurrentPrefix + "teams/" + "search", "teams/" + "search", upstream);
  }

  /** The route at index `k` serves a path it matches when no earlier route matches it. */
  lemma DispatchAt(k: nat, segments: seq<string>)
    requires k < |Table| && Matches(PatternOf(Table[k]), segments)
    requires forall j :: 0 <= j < k ==> !Matches(PatternOf(Table[j]), segments)
    ensures Dispatch(segments) == Some(Table[k])
  {
  }

  /** GET /drivers/:driverId requests that driver of the current season. */
  lemma DriverRoute(id: string, q: Option<string>)
    requires id != ""
    ensures PlanOf(["drivers", id], q) == Some(Fetch(CurrentPrefix + "drivers/" + id))
  {
    LowerOfLowercase("drivers");
    var d := ["drivers", id];
    assert !Matches(PatternOf(Table[0]), d);
    DispatchAt(1, d);
  }

  /** A route whose first literal differs from the first segment does not match. */
  lemma FirstLiteralDiffers(k: nat, segments: seq<string>, word: string)
    requires k < |Table| && |segments| > 0 && Lower(segments[0]) == word
    requires PatternOf(Table[k])[0] != Lit(word)
    ensures !Matches(PatternOf(Table[k]), segments)
  {
    assert PatternOf(Table[k])[0].Lit?;
  }

  /** GET /teams/:teamId requests that team of the current season. */
  lemma TeamRoute(id: string, q: Option<string>)
    requires id != ""
    ensures PlanOf(["teams", id], q) == Some(Fetch(CurrentPrefix + "teams/" + id))
  {
    LowerOfLowercase("teams");
    var t := ["teams", id];
    FirstLiteralDiffers(0, t, "teams");
    FirstLiteralDiffers(1, t, "teams");
    FirstLiteralDiffers(2, t, "teams");
    assert !Matches(PatternOf(Table[3]), t);
    DispatchAt(4, t);
  }

  /** GET /teams/:teamId/drivers requests that team's drivers of the current season. */
  lemma TeamDriversRoute(id: string, q: Option<string>)
    requires id != ""
    ensures PlanOf(["teams", id, "drivers"], q) == Some(Fetch(CurrentPrefix + "teams/" + id + "/drivers"))
  {
    LowerOfLowercase("teams");
    LowerOfLowercase("drivers");
    var t := ["teams", id, "drivers"];
    FirstLiteralDiffers(0, t, "teams");
    FirstLiteralDiffers(1, t, "teams");
    FirstLiteralDiffers(2, t, "teams");
    assert !Matches(PatternOf(Table[3]), t);
    assert !Matches(PatternOf(Table[4]), t);
    DispatchAt(5, t);
  }

  /** No route registered before the standings routes matches a path starting with "standings". */
  lemma NothingBeforeStandings(segments: seq<string>)
    requires |segments| > 0 && Lower(segments[0]) == "standings"
    ensures forall j :: 0 <= j < 14 ==> !Matches(PatternOf(Table[j]), segments)
  {
    forall j | 0 <= j < 14
      ensures !Matches(PatternOf(Table[j]), segments)
    {
      if j == 0 { FirstLiteralDiffers(0, segments, "standings"); }
      else if j == 1 { FirstLiteralDiffers(1, segments, "standings"); }
      else if j == 2 { FirstLiteralDiffers(2, segments, "standings"); }
      else if j == 3 { FirstLiteralDiffers(3, segments, "standings"); }
      else if j == 4 { FirstLiteralDiffers(4, segments, "standings"); }
      else if j == 5 { FirstLiteralDiffers(5, segments, "standings"); }
      else if j == 6 { FirstLiteralDiffers(6, segments, "standings"); }
      else if j == 7 { FirstLiteralDiffers(7, segments, "standings"); }
      else if j == 8 { FirstLiteralDiffers(8, segments, "standings"); }
      else if j == 9 { FirstLiteralDiffers(9, segments, "standings"); }
      else if j == 10 { FirstLiteralDiffers(10, segments, "standings"); }
      else if j == 11 { FirstLiteralDiffers(11, segments, "standings"); }
      else if j == 12 { FirstLiteralDiffers(12, segments, "standings"); }
      else { FirstLiteralDiffers(13, segments, "standings"); }
    }
  }

  lemma StandingsTeamsDispatch()
    ensures Dispatch(["standings", "teams"]) == Some(StandingsTeams)
  {
    LowerOfLowercase("standings");
    LowerOfLowercase("teams");
    var t := ["standings", "teams"];
    NothingBeforeStandings(t);
    DispatchAt(14, t);
  }

  /** GET /standings/teams requests the constructors' championship of the current season. */
  lemma StandingsTeamsRoute(q: Option<string>)
    ensures PlanOf(["standings", "teams"], q) == Some(Fetch("current/constructors-championship"))
  {
    StandingsTeamsDispatch();
    StandingsTeamsPlan(["standings", "teams"], q);
  }

  lemma StandingsTeamsPlan(p: seq<string>, q: Option<string>)
    requires Matches(PatternOf(StandingsTeams), p)
    ensures PlanFor(StandingsTeams, p, q) == Fetch("current/constructors-championship")
  {
  }

  lemma StandingsDriversDispatch()
    ensures Dispatch(["standings", "drivers"]) == Some(StandingsDrivers)
  {
    LowerOfLowercase("standings");
    LowerOfLowercase("drivers");
    var d := ["standings", "drivers"];
    NothingBeforeStandings(d);
    assert Table[14] == StandingsTeams;
    assert !SegmentMatches(Lit("teams"), d[1]);
    assert !Matches(PatternOf(Table[14]), d);
    forall j | 0 <= j < 15
      ensures !Matches(PatternOf(Table[j]), d)
    {
    }
    DispatchAt(15, d);
  }

  /** GET /standings/drivers requests the drivers' championship of the current season. */
  lemma StandingsDriversRoute(q: Option<string>)
    ensures PlanOf(["standings", "drivers"], q) == Some(Fetch("current/drivers-championship"))
  {
    StandingsDriversDispatch();
    StandingsDriversPlan(["standings", "drivers"], q);
  }

  lemma StandingsDriversPlan(p: seq<string>, q: Option<string>)
    requires Matches(PatternOf(StandingsDrivers), p)
    ensures PlanFor(StandingsDrivers, p, q) == Fetch("current/drivers-championship")
  {
  }

  /** GET /drivers requests the current season's drivers. */
  lemma DriversRoute(q: Option<string>)
    ensures PlanOf(["drivers"], q) == Some(Fetch("current/drivers"))
  {
    LowerOfLowercase("drivers");
    DispatchAt(0, ["drivers"]);
  }

  /** GET /teams requests the current season's teams. */
  lemma TeamsRoute(q: Option<string>)
    ensures PlanOf(["teams"], q) == Some(Fetch("current/teams"))
  {
    LowerOfLowercase("teams");
    var t := ["teams"];
    FirstLiteralDiffers(0, t, "teams");
    FirstLiteralDiffers(1, t, "teams");
    FirstLiteralDiffers(2, t, "teams");
    DispatchAt(3, t);
  }

  /** No route registered before the results routes matches a path starting with "last". */
  lemma NothingBeforeLast(segments: seq<string>)
    requires |segments| > 0 && Lower(segments[0]) == "last"
    ensures forall j :: 0 <= j < 7 ==> !Matches(PatternOf(Table[j]), segments)
  {
    forall j | 0 <= j < 7
      ensures !Matches(PatternOf(Table[j]), segments)
    {
      if j == 0 { FirstLiteralDiffers(0, segments, "last"); }
      else if j == 1 { FirstLiteralDiffers(1, segments, "last"); }
      else if j == 2 { FirstLiteralDiffers(2, segments, "last"); }
      else if j == 3 { FirstLiteralDiffers(3, segments, "last"); }
      else if j == 4 { FirstLiteralDiffers(4, segments, "last"); }
      else if j == 5 { FirstLiteralDiffers(5, segments, "last"); }
      else { FirstLiteralDiffers(6, segments, "last"); }
    }
  }

  /** A route whose second literal differs from the second segment does not match. */
  lemma SecondLiteralDiffers(k: nat, segments: seq<string>, word: string)
    requires k < |Table| && |segments| > 1 && Lower(segments[1]) == word
    requires |PatternOf(Table[k])| > 1 && PatternOf(Table[k])[1].Lit? && PatternOf(Table[k])[1] != Lit(word)
    ensures !Matches(PatternOf(Table[k]), segments)
  {
  }

  /** A route with a different number of segments does not match. */
  lemma LengthDiffers(k: nat, segments: seq<string>)
    requires k < |Table| && |PatternOf(Table[k])| != |segments|
    ensures !Matches(PatternOf(Table[k]), segments)
  {
  }

  lemma LastFp1Dispatch()
    ensures Dispatch(["last", "fp1"]) == Some(LastFp1)
  {
    LowerOfLowercase("fp1");
    LowerOfLowercase("last");
    var p := ["last", "fp1"];
    NothingBeforeLast(p);
    DispatchAt(7, p);
  }

  lemma LastFp1Route(q: Option<string>)
    ensures PlanOf(["last", "fp1"], q) == Some(Fetch("current/last/fp1"))
  {
    LastFp1Dispatch();
    LastFp1Plan(["last", "fp1"], q);
  }

  lemma LastFp1Plan(p: seq<string>, q: Option<string>)
    requires Matches(PatternOf(LastFp1), p)
    ensures PlanFor(LastFp1, p, q) == Fetch("current/last/fp1")
  {
  }

  lemma LastFp2Dispatch()
    ensures Dispatch(["last", "fp2"]) == Some(LastFp2)
  {
    LowerOfLowercase("fp2");
    LowerOfLowercase("last");
    var p := ["last", "fp2"];
    NothingBeforeLast(p);
    forall j | 0 <= j < 8
      ensures !Matches(PatternOf(Table[j]), p)
    {
      if j == 7 { SecondLiteralDiffers(7, p, "fp2"); }
    }
    DispatchAt(8, p);
  }

  lemma LastFp2Route(q: Option<string>)
    ensures PlanOf(["last", "fp2"], q) == Some(Fetch("current/last/fp2"))
  {
    LastFp2Dispatch();
    LastFp2Plan(["last", "fp2"], q);
  }

  lemma LastFp2Plan(p: seq<string>, q: Option<string>)
    requires Matches(PatternOf(LastFp2), p)
    ensures PlanFor(LastFp2, p, q) == Fetch("current/last/fp2")
  {
  }

  lemma LastFp3Dispatch()
    ensures Dispatch(["last", "fp3"]) == Some(LastFp3)
  {
    LowerOfLowercase("fp3");
    LowerOfLowercase("last");
    var p := ["last", "fp3"];
    NothingBeforeLast(p);
    forall j | 0 <= j < 9
      ensures !Matches(PatternOf(Table[j]), p)
    {
      if j == 7 { SecondLiteralDiffers(7, p, "fp3"); }
      else if j == 8 { SecondLiteralDiffers(8, p, "fp3"); }
    }
    DispatchAt(9, p);
  }

  lemma LastFp3Route(q: Option<string>)
    ensures PlanOf(["last", "fp3"], q) == Some(Fetch("current/last/fp3"))
  {
    LastFp3Dispatch();
    LastFp3Plan(["last", "fp3"], q);
  }

  lemma LastFp3Plan(p: seq<string>, q: Option<string>)
    requires Matches(PatternOf(LastFp3), p)
    ensures PlanFor(LastFp3, p, q) == Fetch("current/last/fp3")
  {
  }

  lemma LastQualyDispatch()
    ensures Dispatch(["last", "qualy"]) == Some(LastQualy)
  {
    LowerOfLowercase("last");
    LowerOfLowercase("qualy");
    var p := ["last", "qualy"];
    NothingBeforeLast(p);
    forall j | 0 <= j < 10
      ensures !Matches(PatternOf(Table[j]), p)
    {
      if j == 7 { SecondLiteralDiffers(7, p, "qualy"); }
      else if j == 8 { SecondLiteralDiffers(8, p, "qualy"); }
      else if j == 9 { SecondLiteralDiffers(9, p, "qualy"); }
    }
    DispatchAt(10, p);
  }

  lemma LastQualyRoute(q: Option<string>)
    ensures PlanOf(["last", "qualy"], q) == Some(Fetch("current/last/qualy"))
  {
    LastQualyDispatch();
    LastQualyPlan(["last", "qualy"], q);
  }

  lemma LastQualyPlan(p: seq<string>, q: Option<string>)
    requires Matches(PatternOf(LastQualy), p)
    ensures PlanFor(LastQualy, p, q) == Fetch("current/last/qualy")
  {
  }

  lemma LastRaceDispatch()
    ensures Dispatch(["last", "race"]) == Some(LastRace)
  {
    LowerOfLowercase("last");
    LowerOfLowercase("race");
    var p := ["last", "race"];
    NothingBeforeLast(p);
    forall j | 0 <= j < 11
      ensures !Matches(PatternOf(Table[j]), p)
    {
      if j == 7 { SecondLiteralDiffers(7, p, "race"); }
      else if j == 8 { SecondLiteralDiffers(8, p, "race"); }
      else if j == 9 { SecondLiteralDiffers(9, p, "race"); }
      else if j == 10 { SecondLiteralDiffers(10, p, "race"); }
    }
    DispatchAt(11, p);
  }

  lemma LastRaceRoute(q: Option<string>)
    ensures PlanOf(["last", "race"], q) == Some(Fetch("current/last/race"))
  {
    LastRaceDispatch();
    LastRacePlan(["last", "race"], q);
  }

  lemma LastRacePlan(p: seq<string>, q: Option<string>)
    requires Matches(PatternOf(LastRace), p)
    ensures PlanFor(LastRace, p, q) == Fetch("current/last/race")
  {
  }

  lemma LastSprintQualyDispatch()
    ensures Dispatch(["last", "sprint", "qualy"]) == Some(LastSprintQualy)
  {
    LowerOfLowercase("last");
    LowerOfLowercase("qualy");
    LowerOfLowercase("sprint");
    var p := ["last", "sprint", "qualy"];
    NothingBeforeLast(p);
    forall j | 0 <= j < 12
      ensures !Matches(PatternOf(Table[j]), p)
    {
      if j == 7 { LengthDiffers(7, p); }
      else if j == 8 { LengthDiffers(8, p); }
      else if j == 9 { LengthDiffers(9, p); }
      else if j == 10 { LengthDiffers(10, p); }
      else if j == 11 { LengthDiffers(11, p); }
    }
    assert PatternOf(Table[12]) == [Lit("last"), Lit("sprint"), Lit("qualy")];
    assert SegmentMatches(Lit("last"), p[0]) && SegmentMatches(Lit("sprint"), p[1]) && SegmentMatches(Lit("qualy"), p[2]);
    DispatchAt(12, p);
  }

  lemma LastSprintQualyRoute(q: Option<string>)
    ensures PlanOf(["last", "sprint", "qualy"], q) == Some(Fetch("current/last/sprint/qualy"))
  {
    LastSprintQualyDispatch();
    LastSprintQualyPlan(["last", "sprint", "qualy"], q);
  }

  lemma LastSprintQualyPlan(p: seq<string>, q: Option<string>)
    requires Matches(PatternOf(LastSprintQualy), p)
    ensures PlanFor(LastSprintQualy, p, q) == Fetch("current/last/sprint/qualy")
  {
  }

  lemma LastSprintRaceDispatch()
    ensures Dispatch(["last", "sprint", "race"]) == Some(LastSprintRace)
  {
    LowerOfLowercase("last");
    LowerOfLowercase("race");
    LowerOfLowercase("sprint");
    var p := ["last", "sprint", "race"];
    NothingBeforeLast(p);
    forall j | 0 <= j < 13
      ensures !Matches(PatternOf(Table[j]), p)
    {
      if j == 7 { LengthDiffers(7, p); }
      else if j == 8 { LengthDiffers(8, p); }
      else if j == 9 { LengthDiffers(9, p); }
      else if j == 10 { LengthDiffers(10, p); }
      else if j == 11 { LengthDiffers(11, p); }
      else if j == 12 { assert !SegmentMatches(Lit("qualy"), p[2]); }
    }
    assert PatternOf(Table[13]) == [Lit("last"), Lit("sprint"), Lit("race")];
    assert SegmentMatches(Lit("last"), p[0]) && SegmentMatches(Lit("sprint"), p[1]) && SegmentMatches(Lit("race"), p[2]);
    DispatchAt(13, p);
  }

  lemma LastSprintRaceRoute(q: Option<string>)
    ensures PlanOf(["last", "sprint", "race"], q) == Some(Fetch("current/last/sprint/race"))
  {
    LastSprintRaceDispatch();
    LastSprintRacePlan(["last", "sprint", "race"], q);
  }

  lemma LastSprintRacePlan(p: seq<string>, q: Option<string>)
    requires Matches(PatternOf(LastSprintRace), p)
    ensures PlanFor(LastSprintRace, p, q) == Fetch("current/last/sprint/race")
  {
  }

  /** GET /last/<session> requests that session of the current season's last weekend; the sprint sessions sit under "sprint". */
  lemma LastRoutes(q: Option<string>)
    ensures PlanOf(["last", "fp1"], q) == Some(Fetch("current/last/fp1"))
    ensures PlanOf(["last", "fp2"], q) == Some(Fetch("current/last/fp2"))
    ensures PlanOf(["last", "fp3"], q) == Some(Fetch("current/last/fp3"))
    ensures PlanOf(["last", "qualy"], q) == Some(Fetch("current/last/qualy"))
    ensures PlanOf(["last", "race"], q) == Some(Fetch("current/last/race"))
    ensures PlanOf(["last", "sprint", "qualy"], q) == Some(Fetch("current/last/sprint/qualy"))
    ensures PlanOf(["last", "sprint", "race"], q) == Some(Fetch("current/last/sprint/race"))
  {
    LastFp1Route(q);
    LastFp2Route(q);
    LastFp3Route(q);
    LastQualyRoute(q);
    LastRaceRoute(q);
    LastSprintQualyRoute(q);
    LastSprintRaceRoute(q);
  }

  /** No route registered before the races routes matches a path starting with "races". */
  lemma NothingBeforeRaces(segments: seq<string>)
    requires |segments| > 0 && Lower(segments[0]) == "races"
    ensures forall j :: 0 <= j < 16 ==> !Matches(PatternOf(Table[j]), segments)
  {
    forall j | 0 <= j < 16
      ensures !Matches(PatternOf(Table[j]), segments)
    {
      if j == 0 { FirstLiteralDiffers(0, segments, "races"); }
      else if j == 1 { FirstLiteralDiffers(1, segments, "races"); }
      else if j == 2 { FirstLiteralDiffers(2, segments, "races"); }
      else if j == 3 { FirstLiteralDiffers(3, segments, "races"); }
      else if j == 4 { FirstLiteralDiffers(4, segments, "races"); }
      else if j == 5 { FirstLiteralDiffers(5, segments, "races"); }
      else if j == 6 { FirstLiteralDiffers(6, segments, "races"); }
      else if j == 7 { FirstLiteralDiffers(7, segments, "races"); }
      else if j == 8 { FirstLiteralDiffers(8, segments, "races"); }
      else if j == 9 { FirstLiteralDiffers(9, segments, "races"); }
      else if j == 10 { FirstLiteralDiffers(10, segments, "races"); }
      else if j == 11 { FirstLiteralDiffers(11, segments, "races"); }
      else if j == 12 { FirstLiteralDiffers(12, segments, "races"); }
      else if j == 13 { FirstLiteralDiffers(13, segments, "races"); }
      else if j == 14 { FirstLiteralDiffers(14, segments, "races"); }
      else { FirstLiteralDiffers(15, segments, "races"); }
    }
  }

  lemma RacesDispatch()
    ensures Dispatch(["races"]) == Some(Races)
  {
    LowerOfLowercase("races");
    var p := ["races"];
    NothingBeforeRaces(p);
    DispatchAt(16, p);
  }

  lemma RacesSeasonRoute(q: Option<string>)
    ensures PlanOf(["races"], q) == Some(Fetch("current"))
  {
    RacesDispatch();
    RacesPlan(["races"], q);
  }

  lemma RacesPlan(p: seq<string>, q: Option<string>)
    requires Matches(PatternOf(Races), p)
    ensures PlanFor(Races, p, q) == Fetch("current")
  {
  }

  lemma RacesLastDispatch()
    ensures Dispatch(["races", "last"]) == Some(RacesLast)
  {
    LowerOfLowercase("last");
    LowerOfLowercase("races");
    var p := ["races", "last"];
    NothingBeforeRaces(p);
    forall j | 0 <= j < 17
      ensures !Matches(PatternOf(Table[j]), p)
    {
      if j == 16 { LengthDiffers(16, p); }
    }
    DispatchAt(17, p);
  }

  lemma RacesLastRoute(q: Option<string>)
    ensures PlanOf(["races", "last"], q) == Some(Fetch("current/last"))
  {
    RacesLastDispatch();
    RacesLastPlan(["races", "last"], q);
  }

  lemma RacesLastPlan(p: seq<string>, q: Option<string>)
    requires Matches(PatternOf(RacesLast), p)
    ensures PlanFor(RacesLast, p, q) == Fetch("current/last")
  {
  }

  lemma RacesNextDispatch()
    ensures Dispatch(["races", "next"]) == Some(RacesNext)
  {
    LowerOfLowercase("next");
    LowerOfLowercase("races");
    var p := ["races", "next"];
    NothingBeforeRaces(p);
    forall j | 0 <= j < 18
      ensures !Matches(PatternOf(Table[j]), p)
    {
      if j == 16 { LengthDiffers(16, p); }
      else if j == 17 { SecondLiteralDiffers(17, p, "next"); }
    }
    DispatchAt(18, p);
  }

  lemma RacesNextRoute(q: Option<string>)
    ensures PlanOf(["races", "next"], q) == Some(Fetch("current/next"))
  {
    RacesNextDispatch();
    RacesNextPlan(["races", "next"], q);
  }

  lemma RacesNextPlan(p: seq<string>, q: Option<string>)
    requires Matches(PatternOf(RacesNext), p)
    ensures PlanFor(RacesNext, p, q) == Fetch("current/next")
  {
  }

  /** GET /races, /races/last and /races/next request the season, its last and its next race. */
  lemma RacesRoutes(q: Option<string>)
    ensures PlanOf(["races"], q) == Some(Fetch("current"))
    ensures PlanOf(["races", "last"], q) == Some(Fetch("current/last"))
    ensures PlanOf(["races", "next"], q) == Some(Fetch("current/next"))
  {
    RacesSeasonRoute(q);
    RacesLastRoute(q);
    RacesNextRoute(q);
  }
}
