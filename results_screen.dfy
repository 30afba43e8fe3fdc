/**
 * The results screen (screens/ResultsScreen.tsx): the selection it starts from, when it
 * asks for a session, which of the session's lists it shows and what each row displays.
 */
module ResultsScreen {
  import opened Wrappers
  import opened Strings
  import opened ClientTypes

  const NoteText := "Select round and session to load results"
  const DefaultSession := "race"
  const NoTime := "-"

  /** `route.params`: each key may be absent. */
  datatype RouteParams = RouteParams(year: Option<string>, round: Option<string>, session: Option<string>)

  /** The year, round and session the screen's state starts with. */
  datatype Selection = Selection(year: string, round: Option<string>, session: string)

  /**
   * `route?.params ?? {}`, then `year ?? currentYear`, `round ?? null` and
   * `session ?? "race"`; the current year is a parameter.
   */
  function InitialSelection(params: Option<RouteParams>, currentYear: string): (s: Selection)
    ensures params.None? ==> s == Selection(currentYear, None, DefaultSession)
    ensures params.Some? ==> s.year == params.value.year.Or(currentYear)
                             && s.round == params.value.round
                             && s.session == params.value.session.Or(DefaultSession)
  {
    var p := params.Or(RouteParams(None, None, None));
    Selection(p.year.Or(currentYear), p.round, p.session.Or(DefaultSession))
  }

  /** The session effect dispatches only when year, round and session are all truthy. */
  predicate ShouldFetchSession(s: Selection) {
    s.year != "" && Truthy(s.round) && s.session != ""
  }

  /** Opened without a round, the screen requests the season's rounds but no session. */
  lemma NoRoundNoSessionFetch(params: Option<RouteParams>, currentYear: string)
    requires params.None? || params.value.round.None?
    ensures var s := InitialSelection(params, currentYear);
            !ShouldFetchSession(s) && s.round.None?
  {
  }

  /** With a year, a round and no session in the route, the race results are requested. */
  lemma RoundDefaultsToRace(year: string, round: string, currentYear: string)
    requires year != "" && round != ""
    ensures var s := InitialSelection(Some(RouteParams(Some(year), Some(round), None)), currentYear);
            ShouldFetchSession(s) && s.session == DefaultSession
  {
  }

  /** `racesYear?.races ?? []`: the round buttons. */
  function Rounds(racesYear: Option<RacesYear>): (r: seq<RaceRound>)
    ensures racesYear.Some? && racesYear.value.races.Some? ==> r == racesYear.value.races.value
    ensures racesYear.None? || racesYear.value.races.None? ==> r == []
  {
    if racesYear.None? then [] else racesYear.value.races.Or([])
  }

  /** The keys the screen reads, in the order its `??` chain tries them. */
  function Chain(races: SessionRaces): (c: seq<Option<seq<SessionResult>>>)
    ensures |c| == 7
  {
    [races.results, races.fp1Results, races.fp2Results, races.fp3Results,
     races.qualyResults, races.sprintRaceResults, races.sprintQualyResults]
  }

  /** The first present entry of a chain of `??`. */
  function FirstPresent<T>(chain: seq<Option<T>>): (r: Option<T>)
    ensures r.None? <==> forall i :: 0 <= i < |chain| ==> chain[i].None?
    ensures r.Some? ==> exists i :: 0 <= i < |chain| && chain[i] == r
                                    && forall j :: 0 <= j < i ==> chain[j].None?
    decreases |chain|
  {
    if chain == [] then None
    else if chain[0].Some? then chain[0]
    else
      var r := FirstPresent(chain[1..]);
      assert forall j :: 1 <= j < |chain| ==> chain[j] == chain[1..][j - 1];
      r
  }

  /** The list the screen shows: the first present of the seven keys, or null. */
  function SessionResults(data: Option<SessionData>): (r: Option<seq<SessionResult>>)
    ensures r.None? <==> data.None? || data.value.races.None?
                         || (var x := data.value.races.value;
                             x.results.None? && x.fp1Results.None? && x.fp2Results.None? && x.fp3Results.None?
                             && x.qualyResults.None? && x.sprintRaceResults.None? && x.sprintQualyResults.None?)
    ensures data.Some? && data.value.races.Some? && data.value.races.value.results.Some? ==>
              r == data.value.races.value.results
  {
    if data.None? || data.value.races.None? then None
    else
      var races := data.value.races.value;
      races.results.OrElse(races.fp1Results).OrElse(races.fp2Results).OrElse(races.fp3Results)
        .OrElse(races.qualyResults).OrElse(races.sprintRaceResults).OrElse(races.sprintQualyResults)
  }

  /** The nested `??` expression picks the first present key in the chain's order. */
  lemma SessionResultsFirstPresent(data: Option<SessionData>)
    ensures data.None? || data.value.races.None? ==> SessionResults(data).None?
    ensures data.Some? && data.value.races.Some? ==>
              SessionResults(data) == FirstPresent(Chain(data.value.races.value))
  {
    if data.Some? && data.value.races.Some? {
      var x := data.value.races.value;
      var c := Chain(x);
      assert c[1..] == [x.fp1Results, x.fp2Results, x.fp3Results, x.qualyResults, x.sprintRaceResults, x.sprintQualyResults];
      assert c[1..][1..] == [x.fp2Results, x.fp3Results, x.qualyResults, x.sprintRaceResults, x.sprintQualyResults];
      assert c[1..][1..][1..] == [x.fp3Results, x.qualyResults, x.sprintRaceResults, x.sprintQualyResults];
      assert c[1..][1..][1..][1..] == [x.qualyResults, x.sprintRaceResults, x.sprintQualyResults];
      assert c[1..][1..][1..][1..][1..] == [x.sprintRaceResults, x.sprintQualyResults];
      assert c[1..][1..][1..][1..][1..][1..] == [x.sprintQualyResults];
      assert FirstPresent([x.sprintQualyResults]) == x.sprintQualyResults;
    }
  }

  /** An empty list under an earlier key wins over rows under every later key. */
  lemma EarlierEmptyWins(races: SessionRaces, i: nat)
    requires i < 7 && Chain(races)[i] == Some([])
    requires forall j :: 0 <= j < i ==> Chain(races)[j].None?
    ensures SessionResults(Some(SessionData(Some(races)))) == Some([])
    ensures ShowsNote(Some(SessionData(Some(races))))
  {
    var c := Chain(races);
    SessionResultsFirstPresent(Some(SessionData(Some(races))));
    var r := FirstPresent(c);
    var k :| 0 <= k < |c| && c[k] == r && forall j :: 0 <= j < k ==> c[j].None?;
    assert k == i;
  }

  /** `!results || results.length === 0`: the note instead of rows. */
  predicate ShowsNote(data: Option<SessionData>) {
    var r := SessionResults(data);
    r.None? || r.value == []
  }

  /** What a result row displays. */
  datatype Row = Row(position: int, time: string, points: string)

  /** `res.position ?? res.gridPosition ?? idx + 1`. */
  function RowPosition(res: SessionResult, idx: nat): (p: int)
    ensures res.position.Some? ==> p == res.position.value
    ensures res.position.None? && res.gridPosition.Some? ==> p == res.gridPosition.value
    ensures res.position.None? && res.gridPosition.None? ==> p == idx + 1
  {
    res.position.Or(res.gridPosition.Or(idx + 1))
  }

  /** `res.time ?? res.retired ?? "-"`. */
  function RowTime(res: SessionResult): (t: string)
    ensures res.time.Some? ==> t == res.time.value
    ensures res.time.None? && res.retired.Some? ==> t == res.retired.value
    ensures res.time.None? && res.retired.None? ==> t == NoTime
  {
    res.time.Or(res.retired.Or(NoTime))
  }

  /** `res.points ?? ""` as rendered: the points' digits, or nothing. */
  function RowPoints(res: SessionResult): (t: string)
    ensures t == "" <==> res.points.None?
    ensures res.points.Some? ==> t == IntToString(res.points.value)
  {
    if res.points.Some? then IntToString(res.points.value) else ""
  }

  function RowOf(results: seq<SessionResult>, idx: nat): Row
    requires idx < |results|
  {
    Row(RowPosition(results[idx], idx), RowTime(results[idx]), RowPoints(results[idx]))
  }

  /** The rows shown: one per result, in order, or none when the note is shown. */
  function Rows(data: Option<SessionData>): (rows: seq<Row>)
    ensures ShowsNote(data) <==> rows == []
    ensures !ShowsNote(data) ==>
              var results := SessionResults(data).value;
              |rows| == |results| && forall i :: 0 <= i < |rows| ==> rows[i] == RowOf(results, i)
  {
    var r := SessionResults(data);
    if r.None? || r.value == [] then []
    else seq(|r.value|, i requires 0 <= i < |r.value| => RowOf(r.value, i))
  }

  /** Neither position nor grid position anywhere: the rows are numbered 1, 2, … in order. */
  lemma FallbackNumbering(data: Option<SessionData>)
    requires !ShowsNote(data)
    requires var results := SessionResults(data).value;
             forall i :: 0 <= i < |results| ==> results[i].position.None? && results[i].gridPosition.None?
    ensures forall i :: 0 <= i < |Rows(data)| ==> Rows(data)[i].position == i + 1
  {
  }

  /** `??` keeps a zero: a result worth 0 points still shows "0". */
  lemma ZeroPointsShown(res: SessionResult)
    requires res.points == Some(0)
    ensures RowPoints(res) == "0"
  {
    assert NatToString(0) == [DigitChar(0)];
  }
}
