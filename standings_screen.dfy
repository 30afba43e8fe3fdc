/**
 * The standings screen's tables (screens/StandingsScreen.tsx): each driver, and each team,
 * joined with its championship entry by id, then sorted by position.
 */
module StandingsScreen {
  import opened Wrappers
  import opened ClientTypes
  import opened StableSort

  /** An entry of `drivers_championship`; `position` may be missing. */
  datatype DriverStat = DriverStat(driverId: string, position: Option<int>, points: int, teamId: string)

  /** An entry of `constructors_championship`. */
  datatype TeamStat = TeamStat(teamId: string, position: Option<int>, points: int)

  /** `matchedTeam`: the team with the stat's `teamId`, or the placeholder `{ teamImgUrl: "", teamId }`. */
  datatype TeamBadge = Matched(team: Team) | NoTeam(teamId: string)

  /** A row; `stat` None stands for the placeholder stat (position `Infinity`, 0 points, team "unknown"). */
  datatype DriverRow = DriverRow(driver: Driver, stat: Option<DriverStat>, team: TeamBadge, position: Rank)

  datatype TeamRow = TeamRow(team: Team, stat: Option<TeamStat>, position: Rank)

  const UnknownTeam := "unknown"

  /** `stat.position !== undefined ? stat.position : Infinity`. */
  function RankOf(position: Option<int>): Rank {
    if position.Some? then Finite(position.value) else Infinite
  }

  function RowRank(row: DriverRow): Rank {
    row.position
  }

  function TeamRowRank(row: TeamRow): Rank {
    row.position
  }

  /** The points a row shows: the stat's, or the placeholder's 0. */
  function RowPoints(row: DriverRow): int {
    if row.stat.Some? then row.stat.value.points else 0
  }

  /** The map callback for one driver. */
  function DriverRowOf(d: Driver, stats: seq<DriverStat>, teams: seq<Team>): (row: DriverRow)
    ensures row.driver == d
    ensures row.stat.None? <==> forall i :: 0 <= i < |stats| ==> stats[i].driverId != d.driverId
    ensures row.stat.Some? ==>
              exists i :: 0 <= i < |stats| && stats[i] == row.stat.value && stats[i].driverId == d.driverId
                          && forall j :: 0 <= j < i ==> stats[j].driverId != d.driverId
    ensures row.stat.None? ==> row.position == Infinite && RowPoints(row) == 0 && row.team == NoTeam(UnknownTeam)
    ensures row.stat.Some? ==> row.position == RankOf(row.stat.value.position)
    ensures row.stat.Some? && row.team.Matched? ==>
              exists i :: 0 <= i < |teams| && teams[i] == row.team.team && teams[i].teamId == row.stat.value.teamId
                          && forall j :: 0 <= j < i ==> teams[j].teamId != row.stat.value.teamId
    ensures row.stat.Some? && row.team.NoTeam? ==>
              row.team.teamId == row.stat.value.teamId
              && forall i :: 0 <= i < |teams| ==> teams[i].teamId != row.stat.value.teamId
  {
    match Find(stats, (s: DriverStat) => s.driverId == d.driverId)
    case None => DriverRow(d, None, NoTeam(UnknownTeam), Infinite)
    case Some(stat) =>
      var badge := match Find(teams, (t: Team) => t.teamId == stat.teamId)
                   case Some(t) => Matched(t)
                   case None => NoTeam(stat.teamId);
      DriverRow(d, Some(stat), badge, RankOf(stat.position))
  }

  function TeamRowOf(t: Team, stats: seq<TeamStat>): (row: TeamRow)
    ensures row.team == t
    ensures row.stat.None? <==> forall i :: 0 <= i < |stats| ==> stats[i].teamId != t.teamId
    ensures row.stat.Some? ==>
              exists i :: 0 <= i < |stats| && stats[i] == row.stat.value && stats[i].teamId == t.teamId
                          && forall j :: 0 <= j < i ==> stats[j].teamId != t.teamId
    ensures row.position == if row.stat.None? then Infinite else RankOf(row.stat.value.position)
  {
    match Find(stats, (s: TeamStat) => s.teamId == t.teamId)
    case None => TeamRow(t, None, Infinite)
    case Some(stat) => TeamRow(t, Some(stat), RankOf(stat.position))
  }

  /** The rows before sorting, one per driver in the drivers' order. */
  function DriverRows(drivers: seq<Driver>, stats: seq<DriverStat>, teams: seq<Team>): seq<DriverRow> {
    Project(drivers, (d: Driver) => DriverRowOf(d, stats, teams))
  }

  function TeamRows(teams: seq<Team>, stats: seq<TeamStat>): seq<TeamRow> {
    Project(teams, (t: Team) => TeamRowOf(t, stats))
  }

  /** `sortedDrivers`. */
  function SortedDrivers(drivers: seq<Driver>, stats: seq<DriverStat>, teams: seq<Team>): (rows: seq<DriverRow>)
    ensures multiset(rows) == multiset(DriverRows(drivers, stats, teams))
    ensures Sorted(rows, RowRank)
  {
    SortPermutes(DriverRows(drivers, stats, teams), RowRank);
    SortSorted(DriverRows(drivers, stats, teams), RowRank);
    Sort(DriverRows(drivers, stats, teams), RowRank)
  }

  /** `sortedTeams`. */
  function SortedTeams(teams: seq<Team>, stats: seq<TeamStat>): (rows: seq<TeamRow>)
    ensures multiset(rows) == multiset(TeamRows(teams, stats))
    ensures Sorted(rows, TeamRowRank)
  {
    SortPermutes(TeamRows(teams, stats), TeamRowRank);
    SortSorted(TeamRows(teams, stats), TeamRowRank);
    Sort(TeamRows(teams, stats), TeamRowRank)
  }

  function DriverOfRow(row: DriverRow): Driver {
    row.driver
  }

  function TeamOfRow(row: TeamRow): Team {
    row.team
  }

  lemma ProjectDrivers(xs: seq<Driver>, f: Driver -> DriverRow)
    requires forall x :: f(x).driver == x
    ensures Project(Project(xs, f), DriverOfRow) == xs
  {
  }

  /**
   * Exactly one row per driver: the rows' drivers are a permutation of the driver list;
   * the rows are in ascending position order, and rows of equal position keep the drivers' order.
   */
  lemma DriverStandings(drivers: seq<Driver>, stats: seq<DriverStat>, teams: seq<Team>, k: Rank)
    ensures var rows := SortedDrivers(drivers, stats, teams);
            multiset(Project(rows, DriverOfRow)) == multiset(drivers)
            && Sorted(rows, RowRank)
            && OfRank(rows, RowRank, k) == OfRank(DriverRows(drivers, stats, teams), RowRank, k)
  {
    var f := (d: Driver) => DriverRowOf(d, stats, teams);
    var built := DriverRows(drivers, stats, teams);
    SortProject(built, RowRank, DriverOfRow);
    ProjectDrivers(drivers, f);
    SortSorted(built, RowRank);
    SortStable(built, RowRank, k);
  }

  lemma ProjectTeams(xs: seq<Team>, f: Team -> TeamRow)
    requires forall x :: f(x).team == x
    ensures Project(Project(xs, f), TeamOfRow) == xs
  {
  }

  /** The same for teams: one row per team, ascending, ties in the teams' order. */
  lemma TeamStandings(teams: seq<Team>, stats: seq<TeamStat>, k: Rank)
    ensures var rows := SortedTeams(teams, stats);
            multiset(Project(rows, TeamOfRow)) == multiset(teams)
            && Sorted(rows, TeamRowRank)
            && OfRank(rows, TeamRowRank, k) == OfRank(TeamRows(teams, stats), TeamRowRank, k)
  {
    var built := TeamRows(teams, stats);
    SortProject(built, TeamRowRank, TeamOfRow);
    ProjectTeams(teams, (t: Team) => TeamRowOf(t, stats));
    SortSorted(built, TeamRowRank);
    SortStable(built, TeamRowRank, k);
  }

  /** A driver without a stat, and a driver whose stat has no position, both go below every ranked driver. */
  lemma UnrankedLast(drivers: seq<Driver>, stats: seq<DriverStat>, teams: seq<Team>, i: nat, j: nat)
    requires var rows := SortedDrivers(drivers, stats, teams);
             i < |rows| && j < |rows| && rows[i].position.Finite?
             && (rows[j].stat.None? || rows[j].stat.value.position.None?)
    ensures i < j
  {
    var rows := SortedDrivers(drivers, stats, teams);
    SortSorted(DriverRows(drivers, stats, teams), RowRank);
    SortPermutes(DriverRows(drivers, stats, teams), RowRank);
    assert rows[j] in multiset(DriverRows(drivers, stats, teams));
    var m :| 0 <= m < |drivers| && DriverRows(drivers, stats, teams)[m] == rows[j];
    assert rows[j].position.Infinite?;
    FiniteFirst(rows, RowRank, i, j);
  }
}
