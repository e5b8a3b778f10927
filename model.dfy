/**
 * The entities the simulator works on: teams, groups, the per-group standing of a
 * team (a `group_teams` row) and fixtures.
 */
module Model {

  /** Primary keys. The tables use UUID strings; the core only compares them for equality. */
  type TeamId = int
  type GroupId = int
  type RecordId = int
  type FixtureId = int

  /**
   * A team. Only the attributes the modelled logic reads are kept: `attack`, `defense`,
   * `goalkeeper` and `supporter` feed the floating-point rating model only.
   */
  datatype Team = Team(id: TeamId, name: string, country: string, pot: int, power: int)

  /** A group; the draw lists groups ordered by name. */
  datatype Group = Group(id: GroupId, name: string)

  /** One `group_teams` row: a team's standing inside one group. A null form is the empty string. */
  datatype Standing = Standing(
    id: RecordId, groupId: GroupId, teamId: TeamId,
    played: int, won: int, drawn: int, lost: int, points: int,
    goalsFor: int, goalsAgainst: int, goalDifference: int,
    guess: int, form: string)

  /** The two broadcast weekdays the scheduler uses. */
  datatype Weekday = Tuesday | Wednesday

  /** The TV-rights side of a group. */
  datatype Side = Red | Blue

  /**
   * A `fixture` row. Scores are NULL until a match is played; the model stores 0 there,
   * and no operation reads the score of an unplayed fixture.
   */
  datatype Fixture = Fixture(
    id: FixtureId, groupId: GroupId, week: int, matchDay: Weekday,
    home: TeamId, away: TeamId, homeGoals: int, awayGoals: int, played: bool)

  function CountryOf(t: Team): string { t.country }

  function PotOf(t: Team): int { t.pot }

  function TeamOf(s: Standing): TeamId { s.teamId }

  function GroupOf(s: Standing): GroupId { s.groupId }

  /** The team ids of a list of records, in order (`pluck('team_id')`). */
  function TeamIds(rs: seq<Standing>): (ids: seq<TeamId>)
    ensures |ids| == |rs|
    ensures forall i :: 0 <= i < |rs| ==> ids[i] == rs[i].teamId
  {
    if rs == [] then [] else [rs[0].teamId] + TeamIds(rs[1..])
  }
}
