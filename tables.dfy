/**
 * The records the feature pipeline works on. Dates are whole day numbers
 * (the pipeline only ever looks at day differences and at `<` between dates);
 * team names are strings.
 */
module Tables {

  datatype Role = Home | Away

  /** One played game: a row of the games table. */
  datatype Game = Game(
    gameId: int,
    date: int,
    homeTeam: string,
    awayTeam: string,
    homeScore: int,
    awayScore: int,
    homeTeamWon: int)

  /** The loader derives `home_team_won` as `int(home_score > away_score)`. */
  predicate Scored(g: Game)
  {
    g.homeTeamWon == if g.homeScore > g.awayScore then 1 else 0
  }

  /**
   * One side of one game, seen from `team`: a row of the long table before
   * its rolling statistics are attached. It keeps the whole game record,
   * as the long table keeps every column of the games table.
   */
  datatype TeamEvent = TeamEvent(
    game: Game,
    team: string,
    opponent: string,
    won: int,
    pointDiff: int,
    role: Role)

  /** The three form statistics a team carries into a game. */
  datatype Form = Form(winRolling: real, pdRolling: real, restDays: int)

  /** A row of the long table: the event and the form the team brought to it. */
  datatype LongRow = LongRow(event: TeamEvent, form: Form)

  /** The event column of a long table. */
  function Events(rows: seq<LongRow>): (es: seq<TeamEvent>)
    ensures |es| == |rows|
    ensures forall i :: 0 <= i < |rows| ==> es[i] == rows[i].event
  {
    seq(|rows|, i requires 0 <= i < |rows| => rows[i].event)
  }
}
