/**
 * The team-form aggregator (`make_team_long`): every game becomes two team
 * rows, one per side; the rows are sorted by (team, date); and each row gets
 * the form its team brought to that game: days of rest since the team's
 * previous game, and the mean result and mean point difference over at most
 * `window` of the team's previous games, never the game itself.
 */
module TeamForm {
  import opened Means
  import opened Tables
  import opened TeamOrder

  /** What a team with no earlier game is assumed to bring: average form, three days of rest. */
  const NeutralForm: Form := Form(0.5, 0.0, 3)

  function Min(a: int, b: int): int { if a <= b then a else b }

  function Max(a: int, b: int): int { if a >= b then a else b }

  /** The row for the home side. */
  function HomeSide(g: Game): TeamEvent
  {
    TeamEvent(g, g.homeTeam, g.awayTeam, g.homeTeamWon, g.homeScore - g.awayScore, Home)
  }

  /** The row for the away side: teams swapped, result and margin flipped. */
  function AwaySide(g: Game): TeamEvent
  {
    TeamEvent(g, g.awayTeam, g.homeTeam, 1 - g.homeTeamWon, g.awayScore - g.homeScore, Away)
  }

  /** `h` and `a` are the home and away views of `g`, and mirror each other. */
  ghost predicate Mirrored(g: Game, h: TeamEvent, a: TeamEvent)
  {
    && h.game == g && a.game == g
    && h.role == Home && a.role == Away
    && h.team == g.homeTeam && h.opponent == g.awayTeam
    && a.team == h.opponent && a.opponent == h.team
    && h.won == g.homeTeamWon && h.won + a.won == 1
    && h.pointDiff == g.homeScore - g.awayScore && h.pointDiff + a.pointDiff == 0
  }

  /** All home rows, in game order, followed by all away rows. */
  function Perspectives(games: seq<Game>): (r: seq<TeamEvent>)
    ensures |r| == 2 * |games|
    ensures forall i :: 0 <= i < |games| ==> Mirrored(games[i], r[i], r[|games| + i])
  {
    seq(|games|, i requires 0 <= i < |games| => HomeSide(games[i]))
      + seq(|games|, i requires 0 <= i < |games| => AwaySide(games[i]))
  }

  /**
   * With the loader's `home_team_won`, `won` says whether the team scored
   * more than its opponent, except that a drawn score counts as an away win.
   */
  lemma WonAgreesWithScore(g: Game)
    requires Scored(g)
    ensures HomeSide(g).won == 1 <==> HomeSide(g).pointDiff > 0
    ensures AwaySide(g).won == 1 <==> AwaySide(g).pointDiff >= 0
    ensures HomeSide(g).won + AwaySide(g).won == 1
  {
  }

  /** The rows of `team` in `s`, in order: one group of `groupby("team")`. */
  function TeamRows(s: seq<TeamEvent>, team: string): (r: seq<TeamEvent>)
    ensures |r| <= |s|
    ensures forall k :: 0 <= k < |r| ==> r[k].team == team
  {
    if s == [] then []
    else
      var init := s[..|s| - 1];
      assert forall k :: 0 <= k < |init| ==> init[k] == s[k];
      TeamRows(init, team) + (if s[|s| - 1].team == team then [s[|s| - 1]] else [])
  }

  /** The rows of the same team that come before row `i`. */
  function Prior(rows: seq<TeamEvent>, i: nat): seq<TeamEvent>
    requires i < |rows|
  {
    TeamRows(rows[..i], rows[i].team)
  }

  /** The last `window` rows of `prior`, or all of them when there are fewer. */
  function Trailing(prior: seq<TeamEvent>, window: nat): seq<TeamEvent>
  {
    prior[|prior| - Min(window, |prior|)..]
  }

  function Wons(s: seq<TeamEvent>): (w: seq<real>)
    ensures |w| == |s|
  {
    seq(|s|, k requires 0 <= k < |s| => s[k].won as real)
  }

  function PointDiffs(s: seq<TeamEvent>): (d: seq<real>)
    ensures |d| == |s|
  {
    seq(|s|, k requires 0 <= k < |s| => s[k].pointDiff as real)
  }

  function WinRolling(prior: seq<TeamEvent>, window: nat): real
    requires window >= 1
  {
    if prior == [] then NeutralForm.winRolling else Mean(Wons(Trailing(prior, window)))
  }

  function PdRolling(prior: seq<TeamEvent>, window: nat): real
    requires window >= 1
  {
    if prior == [] then NeutralForm.pdRolling else Mean(PointDiffs(Trailing(prior, window)))
  }

  /** Days since the previous row of the team, never negative. */
  function RestDays(prior: seq<TeamEvent>, date: int): int
  {
    if prior == [] then NeutralForm.restDays else Max(0, date - prior[|prior| - 1].game.date)
  }

  /** The form a team brings to a game on `date`, given its earlier rows `prior`. */
  function FormAfter(prior: seq<TeamEvent>, date: int, window: nat): Form
    requires window >= 1
  {
    Form(WinRolling(prior, window), PdRolling(prior, window), RestDays(prior, date))
  }

  /** Attaches each row's form, computed from the rows of its team before it. */
  function AddStats(rows: seq<TeamEvent>, window: nat): (r: seq<LongRow>)
    requires window >= 1
    ensures Events(r) == rows
  {
    var r := seq(|rows|, i requires 0 <= i < |rows| =>
      LongRow(rows[i], FormAfter(Prior(rows, i), rows[i].game.date, window)));
    assert Events(r) == rows;
    r
  }

  /**
   * `make_team_long`: two rows per game, in (team, date) order, with form.
   * pandas rejects a rolling window below one.
   */
  function MakeTeamLong(games: seq<Game>, window: nat): (r: seq<LongRow>)
    requires window >= 1
    ensures |r| == 2 * |games|
    ensures multiset(Events(r)) == multiset(Perspectives(games))
    ensures SortedByTeamDate(Events(r))
  {
    var sorted := SortByTeamDate(Perspectives(games));
    SortByTeamDateSorted(Perspectives(games));
    AddStats(sorted, window)
  }
}
