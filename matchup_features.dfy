/**
 * The matchup feature builder: `build_game_features` joins each game's home
 * row and away row of the long table back onto the game (training rows), and
 * `features_for_matchup` builds one row for a future game from the latest
 * stored form of each team before the game's date.
 */
module MatchupFeatures {
  import opened Wrappers
  import opened Tables
  import opened TeamOrder
  import opened TeamForm
  import opened TeamFormProperties

  /**
   * A feature row. Both builders emit this one type, so the six model inputs
   * (home and away rolling win rate, rolling point difference and rest days)
   * have the same names in both.
   */
  datatype MatchupRow = MatchupRow(date: int, homeTeam: string, awayTeam: string, home: Form, away: Form)

  /** A training row: the game id, the features and the label `target_home_win`. */
  datatype TrainingRow = TrainingRow(gameId: int, features: MatchupRow, targetHomeWin: int)

  /** A game for which the long table holds no row of one side. */
  datatype JoinError = MissingSide(gameId: int, role: Role)

  /** The games table's `game_id` column is a key. */
  ghost predicate UniqueGameIds(games: seq<Game>)
  {
    forall a, b :: 0 <= a < b < |games| ==> games[a].gameId != games[b].gameId
  }

  predicate IsSideOf(r: LongRow, gameId: int, role: Role)
  {
    r.event.game.gameId == gameId && r.event.role == role
  }

  /** The first row of the long table for side `role` of game `gameId`. */
  function FindSide(long: seq<LongRow>, gameId: int, role: Role): (k: Option<nat>)
    ensures k.Some? ==> k.value < |long| && IsSideOf(long[k.value], gameId, role)
    ensures k.None? <==> forall j :: 0 <= j < |long| ==> !IsSideOf(long[j], gameId, role)
  {
    if long == [] then None
    else if IsSideOf(long[0], gameId, role) then Some(0)
    else match FindSide(long[1..], gameId, role)
      case None => None
      case Some(k) => Some(k + 1)
  }

  /** The training row of one game: its own columns, then the form of each side. */
  function JoinGame(g: Game, long: seq<LongRow>): (r: Result<TrainingRow, JoinError>)
    ensures r.Ok? <==>
      (exists j :: 0 <= j < |long| && IsSideOf(long[j], g.gameId, Home))
      && (exists j :: 0 <= j < |long| && IsSideOf(long[j], g.gameId, Away))
    ensures r.Ok? ==>
      && r.value.gameId == g.gameId
      && r.value.targetHomeWin == g.homeTeamWon
      && r.value.features.date == g.date
      && r.value.features.homeTeam == g.homeTeam
      && r.value.features.awayTeam == g.awayTeam
      && (exists j :: 0 <= j < |long| && IsSideOf(long[j], g.gameId, Home) && r.value.features.home == long[j].form)
      && (exists j :: 0 <= j < |long| && IsSideOf(long[j], g.gameId, Away) && r.value.features.away == long[j].form)
  {
    match FindSide(long, g.gameId, Home)
    case None => Err(MissingSide(g.gameId, Home))
    case Some(h) =>
      match FindSide(long, g.gameId, Away)
      case None => Err(MissingSide(g.gameId, Away))
      case Some(a) =>
        Ok(TrainingRow(g.gameId, MatchupRow(g.date, g.homeTeam, g.awayTeam, long[h].form, long[a].form), g.homeTeamWon))
  }

  /** One training row per game, in game order; the first missing side is reported. */
  function JoinGames(games: seq<Game>, long: seq<LongRow>): (r: Result<seq<TrainingRow>, JoinError>)
    ensures r.Ok? <==> forall i :: 0 <= i < |games| ==> JoinGame(games[i], long).Ok?
    ensures r.Ok? ==> (
      && |r.value| == |games|
      && forall i :: 0 <= i < |games| ==> r.value[i] == JoinGame(games[i], long).value)
  {
    if games == [] then Ok([])
    else match JoinGame(games[0], long)
      case Err(e) => Err(e)
      case Ok(row) =>
        match JoinGames(games[1..], long)
        case Err(e) => Err(e)
        case Ok(rest) => Ok([row] + rest)
  }

  /** With unique game ids, the side found for a game is that game's own row. */
  lemma FoundSideIsOwnRow(games: seq<Game>, window: nat, i: nat, role: Role)
    requires window >= 1 && i < |games| && UniqueGameIds(games)
    ensures var long := MakeTeamLong(games, window);
      var k := FindSide(long, games[i].gameId, role);
      && k.Some?
      && long[k.value].event == (if role == Home then HomeSide(games[i]) else AwaySide(games[i]))
  {
    var long := MakeTeamLong(games, window);
    FoundSideOfRearranged(games, long, i, role);
  }

  /** The same, for any table holding exactly the two sides of every game. */
  lemma FoundSideOfRearranged(games: seq<Game>, long: seq<LongRow>, i: nat, role: Role)
    requires i < |games| && UniqueGameIds(games)
    requires multiset(Events(long)) == multiset(Perspectives(games))
    ensures var k := FindSide(long, games[i].gameId, role);
      && k.Some?
      && long[k.value].event == (if role == Home then HomeSide(games[i]) else AwaySide(games[i]))
  {
    var rows := Events(long);
    var own := if role == Home then HomeSide(games[i]) else AwaySide(games[i]);
    SidesInRearranged(games, rows, i);
    var j :| 0 <= j < |rows| && rows[j] == own;
    assert IsSideOf(long[j], games[i].gameId, role);
    var k := FindSide(long, games[i].gameId, role).value;
    assert long[k].event == rows[k];
    RearrangedSidesFromGames(games, rows, rows[k]);
    var m :| 0 <= m < |games| && (rows[k] == HomeSide(games[m]) || rows[k] == AwaySide(games[m]));
    assert games[m].gameId == games[i].gameId;
    assert m == i;
  }

  /**
   * `build_game_features`: the training rows and the long table. Every game
   * yields exactly one row, carrying its id, date, teams and result, and the
   * form of each side is the one stored in that side's own long-table row.
   */
  function BuildGameFeatures(games: seq<Game>, window: nat): (r: Result<(seq<TrainingRow>, seq<LongRow>), JoinError>)
    requires window >= 1
    requires UniqueGameIds(games)
    ensures r.Ok?
    ensures r.value.1 == MakeTeamLong(games, window)
    ensures |r.value.0| == |games|
    ensures forall i :: 0 <= i < |games| ==>
      var row := r.value.0[i];
      && row.gameId == games[i].gameId
      && row.targetHomeWin == games[i].homeTeamWon
      && row.features.date == games[i].date
      && row.features.homeTeam == games[i].homeTeam
      && row.features.awayTeam == games[i].awayTeam
      && (exists j :: 0 <= j < |r.value.1| && r.value.1[j].event == HomeSide(games[i]) && row.features.home == r.value.1[j].form)
      && (exists j :: 0 <= j < |r.value.1| && r.value.1[j].event == AwaySide(games[i]) && row.features.away == r.value.1[j].form)
  {
    var long := MakeTeamLong(games, window);
    JoinFindsOwnSides(games, window);
    match JoinGames(games, long)
    case Err(e) => Err(e)
    case Ok(rows) => Ok((rows, long))
  }

  lemma JoinFindsOwnSides(games: seq<Game>, window: nat)
    requires window >= 1 && UniqueGameIds(games)
    ensures var long := MakeTeamLong(games, window);
      forall i :: 0 <= i < |games| ==>
        var r := JoinGame(games[i], long);
        && r.Ok?
        && (exists j :: 0 <= j < |long| && long[j].event == HomeSide(games[i]) && r.value.features.home == long[j].form)
        && (exists j :: 0 <= j < |long| && long[j].event == AwaySide(games[i]) && r.value.features.away == long[j].form)
  {
    var long := MakeTeamLong(games, window);
    forall i | 0 <= i < |games|
      ensures var r := JoinGame(games[i], long);
        && r.Ok?
        && (exists j :: 0 <= j < |long| && long[j].event == HomeSide(games[i]) && r.value.features.home == long[j].form)
        && (exists j :: 0 <= j < |long| && long[j].event == AwaySide(games[i]) && r.value.features.away == long[j].form)
    {
      FoundSideIsOwnRow(games, window, i, Home);
      FoundSideIsOwnRow(games, window, i, Away);
      var h := FindSide(long, games[i].gameId, Home).value;
      var a := FindSide(long, games[i].gameId, Away).value;
      assert JoinGame(games[i], long).value.features.home == long[h].form;
      assert JoinGame(games[i], long).value.features.away == long[a].form;
    }
  }

  /** Row `r` is of `team` and dated strictly before `date`. */
  predicate PlayedBefore(r: LongRow, team: string, date: int)
  {
    r.event.team == team && r.event.game.date < date
  }

  /** Row `k` is the last row of `team` dated before `date`. */
  ghost predicate IsLastBefore(rows: seq<LongRow>, k: int, team: string, date: int)
  {
    && 0 <= k < |rows|
    && PlayedBefore(rows[k], team, date)
    && forall j :: k < j < |rows| ==> !PlayedBefore(rows[j], team, date)
  }

  /** The position of the last row of `team` dated before `date`, if any. */
  function LastBefore(rows: seq<LongRow>, team: string, date: int): (k: Option<nat>)
    ensures k.Some? ==> IsLastBefore(rows, k.value, team, date)
    ensures k.None? <==> forall j :: 0 <= j < |rows| ==> !PlayedBefore(rows[j], team, date)
  {
    if rows == [] then None
    else if PlayedBefore(rows[|rows| - 1], team, date) then Some(|rows| - 1)
    else LastBefore(rows[..|rows| - 1], team, date)
  }

  /**
   * The inner `latest` of `features_for_matchup`: the stored form of the
   * last row of `team` dated before `date`, or the neutral form when there
   * is none.
   */
  function Latest(rows: seq<LongRow>, team: string, date: int): (f: Form)
    ensures (forall j :: 0 <= j < |rows| ==> !PlayedBefore(rows[j], team, date)) ==> f == NeutralForm
    ensures forall k :: IsLastBefore(rows, k, team, date) ==> f == rows[k].form
  {
    match LastBefore(rows, team, date)
    case None => NeutralForm
    case Some(k) =>
      assert forall k' :: IsLastBefore(rows, k', team, date) ==> k' == k;
      rows[k].form
  }

  /**
   * `features_for_matchup`: one feature row for a game of `homeTeam` against
   * `awayTeam` on `date`, from any long table.
   */
  function FeaturesForMatchup(teamLong: seq<LongRow>, date: int, homeTeam: string, awayTeam: string): (r: MatchupRow)
    ensures r.date == date && r.homeTeam == homeTeam && r.awayTeam == awayTeam
    ensures r.home == Latest(teamLong, homeTeam, date) && r.away == Latest(teamLong, awayTeam, date)
  {
    MatchupRow(date, homeTeam, awayTeam, Latest(teamLong, homeTeam, date), Latest(teamLong, awayTeam, date))
  }

  /**
   * On a long table built by the aggregator, the row `latest` takes is the
   * team's most recent one before the date: no earlier-dated row of the team
   * is later than it.
   */
  lemma LatestIsMostRecent(games: seq<Game>, window: nat, team: string, date: int)
    requires window >= 1
    ensures var long := MakeTeamLong(games, window);
      var k := LastBefore(long, team, date);
      k.Some? ==> forall j :: 0 <= j < |long| && PlayedBefore(long[j], team, date) ==>
        long[j].event.game.date <= long[k.value].event.game.date
  {
    var long := MakeTeamLong(games, window);
    var k := LastBefore(long, team, date);
    if k.Some? {
      forall j | 0 <= j < |long| && PlayedBefore(long[j], team, date)
        ensures long[j].event.game.date <= long[k.value].event.game.date
      {
        NotAfterLast(long, team, date, j, k.value);
      }
    }
  }

  /** In a table sorted by (team, date), no row of the team before `date` is later than the last one. */
  lemma NotAfterLast(long: seq<LongRow>, team: string, date: int, j: nat, k: nat)
    requires SortedByTeamDate(Events(long))
    requires IsLastBefore(long, k, team, date)
    requires j < |long| && PlayedBefore(long[j], team, date)
    ensures long[j].event.game.date <= long[k].event.game.date
  {
    var rows := Events(long);
    if j < k {
      SortedTeamChronological(rows, j, k);
    }
  }

  /**
   * A team asked about on or before the date of its first game in the long
   * table gets the neutral form, which is also the form stored on that first
   * row: debut teams are treated alike by both builders.
   */
  lemma DebutTeamNeutral(games: seq<Game>, window: nat, i: nat, date: int)
    requires window >= 1
    requires var long := MakeTeamLong(games, window);
      && i < |long|
      && (forall j :: 0 <= j < i ==> long[j].event.team != long[i].event.team)
      && date <= long[i].event.game.date
    ensures var long := MakeTeamLong(games, window);
      && Latest(long, long[i].event.team, date) == NeutralForm
      && long[i].form == NeutralForm
  {
    var long := MakeTeamLong(games, window);
    var rows := Events(long);
    NoneBeforeDebut(long, i, date);
    LongTableStats(games, window);
    FirstRowNeutral(rows, i, window);
  }

  /** In a sorted table, a team has no row before the date of its first row. */
  lemma NoneBeforeDebut(long: seq<LongRow>, i: nat, date: int)
    requires SortedByTeamDate(Events(long))
    requires i < |long| && date <= long[i].event.game.date
    requires forall j :: 0 <= j < i ==> long[j].event.team != long[i].event.team
    ensures forall j :: 0 <= j < |long| ==> !PlayedBefore(long[j], long[i].event.team, date)
  {
    var rows := Events(long);
    var team := long[i].event.team;
    forall j | 0 <= j < |long| ensures !PlayedBefore(long[j], team, date) {
      if i < j && long[j].event.team == team {
        SortedTeamChronological(rows, i, j);
      }
    }
  }
}
