/** What the team-form aggregator guarantees about the rows it builds. */
module TeamFormProperties {
  import opened Means
  import opened Tables
  import opened TeamOrder
  import opened TeamForm

  /** Every game yields its home row and its away row. */
  lemma EveryGameHasBothSides(games: seq<Game>, window: nat, g: nat)
    requires window >= 1 && g < |games|
    ensures var rows := Events(MakeTeamLong(games, window));
      HomeSide(games[g]) in rows && AwaySide(games[g]) in rows
  {
    SidesInRearranged(games, Events(MakeTeamLong(games, window)), g);
  }

  lemma SidesInRearranged(games: seq<Game>, rows: seq<TeamEvent>, g: nat)
    requires g < |games|
    requires multiset(rows) == multiset(Perspectives(games))
    ensures HomeSide(games[g]) in rows && AwaySide(games[g]) in rows
  {
    var p := Perspectives(games);
    assert p[g] == HomeSide(games[g]) && p[|games| + g] == AwaySide(games[g]);
    assert p[g] in multiset(p) && p[|games| + g] in multiset(p);
    assert p[g] in multiset(rows) && p[|games| + g] in multiset(rows);
  }

  /** Every row of the long table is the home or the away row of some game. */
  lemma EveryRowFromAGame(games: seq<Game>, window: nat, e: TeamEvent)
    requires window >= 1
    requires e in Events(MakeTeamLong(games, window))
    ensures exists k :: 0 <= k < |games| && (e == HomeSide(games[k]) || e == AwaySide(games[k]))
  {
    var rows := Events(MakeTeamLong(games, window));
    RearrangedSidesFromGames(games, rows, e);
  }

  lemma RearrangedSidesFromGames(games: seq<Game>, rows: seq<TeamEvent>, e: TeamEvent)
    requires multiset(rows) == multiset(Perspectives(games))
    requires e in rows
    ensures exists k :: 0 <= k < |games| && (e == HomeSide(games[k]) || e == AwaySide(games[k]))
  {
    var p := Perspectives(games);
    assert e in multiset(rows);
    assert e in multiset(p);
    var m :| 0 <= m < |p| && p[m] == e;
    if m < |games| {
      assert Mirrored(games[m], p[m], p[|games| + m]);
      assert e == HomeSide(games[m]);
    } else {
      assert Mirrored(games[m - |games|], p[m - |games|], p[m]);
      assert e == AwaySide(games[m - |games|]);
    }
  }

  /** A team's first row carries the neutral form: (0.5, 0.0, 3). */
  lemma FirstRowNeutral(rows: seq<TeamEvent>, i: nat, window: nat)
    requires window >= 1 && i < |rows|
    requires forall j :: 0 <= j < i ==> rows[j].team != rows[i].team
    ensures AddStats(rows, window)[i].form == NeutralForm
  {
    assert forall k :: 0 <= k < i ==> rows[..i][k] == rows[k];
    TeamRowsNone(rows[..i], rows[i].team);
    AddStatsAt(rows, i, window);
  }

  /** A team with no row in `s` has an empty group. */
  lemma {:induction false} TeamRowsNone(s: seq<TeamEvent>, team: string)
    requires forall k :: 0 <= k < |s| ==> s[k].team != team
    ensures TeamRows(s, team) == []
  {
    if s != [] {
      var init := s[..|s| - 1];
      assert forall k :: 0 <= k < |init| ==> init[k] == s[k];
      TeamRowsNone(init, team);
    }
  }

  /** The rows of `t` up to `n` are those up to `j`, then row `j`, when no row between is of `t`. */
  lemma {:induction false} TeamRowsAfter(s: seq<TeamEvent>, t: string, j: nat, n: nat)
    requires j < n <= |s| && s[j].team == t
    requires forall k :: j < k < n ==> s[k].team != t
    ensures TeamRows(s[..n], t) == TeamRows(s[..j], t) + [s[j]]
  {
    if n == j + 1 {
      assert s[..n][..n - 1] == s[..j];
    } else {
      assert s[..n][..n - 1] == s[..n - 1];
      TeamRowsAfter(s, t, j, n - 1);
    }
  }

  /** The earlier rows of row `i`'s team are those of its previous row `j`, then `j` itself. */
  lemma PriorAfterPrevious(rows: seq<TeamEvent>, j: nat, i: nat)
    requires j < i < |rows| && rows[j].team == rows[i].team
    requires forall k :: j < k < i ==> rows[k].team != rows[i].team
    ensures Prior(rows, i) == Prior(rows, j) + [rows[j]]
  {
    TeamRowsAfter(rows, rows[i].team, j, i);
    assert rows[..i][..j] == rows[..j];
    TeamRowsPrefix(rows, i, j, rows[i].team);
  }

  lemma TeamRowsPrefix(rows: seq<TeamEvent>, i: nat, j: nat, t: string)
    requires j < i <= |rows|
    ensures TeamRows(rows[..i][..j], t) == TeamRows(rows[..j], t)
  {
    assert rows[..i][..j] == rows[..j];
  }

  /** A window over `p + [x]` is `x` and at most `window - 1` rows of `p`. */
  lemma TrailingAppend(p: seq<TeamEvent>, x: TeamEvent, window: nat)
    requires window >= 1
    ensures Trailing(p + [x], window) == Trailing(p, window - 1) + [x]
  {
    var m := Min(window - 1, |p|);
    assert Trailing(p + [x], window) == (p + [x])[|p| - m..];
    assert (p + [x])[|p| - m..] == p[|p| - m..] + [x];
  }

  /**
   * Later rows: the rest is the day gap to the team's previous row `j`
   * (clamped at zero), and the rolling means run over row `j` and at most
   * `window - 1` of the team's rows before it.
   */
  lemma LaterRowForm(rows: seq<TeamEvent>, j: nat, i: nat, window: nat)
    requires window >= 1
    requires j < i < |rows| && rows[j].team == rows[i].team
    requires forall k :: j < k < i ==> rows[k].team != rows[i].team
    ensures var f := AddStats(rows, window)[i].form;
      var w := Trailing(Prior(rows, j), window - 1) + [rows[j]];
      && |w| <= window
      && f.restDays == Max(0, rows[i].game.date - rows[j].game.date)
      && f.winRolling == Mean(Wons(w))
      && f.pdRolling == Mean(PointDiffs(w))
  {
    PriorAfterPrevious(rows, j, i);
    AddStatsAt(rows, i, window);
    FormAfterAppend(Prior(rows, j), rows[j], rows[i].game.date, window);
  }

  /** The form after earlier rows `p` and then `x`. */
  lemma FormAfterAppend(p: seq<TeamEvent>, x: TeamEvent, date: int, window: nat)
    requires window >= 1
    ensures var f := FormAfter(p + [x], date, window);
      var w := Trailing(p, window - 1) + [x];
      && |w| <= window
      && f.restDays == Max(0, date - x.game.date)
      && f.winRolling == Mean(Wons(w))
      && f.pdRolling == Mean(PointDiffs(w))
  {
    TrailingAppend(p, x, window);
    assert (p + [x])[|p + [x]| - 1] == x;
  }

  lemma AddStatsAt(rows: seq<TeamEvent>, i: nat, window: nat)
    requires window >= 1 && i < |rows|
    ensures AddStats(rows, window)[i].form == FormAfter(Prior(rows, i), rows[i].game.date, window)
  {
  }

  /** Older history beyond the last `window` rows does not matter. */
  lemma WindowForgetsOlder(older: seq<TeamEvent>, recent: seq<TeamEvent>, window: nat)
    requires window >= 1 && |recent| >= window
    ensures WinRolling(older + recent, window) == WinRolling(recent, window)
    ensures PdRolling(older + recent, window) == PdRolling(recent, window)
  {
    var all := older + recent;
    assert all[|all| - window..] == recent[|recent| - window..];
  }

  /** Until the window fills, the rolling means run over all earlier rows. */
  lemma ShortHistoryUsesAll(prior: seq<TeamEvent>, window: nat)
    requires 1 <= |prior| <= window
    ensures WinRolling(prior, window) == Mean(Wons(prior))
    ensures PdRolling(prior, window) == Mean(PointDiffs(prior))
  {
    assert prior[0..] == prior;
  }

  /**
   * No lookahead: a row's form depends only on the rows before it and on its
   * own team and date; never on its own result or on any later row.
   */
  lemma NoLookahead(rows1: seq<TeamEvent>, rows2: seq<TeamEvent>, i: nat, window: nat)
    requires window >= 1 && i < |rows1| && i < |rows2|
    requires rows1[..i] == rows2[..i]
    requires rows1[i].team == rows2[i].team && rows1[i].game.date == rows2[i].game.date
    ensures AddStats(rows1, window)[i].form == AddStats(rows2, window)[i].form
  {
  }

  /** A team's rows are drawn from the table, each at most as often as it occurs there. */
  lemma {:induction false} TeamRowsWithin(s: seq<TeamEvent>, team: string)
    ensures multiset(TeamRows(s, team)) <= multiset(s)
  {
    if s != [] {
      var init := s[..|s| - 1];
      TeamRowsWithin(init, team);
      assert s == init + [s[|s| - 1]];
    }
  }

  /** Every result is 0 or 1. */
  ghost predicate ResultsAreFlags(rows: seq<TeamEvent>)
  {
    forall e :: e in rows ==> 0 <= e.won <= 1
  }

  /** With 0/1 results, every rolling win rate lies in [0, 1]; rest days are never negative. */
  lemma {:induction false} FormBounds(rows: seq<TeamEvent>, i: nat, window: nat)
    requires window >= 1 && i < |rows|
    requires ResultsAreFlags(rows)
    ensures var f := AddStats(rows, window)[i].form;
      0.0 <= f.winRolling <= 1.0 && f.restDays >= 0
  {
    var p := Prior(rows, i);
    if p != [] {
      var t := Trailing(p, window);
      var w := Wons(t);
      TeamRowsWithin(rows[..i], rows[i].team);
      forall k | 0 <= k < |w| ensures 0.0 <= w[k] <= 1.0 {
        assert t[k] == p[|p| - Min(window, |p|) + k];
        assert t[k] in multiset(p);
        assert t[k] in rows[..i];
      }
      MeanBounds(w, 0.0, 1.0);
    }
  }

  /** Games whose `home_team_won` is 0 or 1 give rows whose results are 0 or 1. */
  lemma {:induction false} LongTableResultsAreFlags(games: seq<Game>, window: nat)
    requires window >= 1
    requires forall g :: g in games ==> 0 <= g.homeTeamWon <= 1
    ensures ResultsAreFlags(Events(MakeTeamLong(games, window)))
  {
    var rows := Events(MakeTeamLong(games, window));
    forall e | e in rows ensures 0 <= e.won <= 1 {
      EveryRowFromAGame(games, window, e);
      var k :| 0 <= k < |games| && (e == HomeSide(games[k]) || e == AwaySide(games[k]));
      assert games[k] in games;
    }
  }

  /** With 0/1 `home_team_won`, every win rate of the long table lies in [0, 1]. */
  lemma LongTableWinRates(games: seq<Game>, window: nat, i: nat)
    requires window >= 1 && i < 2 * |games|
    requires forall g :: g in games ==> 0 <= g.homeTeamWon <= 1
    ensures 0.0 <= MakeTeamLong(games, window)[i].form.winRolling <= 1.0
  {
    var long := MakeTeamLong(games, window);
    LongTableResultsAreFlags(games, window);
    LongTableStats(games, window);
    FormBounds(Events(long), i, window);
  }

  /**
   * In the long table a team's rows are in date order, so its rest days are
   * exactly the day gap to its previous row (the clamp never applies).
   */
  lemma LongTableRestDays(games: seq<Game>, window: nat, j: nat, i: nat)
    requires window >= 1
    requires var rows := Events(MakeTeamLong(games, window));
      && j < i < |rows| && rows[j].team == rows[i].team
      && forall k :: j < k < i ==> rows[k].team != rows[i].team
    ensures var long := MakeTeamLong(games, window);
      long[i].form.restDays == long[i].event.game.date - long[j].event.game.date >= 0
  {
    var long := MakeTeamLong(games, window);
    var rows := Events(long);
    LongTableStats(games, window);
    SortedTeamChronological(rows, j, i);
    LaterRowForm(rows, j, i, window);
  }

  /** The long table's form columns are those `AddStats` computes from its own rows. */
  lemma LongTableStats(games: seq<Game>, window: nat)
    requires window >= 1
    ensures MakeTeamLong(games, window) == AddStats(Events(MakeTeamLong(games, window)), window)
  {
  }

  /**
   * Three games of one team on days d0 < d1 < d2 with a window of two: the
   * first row has the neutral form, the second the first game's result,
   * margin and gap, the third the mean of the first two results and margins
   * and the second gap.
   */
  lemma ThreeGameWindowTwo(e0: TeamEvent, e1: TeamEvent, e2: TeamEvent)
    requires e0.team == e1.team == e2.team
    requires e0.game.date < e1.game.date < e2.game.date
    ensures var long := AddStats([e0, e1, e2], 2);
      && long[0].form == NeutralForm
      && long[1].form.winRolling == e0.won as real
      && long[1].form.pdRolling == e0.pointDiff as real
      && long[1].form.restDays == e1.game.date - e0.game.date
      && long[2].form.winRolling == (e0.won + e1.won) as real / 2.0
      && long[2].form.pdRolling == (e0.pointDiff + e1.pointDiff) as real / 2.0
      && long[2].form.restDays == e2.game.date - e1.game.date
  {
    var rows := [e0, e1, e2];
    FirstRowNeutral(rows, 0, 2);
    AddStatsAt(rows, 1, 2);
    AddStatsAt(rows, 2, 2);
    assert rows[..1] == [e0] && rows[..2] == [e0, e1];
    TeamRowsPair(e0, e1);
    var w := Wons([e0, e1]);
    var d := PointDiffs([e0, e1]);
    assert Trailing([e0], 2) == [e0];
    assert Trailing([e0, e1], 2) == [e0, e1];
    assert Wons([e0]) == [e0.won as real];
    assert [e0.won as real][..0] == [];
    assert Sum([e0.won as real]) == e0.won as real;
    assert PointDiffs([e0]) == [e0.pointDiff as real];
    assert Sum([e0.pointDiff as real]) == e0.pointDiff as real;
    assert d[..1][..0] == [];
    assert Sum(d) == d[0] + d[1];
    assert w[..1] == [w[0]];
    assert d[..1] == [d[0]];
  }

  lemma TeamRowsPair(e0: TeamEvent, e1: TeamEvent)
    requires e0.team == e1.team
    ensures TeamRows([e0], e0.team) == [e0]
    ensures TeamRows([e0, e1], e0.team) == [e0, e1]
  {
    assert [e0][..0] == [];
    assert [e0, e1][..1] == [e0];
  }
}
