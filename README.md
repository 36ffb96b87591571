# NBA value betting: team form features and expected value

This project is a Dafny model of the two pure table transforms at the centre of
the AI-Driven NBA Betting Value System. It also proves what those transforms
guarantee.

- **Team-form feature builder** (`features/build_features.py`).
  - `make_team_long` turns every game into a home row and an away row. It sorts
    the rows by (team, date). Each row then gets the form the team brought to
    that game:
    - days of rest since the team's previous game;
    - the mean result over at most `window` earlier games;
    - the mean point difference over at most `window` earlier games.
  - `build_game_features` joins each game's home row and away row back onto the
    game. This gives the training rows.
  - `features_for_matchup` builds one feature row for a future game. It uses the
    stored form of each team's last row before the game date (the inner
    `latest`), or the neutral form (0.5, 0.0, 3) when the team has no such row.
- **EV calculator** (`ev/ev.py`).
  - `add_market_deviation` adds two columns to every odds quote:
    - the mean decimal odds of all quotes for the same (date, team, opponent);
    - the quote's relative deviation from that mean.
  - `add_ev` adds the expected net return per unit staked, `p_hat * odds - 1`.

A pandas data frame is modelled as a sequence of records, and every transform is
a function that returns a new sequence. Dates are whole day numbers. Money and
probabilities are `real`, so every arithmetic statement is exact.

Modules:

- `Wrappers`: `Option`, `Result`.
- `Means`: sums and arithmetic means over `seq<real>`.
- `Tables`: the game, team-row and form records.
- `TeamOrder`: the lexicographic (team, date) order and the sort.
- `TeamForm`: `make_team_long`.
- `TeamFormProperties`: properties of `make_team_long`.
- `MatchupFeatures`: `build_game_features`, `features_for_matchup` and `latest`.
- `Ev`: `add_market_deviation` and `add_ev`.
- `EvProperties`: properties of the EV calculator.

How the pandas operations are modelled:

- Within a `groupby("team")` group, pandas keeps rows in frame order. So the
  rows a team played before row `i` are `Prior(rows, i)`: the rows of the same
  team among the first `i` rows.
- `shift().rolling(window, min_periods=1).mean()` is the mean over the last
  `min(window, |Prior|)` of those rows. When there are none, the `fillna`
  default applies.
- `diff().dt.days.fillna(3).clip(lower=0)` is the day gap to the last of those
  rows, clamped at zero, or 3 when there is none.

## Model

| member | source | states |
|---|---|---|
| TeamForm.Perspectives | ai_driven_nba_value_betting_system/src/features/build_features.py:18-36 | two rows per game. The home row has the game's teams, `won = home_team_won` and the home margin. The away row swaps team and opponent. The two results sum to 1 and the two margins sum to 0 |
| TeamForm.WonAgreesWithScore | ai_driven_nba_value_betting_system/src/features/build_features.py:23-32 | with the loader's `home_team_won`, the home row is a win exactly when its margin is positive. The away row is a win exactly when its margin is not negative, so a drawn score counts as an away win |
| TeamForm.MakeTeamLong | ai_driven_nba_value_betting_system/src/features/build_features.py:16-53 | the long table has exactly twice as many rows as there are games. Its events are a rearrangement of the home and away rows of all games, and they are sorted by (team, date) |
| TeamOrder.SortByTeamDate | ai_driven_nba_value_betting_system/src/features/build_features.py:37 | the sort keeps every row, as often as it occurred |
| TeamOrder.SortByTeamDateSorted | ai_driven_nba_value_betting_system/src/features/build_features.py:37 | the sorted rows are ordered by team name (lexicographically), then by date |
| TeamOrder.SortedTeamChronological | ai_driven_nba_value_betting_system/src/features/build_features.py:37-41 | in the sorted table, the rows of one team are in date order |
| TeamOrder.KeyLeTotal | ai_driven_nba_value_betting_system/src/features/build_features.py:37 | any two rows are comparable by (team, date) |
| TeamOrder.KeyLeTransitive | ai_driven_nba_value_betting_system/src/features/build_features.py:37 | the (team, date) order is transitive |
| TeamForm.AddStats | ai_driven_nba_value_betting_system/src/features/build_features.py:39-52 | attaches the three form columns without dropping, adding or reordering rows: the event column of the result is its input. The value of each column is stated by `FirstRowNeutral`, `LaterRowForm`, `NoLookahead` and `FormBounds` |
| TeamFormProperties.EveryGameHasBothSides | ai_driven_nba_value_betting_system/src/features/build_features.py:18-36 | the home row and the away row of every game are in the long table |
| TeamFormProperties.EveryRowFromAGame | ai_driven_nba_value_betting_system/src/features/build_features.py:18-36 | every row of the long table is the home row or the away row of some input game |
| TeamFormProperties.FirstRowNeutral | ai_driven_nba_value_betting_system/src/features/build_features.py:39-52 | a team's first row has rest 3, win rate 0.5 and point difference 0.0 |
| TeamFormProperties.LaterRowForm | ai_driven_nba_value_betting_system/src/features/build_features.py:39-52 | for a later row `i` whose previous row of the team is `j`: the rest is max(0, date_i - date_j). Both rolling means run over row `j` and at most `window - 1` of the team's rows before it, so over at most `window` rows |
| TeamFormProperties.NoLookahead | ai_driven_nba_value_betting_system/src/features/build_features.py:43-52 | a row's form is unchanged by any change to its own result or to any later row. Only the earlier rows and its own team and date matter |
| TeamFormProperties.WindowForgetsOlder | ai_driven_nba_value_betting_system/src/features/build_features.py:43-52 | once a team has `window` recent games, older games do not affect its rolling means |
| TeamFormProperties.ShortHistoryUsesAll | ai_driven_nba_value_betting_system/src/features/build_features.py:43-52 | with at most `window` earlier games (min_periods=1), the rolling means run over all of them |
| TeamFormProperties.FormBounds | ai_driven_nba_value_betting_system/src/features/build_features.py:23-47 | when results are 0 or 1, every rolling win rate lies in [0, 1] and rest days are never negative |
| TeamFormProperties.LongTableWinRates | ai_driven_nba_value_betting_system/src/features/build_features.py:23-47 | when every game's `home_team_won` is 0 or 1, every win rate in the table `make_team_long` returns lies in [0, 1] |
| TeamFormProperties.LongTableResultsAreFlags | ai_driven_nba_value_betting_system/src/features/build_features.py:23-32 | games with a 0/1 `home_team_won` give long-table rows whose results are all 0 or 1 |
| TeamFormProperties.LongTableRestDays | ai_driven_nba_value_betting_system/src/features/build_features.py:37-41 | in the long table, rest days equal the exact, non-negative day gap to the team's previous row |
| TeamFormProperties.LongTableStats | ai_driven_nba_value_betting_system/src/features/build_features.py:37-52 | the long table's form columns are computed from its own sorted rows |
| TeamFormProperties.ThreeGameWindowTwo | ai_driven_nba_value_betting_system/src/features/build_features.py:39-52 | worked case: three games of one team with window 2. The first form is neutral. The second is the first game's result, margin and day gap. The third is the mean of the first two results and margins, with the second day gap |
| MatchupFeatures.FindSide | ai_driven_nba_value_betting_system/src/features/build_features.py:62-71 | the row found has the given game id and role. None exactly when no such row exists |
| MatchupFeatures.JoinGame | ai_driven_nba_value_betting_system/src/features/build_features.py:62-75 | the join succeeds exactly when the long table has a home row and an away row for the game id. The result carries the game's id, date, teams and `home_team_won` as target, and the form of a home row and an away row of that game |
| MatchupFeatures.JoinGames | ai_driven_nba_value_betting_system/src/features/build_features.py:73-75 | succeeds exactly when every game joins, with one row per game in game order |
| MatchupFeatures.FoundSideIsOwnRow | ai_driven_nba_value_betting_system/src/features/build_features.py:61-71 | with unique game ids, the row joined for each side of a game is that game's own home or away row |
| MatchupFeatures.BuildGameFeatures | ai_driven_nba_value_betting_system/src/features/build_features.py:56-76 | returns the long table and exactly one training row per game. Each row has the game's id, date, teams and target, and the forms stored on the game's own home and away rows |
| MatchupFeatures.LastBefore | ai_driven_nba_value_betting_system/src/features/build_features.py:87-90 | finds the last row of the team dated strictly before the date, or None exactly when there is none |
| MatchupFeatures.Latest | ai_driven_nba_value_betting_system/src/features/build_features.py:86-95 | the neutral form (0.5, 0.0, 3) when the team has no row before the date. Otherwise the stored form of its last such row |
| MatchupFeatures.FeaturesForMatchup | ai_driven_nba_value_betting_system/src/features/build_features.py:79-114 | carries the given date and teams unchanged, with each side's form taken by `latest` |
| MatchupFeatures.LatestIsMostRecent | ai_driven_nba_value_betting_system/src/features/build_features.py:86-90 | on a long table built by `make_team_long`, no row of the team before the date is later than the row `latest` takes |
| MatchupFeatures.DebutTeamNeutral | ai_driven_nba_value_betting_system/src/features/build_features.py:39-95 | a team queried on or before its first game date gets the neutral form, which is also the form stored on its first row |
| Means.MeanBounds | ai_driven_nba_value_betting_system/src/features/build_features.py:43-47 | a mean of values within [lo, hi] lies within [lo, hi] |
| Means.MeanBetweenExtremes | ai_driven_nba_value_betting_system/src/ev/ev.py:9-11 | a mean lies between the minimum and the maximum of its values |
| Means.RelativeDeviationsFromMeanSumToZero | ai_driven_nba_value_betting_system/src/ev/ev.py:12 | relative deviations from a non-zero mean sum to zero |
| Ev.GroupOdds | ai_driven_nba_value_betting_system/src/ev/ev.py:9-11 | a group holds at most as many odds as the table has rows, and is non-empty when some row belongs to it |
| Ev.AddMarketDeviation | ai_driven_nba_value_betting_system/src/ev/ev.py:6-13 | same rows in the same order. Every row gains the market columns, and the quote, probability and EV columns are unchanged |
| Ev.AddEv | ai_driven_nba_value_betting_system/src/ev/ev.py:16-20 | same rows in the same order. Every row gains an EV, and the quote, probability and market columns are unchanged |
| EvProperties.SingleQuoteNoDeviation | ai_driven_nba_value_betting_system/src/ev/ev.py:9-12 | a quote alone in its group has its own odds as the market average and deviation exactly 0 |
| EvProperties.SameGroupSameAverage | ai_driven_nba_value_betting_system/src/ev/ev.py:9-11 | quotes with the same (date, team, opponent) get the same market average |
| EvProperties.MarketAverageWithinGroupRange | ai_driven_nba_value_betting_system/src/ev/ev.py:9-11 | the market average lies between the lowest and the highest odds of the quote's group |
| EvProperties.GroupOddsMember | ai_driven_nba_value_betting_system/src/ev/ev.py:9-11 | every odds value averaged for a group is the odds of some quote of that group |
| EvProperties.GroupOddsComplete | ai_driven_nba_value_betting_system/src/ev/ev.py:9-11 | every quote with the same (date, team, opponent) puts its odds into that group's average |
| EvProperties.GroupOddsCount | ai_driven_nba_value_betting_system/src/ev/ev.py:9-11 | the group's average runs over exactly as many values as there are quotes in the group |
| EvProperties.GroupOddsMultiplicity | ai_driven_nba_value_betting_system/src/ev/ev.py:9-11 | each odds value is averaged exactly as many times as quotes of the group carry it, so the market average is the mean over all the group's quotes, repeats included |
| EvProperties.GroupDeviationsAreRelative | ai_driven_nba_value_betting_system/src/ev/ev.py:12 | every deviation of a group is (odds - average) / average for that group's average |
| EvProperties.MarketAveragePositive | ai_driven_nba_value_betting_system/src/ev/ev.py:9-11 | with positive odds, every market average is positive, so every deviation is defined |
| EvProperties.GroupDeviationsSumToZero | ai_driven_nba_value_betting_system/src/ev/ev.py:9-12 | with positive odds, the deviations within any group sum to 0 |
| EvProperties.TwoBooksScenario | ai_driven_nba_value_betting_system/src/ev/ev.py:9-12 | worked case: two books at 2.0 and 2.2 on one side give average 2.1 and deviations -1/21 and +1/21 |
| EvProperties.MarketReadsOnlyKeyAndOdds | ai_driven_nba_value_betting_system/src/ev/ev.py:8-13 | the market columns depend only on each row's date, team, opponent and odds |
| EvProperties.AddMarketDeviationIdempotent | ai_driven_nba_value_betting_system/src/ev/ev.py:8-13 | running `add_market_deviation` twice gives the same table as running it once |
| EvProperties.EvPositiveIff | ai_driven_nba_value_betting_system/src/ev/ev.py:19 | EV + 1 equals probability times odds. EV is positive exactly when probability times odds exceeds 1, and, for positive odds, exactly when the probability exceeds 1/odds |
| EvProperties.EvAndDeviationCommute | ai_driven_nba_value_betting_system/src/ev/ev.py:6-20 | the two transforms add disjoint columns, so applying them in either order gives the same table |

## Left out

- `app.py` is not part of this model. It contains the command line, the parquet reads and writes, and the printing. It applies the trained classifier, which is foreign code, and turns its output into the away side's probability `1 - proba_home` before calling the EV calculator.
- The loaders (`ingest/balldontlie.py`, `ingest/odds.py`) are not part of this model: they do HTTP and CSV/parquet I/O. Their derivation `home_team_won = home_score > away_score` is the predicate `Tables.Scored`, used as a hypothesis where it matters.
- `model/train.py` is not part of this model: scikit-learn fitting, metrics and persistence. Both feature builders emit the same `MatchupRow` type, so they produce the same six feature columns by construction.
- IEEE floating point and NaN propagation: values are exact `real`s. The `fillna` defaults are modelled as explicit "no earlier row" cases.
- Ev.AddMarketDeviation: where a group's mean odds are 0, pandas divides by zero and yields an infinite or NaN deviation. The model records that deviation as `None` and does not model the infinite or NaN value.
- Timestamps are whole day numbers. Only `<` between dates and day differences are used.
- Tie order among rows of one team on the same date: pandas `sort_values` does not promise a stable order. The model sorts stably (insertion sort). Every per-row property is stated for whatever order the rows end up in.
- TeamForm.MakeTeamLong requires `window >= 1`, as do `TeamForm.AddStats` and the form functions. For a smaller window, pandas `rolling(window, min_periods=1)` raises `ValueError`, and that error is not modelled.
- MatchupFeatures.JoinGame returns `Err(MissingSide(...))` when the long table has no row for one side of a game. The pandas left `join` instead keeps the game and leaves that side's form columns NaN, which the training step later fills. The model does not carry NaN form columns. On the long table that `build_game_features` builds, every game has both sides, so `BuildGameFeatures` never takes that path.
- MatchupFeatures.BuildGameFeatures requires unique game ids. The loaders number games `range(len(df))`. With duplicate ids, the pandas join would multiply rows, and that is not modelled.
- `add_ev` takes the column names `prob_col` and `odds_col` as parameters. The model fixes them to their defaults, `p_hat` and `decimal_odds`.
- Both EV functions copy their input before adding columns. In a value model the input can never change, so there is nothing to prove about it.
- The model does not claim that `features_for_matchup` matches `build_game_features` for a game on the matchup date. `latest` returns the stored form of the team's last earlier row, and that form excludes the row's own result. So single-matchup features are one game behind what the bulk builder would compute. `Latest` states what the code does.
