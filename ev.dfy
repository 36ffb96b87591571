/**
 * The EV calculator. `add_market_deviation` adds, to every odds quote, the
 * mean decimal odds over all quotes for the same side of the same game (same
 * date, team and opponent) and the quote's relative deviation from that
 * mean; `add_ev` adds the expected net return per unit staked,
 * `p_hat * decimal_odds - 1`. Both return a new table with the same rows in
 * the same order; a value model cannot change its input in place.
 */
module Ev {
  import opened Wrappers
  import opened Means
  import opened Tables

  /** One bookmaker's price on one side of one game. */
  datatype Quote = Quote(date: int, team: string, opponent: string, homeAway: Role, book: string, decimalOdds: real)

  /**
   * The two columns `add_market_deviation` adds. The deviation is None where
   * the market mean is zero, where pandas would produce an infinite or NaN
   * value.
   */
  datatype Market = Market(avgOdds: real, deviation: Option<real>)

  /**
   * A row of the odds table once the model probability `p_hat` is attached.
   * A column that has not been added yet is None.
   */
  datatype ScoredRow = ScoredRow(quote: Quote, pHat: real, market: Option<Market>, ev: Option<real>)

  /** The grouping key of `add_market_deviation`: (date, team, opponent). */
  predicate SameMarket(a: Quote, b: Quote)
  {
    a.date == b.date && a.team == b.team && a.opponent == b.opponent
  }

  /** The decimal odds of the rows in the group of `q`, in table order. */
  function GroupOdds(rows: seq<ScoredRow>, q: Quote): (odds: seq<real>)
    ensures |odds| <= |rows|
    ensures (exists k :: 0 <= k < |rows| && SameMarket(rows[k].quote, q)) ==> odds != []
  {
    if rows == [] then []
    else
      var init := rows[..|rows| - 1];
      var last := rows[|rows| - 1];
      assert forall k :: 0 <= k < |init| ==> init[k] == rows[k];
      GroupOdds(init, q) + (if SameMarket(last.quote, q) then [last.quote.decimalOdds] else [])
  }

  /** `market_avg_odds`: the mean odds of the group of `q`. */
  function GroupAverage(rows: seq<ScoredRow>, q: Quote): real
    requires GroupOdds(rows, q) != []
  {
    Mean(GroupOdds(rows, q))
  }

  /** `deviation`: the relative distance of `odds` from the market average. */
  function Deviation(odds: real, avg: real): Option<real>
  {
    if avg == 0.0 then None else Some((odds - avg) / avg)
  }

  /** The market columns of row `i`. */
  function MarketAt(rows: seq<ScoredRow>, i: nat): Market
    requires i < |rows|
  {
    var avg := GroupAverage(rows, rows[i].quote);
    Market(avg, Deviation(rows[i].quote.decimalOdds, avg))
  }

  /** `add_market_deviation`: adds `market_avg_odds` and `deviation`, changes nothing else. */
  function AddMarketDeviation(rows: seq<ScoredRow>): (out: seq<ScoredRow>)
    ensures |out| == |rows|
    ensures forall i :: 0 <= i < |rows| ==>
      && out[i].market.Some?
      && out[i].quote == rows[i].quote && out[i].pHat == rows[i].pHat && out[i].ev == rows[i].ev
  {
    seq(|rows|, i requires 0 <= i < |rows| => rows[i].(market := Some(MarketAt(rows, i))))
  }

  /** `add_ev`: adds `ev`, changes nothing else. */
  function AddEv(rows: seq<ScoredRow>): (out: seq<ScoredRow>)
    ensures |out| == |rows|
    ensures forall i :: 0 <= i < |rows| ==>
      && out[i].ev.Some?
      && out[i].quote == rows[i].quote && out[i].pHat == rows[i].pHat && out[i].market == rows[i].market
  {
    seq(|rows|, i requires 0 <= i < |rows| => rows[i].(ev := Some(rows[i].pHat * rows[i].quote.decimalOdds - 1.0)))
  }
}
