/** What the EV calculator guarantees about the columns it adds. */
module EvProperties {
  import opened Wrappers
  import opened Means
  import opened Tables
  import opened Ev

  /** The columns `add_market_deviation` reads: the grouping key and the odds. */
  function MarketView(q: Quote): (int, string, string, real)
  {
    (q.date, q.team, q.opponent, q.decimalOdds)
  }

  /** Quotes of one group see the same group odds. */
  lemma {:induction false} GroupOddsOfSameMarket(rows: seq<ScoredRow>, q1: Quote, q2: Quote)
    requires SameMarket(q1, q2)
    ensures GroupOdds(rows, q1) == GroupOdds(rows, q2)
  {
    if rows != [] {
      GroupOddsOfSameMarket(rows[..|rows| - 1], q1, q2);
    }
  }

  /** Group odds depend on nothing but the key and the odds of each row. */
  lemma {:induction false} GroupOddsOfSameView(rows1: seq<ScoredRow>, rows2: seq<ScoredRow>, q: Quote)
    requires |rows1| == |rows2|
    requires forall i :: 0 <= i < |rows1| ==> MarketView(rows1[i].quote) == MarketView(rows2[i].quote)
    ensures GroupOdds(rows1, q) == GroupOdds(rows2, q)
  {
    if rows1 != [] {
      var n := |rows1|;
      GroupOddsOfSameView(rows1[..n - 1], rows2[..n - 1], q);
      assert MarketView(rows1[n - 1].quote) == MarketView(rows2[n - 1].quote);
    }
  }

  /** Every group odds value is the odds of some quote of the group. */
  lemma {:induction false} GroupOddsMember(rows: seq<ScoredRow>, q: Quote, m: nat)
    requires m < |GroupOdds(rows, q)|
    ensures exists k :: IsGroupQuote(rows, k, q, GroupOdds(rows, q)[m])
  {
    var n := |rows|;
    var init := rows[..n - 1];
    if m < |GroupOdds(init, q)| {
      GroupOddsMember(init, q, m);
      var k :| IsGroupQuote(init, k, q, GroupOdds(init, q)[m]);
      assert rows[k] == init[k];
      assert IsGroupQuote(rows, k, q, GroupOdds(rows, q)[m]);
    } else {
      assert IsGroupQuote(rows, n - 1, q, GroupOdds(rows, q)[m]);
    }
  }

  /** Every quote of the group of `q` contributes its odds to the group. */
  lemma {:induction false} GroupOddsComplete(rows: seq<ScoredRow>, q: Quote, k: nat)
    requires k < |rows| && SameMarket(rows[k].quote, q)
    ensures rows[k].quote.decimalOdds in GroupOdds(rows, q)
  {
    var n := |rows|;
    var init := rows[..n - 1];
    if k < n - 1 {
      assert init[k] == rows[k];
      GroupOddsComplete(init, q, k);
    }
  }

  /** The positions of the quotes of the group of `q`. */
  ghost function GroupIndices(rows: seq<ScoredRow>, q: Quote): set<int>
  {
    set k | 0 <= k < |rows| && SameMarket(rows[k].quote, q)
  }

  /** The group's odds are as many as the group's quotes. */
  lemma {:induction false} GroupOddsCount(rows: seq<ScoredRow>, q: Quote)
    ensures |GroupOdds(rows, q)| == |GroupIndices(rows, q)|
  {
    if rows == [] {
      assert GroupIndices(rows, q) == {};
    } else {
      var n := |rows|;
      var init := rows[..n - 1];
      GroupOddsCount(init, q);
      var before := GroupIndices(init, q);
      assert n - 1 !in before;
      if SameMarket(rows[n - 1].quote, q) {
        assert GroupIndices(rows, q) == before + {n - 1};
      } else {
        assert GroupIndices(rows, q) == before;
      }
    }
  }

  /** The positions of the quotes of the group of `q` whose odds are `x`. */
  ghost function QuotesAt(rows: seq<ScoredRow>, q: Quote, x: real): set<int>
  {
    set k | 0 <= k < |rows| && SameMarket(rows[k].quote, q) && rows[k].quote.decimalOdds == x
  }

  /**
   * Each odds value is averaged exactly as often as quotes of the group carry
   * it: the group's odds are the multiset of its quotes' odds.
   */
  lemma {:induction false} GroupOddsMultiplicity(rows: seq<ScoredRow>, q: Quote, x: real)
    ensures multiset(GroupOdds(rows, q))[x] == |QuotesAt(rows, q, x)|
  {
    if rows == [] {
      assert QuotesAt(rows, q, x) == {};
    } else {
      var init := rows[..|rows| - 1];
      GroupOddsMultiplicity(init, q, x);
      QuotesAtStep(rows, q, x);
    }
  }

  lemma QuotesAtStep(rows: seq<ScoredRow>, q: Quote, x: real)
    requires rows != []
    ensures var n := |rows|;
      var last := rows[n - 1].quote;
      |QuotesAt(rows, q, x)| == |QuotesAt(rows[..n - 1], q, x)|
        + (if SameMarket(last, q) && last.decimalOdds == x then 1 else 0)
  {
    var n := |rows|;
    var init := rows[..n - 1];
    var before := QuotesAt(init, q, x);
    assert forall k :: 0 <= k < n - 1 ==> init[k] == rows[k];
    assert n - 1 !in before;
    assert forall k :: k in before <==> k in QuotesAt(rows, q, x) && k < n - 1;
    if SameMarket(rows[n - 1].quote, q) && rows[n - 1].quote.decimalOdds == x {
      assert QuotesAt(rows, q, x) == before + {n - 1};
    } else {
      assert QuotesAt(rows, q, x) == before;
    }
  }

  /** Row `k` is in the group of `q` and quotes `odds`. */
  ghost predicate IsGroupQuote(rows: seq<ScoredRow>, k: int, q: Quote, odds: real)
  {
    0 <= k < |rows| && SameMarket(rows[k].quote, q) && rows[k].quote.decimalOdds == odds
  }

  /** A group no row belongs to has no odds. */
  lemma {:induction false} GroupOddsEmpty(rows: seq<ScoredRow>, q: Quote)
    requires forall k :: 0 <= k < |rows| ==> !SameMarket(rows[k].quote, q)
    ensures GroupOdds(rows, q) == []
  {
    if rows != [] {
      var init := rows[..|rows| - 1];
      assert forall k :: 0 <= k < |init| ==> init[k] == rows[k];
      GroupOddsEmpty(init, q);
    }
  }

  /** The group of a quote that no other quote shares holds its odds alone. */
  lemma {:induction false} GroupOddsAlone(rows: seq<ScoredRow>, i: nat, n: nat)
    requires i < n <= |rows|
    requires forall j :: 0 <= j < |rows| && j != i ==> !SameMarket(rows[j].quote, rows[i].quote)
    ensures GroupOdds(rows[..n], rows[i].quote) == [rows[i].quote.decimalOdds]
  {
    var q := rows[i].quote;
    assert rows[..n][..n - 1] == rows[..n - 1];
    if n - 1 == i {
      assert forall k :: 0 <= k < |rows[..i]| ==> rows[..i][k] == rows[k];
      GroupOddsEmpty(rows[..i], q);
    } else {
      GroupOddsAlone(rows, i, n - 1);
    }
  }

  /** A quote alone in its group sits exactly at the market average: deviation 0. */
  lemma SingleQuoteNoDeviation(rows: seq<ScoredRow>, i: nat)
    requires i < |rows| && rows[i].quote.decimalOdds != 0.0
    requires forall j :: 0 <= j < |rows| && j != i ==> !SameMarket(rows[j].quote, rows[i].quote)
    ensures AddMarketDeviation(rows)[i].market == Some(Market(rows[i].quote.decimalOdds, Some(0.0)))
  {
    GroupOddsAlone(rows, i, |rows|);
    assert rows[..|rows|] == rows;
    var s := [rows[i].quote.decimalOdds];
    assert s[..0] == [];
    assert Sum(s) == rows[i].quote.decimalOdds;
  }

  /** Quotes of one group get the same market average. */
  lemma SameGroupSameAverage(rows: seq<ScoredRow>, i: nat, j: nat)
    requires i < |rows| && j < |rows| && SameMarket(rows[i].quote, rows[j].quote)
    ensures AddMarketDeviation(rows)[i].market.value.avgOdds == AddMarketDeviation(rows)[j].market.value.avgOdds
  {
    GroupOddsOfSameMarket(rows, rows[i].quote, rows[j].quote);
  }

  /** The market average lies between the lowest and the highest odds of the group. */
  lemma MarketAverageWithinGroupRange(rows: seq<ScoredRow>, i: nat)
    requires i < |rows|
    ensures var avg := AddMarketDeviation(rows)[i].market.value.avgOdds;
      && (exists j :: 0 <= j < |rows| && SameMarket(rows[j].quote, rows[i].quote) && rows[j].quote.decimalOdds <= avg)
      && (exists j :: 0 <= j < |rows| && SameMarket(rows[j].quote, rows[i].quote) && avg <= rows[j].quote.decimalOdds)
  {
    var s := GroupOdds(rows, rows[i].quote);
    MeanBetweenExtremes(s);
    GroupOddsMember(rows, rows[i].quote, MinIndex(s));
    GroupOddsMember(rows, rows[i].quote, MaxIndex(s));
    var lo :| IsGroupQuote(rows, lo, rows[i].quote, s[MinIndex(s)]);
    var hi :| IsGroupQuote(rows, hi, rows[i].quote, s[MaxIndex(s)]);
    assert SameMarket(rows[lo].quote, rows[i].quote) && SameMarket(rows[hi].quote, rows[i].quote);
  }

  /** `add_market_deviation` reads only the grouping key and the odds of each row. */
  lemma MarketReadsOnlyKeyAndOdds(rows1: seq<ScoredRow>, rows2: seq<ScoredRow>)
    requires |rows1| == |rows2|
    requires forall i :: 0 <= i < |rows1| ==> MarketView(rows1[i].quote) == MarketView(rows2[i].quote)
    ensures forall i :: 0 <= i < |rows1| ==>
      AddMarketDeviation(rows1)[i].market == AddMarketDeviation(rows2)[i].market
  {
    forall i | 0 <= i < |rows1|
      ensures AddMarketDeviation(rows1)[i].market == AddMarketDeviation(rows2)[i].market
    {
      GroupOddsOfSameView(rows1, rows2, rows1[i].quote);
      GroupOddsOfSameMarket(rows2, rows1[i].quote, rows2[i].quote);
    }
  }

  /** Running `add_market_deviation` twice gives the same table as running it once. */
  lemma AddMarketDeviationIdempotent(rows: seq<ScoredRow>)
    ensures AddMarketDeviation(AddMarketDeviation(rows)) == AddMarketDeviation(rows)
  {
    var once := AddMarketDeviation(rows);
    MarketReadsOnlyKeyAndOdds(once, rows);
  }

  /** The deviations of the rows in the group of `q` (zero where undefined), in table order. */
  function GroupDeviations(out: seq<ScoredRow>, q: Quote): seq<real>
  {
    if out == [] then []
    else
      var last := out[|out| - 1];
      GroupDeviations(out[..|out| - 1], q)
        + (if SameMarket(last.quote, q) then
             [if last.market.Some? && last.market.value.deviation.Some? then last.market.value.deviation.value else 0.0]
           else [])
  }

  /** Row `r` carries the deviation of its odds from `avg`. */
  ghost predicate DeviatesFrom(r: ScoredRow, avg: real)
    requires avg != 0.0
  {
    && r.market.Some? && r.market.value.deviation.Some?
    && r.market.value.deviation.value == (r.quote.decimalOdds - avg) / avg
  }

  lemma {:induction false} GroupDeviationsAreRelative(out: seq<ScoredRow>, q: Quote, avg: real)
    requires avg != 0.0
    requires forall i :: 0 <= i < |out| && SameMarket(out[i].quote, q) ==> DeviatesFrom(out[i], avg)
    ensures GroupDeviations(out, q) == RelativeDeviations(GroupOdds(out, q), avg)
  {
    if out != [] {
      var n := |out|;
      var init := out[..n - 1];
      assert forall i :: 0 <= i < |init| ==> init[i] == out[i];
      GroupDeviationsAreRelative(init, q, avg);
      var s := GroupOdds(init, q);
      assert RelativeDeviations(s + [out[n - 1].quote.decimalOdds], avg)
        == RelativeDeviations(s, avg) + [(out[n - 1].quote.decimalOdds - avg) / avg];
    }
  }

  /** With positive odds, the market average is positive. */
  lemma MarketAveragePositive(rows: seq<ScoredRow>, q: Quote)
    requires GroupOdds(rows, q) != []
    requires forall k :: 0 <= k < |rows| ==> rows[k].quote.decimalOdds > 0.0
    ensures Mean(GroupOdds(rows, q)) > 0.0
  {
    var s := GroupOdds(rows, q);
    MeanBetweenExtremes(s);
    GroupOddsMember(rows, q, MinIndex(s));
    var lo :| IsGroupQuote(rows, lo, q, s[MinIndex(s)]);
  }

  /** Each quote of the group of `q` deviates from the group's average `avg`. */
  lemma DeviationInGroup(rows: seq<ScoredRow>, q: Quote, k: nat, avg: real)
    requires k < |rows| && SameMarket(rows[k].quote, q)
    requires GroupOdds(rows, q) != [] && avg == GroupAverage(rows, q) && avg != 0.0
    ensures DeviatesFrom(AddMarketDeviation(rows)[k], avg)
  {
    GroupOddsOfSameMarket(rows, rows[k].quote, q);
    AverageAt(rows, k, avg);
  }

  lemma AverageAt(rows: seq<ScoredRow>, k: nat, avg: real)
    requires k < |rows| && avg != 0.0
    requires GroupOdds(rows, rows[k].quote) != [] && avg == GroupAverage(rows, rows[k].quote)
    ensures DeviatesFrom(AddMarketDeviation(rows)[k], avg)
  {
    MarketColumnsAt(rows, k, avg);
    DeviatesFromMarket(AddMarketDeviation(rows)[k], avg);
  }

  lemma DeviatesFromMarket(r: ScoredRow, avg: real)
    requires avg != 0.0 && r.market.Some?
    requires r.market.value == Market(avg, Deviation(r.quote.decimalOdds, avg))
    ensures DeviatesFrom(r, avg)
  {
  }

  lemma MarketColumnsAt(rows: seq<ScoredRow>, k: nat, avg: real)
    requires k < |rows|
    requires GroupOdds(rows, rows[k].quote) != [] && avg == GroupAverage(rows, rows[k].quote)
    ensures AddMarketDeviation(rows)[k].market.value == Market(avg, Deviation(rows[k].quote.decimalOdds, avg))
  {
  }

  /** With positive odds, the deviations within a group add up to zero. */
  lemma GroupDeviationsSumToZero(rows: seq<ScoredRow>, i: nat)
    requires i < |rows|
    requires forall k :: 0 <= k < |rows| ==> rows[k].quote.decimalOdds > 0.0
    ensures Sum(GroupDeviations(AddMarketDeviation(rows), rows[i].quote)) == 0.0
  {
    var q := rows[i].quote;
    var s := GroupOdds(rows, q);
    MarketAveragePositive(rows, q);
    var avg := GroupAverage(rows, q);
    var out := AddMarketDeviation(rows);
    forall k | 0 <= k < |out| && SameMarket(out[k].quote, q)
      ensures DeviatesFrom(out[k], avg)
    {
      DeviationInGroup(rows, q, k, avg);
    }
    GroupDeviationsAreRelative(out, q, avg);
    GroupOddsOfSameView(out, rows, q);
    RelativeDeviationsFromMeanSumToZero(s);
  }

  /** Two books at 2.0 and 2.2 on one side of one game: average 2.1, deviations -1/21 and +1/21. */
  lemma TwoBooksScenario(a: ScoredRow, b: ScoredRow)
    requires SameMarket(a.quote, b.quote)
    requires a.quote.decimalOdds == 2.0 && b.quote.decimalOdds == 2.2
    ensures var out := AddMarketDeviation([a, b]);
      && out[0].market == Some(Market(2.1, Some(-1.0 / 21.0)))
      && out[1].market == Some(Market(2.1, Some(1.0 / 21.0)))
  {
    var rows := [a, b];
    assert rows[..1] == [a] && [a][..0] == [];
    assert GroupOdds(rows, a.quote) == [2.0, 2.2];
    GroupOddsOfSameMarket(rows, a.quote, b.quote);
    assert [2.0, 2.2][..1] == [2.0] && [2.0][..0] == [];
    assert Mean([2.0, 2.2]) == 2.1;
  }

  /** A bet has positive expected value exactly when probability times odds exceeds one. */
  lemma EvPositiveIff(rows: seq<ScoredRow>, i: nat)
    requires i < |rows|
    ensures var ev := AddEv(rows)[i].ev.value;
      && ev + 1.0 == rows[i].pHat * rows[i].quote.decimalOdds
      && (ev > 0.0 <==> rows[i].pHat * rows[i].quote.decimalOdds > 1.0)
      && (rows[i].quote.decimalOdds > 0.0 ==> (ev > 0.0 <==> rows[i].pHat > 1.0 / rows[i].quote.decimalOdds))
  {
    var p, o := rows[i].pHat, rows[i].quote.decimalOdds;
    if o > 0.0 {
      var r := 1.0 / o;
      assert r * o == 1.0;
      assert (p - r) * o == p * o - 1.0;
      assert p - r > 0.0 <==> (p - r) * o > 0.0;
    }
  }

  lemma EvAt(rows: seq<ScoredRow>, i: nat)
    requires i < |rows|
    ensures AddEv(rows)[i].ev.Some?
    ensures AddEv(rows)[i].ev.value == rows[i].pHat * rows[i].quote.decimalOdds - 1.0
  {
  }

  /** The two transforms add disjoint columns, so their order does not matter. */
  lemma EvAndDeviationCommute(rows: seq<ScoredRow>)
    ensures AddEv(AddMarketDeviation(rows)) == AddMarketDeviation(AddEv(rows))
  {
    var a := AddEv(AddMarketDeviation(rows));
    var b := AddMarketDeviation(AddEv(rows));
    forall i | 0 <= i < |rows| ensures a[i] == b[i] {
      CommuteAt(rows, i);
    }
  }

  lemma CommuteAt(rows: seq<ScoredRow>, i: nat)
    requires i < |rows|
    ensures AddEv(AddMarketDeviation(rows))[i] == AddMarketDeviation(AddEv(rows))[i]
  {
    EvColumnAfterMarket(rows, i);
    MarketColumnAfterEv(rows, i);
    SameColumns(AddEv(AddMarketDeviation(rows))[i], AddMarketDeviation(AddEv(rows))[i]);
  }

  lemma EvColumnAfterMarket(rows: seq<ScoredRow>, i: nat)
    requires i < |rows|
    ensures AddEv(AddMarketDeviation(rows))[i].ev.Some?
    ensures AddEv(AddMarketDeviation(rows))[i].ev.value == AddEv(rows)[i].ev.value
  {
    var r := AddMarketDeviation(rows)[i];
    assert r.pHat == rows[i].pHat && r.quote.decimalOdds == rows[i].quote.decimalOdds;
    EvAt(AddMarketDeviation(rows), i);
    EvAt(rows, i);
  }

  lemma MarketColumnAfterEv(rows: seq<ScoredRow>, i: nat)
    requires i < |rows|
    ensures AddMarketDeviation(AddEv(rows))[i].market == AddMarketDeviation(rows)[i].market
  {
    MarketReadsOnlyKeyAndOdds(AddEv(rows), rows);
  }

  lemma SameColumns(x: ScoredRow, y: ScoredRow)
    requires x.quote == y.quote && x.pHat == y.pHat && x.market == y.market
    requires x.ev.Some? && y.ev.Some? && x.ev.value == y.ev.value
    ensures x == y
  {
  }
}
