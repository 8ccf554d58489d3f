/** The signal generator of `Trader.generate_features`: for every date of a
    requested range it recomputes the RSI from the prices up to and including
    that date, turns it into a SELL / BUY / HOLD signal and records it beside
    the adjusted close of that date. */
module Trade {
  import opened Utilities

  /** Look-back of the RSI the generator uses (the default of `relative_strength_index`). */
  const RsiPeriods: nat := 14
  /** At or above this RSI the generator signals SELL. */
  const SellThreshold: real := 70.0
  /** At or below this RSI (and below the sell threshold) it signals BUY. */
  const BuyThreshold: real := 30.0

  /** SELL is -1, BUY is 1, HOLD is 0. A NaN fails both comparisons and holds. */
  function Classify(rsi: Rsi): (signal: int)
    ensures signal == -1 || signal == 0 || signal == 1
    ensures signal == -1 <==> rsi.Value? && rsi.v >= SellThreshold
    ensures signal == 1 <==> rsi.Value? && rsi.v <= BuyThreshold
  {
    if rsi.Value? && rsi.v >= SellThreshold then -1
    else if rsi.Value? && rsi.v <= BuyThreshold then 1
    else 0
  }

  /** A higher RSI never yields a more bullish signal. */
  lemma ClassifyAntitone(x: real, y: real)
    requires x <= y
    ensures Classify(Value(y)) <= Classify(Value(x))
  {
  }

  /** The result frame: its index (the dates of the range) and the SIGNAL, RSI
      and ADJ CLOSE columns, one entry per date. */
  datatype FeatureTable = FeatureTable(dates: seq<nat>, signal: seq<int>, rsi: seq<Rsi>, adjClose: seq<real>)

  /** The RSI the generator computes on a price history, at its last date. */
  function HistoryRsi(history: seq<real>): Rsi
  {
    RelativeStrength(history, RsiPeriods)
  }

  /** An indicator evaluated, row after row, at the dates start .. start + n - 1,
      each time on the prices up to and including that row's date. */
  ghost function Column<T>(indicator: seq<real> -> T, prices: seq<real>, start: nat, n: nat): (c: seq<T>)
    requires n > 0 ==> start + n <= |prices|
    ensures |c| == n
  {
    if n == 0 then [] else Column(indicator, prices, start, n - 1) + [indicator(prices[..start + n])]
  }

  /** Row k of the column holds the indicator of the prices up to and including date start + k. */
  lemma {:induction false} ColumnAt<T>(indicator: seq<real> -> T, prices: seq<real>, start: nat, n: nat, k: nat)
    requires n > 0 ==> start + n <= |prices|
    requires k < n
    ensures Column(indicator, prices, start, n)[k] == indicator(prices[..start + k + 1])
  {
    if k < n - 1 {
      ColumnAt(indicator, prices, start, n - 1, k);
    }
  }

  /** The RSI of one row, computed by the array-based method on the prices up
      to and including that row's date. */
  method RowRsi(history: seq<real>) returns (rsi: Rsi)
    ensures rsi == HistoryRsi(history)
  {
    rsi := RelativeStrengthIndex(history, RsiPeriods);
  }

  /** Every row of the RSI column is the RSI of the prices up to and including its date. */
  lemma RsiColumnRows(prices: seq<real>, start: nat, n: nat)
    requires n > 0 ==> start + n <= |prices|
    ensures forall k :: 0 <= k < n ==> Column(HistoryRsi, prices, start, n)[k] == RelativeStrength(prices[..start + k + 1], RsiPeriods)
  {
    forall k | 0 <= k < n
      ensures Column(HistoryRsi, prices, start, n)[k] == RelativeStrength(prices[..start + k + 1], RsiPeriods)
    {
      ColumnAt(HistoryRsi, prices, start, n, k);
    }
  }

  /** The loop over the dates of the range: the row of date start + k gets the
      RSI of the prices up to and including that date and the signal of that RSI. */
  method ScoreRows(prices: seq<real>, start: nat, count: nat) returns (signals: seq<int>, rsis: seq<Rsi>)
    requires count > 0 ==> start + count <= |prices|
    ensures |signals| == count
    ensures rsis == Column(HistoryRsi, prices, start, count)
    ensures forall k :: 0 <= k < count ==> signals[k] == Classify(rsis[k])
  {
    signals, rsis := [], [];
    var k := 0;
    while k < count
      invariant 0 <= k <= count
      invariant |signals| == k
      invariant rsis == Column(HistoryRsi, prices, start, k)
      invariant forall j :: 0 <= j < k ==> signals[j] == Classify(rsis[j])
    {
      var rsi := RowRsi(prices[..start + k + 1]);
      signals := signals + [Classify(rsi)];
      rsis := rsis + [rsi];
      k := k + 1;
    }
  }

  /** `generate_features` over an already downloaded adjusted-close series.
      `loc[start:end]` keeps the dates from start to end inclusive that the
      series has, in order; each row's RSI and signal are computed from the
      prices up to and including that row's date only. */
  method GenerateFeatures(prices: seq<real>, start: nat, end: nat) returns (results: FeatureTable)
    ensures |results.dates| == if start <= end && start < |prices| then (if end < |prices| then end + 1 else |prices|) - start else 0
    ensures forall k :: 0 <= k < |results.dates| ==> results.dates[k] == start + k
    ensures forall d :: d in results.dates <==> start <= d <= end && d < |prices|
    ensures |results.signal| == |results.rsi| == |results.adjClose| == |results.dates|
    ensures results.rsi == Column(HistoryRsi, prices, start, |results.dates|)
    ensures forall k :: 0 <= k < |results.dates| ==>
      results.rsi[k] == RelativeStrength(prices[..start + k + 1], RsiPeriods)
    ensures forall k :: 0 <= k < |results.dates| ==> results.signal[k] == Classify(results.rsi[k])
    ensures forall k :: 0 <= k < |results.dates| ==> results.adjClose[k] == prices[start + k]
  {
    var hi := if end < |prices| then end + 1 else |prices|;
    var count := if start < hi then hi - start else 0;
    var dates := seq(count, k requires 0 <= k < count => start + k);
    var signals, rsis := ScoreRows(prices, start, count);
    var adjClose := if count == 0 then [] else prices[start..hi];
    results := FeatureTable(dates, signals, rsis, adjClose);
    forall d | start <= d <= end && d < |prices|
      ensures d in results.dates
    {
      assert results.dates[d - start] == d;
    }
    RsiColumnRows(prices, start, count);
  }

  /** No look-ahead: a column filled row after row depends only on the prices
      up to its last row's date. Two series that agree up to date start + n - 1
      give the rows for dates start .. start + n - 1 the same values. */
  lemma {:induction false} NoLookAhead<T>(indicator: seq<real> -> T, p: seq<real>, q: seq<real>, start: nat, n: nat)
    requires n > 0 ==> start + n <= |p| && start + n <= |q| && p[..start + n] == q[..start + n]
    ensures Column(indicator, p, start, n) == Column(indicator, q, start, n)
  {
    if n > 0 {
      assert p[..start + n - 1] == p[..start + n][..start + n - 1];
      assert q[..start + n - 1] == q[..start + n][..start + n - 1];
      NoLookAhead(indicator, p, q, start, n - 1);
    }
  }

  /** Cutting the series off after the last date of the range leaves every row
      of the generator's table unchanged: the same dates, RSI, signal and
      adjusted close. */
  lemma TruncationKeepsRows(prices: seq<real>, start: nat, n: nat, k: nat)
    requires 0 < n && start + n <= |prices|
    requires k < n
    ensures Column(HistoryRsi, prices[..start + n], start, n) == Column(HistoryRsi, prices, start, n)
    ensures Classify(Column(HistoryRsi, prices[..start + n], start, n)[k]) == Classify(Column(HistoryRsi, prices, start, n)[k])
    ensures prices[..start + n][start + k] == prices[start + k]
  {
    assert prices[..start + n][..start + n] == prices[..start + n];
    NoLookAhead(HistoryRsi, prices[..start + n], prices, start, n);
  }

  /** Once 15 prices are available, the RSI of a date is fixed by the 15
      prices ending at it, whichever dates they fall on. */
  lemma RsiSeesOnlyFifteenPrices(p: seq<real>, d: nat, q: seq<real>, e: nat)
    requires RsiPeriods <= d < |p| && RsiPeriods <= e < |q|
    requires p[d - RsiPeriods..d + 1] == q[e - RsiPeriods..e + 1]
    ensures RelativeStrength(p[..d + 1], RsiPeriods) == RelativeStrength(q[..e + 1], RsiPeriods)
  {
    assert TrailingWindow(p[..d + 1], RsiPeriods) == p[d - RsiPeriods..d + 1];
    assert TrailingWindow(q[..e + 1], RsiPeriods) == q[e - RsiPeriods..e + 1];
  }

  /** Twenty days rising by 1.00 from 100.00: because Diff is previous minus
      current, the RSI on day 20 is 0 and the signal is BUY. */
  lemma TwentyRisingDays()
    ensures var prices := seq(20, i requires 0 <= i < 20 => 100.0 + i as real);
      && RelativeStrength(prices, RsiPeriods) == Value(0.0)
      && Classify(RelativeStrength(prices, RsiPeriods)) == 1
  {
    var prices := seq(20, i requires 0 <= i < 20 => 100.0 + i as real);
    var w := TrailingWindow(prices, RsiPeriods);
    assert w == prices[5..];
    assert StrictlyIncreasing(w) by {
      forall k, m | 0 <= k < m < |w|
        ensures w[k] < w[m]
      {
        assert w[k] == 105.0 + k as real && w[m] == 105.0 + m as real;
      }
    }
    RisingWindowRsiZero(prices, RsiPeriods);
  }
}
