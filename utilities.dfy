/** The indicator library: percentage changes, moving averages, MACD, the golden
    cross and the relative strength index, over the adjusted-close series of one
    stock. A price series is a `seq<real>`; a date is an index into it. */
module Utilities {
  import opened Series

  datatype Option<T> = None | Some(value: T)

  /** One trading session, reduced to the two columns `daily_return` reads. */
  datatype Bar = Bar(open: real, close: real)

  /** All prices but possibly the last are non-zero: the denominators of the percentage changes. */
  predicate NonZeroDenominators(a: seq<real>)
  {
    forall i :: 0 <= i < |a| - 1 ==> a[i] != 0.0
  }

  // ---------------------------------------------------------------------------
  // Percentage changes and daily return
  // ---------------------------------------------------------------------------

  /** `pct_change` followed by `dropna`: one fractional change per pair of
      consecutive prices, so the first day has no entry. Entry i is the change
      from day i to day i + 1, and applying it to day i gives day i + 1. */
  function DailyPctChange(a: seq<real>): (r: seq<real>)
    requires NonZeroDenominators(a)
    ensures |r| == if |a| == 0 then 0 else |a| - 1
    ensures forall i {:trigger r[i]} :: 0 <= i < |r| ==> a[i] * (1.0 + r[i]) == a[i + 1]
  {
    if |a| == 0 then []
    else seq(|a| - 1, i requires 0 <= i < |a| - 1 => (a[i + 1] - a[i]) / a[i])
  }

  /** Compounded growth factor of a run of fractional changes: the product of (1 + c). */
  function Growth(c: seq<real>): real
  {
    if |c| == 0 then 1.0 else Growth(c[..|c| - 1]) * (1.0 + c[|c| - 1])
  }

  lemma GrowthLast(c: seq<real>)
    requires |c| > 0
    ensures Growth(c) == Growth(c[..|c| - 1]) * (1.0 + c[|c| - 1])
  {
  }

  /** Applying each change of a run of fractional changes to the previous price
      gives the next one; then compounding the changes from j up to k carries the
      price at j to the price at k. */
  lemma {:induction false} CompoundChain(a: seq<real>, r: seq<real>, j: nat, k: nat)
    requires |a| > 0 && |r| == |a| - 1
    requires forall i {:trigger r[i]} :: 0 <= i < |r| ==> a[i] * (1.0 + r[i]) == a[i + 1]
    requires j <= k < |a|
    ensures a[j] * Growth(r[j..k]) == a[k]
  {
    if j < k {
      var g, t := Growth(r[j..k - 1]), 1.0 + r[k - 1];
      assert a[k - 1] * t == a[k];
      CompoundChain(a, r, j, k - 1);
      assert r[j..k][..k - 1 - j] == r[j..k - 1];
      assert r[j..k][k - 1 - j] == r[k - 1];
      GrowthLast(r[j..k]);
      ProductChain(a[j], g, t, a[k - 1], a[k]);
    }
  }

  /** Compounding the daily changes from day j up to day k carries the price of day j to that of day k. */
  lemma DailyChangesCompound(a: seq<real>, j: nat, k: nat)
    requires NonZeroDenominators(a)
    requires j <= k < |a|
    ensures a[j] * Growth(DailyPctChange(a)[j..k]) == a[k]
  {
    CompoundChain(a, DailyPctChange(a), j, k);
  }

  /** Change between the price six trading days back and the latest one; a
      series shorter than six has no such price (`iloc[-6]` raises). */
  function WeeklyPctChange(a: seq<real>): (r: Option<real>)
    requires |a| >= 6 ==> a[|a| - 6] != 0.0
    ensures r.None? <==> |a| < 6
    ensures r.Some? ==> a[|a| - 6] * (1.0 + r.value) == a[|a| - 1]
  {
    if |a| < 6 then None
    else Some((a[|a| - 1] - a[|a| - 6]) / a[|a| - 6])
  }

  /** The weekly change is the compound of the last five daily changes. */
  lemma WeeklyCompoundsDaily(a: seq<real>)
    requires |a| >= 6
    requires NonZeroDenominators(a)
    ensures WeeklyPctChange(a) == Some(Growth(DailyPctChange(a)[|a| - 6..|a| - 1]) - 1.0)
  {
    var n := |a|;
    var r := DailyPctChange(a);
    CompoundChain(a, r, n - 6, n - 1);
    var w := WeeklyPctChange(a).value;
    MulCancel(a[n - 6], 1.0 + w, Growth(r[n - 6..n - 1]));
  }

  /** Close minus open for every session, one entry per session. */
  function DailyReturn(bars: seq<Bar>): (r: seq<real>)
    ensures |r| == |bars|
    ensures forall i :: 0 <= i < |bars| ==> bars[i].open + r[i] == bars[i].close
  {
    seq(|bars|, i requires 0 <= i < |bars| => bars[i].close - bars[i].open)
  }

  // ---------------------------------------------------------------------------
  // Moving averages
  // ---------------------------------------------------------------------------

  /** Mean of the w prices ending at index i. */
  function WindowMean(a: seq<real>, w: nat, i: nat): real
    requires 1 <= w && w - 1 <= i < |a|
  {
    Sum(a[i + 1 - w..i + 1]) / w as real
  }

  /** Dropping the last price leaves the earlier trailing means unchanged. */
  lemma WindowMeanOfFront(a: seq<real>, w: nat)
    requires w >= 1 && |a| > 0
    ensures forall i :: w - 1 <= i < |a| - 1 ==> WindowMean(a[..|a| - 1], w, i) == WindowMean(a, w, i)
  {
    forall i | w - 1 <= i < |a| - 1
      ensures WindowMean(a[..|a| - 1], w, i) == WindowMean(a, w, i)
    {
      assert a[..|a| - 1][i + 1 - w..i + 1] == a[i + 1 - w..i + 1];
    }
  }

  /** `rolling(window=w).mean()` with the missing leading entries filled with 0:
      a value for every date, 0 until the window has filled, then the mean of
      the w prices ending at that date. */
  function SimpleMovingAvg(a: seq<real>, w: nat): (r: seq<real>)
    requires w >= 1
    ensures |r| == |a|
    ensures forall i :: 0 <= i < |a| && i < w - 1 ==> r[i] == 0.0
    ensures forall i :: w - 1 <= i < |a| ==> r[i] == WindowMean(a, w, i)
    decreases |a|
  {
    if |a| == 0 then []
    else
      var front := a[..|a| - 1];
      WindowMeanOfFront(a, w);
      SimpleMovingAvg(front, w) + [if |a| < w then 0.0 else WindowMean(a, w, |a| - 1)]
  }

  /** A window of equal prices has that price as its mean. */
  lemma WindowMeanOfConstant(a: seq<real>, w: nat, i: nat, c: real)
    requires 1 <= w && w - 1 <= i < |a|
    requires forall j :: 0 <= j < |a| ==> a[j] == c
    ensures WindowMean(a, w, i) == c
  {
    var win := a[i + 1 - w..i + 1];
    SumConstant(win, c);
    MeanOfConstant(w as real, c);
  }

  /** A constant series has itself as moving average once the window has filled. */
  lemma SmaOfConstant(a: seq<real>, w: nat, c: real)
    requires w >= 1
    requires forall i :: 0 <= i < |a| ==> a[i] == c
    ensures forall i :: w - 1 <= i < |a| ==> SimpleMovingAvg(a, w)[i] == c
  {
    var r := SimpleMovingAvg(a, w);
    forall i | w - 1 <= i < |a|
      ensures r[i] == c
    {
      WindowMeanOfConstant(a, w, i, c);
    }
  }

  /** Rolling update: moving one date forward adds the entering price and drops
      the leaving one, each weighted by 1/w. */
  lemma SmaSlides(a: seq<real>, w: nat, i: nat)
    requires w >= 1
    requires w - 1 <= i && i + 1 < |a|
    ensures SimpleMovingAvg(a, w)[i + 1] == SimpleMovingAvg(a, w)[i] + (a[i + 1] - a[i + 1 - w]) / w as real
  {
    var r := SimpleMovingAvg(a, w);
    var lo := i + 1 - w;
    var both := a[lo..i + 2];
    SumFront(both);
    assert both[1..] == a[lo + 1..i + 2];
    assert both[..|both| - 1] == a[lo..i + 1];
    var before, after := Sum(a[lo..i + 1]), Sum(a[lo + 1..i + 2]);
    assert after == before + (a[i + 1] - a[lo]);
    assert r[i] == before / w as real && r[i + 1] == after / w as real;
    DivideSum(before, a[i + 1] - a[lo], w as real);
  }

  /** Smoothing factor of an exponential moving average with the given span. */
  function Alpha(span: nat): (alpha: real)
    requires span >= 1
    ensures 0.0 < alpha <= 1.0
  {
    2.0 / (span as real + 1.0)
  }

  /** `ewm(span=span, adjust=False).mean()`: seeded by the first price, then each
      value moves a fraction Alpha(span) of the way from the previous value to
      the new price. Defined at every date, so the series keeps its length. */
  function ExponentialMovingAverage(a: seq<real>, span: nat): (e: seq<real>)
    requires span >= 1
    ensures |e| == |a|
    ensures |a| > 0 ==> e[0] == a[0]
    ensures forall i {:trigger a[i]} :: 0 < i < |a| ==> e[i] == Alpha(span) * a[i] + (1.0 - Alpha(span)) * e[i - 1]
    decreases |a|
  {
    if |a| == 0 then []
    else if |a| == 1 then [a[0]]
    else
      var prev := ExponentialMovingAverage(a[..|a| - 1], span);
      prev + [Alpha(span) * a[|a| - 1] + (1.0 - Alpha(span)) * prev[|a| - 2]]
  }

  /** A constant series has itself as exponential moving average. */
  lemma {:induction false} EmaOfConstant(a: seq<real>, span: nat, c: real)
    requires span >= 1
    requires forall i :: 0 <= i < |a| ==> a[i] == c
    ensures forall i :: 0 <= i < |a| ==> ExponentialMovingAverage(a, span)[i] == c
  {
    var e := ExponentialMovingAverage(a, span);
    var i := 0;
    while i < |a|
      invariant 0 <= i <= |a|
      invariant forall j :: 0 <= j < i ==> e[j] == c
    {
      if i > 0 {
        assert e[i] == Alpha(span) * a[i] + (1.0 - Alpha(span)) * e[i - 1];
        assert Alpha(span) * c + (1.0 - Alpha(span)) * c == c;
      }
      i := i + 1;
    }
  }

  /** One smoothing step keeps the average between bounds that hold for the price and the previous average. */
  lemma EmaStepWithin(a: seq<real>, span: nat, i: nat, lo: real, hi: real)
    requires span >= 1 && 0 < i < |a|
    requires lo <= a[i] <= hi
    requires lo <= ExponentialMovingAverage(a, span)[i - 1] <= hi
    ensures lo <= ExponentialMovingAverage(a, span)[i] <= hi
  {
    var e := ExponentialMovingAverage(a, span);
    var x, y := a[i], e[i - 1];
    MixWithin(Alpha(span), x, y, lo, hi);
  }

  /** When every price of the series lies between lo and hi, so does every
      exponential moving average value. */
  lemma {:induction false} EmaWithinBounds(a: seq<real>, span: nat, lo: real, hi: real)
    requires span >= 1
    requires forall i :: 0 <= i < |a| ==> lo <= a[i] <= hi
    ensures forall i :: 0 <= i < |a| ==> lo <= ExponentialMovingAverage(a, span)[i] <= hi
  {
    var e := ExponentialMovingAverage(a, span);
    var i := 0;
    while i < |a|
      invariant 0 <= i <= |a|
      invariant forall j :: 0 <= j < i ==> lo <= e[j] <= hi
    {
      if i > 0 {
        EmaStepWithin(a, span, i, lo, hi);
      }
      i := i + 1;
    }
  }

  // ---------------------------------------------------------------------------
  // MACD
  // ---------------------------------------------------------------------------

  /** The frame `macd` returns: the MACD line, the signal line and the
      "line above signal" flag, one entry per date. */
  datatype MacdFrame = MacdFrame(line: seq<real>, signal: seq<real>, indicator: seq<bool>)

  /** Builds the MACD frame column by column. The MACD line is defined at every
      date (both averages are), so dropping missing values removes nothing. */
  method Macd(prices: seq<real>) returns (res: MacdFrame)
    ensures |res.line| == |res.signal| == |res.indicator| == |prices|
    ensures forall i :: 0 <= i < |prices| ==>
      res.line[i] == ExponentialMovingAverage(prices, 12)[i] - ExponentialMovingAverage(prices, 26)[i]
    ensures res.signal == ExponentialMovingAverage(res.line, 9)
    ensures forall i :: 0 <= i < |prices| ==> (res.indicator[i] <==> res.line[i] > res.signal[i])
  {
    var ema12 := ExponentialMovingAverage(prices, 12);
    var ema26 := ExponentialMovingAverage(prices, 26);
    var mac := seq(|prices|, i requires 0 <= i < |prices| => ema12[i] - ema26[i]);
    var signal := ExponentialMovingAverage(mac, 9);
    res := MacdFrame(mac, signal, []);
    res := res.(indicator := seq(|mac|, i requires 0 <= i < |mac| => mac[i] > signal[i]));
  }

  /** On a constant series both averages equal the price, so any MACD line
      meeting the contract of Macd is 0 throughout, and so is its signal line
      (its own average): the indicator is false on every date. */
  lemma FlatMacdLine(prices: seq<real>, mac: seq<real>)
    requires |prices| > 0 && forall i :: 0 <= i < |prices| ==> prices[i] == prices[0]
    requires |mac| == |prices|
    requires forall i :: 0 <= i < |prices| ==>
      mac[i] == ExponentialMovingAverage(prices, 12)[i] - ExponentialMovingAverage(prices, 26)[i]
    ensures forall i :: 0 <= i < |mac| ==> mac[i] == 0.0 && ExponentialMovingAverage(mac, 9)[i] == 0.0
  {
    EmaOfConstant(prices, 12, prices[0]);
    EmaOfConstant(prices, 26, prices[0]);
    EmaOfConstant(mac, 9, 0.0);
  }

  // ---------------------------------------------------------------------------
  // Golden cross
  // ---------------------------------------------------------------------------

  /** SELL (-1) when the latest 50-day average is at most the latest 200-day
      average, BUY (1) otherwise; an empty series has no latest value. */
  function GoldenCross(a: seq<real>): (r: Option<int>)
    ensures r.None? <==> |a| == 0
    ensures r.Some? ==> (r.value == -1 || r.value == 1)
    ensures r.Some? ==> (r.value == -1 <==> SimpleMovingAvg(a, 50)[|a| - 1] <= SimpleMovingAvg(a, 200)[|a| - 1])
  {
    if |a| == 0 then None
    else
      var fifty := SimpleMovingAvg(a, 50);
      var twoHundred := SimpleMovingAvg(a, 200);
      if fifty[|fifty| - 1] <= twoHundred[|twoHundred| - 1] then Some(-1) else Some(1)
  }

  /** With fewer than 50 prices both averages are still 0-filled: SELL. */
  lemma GoldenCrossShortHistory(a: seq<real>)
    requires 0 < |a| < 50
    ensures GoldenCross(a) == Some(-1)
  {
  }

  /** With 50 to 199 positive prices only the 200-day average is 0-filled: BUY. */
  lemma GoldenCrossWithout200DayHistory(a: seq<real>)
    requires 50 <= |a| < 200
    requires forall i :: 0 <= i < |a| ==> a[i] > 0.0
    ensures GoldenCross(a) == Some(1)
  {
    var n := |a|;
    SumPositive(a[n - 50..n]);
    DivPositive(Sum(a[n - 50..n]), 50.0);
    assert SimpleMovingAvg(a, 50)[n - 1] == WindowMean(a, 50, n - 1);
  }

  /** With 200 or more prices the signal compares the two trailing means. */
  lemma GoldenCrossFullHistory(a: seq<real>)
    requires |a| >= 200
    ensures GoldenCross(a) == Some(1) <==> WindowMean(a, 50, |a| - 1) > WindowMean(a, 200, |a| - 1)
  {
  }

  // ---------------------------------------------------------------------------
  // Relative strength index
  // ---------------------------------------------------------------------------

  /** The rows `iloc[-periods-1:]` keeps: the last periods + 1 prices, or all of them when there are fewer. */
  function TrailingWindow(s: seq<real>, periods: nat): (w: seq<real>)
    ensures |w| == if |s| <= periods + 1 then |s| else periods + 1
    ensures w == s[|s| - |w|..]
  {
    if |s| <= periods + 1 then s else s[|s| - (periods + 1)..]
  }

  /** The Diff column once `shift(1)` and `dropna` have removed the first row:
      previous price minus current price, one entry per consecutive pair. */
  function Diffs(w: seq<real>): (d: seq<real>)
    ensures |d| == if |w| == 0 then 0 else |w| - 1
    ensures forall k {:trigger d[k]} :: 0 <= k < |d| ==> w[k + 1] == w[k] - d[k]
  {
    if |w| == 0 then []
    else seq(|w| - 1, k requires 0 <= k < |w| - 1 => w[k] - w[k + 1])
  }

  /** A Diff value with its negative entries masked to 0. */
  function Gain(diff: real): (g: real)
    ensures g >= 0.0
    ensures diff >= 0.0 ==> g == diff
    ensures diff < 0.0 ==> g == 0.0
  {
    if diff < 0.0 then 0.0 else diff
  }

  /** A Diff value with its positive entries masked to 0, then negated. */
  function Loss(diff: real): (l: real)
    ensures l >= 0.0
    ensures diff <= 0.0 ==> l == -diff
    ensures diff > 0.0 ==> l == 0.0
  {
    if diff > 0.0 then 0.0 else diff * -1.0
  }

  function Gains(d: seq<real>): (g: seq<real>)
    ensures |g| == |d|
  {
    seq(|d|, k requires 0 <= k < |d| => Gain(d[k]))
  }

  function Losses(d: seq<real>): (l: seq<real>)
    ensures |l| == |d|
  {
    seq(|d|, k requires 0 <= k < |d| => Loss(d[k]))
  }

  /** Each step splits into a gain and a loss: both non-negative, never both
      positive, and gain minus loss is the step's Diff (previous minus current). */
  lemma GainLossSplit(w: seq<real>)
    ensures var d := Diffs(w);
      forall k :: 0 <= k < |d| ==>
        && Gains(d)[k] >= 0.0 && Losses(d)[k] >= 0.0
        && (Gains(d)[k] == 0.0 || Losses(d)[k] == 0.0)
        && Gains(d)[k] - Losses(d)[k] == w[k] - w[k + 1]
  {
  }

  /** Total gain minus total loss is the sum of the Diffs. */
  lemma {:induction false} GainsMinusLosses(d: seq<real>)
    ensures Sum(Gains(d)) - Sum(Losses(d)) == Sum(d)
  {
    if |d| > 0 {
      var n := |d| - 1;
      GainsMinusLosses(d[..n]);
      assert Gains(d)[..n] == Gains(d[..n]);
      assert Losses(d)[..n] == Losses(d[..n]);
    }
  }

  /** The Diffs of a window telescope to its first price minus its last. */
  lemma {:induction false} DiffsTelescope(w: seq<real>)
    requires |w| > 0
    ensures Sum(Diffs(w)) == w[0] - w[|w| - 1]
  {
    if |w| > 1 {
      var n := |w| - 1;
      DiffsTelescope(w[..n]);
      assert Diffs(w)[..n - 1] == Diffs(w[..n]);
    }
  }

  /** Total gain minus total loss over a window is its first price minus its last. */
  lemma GainLossTelescope(w: seq<real>)
    requires |w| > 0
    ensures Sum(Gains(Diffs(w))) - Sum(Losses(Diffs(w))) == w[0] - w[|w| - 1]
  {
    GainsMinusLosses(Diffs(w));
    DiffsTelescope(w);
  }

  /** `avg_gain`: the gains of the trailing window summed and divided by
      `periods`, even when the window holds fewer than `periods` steps. */
  function AvgGain(s: seq<real>, periods: nat): (g: real)
    requires periods >= 1
    ensures g >= 0.0
  {
    var total := Sum(Gains(Diffs(TrailingWindow(s, periods))));
    SumNonNegative(Gains(Diffs(TrailingWindow(s, periods))));
    DivNonNegative(total, periods as real);
    total / periods as real
  }

  /** `avg_loss`, likewise. */
  function AvgLoss(s: seq<real>, periods: nat): (l: real)
    requires periods >= 1
    ensures l >= 0.0
  {
    var total := Sum(Losses(Diffs(TrailingWindow(s, periods))));
    SumNonNegative(Losses(Diffs(TrailingWindow(s, periods))));
    DivNonNegative(total, periods as real);
    total / periods as real
  }

  /** The value of an RSI evaluation. NaN is the IEEE 754 quotient 0/0 that
      arises when the window has neither gains nor losses. */
  datatype Rsi = Value(v: real) | NaN

  /** `100 - 100/(1 + avg_gain/avg_loss)` with the unguarded division evaluated as
      IEEE 754 does: a zero loss with a positive gain gives +inf, hence 100; a zero
      loss with a zero gain gives NaN. */
  function RsiFromAverages(avgGain: real, avgLoss: real): (r: Rsi)
    requires avgGain >= 0.0 && avgLoss >= 0.0
    ensures r.NaN? <==> avgGain == 0.0 && avgLoss == 0.0
    ensures r.Value? ==> 0.0 <= r.v <= 100.0
    ensures avgLoss > 0.0 ==> r.Value? && r.v < 100.0
    ensures avgLoss == 0.0 && avgGain > 0.0 ==> r == Value(100.0)
  {
    if avgLoss > 0.0 then
      var rs := avgGain / avgLoss;
      DivNonNegative(avgGain, avgLoss);
      DivPositive(100.0, 1.0 + rs);
      assert 100.0 / (1.0 + rs) <= 100.0;
      Value(100.0 - 100.0 / (1.0 + rs))
    else if avgGain > 0.0 then Value(100.0)
    else NaN
  }

  /** With a positive average loss the RSI is the gains' share of all movement, in percent. */
  lemma RsiIsGainShare(avgGain: real, avgLoss: real)
    requires avgGain >= 0.0 && avgLoss > 0.0
    ensures RsiFromAverages(avgGain, avgLoss).v * (avgGain + avgLoss) == 100.0 * avgGain
  {
    var rs := avgGain / avgLoss;
    assert avgGain + avgLoss == (1.0 + rs) * avgLoss;
    DivNonNegative(avgGain, avgLoss);
    assert (100.0 / (1.0 + rs)) * (1.0 + rs) == 100.0;
  }

  /** No gains and some losses: the RSI is 0. */
  lemma RsiOfNoGain(avgLoss: real)
    requires avgLoss > 0.0
    ensures RsiFromAverages(0.0, avgLoss) == Value(0.0)
  {
    assert 0.0 / avgLoss == 0.0;
  }

  /** RSI of the series evaluated at its last date, over `periods` steps. */
  function RelativeStrength(s: seq<real>, periods: nat): (r: Rsi)
    requires periods >= 1
    ensures r.NaN? <==> AvgGain(s, periods) == 0.0 && AvgLoss(s, periods) == 0.0
    ensures r.Value? ==> 0.0 <= r.v <= 100.0
    ensures AvgLoss(s, periods) == 0.0 && AvgGain(s, periods) > 0.0 ==> r == Value(100.0)
  {
    RsiFromAverages(AvgGain(s, periods), AvgLoss(s, periods))
  }

  /** With a positive average loss the RSI is a number in [0, 100). */
  lemma RsiRange(s: seq<real>, periods: nat)
    requires periods >= 1
    requires AvgLoss(s, periods) > 0.0
    ensures RelativeStrength(s, periods).Value?
    ensures 0.0 <= RelativeStrength(s, periods).v < 100.0
  {
  }

  /** Average gain minus average loss is the window's first price minus its
      last, divided by `periods`. */
  lemma AveragesTelescope(s: seq<real>, periods: nat)
    requires periods >= 1 && |s| > 0
    ensures var w := TrailingWindow(s, periods);
      AvgGain(s, periods) - AvgLoss(s, periods) == (w[0] - w[|w| - 1]) / periods as real
  {
    var w := TrailingWindow(s, periods);
    var d := Diffs(w);
    GainLossTelescope(w);
    DivideDifference(Sum(Gains(d)), Sum(Losses(d)), periods as real);
  }

  predicate StrictlyIncreasing(w: seq<real>)
  {
    forall k, m :: 0 <= k < m < |w| ==> w[k] < w[m]
  }

  predicate StrictlyDecreasing(w: seq<real>)
  {
    forall k, m :: 0 <= k < m < |w| ==> w[k] > w[m]
  }

  /** A strictly rising window has only losses: every Diff is negative. */
  lemma RisingWindowSums(w: seq<real>)
    requires |w| >= 2 && StrictlyIncreasing(w)
    ensures Sum(Gains(Diffs(w))) == 0.0 && Sum(Losses(Diffs(w))) > 0.0
  {
    var d := Diffs(w);
    forall k | 0 <= k < |d|
      ensures Gains(d)[k] == 0.0 && Losses(d)[k] > 0.0
    {
      assert w[k] < w[k + 1];
      assert d[k] < 0.0;
    }
    SumConstant(Gains(d), 0.0);
    SumPositive(Losses(d));
  }

  /** A strictly falling window has only gains: every Diff is positive. */
  lemma FallingWindowSums(w: seq<real>)
    requires |w| >= 2 && StrictlyDecreasing(w)
    ensures Sum(Gains(Diffs(w))) > 0.0 && Sum(Losses(Diffs(w))) == 0.0
  {
    var d := Diffs(w);
    forall k | 0 <= k < |d|
      ensures Gains(d)[k] > 0.0 && Losses(d)[k] == 0.0
    {
      assert w[k] > w[k + 1];
      assert d[k] > 0.0;
    }
    SumPositive(Gains(d));
    SumConstant(Losses(d), 0.0);
  }

  /** Because Diff is previous minus current, a strictly rising window has
      no gains and only losses, so its RSI is 0. */
  lemma RisingWindowRsiZero(s: seq<real>, periods: nat)
    requires periods >= 1
    requires |TrailingWindow(s, periods)| >= 2
    requires StrictlyIncreasing(TrailingWindow(s, periods))
    ensures RelativeStrength(s, periods) == Value(0.0)
  {
    var d := Diffs(TrailingWindow(s, periods));
    RisingWindowSums(TrailingWindow(s, periods));
    var p := periods as real;
    DivPositive(Sum(Losses(d)), p);
    ZeroDivided(p);
    assert AvgGain(s, periods) == 0.0;
    RsiOfNoGain(AvgLoss(s, periods));
  }

  /** A strictly falling window has no losses, so the unguarded division
      yields +inf and the RSI is 100. */
  lemma FallingWindowRsiHundred(s: seq<real>, periods: nat)
    requires periods >= 1
    requires |TrailingWindow(s, periods)| >= 2
    requires StrictlyDecreasing(TrailingWindow(s, periods))
    ensures RelativeStrength(s, periods) == Value(100.0)
  {
    var d := Diffs(TrailingWindow(s, periods));
    FallingWindowSums(TrailingWindow(s, periods));
    var p := periods as real;
    DivPositive(Sum(Gains(d)), p);
    ZeroDivided(p);
    assert AvgLoss(s, periods) == 0.0;
  }

  /** A window without movement (or with a single price) has neither gains
      nor losses: 0/0, NaN. */
  lemma FlatWindowRsiNaN(s: seq<real>, periods: nat)
    requires periods >= 1
    requires forall k :: 0 <= k < |TrailingWindow(s, periods)| ==> TrailingWindow(s, periods)[k] == TrailingWindow(s, periods)[0]
    ensures RelativeStrength(s, periods) == NaN
  {
    var w := TrailingWindow(s, periods);
    var d := Diffs(w);
    forall k | 0 <= k < |d|
      ensures d[k] == 0.0
    {
      assert w[k] == w[0] && w[k + 1] == w[0];
    }
    SumConstant(Gains(d), 0.0);
    SumConstant(Losses(d), 0.0);
    var p := periods as real;
    assert Sum(Gains(d)) == 0.0 && Sum(Losses(d)) == 0.0;
    ZeroDivided(p);
    assert AvgGain(s, periods) == Sum(Gains(d)) / p;
    assert AvgLoss(s, periods) == Sum(Losses(d)) / p;
  }

  /** The Gain and Loss columns of the local frame `relative_strength_index`
      builds over a window: Diff is computed once, copied into both columns,
      and each copy is masked in place (negative gains and positive losses
      set to 0, then the losses negated). */
  method GainLossColumns(w: seq<real>) returns (gain: array<real>, loss: array<real>)
    ensures fresh(gain) && fresh(loss)
    ensures gain[..] == Gains(Diffs(w))
    ensures loss[..] == Losses(Diffs(w))
  {
    ghost var d := Diffs(w);
    // shift(1) then dropna: the first row has no previous price and is dropped
    var n := if |w| == 0 then 0 else |w| - 1;
    var diff := new real[n];
    forall k | 0 <= k < n {
      diff[k] := w[k] - w[k + 1];
    }
    assert diff[..] == d;
    gain := new real[n];
    loss := new real[n];
    forall k | 0 <= k < n {
      gain[k] := diff[k];
    }
    forall k | 0 <= k < n {
      loss[k] := diff[k];
    }
    forall k | 0 <= k < n && gain[k] < 0.0 {
      gain[k] := 0.0;
    }
    assert gain[..] == Gains(d);
    forall k | 0 <= k < n && loss[k] > 0.0 {
      loss[k] := 0.0;
    }
    forall k | 0 <= k < n {
      loss[k] := loss[k] * -1.0;
    }
  }

  /** `relative_strength_index`: keeps the trailing window, builds its Gain and
      Loss columns, averages their sums over `periods` and combines the averages. */
  method RelativeStrengthIndex(prices: seq<real>, periods: nat) returns (rsi: Rsi)
    requires periods >= 1
    ensures rsi == RelativeStrength(prices, periods)
  {
    var w := TrailingWindow(prices, periods);
    var gain, loss := GainLossColumns(w);
    var avgGain := Sum(gain[..]) / periods as real;
    var avgLoss := Sum(loss[..]) / periods as real;
    assert avgGain == AvgGain(prices, periods);
    assert avgLoss == AvgLoss(prices, periods);
    rsi := RsiFromAverages(avgGain, avgLoss);
  }
}
