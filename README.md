# Robinhood-Trading indicators and RSI signal generator, in Dafny

This project models the numeric core of zloeffle/Robinhood-Trading. It has two parts.

- The indicator library (`utilities.py`): daily and weekly percentage change,
  daily return, simple and exponential moving averages, MACD, the golden
  cross and the relative strength index (RSI).
- The signal generator `Trader.generate_features` (`trade.py`). For every
  date of a range it recomputes the RSI on the prices up to that date, turns
  it into SELL (-1), BUY (1) or HOLD (0), and records the RSI and the adjusted
  close of that date.

A price series is the Adj Close column, a `seq<real>`, and a date is an index
into it. All arithmetic is over exact reals.

Files and modules:

- `series.dfy`, module `Series`: `Sum` over a series, its lemmas, and small
  real-arithmetic facts.
- `utilities.dfy`, module `Utilities`: the indicators. They are functions,
  except for two methods:
  - MACD, which adds its columns one after another;
  - RSI, which builds its Gain and Loss columns as arrays and masks them in
    place with `forall` assignments, as the pandas masked assignments do.
- `trade.dfy`, module `Trade`: the classification and the per-date loop.
  - `ScoreRows` is the loop.
  - `GenerateFeatures` builds the result table around it.

Two behaviours of the code are modelled as written.

- The difference at `utilities.py:130` is previous price minus current price.
  A rising window therefore has only "losses" and an RSI of 0, so it gives BUY.
  A falling window gives 100, so it gives SELL. This is the opposite of the
  usual RSI convention, in which a steadily rising series nears 100.
  `RisingWindowRsiZero` and `TwentyRisingDays` state this.
- The division by `avg_loss` at `utilities.py:140` has no guard.
  - It is modelled as IEEE 754 division evaluates it.
  - A zero loss with a positive gain gives +inf, so the RSI is 100.
  - A zero loss with a zero gain gives 0/0, so the RSI is NaN (datatype
    `Rsi = Value(v) | NaN`).
  - A NaN fails both comparisons in `trade.py:37-42` and gives HOLD.
  - The code defines no other sentinel, so the model adds none.

## Model

`Gains` and `Losses` (the Gain and Loss columns, utilities.py:131-135), `Growth`, `GrowthLast`, `WindowMean`, `WindowMeanOfFront`, `EmaStepWithin`, `NonZeroDenominators`, `StrictlyIncreasing`, `StrictlyDecreasing`, `HistoryRsi`, `Column` and the `Series` lemmas are helpers without rows of their own. GainLossSplit and GainLossColumns state what the Gain and Loss columns hold.

| member | source | states |
|---|---|---|
| Utilities.DailyPctChange | utilities.py:6-11 | one change per pair of consecutive prices (n-1 for n prices, the first day dropped); applying change i to price i gives price i+1 |
| Utilities.DailyChangesCompound | utilities.py:8-9 | compounding the daily changes from day j up to day k carries the price of day j to the price of day k |
| Utilities.CompoundChain | utilities.py:8 | for any run of changes that each carry one price to the next, the product of (1 + change) from j to k carries a[j] to a[k] |
| Utilities.WeeklyPctChange | utilities.py:14-18 | no result exactly when fewer than 6 prices exist (`iloc[-6]` raises); otherwise applying the change to the price six rows back gives the last price |
| Utilities.WeeklyCompoundsDaily | utilities.py:14-18 | the weekly change is the compound of the last five daily changes, minus 1 |
| Utilities.DailyReturn | utilities.py:29-31 | one entry per session; open plus the entry is the close |
| Utilities.SimpleMovingAvg | utilities.py:33-36 | same length as the input; 0 before the window fills (index < w-1); from w-1 on, the mean of the w prices ending at that date |
| Utilities.WindowMeanOfConstant | utilities.py:34 | a window of equal prices has that price as its mean |
| Utilities.SmaOfConstant | utilities.py:33-36 | for a constant series every entry from index w-1 on is that constant |
| Utilities.SmaSlides | utilities.py:34 | moving one date forward adds (entering price - leaving price) / w |
| Utilities.Alpha | utilities.py:39 | the smoothing factor 2/(span+1) lies in (0, 1] |
| Utilities.ExponentialMovingAverage | utilities.py:38-40 | defined at every date; seeded by the first price; each value is alpha * price + (1 - alpha) * previous value |
| Utilities.EmaOfConstant | utilities.py:39 | a constant series has itself as exponential moving average |
| Utilities.EmaWithinBounds | utilities.py:39 | every average lies between any lower and upper bound of the prices |
| Utilities.Macd | utilities.py:49-72 | all three columns have the input's length (the dropna removes nothing); line = EMA12 - EMA26 at every date; signal = span-9 EMA of the line; indicator true exactly when line > signal |
| Utilities.FlatMacdLine | utilities.py:51-60 | on a constant series a line meeting Macd's contract is 0 at every date, and so is its span-9 average, the signal; hence the indicator is false everywhere |
| Utilities.GoldenCross | utilities.py:77-86 | no result for an empty series (`iloc[-1]` raises); otherwise only -1 or 1, and -1 exactly when the last SMA50 <= the last SMA200 |
| Utilities.GoldenCrossShortHistory | utilities.py:79-86 | with 1 to 49 prices both averages are 0-filled and the result is -1 |
| Utilities.GoldenCrossWithout200DayHistory | utilities.py:79-86 | with 50 to 199 positive prices only SMA200 is 0-filled and the result is 1 |
| Utilities.GoldenCrossFullHistory | utilities.py:79-86 | with 200 prices or more the result is 1 exactly when the trailing 50-day mean exceeds the trailing 200-day mean |
| Utilities.TrailingWindow | utilities.py:126 | keeps exactly min(n, periods + 1) prices, namely the last ones |
| Utilities.Diffs | utilities.py:127-130 | one Diff per consecutive pair after the dropped first row; each next price is the previous price minus the Diff |
| Utilities.Gain | utilities.py:131-133 | the masked Diff is non-negative; it equals the Diff when that is non-negative and is 0 when the Diff is negative |
| Utilities.Loss | utilities.py:132-135 | the masked, negated Diff is non-negative; it equals minus the Diff when that is non-positive and is 0 when the Diff is positive |
| Utilities.GainLossSplit | utilities.py:130-135 | every gain and loss is >= 0, never both positive, and gain - loss = previous - current |
| Utilities.GainsMinusLosses | utilities.py:131-137 | total gain minus total loss is the sum of the Diffs |
| Utilities.DiffsTelescope | utilities.py:127-130 | the Diffs of a window sum to its first price minus its last |
| Utilities.GainLossTelescope | utilities.py:126-138 | total gain minus total loss of a window is its first price minus its last |
| Utilities.AvgGain | utilities.py:137 | the average gain is non-negative |
| Utilities.AvgLoss | utilities.py:138 | the average loss is non-negative |
| Utilities.AveragesTelescope | utilities.py:126-138 | average gain minus average loss is (first window price - last window price) / periods |
| Utilities.RsiFromAverages | utilities.py:140 | NaN exactly when both averages are 0; every value lies in [0, 100]; a positive loss gives a value below 100; a zero loss with a positive gain gives 100 |
| Utilities.RsiIsGainShare | utilities.py:140 | with a positive loss, RSI * (gain + loss) = 100 * gain |
| Utilities.RsiOfNoGain | utilities.py:140 | no gain and a positive loss give RSI 0 |
| Utilities.RsiRange | utilities.py:137-140 | a positive average loss gives a number in [0, 100) |
| Utilities.RisingWindowSums | utilities.py:130-135 | a strictly rising window has total gain 0 and a positive total loss |
| Utilities.FallingWindowSums | utilities.py:130-135 | a strictly falling window has a positive total gain and total loss 0 |
| Utilities.RisingWindowRsiZero | utilities.py:125-141 | an RSI over a strictly rising window is 0 |
| Utilities.FallingWindowRsiHundred | utilities.py:125-141 | an RSI over a strictly falling window is 100 (the unguarded division gives +inf) |
| Utilities.FlatWindowRsiNaN | utilities.py:125-141 | an RSI over a window without movement is NaN (0/0) |
| Utilities.GainLossColumns | utilities.py:130-135 | the Gain and Loss arrays, after the copies and the in-place masking, hold exactly the masked Diffs of the window |
| Utilities.RelativeStrength | utilities.py:125-141 | the RSI of a series at its last date: NaN exactly when the average gain and the average loss are both 0; every value lies in [0, 100]; a zero average loss with a positive average gain gives 100 |
| Utilities.RelativeStrengthIndex | utilities.py:125-141 | the array-based computation returns exactly the RSI function of the prices |
| Trade.Classify | trade.py:37-42 | signal in {-1, 0, 1}; -1 exactly when RSI >= 70; 1 exactly when RSI <= 30; a NaN gives 0 |
| Trade.ClassifyAntitone | trade.py:37-42 | a higher RSI never gives a more bullish signal |
| Trade.ColumnAt | trade.py:34-35 | row k of a column filled row after row holds the indicator of the prices up to date start + k |
| Trade.RowRsi | trade.py:35 | the RSI of a row, computed by the array-based method, is the RSI of the prices up to that row's date |
| Trade.RsiColumnRows | trade.py:34-35 | every row of the RSI column is the RSI of the prices up to and including its date |
| Trade.ScoreRows | trade.py:34-43 | one row per date; the RSI column is the column filled row after row with the RSI of the prices up to each date; each signal classifies its row's RSI |
| Trade.GenerateFeatures | trade.py:28-48 | the dates are exactly those in [start, end] that the series has, in order; the RSI column is the row-after-row column, and each row's RSI is the RSI of the prices up to that date; the signal classifies that same RSI; ADJ CLOSE is that date's price |
| Trade.NoLookAhead | trade.py:34-35 | two series that agree up to the last date of the range give every row of the range's column the same value, whatever follows |
| Trade.TruncationKeepsRows | trade.py:34-46 | cutting the series off after the last date of the range leaves every row's RSI, signal and adjusted close unchanged |
| Trade.RsiSeesOnlyFifteenPrices | trade.py:35 | once 15 prices exist, a date's RSI is fixed by the 15 prices ending at it |
| Trade.TwentyRisingDays | trade.py:35-40 | twenty days rising by 1.00 from 100.00 give RSI 0 and signal BUY on the last day |

## Left out

- Data retrieval and brokerage: `yf.download` (trade.py:29), the Robinhood client and its imports. The price series is a parameter. Dates are indices into it, so `loc[start:end]` becomes the index range [start, end] clipped to the series.
- Plotting in `macd` and `boiler_bands`: display side effects only.
- `boiler_bands`: not modelled. It needs a rolling standard deviation (a square root), and some of its pandas calls have unclear meaning.
- `monthly_pct_change`: not modelled. Business-month-end resampling is calendar library behaviour.
- The write-back of `daily_pct_change` into the caller's frame (utilities.py:10): only the returned series is modelled.
- `Trader.__init__`'s unused fields and the `__main__` driver.
- GainLossColumns: assumes the masked writes at utilities.py:133-134 (`df['Gain'][df['Gain'] < 0] = 0`) reach the local frame, as chained assignment does in pandas without copy-on-write. Under copy-on-write those writes are lost and the columns keep the unmasked Diffs; the model does not capture that behaviour.
- All floating-point rounding and float behaviour. The model computes over exact reals.
- WeeklyPctChange: does not round to 3 decimals (utilities.py:17).
- SimpleMovingAvg: does not round to 2 decimals (utilities.py:36). GoldenCross therefore compares unrounded averages, so a tie after rounding in the source can be a strict inequality here.
- ExponentialMovingAverage: does not round to 2 decimals (utilities.py:40). Macd therefore subtracts unrounded averages.
- RelativeStrengthIndex: does not round to 3 decimals (utilities.py:140). Classify therefore compares unrounded values with 70 and 30.
- GenerateFeatures: does not apply the final 2-decimal rounding (trade.py:47).
- DailyPctChange: requires every price but the last to be non-zero. The source would yield inf, or NaN that dropna then removes.
- WeeklyPctChange: requires a non-zero price six rows back, for the same reason.
- SimpleMovingAvg: requires a window of at least 1. pandas accepts a window of 0, whose windows are empty and whose means `fillna(0)` turns into all zeros; no caller passes it (utilities.py:79-80 pass 50 and 200).
- ExponentialMovingAverage: requires a span of at least 1, which is what pandas' `ewm` demands.
- RelativeStrengthIndex: requires periods >= 1, since periods = 0 would divide by zero.
- Rows with missing values in other columns are not modelled. The `dropna` calls consider every column, but only the Adj Close column is modelled, and its only NaN is the one produced by `shift(1)`.
- Macd: its contract leaves out the constant-series case. FlatMacdLine proves that case from Macd's contract.
