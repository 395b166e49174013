# Algorithmic trading backend — verified model

This project models the rule engines of a crypto-trading backend in Dafny:

- the trade record and its P&L arithmetic;
- the EMA momentum strategy that turns bars into entry intents and exit decisions;
- the risk gate that admits or rejects trades and tracks open positions and the daily P&L;
- the backtesting engine: a single-position bar loop that moves capital, closes at the end of the series, computes ledger and drawdown metrics, and grid-searches strategy parameters;
- the historical data processor: validation, cleaning, normalisation, indicators, the cache key and the processing pipeline with its cache;
- the dashboard's trade-history summaries: daily P&L, ROI distribution, exposure per symbol, drawdowns and drawdown periods;
- the notification service's gating (one-minute rate limit, per-key cooldown, CRITICAL bypass), its trade-alert format and its cooldown keys.

One Dafny module per source file:

| file | module | form |
|---|---|---|
| common.dfy | `Common` | Option/Result, timestamps in microseconds, sums and means, `%Y%m%d` and ISO dates, ASCII case mapping |
| trade.dfy | `TradeModel` | class `Trade`; `CloseTrade` and `UpdateStatus` assign fields in place |
| strategy.dfy | `Strategy` | class `MomentumStrategy` (its `currentPosition` is overwritten); the signal maths as functions |
| risk_manager.dfy | `Risk` | class `RiskManager` with the history list, the open-positions map, the daily P&L and the last reset as fields |
| engine_metrics.dfy | `BacktestMetrics` | the equity curve, trade metrics and drawdown metrics as functions |
| engine.dfy | `Backtesting` | class `BacktestingEngine`; the bar loop and the grid search as methods with loops |
| data_processor.dfy | `DataProcessing` | frames as rows of optional cells; validation as an appending method; class `HistoricalDataProcessor` with its cache as a map |
| dashboard.dfy | `Dashboard` | every helper is a method with a loop, proved against a reference function |
| notification.dfy | `Notification` | class `NotificationService` with the message history and the cooldown map as fields |

Modelling conventions:

- Prices, sizes and P&L are `real`. Python's `None` and NaN become `Option`.
- Timestamps are integers counting microseconds. The current time is always an explicit `now` parameter.
- Where the code divides numpy values by zero, the model spells out the case. The engine's sizing yields an error rather than an infinite size. `Risk.StopDistanceExceeds` and `Strategy.SpreadExceeds` follow numpy's `x/0` (a positive infinity exceeds the limit; a negative infinity or NaN does not), because the engine calls them with numpy floats from the signal frame. A plain Python float with a zero price would raise there instead. Where a Python float division by zero would raise, the model returns `None`.

Notes on what the code does:

- The indicator warm-up drops 49 rows, not 50. `rolling(50)` first has a full window at index 49.
- Cleaning is not idempotent. The clip bounds are recomputed from the already clipped data.
- `max_gap_threshold` is configured but never used.
- The cache key depends only on the symbol and the two calendar days. It ignores the time of day and the data.
- Validation only reports issues. It never raises and never stops the pipeline.

## Model

| member | source | states |
|---|---|---|
| Common.Mean | backend/app/core/backtesting/engine.py:225-234 | the mean of a non-empty sequence times its length is its sum; an empty sequence has no mean (numpy's NaN) |
| Common.Digits | backend/app/core/backtesting/data_processor.py:230 | zero-padded decimal field of exactly `width` characters, every one a digit |
| Common.DigitsRoundTrip | backend/app/core/backtesting/data_processor.py:230 | reading the padded digits back gives the number modulo 10^width |
| Common.Yyyymmdd | backend/app/core/backtesting/data_processor.py:230 | `strftime('%Y%m%d')` is eight digits, and its three fields read back as the year (modulo 10^4), month and day of the instant's calendar day |
| Common.IsoDate | backend/app/api/endpoints/dashboard.py:250 | `date().isoformat()` is ten characters with dashes at 4 and 7, and its three fields read back as the year (modulo 10^4), month and day of the instant's calendar day |
| Common.SameDaySameDate | backend/app/api/endpoints/dashboard.py:250 | two instants on the same calendar day render to the same `%Y%m%d` and ISO date text |
| Common.Upper | backend/app/services/notification.py:122 | `str.upper()` on ASCII letters: keeps the length and upper-cases each character |
| Common.Lower | backend/app/services/notification.py:302 | `str.lower()` on ASCII letters: keeps the length and lower-cases each character |
| Common.LowerOfUpper | backend/app/services/notification.py:302 | on ASCII letters, lower-casing an upper-cased name gives the lower-cased name, so case never matters to a key |
| TradeModel.PriceMove | backend/app/models/trade.py:113-115 | the signed price move: exit minus entry for a buy, entry minus exit for a sell |
| TradeModel.Trade.constructor | backend/app/models/trade.py:35-70 | a new trade holds the given fields and has no exit, no realized P&L, no error and no update time |
| TradeModel.Trade.FeesOrZero | backend/app/models/trade.py:88 | `fees or 0`: the fee when one is set, else zero |
| TradeModel.Trade.Duration | backend/app/models/trade.py:72-77 | defined exactly when the exit time is set, and then equal to exit minus entry in seconds |
| TradeModel.Trade.IsActive | backend/app/models/trade.py:79-82 | active iff the status is neither closed, cancelled nor failed (that is, pending or open) |
| TradeModel.Trade.CurrentPnl | backend/app/models/trade.py:84-89 | defined iff realized P&L is set, and then realized P&L minus fees |
| TradeModel.Trade.RoiPercentage | backend/app/models/trade.py:91-98 | defined iff realized P&L is set and entry×size is positive, and then realized P&L over entry×size, times 100 |
| TradeModel.Trade.UnrealizedPnl | backend/app/models/trade.py:100-117 | realized P&L (or 0) for an inactive trade; the signed price move times size minus fees for an active buy or sell |
| TradeModel.Trade.UpdateStatus | backend/app/models/trade.py:119-132 | sets the status and the update time, replaces the error message only with a non-empty one, and changes nothing else |
| TradeModel.Trade.CloseTrade | backend/app/models/trade.py:134-152 | sets the exit price and time (`now` when none is given) and status closed; the realized P&L equals what `UnrealizedPnl` at that price gave just before closing an active trade |
| Strategy.Alpha | backend/app/core/trading/strategy.py:49 | the smoothing factor 2/(span+1) of a span of at least 1 lies in (0, 1] |
| Strategy.Ema | backend/app/core/trading/strategy.py:38-49 | `ewm(span, adjust=False)`: one value per price, the first equal to the first price, each later one α·price + (1−α)·previous |
| Strategy.EmaRecurrenceAll | backend/app/core/trading/strategy.py:49 | the recurrence holds at every position, not just the last |
| Strategy.EmaWithinRange | backend/app/core/trading/strategy.py:49 | every EMA value lies between bounds that contain all the prices so far |
| Strategy.EmaOfConstant | backend/app/core/trading/strategy.py:49 | the EMA of a constant series is that constant |
| Strategy.Sign | backend/app/core/trading/strategy.py:68-70 | the trend signal is 1 iff short EMA > long EMA, −1 iff short < long, else 0 |
| Strategy.Closes | backend/app/core/trading/strategy.py:64-65 | the close column, bar by bar |
| Strategy.SignalRows | backend/app/core/trading/strategy.py:61-75 | keeps each bar, adds both EMAs and the signal, and sets the change to signal minus previous signal (none on the first row) |
| Strategy.SpanError | backend/app/core/trading/strategy.py:38-49 | an error exactly when either EMA span is below 1, the spans pandas refuses |
| Strategy.MomentumStrategy.constructor | backend/app/core/trading/strategy.py:27-36 | stores the parameters and starts with no position |
| Strategy.MomentumStrategy.CalculateEma | backend/app/core/trading/strategy.py:38-49 | fails iff the span is below 1; otherwise the EMA with α = 2/(span+1), same length, first value the first price, then the recurrence |
| Strategy.MomentumStrategy.GenerateSignals | backend/app/core/trading/strategy.py:51-75 | same rows and quote columns; per row the two EMAs; the signal sign of their difference; the change is none on row 0, within −2..2, nonzero exactly where the signal changes |
| Strategy.MomentumStrategy.SignalFrameFor | backend/app/core/trading/strategy.py:51-75 | the frame a backtest runs on is exactly `GenerateSignals` of the strategy's parameters and the data: fails iff a span is invalid, keeps the row count and the last bar |
| Strategy.MomentumStrategy.CalculatePositionSize | backend/app/core/trading/strategy.py:77-89 | defined iff the price is nonzero; then size × price = capital × pct/100 |
| Strategy.MomentumStrategy.ValidateTradeConditions | backend/app/core/trading/strategy.py:91-116 | low volume fails first; the spread fails only with quote columns present and enough volume; otherwise valid |
| Strategy.MomentumStrategy.GetTradeSignal | backend/app/core/trading/strategy.py:118-163 | an intent iff index ≥ 1, the change is nonzero and the conditions pass; buy iff the change is positive; entry at the close, with target and stop at the close scaled by the percentages, mirrored for sells |
| Strategy.MomentumStrategy.ShouldExitPosition | backend/app/core/trading/strategy.py:165-201 | no position gives "No position"; otherwise the stop is checked first, then the target, then an opposing signal, else hold, with sells mirrored |
| Strategy.MomentumStrategy.UpdatePosition | backend/app/core/trading/strategy.py:203-210 | replaces the current position wholesale |
| Strategy.MomentumStrategy.OptimizeParameters | backend/app/core/trading/strategy.py:212-235 | exactly the five tunable parameter names, each mapped to its current value |
| Strategy.IntentBracketsPrice | backend/app/core/trading/strategy.py:150-161 | with positive percentages and a positive close, stop < price < target for a buy and target < price < stop for a sell |
| Strategy.StopWinsTies | backend/app/core/trading/strategy.py:184-188 | a bar that reaches both the stop and the target of a buy exits on the stop |
| Strategy.BuyOnlyAtUpwardCross | backend/app/core/trading/strategy.py:129-148 | a buy intent only arises at index ≥ 1, where the signal rose and the short EMA is at least the long EMA |
| Risk.FirstFailureCharacterized | backend/app/core/trading/risk_manager.py:115-142 | acceptance iff every check passes; a rejection names a check that fails and that every earlier check passed |
| Risk.DecideIsFirstFailure | backend/app/core/trading/risk_manager.py:117-140 | the nested rule chain is the first failure over the six checks in their fixed order |
| Risk.DailyQuotaBoundary | backend/app/core/trading/risk_manager.py:117-119 | one trade below the daily quota an otherwise good trade passes; at the quota it is rejected for the daily limit |
| Risk.AcceptedPassesAll | backend/app/core/trading/risk_manager.py:117-142 | an accepted trade is under both counts, within the size bounds, within the stop distance, and has reward at least 1.5× a nonzero risk |
| Risk.VolatilityScalar | backend/app/core/trading/risk_manager.py:75-77 | defined iff the threshold is nonzero; at least 0.2, and at most 1 for non-negative volatility and a positive threshold |
| Risk.Recent | backend/app/core/trading/risk_manager.py:53-57 | keeps exactly the history entries newer than the cutoff, never more |
| Risk.ExposureRemove | backend/app/core/trading/risk_manager.py:179-182 | total exposure is the removed position's size × price plus the exposure of the rest, whichever position is taken out |
| Risk.ExposureUpsert | backend/app/core/trading/risk_manager.py:152-158 | upserting a position changes the total exposure by its new notional minus any old one |
| Risk.RiskManager.constructor | backend/app/core/trading/risk_manager.py:30-47 | empty history, no open positions, zero daily P&L, last reset now |
| Risk.RiskManager.CalculatePositionSize | backend/app/core/trading/risk_manager.py:60-92 | undefined only for a zero threshold; base = min(1% of capital, max size) × scalar; 0 below the minimum size, else min(base, max size) |
| Risk.PositionSizeBounds | backend/app/core/trading/risk_manager.py:75-92 | the size lies in [0, max size], never exceeds 1% of capital, and a nonzero size is at least 0.2 × base and at least the minimum size |
| Risk.RiskManager.ResetDailyMetrics | backend/app/core/trading/risk_manager.py:49-58 | after more than a day: zero daily P&L, only history newer than one day, last reset now; otherwise nothing changes |
| Risk.RiskManager.ValidateTrade | backend/app/core/trading/risk_manager.py:94-142 | runs the daily reset, then returns the first failing check over the post-reset counts; open positions and history are otherwise untouched |
| Risk.RiskManager.UpdatePosition | backend/app/core/trading/risk_manager.py:144-163 | closing a known id adds its realized P&L (or 0) and removes it; closing an unknown id changes nothing; another status upserts; every call appends one history entry |
| Risk.RiskManager.TotalExposure | backend/app/core/trading/risk_manager.py:179-182 | the loop's sum equals Σ size × price over the open positions |
| Risk.RiskManager.CheckRiskLimits | backend/app/core/trading/risk_manager.py:165-196 | after the reset: the drawdown limit first, then exposure, then volatility, this last only with an exchange client and a reading; feed errors are swallowed |
| Risk.RiskManager.GetRiskMetrics | backend/app/core/trading/risk_manager.py:198-220 | after the reset: the current counts and exposure; remaining exposure = max size − exposure; remaining trades = quota − history length |
| Backtesting.Pnls | backend/app/core/backtesting/engine.py:218-249 | the trades' realized P&Ls, in ledger order |
| Backtesting.ProductMembers | backend/app/core/backtesting/engine.py:411-417 | every combination picks one value from each parameter's list, in key order |
| Backtesting.ProductSize | backend/app/core/backtesting/engine.py:411-417 | the Cartesian product has the product of the list lengths as its size |
| Backtesting.Zip | backend/app/core/backtesting/engine.py:419 | `dict(zip(keys, values))`: the keys of the shorter pairing, each mapped to its value |
| Backtesting.ParamsFromDict | backend/app/core/backtesting/engine.py:420 | `StrategyParameters(**d)`: fails iff an unknown name is given; each field takes the given value or its default |
| Backtesting.BestSoFar | backend/app/core/backtesting/engine.py:426-430 | the best score and its index; no index exactly when nothing beat −∞ |
| Backtesting.FirstBestCharacterized | backend/app/core/backtesting/engine.py:426-432 | no winner iff every score is −∞; nothing beats the best; the winner strictly beats every earlier score and no later score beats it |
| Backtesting.BacktestingEngine.constructor | backend/app/core/backtesting/engine.py:43-61 | stores the collaborators and parameters; no trades and no equity curve |
| Backtesting.SlippageIsAdverse | backend/app/core/backtesting/engine.py:63-83 | with slippage ≥ 0 a buy fills at or above the price and a sell at or below; with slippage off both fill at the price |
| Backtesting.BacktestingEngine.PositionSizing | backend/app/core/backtesting/engine.py:85-116 | fails iff the slipped price is zero; returns the slipped price; the size is the fee-adjusted raw size, floored to an integer when fractional sizes are off |
| Backtesting.BacktestingEngine.ExecuteTrade | backend/app/core/backtesting/engine.py:118-162 | no trade iff the size is ≤ 0; else a fresh open trade at the slipped price, storing the stop and target percentages, with fees = size × entry × fee rate |
| Backtesting.BacktestingEngine.OnHeldBar | backend/app/core/backtesting/engine.py:299-324 | records the bar's equity sample; exits iff the exit rules fire, then closes at the slipped close, credits size × close and appends the trade |
| Backtesting.BacktestingEngine.OnFlatBar | backend/app/core/backtesting/engine.py:326-361 | without a signal nothing changes, not even the risk manager; with one, the risk checks run in `validate_trade`'s fixed order (`Risk.CheckOrder`) on the bar's intent and the configured share of capital, the daily reset prunes the history when due, the run fails iff the checks pass and sizing fails, a trade opens iff the checks pass and the sized amount is positive, and then it has exactly that size, is fresh and open, and capital drops by its entry cost plus fee |
| Backtesting.BacktestingEngine.LedgerAppend | backend/app/core/backtesting/engine.py:322 | appending a closed trade keeps every ledger entry closed and stamped with the engine's stop and target |
| Backtesting.BacktestingEngine.Step | backend/app/core/backtesting/engine.py:297-361 | one bar: at most one equity sample, stamped with the bar's time; at most one trade appended, the held one, closed at this bar when the exit rules fire; a new position is fresh and entered at this bar on a signal; flat without a signal keeps capital, curve and ledger; without a strategy position the ledger is unchanged; and it keeps the run's trace (every trade entered on a signal bar and closed on an exit bar, every sample on a later bar) |
| Backtesting.BacktestingEngine.RunBars | backend/app/core/backtesting/engine.py:293-361 | the loop from bar 1: fewer samples and trades than bars, distinct sample times, a closed ledger, no trade closed in the loop while the strategy holds no position, every trade entered on a signal bar and exited on an exit bar, every sample on a bar after the first, and no trades or samples at all when the frame has no entry signal |
| Backtesting.BacktestingEngine.CloseAtEnd | backend/app/core/backtesting/engine.py:363-370 | the open position closes at the last bar's time and close, slipped against its holder, after every earlier trade |
| Backtesting.BacktestingEngine.FinishHeld | backend/app/core/backtesting/engine.py:363-370 | closing the position still held after the loop appends it as the last trade and leaves a finished run: every trade entered on a signal bar, the last one closed at the last bar |
| Backtesting.BacktestingEngine.Simulate | backend/app/core/backtesting/engine.py:283-370 | the whole run: at most one trade per bar; every trade entered on a signal bar, and exited on an exit bar or, for the last one, at the last bar; no trades and no samples when no bar signals; with the strategy's position never set, at most one trade, closed at the last bar's slipped close |
| Backtesting.BacktestingEngine.RunBacktest | backend/app/core/backtesting/engine.py:272-388 | a bad span fails before trading; the run is over `GenerateSignals` of the data and has every property of `Simulate`; a curve spanning no whole day fails on the metrics; otherwise the results carry the trades, the curve, the metrics computed from them and the strategy's parameters |
| Backtesting.BacktestingEngine.RunOnFrame | backend/app/core/backtesting/engine.py:282-388 | the run over a given signal frame followed by the metrics: fails only on a zero sizing price or a curve spanning no whole day; the results carry the trades, the curve, their metrics and the strategy's parameters |
| Backtesting.BacktestingEngine.TryParameters | backend/app/core/backtesting/engine.py:419-423 | an unknown parameter name fails; otherwise the strategy runs with the parsed parameters |
| Backtesting.BacktestingEngine.OptimizeStrategy | backend/app/core/backtesting/engine.py:390-432 | scores every combination in product order; returns ({}, None) iff nothing beats −∞, else the first strictly best combination and its results; leaves the strategy on the last combination |
| Backtesting.RoundTripCash | backend/app/core/backtesting/engine.py:299-361 | without fees and slippage a buy's cash round trip is its realized P&L and a sell's is the negated P&L |
| BacktestMetrics.LookupFound | backend/app/core/backtesting/engine.py:176-179 | the curve has a value at a timestamp iff some sample has that time, and the value is that sample's |
| BacktestMetrics.SetSampleProperties | backend/app/core/backtesting/engine.py:176-179 | `curve[timestamp] = equity`: that time now reads the new equity, other times are unchanged, times stay distinct, the length grows only for a new time |
| BacktestMetrics.NewSeries | backend/app/core/backtesting/engine.py:177 | building a series succeeds iff there are as many values as index labels |
| BacktestMetrics.UpdateEquityCurveAsWritten | backend/app/core/backtesting/engine.py:164-179 | the first update of the curve succeeds only with an empty history |
| BacktestMetrics.EquityCurveAsWrittenFails | backend/app/core/backtesting/engine.py:175-177 | the first held bar fails: two values against one index label |
| BacktestMetrics.MetricsNeverComputedAsWritten | backend/app/core/backtesting/engine.py:190-191 | the guard never lets metrics be computed: it raises on a series, or returns empty maps |
| BacktestMetrics.Profits | backend/app/core/backtesting/engine.py:218-220 | the profitable P&Ls, every one positive |
| BacktestMetrics.Losses | backend/app/core/backtesting/engine.py:228-234 | the losing P&Ls, every one negative, since a zero P&L is falsy |
| BacktestMetrics.WinnersAndLosersDisjoint | backend/app/core/backtesting/engine.py:218-249 | no trade is both; all are one or the other iff every P&L is set and nonzero |
| BacktestMetrics.TradeMetricsBounds | backend/app/core/backtesting/engine.py:217-250 | win rate in [0,1]; positive average profit; average loss missing iff no losers, else negative; profit factor ≥ 0 and 0 without a loser |
| BacktestMetrics.RunningPeak | backend/app/core/backtesting/engine.py:253 | `expanding().max()`: starts at the first equity and takes the maximum so far |
| BacktestMetrics.PeakDominates | backend/app/core/backtesting/engine.py:253 | the running peak is at least every earlier equity |
| BacktestMetrics.Equities | backend/app/core/backtesting/engine.py:253-254 | the curve's equity values, in order |
| BacktestMetrics.PercentBelow | backend/app/core/backtesting/engine.py:254 | each sample is (equity − peak)/peak × 100 |
| BacktestMetrics.DrawdownSamples | backend/app/core/backtesting/engine.py:253-254 | defined when no running peak is zero, with one sample per equity |
| BacktestMetrics.PositiveEquityDrawdowns | backend/app/core/backtesting/engine.py:253-256 | for positive equity every sample lies in [−100, 0], so the maximum drawdown is ≥ 0 |
| BacktestMetrics.MinOf | backend/app/core/backtesting/engine.py:256 | `drawdowns.min()`: at most every sample and equal to one of them |
| BacktestMetrics.Negatives | backend/app/core/backtesting/engine.py:257-258 | `drawdowns[drawdowns < 0]`: the strictly negative samples |
| BacktestMetrics.LongestRun | backend/app/core/backtesting/engine.py:260-267 | length of the longest run of consecutive negative samples, at most the sequence length |
| BacktestMetrics.LongestRunIsMaximal | backend/app/core/backtesting/engine.py:260-267 | no run of negative samples is longer than `LongestRun` |
| BacktestMetrics.LongestRunAttained | backend/app/core/backtesting/engine.py:260-267 | some run of negative samples has exactly that length |
| BacktestMetrics.LongestRunAtMostCount | backend/app/core/backtesting/engine.py:260-267 | the longest run never exceeds the number of negative samples (the as-written figure) |
| BacktestMetrics.DrawdownDuration | backend/app/core/backtesting/engine.py:260-267 | corrected duration: the length of a maximal run of negative samples, never above the as-written count |
| BacktestMetrics.DurationAsWrittenCountsSeparateDips | backend/app/core/backtesting/engine.py:260-267 | equity 100, 90, 100, 90 gives samples 0, −10, 0, −10; as written the duration is 2, the longest run is 1 |
| BacktestMetrics.ComputeDrawdownMetrics | backend/app/core/backtesting/engine.py:252-268 | defined iff no running peak is zero; the duration is the corrected one |
| BacktestMetrics.AverageWithinMaximum | backend/app/core/backtesting/engine.py:256-259 | the average drawdown lies between 0 and the maximum drawdown |
| BacktestMetrics.MeanBetween | backend/app/core/backtesting/engine.py:257 | the mean of negative samples lies between the minimum and zero, so its magnitude is at most the maximum drawdown |
| BacktestMetrics.SpanDays | backend/app/core/backtesting/engine.py:202-203 | the whole days between the first and the last sample: zero iff they lie less than one day apart (and not reversed), and the span lies within that many days and one more |
| BacktestMetrics.ComputeMetrics | backend/app/core/backtesting/engine.py:181-270 | no metrics (empty groups) when the curve or the trade list is empty; a division-by-zero failure iff there are both but the curve spans no whole day; otherwise the trade, drawdown (with the corrected duration) and performance parts come from the P&Ls and the curve |
| DataProcessing.Column | backend/app/core/backtesting/data_processor.py:77-81 | one cell per row, read from that row |
| DataProcessing.Times | backend/app/core/backtesting/data_processor.py:83-95 | the index timestamps, in row order |
| DataProcessing.WithColumn | backend/app/core/backtesting/data_processor.py:194-211 | assigning a column adds or replaces only that column and keeps row count, times and other cells |
| DataProcessing.Filter | backend/app/core/backtesting/data_processor.py:306-310 | keeps exactly the elements satisfying the predicate, in order |
| DataProcessing.Present | backend/app/core/backtesting/data_processor.py:136-144 | the non-missing values of a column, never more than the column |
| DataProcessing.MaxOf | backend/app/core/backtesting/data_processor.py:168-172 | the maximum of a non-empty list: a member that bounds every element |
| DataProcessing.Variance | backend/app/core/backtesting/data_processor.py:99-101 | sample variance exists iff there are at least two values, and is non-negative |
| DataProcessing.Std | backend/app/core/backtesting/data_processor.py:99-101 | sample standard deviation exists iff there are at least two values |
| DataProcessing.MissingRequired | backend/app/core/backtesting/data_processor.py:77-81 | exactly the required columns absent from the frame |
| DataProcessing.DuplicateCountZero | backend/app/core/backtesting/data_processor.py:83-86 | no duplicates are reported iff all timestamps are distinct |
| DataProcessing.GapTimes | backend/app/core/backtesting/data_processor.py:88-95 | no gaps for fewer than two rows |
| DataProcessing.GapTimesCharacterized | backend/app/core/backtesting/data_processor.py:88-95 | a timestamp is a gap iff its delta from the previous row exceeds the resample interval |
| DataProcessing.AppendIssue | backend/app/core/backtesting/data_processor.py:78-109 | appending an issue when it is found keeps the issues in check order with at most one per check |
| DataProcessing.CollectIssues | backend/app/core/backtesting/data_processor.py:78-117 | the issues are exactly those found, in check order; valid iff there are none; the statistics are recorded |
| DataProcessing.ValidateRawData | backend/app/core/backtesting/data_processor.py:62-117 | reports exactly the missing-column, duplicate, gap, anomaly and non-positive-price findings of the frame; never fails |
| DataProcessing.DropAllMissing | backend/app/core/backtesting/data_processor.py:133 | `dropna(how="all")`: keeps exactly the rows with some present cell |
| DataProcessing.ClipBounds | backend/app/core/backtesting/data_processor.py:136-144 | mean ∓ k·std exist iff there are two values, lower ≤ upper |
| DataProcessing.ClipValue | backend/app/core/backtesting/data_processor.py:136-144 | a present value is brought within the bounds and kept if already within; a missing value stays missing |
| DataProcessing.ClipColumn | backend/app/core/backtesting/data_processor.py:136-144 | only the clipped column changes, and only in value, never in presence |
| DataProcessing.ClippedWithinBounds | backend/app/core/backtesting/data_processor.py:136-144 | every present clipped value lies within the column's bounds |
| DataProcessing.LastPresent | backend/app/core/backtesting/data_processor.py:146-148 | the last present cell at or before a row, or none |
| DataProcessing.FFillIsFilledAt | backend/app/core/backtesting/data_processor.py:146-148 | the forward-fill scan agrees, cell by cell, with the reference fill |
| DataProcessing.FFillProperties | backend/app/core/backtesting/data_processor.py:146-148 | `ffill(limit=5)`: present cells are kept; a filled cell copies a present cell at most `limit` rows back; a cell with none within reach stays missing |
| DataProcessing.FillForward | backend/app/core/backtesting/data_processor.py:146-148 | every column forward-filled; row count, times and columns kept |
| DataProcessing.CleanData | backend/app/core/backtesting/data_processor.py:119-154 | fails iff a volume filter is asked for without a volume column; keeps the columns, never adds rows, and leaves only rows at or above the volume threshold |
| DataProcessing.NormalizeVolume | backend/app/core/backtesting/data_processor.py:168-172 | touches only volume; rows, times and other cells unchanged |
| DataProcessing.ScaledVolumeAtMostOne | backend/app/core/backtesting/data_processor.py:168-172 | with a positive maximum each scaled volume is at most 1, and non-negative when the volume was |
| DataProcessing.RowMax | backend/app/core/backtesting/data_processor.py:174-175 | row-wise max skipping missing cells: defined iff a cell is present, and at least every present cell |
| DataProcessing.RowMin | backend/app/core/backtesting/data_processor.py:176-177 | row-wise min skipping missing cells: defined iff a cell is present, and at most every present cell |
| DataProcessing.RepairedRowOrdered | backend/app/core/backtesting/data_processor.py:174-177 | after the repair low ≤ open ≤ high and low ≤ close ≤ high, with open and close unchanged |
| DataProcessing.NormalizeData | backend/app/core/backtesting/data_processor.py:156-179 | keeps columns, row count and times |
| DataProcessing.NormalizedOrdered | backend/app/core/backtesting/data_processor.py:156-179 | every normalised row has low ≤ open, close ≤ high |
| DataProcessing.PctChange | backend/app/core/backtesting/data_processor.py:194 | one value per row, missing on the first `periods` rows |
| DataProcessing.PctChangeOfPresent | backend/app/core/backtesting/data_processor.py:194 | with both values present and the earlier nonzero, the change is current/earlier − 1 |
| DataProcessing.LogReturns | backend/app/core/backtesting/data_processor.py:195 | `log1p(returns)`: present exactly where the return is present and at least −1 |
| DataProcessing.WindowValues | backend/app/core/backtesting/data_processor.py:198-211 | a full window holds exactly k values |
| DataProcessing.RollingMean | backend/app/core/backtesting/data_processor.py:201-211 | `rolling(k).mean()`: present iff the k-row window ending at the row is full |
| DataProcessing.MovingAverageIsWindowMean | backend/app/core/backtesting/data_processor.py:209-211 | a present moving average times k is the sum of the window's values |
| DataProcessing.RollingStd | backend/app/core/backtesting/data_processor.py:198 | `rolling(k).std()`: present iff the window is full and k ≥ 2 |
| DataProcessing.DropNa | backend/app/core/backtesting/data_processor.py:214 | keeps exactly the complete rows, in order |
| DataProcessing.ReturnColumns | backend/app/core/backtesting/data_processor.py:194-198 | `returns` is the one-period percentage change of the close, `log_returns` its `log1p` (where ≥ −1), `volatility` its 20-row rolling deviation; every other cell is untouched |
| DataProcessing.VolumeColumns | backend/app/core/backtesting/data_processor.py:201-203 | with a volume column, `volume_ma` and `volume_std` are its 20-row rolling mean and deviation; without one the frame is unchanged; every other cell is untouched |
| DataProcessing.TrendColumns | backend/app/core/backtesting/data_processor.py:206-210 | `momentum` is the ten-period percentage change of the close, `sma_10` and `sma_20` its 10- and 20-row rolling means; every other cell is untouched |
| DataProcessing.WithIndicators | backend/app/core/backtesting/data_processor.py:193-211 | extends the frame with every indicator column (the volume ones when volume exists); `returns`, `momentum` and `sma_10`/`sma_20`/`sma_50` have their defining values; cells of other columns are untouched |
| DataProcessing.BaseIndicators | backend/app/core/backtesting/data_processor.py:193-210 | the return, volume and trend steps in sequence: the returns column survives the later steps, and cells of other columns are untouched |
| DataProcessing.AddTechnicalIndicators | backend/app/core/backtesting/data_processor.py:181-216 | fails iff there is no close column; otherwise the result is `dropna()` of the indicator frame, so every output row is complete |
| DataProcessing.DropNaSkipsPrefix | backend/app/core/backtesting/data_processor.py:214 | rows whose cell is missing before a cut are all dropped |
| DataProcessing.WarmUpOf | backend/app/core/backtesting/data_processor.py:209-214 | a frame carrying `sma_50` loses its first 49 rows to dropna |
| DataProcessing.WarmUpDropped | backend/app/core/backtesting/data_processor.py:181-216 | the enriched frame is never longer than the input minus 49 rows, and every kept row comes from row 49 or later |
| DataProcessing.CacheKey | backend/app/core/backtesting/data_processor.py:218-230 | symbol, `_`, start `%Y%m%d`, `_`, end `%Y%m%d`: 18 characters longer than the symbol |
| DataProcessing.CacheKeyByDay | backend/app/core/backtesting/data_processor.py:230 | the key depends only on the symbol and the two calendar days |
| DataProcessing.CacheKeyDetermines | backend/app/core/backtesting/data_processor.py:230 | for equal-length symbols, equal keys mean the same symbol and the same two dates |
| DataProcessing.DateFilter | backend/app/core/backtesting/data_processor.py:306-310 | keeps exactly the rows within [start, end], either bound optional |
| DataProcessing.HistoricalDataProcessor.constructor | backend/app/core/backtesting/data_processor.py:24-38 | stores the configuration; the cache is empty |
| DataProcessing.HistoricalDataProcessor.ProcessData | backend/app/core/backtesting/data_processor.py:266-324 | with both dates and a hit, returns the cached frame and an empty valid result; otherwise validates, filters, cleans, normalises and enriches, and stores the result only when both dates are given |
| DataProcessing.PrepareFeatures | backend/app/core/backtesting/data_processor.py:326-359 | keeps the requested columns that exist, in requested order; each cell is the last present value at or before its row (so present cells are unchanged), else 0.0 |
| Dashboard.NoExitNoTotal | backend/app/api/endpoints/dashboard.py:247-252 | a day without a counted exit totals zero |
| Dashboard.DailyTotalsMeaning | backend/app/api/endpoints/dashboard.py:247-252 | the accumulated map has exactly the days with a counted exit, each mapped to the P&L of the trades exiting that day |
| Dashboard.SumByExitDate | backend/app/api/endpoints/dashboard.py:247-252 | the loop builds the accumulated daily totals, for any rendering of dates |
| Dashboard.CalculateDailyPnl | backend/app/api/endpoints/dashboard.py:245-252 | keys are exactly the ISO exit dates of trades with an exit time and a nonzero P&L; each value sums those trades' P&L |
| Dashboard.NamesDistinct | backend/app/api/endpoints/dashboard.py:256-263 | the six distribution keys are pairwise distinct |
| Dashboard.BucketMonotone | backend/app/api/endpoints/dashboard.py:265-281 | a higher ROI never falls in a worse bucket; a bucket is a win iff the ROI is positive |
| Dashboard.Rois | backend/app/api/endpoints/dashboard.py:266-269 | one ROI per trade, in order |
| Dashboard.BucketsPartition | backend/app/api/endpoints/dashboard.py:265-281 | the bucket counts add up to the number of trades with a truthy ROI |
| Dashboard.Tally | backend/app/api/endpoints/dashboard.py:256-283 | every bucket has a count |
| Dashboard.TallyMeaning | backend/app/api/endpoints/dashboard.py:264-281 | each bucket's count is the number of truthy ROIs above its threshold and at or below the next |
| Dashboard.TallyAddsUp | backend/app/api/endpoints/dashboard.py:256-283 | the six counts sum to the number of trades with a truthy ROI |
| Dashboard.CalculateTradeDistribution | backend/app/api/endpoints/dashboard.py:254-283 | the loop's counts equal the tally of the trades' ROIs |
| Dashboard.NoTradesNoExposure | backend/app/api/endpoints/dashboard.py:287-292 | a symbol without trades has zero exposure |
| Dashboard.CalculateExposurePerAsset | backend/app/api/endpoints/dashboard.py:285-292 | keys are exactly the traded symbols, each mapped to Σ size × entry price of its trades |
| Dashboard.Peak | backend/app/api/endpoints/dashboard.py:296-306 | the running peak starts at 0 and bounds the cumulative P&L |
| Dashboard.DrawdownNonNegative | backend/app/api/endpoints/dashboard.py:306 | (peak − current)/peak × 100, or 0 without a positive peak, is non-negative whenever the peak is at least the current P&L |
| Dashboard.MaxDrawdown | backend/app/api/endpoints/dashboard.py:308-324 | the maximum drawdown is non-negative |
| Dashboard.CurrentWithinMax | backend/app/api/endpoints/dashboard.py:294-324 | the current drawdown lies between 0 and the maximum drawdown |
| Dashboard.PositiveDrawdownsBounded | backend/app/api/endpoints/dashboard.py:331-344 | every averaged drawdown is positive and at most the maximum |
| Dashboard.AverageWithinMax | backend/app/api/endpoints/dashboard.py:326-344 | the average drawdown lies between 0 and the maximum drawdown |
| Dashboard.CalculateCurrentDrawdown | backend/app/api/endpoints/dashboard.py:294-306 | the loop returns the drawdown after the last counted trade, which is ≥ 0 |
| Dashboard.CalculateMaxDrawdown | backend/app/api/endpoints/dashboard.py:308-324 | the loop returns the largest per-step drawdown |
| Dashboard.CalculateAverageDrawdown | backend/app/api/endpoints/dashboard.py:326-344 | the loop returns the mean of the positive per-step drawdowns, or 0 |
| Dashboard.AsWrittenRecordsZero | backend/app/api/endpoints/dashboard.py:356-366 | as written every recorded period has drawdown 0 |
| Dashboard.AsWrittenLosesDepth | backend/app/api/endpoints/dashboard.py:356-366 | P&Ls 100, −10, 20 record a period of depth 0 as written and 10 once corrected |
| Dashboard.ScanStepKeeps | backend/app/api/endpoints/dashboard.py:353-366 | one corrected step keeps every open and recorded period deeper than 5% |
| Dashboard.PeriodsExceedThreshold | backend/app/api/endpoints/dashboard.py:353-366 | corrected: every recorded period's drawdown exceeds 5% |
| Dashboard.IdentifyDrawdownPeriods | backend/app/api/endpoints/dashboard.py:346-368 | the loop returns the corrected scan's periods, each deeper than 5% |
| Notification.Recent | backend/app/services/notification.py:76-82 | keeps exactly the history entries strictly newer than one minute ago, never more |
| Notification.RecentOfRecent | backend/app/services/notification.py:76-82 | pruning earlier loses nothing: pruning again later gives the same as pruning once later |
| Notification.SentIffAdmitted | backend/app/services/notification.py:151-176 | a message is sent iff the gate admits it and the gateway delivers it |
| Notification.CriticalBypass | backend/app/services/notification.py:152-166 | CRITICAL skips the rate limit and the cooldown; delivery alone decides |
| Notification.FailureOnlyWhenCritical | backend/app/services/notification.py:178-184 | only a CRITICAL message whose delivery failed raises; others return False |
| Notification.TrackingOnlyOnSuccess | backend/app/services/notification.py:171-176 | a sent message appends one timestamp and sets its key to now; a rejected or failed one adds nothing |
| Notification.RateRespected | backend/app/services/notification.py:152-157 | for sends that do not overlap: after a non-critical send, the one-minute window ending at any later instant holds at most `rate_limit` messages |
| Notification.RepeatWithinCooldownRejected | backend/app/services/notification.py:160-166 | a sent keyed message blocks a non-critical repeat of its key within the cooldown |
| Notification.CooldownExpires | backend/app/services/notification.py:95-99 | once the cooldown has passed, the key no longer blocks |
| Notification.TradeAlert | backend/app/services/notification.py:101-129 | the alert starts with "TRADE ALERT: " and the upper-cased type |
| Notification.PnlOnlyAppends | backend/app/services/notification.py:125-129 | a P&L only appends " PnL: …" to the alert without one |
| Notification.KeysDistinct | backend/app/services/notification.py:227-327 | entry, exit, risk and system keys never collide |
| Notification.KeysAreTruthy | backend/app/services/notification.py:227-327 | every derived key is non-empty, so it is always subject to the cooldown |
| Notification.KeysIgnoreCase | backend/app/services/notification.py:302-327 | risk and status keys ignore the ASCII letter case of the name |
| Notification.ExitMessage | backend/app/services/notification.py:255-256 | the exit alert carries the P&L, then a line with the reason |
| Notification.StatusMessage | backend/app/services/notification.py:324-326 | starts with "SYSTEM STATUS: " and the status; longer only when details are given |
| Notification.NotificationService.constructor | backend/app/services/notification.py:31-67 | stores the limits; empty history and cache |
| Notification.NotificationService.CheckRateLimit | backend/app/services/notification.py:69-83 | prunes the history to the last minute; allows iff fewer than `rate_limit` remain |
| Notification.NotificationService.CheckCooldown | backend/app/services/notification.py:85-99 | allows iff the key is absent or was used at least the cooldown ago |
| Notification.NotificationService.SendNotification | backend/app/services/notification.py:131-184 | result and new state are the gate's; the SMS goes out exactly when admitted |
| Notification.NotificationService.NotifyTradeEntry | backend/app/services/notification.py:211-230 | HIGH priority, key `trade_entry_{symbol}`, the entry alert without P&L |
| Notification.NotificationService.NotifyTradeExit | backend/app/services/notification.py:232-260 | HIGH priority, key `trade_exit_{symbol}`, the exit alert with P&L and reason |
| Notification.NotificationService.NotifyError | backend/app/services/notification.py:262-280 | no key, so only the rate limit applies; "ERROR ALERT: " message |
| Notification.NotificationService.NotifyRiskAlert | backend/app/services/notification.py:282-303 | key `risk_{lower(alert_type)}` |
| Notification.NotificationService.NotifySystemStatus | backend/app/services/notification.py:305-328 | key `system_{lower(status)}`; details only when given |

## Left out

- Trade persistence, `to_dict` and the SQL column declarations are left out. They are storage, not behaviour.
- Wall-clock reads (`datetime.now()`, `utcnow()`) are left out: every operation takes an explicit `now`. The notification service reads the clock several times per send, and `reset_daily_metrics` reads it three times (backend/app/core/trading/risk_manager.py:51-58); the model uses one `now` for all of them.
- The performance metrics (total and annualised return, Sharpe and Sortino ratios) need powers, square roots and standard deviations of floats. The engine takes them from a supplied `performance` function of the equity curve.
- The standard deviation uses a supplied `sqrt`, and log returns a supplied `log1p`. Only their presence pattern is modelled, not their values.
- The exchange's volatility feed is a `VolatilityReading` parameter (a reading or an error). The HTTP client behind it is not part of this model.
- Twilio delivery is the `delivered` parameter. The SMS that would be sent is returned as a value.
- Number formatting (`:,.2f`, `:,.8f`) in the alerts uses supplied `money` and `quantity` functions.
- The parquet cache file I/O and `mkdir` are left out: the cache is a map in memory, and a failed load would be a miss. `get_data_info` (`infer_freq`, memory usage) is left out as reporting only.
- The pandas Series for the equity curve is modelled as a sequence of (timestamp, equity) samples with assignment by timestamp. The engine uses the corrected curve (see Findings).
- Floating-point rounding, infinities and NaN are not modelled. NaN becomes `None` and prices are exact rationals.
- The distribution's dictionary keys are modelled as the enumeration `Dashboard.Outcome`; `Dashboard.Name` gives each its dictionary key.
- The FastAPI route handlers, the database service, the exchange client and the dashboard's volatility and system-load helpers are not part of this model.
- Backtesting.BacktestingEngine.OptimizeStrategy: the optimiser's scores are a ghost out-parameter, so its contract ties the chosen combination to the first strict maximum only through `BestSoFar`.
- Common.Upper, Common.Lower, Common.LowerOfUpper, Notification.KeysIgnoreCase: only ASCII letters change case; Python's Unicode case mapping (which can also change a string's length) is not modelled.
- Backtesting.BacktestingEngine.RunBars, Backtesting.BacktestingEngine.Simulate, Backtesting.BacktestingEngine.RunBacktest: the equity values of the curve are stated per bar by `OnHeldBar` (capital plus size × close of the held position), not lifted to the whole run; across the run only the sample times, counts and the trade ledger are stated.
- BacktestMetrics.ComputeDrawdownMetrics, BacktestMetrics.ComputeMetrics, Backtesting.BacktestingEngine.RunOnFrame, Backtesting.BacktestingEngine.RunBacktest, Dashboard.IdentifyDrawdownPeriods: these use the corrected definitions from "## Findings". The drawdown duration is the longest run of negative samples, where the code reports their count. A drawdown period records its depth, where the code records 0.
- Notification.NotificationService.SendNotification, Notification.RateRespected, Notification.RepeatWithinCooldownRejected: each send is modelled as one atomic step. The code is asynchronous and awaits the SMS delivery between the gate checks and the history and cooldown update (backend/app/services/notification.py:152-174). So the rate and cooldown bounds hold only for sends that do not overlap. Concurrent sends could both pass the gate against the same history.
- Notification.TradeAlert: only the fixed prefix is stated; the rest of the text depends on the supplied number formatters.

## Findings

| source | as written | input that shows it | evidently intended | confidence | as-written member | corrected member |
|---|---|---|---|---|---|---|
| backend/app/core/backtesting/engine.py:175-177 | the first update builds a Series from the whole history (initial capital plus the new equity) with one index label, and `not self.equity_curve` on a Series is ambiguous | any backtest that holds a position on some bar: history [initial, equity] against index [timestamp] | an equity curve of one sample per held bar, indexed by time | not executed | BacktestMetrics.EquityCurveAsWrittenFails | BacktestMetrics.SetSampleProperties |
| backend/app/core/backtesting/engine.py:260-267 | `groupby((d[d<0] >= 0).cumsum())` groups all negative samples under one key, so the duration is their count | equity 100, 90, 100, 90: two separate one-sample dips give 2 | the longest run of consecutive negative samples, 1 here | not executed | BacktestMetrics.DurationAsWrittenCountsSeparateDips | BacktestMetrics.DrawdownDuration |
| backend/app/api/endpoints/dashboard.py:356-366 | a period is recorded after `peak = current`, so its drawdown is always 0 | P&Ls 100, −10, 20: the period opened at −10% is recorded with depth 0 | the depth reached while the period was open, 10 here | not executed | Dashboard.AsWrittenRecordsZero | Dashboard.PeriodsExceedThreshold |
