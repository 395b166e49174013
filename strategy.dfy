/** The momentum strategy: exponential moving averages of the close, the
    trend sign and its bar-to-bar change, entry intents with stop and target
    prices, and the ordered exit rules for the tracked position. */
module Strategy {
  import opened Common
  import opened TradeModel

  datatype StrategyParameters = StrategyParameters(
    shortEmaPeriod: real,
    longEmaPeriod: real,
    takeProfitPct: real,
    stopLossPct: real,
    positionSizePct: real,
    minVolume: real,
    maxSpreadPct: real)

  const DefaultStrategyParameters: StrategyParameters :=
    StrategyParameters(9.0, 21.0, 2.0, 1.0, 1.0, 1000.0, 0.5)

  /** One row of the price frame the strategy reads. `bid` and `ask` are
      meaningful only when the frame has both quote columns. */
  datatype Bar = Bar(time: Timestamp, open: real, high: real, low: real, close: real,
                     volume: real, bid: real, ask: real)

  datatype BarSeries = BarSeries(bars: seq<Bar>, hasQuotes: bool)

  /** A row after signal generation: the input row plus the two averages,
      the trend sign and its change from the previous row (missing on the
      first row, where `diff` yields NaN). */
  datatype SignalRow = SignalRow(bar: Bar, shortEma: real, longEma: real, signal: int, change: Option<int>)

  datatype SignalFrame = SignalFrame(rows: seq<SignalRow>, hasQuotes: bool)

  datatype StrategyError = InvalidSpan(period: real)

  /** An entry intent: direction, reference price, bar time and the target
      and stop prices derived from it. */
  datatype TradeIntent = TradeIntent(tradeType: TradeType, price: real, time: Option<Timestamp>,
                                     takeProfit: real, stopLoss: real)

  /** The tracked position the exit rules read. */
  datatype PositionInfo = PositionInfo(positionType: TradeType, price: real, stopLoss: real, takeProfit: real)

  datatype ConditionCheck = Valid | InsufficientVolume | SpreadTooHigh {
    predicate Passes() { this == Valid }
    function Message(): string {
      match this
      case Valid => "Valid"
      case InsufficientVolume => "Insufficient volume"
      case SpreadTooHigh => "Spread too high"
    }
  }

  datatype ExitDecision = NoPosition | StopLossHit | TakeProfitHit | SignalReversal | HoldPosition {
    predicate Exits() { this in {StopLossHit, TakeProfitHit, SignalReversal} }
    function Message(): string {
      match this
      case NoPosition => "No position"
      case StopLossHit => "Stop loss hit"
      case TakeProfitHit => "Take profit hit"
      case SignalReversal => "Signal reversal"
      case HoldPosition => "Hold position"
    }
  }

  /** Smoothing factor of an EMA with span `period`. */
  function Alpha(period: real): (a: real)
    requires period >= 1.0
    ensures 0.0 < a <= 1.0
  {
    2.0 / (period + 1.0)
  }

  /** The recursive (unadjusted) exponential moving average: the first value
      is the first price, each later value mixes the price with the
      previous average. */
  function Ema(xs: seq<real>, alpha: real): (r: seq<real>)
    ensures |r| == |xs|
    ensures |xs| > 0 ==> r[0] == xs[0]
    ensures |xs| > 1 ==> r[|xs| - 1] == alpha * xs[|xs| - 1] + (1.0 - alpha) * r[|xs| - 2]
    decreases |xs|
  {
    if |xs| == 0 then []
    else if |xs| == 1 then [xs[0]]
    else
      var prev := Ema(xs[..|xs| - 1], alpha);
      prev + [alpha * xs[|xs| - 1] + (1.0 - alpha) * prev[|prev| - 1]]
  }

  /** Each EMA value is a convex combination of the prices so far, so it
      lies between their minimum and maximum. */
  lemma {:induction false} EmaWithinRange(xs: seq<real>, alpha: real, lo: real, hi: real)
    requires 0.0 < alpha <= 1.0
    requires forall i :: 0 <= i < |xs| ==> lo <= xs[i] <= hi
    ensures forall t :: 0 <= t < |xs| ==> lo <= Ema(xs, alpha)[t] <= hi
    decreases |xs|
  {
    if |xs| > 1 {
      var n := |xs| - 1;
      var init := xs[..n];
      var r := Ema(xs, alpha);
      var prev := Ema(init, alpha);
      EmaWithinRange(init, alpha, lo, hi);
      EmaPrefix(xs, alpha);
      forall t | 0 <= t < n
        ensures lo <= r[t] <= hi
      {
        assert r[t] == r[..n][t] == prev[t];
      }
      EmaLastInRange(xs, alpha, lo, hi);
    }
  }

  /** The newest value mixes an in-range price with an in-range previous value. */
  lemma EmaLastInRange(xs: seq<real>, alpha: real, lo: real, hi: real)
    requires 0.0 < alpha <= 1.0 && |xs| > 1
    requires lo <= xs[|xs| - 1] <= hi && lo <= Ema(xs, alpha)[|xs| - 2] <= hi
    ensures lo <= Ema(xs, alpha)[|xs| - 1] <= hi
  {
    ConvexBetween(alpha, xs[|xs| - 1], Ema(xs, alpha)[|xs| - 2], lo, hi);
  }

  /** Every value after the first mixes its price with the previous value. */
  lemma {:induction false} EmaRecurrence(xs: seq<real>, alpha: real, t: nat)
    requires 1 <= t < |xs|
    ensures Ema(xs, alpha)[t] == alpha * xs[t] + (1.0 - alpha) * Ema(xs, alpha)[t - 1]
    decreases |xs|
  {
    if t < |xs| - 1 {
      var init := xs[..|xs| - 1];
      EmaRecurrence(init, alpha, t);
      EmaPrefix(xs, alpha);
      var r := Ema(xs, alpha);
      assert r[t] == r[..|xs| - 1][t] && r[t - 1] == r[..|xs| - 1][t - 1];
    }
  }

  lemma EmaRecurrenceAll(xs: seq<real>, alpha: real)
    ensures forall t {:trigger xs[t]} :: 1 <= t < |xs| ==>
              Ema(xs, alpha)[t] == alpha * xs[t] + (1.0 - alpha) * Ema(xs, alpha)[t - 1]
  {
    forall t | 1 <= t < |xs|
      ensures Ema(xs, alpha)[t] == alpha * xs[t] + (1.0 - alpha) * Ema(xs, alpha)[t - 1]
    {
      EmaRecurrence(xs, alpha, t);
    }
  }

  /** Dropping the last price drops the last average. */
  lemma EmaPrefix(xs: seq<real>, alpha: real)
    requires |xs| > 1
    ensures Ema(xs, alpha)[..|xs| - 1] == Ema(xs[..|xs| - 1], alpha)
  {
  }

  /** A weighted average of two values in `[lo, hi]` stays in `[lo, hi]`. */
  lemma ConvexBetween(a: real, x: real, p: real, lo: real, hi: real)
    requires 0.0 < a <= 1.0 && lo <= x <= hi && lo <= p <= hi
    ensures lo <= a * x + (1.0 - a) * p <= hi
  {
    MulNonneg(a, x - lo);
    MulNonneg(1.0 - a, p - lo);
    MulNonneg(a, hi - x);
    MulNonneg(1.0 - a, hi - p);
    assert a * x + (1.0 - a) * p - lo == a * (x - lo) + (1.0 - a) * (p - lo);
    assert hi - (a * x + (1.0 - a) * p) == a * (hi - x) + (1.0 - a) * (hi - p);
  }

  lemma MulNonneg(u: real, v: real)
    requires u >= 0.0 && v >= 0.0
    ensures u * v >= 0.0
  {
  }

  /** A constant price series has that constant as its EMA. */
  lemma {:induction false} EmaOfConstant(xs: seq<real>, alpha: real, c: real)
    requires forall i :: 0 <= i < |xs| ==> xs[i] == c
    ensures forall t :: 0 <= t < |xs| ==> Ema(xs, alpha)[t] == c
    decreases |xs|
  {
    if |xs| > 1 {
      var init := xs[..|xs| - 1];
      EmaOfConstant(init, alpha, c);
      EmaPrefix(xs, alpha);
      var r := Ema(xs, alpha);
      forall t | 0 <= t < |xs|
        ensures r[t] == c
      {
        if t < |xs| - 1 {
          assert r[t] == Ema(init, alpha)[t];
        }
      }
    }
  }

  /** Trend sign of `short - long`. */
  function Sign(x: real): (s: int)
    ensures -1 <= s <= 1
    ensures s == 1 <==> x > 0.0
    ensures s == -1 <==> x < 0.0
  {
    if x > 0.0 then 1 else if x < 0.0 then -1 else 0
  }

  function Closes(bars: seq<Bar>): (cs: seq<real>)
    ensures |cs| == |bars|
    ensures forall i {:trigger cs[i]} :: 0 <= i < |bars| ==> cs[i] == bars[i].close
  {
    seq(|bars|, i requires 0 <= i < |bars| => bars[i].close)
  }

  /** `(ask - bid) / bid * 100 > maxSpreadPct` under numpy's division: a zero
      bid gives +inf for a positive ask (too high) and -inf or NaN otherwise. */
  predicate SpreadExceeds(ask: real, bid: real, maxSpreadPct: real)
  {
    if bid == 0.0 then ask > 0.0 else (ask - bid) / bid * 100.0 > maxSpreadPct
  }

  function SignalRowAt(bars: seq<Bar>, s: seq<real>, l: seq<real>, i: int): SignalRow
    requires |s| == |bars| && |l| == |bars| && 0 <= i < |bars|
  {
    SignalRow(bars[i], s[i], l[i], Sign(s[i] - l[i]),
              if i == 0 then None else Some(Sign(s[i] - l[i]) - Sign(s[i - 1] - l[i - 1])))
  }

  /** The signal rows for `bars` given the two averages: each row keeps its
      bar and averages, carries the sign of their difference, and its change
      is the step from the previous row's sign. */
  function SignalRows(bars: seq<Bar>, s: seq<real>, l: seq<real>): (rows: seq<SignalRow>)
    requires |s| == |bars| && |l| == |bars|
    ensures |rows| == |bars|
    ensures forall i {:trigger rows[i]} :: 0 <= i < |bars| ==>
              rows[i].bar == bars[i] && rows[i].shortEma == s[i] && rows[i].longEma == l[i]
              && rows[i].signal == Sign(s[i] - l[i])
    ensures forall i {:trigger rows[i].change} :: 0 <= i < |bars| ==>
              rows[i].change == if i == 0 then None else Some(rows[i].signal - rows[i - 1].signal)
  {
    seq(|bars|, i requires 0 <= i < |bars| => SignalRowAt(bars, s, l, i))
  }

  /** The error `ewm` raises for the first EMA span below 1, if any. */
  function SpanError(p: StrategyParameters): (e: Option<StrategyError>)
    ensures e.None? <==> p.shortEmaPeriod >= 1.0 && p.longEmaPeriod >= 1.0
  {
    if p.shortEmaPeriod < 1.0 then Some(InvalidSpan(p.shortEmaPeriod))
    else if p.longEmaPeriod < 1.0 then Some(InvalidSpan(p.longEmaPeriod))
    else None
  }

  class MomentumStrategy {
    var params: StrategyParameters
    var currentPosition: Option<PositionInfo>

    constructor (params: StrategyParameters)
      ensures this.params == params && currentPosition == None
    {
      this.params := params;
      currentPosition := None;
    }

    /** `ewm(span=period, adjust=False).mean()`; pandas rejects a span
        below 1. */
    static function CalculateEma(prices: seq<real>, period: real): (r: Result<seq<real>, StrategyError>)
      ensures r.Failure? <==> period < 1.0
      ensures r.Success? ==> |r.value| == |prices|
      ensures r.Success? && |prices| > 0 ==> r.value[0] == prices[0]
      ensures r.Success? ==> forall t {:trigger prices[t]} :: 1 <= t < |prices| ==>
                r.value[t] == Alpha(period) * prices[t] + (1.0 - Alpha(period)) * r.value[t - 1]
    {
      if period < 1.0 then Failure(InvalidSpan(period))
      else
        EmaRecurrenceAll(prices, Alpha(period));
        Success(Ema(prices, Alpha(period)))
    }

    /** Adds both averages, the trend sign and its change to a copy of the
        frame: the sign is 1, -1 or 0 as the short average is above, below
        or equal to the long one, and the change is nonzero exactly where
        the sign differs from the previous row's. */
    static function GenerateSignals(params: StrategyParameters, data: BarSeries): (r: Result<SignalFrame, StrategyError>)
      ensures r.Failure? <==> params.shortEmaPeriod < 1.0 || params.longEmaPeriod < 1.0
      ensures r.Failure? ==> Some(r.error) == SpanError(params)
      ensures r.Success? ==> |r.value.rows| == |data.bars| && r.value.hasQuotes == data.hasQuotes
      ensures r.Success? ==> forall i {:trigger r.value.rows[i]} :: 0 <= i < |data.bars| ==>
                var row := r.value.rows[i];
                && row.bar == data.bars[i]
                && row.shortEma == Ema(Closes(data.bars), Alpha(params.shortEmaPeriod))[i]
                && row.longEma == Ema(Closes(data.bars), Alpha(params.longEmaPeriod))[i]
                && (row.signal == 1 <==> row.shortEma > row.longEma)
                && (row.signal == -1 <==> row.shortEma < row.longEma)
                && (row.signal == 0 <==> row.shortEma == row.longEma)
      ensures r.Success? ==> forall i {:trigger r.value.rows[i].change} :: 0 <= i < |data.bars| ==>
                var row := r.value.rows[i];
                && (i == 0 <==> row.change.None?)
                && (i > 0 ==> -2 <= row.change.value <= 2)
                && (i > 0 ==> (row.change.value != 0 <==> row.signal != r.value.rows[i - 1].signal))
                && (i > 0 ==> row.change.value == row.signal - r.value.rows[i - 1].signal)
    {
      var closes := Closes(data.bars);
      var shortR := CalculateEma(closes, params.shortEmaPeriod);
      var longR := CalculateEma(closes, params.longEmaPeriod);
      if shortR.Failure? then Failure(shortR.error)
      else if longR.Failure? then Failure(longR.error)
      else Success(SignalFrame(SignalRows(data.bars, shortR.value, longR.value), data.hasQuotes))
    }

    /** `generate_signals` as the backtesting engine calls it: exactly the
        frame of `GenerateSignals`, restated for the length, the last bar and
        the error the engine relies on. */
    method SignalFrameFor(data: BarSeries) returns (r: Result<SignalFrame, StrategyError>)
      ensures r == GenerateSignals(params, data)
      ensures r.Failure? <==> SpanError(params).Some?
      ensures r.Failure? ==> r.error == SpanError(params).value
      ensures r.Success? ==> |r.value.rows| == |data.bars|
      ensures r.Success? && |data.bars| > 0 ==> r.value.rows[|data.bars| - 1].bar == data.bars[|data.bars| - 1]
    {
      r := GenerateSignals(params, data);
    }

    /** Position size in base units: the configured percentage of capital
        divided by the price; Python raises on a zero price. */
    function CalculatePositionSize(capital: real, price: real): (size: Option<real>)
      reads this
      ensures size.Some? <==> price != 0.0
      ensures size.Some? ==> size.value * price == capital * (params.positionSizePct / 100.0)
    {
      if price == 0.0 then None else Some(capital * (params.positionSizePct / 100.0) / price)
    }

    /** Pre-trade filters on one row: volume first, then the bid/ask spread
        when the frame carries both quote columns. */
    function ValidateTradeConditions(data: SignalFrame, index: nat): (c: ConditionCheck)
      reads this
      requires index < |data.rows|
      ensures c == InsufficientVolume <==> data.rows[index].bar.volume < params.minVolume
      ensures c == SpreadTooHigh <==>
                && data.rows[index].bar.volume >= params.minVolume
                && data.hasQuotes
                && SpreadExceeds(data.rows[index].bar.ask, data.rows[index].bar.bid, params.maxSpreadPct)
    {
      var bar := data.rows[index].bar;
      if bar.volume < params.minVolume then InsufficientVolume
      else if data.hasQuotes && SpreadExceeds(bar.ask, bar.bid, params.maxSpreadPct) then SpreadTooHigh
      else Valid
    }

    /** Entry intent at row `index`: none before the second row, on a row
        whose sign did not change, or when the pre-trade filters fail;
        otherwise a buy on an upward change and a sell on a downward one,
        with target and stop offset from the close by the configured
        percentages in the position's favour and against it. */
    function GetTradeSignal(data: SignalFrame, index: int): (r: Option<TradeIntent>)
      reads this
      requires index < |data.rows|
      ensures r.Some? <==>
                && index >= 1
                && data.rows[index].change.Some?
                && data.rows[index].change.value != 0
                && ValidateTradeConditions(data, index).Passes()
      ensures r.Some? ==>
                var row := data.rows[index];
                && r.value.price == row.bar.close
                && r.value.time == Some(row.bar.time)
                && (r.value.tradeType == Buy <==> row.change.value > 0)
                && (r.value.tradeType == Buy ==>
                      && r.value.takeProfit == row.bar.close * (1.0 + params.takeProfitPct / 100.0)
                      && r.value.stopLoss == row.bar.close * (1.0 - params.stopLossPct / 100.0))
                && (r.value.tradeType == Sell ==>
                      && r.value.takeProfit == row.bar.close * (1.0 - params.takeProfitPct / 100.0)
                      && r.value.stopLoss == row.bar.close * (1.0 + params.stopLossPct / 100.0))
    {
      if index < 1 then None
      else
        var row := data.rows[index];
        if row.change.Some? && row.change.value == 0 then None
        else if !ValidateTradeConditions(data, index).Passes() then None
        else if row.change.None? then None
        else
          var tradeType := if row.change.value > 0 then Buy else Sell;
          var close := row.bar.close;
          Some(TradeIntent(
            tradeType, close, Some(row.bar.time),
            if tradeType == Buy then close * (1.0 + params.takeProfitPct / 100.0)
            else close * (1.0 - params.takeProfitPct / 100.0),
            if tradeType == Buy then close * (1.0 - params.stopLossPct / 100.0)
            else close * (1.0 + params.stopLossPct / 100.0)))
    }

    /** Exit rules for the tracked position on row `index`, first match
        wins: no position; the stop (low at or below it for a buy, high at or
        above it for a sell); the target (high at or above it for a buy, low
        at or below it for a sell); a sign opposing the position; else hold. */
    function ShouldExitPosition(data: SignalFrame, index: nat): (d: ExitDecision)
      reads this
      requires index < |data.rows|
      ensures currentPosition.None? <==> d == NoPosition
      ensures currentPosition.Some? ==>
                var p := currentPosition.value;
                var bar := data.rows[index].bar;
                var stopHit := if p.positionType == Buy then bar.low <= p.stopLoss else bar.high >= p.stopLoss;
                var targetHit := if p.positionType == Buy then bar.high >= p.takeProfit else bar.low <= p.takeProfit;
                var reversed := data.rows[index].signal == (if p.positionType == Buy then -1 else 1);
                && (d == StopLossHit <==> stopHit)
                && (d == TakeProfitHit <==> !stopHit && targetHit)
                && (d == SignalReversal <==> !stopHit && !targetHit && reversed)
                && (d == HoldPosition <==> !stopHit && !targetHit && !reversed)
    {
      if currentPosition.None? then NoPosition
      else
        var p := currentPosition.value;
        var row := data.rows[index];
        if p.positionType == Buy && row.bar.low <= p.stopLoss then StopLossHit
        else if p.positionType == Buy && row.bar.high >= p.takeProfit then TakeProfitHit
        else if p.positionType == Sell && row.bar.high >= p.stopLoss then StopLossHit
        else if p.positionType == Sell && row.bar.low <= p.takeProfit then TakeProfitHit
        else if (p.positionType == Buy && row.signal == -1) || (p.positionType == Sell && row.signal == 1) then SignalReversal
        else HoldPosition
    }

    /** Replaces the tracked position wholesale. */
    method UpdatePosition(position: Option<PositionInfo>)
      modifies this`currentPosition
      ensures currentPosition == position
    {
      currentPosition := position;
    }

    /** Placeholder optimiser: reports the five tunable parameters as they
        currently stand. */
    function OptimizeParameters(): (m: map<string, real>)
      reads this
      ensures m.Keys == {"short_ema_period", "long_ema_period", "take_profit_pct", "stop_loss_pct", "position_size_pct"}
      ensures m["short_ema_period"] == params.shortEmaPeriod && m["long_ema_period"] == params.longEmaPeriod
      ensures m["take_profit_pct"] == params.takeProfitPct && m["stop_loss_pct"] == params.stopLossPct
      ensures m["position_size_pct"] == params.positionSizePct
    {
      map["short_ema_period" := params.shortEmaPeriod, "long_ema_period" := params.longEmaPeriod,
          "take_profit_pct" := params.takeProfitPct, "stop_loss_pct" := params.stopLossPct,
          "position_size_pct" := params.positionSizePct]
    }
  }

  /** With positive percentages and a positive close, a buy intent's stop is
      below the close and its target above; a sell intent is mirrored. */
  lemma IntentBracketsPrice(s: MomentumStrategy, data: SignalFrame, index: int)
    requires index < |data.rows|
    requires s.params.takeProfitPct > 0.0 && s.params.stopLossPct > 0.0
    requires s.GetTradeSignal(data, index).Some?
    requires data.rows[index].bar.close > 0.0
    ensures var it := s.GetTradeSignal(data, index).value;
            it.tradeType == Buy ==> it.stopLoss < it.price < it.takeProfit
    ensures var it := s.GetTradeSignal(data, index).value;
            it.tradeType == Sell ==> it.takeProfit < it.price < it.stopLoss
  {
    var it := s.GetTradeSignal(data, index).value;
    var c := data.rows[index].bar.close;
    var tp := s.params.takeProfitPct / 100.0;
    var sl := s.params.stopLossPct / 100.0;
    assert c * (1.0 + tp) == c + c * tp && c * tp > 0.0;
    assert c * (1.0 - sl) == c - c * sl && c * sl > 0.0;
    assert c * (1.0 - tp) == c - c * tp;
    assert c * (1.0 + sl) == c + c * sl;
  }

  /** A bar that breaches both the stop and the target of a buy resolves to
      the stop. */
  lemma StopWinsTies(s: MomentumStrategy, data: SignalFrame, index: nat)
    requires index < |data.rows|
    requires s.currentPosition.Some? && s.currentPosition.value.positionType == Buy
    requires data.rows[index].bar.low <= s.currentPosition.value.stopLoss
    requires data.rows[index].bar.high >= s.currentPosition.value.takeProfit
    ensures s.ShouldExitPosition(data, index) == StopLossHit
  {
  }

  /** Along a signal frame, a buy intent can only appear where the trend
      sign has just turned upward from below or from flat, i.e. at a
      crossover of the short average above the long one. */
  lemma BuyOnlyAtUpwardCross(s: MomentumStrategy, data: BarSeries, index: int)
    requires MomentumStrategy.GenerateSignals(s.params, data).Success?
    requires index < |data.bars|
    requires s.GetTradeSignal(MomentumStrategy.GenerateSignals(s.params, data).value, index).Some?
    requires s.GetTradeSignal(MomentumStrategy.GenerateSignals(s.params, data).value, index).value.tradeType == Buy
    ensures index >= 1
    ensures var rows := MomentumStrategy.GenerateSignals(s.params, data).value.rows;
            rows[index].signal > rows[index - 1].signal
    ensures var rows := MomentumStrategy.GenerateSignals(s.params, data).value.rows;
            rows[index].shortEma >= rows[index].longEma
  {
  }
}
