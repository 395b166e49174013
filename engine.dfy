/** The backtesting engine: slippage and fee-adjusted sizing, trade
    execution, the single-position bar loop that moves capital, the forced
    close at the end of the series, and the grid search over strategy
    parameters. */
module Backtesting {
  import opened Common
  import opened TradeModel
  import opened Strategy
  import opened Risk
  import opened BacktestMetrics

  datatype BacktestParameters = BacktestParameters(
    initialCapital: real,
    tradingFees: real,
    slippage: real,
    includeFees: bool,
    includeSlippage: bool,
    enableFractional: bool)

  const DefaultBacktestParameters: BacktestParameters :=
    BacktestParameters(10000.0, 0.001, 0.001, true, true, true)

  datatype EngineError =
    | SignalError(cause: StrategyError)
    /** The slipped price is zero, so the position size is not a finite
        number. */
    | NonFinitePositionSize
    /** A grid key that is not a strategy parameter. */
    | UnknownParameter
    /** The metrics could not be computed. */
    | MetricsFailure(reason: MetricsError)

  datatype BacktestResults = BacktestResults(
    trades: seq<Trade>,
    equityCurve: seq<EquitySample>,
    metrics: Option<Metrics>,
    parameterValues: map<string, real>)

  /** An optimisation score: a metric value, or minus infinity when the
      metric is missing. */
  datatype Score = NegInf | Finite(value: real)

  predicate Greater(a: Score, b: Score)
  {
    a.Finite? && (b.NegInf? || a.value > b.value)
  }

  function Opposite(t: TradeType): TradeType
  {
    if t == Buy then Sell else Buy
  }

  /** The realized P&Ls of the trades, in order. */
  function Pnls(trades: seq<Trade>): (ps: seq<Option<real>>)
    reads set t | t in trades
    ensures |ps| == |trades|
    ensures forall k :: 0 <= k < |trades| ==> ps[k] == trades[k].realizedPnl
  {
    seq(|trades|, k reads set t | t in trades requires 0 <= k < |trades| => trades[k].realizedPnl)
  }

  // ----- the grid of the optimiser -------------------------------------

  /** One prefix extended by each value in turn. */
  function Row(p: seq<real>, xs: seq<real>): (r: seq<seq<real>>)
    ensures |r| == |xs|
    ensures forall j :: 0 <= j < |xs| ==> r[j] == p + [xs[j]]
  {
    if |xs| == 0 then [] else [p + [xs[0]]] + Row(p, xs[1..])
  }

  /** Extends every prefix with every value, prefix by prefix. */
  function Extend(prefixes: seq<seq<real>>, xs: seq<real>): (r: seq<seq<real>>)
    ensures |r| == |prefixes| * |xs|
  {
    if |prefixes| == 0 then []
    else
      var r := Row(prefixes[0], xs) + Extend(prefixes[1..], xs);
      assert |xs| + (|prefixes| - 1) * |xs| == |prefixes| * |xs|;
      r
  }

  /** Every extended combination is some prefix followed by some value. */
  lemma {:induction false} ExtendMembers(prefixes: seq<seq<real>>, xs: seq<real>, c: seq<real>)
    returns (p: seq<real>, x: real)
    requires c in Extend(prefixes, xs)
    ensures p in prefixes && x in xs && c == p + [x]
  {
    var row := Row(prefixes[0], xs);
    if c in row {
      var j :| 0 <= j < |row| && row[j] == c;
      p, x := prefixes[0], xs[j];
    } else {
      p, x := ExtendMembers(prefixes[1..], xs, c);
    }
  }

  /** The Cartesian product of the value lists, first list outermost and
      last list varying fastest. */
  function Product(lists: seq<seq<real>>): seq<seq<real>>
  {
    if |lists| == 0 then [[]]
    else Extend(Product(lists[..|lists| - 1]), lists[|lists| - 1])
  }

  /** Every combination takes one value from each list, in list order. */
  lemma {:induction false} ProductMembers(lists: seq<seq<real>>, c: seq<real>)
    requires c in Product(lists)
    ensures |c| == |lists| && forall j :: 0 <= j < |c| ==> c[j] in lists[j]
  {
    if |lists| > 0 {
      var init := lists[..|lists| - 1];
      var p, x := ExtendMembers(Product(init), lists[|lists| - 1], c);
      ProductMembers(init, p);
      assert forall j :: 0 <= j < |p| ==> c[j] == p[j] && init[j] == lists[j];
    }
  }

  function CountProduct(lists: seq<seq<real>>): nat
  {
    if |lists| == 0 then 1 else CountProduct(lists[..|lists| - 1]) * |lists[|lists| - 1]|
  }

  /** The product has one combination per choice of a value from each list;
      an empty grid still yields the single empty combination. */
  lemma {:induction false} ProductSize(lists: seq<seq<real>>)
    ensures |Product(lists)| == CountProduct(lists)
  {
    if |lists| > 0 {
      ProductSize(lists[..|lists| - 1]);
    }
  }

  predicate Distinct(keys: seq<string>)
  {
    forall i, j :: 0 <= i < j < |keys| ==> keys[i] != keys[j]
  }

  /** `dict(zip(keys, values))`: pairs up to the shorter of the two. */
  function Zip(keys: seq<string>, values: seq<real>): (m: map<string, real>)
    ensures m.Keys == set i | 0 <= i < |keys| && i < |values| :: keys[i]
    ensures Distinct(keys) ==> forall i :: 0 <= i < |keys| && i < |values| ==> m[keys[i]] == values[i]
  {
    if |keys| == 0 || |values| == 0 then map[]
    else if |keys| > |values| then Zip(keys[..|values|], values)
    else if |values| > |keys| then Zip(keys, values[..|keys|])
    else
      var m := Zip(keys[..|keys| - 1], values[..|values| - 1]);
      assert forall i :: 0 <= i < |keys| - 1 ==> keys[..|keys| - 1][i] == keys[i];
      m[keys[|keys| - 1] := values[|values| - 1]]
  }

  const ParameterNames: set<string> :=
    {"short_ema_period", "long_ema_period", "take_profit_pct", "stop_loss_pct",
     "position_size_pct", "min_volume", "max_spread_pct"}

  /** `StrategyParameters(**d)`: every given field replaces its default; an
      unknown field is an error. */
  function ParamsFromDict(d: map<string, real>): (r: Result<StrategyParameters, EngineError>)
    ensures r.Success? <==> d.Keys <= ParameterNames
    ensures r.Success? ==>
              && r.value.shortEmaPeriod == (if "short_ema_period" in d then d["short_ema_period"] else 9.0)
              && r.value.longEmaPeriod == (if "long_ema_period" in d then d["long_ema_period"] else 21.0)
              && r.value.takeProfitPct == (if "take_profit_pct" in d then d["take_profit_pct"] else 2.0)
              && r.value.stopLossPct == (if "stop_loss_pct" in d then d["stop_loss_pct"] else 1.0)
              && r.value.positionSizePct == (if "position_size_pct" in d then d["position_size_pct"] else 1.0)
              && r.value.minVolume == (if "min_volume" in d then d["min_volume"] else 1000.0)
              && r.value.maxSpreadPct == (if "max_spread_pct" in d then d["max_spread_pct"] else 0.5)
  {
    if !(d.Keys <= ParameterNames) then Failure(UnknownParameter)
    else
      var p := DefaultStrategyParameters;
      Success(StrategyParameters(
        if "short_ema_period" in d then d["short_ema_period"] else p.shortEmaPeriod,
        if "long_ema_period" in d then d["long_ema_period"] else p.longEmaPeriod,
        if "take_profit_pct" in d then d["take_profit_pct"] else p.takeProfitPct,
        if "stop_loss_pct" in d then d["stop_loss_pct"] else p.stopLossPct,
        if "position_size_pct" in d then d["position_size_pct"] else p.positionSizePct,
        if "min_volume" in d then d["min_volume"] else p.minVolume,
        if "max_spread_pct" in d then d["max_spread_pct"] else p.maxSpreadPct))
  }

  /** The running best of a score sequence and where it was first reached:
      a later score replaces the best only when strictly greater. */
  function BestSoFar(scores: seq<Score>): (r: (Score, Option<nat>))
    ensures r.1.None? <==> r.0.NegInf?
    ensures r.1.Some? ==> r.1.value < |scores| && scores[r.1.value] == r.0
  {
    if |scores| == 0 then (NegInf, None)
    else
      var prev := BestSoFar(scores[..|scores| - 1]);
      var last := scores[|scores| - 1];
      if Greater(last, prev.0) then (last, Some(|scores| - 1)) else prev
  }

  /** The index the grid search keeps is the first maximum: its score beats
      every earlier one strictly and is at least every later one; no index
      is kept exactly when every score is minus infinity. */
  lemma {:induction false} FirstBestCharacterized(scores: seq<Score>)
    ensures BestSoFar(scores).1.None? <==> forall i :: 0 <= i < |scores| ==> scores[i].NegInf?
    ensures forall i :: 0 <= i < |scores| ==> !Greater(scores[i], BestSoFar(scores).0)
    ensures BestSoFar(scores).1.Some? ==>
              var j := BestSoFar(scores).1.value;
              && scores[j].Finite?
              && (forall i :: 0 <= i < j ==> Greater(scores[j], scores[i]))
              && (forall i :: j < i < |scores| ==> !Greater(scores[i], scores[j]))
  {
    if |scores| > 0 {
      var init := scores[..|scores| - 1];
      FirstBestCharacterized(init);
      assert forall i :: 0 <= i < |init| ==> init[i] == scores[i];
    }
  }

  class BacktestingEngine {
    const strategy: MomentumStrategy
    const riskManager: RiskManager
    const params: BacktestParameters
    /** The return-based metrics (total and annualized return, Sharpe and
        Sortino ratios) of an equity curve. */
    const performance: seq<EquitySample> -> map<string, real>
    var trades: seq<Trade>
    var equityCurve: seq<EquitySample>

    constructor (strategy: MomentumStrategy, riskManager: RiskManager, params: BacktestParameters,
                 performance: seq<EquitySample> -> map<string, real>)
      ensures this.strategy == strategy && this.riskManager == riskManager
      ensures this.params == params && this.performance == performance
      ensures trades == [] && equityCurve == []
    {
      this.strategy := strategy;
      this.riskManager := riskManager;
      this.params := params;
      this.performance := performance;
      trades := [];
      equityCurve := [];
    }

    /** The fill price: worse than `price` for the taker by the slippage
        rate when slippage is on. */
    function ApplySlippage(price: real, tradeType: TradeType): real
    {
      if !params.includeSlippage then price
      else price * (if tradeType == Buy then 1.0 + params.slippage else 1.0 - params.slippage)
    }

    /** The unrounded size bought with the strategy's share of `capital`
        at the slipped `price`, net of the fee rate when fees are on. */
    function RawSize(capital: real, price: real, tradeType: TradeType): real
      reads strategy
      requires ApplySlippage(price, tradeType) != 0.0
    {
      capital * strategy.params.positionSizePct / 100.0 / ApplySlippage(price, tradeType)
      * (if params.includeFees then 1.0 - params.tradingFees else 1.0)
    }

    /** Position size and fill price for spending the strategy's share of
        `capital` at `price`: the share divided by the fill, less the fee
        rate when fees are on, rounded down to whole units when fractional
        positions are off. */
    function PositionSizing(capital: real, price: real, tradeType: TradeType): (r: Result<(real, real), EngineError>)
      reads strategy
      ensures r.Failure? <==> ApplySlippage(price, tradeType) == 0.0
      ensures r.Success? ==> r.value.1 == ApplySlippage(price, tradeType)
      ensures r.Success? && params.enableFractional ==> r.value.0 == RawSize(capital, price, tradeType)
      ensures r.Success? && !params.enableFractional ==>
                r.value.0 == RawSize(capital, price, tradeType).Floor as real
                && r.value.0 <= RawSize(capital, price, tradeType) < r.value.0 + 1.0
    {
      var adjusted := ApplySlippage(price, tradeType);
      if adjusted == 0.0 then Failure(NonFinitePositionSize)
      else
        var base := capital * strategy.params.positionSizePct / 100.0 / adjusted;
        var afterFees := if params.includeFees then base - base * adjusted * params.tradingFees / adjusted else base;
        assert afterFees == RawSize(capital, price, tradeType) by {
          if params.includeFees {
            FeeCancels(base, adjusted, params.tradingFees);
          }
        }
        FloorBounds(afterFees);
        var size := if params.enableFractional then afterFees else afterFees.Floor as real;
        Success((size, adjusted))
    }

    /** The fee charged on `size` units at `price`: the fee rate of the
        notional when fees are on, nothing otherwise. */
    function Fee(size: real, price: real): real
    {
      if params.includeFees then size * price * params.tradingFees else 0.0
    }

    /** Cash paid to open a position: notional plus its fee. */
    function EntryCost(size: real, entry: real): real
    {
      size * entry + Fee(size, entry)
    }

    /** Mark-to-market value of a position at `close`: notional less its
        fee. */
    function PositionValue(size: real, close: real): real
    {
      size * close - Fee(size, close)
    }

    /** Opens a trade at the slipped price for the strategy's share of
        `capital`, unless the size is not positive. The trade records the
        strategy's stop and target percentages in its stop and target
        fields. */
    method ExecuteTrade(tradeType: TradeType, price: real, time: Timestamp, capital: real)
      returns (r: Result<Option<Trade>, EngineError>)
      ensures r.Failure? <==> PositionSizing(capital, price, tradeType).Failure?
      ensures r.Failure? ==> r.error == NonFinitePositionSize
      ensures r.Success? ==> (r.value.None? <==> PositionSizing(capital, price, tradeType).value.0 <= 0.0)
      ensures r.Success? && r.value.Some? ==>
                var t := r.value.value;
                var sizing := PositionSizing(capital, price, tradeType).value;
                && fresh(t)
                && t.tradeType == tradeType && t.status == Open && t.symbol == "BTC-USD"
                && t.entryPrice == sizing.1 && t.entryTime == time && t.size == sizing.0 && t.size > 0.0
                && t.stopLoss == strategy.params.stopLossPct && t.takeProfit == strategy.params.takeProfitPct
                && t.strategyName == "MomentumStrategy"
                && t.fees == Some(Fee(t.size, t.entryPrice))
                && t.exitPrice.None? && t.exitTime.None? && t.realizedPnl.None?
    {
      var sizing := PositionSizing(capital, price, tradeType);
      if sizing.Failure? {
        return Failure(sizing.error);
      }
      var (size, adjusted) := sizing.value;
      if size <= 0.0 {
        return Success(None);
      }
      var t := new Trade(tradeType, Open, "BTC-USD", adjusted, time, size,
                         strategy.params.stopLossPct, strategy.params.takeProfitPct, "MomentumStrategy", Fee(size, adjusted));
      return Success(Some(t));
    }

    /** One bar while a position is held: records the equity (cash plus the
        position's mark value) at the bar's time, then asks the strategy
        whether to exit. On an exit the trade is closed at the slipped
        close, the mark value is credited and the trade is appended. */
    method OnHeldBar(frame: SignalFrame, i: nat, position: Trade, capital: real, now: Timestamp)
      returns (exited: bool, capital': real)
      requires i < |frame.rows|
      requires position !in trades
      modifies this`equityCurve, this`trades, position
      ensures var row := frame.rows[i];
              equityCurve == SetSample(old(equityCurve), row.bar.time, capital + PositionValue(old(position.size), row.bar.close))
      ensures |equityCurve| <= |old(equityCurve)| + 1
      ensures DistinctTimes(old(equityCurve)) ==> DistinctTimes(equityCurve)
      ensures exited <==> strategy.ShouldExitPosition(frame, i).Exits()
      ensures exited ==>
                var row := frame.rows[i];
                && capital' == capital + PositionValue(old(position.size), row.bar.close)
                && trades == old(trades) + [position]
                && position.status == Closed
                && position.exitPrice == Some(ApplySlippage(row.bar.close, Opposite(old(position.tradeType))))
                && position.exitTime == Some(row.bar.time)
                && position.tradeType == old(position.tradeType) && position.size == old(position.size)
                && position.entryPrice == old(position.entryPrice) && position.entryTime == old(position.entryTime)
                && position.stopLoss == old(position.stopLoss) && position.takeProfit == old(position.takeProfit)
                && position.fees == old(position.fees) && position.symbol == old(position.symbol)
                && position.strategyName == old(position.strategyName)
      ensures exited ==> position.realizedPnl.Some?
      ensures !exited ==> capital' == capital && trades == old(trades) && unchanged(position)
    {
      var row := frame.rows[i];
      var value := PositionValue(position.size, row.bar.close);
      SetSampleProperties(equityCurve, row.bar.time, capital + value);
      equityCurve := SetSample(equityCurve, row.bar.time, capital + value);
      var decision := strategy.ShouldExitPosition(frame, i);
      if decision.Exits() {
        var exitPrice := ApplySlippage(row.bar.close, Opposite(position.tradeType));
        position.CloseTrade(exitPrice, Some(row.bar.time), now);
        capital' := capital + value;
        trades := trades + [position];
        exited := true;
      } else {
        capital' := capital;
        exited := false;
      }
    }

    /** One bar with no position: asks the strategy for an entry intent,
        has the risk manager validate it (sized at the strategy's share of
        cash, priced at the unslipped close), and on acceptance executes it
        and pays its entry cost. Without an intent, on a rejection or for a
        non-positive size, cash and position stay as they were. */
    method OnFlatBar(frame: SignalFrame, i: nat, capital: real, now: Timestamp)
      returns (r: Result<(Option<Trade>, real), EngineError>)
      requires i < |frame.rows|
      modifies riskManager`dailyPnl, riskManager`tradeHistory, riskManager`lastReset
      ensures riskManager.openPositions == old(riskManager.openPositions)
      ensures forall e :: e in riskManager.tradeHistory ==> e in old(riskManager.tradeHistory)
      ensures strategy.GetTradeSignal(frame, i).None? ==> r == Success((None, capital))
      ensures r.Success? && r.value.0.None? ==> r.value.1 == capital
      ensures r.Success? && r.value.0.Some? ==>
                var t := r.value.0.value;
                var intent := strategy.GetTradeSignal(frame, i).value;
                && strategy.GetTradeSignal(frame, i).Some?
                && fresh(t) && t.status == Open && t.tradeType == intent.tradeType
                && t.entryTime == frame.rows[i].bar.time
                && t.entryPrice == ApplySlippage(frame.rows[i].bar.close, intent.tradeType)
                && t.symbol == "BTC-USD" && t.strategyName == "MomentumStrategy"
                && t.size > 0.0
                && t.stopLoss == strategy.params.stopLossPct && t.takeProfit == strategy.params.takeProfitPct
                && t.fees == Some(Fee(t.size, t.entryPrice))
                && r.value.1 == capital - EntryCost(t.size, t.entryPrice)
      ensures r.Failure? ==> r.error == NonFinitePositionSize
      ensures strategy.GetTradeSignal(frame, i).None? ==> unchanged(riskManager)
      ensures strategy.GetTradeSignal(frame, i).Some? ==>
                && (DueForReset(old(riskManager.lastReset), now) ==>
                      riskManager.tradeHistory == Recent(old(riskManager.tradeHistory), now - MicrosPerDay))
                && (!DueForReset(old(riskManager.lastReset), now) ==>
                      riskManager.tradeHistory == old(riskManager.tradeHistory))
      ensures strategy.GetTradeSignal(frame, i).Some? ==>
                var it := strategy.GetTradeSignal(frame, i).value;
                var sizing := PositionSizing(capital, it.price, it.tradeType);
                && (r.Failure? <==> RiskAccepts(it, capital) && sizing.Failure?)
                && (r.Success? ==> (r.value.0.Some? <==> RiskAccepts(it, capital) && sizing.value.0 > 0.0))
                && (r.Success? && r.value.0.Some? ==> r.value.0.value.size == sizing.value.0)
    {
      var intent := strategy.GetTradeSignal(frame, i);
      if intent.None? {
        return Success((None, capital));
      }
      var it := intent.value;
      var share := capital * strategy.params.positionSizePct / 100.0;
      var d := riskManager.ValidateTrade(it.tradeType, share, it.price, it.stopLoss, it.takeProfit, now);
      assert d == FirstFailure(riskManager.params, CheckOrder,
                               TradeProposal(|riskManager.tradeHistory|, |riskManager.openPositions|, share,
                                             it.price, it.stopLoss, it.takeProfit));
      assert share == capital * strategy.params.positionSizePct / 100.0;
      assert d == Accepted <==> RiskAccepts(it, capital);
      if d != Accepted {
        return Success((None, capital));
      }
      var ex := ExecuteTrade(it.tradeType, it.price, frame.rows[i].bar.time, capital);
      if ex.Failure? {
        return Failure(ex.error);
      }
      if ex.value.None? {
        return Success((None, capital));
      }
      var t := ex.value.value;
      return Success((Some(t), capital - EntryCost(t.size, t.entryPrice)));
    }

    /** The risk manager, in its current state, accepts `it` proposed at
        the strategy's share of `capital` (a cash amount, not units) and
        at the unslipped intent price. */
    predicate RiskAccepts(it: TradeIntent, capital: real)
      reads riskManager, strategy
    {
      FirstFailure(riskManager.params, CheckOrder,
                   TradeProposal(|riskManager.tradeHistory|, |riskManager.openPositions|,
                                 capital * strategy.params.positionSizePct / 100.0,
                                 it.price, it.stopLoss, it.takeProfit)) == Accepted
    }

    /** A trade opened by this engine: the fixed symbol and strategy name,
        and the strategy's stop and target percentages as its stop and
        target. */
    predicate Stamped(t: Trade)
      reads t, strategy
    {
      && t.stopLoss == strategy.params.stopLossPct && t.takeProfit == strategy.params.takeProfitPct
      && t.symbol == "BTC-USD" && t.strategyName == "MomentumStrategy"
    }

    /** The trades of a run: closed, stamped and pairwise distinct. */
    predicate Ledger(ts: seq<Trade>)
      reads strategy, set t | t in ts
    {
      && (forall k :: 0 <= k < |ts| ==> ts[k].status == Closed && Stamped(ts[k]))
      && (forall k, l :: 0 <= k < l < |ts| ==> ts[k] != ts[l])
    }

    lemma LedgerAppend(ts: seq<Trade>, t: Trade)
      requires Ledger(ts) && t !in ts && t.status == Closed && Stamped(t)
      ensures Ledger(ts + [t])
    {
    }

    /** `t` is the time of a bar after the first on which the strategy has
        an entry intent. */
    ghost predicate EntryBar(frame: SignalFrame, t: Timestamp)
      reads strategy
    {
      exists j :: 1 <= j < |frame.rows| && frame.rows[j].bar.time == t && strategy.GetTradeSignal(frame, j).Some?
    }

    /** `t` is the time of a bar after the first on which the strategy's
        exit rules fire. */
    ghost predicate ExitBar(frame: SignalFrame, t: Option<Timestamp>)
      reads strategy
    {
      exists j :: 1 <= j < |frame.rows| && t == Some(frame.rows[j].bar.time) && strategy.ShouldExitPosition(frame, j).Exits()
    }

    /** `t` is the time of a bar after the first. */
    ghost predicate LaterBar(frame: SignalFrame, t: Timestamp)
    {
      exists j :: 1 <= j < |frame.rows| && frame.rows[j].bar.time == t
    }

    /** The strategy has an entry intent on no bar of the frame. */
    predicate NoIntents(frame: SignalFrame)
      reads strategy
    {
      forall j :: 0 <= j < |frame.rows| ==> strategy.GetTradeSignal(frame, j).None?
    }

    /** The trades and the curve of a finished run over `frame`: every
        trade was opened on an entry bar, and closed on an exit bar unless it
        is the last one, closed at the last bar's time by the forced close;
        every sample is at a later bar's time; a strategy without intents
        leaves no trade and no sample. */
    ghost predicate RunShape(frame: SignalFrame)
      reads this, strategy, set t | t in trades
    {
      && (forall k :: 0 <= k < |trades| ==> EntryBar(frame, trades[k].entryTime))
      && (forall k :: 0 <= k < |trades| ==>
            || ExitBar(frame, trades[k].exitTime)
            || (k == |trades| - 1 && |frame.rows| > 0 && trades[k].exitTime == Some(frame.rows[|frame.rows| - 1].bar.time)))
      && (forall k :: 0 <= k < |equityCurve| ==> LaterBar(frame, equityCurve[k].time))
      && (NoIntents(frame) ==> trades == [] && equityCurve == [])
    }

    /** What a run over `frame`, computed from `bars`, leaves behind: at
        most one trade per bar and fewer samples than bars (none at all for
        an empty series), samples at distinct times, a ledger of closed
        stamped trades, the shape above, and, for a strategy that tracks no
        position (so that no exit rule fires), at most the one trade of the
        forced close at the last bar's time and slipped close. */
    ghost predicate Finished(frame: SignalFrame, bars: seq<Bar>)
      reads this, strategy, set t | t in trades
    {
      && |trades| <= |bars|
      && (|bars| > 0 ==> |equityCurve| < |bars|)
      && (|bars| == 0 ==> trades == [] && equityCurve == [])
      && DistinctTimes(equityCurve)
      && Ledger(trades)
      && RunShape(frame)
      && (strategy.currentPosition.None? ==>
            && |trades| <= 1
            && (|trades| == 1 ==>
                  var last := bars[|bars| - 1];
                  && trades[0].exitTime == Some(last.time)
                  && trades[0].exitPrice == Some(ApplySlippage(last.close, Opposite(trades[0].tradeType)))))
    }

    /** A loop that ends flat leaves a finished run's shape. */
    lemma ShapeOfTrace(frame: SignalFrame)
      requires RunTrace(frame, None)
      ensures RunShape(frame)
    {
    }

    /** What the bar loop keeps: every recorded trade was opened on an entry
        bar and closed on an exit bar, the held position was opened on an
        entry bar, every sample is at a later bar's time, and a strategy
        without intents leaves no trade, no position and no sample. */
    ghost predicate RunTrace(frame: SignalFrame, position: Option<Trade>)
      reads this, strategy, set t | t in trades, if position.Some? then {position.value} else {}
    {
      && (forall k :: 0 <= k < |trades| ==> EntryBar(frame, trades[k].entryTime) && ExitBar(frame, trades[k].exitTime))
      && (position.Some? ==> EntryBar(frame, position.value.entryTime))
      && (forall k :: 0 <= k < |equityCurve| ==> LaterBar(frame, equityCurve[k].time))
      && (NoIntents(frame) ==> trades == [] && position.None? && equityCurve == [])
    }

    /** One bar of the loop: the held-position step when a position is
        held, otherwise the flat step. A trade is appended only when the
        held position exits, and then no position is left. */
    method Step(frame: SignalFrame, i: nat, position: Option<Trade>, capital: real, now: Timestamp)
      returns (r: Result<(Option<Trade>, real), EngineError>)
      requires i < |frame.rows|
      requires Ledger(trades)
      requires position.Some? ==> position.value !in trades && position.value.status == Open && Stamped(position.value)
      modifies this`trades, this`equityCurve, (if position.Some? then {position.value} else {})
      modifies riskManager`dailyPnl, riskManager`tradeHistory, riskManager`lastReset
      ensures riskManager.openPositions == old(riskManager.openPositions)
      ensures forall e :: e in riskManager.tradeHistory ==> e in old(riskManager.tradeHistory)
      ensures |equityCurve| <= |old(equityCurve)| + 1
      ensures DistinctTimes(old(equityCurve)) ==> DistinctTimes(equityCurve)
      ensures r.Failure? ==> r.error == NonFinitePositionSize
      ensures r.Success? ==> Ledger(trades)
      ensures r.Success? ==>
                || trades == old(trades)
                || (position.Some? && trades == old(trades) + [position.value] && r.value.0.None?)
      ensures r.Success? && r.value.0.Some? ==>
                var p := r.value.0.value;
                && p !in trades && p.status == Open && Stamped(p)
                && (|| (position.Some? && p == position.value)
                    || (fresh(p) && p.entryTime == frame.rows[i].bar.time && strategy.GetTradeSignal(frame, i).Some?))
      ensures strategy.currentPosition.None? ==> trades == old(trades)
      ensures position.Some? ==> position.value.entryTime == old(position.value.entryTime)
      ensures trades != old(trades) ==>
                && position.Some?
                && position.value.exitTime == Some(frame.rows[i].bar.time)
                && strategy.ShouldExitPosition(frame, i).Exits()
      ensures position.None? && strategy.GetTradeSignal(frame, i).None? ==> r == Success((None, capital))
      ensures position.None? ==> equityCurve == old(equityCurve)
      ensures |old(equityCurve)| <= |equityCurve|
      ensures forall k :: 0 <= k < |old(equityCurve)| ==> equityCurve[k].time == old(equityCurve)[k].time
      ensures forall k :: |old(equityCurve)| <= k < |equityCurve| ==> equityCurve[k].time == frame.rows[i].bar.time
      ensures i >= 1 && old(RunTrace(frame, position)) && r.Success? ==> RunTrace(frame, r.value.0)
    {
      if position.Some? {
        SetSampleTimes(equityCurve, frame.rows[i].bar.time,
                       capital + PositionValue(position.value.size, frame.rows[i].bar.close));
        var exited, capital' := OnHeldBar(frame, i, position.value, capital, now);
        if exited {
          return Success((None, capital'));
        }
        return Success((position, capital'));
      }
      r := OnFlatBar(frame, i, capital, now);
    }

    /** The bar loop from the second bar on, starting flat with the initial
        capital; returns the position still held after the last bar. */
    method RunBars(frame: SignalFrame, now: Timestamp) returns (r: Result<Option<Trade>, EngineError>)
      requires trades == [] && equityCurve == []
      modifies this`trades, this`equityCurve
      modifies riskManager`dailyPnl, riskManager`tradeHistory, riskManager`lastReset
      ensures riskManager.openPositions == old(riskManager.openPositions)
      ensures forall e :: e in riskManager.tradeHistory ==> e in old(riskManager.tradeHistory)
      ensures r.Failure? ==> r.error == NonFinitePositionSize
      ensures r.Success? ==>
                && |trades| + (if r.value.Some? then 1 else 0) + 1 <= |frame.rows| + (if |frame.rows| == 0 then 1 else 0)
                && |equityCurve| + 1 <= |frame.rows| + (if |frame.rows| == 0 then 1 else 0)
                && DistinctTimes(equityCurve)
                && Ledger(trades) && (forall k :: 0 <= k < |trades| ==> fresh(trades[k]))
                && (r.value.Some? ==>
                      && fresh(r.value.value) && r.value.value !in trades
                      && r.value.value.status == Open && Stamped(r.value.value))
                && (strategy.currentPosition.None? ==> trades == [])
      ensures r.Success? ==> RunTrace(frame, r.value)
    {
      var n := |frame.rows|;
      var capital := params.initialCapital;
      var position: Option<Trade> := None;
      var i := 1;
      while i < n
        invariant 1 <= i && (n > 0 ==> i <= n) && (n == 0 ==> i == 1)
        invariant riskManager.openPositions == old(riskManager.openPositions)
        invariant forall e :: e in riskManager.tradeHistory ==> e in old(riskManager.tradeHistory)
        invariant |trades| + (if position.Some? then 1 else 0) <= i - 1
        invariant |equityCurve| <= i - 1
        invariant DistinctTimes(equityCurve)
        invariant Ledger(trades) && forall k :: 0 <= k < |trades| ==> fresh(trades[k])
        invariant position.Some? ==>
                    && fresh(position.value) && position.value !in trades
                    && position.value.status == Open && Stamped(position.value)
        invariant strategy.currentPosition.None? ==> trades == []
        invariant RunTrace(frame, position)
      {
        var step := Step(frame, i, position, capital, now);
        if step.Failure? {
          return Failure(step.error);
        }
        position := step.value.0;
        capital := step.value.1;
        i := i + 1;
      }
      return Success(position);
    }

    /** Closes the position left open after the last bar at that bar's
        slipped close and appends it; cash is not credited. */
    method CloseAtEnd(frame: SignalFrame, position: Trade, now: Timestamp)
      requires |frame.rows| > 0
      requires Ledger(trades) && position !in trades && position.status == Open && Stamped(position)
      requires RunTrace(frame, Some(position))
      modifies this`trades, position
      ensures trades == old(trades) + [position] && Ledger(trades)
      ensures RunShape(frame)
      ensures var last := frame.rows[|frame.rows| - 1].bar;
              && position.tradeType == old(position.tradeType)
              && position.entryTime == old(position.entryTime)
              && position.exitTime == Some(last.time)
              && position.exitPrice == Some(ApplySlippage(last.close, Opposite(position.tradeType)))
    {
      var last := frame.rows[|frame.rows| - 1].bar;
      position.CloseTrade(ApplySlippage(last.close, Opposite(position.tradeType)), Some(last.time), now);
      assert Ledger(trades);
      LedgerAppend(trades, position);
      trades := trades + [position];
    }

    /** The forced close of the position the loop left open, and the
        finished run's shape that follows from it. */
    method FinishHeld(frame: SignalFrame, bars: seq<Bar>, position: Trade, now: Timestamp)
      requires |frame.rows| == |bars| > 0
      requires frame.rows[|bars| - 1].bar == bars[|bars| - 1]
      requires |trades| + 2 <= |bars| && |equityCurve| + 1 <= |bars| && DistinctTimes(equityCurve)
      requires Ledger(trades) && position !in trades && position.status == Open && Stamped(position)
      requires strategy.currentPosition.None? ==> trades == []
      requires RunTrace(frame, Some(position))
      modifies this`trades, position
      ensures trades == old(trades) + [position]
      ensures Finished(frame, bars)
    {
      CloseAtEnd(frame, position, now);
    }

    /** The bar loop followed by the forced close of a position still open
        after the last bar. */
    method Simulate(frame: SignalFrame, bars: seq<Bar>, now: Timestamp) returns (r: Result<(), EngineError>)
      requires |frame.rows| == |bars|
      requires |bars| > 0 ==> frame.rows[|bars| - 1].bar == bars[|bars| - 1]
      requires trades == [] && equityCurve == []
      modifies this`trades, this`equityCurve
      modifies riskManager`dailyPnl, riskManager`tradeHistory, riskManager`lastReset
      ensures riskManager.openPositions == old(riskManager.openPositions)
      ensures forall e :: e in riskManager.tradeHistory ==> e in old(riskManager.tradeHistory)
      ensures r.Failure? ==> r.error == NonFinitePositionSize
      ensures r.Success? ==> Finished(frame, bars) && forall k :: 0 <= k < |trades| ==> fresh(trades[k])
    {
      var held := RunBars(frame, now);
      if held.Failure? {
        return Failure(held.error);
      }
      if held.value.Some? {
        var position := held.value.value;
        ghost var before := trades;
        FinishHeld(frame, bars, position, now);
        assert forall k :: 0 <= k < |before| ==> trades[k] == before[k];
      } else {
        ShapeOfTrace(frame);
      }
      r := Success(());
    }

    /** Runs the strategy over the bars: resets the trade list and the
        curve, holds at most one position, closes a position still open
        after the last bar at that bar's slipped close (without crediting
        cash), and computes the metrics. A strategy that tracks no position
        never exits inside the loop, so its run yields at most the one
        forced trade. */
    method RunBacktest(data: BarSeries, now: Timestamp) returns (r: Result<BacktestResults, EngineError>)
      modifies this`trades, this`equityCurve
      modifies riskManager`dailyPnl, riskManager`tradeHistory, riskManager`lastReset
      ensures riskManager.openPositions == old(riskManager.openPositions)
      ensures forall e :: e in riskManager.tradeHistory ==> e in old(riskManager.tradeHistory)
      ensures SpanError(strategy.params).Some? ==> r == Failure(SignalError(SpanError(strategy.params).value))
      ensures r.Failure? ==>
                || SpanError(strategy.params).Some?
                || r.error == NonFinitePositionSize
                || r.error == MetricsFailure(SpanUnderOneDay)
      ensures r.Failure? && r.error.MetricsFailure? ==>
                ComputeMetrics(equityCurve, Pnls(trades), performance).Failure?
      ensures r.Success? ==>
                && r.value.trades == trades && r.value.equityCurve == equityCurve
                && ComputeMetrics(equityCurve, Pnls(trades), performance) == Success(r.value.metrics)
                && r.value.parameterValues == strategy.OptimizeParameters()
      ensures r.Success? ==> MomentumStrategy.GenerateSignals(strategy.params, data).Success?
      ensures r.Success? ==> Finished(MomentumStrategy.GenerateSignals(strategy.params, data).value, data.bars)
      ensures r.Success? ==> forall k :: 0 <= k < |trades| ==> fresh(trades[k])
    {
      trades, equityCurve := [], [];
      var signals := strategy.SignalFrameFor(data);
      if signals.Failure? {
        return Failure(SignalError(signals.error));
      }
      r := RunOnFrame(signals.value, data.bars, now);
    }

    /** The part of a backtest after the signals: the run over the frame
        and the results with their metrics. */
    method RunOnFrame(frame: SignalFrame, bars: seq<Bar>, now: Timestamp) returns (r: Result<BacktestResults, EngineError>)
      requires |frame.rows| == |bars|
      requires |bars| > 0 ==> frame.rows[|bars| - 1].bar == bars[|bars| - 1]
      requires trades == [] && equityCurve == []
      modifies this`trades, this`equityCurve
      modifies riskManager`dailyPnl, riskManager`tradeHistory, riskManager`lastReset
      ensures riskManager.openPositions == old(riskManager.openPositions)
      ensures forall e :: e in riskManager.tradeHistory ==> e in old(riskManager.tradeHistory)
      ensures r.Failure? ==> r.error == NonFinitePositionSize || r.error == MetricsFailure(SpanUnderOneDay)
      ensures r.Failure? && r.error.MetricsFailure? ==>
                Finished(frame, bars) && ComputeMetrics(equityCurve, Pnls(trades), performance).Failure?
      ensures r.Success? ==>
                && r.value.trades == trades && r.value.equityCurve == equityCurve
                && ComputeMetrics(equityCurve, Pnls(trades), performance) == Success(r.value.metrics)
                && r.value.parameterValues == strategy.OptimizeParameters()
      ensures r.Success? ==> Finished(frame, bars)
      ensures r.Success? ==> forall k :: 0 <= k < |trades| ==> fresh(trades[k])
    {
      var run := Simulate(frame, bars, now);
      if run.Failure? {
        return Failure(run.error);
      }
      var metrics := ComputeMetrics(equityCurve, Pnls(trades), performance);
      if metrics.Failure? {
        return Failure(MetricsFailure(metrics.error));
      }
      r := Success(BacktestResults(trades, equityCurve, metrics.value, strategy.OptimizeParameters()));
    }

    /** One grid point: sets the strategy's parameters from `d` and runs a
        backtest with them. */
    method TryParameters(data: BarSeries, d: map<string, real>, now: Timestamp)
      returns (r: Result<BacktestResults, EngineError>)
      modifies this`trades, this`equityCurve, strategy`params
      modifies riskManager`dailyPnl, riskManager`tradeHistory, riskManager`lastReset
      ensures ParamsFromDict(d).Failure? ==> r == Failure(ParamsFromDict(d).error)
      ensures r.Success? ==> ParamsFromDict(d) == Success(strategy.params)
    {
      var p := ParamsFromDict(d);
      if p.Failure? {
        return Failure(p.error);
      }
      strategy.params := p.value;
      r := RunBacktest(data, now);
    }

    /** Grid search: runs a backtest for every combination of the value
        lists in product order, scoring each by the named performance
        metric (minus infinity when missing), and keeps the first strictly
        best. The strategy is left with the last combination tried. */
    method OptimizeStrategy(data: BarSeries, keys: seq<string>, values: seq<seq<real>>, metric: string, now: Timestamp)
      returns (r: Result<(map<string, real>, Option<BacktestResults>), EngineError>, ghost scores: seq<Score>)
      requires |keys| == |values|
      requires Distinct(keys)
      modifies this`trades, this`equityCurve, strategy`params
      modifies riskManager`dailyPnl, riskManager`tradeHistory, riskManager`lastReset
      ensures r.Success? ==> |scores| == |Product(values)|
      ensures r.Success? && BestSoFar(scores).1.None? ==> r.value == (map[], None)
      ensures r.Success? && BestSoFar(scores).1.Some? ==>
                var j := BestSoFar(scores).1.value;
                && j < |Product(values)|
                && r.value.0 == Zip(keys, Product(values)[j])
                && r.value.1.Some?
                && RunScore(r.value.1.value, metric) == scores[j]
      ensures r.Success? && |Product(values)| > 0 ==>
                ParamsFromDict(Zip(keys, Product(values)[|Product(values)| - 1])) == Success(strategy.params)
      ensures r.Success? && |Product(values)| == 0 ==> strategy.params == old(strategy.params)
    {
      var combos := Product(values);
      var best: Score := NegInf;
      var bestParams: map<string, real> := map[];
      var bestResults: Option<BacktestResults> := None;
      scores := [];
      ghost var lastCombo: map<string, real> := map[];
      ghost var last := 0;
      var k := 0;
      while k < |combos|
        invariant 0 <= k <= |combos| && |scores| == k
        invariant BestSoFar(scores).0 == best
        invariant BestSoFar(scores).1.None? ==> bestParams == map[] && bestResults.None?
        invariant BestSoFar(scores).1.Some? ==>
                    var j := BestSoFar(scores).1.value;
                    bestParams == Zip(keys, combos[j]) && bestResults.Some? && RunScore(bestResults.value, metric) == scores[j]
        invariant k > 0 ==> last == k - 1 && lastCombo == Zip(keys, combos[last])
        invariant k > 0 ==> ParamsFromDict(lastCombo) == Success(strategy.params)
        invariant k == 0 ==> strategy.params == old(strategy.params)
      {
        var d := Zip(keys, combos[k]);
        var res := TryParameters(data, d, now);
        if res.Failure? {
          return Failure(res.error), scores;
        }
        lastCombo, last := d, k;
        var score := RunScore(res.value, metric);
        assert scores + [score] == (scores + [score])[..k] + [score];
        assert (scores + [score])[..k] == scores;
        scores := scores + [score];
        if Greater(score, best) {
          best := score;
          bestParams := d;
          bestResults := Some(res.value);
        }
        k := k + 1;
      }
      if best.NegInf? {
        return Success((map[], None)), scores;
      }
      return Success((bestParams, bestResults)), scores;
    }
  }

  /** The score of one run: the named performance metric, or minus infinity
      when the run has no metrics or lacks that one. */
  function RunScore(results: BacktestResults, metric: string): Score
  {
    if results.metrics.Some? && metric in results.metrics.value.performance
    then Finite(results.metrics.value.performance[metric])
    else NegInf
  }

  lemma FloorBounds(x: real)
    ensures x.Floor as real <= x < x.Floor as real + 1.0
  {
  }

  lemma FeeCancels(base: real, adjusted: real, fee: real)
    requires adjusted != 0.0
    ensures base - base * adjusted * fee / adjusted == base * (1.0 - fee)
  {
    assert base * adjusted * fee / adjusted == base * fee;
  }

  /** With a non-negative slippage rate the fill is never better than the
      quoted price for the taker: buys fill at or above it, sells at or
      below it; without slippage the price is unchanged. */
  lemma SlippageIsAdverse(e: BacktestingEngine, price: real)
    requires e.params.slippage >= 0.0 && price >= 0.0
    ensures e.ApplySlippage(price, Buy) >= price
    ensures e.ApplySlippage(price, Sell) <= price
    ensures !e.params.includeSlippage ==> e.ApplySlippage(price, Buy) == price == e.ApplySlippage(price, Sell)
  {
    assert price * (1.0 + e.params.slippage) == price + price * e.params.slippage;
    assert price * (1.0 - e.params.slippage) == price - price * e.params.slippage;
  }

  /** Cash accounting treats every position as bought: without fees and
      slippage, a round trip from entry price to exit close changes cash by
      size times (close - entry), which is the realized P&L of a buy and
      the negated realized P&L of a sell. */
  lemma RoundTripCash(e: BacktestingEngine, tradeType: TradeType, size: real, entry: real, close: real)
    requires !e.params.includeFees && !e.params.includeSlippage
    ensures var cashDelta := e.PositionValue(size, close) - e.EntryCost(size, entry);
            var realized := PriceMove(tradeType, entry, e.ApplySlippage(close, Opposite(tradeType))) * size;
            && (tradeType == Buy ==> cashDelta == realized)
            && (tradeType == Sell ==> cashDelta == -realized)
  {
    assert (close - entry) * size == size * close - size * entry;
    assert (entry - close) * size == -(size * close - size * entry);
  }
}
