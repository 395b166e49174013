/** The risk gate: volatility-scaled sizing, the ordered pre-trade checks,
    position tracking with a daily P&L and trade history, the daily reset,
    and the portfolio-level limits. */
module Risk {
  import opened Common
  import opened TradeModel

  datatype RiskParameters = RiskParameters(
    maxPositionSize: real,
    maxDailyDrawdown: real,
    maxTradesPerDay: int,
    maxConcurrentTrades: int,
    minTradeSize: real,
    maxLeverage: real,
    emergencyStopLoss: real,
    volatilityThreshold: real)

  const DefaultRiskParameters: RiskParameters :=
    RiskParameters(1000.0, 5.0, 10, 2, 10.0, 1.0, 15.0, 30.0)

  /** The fields of a position update the manager reads; an absent field is
      `None`. A `timestamp` field in the update replaces the history entry's
      own time stamp, as the update is spread after it. */
  datatype PositionUpdate = PositionUpdate(
    status: Option<string>,
    realizedPnl: Option<real>,
    size: Option<real>,
    price: Option<real>,
    timestamp: Option<Timestamp>)

  datatype HistoryEntry = HistoryEntry(tradeId: string, timestamp: Timestamp, update: PositionUpdate)

  /** One pre-trade rule, in the order the gate applies them. */
  datatype RiskCheck =
    | MaxDailyTrades
    | MaxConcurrentPositions
    | SizeAboveMaximum
    | SizeBelowMinimum
    | StopLossTooWide
    | PoorRewardRisk
  {
    function Message(): string {
      match this
      case MaxDailyTrades => "Maximum daily trades exceeded"
      case MaxConcurrentPositions => "Maximum concurrent positions reached"
      case SizeAboveMaximum => "Position size exceeds maximum allowed"
      case SizeBelowMinimum => "Position size below minimum allowed"
      case StopLossTooWide => "Stop loss exceeds maximum allowed"
      case PoorRewardRisk => "Insufficient risk/reward ratio"
    }
  }

  const CheckOrder: seq<RiskCheck> :=
    [MaxDailyTrades, MaxConcurrentPositions, SizeAboveMaximum, SizeBelowMinimum, StopLossTooWide, PoorRewardRisk]

  datatype TradeDecision = Accepted | Rejected(check: RiskCheck) {
    function Message(): string {
      match this
      case Accepted => "Trade validated"
      case Rejected(c) => c.Message()
    }
  }

  /** What the checks look at: the counts after the daily reset and the
      proposed trade. */
  datatype TradeProposal = TradeProposal(
    historyCount: nat, openCount: nat, size: real, price: real, stopLoss: real, takeProfit: real)

  datatype LimitStatus = WithinLimits | DrawdownExceeded | ExposureExceeded | VolatilityTooHigh {
    function Message(): string {
      match this
      case WithinLimits => "Within risk limits"
      case DrawdownExceeded => "Daily drawdown limit exceeded"
      case ExposureExceeded => "Total exposure limit exceeded"
      case VolatilityTooHigh => "Market volatility too high"
    }
  }

  /** What the exchange's volatility feed yields: a reading or an error. */
  datatype VolatilityReading = Reading(value: real) | FeedError

  datatype RiskMetrics = RiskMetrics(
    dailyPnl: real,
    openPositions: nat,
    dailyTrades: nat,
    totalExposure: real,
    exposureLimitRemaining: real,
    tradesRemainingToday: int)

  function Abs(x: real): real { if x < 0.0 then -x else x }

  function Min(a: real, b: real): real { if a <= b then a else b }

  function Max(a: real, b: real): real { if a >= b then a else b }

  /** `abs((stop - price) / price * 100) > limit` with the price an array
      scalar: a zero price divides to an infinity when the stop is nonzero
      (too wide) and to NaN when it is zero (not too wide). */
  predicate StopDistanceExceeds(price: real, stopLoss: real, limit: real)
  {
    if price == 0.0 then stopLoss != 0.0
    else Abs((stopLoss - price) / price * 100.0) > limit
  }

  /** Whether one rule rejects the proposal. */
  predicate Fails(p: RiskParameters, c: RiskCheck, t: TradeProposal)
  {
    match c
    case MaxDailyTrades => t.historyCount >= p.maxTradesPerDay
    case MaxConcurrentPositions => t.openCount >= p.maxConcurrentTrades
    case SizeAboveMaximum => t.size > p.maxPositionSize
    case SizeBelowMinimum => t.size < p.minTradeSize
    case StopLossTooWide => StopDistanceExceeds(t.price, t.stopLoss, p.emergencyStopLoss)
    case PoorRewardRisk =>
      var risk := Abs(t.price - t.stopLoss);
      var reward := Abs(t.takeProfit - t.price);
      risk > 0.0 && reward / risk < 1.5
  }

  /** The first rule of `checks` that rejects, or acceptance. */
  function FirstFailure(p: RiskParameters, checks: seq<RiskCheck>, t: TradeProposal): TradeDecision
  {
    if |checks| == 0 then Accepted
    else if Fails(p, checks[0], t) then Rejected(checks[0])
    else FirstFailure(p, checks[1..], t)
  }

  /** The first-failure rule, stated outright: a rejection names a rule that
      fails and that every earlier rule passed; acceptance means every rule
      passed. */
  lemma {:induction false} FirstFailureCharacterized(p: RiskParameters, checks: seq<RiskCheck>, t: TradeProposal)
    ensures FirstFailure(p, checks, t) == Accepted <==> forall i :: 0 <= i < |checks| ==> !Fails(p, checks[i], t)
    ensures FirstFailure(p, checks, t).Rejected? ==>
              exists k :: 0 <= k < |checks| && checks[k] == FirstFailure(p, checks, t).check
                && Fails(p, checks[k], t) && forall i :: 0 <= i < k ==> !Fails(p, checks[i], t)
  {
    if |checks| > 0 && !Fails(p, checks[0], t) {
      FirstFailureCharacterized(p, checks[1..], t);
      if FirstFailure(p, checks, t).Rejected? {
        var k :| 0 <= k < |checks[1..]| && checks[1..][k] == FirstFailure(p, checks[1..], t).check
                && Fails(p, checks[1..][k], t) && forall i :: 0 <= i < k ==> !Fails(p, checks[1..][i], t);
        assert checks[k + 1] == checks[1..][k];
        forall i | 0 <= i < k + 1
          ensures !Fails(p, checks[i], t)
        {
          if i > 0 {
            assert checks[i] == checks[1..][i - 1];
          }
        }
      } else {
        forall i | 0 <= i < |checks|
          ensures !Fails(p, checks[i], t)
        {
          if i > 0 {
            assert checks[i] == checks[1..][i - 1];
          }
        }
      }
    }
  }

  /** The gate's verdict on a proposal: the six rules in their fixed order. */
  function Decide(p: RiskParameters, t: TradeProposal): TradeDecision
  {
    if t.historyCount >= p.maxTradesPerDay then Rejected(MaxDailyTrades)
    else if t.openCount >= p.maxConcurrentTrades then Rejected(MaxConcurrentPositions)
    else if t.size > p.maxPositionSize then Rejected(SizeAboveMaximum)
    else if t.size < p.minTradeSize then Rejected(SizeBelowMinimum)
    else if StopDistanceExceeds(t.price, t.stopLoss, p.emergencyStopLoss) then Rejected(StopLossTooWide)
    else
      var risk := Abs(t.price - t.stopLoss);
      var reward := Abs(t.takeProfit - t.price);
      if risk > 0.0 && reward / risk < 1.5 then Rejected(PoorRewardRisk)
      else Accepted
  }

  /** The nested tests of the gate apply exactly the rules of `CheckOrder`,
      first failure first. */
  lemma DecideIsFirstFailure(p: RiskParameters, t: TradeProposal)
    ensures Decide(p, t) == FirstFailure(p, CheckOrder, t)
  {
    var c0 := CheckOrder;
    var c1 := c0[1..];
    var c2 := c1[1..];
    var c3 := c2[1..];
    var c4 := c3[1..];
    var c5 := c4[1..];
    var c6 := c5[1..];
    assert c1 == [MaxConcurrentPositions, SizeAboveMaximum, SizeBelowMinimum, StopLossTooWide, PoorRewardRisk];
    assert c5 == [PoorRewardRisk] && c6 == [];
    assert FirstFailure(p, c6, t) == Accepted;
    assert FirstFailure(p, c5, t) == if Fails(p, PoorRewardRisk, t) then Rejected(PoorRewardRisk) else Accepted;
    assert FirstFailure(p, c4, t) == if Fails(p, StopLossTooWide, t) then Rejected(StopLossTooWide) else FirstFailure(p, c5, t);
    assert FirstFailure(p, c3, t) == if Fails(p, SizeBelowMinimum, t) then Rejected(SizeBelowMinimum) else FirstFailure(p, c4, t);
    assert FirstFailure(p, c2, t) == if Fails(p, SizeAboveMaximum, t) then Rejected(SizeAboveMaximum) else FirstFailure(p, c3, t);
    assert FirstFailure(p, c1, t) ==
      if Fails(p, MaxConcurrentPositions, t) then Rejected(MaxConcurrentPositions) else FirstFailure(p, c2, t);
    assert FirstFailure(p, c0, t) == if Fails(p, MaxDailyTrades, t) then Rejected(MaxDailyTrades) else FirstFailure(p, c1, t);
  }

  /** A full day's quota rejects whatever else the proposal says; one slot
      short of the quota lets an otherwise sound proposal through. */
  lemma DailyQuotaBoundary(p: RiskParameters, t: TradeProposal)
    requires t.historyCount == p.maxTradesPerDay - 1
    requires t.openCount < p.maxConcurrentTrades
    requires p.minTradeSize <= t.size <= p.maxPositionSize
    requires t.price > 0.0 && t.stopLoss == t.price && p.emergencyStopLoss >= 0.0
    ensures Decide(p, t) == Accepted
    ensures Decide(p, t.(historyCount := t.historyCount + 1)) == Rejected(MaxDailyTrades)
  {
    assert (t.stopLoss - t.price) / t.price == 0.0;
  }

  /** An acceptance means every one of the six rules passed. */
  lemma AcceptedPassesAll(p: RiskParameters, t: TradeProposal)
    requires Decide(p, t) == Accepted
    ensures t.historyCount < p.maxTradesPerDay && t.openCount < p.maxConcurrentTrades
    ensures p.minTradeSize <= t.size <= p.maxPositionSize
    ensures !StopDistanceExceeds(t.price, t.stopLoss, p.emergencyStopLoss)
    ensures Abs(t.price - t.stopLoss) > 0.0 ==>
              Abs(t.takeProfit - t.price) >= 1.5 * Abs(t.price - t.stopLoss)
  {
    var risk := Abs(t.price - t.stopLoss);
    var reward := Abs(t.takeProfit - t.price);
    if risk > 0.0 {
      assert reward / risk >= 1.5;
      assert reward == (reward / risk) * risk;
    }
  }

  /** `max(0.2, 1 - volatility / threshold)`; Python raises on a zero
      threshold. */
  function VolatilityScalar(volatility: real, threshold: real): (s: Option<real>)
    ensures s.Some? <==> threshold != 0.0
    ensures s.Some? ==> s.value >= 0.2
    ensures s.Some? && threshold > 0.0 && volatility >= 0.0 ==> s.value <= 1.0
  {
    if threshold == 0.0 then None
    else Some(Max(0.2, 1.0 - volatility / threshold))
  }

  /** The history entries strictly newer than `cutoff`, in their order. */
  function Recent(history: seq<HistoryEntry>, cutoff: Timestamp): (r: seq<HistoryEntry>)
    ensures |r| <= |history|
    ensures forall e :: e in r <==> e in history && e.timestamp > cutoff
  {
    if |history| == 0 then []
    else
      var last := history[|history| - 1];
      Recent(history[..|history| - 1], cutoff) + (if last.timestamp > cutoff then [last] else [])
  }

  /** Whether the daily counters are stale: more than one day since the
      last reset. */
  predicate DueForReset(lastReset: Timestamp, now: Timestamp)
  {
    now - lastReset > MicrosPerDay
  }

  /** Notional of one tracked position, absent fields counting as zero. */
  function Notional(u: PositionUpdate): real
  {
    u.size.GetOr(0.0) * u.price.GetOr(0.0)
  }

  /** Some open position's symbol. */
  ghost function Pick(positions: map<string, PositionUpdate>): (k: string)
    requires |positions| > 0
    ensures k in positions
  {
    var k :| k in positions; k
  }

  /** Total exposure: the sum of notionals over the open positions. */
  ghost function Exposure(positions: map<string, PositionUpdate>): real
    decreases |positions|
  {
    if |positions| == 0 then 0.0
    else
      var k := Pick(positions);
      Notional(positions[k]) + Exposure(positions - {k})
  }

  /** Exposure does not depend on the order positions are summed in: any
      one position can be taken out first. */
  lemma {:induction false} ExposureRemove(positions: map<string, PositionUpdate>, k: string)
    requires k in positions
    ensures Exposure(positions) == Notional(positions[k]) + Exposure(positions - {k})
    decreases |positions|
  {
    var j := Pick(positions);
    if j != k {
      var rest := positions - {j};
      var others := positions - {k};
      var both := rest - {k};
      assert k in rest && rest[k] == positions[k];
      assert j in others && others[j] == positions[j];
      assert others - {j} == both;
      assert |others| == |positions| - 1;
      ExposureRemove(rest, k);
      ExposureRemove(others, j);
      assert Exposure(rest) == Notional(positions[k]) + Exposure(both);
      assert Exposure(others) == Notional(positions[j]) + Exposure(both);
    }
  }

  /** Updating or inserting one position moves the exposure by the change in
      that position's notional. */
  lemma ExposureUpsert(positions: map<string, PositionUpdate>, k: string, u: PositionUpdate)
    ensures Exposure(positions[k := u]) ==
              Exposure(positions) - (if k in positions then Notional(positions[k]) else 0.0) + Notional(u)
  {
    var m := positions[k := u];
    assert k in m && m[k] == u;
    ExposureRemove(m, k);
    assert m - {k} == positions - {k};
    assert Exposure(m) == Notional(u) + Exposure(positions - {k});
    if k in positions {
      ExposureRemove(positions, k);
    } else {
      assert positions - {k} == positions;
    }
  }

  class RiskManager {
    const params: RiskParameters
    /** Whether an exchange client was supplied; volatility is checked only
        then. */
    const hasExchangeClient: bool
    var tradeHistory: seq<HistoryEntry>
    var openPositions: map<string, PositionUpdate>
    var dailyPnl: real
    var lastReset: Timestamp

    constructor (params: RiskParameters, hasExchangeClient: bool, now: Timestamp)
      ensures this.params == params && this.hasExchangeClient == hasExchangeClient
      ensures tradeHistory == [] && openPositions == map[] && dailyPnl == 0.0 && lastReset == now
    {
      this.params := params;
      this.hasExchangeClient := hasExchangeClient;
      tradeHistory := [];
      openPositions := map[];
      dailyPnl := 0.0;
      lastReset := now;
    }

    /** Safe position size in USD: 1% of capital capped by the maximum
        position, scaled down with volatility; 0 when that falls below the
        minimum trade size. */
    function CalculatePositionSize(capital: real, price: real, volatility: real): (size: Option<real>)
      ensures size.None? <==> params.volatilityThreshold == 0.0
      ensures size.Some? ==>
                var base := Min(capital * 0.01, params.maxPositionSize) * VolatilityScalar(volatility, params.volatilityThreshold).value;
                && (base < params.minTradeSize ==> size.value == 0.0)
                && (base >= params.minTradeSize ==> size.value == Min(base, params.maxPositionSize))
    {
      var scalar := VolatilityScalar(volatility, params.volatilityThreshold);
      if scalar.None? then None
      else
        var base := Min(capital * 0.01, params.maxPositionSize) * scalar.value;
        if base < params.minTradeSize then Some(0.0)
        else Some(Min(base, params.maxPositionSize))
    }

    /** Takes the daily reset when it is due: zeroes the daily P&L, keeps
        only the last day's history and restarts the day at `now`. */
    method ResetDailyMetrics(now: Timestamp)
      modifies this`dailyPnl, this`tradeHistory, this`lastReset
      ensures DueForReset(old(lastReset), now) ==>
                dailyPnl == 0.0 && tradeHistory == Recent(old(tradeHistory), now - MicrosPerDay) && lastReset == now
      ensures !DueForReset(old(lastReset), now) ==>
                dailyPnl == old(dailyPnl) && tradeHistory == old(tradeHistory) && lastReset == old(lastReset)
    {
      if DueForReset(lastReset, now) {
        dailyPnl := 0.0;
        tradeHistory := Recent(tradeHistory, now - MicrosPerDay);
        lastReset := now;
      }
    }

    /** Runs the daily reset, then the six rules in order; the first that
        fails is the verdict. Open positions are left alone. */
    method ValidateTrade(tradeType: TradeType, size: real, price: real, stopLoss: real, takeProfit: real,
                         now: Timestamp) returns (d: TradeDecision)
      modifies this`dailyPnl, this`tradeHistory, this`lastReset
      ensures DueForReset(old(lastReset), now) ==>
                dailyPnl == 0.0 && tradeHistory == Recent(old(tradeHistory), now - MicrosPerDay) && lastReset == now
      ensures !DueForReset(old(lastReset), now) ==>
                dailyPnl == old(dailyPnl) && tradeHistory == old(tradeHistory) && lastReset == old(lastReset)
      ensures d == FirstFailure(params, CheckOrder,
                                TradeProposal(|tradeHistory|, |openPositions|, size, price, stopLoss, takeProfit))
    {
      ResetDailyMetrics(now);
      var proposal := TradeProposal(|tradeHistory|, |openPositions|, size, price, stopLoss, takeProfit);
      if |tradeHistory| >= params.maxTradesPerDay {
        d := Rejected(MaxDailyTrades);
      } else if |openPositions| >= params.maxConcurrentTrades {
        d := Rejected(MaxConcurrentPositions);
      } else if size > params.maxPositionSize {
        d := Rejected(SizeAboveMaximum);
      } else if size < params.minTradeSize {
        d := Rejected(SizeBelowMinimum);
      } else if StopDistanceExceeds(price, stopLoss, params.emergencyStopLoss) {
        d := Rejected(StopLossTooWide);
      } else {
        var risk := Abs(price - stopLoss);
        var reward := Abs(takeProfit - price);
        if risk > 0.0 && reward / risk < 1.5 {
          d := Rejected(PoorRewardRisk);
        } else {
          d := Accepted;
        }
      }
      assert d == Decide(params, proposal);
      DecideIsFirstFailure(params, proposal);
    }

    /** Records a position update: a close of a tracked position books its
        P&L and stops tracking it (a close of an unknown id books nothing),
        anything else inserts or replaces the position; either way one
        history entry is appended. */
    method UpdatePosition(tradeId: string, update: PositionUpdate, now: Timestamp)
      modifies this`dailyPnl, this`tradeHistory, this`openPositions
      ensures update.status == Some("closed") && tradeId in old(openPositions) ==>
                dailyPnl == old(dailyPnl) + update.realizedPnl.GetOr(0.0)
                && openPositions == old(openPositions) - {tradeId}
      ensures update.status == Some("closed") && tradeId !in old(openPositions) ==>
                dailyPnl == old(dailyPnl) && openPositions == old(openPositions)
      ensures update.status != Some("closed") ==>
                dailyPnl == old(dailyPnl) && openPositions == old(openPositions)[tradeId := update]
      ensures tradeHistory == old(tradeHistory) + [HistoryEntry(tradeId, update.timestamp.GetOr(now), update)]
    {
      if update.status == Some("closed") {
        if tradeId in openPositions {
          dailyPnl := dailyPnl + update.realizedPnl.GetOr(0.0);
          openPositions := openPositions - {tradeId};
        }
      } else {
        openPositions := openPositions[tradeId := update];
      }
      tradeHistory := tradeHistory + [HistoryEntry(tradeId, update.timestamp.GetOr(now), update)];
    }

    /** Sums the notionals of the open positions. */
    method TotalExposure() returns (total: real)
      ensures total == Exposure(openPositions)
    {
      total := 0.0;
      var rest := openPositions;
      while rest != map[]
        invariant forall k :: k in rest ==> k in openPositions && rest[k] == openPositions[k]
        invariant total + Exposure(rest) == Exposure(openPositions)
        decreases |rest|
      {
        var k :| k in rest;
        ExposureRemove(rest, k);
        total := total + Notional(rest[k]);
        rest := rest - {k};
      }
    }

    /** Runs the daily reset, then the portfolio limits in order: daily P&L
        magnitude, total exposure, and market volatility when an exchange
        client is present (a feed error is ignored). */
    method CheckRiskLimits(now: Timestamp, volatility: VolatilityReading) returns (s: LimitStatus)
      modifies this`dailyPnl, this`tradeHistory, this`lastReset
      ensures DueForReset(old(lastReset), now) ==>
                dailyPnl == 0.0 && tradeHistory == Recent(old(tradeHistory), now - MicrosPerDay) && lastReset == now
      ensures !DueForReset(old(lastReset), now) ==>
                dailyPnl == old(dailyPnl) && tradeHistory == old(tradeHistory) && lastReset == old(lastReset)
      ensures s == DrawdownExceeded <==> Abs(dailyPnl) > params.maxDailyDrawdown
      ensures s == ExposureExceeded <==>
                Abs(dailyPnl) <= params.maxDailyDrawdown && Exposure(openPositions) > params.maxPositionSize
      ensures s == VolatilityTooHigh <==>
                && Abs(dailyPnl) <= params.maxDailyDrawdown && Exposure(openPositions) <= params.maxPositionSize
                && hasExchangeClient && volatility.Reading? && volatility.value > params.volatilityThreshold
    {
      ResetDailyMetrics(now);
      if Abs(dailyPnl) > params.maxDailyDrawdown {
        return DrawdownExceeded;
      }
      var exposure := TotalExposure();
      if exposure > params.maxPositionSize {
        return ExposureExceeded;
      }
      if hasExchangeClient && volatility.Reading? && volatility.value > params.volatilityThreshold {
        return VolatilityTooHigh;
      }
      return WithinLimits;
    }

    /** Runs the daily reset, then reports the daily figures and how much of
        each limit remains. */
    method GetRiskMetrics(now: Timestamp) returns (m: RiskMetrics)
      modifies this`dailyPnl, this`tradeHistory, this`lastReset
      ensures DueForReset(old(lastReset), now) ==>
                dailyPnl == 0.0 && tradeHistory == Recent(old(tradeHistory), now - MicrosPerDay) && lastReset == now
      ensures !DueForReset(old(lastReset), now) ==>
                dailyPnl == old(dailyPnl) && tradeHistory == old(tradeHistory) && lastReset == old(lastReset)
      ensures m.dailyPnl == dailyPnl && m.openPositions == |openPositions| && m.dailyTrades == |tradeHistory|
      ensures m.totalExposure == Exposure(openPositions)
      ensures m.exposureLimitRemaining + m.totalExposure == params.maxPositionSize
      ensures m.tradesRemainingToday + m.dailyTrades == params.maxTradesPerDay
    {
      ResetDailyMetrics(now);
      var exposure := TotalExposure();
      m := RiskMetrics(dailyPnl, |openPositions|, |tradeHistory|, exposure,
                       params.maxPositionSize - exposure, params.maxTradesPerDay - |tradeHistory|);
    }
  }

  /** For a non-negative volatility under a positive threshold and a
      non-negative capital and cap, a nonzero size lies between a fifth of
      the capped 1% of capital and the cap, and never above 1% of capital. */
  lemma PositionSizeBounds(m: RiskManager, capital: real, price: real, volatility: real)
    requires m.params.volatilityThreshold > 0.0 && volatility >= 0.0
    requires capital >= 0.0 && m.params.maxPositionSize >= 0.0
    ensures var size := m.CalculatePositionSize(capital, price, volatility);
            && size.Some?
            && 0.0 <= size.value <= m.params.maxPositionSize
            && size.value <= capital * 0.01
            && (size.value != 0.0 ==>
                  size.value >= 0.2 * Min(capital * 0.01, m.params.maxPositionSize)
                  && size.value >= Min(m.params.minTradeSize, m.params.maxPositionSize))
  {
    var s := VolatilityScalar(volatility, m.params.volatilityThreshold).value;
    var cap := Min(capital * 0.01, m.params.maxPositionSize);
    assert 0.2 <= s <= 1.0;
    assert cap >= 0.0;
    assert cap * s <= cap by {
      assert cap * (1.0 - s) >= 0.0;
    }
    assert cap * s >= 0.2 * cap by {
      assert cap * (s - 0.2) >= 0.0;
    }
  }
}
