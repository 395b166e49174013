/** The trade record: a position's entry, exit and performance fields, the
    pure reads derived from them (duration, activity, P&L, ROI) and the two
    operations that update a trade in place (status change and close). */
module TradeModel {
  import opened Common

  datatype TradeType = Buy | Sell

  datatype TradeStatus = Pending | Open | Closed | Cancelled | Failed

  /** Signed price move of a position: exit minus entry for a buy, entry
      minus exit for a sell. */
  function PriceMove(tradeType: TradeType, entry: real, exit: real): (d: real)
    ensures tradeType == Buy ==> d + entry == exit
    ensures tradeType == Sell ==> d + exit == entry
  {
    var diff := exit - entry;
    if tradeType == Sell then -diff else diff
  }

  /** Signed P&L of `size` units between `entry` and `exit`, net of `fee`. */
  function NetPnl(tradeType: TradeType, entry: real, exit: real, size: real, fee: real): real
  {
    PriceMove(tradeType, entry, exit) * size - fee
  }

  class Trade {
    var tradeType: TradeType
    var status: TradeStatus
    var symbol: string
    var entryPrice: real
    var entryTime: Timestamp
    var size: real
    var exitPrice: Option<real>
    var exitTime: Option<Timestamp>
    var stopLoss: real
    var takeProfit: real
    var realizedPnl: Option<real>
    var fees: Option<real>
    var strategyName: string
    var errorMessage: Option<string>
    var updatedAt: Option<Timestamp>

    /** A trade built in memory from its entry details; the exit fields,
        realized P&L and error message start unset. */
    constructor (tradeType: TradeType, status: TradeStatus, symbol: string,
                 entryPrice: real, entryTime: Timestamp, size: real,
                 stopLoss: real, takeProfit: real, strategyName: string, fees: real)
      ensures this.tradeType == tradeType && this.status == status && this.symbol == symbol
      ensures this.entryPrice == entryPrice && this.entryTime == entryTime && this.size == size
      ensures this.stopLoss == stopLoss && this.takeProfit == takeProfit
      ensures this.strategyName == strategyName && this.fees == Some(fees)
      ensures exitPrice == None && exitTime == None && realizedPnl == None
      ensures errorMessage == None && updatedAt == None
    {
      this.tradeType := tradeType;
      this.status := status;
      this.symbol := symbol;
      this.entryPrice := entryPrice;
      this.entryTime := entryTime;
      this.size := size;
      this.stopLoss := stopLoss;
      this.takeProfit := takeProfit;
      this.strategyName := strategyName;
      this.fees := Some(fees);
      exitPrice := None;
      exitTime := None;
      realizedPnl := None;
      errorMessage := None;
      updatedAt := None;
    }

    /** Fees as a number: an unset fee counts as zero (`fees or 0`). */
    function FeesOrZero(): (f: real)
      reads this
      ensures fees.Some? ==> f == fees.value
      ensures fees.None? ==> f == 0.0
    {
      fees.GetOr(0.0)
    }

    /** Seconds from entry to exit, once the trade has an exit time. */
    function Duration(): (d: Option<real>)
      reads this
      ensures d.Some? <==> exitTime.Some?
      ensures d.Some? ==> d.value * MicrosPerSecond as real == (exitTime.value - entryTime) as real
    {
      if exitTime.Some? then Some((exitTime.value - entryTime) as real / MicrosPerSecond as real)
      else None
    }

    /** A trade is active while pending or open. */
    predicate IsActive()
      reads this
      ensures IsActive() <==> status !in {Closed, Cancelled, Failed}
    {
      status == Pending || status == Open
    }

    /** Realized P&L net of fees, once a P&L has been realized. */
    function CurrentPnl(): (p: Option<real>)
      reads this
      ensures p.Some? <==> realizedPnl.Some?
      ensures p.Some? ==> p.value + FeesOrZero() == realizedPnl.value
    {
      if realizedPnl.Some? then Some(realizedPnl.value - FeesOrZero()) else None
    }

    /** ROI in percent of the invested notional; defined exactly when a P&L
        is realized and the notional entry price times size is positive. */
    function RoiPercentage(): (roi: Option<real>)
      reads this
      ensures roi.Some? <==> realizedPnl.Some? && entryPrice * size > 0.0
      ensures roi.Some? ==> roi.value * (entryPrice * size) == realizedPnl.value * 100.0
    {
      if realizedPnl.Some? && entryPrice != 0.0 && size != 0.0 then
        var investment := entryPrice * size;
        if investment > 0.0 then Some(realizedPnl.value / investment * 100.0) else None
      else None
    }

    /** Mark-to-market P&L at `currentPrice`: the realized P&L (or zero)
        once inactive, otherwise the signed move times size less fees. */
    function UnrealizedPnl(currentPrice: real): (p: real)
      reads this
      ensures !IsActive() ==> p == realizedPnl.GetOr(0.0)
      ensures IsActive() && tradeType == Buy ==> p == (currentPrice - entryPrice) * size - FeesOrZero()
      ensures IsActive() && tradeType == Sell ==> p == (entryPrice - currentPrice) * size - FeesOrZero()
    {
      if !IsActive() then realizedPnl.GetOr(0.0)
      else NetPnl(tradeType, entryPrice, currentPrice, size, FeesOrZero())
    }

    /** Sets the status; a non-empty message replaces the error message. */
    method UpdateStatus(newStatus: TradeStatus, message: Option<string>, now: Timestamp)
      modifies this
      ensures status == newStatus && updatedAt == Some(now)
      ensures errorMessage == if message.Some? && message.value != "" then message else old(errorMessage)
      ensures tradeType == old(tradeType) && symbol == old(symbol) && strategyName == old(strategyName)
      ensures entryPrice == old(entryPrice) && entryTime == old(entryTime) && size == old(size)
      ensures exitPrice == old(exitPrice) && exitTime == old(exitTime)
      ensures stopLoss == old(stopLoss) && takeProfit == old(takeProfit)
      ensures realizedPnl == old(realizedPnl) && fees == old(fees)
    {
      status := newStatus;
      if message.Some? && message.value != "" {
        errorMessage := message;
      }
      updatedAt := Some(now);
    }

    /** Closes the trade at `price`, at `time` or else at `now`, and realizes
        the signed P&L net of fees. For a trade that was active this is the
        unrealized P&L at the same price just before closing. */
    method CloseTrade(price: real, time: Option<Timestamp>, now: Timestamp)
      modifies this
      ensures exitPrice == Some(price) && exitTime == Some(time.GetOr(now))
      ensures status == Closed && !IsActive() && updatedAt == Some(now)
      ensures realizedPnl == Some(NetPnl(tradeType, entryPrice, price, size, FeesOrZero()))
      ensures old(IsActive()) ==> realizedPnl == Some(old(UnrealizedPnl(price)))
      ensures UnrealizedPnl(price) == realizedPnl.value
      ensures tradeType == old(tradeType) && symbol == old(symbol) && strategyName == old(strategyName)
      ensures entryPrice == old(entryPrice) && entryTime == old(entryTime) && size == old(size)
      ensures stopLoss == old(stopLoss) && takeProfit == old(takeProfit)
      ensures fees == old(fees) && errorMessage == old(errorMessage)
    {
      var pnl := NetPnl(tradeType, entryPrice, price, size, FeesOrZero());
      exitPrice := Some(price);
      exitTime := Some(time.GetOr(now));
      status := Closed;
      realizedPnl := Some(pnl);
      updatedAt := Some(now);
    }
  }
}
