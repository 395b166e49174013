/** The dashboard's trade-history summaries: daily P&L, the ROI
    distribution, exposure per asset, the three drawdown figures and the
    drawdown periods. Each is a loop over the trade list, proved against a
    reference definition over the list. */
module Dashboard {
  import opened Common
  import opened TradeModel

  /** Python truthiness of an optional number: present and non-zero. */
  predicate Truthy(x: Option<real>)
  {
    x.Some? && x.value != 0.0
  }

  function Max(a: real, b: real): real { if a >= b then a else b }

  // ----- daily P&L -------------------------------------------------------

  /** A trade counts towards daily P&L when it has an exit time and a
      non-zero realized P&L. */
  predicate CountsForDay(t: Trade)
    reads t
  {
    t.exitTime.Some? && Truthy(t.realizedPnl)
  }

  /** Some counted trade exits on `day`, dates rendered by `dateOf`. */
  predicate ExitsOn(trades: seq<Trade>, dateOf: Timestamp -> string, day: string)
    reads set t | t in trades
  {
    exists i :: 0 <= i < |trades| && CountsForDay(trades[i]) && dateOf(trades[i].exitTime.value) == day
  }

  /** Reference: the realized P&L of the counted trades exiting on `day`. */
  function DayTotal(trades: seq<Trade>, dateOf: Timestamp -> string, day: string): real
    reads set t | t in trades
  {
    if |trades| == 0 then 0.0
    else
      var t := trades[|trades| - 1];
      DayTotal(trades[..|trades| - 1], dateOf, day)
      + (if CountsForDay(t) && dateOf(t.exitTime.value) == day then t.realizedPnl.value else 0.0)
  }

  /** A day without a counted exit totals zero. */
  lemma {:induction false} NoExitNoTotal(trades: seq<Trade>, dateOf: Timestamp -> string, day: string)
    requires !ExitsOn(trades, dateOf, day)
    ensures DayTotal(trades, dateOf, day) == 0.0
  {
    if |trades| > 0 {
      var init := trades[..|trades| - 1];
      assert forall i :: 0 <= i < |init| ==> init[i] == trades[i];
      assert !ExitsOn(init, dateOf, day);
      NoExitNoTotal(init, dateOf, day);
    }
  }

  /** One more trade extends the set of exit days and each day's total by
      that trade alone. */
  lemma DayStep(trades: seq<Trade>, dateOf: Timestamp -> string, i: nat)
    requires i < |trades|
    ensures forall day {:trigger DayTotal(trades[..i + 1], dateOf, day)} ::
      DayTotal(trades[..i + 1], dateOf, day)
      == DayTotal(trades[..i], dateOf, day)
         + (if CountsForDay(trades[i]) && dateOf(trades[i].exitTime.value) == day then trades[i].realizedPnl.value else 0.0)
    ensures forall day {:trigger ExitsOn(trades[..i + 1], dateOf, day)} ::
      ExitsOn(trades[..i + 1], dateOf, day)
      <==> ExitsOn(trades[..i], dateOf, day) || (CountsForDay(trades[i]) && dateOf(trades[i].exitTime.value) == day)
  {
    var prefix := trades[..i + 1];
    assert prefix[..i] == trades[..i] && prefix[i] == trades[i];
    forall day
      ensures ExitsOn(prefix, dateOf, day)
              <==> ExitsOn(trades[..i], dateOf, day) || (CountsForDay(trades[i]) && dateOf(trades[i].exitTime.value) == day)
    {
      if ExitsOn(trades[..i], dateOf, day) {
        var k :| 0 <= k < i && CountsForDay(trades[..i][k]) && dateOf(trades[..i][k].exitTime.value) == day;
        assert prefix[k] == trades[..i][k];
      }
      if ExitsOn(prefix, dateOf, day) && !(CountsForDay(trades[i]) && dateOf(trades[i].exitTime.value) == day) {
        var k :| 0 <= k < i + 1 && CountsForDay(prefix[k]) && dateOf(prefix[k].exitTime.value) == day;
        assert k < i && trades[..i][k] == prefix[k];
      }
    }
  }

  /** The daily totals of a trade list, accumulated in list order. */
  function DailyTotals(trades: seq<Trade>, dateOf: Timestamp -> string): map<string, real>
    reads set t | t in trades
  {
    if |trades| == 0 then map[]
    else
      var m := DailyTotals(trades[..|trades| - 1], dateOf);
      var t := trades[|trades| - 1];
      if CountsForDay(t) then
        var date := dateOf(t.exitTime.value);
        m[date := (if date in m then m[date] else 0.0) + t.realizedPnl.value]
      else m
  }

  /** The accumulated map has exactly the days with a counted exit, each
      holding that day's total. */
  lemma {:induction false} DailyTotalsMeaning(trades: seq<Trade>, dateOf: Timestamp -> string)
    ensures forall day :: day in DailyTotals(trades, dateOf) <==> ExitsOn(trades, dateOf, day)
    ensures forall day :: day in DailyTotals(trades, dateOf) ==> DailyTotals(trades, dateOf)[day] == DayTotal(trades, dateOf, day)
  {
    if |trades| > 0 {
      var i := |trades| - 1;
      assert trades[..i + 1] == trades;
      DailyTotalsMeaning(trades[..i], dateOf);
      DayStep(trades, dateOf, i);
      var t := trades[i];
      if CountsForDay(t) && dateOf(t.exitTime.value) !in DailyTotals(trades[..i], dateOf) {
        NoExitNoTotal(trades[..i], dateOf, dateOf(t.exitTime.value));
      }
    }
  }

  /** The loop of the daily P&L, for any rendering of dates. */
  method SumByExitDate(trades: seq<Trade>, dateOf: Timestamp -> string) returns (daily: map<string, real>)
    ensures daily == DailyTotals(trades, dateOf)
    ensures forall day :: day in daily <==> ExitsOn(trades, dateOf, day)
    ensures forall day :: day in daily ==> daily[day] == DayTotal(trades, dateOf, day)
  {
    daily := map[];
    var i := 0;
    while i < |trades|
      invariant 0 <= i <= |trades|
      invariant daily == DailyTotals(trades[..i], dateOf)
    {
      var t := trades[i];
      assert trades[..i + 1][..i] == trades[..i];
      if t.exitTime.Some? && Truthy(t.realizedPnl) {
        var date := dateOf(t.exitTime.value);
        daily := daily[date := (if date in daily then daily[date] else 0.0) + t.realizedPnl.value];
      }
      i := i + 1;
    }
    assert trades[..i] == trades;
    DailyTotalsMeaning(trades, dateOf);
  }

  /** Sums realized P&L per ISO exit date; the keys are exactly the days
      with a counted exit. */
  method CalculateDailyPnl(trades: seq<Trade>) returns (daily: map<string, real>)
    ensures forall day :: day in daily <==> ExitsOn(trades, IsoDate, day)
    ensures forall day :: day in daily ==> daily[day] == DayTotal(trades, IsoDate, day)
  {
    daily := SumByExitDate(trades, IsoDate);
  }

  // ----- trade distribution ----------------------------------------------

  /** The six ROI buckets of the distribution. */
  datatype Outcome = LargeWin | MediumWin | SmallWin | SmallLoss | MediumLoss | LargeLoss

  /** The dictionary key the dashboard uses for each bucket. */
  function Name(o: Outcome): string
  {
    match o
    case LargeWin => "large_wins"
    case MediumWin => "medium_wins"
    case SmallWin => "small_wins"
    case SmallLoss => "small_losses"
    case MediumLoss => "medium_losses"
    case LargeLoss => "large_losses"
  }

  /** Distinct buckets have distinct keys. */
  lemma NamesDistinct(o: Outcome, p: Outcome)
    ensures Name(o) == Name(p) <==> o == p
  {
    if o != p {
      assert Name(o)[0] != Name(p)[0] || |Name(o)| != |Name(p)|;
    }
  }

  function IsWin(o: Outcome): bool { o.LargeWin? || o.MediumWin? || o.SmallWin? }

  /** The ROI bucket: thresholds 3, 1, 0, -1 and -3 percent, from the top. */
  function Bucket(roi: real): Outcome
  {
    if roi > 3.0 then LargeWin
    else if roi > 1.0 then MediumWin
    else if roi > 0.0 then SmallWin
    else if roi > -1.0 then SmallLoss
    else if roi > -3.0 then MediumLoss
    else LargeLoss
  }

  /** The buckets in order, from the best outcome to the worst. */
  function Rank(o: Outcome): nat
  {
    match o
    case LargeWin => 0
    case MediumWin => 1
    case SmallWin => 2
    case SmallLoss => 3
    case MediumLoss => 4
    case LargeLoss => 5
  }

  /** A higher ROI never lands in a worse bucket; wins and losses are split
      at zero. */
  lemma BucketMonotone(a: real, b: real)
    ensures a >= b ==> Rank(Bucket(a)) <= Rank(Bucket(b))
    ensures IsWin(Bucket(a)) <==> a > 0.0
  {
  }

  /** The ROI of each trade, in list order. */
  function Rois(trades: seq<Trade>): (r: seq<Option<real>>)
    reads set t | t in trades
    ensures |r| == |trades|
  {
    if |trades| == 0 then []
    else Rois(trades[..|trades| - 1]) + [trades[|trades| - 1].RoiPercentage()]
  }

  lemma RoisStep(trades: seq<Trade>, i: nat)
    requires i < |trades|
    ensures Rois(trades[..i + 1]) == Rois(trades[..i]) + [trades[i].RoiPercentage()]
  {
    assert trades[..i + 1][..i] == trades[..i];
  }

  /** Reference: how many non-zero ROIs fall in bucket `o`. */
  function BucketCount(rois: seq<Option<real>>, o: Outcome): nat
  {
    if |rois| == 0 then 0
    else
      var roi := rois[|rois| - 1];
      BucketCount(rois[..|rois| - 1], o) + (if Truthy(roi) && Bucket(roi.value) == o then 1 else 0)
  }

  /** How many ROIs are non-zero. */
  function RoiCount(rois: seq<Option<real>>): nat
  {
    if |rois| == 0 then 0
    else RoiCount(rois[..|rois| - 1]) + (if Truthy(rois[|rois| - 1]) then 1 else 0)
  }

  function BucketTotal(rois: seq<Option<real>>): nat
  {
    BucketCount(rois, LargeWin) + BucketCount(rois, MediumWin) + BucketCount(rois, SmallWin)
    + BucketCount(rois, SmallLoss) + BucketCount(rois, MediumLoss) + BucketCount(rois, LargeLoss)
  }

  /** Every non-zero ROI is in exactly one bucket. */
  lemma {:induction false} BucketsPartition(rois: seq<Option<real>>)
    ensures BucketTotal(rois) == RoiCount(rois)
  {
    if |rois| > 0 {
      BucketsPartition(rois[..|rois| - 1]);
    }
  }

  /** Every bucket mapped to zero. */
  const EmptyDistribution: map<Outcome, nat> :=
    map[LargeWin := 0, MediumWin := 0, SmallWin := 0, SmallLoss := 0, MediumLoss := 0, LargeLoss := 0]

  lemma EmptyDistributionCovers(o: Outcome)
    ensures o in EmptyDistribution && EmptyDistribution[o] == 0
  {
    match o
    case LargeWin =>
    case MediumWin =>
    case SmallWin =>
    case SmallLoss =>
    case MediumLoss =>
    case LargeLoss =>
  }

  /** The bucket counts of a list of ROIs, accumulated in list order; every
      bucket is a key. */
  function Tally(rois: seq<Option<real>>): (d: map<Outcome, nat>)
    ensures forall o :: o in d
  {
    if |rois| == 0 then
      assert forall o :: o in EmptyDistribution by {
        forall o ensures o in EmptyDistribution { EmptyDistributionCovers(o); }
      }
      EmptyDistribution
    else
      var m := Tally(rois[..|rois| - 1]);
      var roi := rois[|rois| - 1];
      if Truthy(roi) then m[Bucket(roi.value) := m[Bucket(roi.value)] + 1] else m
  }

  /** Tallying one more ROI raises its own bucket's count, when it is
      non-zero, and leaves the other counts alone. */
  lemma TallySnoc(rois: seq<Option<real>>, roi: Option<real>)
    ensures var m := Tally(rois);
            Tally(rois + [roi]) == if Truthy(roi) then m[Bucket(roi.value) := m[Bucket(roi.value)] + 1] else m
  {
    assert (rois + [roi])[..|rois|] == rois;
  }

  /** Each bucket holds the count of the ROIs that fall in it. */
  lemma {:induction false} TallyMeaning(rois: seq<Option<real>>)
    ensures forall o :: Tally(rois)[o] == BucketCount(rois, o)
  {
    if |rois| > 0 {
      TallyMeaning(rois[..|rois| - 1]);
    }
  }

  /** The six counts add up to the number of non-zero ROIs. */
  lemma TallyAddsUp(rois: seq<Option<real>>)
    ensures var d := Tally(rois);
      d[LargeWin] + d[MediumWin] + d[SmallWin] + d[SmallLoss] + d[MediumLoss] + d[LargeLoss] == RoiCount(rois)
  {
    TallyMeaning(rois);
    BucketsPartition(rois);
  }

  /** Counts the trades with a non-zero ROI per bucket. */
  method CalculateTradeDistribution(trades: seq<Trade>) returns (distribution: map<Outcome, nat>)
    ensures distribution == Tally(Rois(trades))
  {
    distribution := EmptyDistribution;
    ghost var rois: seq<Option<real>> := [];
    var i := 0;
    while i < |trades|
      invariant 0 <= i <= |trades|
      invariant rois == Rois(trades[..i])
      invariant distribution == Tally(rois)
    {
      var roi := trades[i].RoiPercentage();
      RoisStep(trades, i);
      TallySnoc(rois, roi);
      if Truthy(roi) {
        var outcome := Bucket(roi.value);
        distribution := distribution[outcome := distribution[outcome] + 1];
      }
      rois := rois + [roi];
      i := i + 1;
    }
    assert trades[..i] == trades;
  }

  // ----- exposure ----------------------------------------------------------

  function TradeValue(t: Trade): real
    reads t
  {
    t.size * t.entryPrice
  }

  /** Reference: the entry value of all trades in `symbol`. */
  function SymbolExposure(trades: seq<Trade>, symbol: string): real
    reads set t | t in trades
  {
    if |trades| == 0 then 0.0
    else
      var t := trades[|trades| - 1];
      SymbolExposure(trades[..|trades| - 1], symbol) + (if t.symbol == symbol then TradeValue(t) else 0.0)
  }

  predicate Trades(trades: seq<Trade>, symbol: string)
    reads set t | t in trades
  {
    exists i :: 0 <= i < |trades| && trades[i].symbol == symbol
  }

  lemma {:induction false} NoTradesNoExposure(trades: seq<Trade>, symbol: string)
    requires !Trades(trades, symbol)
    ensures SymbolExposure(trades, symbol) == 0.0
  {
    if |trades| > 0 {
      var init := trades[..|trades| - 1];
      assert forall i :: 0 <= i < |init| ==> init[i] == trades[i];
      NoTradesNoExposure(init, symbol);
    }
  }

  /** One more trade adds its value to its own symbol only. */
  lemma ExposureStep(trades: seq<Trade>, i: nat)
    requires i < |trades|
    ensures forall s {:trigger SymbolExposure(trades[..i + 1], s)} ::
      SymbolExposure(trades[..i + 1], s)
      == SymbolExposure(trades[..i], s) + (if trades[i].symbol == s then TradeValue(trades[i]) else 0.0)
    ensures forall s {:trigger Trades(trades[..i + 1], s)} ::
      Trades(trades[..i + 1], s) <==> Trades(trades[..i], s) || trades[i].symbol == s
  {
    var prefix := trades[..i + 1];
    assert prefix[..i] == trades[..i] && prefix[i] == trades[i];
    forall s
      ensures Trades(prefix, s) <==> Trades(trades[..i], s) || trades[i].symbol == s
    {
      if Trades(trades[..i], s) {
        var k :| 0 <= k < i && trades[..i][k].symbol == s;
        assert prefix[k] == trades[..i][k];
      }
      if Trades(prefix, s) && trades[i].symbol != s {
        var k :| 0 <= k < i + 1 && prefix[k].symbol == s;
        assert k < i && trades[..i][k] == prefix[k];
      }
    }
  }

  /** Sums size times entry price per symbol, over every trade given. */
  method CalculateExposurePerAsset(trades: seq<Trade>) returns (exposure: map<string, real>)
    ensures forall s :: s in exposure <==> Trades(trades, s)
    ensures forall s :: s in exposure ==> exposure[s] == SymbolExposure(trades, s)
  {
    exposure := map[];
    var i := 0;
    while i < |trades|
      invariant 0 <= i <= |trades|
      invariant forall s :: s in exposure <==> Trades(trades[..i], s)
      invariant forall s :: s in exposure ==> exposure[s] == SymbolExposure(trades[..i], s)
    {
      var t := trades[i];
      ExposureStep(trades, i);
      if t.symbol !in exposure {
        NoTradesNoExposure(trades[..i], t.symbol);
      }
      exposure := exposure[t.symbol := (if t.symbol in exposure then exposure[t.symbol] else 0.0) + TradeValue(t)];
      i := i + 1;
    }
    assert trades[..i] == trades;
  }

  // ----- drawdowns ---------------------------------------------------------

  /** The non-zero realized P&Ls, in trade order: the only ones the
      drawdown figures accumulate. */
  function CountedPnls(trades: seq<Trade>): seq<real>
    reads set t | t in trades
  {
    if |trades| == 0 then []
    else
      var t := trades[|trades| - 1];
      CountedPnls(trades[..|trades| - 1]) + (if Truthy(t.realizedPnl) then [t.realizedPnl.value] else [])
  }

  /** The running peak of the cumulative P&L, starting from zero. */
  function Peak(ps: seq<real>): (peak: real)
    ensures peak >= 0.0 && peak >= Sum(ps)
  {
    if |ps| == 0 then 0.0 else Max(Peak(ps[..|ps| - 1]), Sum(ps))
  }

  /** Percentage below the peak; zero while the peak is not positive. */
  function Drawdown(peak: real, current: real): real
  {
    if peak > 0.0 then (peak - current) / peak * 100.0 else 0.0
  }

  lemma DrawdownNonNegative(peak: real, current: real)
    requires peak >= current
    ensures Drawdown(peak, current) >= 0.0
  {
    if peak > 0.0 {
      assert (peak - current) / peak >= 0.0;
    }
  }

  /** The drawdown after the last counted trade. */
  function CurrentDrawdown(ps: seq<real>): real
  {
    Drawdown(Peak(ps), Sum(ps))
  }

  /** The largest drawdown after any counted trade, and zero at least. */
  function MaxDrawdown(ps: seq<real>): (m: real)
    ensures m >= 0.0
  {
    if |ps| == 0 then 0.0 else Max(MaxDrawdown(ps[..|ps| - 1]), CurrentDrawdown(ps))
  }

  /** The positive drawdowns after each counted trade, in order. */
  function PositiveDrawdowns(ps: seq<real>): seq<real>
  {
    if |ps| == 0 then []
    else
      var dd := CurrentDrawdown(ps);
      PositiveDrawdowns(ps[..|ps| - 1]) + (if Peak(ps) > 0.0 && dd > 0.0 then [dd] else [])
  }

  function AverageDrawdown(ps: seq<real>): real
  {
    var ds := PositiveDrawdowns(ps);
    if |ds| == 0 then 0.0 else Sum(ds) / |ds| as real
  }

  /** The current drawdown is never negative and never above the maximum. */
  lemma CurrentWithinMax(ps: seq<real>)
    ensures 0.0 <= CurrentDrawdown(ps) <= MaxDrawdown(ps)
  {
    DrawdownNonNegative(Peak(ps), Sum(ps));
  }

  /** Every averaged drawdown is positive and at most the maximum. */
  lemma {:induction false} PositiveDrawdownsBounded(ps: seq<real>)
    ensures forall i :: 0 <= i < |PositiveDrawdowns(ps)| ==>
              0.0 < PositiveDrawdowns(ps)[i] <= MaxDrawdown(ps)
  {
    if |ps| > 0 {
      var init := ps[..|ps| - 1];
      PositiveDrawdownsBounded(init);
    }
  }

  /** The average drawdown lies between zero and the maximum drawdown. */
  lemma AverageWithinMax(ps: seq<real>)
    ensures 0.0 <= AverageDrawdown(ps) <= MaxDrawdown(ps)
  {
    var ds := PositiveDrawdowns(ps);
    if |ds| > 0 {
      PositiveDrawdownsBounded(ps);
      SumBounds(ds, 0.0, MaxDrawdown(ps));
      AverageBound(Sum(ds), |ds| as real, MaxDrawdown(ps));
    }
  }

  lemma AverageBound(total: real, n: real, bound: real)
    requires n > 0.0 && 0.0 <= total <= n * bound
    ensures 0.0 <= total / n <= bound
  {
  }

  /** Adding one trade to the list extends the counted P&Ls by at most it. */
  lemma CountedPnlsStep(trades: seq<Trade>, i: nat)
    requires i < |trades|
    ensures CountedPnls(trades[..i + 1]) ==
              CountedPnls(trades[..i]) + (if Truthy(trades[i].realizedPnl) then [trades[i].realizedPnl.value] else [])
  {
    assert trades[..i + 1][..i] == trades[..i];
  }

  lemma SumSnoc(ps: seq<real>, x: real)
    ensures Sum(ps + [x]) == Sum(ps) + x
  {
    assert (ps + [x])[..|ps|] == ps;
  }

  /** What one more counted P&L does to the figures the drawdown loops
      keep: the sum grows by it, the peak rises to the new sum if higher,
      and the new current drawdown joins the maximum and the averaged list. */
  lemma {:induction false} SnocStep(ps: seq<real>, x: real)
    ensures var c := Sum(ps) + x;
            var pk := Max(Peak(ps), c);
            && Sum(ps + [x]) == c && Peak(ps + [x]) == pk
            && MaxDrawdown(ps + [x]) == Max(MaxDrawdown(ps), Drawdown(pk, c))
            && PositiveDrawdowns(ps + [x])
               == PositiveDrawdowns(ps) + (if pk > 0.0 && Drawdown(pk, c) > 0.0 then [Drawdown(pk, c)] else [])
  {
    SumSnoc(ps, x);
    assert (ps + [x])[..|ps|] == ps;
  }

  method CalculateCurrentDrawdown(trades: seq<Trade>) returns (dd: real)
    ensures dd == CurrentDrawdown(CountedPnls(trades))
    ensures dd >= 0.0
  {
    if |trades| == 0 {
      return 0.0;
    }
    var peak := 0.0;
    var current := 0.0;
    ghost var ps: seq<real> := [];
    var i := 0;
    while i < |trades|
      invariant 0 <= i <= |trades| && ps == CountedPnls(trades[..i])
      invariant current == Sum(ps) && peak == Peak(ps)
    {
      CountedPnlsStep(trades, i);
      var pnl := trades[i].realizedPnl;
      if Truthy(pnl) {
        SnocStep(ps, pnl.value);
        current := current + pnl.value;
        peak := Max(peak, current);
        ps := ps + [pnl.value];
      }
      i := i + 1;
    }
    assert trades[..i] == trades;
    dd := if peak > 0.0 then (peak - current) / peak * 100.0 else 0.0;
    CurrentWithinMax(ps);
  }

  method CalculateMaxDrawdown(trades: seq<Trade>) returns (maxDrawdown: real)
    ensures maxDrawdown == MaxDrawdown(CountedPnls(trades))
  {
    if |trades| == 0 {
      return 0.0;
    }
    var peak := 0.0;
    var current := 0.0;
    maxDrawdown := 0.0;
    ghost var ps: seq<real> := [];
    var i := 0;
    while i < |trades|
      invariant 0 <= i <= |trades| && ps == CountedPnls(trades[..i])
      invariant current == Sum(ps) && peak == Peak(ps)
      invariant maxDrawdown == MaxDrawdown(ps)
    {
      CountedPnlsStep(trades, i);
      var pnl := trades[i].realizedPnl;
      if Truthy(pnl) {
        SnocStep(ps, pnl.value);
        current := current + pnl.value;
        peak := Max(peak, current);
        var drawdown := Drawdown(peak, current);
        maxDrawdown := Max(maxDrawdown, drawdown);
        ps := ps + [pnl.value];
      }
      i := i + 1;
    }
    assert trades[..i] == trades;
  }

  method CalculateAverageDrawdown(trades: seq<Trade>) returns (average: real)
    ensures average == AverageDrawdown(CountedPnls(trades))
  {
    if |trades| == 0 {
      return 0.0;
    }
    var drawdowns: seq<real> := [];
    var peak := 0.0;
    var current := 0.0;
    ghost var ps: seq<real> := [];
    var i := 0;
    while i < |trades|
      invariant 0 <= i <= |trades| && ps == CountedPnls(trades[..i])
      invariant current == Sum(ps) && peak == Peak(ps)
      invariant drawdowns == PositiveDrawdowns(ps)
    {
      CountedPnlsStep(trades, i);
      var pnl := trades[i].realizedPnl;
      if Truthy(pnl) {
        SnocStep(ps, pnl.value);
        current := current + pnl.value;
        peak := Max(peak, current);
        if peak > 0.0 {
          var drawdown := Drawdown(peak, current);
          if drawdown > 0.0 {
            drawdowns := drawdowns + [drawdown];
          }
        }
        ps := ps + [pnl.value];
      }
      i := i + 1;
    }
    assert trades[..i] == trades;
    average := if |drawdowns| > 0 then Sum(drawdowns) / |drawdowns| as real else 0.0;
  }

  // ----- drawdown periods --------------------------------------------------

  datatype DrawdownPeriod = DrawdownPeriod(start: Timestamp, end: Option<Timestamp>, drawdown: real)

  /** The fold state of the period scan. `worst` is the deepest drawdown of
      the open period; only the corrected scan uses it. */
  datatype PeriodScan = PeriodScan(peak: real, current: real, start: Option<Timestamp>,
                                   worst: real, periods: seq<DrawdownPeriod>)

  const PeriodThreshold: real := 0.05

  /** One counted trade of the scan as written: a new high closes the open
      period, recording the drawdown computed after the peak moved up to
      the current value; a fall of more than 5% opens one. */
  function ScanStepAsWritten(s: PeriodScan, pnl: real, exit: Option<Timestamp>): PeriodScan
  {
    var current := s.current + pnl;
    if current > s.peak then
      var peak := current;
      if s.start.Some? then
        PeriodScan(peak, current, None, s.worst,
                   s.periods + [DrawdownPeriod(s.start.value, exit, Drawdown(peak, current))])
      else PeriodScan(peak, current, s.start, s.worst, s.periods)
    else if s.peak > 0.0 && s.start.None? && (s.peak - current) / s.peak > PeriodThreshold then
      PeriodScan(s.peak, current, exit, s.worst, s.periods)
    else PeriodScan(s.peak, current, s.start, s.worst, s.periods)
  }

  /** The counted trades as (P&L, exit time) pairs. */
  function CountedSteps(trades: seq<Trade>): seq<(real, Option<Timestamp>)>
    reads set t | t in trades
  {
    if |trades| == 0 then []
    else
      var t := trades[|trades| - 1];
      CountedSteps(trades[..|trades| - 1])
      + (if Truthy(t.realizedPnl) then [(t.realizedPnl.value, t.exitTime)] else [])
  }

  const StartScan: PeriodScan := PeriodScan(0.0, 0.0, None, 0.0, [])

  function ScanAsWritten(steps: seq<(real, Option<Timestamp>)>): PeriodScan
  {
    if |steps| == 0 then StartScan
    else
      var last := steps[|steps| - 1];
      ScanStepAsWritten(ScanAsWritten(steps[..|steps| - 1]), last.0, last.1)
  }

  /** As written, every recorded period has drawdown zero. */
  lemma {:induction false} AsWrittenRecordsZero(steps: seq<(real, Option<Timestamp>)>)
    ensures forall p :: p in ScanAsWritten(steps).periods ==> p.drawdown == 0.0
  {
    if |steps| > 0 {
      AsWrittenRecordsZero(steps[..|steps| - 1]);
    }
  }

  /** A 10% fall from a peak of 100 and the recovery that ends it: as
      written the period is recorded with drawdown 0, not 10. */
  lemma AsWrittenLosesDepth()
    ensures ScanAsWritten([(100.0, Some(1)), (-10.0, Some(2)), (20.0, Some(3))]).periods
            == [DrawdownPeriod(2, Some(3), 0.0)]
    ensures Scan([(100.0, Some(1)), (-10.0, Some(2)), (20.0, Some(3))]).periods
            == [DrawdownPeriod(2, Some(3), 10.0)]
  {
    var steps: seq<(real, Option<Timestamp>)> := [(100.0, Some(1)), (-10.0, Some(2)), (20.0, Some(3))];
    assert steps[..2] == [(100.0, Some(1)), (-10.0, Some(2))];
    assert steps[..2][..1] == [(100.0, Some(1))];
    assert steps[..2][..1][..0] == [];
    assert ScanAsWritten(steps[..1]) == PeriodScan(100.0, 100.0, None, 0.0, []);
    assert ScanAsWritten(steps[..2]) == PeriodScan(100.0, 90.0, Some(2), 0.0, []);
    assert Scan(steps[..1]) == PeriodScan(100.0, 100.0, None, 0.0, []);
    assert Scan(steps[..2]) == PeriodScan(100.0, 90.0, Some(2), 10.0, []);
  }

  /** The corrected step: the period records its deepest drawdown below
      the peak it started from. */
  function ScanStep(s: PeriodScan, pnl: real, exit: Option<Timestamp>): PeriodScan
  {
    var current := s.current + pnl;
    if current > s.peak then
      if s.start.Some? then
        PeriodScan(current, current, None, s.worst, s.periods + [DrawdownPeriod(s.start.value, exit, s.worst)])
      else PeriodScan(current, current, None, s.worst, s.periods)
    else if s.peak > 0.0 && s.start.None? && (s.peak - current) / s.peak > PeriodThreshold then
      PeriodScan(s.peak, current, exit, Drawdown(s.peak, current), s.periods)
    else if s.start.Some? then
      PeriodScan(s.peak, current, s.start, Max(s.worst, Drawdown(s.peak, current)), s.periods)
    else PeriodScan(s.peak, current, s.start, s.worst, s.periods)
  }

  function Scan(steps: seq<(real, Option<Timestamp>)>): PeriodScan
  {
    if |steps| == 0 then StartScan
    else
      var last := steps[|steps| - 1];
      ScanStep(Scan(steps[..|steps| - 1]), last.0, last.1)
  }

  /** The open period's depth already exceeds the threshold. */
  predicate ScanInvariant(s: PeriodScan)
  {
    && (s.start.Some? ==> s.worst > PeriodThreshold * 100.0)
    && (forall p :: p in s.periods ==> p.drawdown > PeriodThreshold * 100.0)
  }

  lemma ScanStepKeeps(s: PeriodScan, pnl: real, exit: Option<Timestamp>)
    requires ScanInvariant(s)
    ensures ScanInvariant(ScanStep(s, pnl, exit))
  {
    var current := s.current + pnl;
    if !(current > s.peak) && s.peak > 0.0 && s.start.None? && (s.peak - current) / s.peak > PeriodThreshold {
      assert Drawdown(s.peak, current) == (s.peak - current) / s.peak * 100.0;
    }
  }

  /** Corrected: every recorded period is deeper than the 5% that opened it. */
  lemma {:induction false} PeriodsExceedThreshold(steps: seq<(real, Option<Timestamp>)>)
    ensures ScanInvariant(Scan(steps))
    ensures forall p :: p in Scan(steps).periods ==> p.drawdown > 5.0
  {
    if |steps| > 0 {
      var last := steps[|steps| - 1];
      PeriodsExceedThreshold(steps[..|steps| - 1]);
      ScanStepKeeps(Scan(steps[..|steps| - 1]), last.0, last.1);
    }
  }

  /** One more trade adds its (P&L, exit time) pair when its P&L counts. */
  lemma CountedStepsStep(trades: seq<Trade>, i: nat)
    requires i < |trades|
    ensures CountedSteps(trades[..i + 1])
            == CountedSteps(trades[..i])
               + (if Truthy(trades[i].realizedPnl) then [(trades[i].realizedPnl.value, trades[i].exitTime)] else [])
  {
    assert trades[..i + 1][..i] == trades[..i];
  }

  /** Scanning one more pair is one more step. */
  lemma ScanSnoc(steps: seq<(real, Option<Timestamp>)>, x: (real, Option<Timestamp>))
    ensures Scan(steps + [x]) == ScanStep(Scan(steps), x.0, x.1)
  {
    assert (steps + [x])[..|steps|] == steps;
  }

  /** The period scan over the counted trades, recording each period's
      depth. */
  method IdentifyDrawdownPeriods(trades: seq<Trade>) returns (periods: seq<DrawdownPeriod>)
    ensures periods == Scan(CountedSteps(trades)).periods
    ensures forall p :: p in periods ==> p.drawdown > 5.0
  {
    var s := StartScan;
    ghost var steps: seq<(real, Option<Timestamp>)> := [];
    var i := 0;
    while i < |trades|
      invariant 0 <= i <= |trades|
      invariant steps == CountedSteps(trades[..i])
      invariant s == Scan(steps)
    {
      var t := trades[i];
      CountedStepsStep(trades, i);
      if Truthy(t.realizedPnl) {
        ScanSnoc(steps, (t.realizedPnl.value, t.exitTime));
        s := ScanStep(s, t.realizedPnl.value, t.exitTime);
        steps := steps + [(t.realizedPnl.value, t.exitTime)];
      }
      i := i + 1;
    }
    assert trades[..i] == trades;
    periods := s.periods;
    PeriodsExceedThreshold(steps);
  }
}
