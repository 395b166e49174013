/** The backtest's bookkeeping outside the bar loop: the equity curve keyed
    by bar time, the ledger metrics over realized P&Ls and the drawdown
    metrics over the equity curve. Both as-written defects of the engine's
    bookkeeping are modelled next to their corrections. */
module BacktestMetrics {
  import opened Common

  /** One point of the equity curve. */
  datatype EquitySample = EquitySample(time: Timestamp, equity: real)

  /** The equity recorded for time `t`, if any (the first match). */
  function Lookup(curve: seq<EquitySample>, t: Timestamp): Option<real>
  {
    if |curve| == 0 then None
    else if curve[0].time == t then Some(curve[0].equity)
    else Lookup(curve[1..], t)
  }

  predicate HasTime(curve: seq<EquitySample>, t: Timestamp)
  {
    exists i :: 0 <= i < |curve| && curve[i].time == t
  }

  predicate DistinctTimes(curve: seq<EquitySample>)
  {
    forall i, j :: 0 <= i < j < |curve| ==> curve[i].time != curve[j].time
  }

  lemma {:induction false} LookupFound(curve: seq<EquitySample>, t: Timestamp)
    ensures Lookup(curve, t).Some? <==> HasTime(curve, t)
    ensures Lookup(curve, t).Some? ==>
              exists i :: 0 <= i < |curve| && curve[i].time == t && curve[i].equity == Lookup(curve, t).value
  {
    if |curve| > 0 {
      LookupFound(curve[1..], t);
      if curve[0].time != t {
        if HasTime(curve, t) {
          var i :| 0 <= i < |curve| && curve[i].time == t;
          assert curve[1..][i - 1] == curve[i];
        }
        if Lookup(curve, t).Some? {
          var i :| 0 <= i < |curve[1..]| && curve[1..][i].time == t && curve[1..][i].equity == Lookup(curve, t).value;
          assert curve[i + 1] == curve[1..][i];
        }
      }
    }
  }

  /** `series[t] = e`: overwrites every sample at time `t`, or appends one
      when the curve has none. */
  function SetSample(curve: seq<EquitySample>, t: Timestamp, e: real): (c: seq<EquitySample>)
  {
    if HasTime(curve, t) then
      seq(|curve|, i requires 0 <= i < |curve| => if curve[i].time == t then EquitySample(t, e) else curve[i])
    else curve + [EquitySample(t, e)]
  }

  /** Setting a sample makes its time read back the new equity, leaves
      every other time's reading alone, keeps times distinct, and grows the
      curve only for a new time. */
  lemma SetSampleProperties(curve: seq<EquitySample>, t: Timestamp, e: real)
    ensures Lookup(SetSample(curve, t, e), t) == Some(e)
    ensures forall u :: u != t ==> Lookup(SetSample(curve, t, e), u) == Lookup(curve, u)
    ensures DistinctTimes(curve) ==> DistinctTimes(SetSample(curve, t, e))
    ensures |SetSample(curve, t, e)| == if HasTime(curve, t) then |curve| else |curve| + 1
  {
    var c := SetSample(curve, t, e);
    if HasTime(curve, t) {
      LookupReplace(curve, t, e);
    } else {
      LookupAppend(curve, t, e);
    }
  }

  /** Setting a sample keeps the time of every sample already there, and a
      sample added at the end carries the new time. */
  lemma SetSampleTimes(curve: seq<EquitySample>, t: Timestamp, e: real)
    ensures |curve| <= |SetSample(curve, t, e)| <= |curve| + 1
    ensures forall k :: 0 <= k < |curve| ==> SetSample(curve, t, e)[k].time == curve[k].time
    ensures |SetSample(curve, t, e)| > |curve| ==> SetSample(curve, t, e)[|curve|].time == t
  {
  }

  lemma {:induction false} LookupReplace(curve: seq<EquitySample>, t: Timestamp, e: real)
    requires HasTime(curve, t)
    ensures var c := seq(|curve|, i requires 0 <= i < |curve| => if curve[i].time == t then EquitySample(t, e) else curve[i]);
            && Lookup(c, t) == Some(e)
            && (forall u :: u != t ==> Lookup(c, u) == Lookup(curve, u))
  {
    var c := seq(|curve|, i requires 0 <= i < |curve| => if curve[i].time == t then EquitySample(t, e) else curve[i]);
    if curve[0].time != t {
      var i :| 0 <= i < |curve| && curve[i].time == t;
      assert curve[1..][i - 1] == curve[i];
      LookupReplace(curve[1..], t, e);
      var c' := seq(|curve[1..]|, i requires 0 <= i < |curve[1..]| => if curve[1..][i].time == t then EquitySample(t, e) else curve[1..][i]);
      assert c[1..] == c';
    } else {
      forall u | u != t
        ensures Lookup(c, u) == Lookup(curve, u)
      {
        LookupMapped(curve, t, e, u);
      }
    }
  }

  lemma {:induction false} LookupMapped(curve: seq<EquitySample>, t: Timestamp, e: real, u: Timestamp)
    requires u != t
    ensures Lookup(seq(|curve|, i requires 0 <= i < |curve| => if curve[i].time == t then EquitySample(t, e) else curve[i]), u)
            == Lookup(curve, u)
  {
    var c := seq(|curve|, i requires 0 <= i < |curve| => if curve[i].time == t then EquitySample(t, e) else curve[i]);
    if |curve| > 0 {
      LookupMapped(curve[1..], t, e, u);
      var c' := seq(|curve[1..]|, i requires 0 <= i < |curve[1..]| => if curve[1..][i].time == t then EquitySample(t, e) else curve[1..][i]);
      assert c[1..] == c';
    }
  }

  lemma {:induction false} LookupAppend(curve: seq<EquitySample>, t: Timestamp, e: real)
    requires !HasTime(curve, t)
    ensures Lookup(curve + [EquitySample(t, e)], t) == Some(e)
    ensures forall u :: u != t ==> Lookup(curve + [EquitySample(t, e)], u) == Lookup(curve, u)
    ensures DistinctTimes(curve) ==> DistinctTimes(curve + [EquitySample(t, e)])
  {
    var c := curve + [EquitySample(t, e)];
    if |curve| > 0 {
      assert !HasTime(curve[1..], t);
      LookupAppend(curve[1..], t, e);
      assert c[1..] == curve[1..] + [EquitySample(t, e)];
    }
  }

  /** The Series the engine builds on the first held bar, as written: all
      equity values so far against a one-label index. */
  datatype SeriesValue = SeriesValue(index: seq<Timestamp>, values: seq<real>)

  datatype SeriesError =
    | LengthMismatch(values: nat, labels: nat)
    | AmbiguousTruthValue

  /** A Series built from values and an index of a different length is
      rejected. */
  function NewSeries(values: seq<real>, index: seq<Timestamp>): (r: Result<SeriesValue, SeriesError>)
    ensures r.Success? <==> |values| == |index|
  {
    if |values| == |index| then Success(SeriesValue(index, values))
    else Failure(LengthMismatch(|values|, |index|))
  }

  /** The equity-curve update as written: append to the running history,
      then build the Series from the whole history against one label, or
      set the label on the existing Series. */
  function UpdateEquityCurveAsWritten(curve: Option<SeriesValue>, history: seq<real>, t: Timestamp, e: real)
    : (r: Result<(Option<SeriesValue>, seq<real>), SeriesError>)
    ensures curve.None? ==> (r.Success? <==> |history| == 0)
  {
    var history' := history + [e];
    if curve.None? then
      var s := NewSeries(history', [t]);
      if s.Failure? then Failure(s.error) else Success((Some(s.value), history'))
    else
      var sv := curve.value;
      if t in sv.index then
        Success((Some(SeriesValue(sv.index, seq(|sv.values|, i requires 0 <= i < |sv.values| =>
                   if i < |sv.index| && sv.index[i] == t then e else sv.values[i]))), history'))
      else Success((Some(SeriesValue(sv.index + [t], sv.values + [e])), history'))
  }

  /** The backtest starts its history with the initial capital, so the
      first update on a held bar raises: two values, one label. */
  lemma EquityCurveAsWrittenFails(initialCapital: real, t: Timestamp, e: real)
    ensures UpdateEquityCurveAsWritten(None, [initialCapital], t, e) == Failure(LengthMismatch(2, 1))
  {
  }

  /** The metrics guard as written: `not curve` is true for a missing curve
      (empty metrics) and raises for an existing Series; the trade list is
      only consulted when the curve test passes. */
  function MetricsGuardAsWritten(curve: Option<SeriesValue>, tradeCount: nat): (r: Result<bool, SeriesError>)
  {
    if curve.None? then Success(true)
    else Failure(AmbiguousTruthValue)
  }

  /** As written the metrics are never computed: the guard either reports
      "empty" or raises. */
  lemma MetricsNeverComputedAsWritten(curve: Option<SeriesValue>, tradeCount: nat)
    ensures MetricsGuardAsWritten(curve, tradeCount) != Success(false)
  {
  }

  /** The corrected guard: metrics exist exactly when the curve and the
      trade list are both non-empty. */
  predicate HasMetrics(curve: seq<EquitySample>, tradeCount: nat)
  {
    |curve| > 0 && tradeCount > 0
  }

  // ----- ledger metrics -------------------------------------------------

  /** A trade counted as profitable: a set, nonzero and positive P&L. */
  predicate IsProfit(p: Option<real>) { p.Some? && p.value != 0.0 && p.value > 0.0 }

  /** A trade counted as losing: a set, nonzero and non-positive P&L. */
  predicate IsLoss(p: Option<real>) { p.Some? && p.value != 0.0 && p.value <= 0.0 }

  function Profits(pnls: seq<Option<real>>): (r: seq<real>)
    ensures |r| <= |pnls|
    ensures forall i :: 0 <= i < |r| ==> r[i] > 0.0
  {
    if |pnls| == 0 then []
    else Profits(pnls[..|pnls| - 1]) + (if IsProfit(pnls[|pnls| - 1]) then [pnls[|pnls| - 1].value] else [])
  }

  function Losses(pnls: seq<Option<real>>): (r: seq<real>)
    ensures |r| <= |pnls|
    ensures forall i :: 0 <= i < |r| ==> r[i] < 0.0
  {
    if |pnls| == 0 then []
    else Losses(pnls[..|pnls| - 1]) + (if IsLoss(pnls[|pnls| - 1]) then [pnls[|pnls| - 1].value] else [])
  }

  /** A P&L of exactly zero (or none at all) counts neither as a win nor as
      a loss, so winners and losers together never outnumber the trades,
      and they are all of them exactly when no trade sits at zero. */
  lemma {:induction false} WinnersAndLosersDisjoint(pnls: seq<Option<real>>)
    ensures |Profits(pnls)| + |Losses(pnls)| <= |pnls|
    ensures |Profits(pnls)| + |Losses(pnls)| == |pnls| <==>
              forall i :: 0 <= i < |pnls| ==> pnls[i].Some? && pnls[i].value != 0.0
  {
    if |pnls| > 0 {
      var init := pnls[..|pnls| - 1];
      WinnersAndLosersDisjoint(init);
      if forall i :: 0 <= i < |pnls| ==> pnls[i].Some? && pnls[i].value != 0.0 {
        assert forall i :: 0 <= i < |init| ==> init[i] == pnls[i];
      }
      if |Profits(pnls)| + |Losses(pnls)| == |pnls| {
        assert |Profits(init)| + |Losses(init)| == |init|;
        forall i | 0 <= i < |pnls|
          ensures pnls[i].Some? && pnls[i].value != 0.0
        {
          if i < |init| {
            assert init[i] == pnls[i];
          }
        }
      }
    }
  }

  lemma {:induction false} SumPositive(xs: seq<real>)
    requires forall i :: 0 <= i < |xs| ==> xs[i] > 0.0
    ensures Sum(xs) >= 0.0
    ensures |xs| > 0 ==> Sum(xs) > 0.0
  {
    if |xs| > 0 {
      SumPositive(xs[..|xs| - 1]);
    }
  }

  lemma {:induction false} SumNegative(xs: seq<real>)
    requires forall i :: 0 <= i < |xs| ==> xs[i] < 0.0
    ensures Sum(xs) <= 0.0
    ensures |xs| > 0 ==> Sum(xs) < 0.0
  {
    if |xs| > 0 {
      SumNegative(xs[..|xs| - 1]);
    }
  }

  datatype TradeMetrics = TradeMetrics(
    totalTrades: nat,
    profitableTrades: nat,
    winRate: real,
    averageProfit: real,
    /** `None` stands for the NaN of an empty mean: trades but no losers. */
    averageLoss: Option<real>,
    profitFactor: real)

  /** Ledger metrics over the realized P&Ls of the trades, in trade order. */
  function ComputeTradeMetrics(pnls: seq<Option<real>>): TradeMetrics
  {
    var wins := Profits(pnls);
    var losses := Losses(pnls);
    TradeMetrics(
      |pnls|,
      |wins|,
      if |pnls| > 0 then |wins| as real / |pnls| as real else 0.0,
      if |wins| > 0 then Sum(wins) / |wins| as real else 0.0,
      if |pnls| > 0 then Mean(losses) else Some(0.0),
      if |pnls| > 0 && |losses| > 0 then SumNegative(losses); Sum(wins) / Abs(Sum(losses)) else 0.0)
  }

  function Abs(x: real): real { if x < 0.0 then -x else x }

  /** The ledger metrics' promises: the win rate is a fraction, the average
      win is positive when there is a win, the average loss is negative
      when there is a loss and NaN when trades have none, and the profit
      factor is non-negative and zero unless some trade lost. */
  lemma TradeMetricsBounds(pnls: seq<Option<real>>)
    ensures var m := ComputeTradeMetrics(pnls);
            && m.totalTrades == |pnls| && m.profitableTrades <= m.totalTrades
            && 0.0 <= m.winRate <= 1.0
            && (m.profitableTrades > 0 ==> m.averageProfit > 0.0)
            && (|pnls| > 0 ==> (m.averageLoss.None? <==> |Losses(pnls)| == 0))
            && (|pnls| > 0 && |Losses(pnls)| > 0 ==> m.averageLoss.value < 0.0)
            && m.profitFactor >= 0.0
            && (|Losses(pnls)| == 0 ==> m.profitFactor == 0.0)
  {
    var wins := Profits(pnls);
    var losses := Losses(pnls);
    SumPositive(wins);
    SumNegative(losses);
    if |pnls| > 0 {
      RatioAtMostOne(|wins|, |pnls|);
    }
    if |wins| > 0 {
      QuotientPositive(Sum(wins), |wins|);
    }
    if |pnls| > 0 && |losses| > 0 {
      MeanNegative(losses);
      QuotientNonNegative(Sum(wins), Abs(Sum(losses)));
    }
  }

  lemma RatioAtMostOne(a: nat, b: nat)
    requires a <= b && b > 0
    ensures 0.0 <= a as real / b as real <= 1.0
  {
  }

  lemma QuotientPositive(x: real, n: nat)
    requires x > 0.0 && n > 0
    ensures x / n as real > 0.0
  {
  }

  lemma QuotientNonNegative(x: real, y: real)
    requires x >= 0.0 && y > 0.0
    ensures x / y >= 0.0
  {
  }

  lemma MeanNegative(xs: seq<real>)
    requires |xs| > 0 && forall i :: 0 <= i < |xs| ==> xs[i] < 0.0
    ensures Mean(xs).value < 0.0
  {
    SumNegative(xs);
    assert Mean(xs).value * |xs| as real == Sum(xs);
  }

  // ----- drawdown metrics -----------------------------------------------

  function MaxReal(a: real, b: real): real { if a >= b then a else b }

  /** The expanding maximum of the equity values. */
  function RunningPeak(eqs: seq<real>): (r: seq<real>)
    ensures |r| == |eqs|
    ensures |eqs| > 0 ==> r[0] == eqs[0]
    ensures forall i {:trigger eqs[i]} :: 1 <= i < |eqs| ==> r[i] == MaxReal(r[i - 1], eqs[i])
  {
    if |eqs| == 0 then []
    else if |eqs| == 1 then [eqs[0]]
    else
      var prev := RunningPeak(eqs[..|eqs| - 1]);
      prev + [MaxReal(prev[|prev| - 1], eqs[|eqs| - 1])]
  }

  /** The running peak dominates every equity value seen so far. */
  lemma {:induction false} PeakDominates(eqs: seq<real>, i: nat, j: nat)
    requires j <= i < |eqs|
    ensures RunningPeak(eqs)[i] >= eqs[j]
    decreases i
  {
    var r := RunningPeak(eqs);
    if i > 0 {
      assert r[i] == MaxReal(r[i - 1], eqs[i]);
    }
    if j < i {
      PeakDominates(eqs, i - 1, j);
    }
  }

  function Equities(curve: seq<EquitySample>): (eqs: seq<real>)
    ensures |eqs| == |curve|
    ensures forall i :: 0 <= i < |curve| ==> eqs[i] == curve[i].equity
  {
    seq(|curve|, i requires 0 <= i < |curve| => curve[i].equity)
  }

  function PercentBelow(eqs: seq<real>, peaks: seq<real>): (r: seq<real>)
    requires |peaks| == |eqs| && forall i :: 0 <= i < |eqs| ==> peaks[i] != 0.0
    ensures |r| == |eqs|
    ensures forall i :: 0 <= i < |eqs| ==> r[i] == (eqs[i] - peaks[i]) / peaks[i] * 100.0
  {
    seq(|eqs|, i requires 0 <= i < |eqs| => (eqs[i] - peaks[i]) / peaks[i] * 100.0)
  }

  predicate PeaksNonZero(eqs: seq<real>)
  {
    forall i :: 0 <= i < |eqs| ==> RunningPeak(eqs)[i] != 0.0
  }

  /** Percentage drawdown from the running peak at every point; `None` when
      some running peak is zero, where the division leaves the reals. */
  function DrawdownSamples(eqs: seq<real>): (r: Option<seq<real>>)
    ensures r.Some? <==> PeaksNonZero(eqs)
    ensures r.Some? ==> |r.value| == |eqs|
  {
    if PeaksNonZero(eqs) then Some(PercentBelow(eqs, RunningPeak(eqs))) else None
  }

  /** For a positive equity curve every drawdown sample lies in [-100, 0]. */
  lemma PositiveEquityDrawdowns(eqs: seq<real>)
    requires forall i :: 0 <= i < |eqs| ==> eqs[i] > 0.0
    ensures DrawdownSamples(eqs).Some?
    ensures forall i :: 0 <= i < |eqs| ==> -100.0 <= DrawdownSamples(eqs).value[i] <= 0.0
  {
    var peaks := RunningPeak(eqs);
    forall i | 0 <= i < |eqs|
      ensures peaks[i] >= eqs[i]
    {
      PeakDominates(eqs, i, i);
    }
    assert PeaksNonZero(eqs);
    SampleAt(eqs);
    var ds := PercentBelow(eqs, peaks);
    forall i | 0 <= i < |eqs|
      ensures -100.0 <= ds[i] <= 0.0
    {
      SampleBound(eqs, peaks, i);
    }
  }

  lemma SampleBound(eqs: seq<real>, peaks: seq<real>, i: nat)
    requires |peaks| == |eqs| && forall i :: 0 <= i < |eqs| ==> peaks[i] != 0.0
    requires i < |eqs| && peaks[i] >= eqs[i] > 0.0
    ensures -100.0 <= PercentBelow(eqs, peaks)[i] <= 0.0
  {
    PercentAt(eqs, peaks, i);
    DivBounds(PercentBelow(eqs, peaks)[i], peaks[i], eqs[i]);
  }

  lemma SampleAt(eqs: seq<real>)
    requires DrawdownSamples(eqs).Some?
    ensures DrawdownSamples(eqs).value == PercentBelow(eqs, RunningPeak(eqs))
  {
  }

  lemma PercentAt(eqs: seq<real>, peaks: seq<real>, i: nat)
    requires |peaks| == |eqs| && forall i :: 0 <= i < |eqs| ==> peaks[i] != 0.0
    requires i < |eqs|
    ensures PercentBelow(eqs, peaks)[i] * peaks[i] == (eqs[i] - peaks[i]) * 100.0
  {
    var d := PercentBelow(eqs, peaks)[i];
    var x := eqs[i] - peaks[i];
    var p := peaks[i];
    assert d == x / p * 100.0;
    ScaledQuotient(x, p);
  }

  lemma ScaledQuotient(x: real, p: real)
    requires p != 0.0
    ensures x / p * 100.0 * p == x * 100.0
  {
    var q := x / p;
    assert q * p == x;
    assert q * 100.0 * p == (q * p) * 100.0;
  }

  lemma DivBounds(d: real, p: real, e: real)
    requires p >= e > 0.0 && d * p == (e - p) * 100.0
    ensures -100.0 <= d <= 0.0
  {
    assert (d + 100.0) * p == e * 100.0;
  }

  function MinOf(xs: seq<real>): (m: real)
    requires |xs| > 0
    ensures forall i :: 0 <= i < |xs| ==> m <= xs[i]
    ensures exists i :: 0 <= i < |xs| && m == xs[i]
  {
    if |xs| == 1 then xs[0]
    else
      var rest := MinOf(xs[..|xs| - 1]);
      assert forall i :: 0 <= i < |xs| - 1 ==> xs[..|xs| - 1][i] == xs[i];
      if xs[|xs| - 1] < rest then xs[|xs| - 1] else rest
  }

  function Negatives(xs: seq<real>): (r: seq<real>)
    ensures |r| <= |xs|
    ensures forall i :: 0 <= i < |r| ==> r[i] < 0.0
  {
    if |xs| == 0 then []
    else Negatives(xs[..|xs| - 1]) + (if xs[|xs| - 1] < 0.0 then [xs[|xs| - 1]] else [])
  }

  /** Every negative sample is at least the overall minimum. */
  lemma {:induction false} NegativesAboveMin(xs: seq<real>, lo: real)
    requires forall i :: 0 <= i < |xs| ==> lo <= xs[i]
    ensures forall i :: 0 <= i < |Negatives(xs)| ==> lo <= Negatives(xs)[i]
  {
    if |xs| > 0 {
      var init := xs[..|xs| - 1];
      NegativesAboveMin(init, lo);
    }
  }

  /** Length of the run of negative samples ending at the last sample. */
  function TrailingRun(xs: seq<real>): (n: nat)
    ensures n <= |xs|
  {
    if |xs| == 0 || xs[|xs| - 1] >= 0.0 then 0 else TrailingRun(xs[..|xs| - 1]) + 1
  }

  /** Length of the longest run of consecutive negative samples. */
  function LongestRun(xs: seq<real>): (n: nat)
    ensures n <= |xs|
  {
    if |xs| == 0 then 0
    else
      var prev := LongestRun(xs[..|xs| - 1]);
      var tail := TrailingRun(xs);
      if tail > prev then tail else prev
  }

  predicate AllNegative(xs: seq<real>)
  {
    forall i :: 0 <= i < |xs| ==> xs[i] < 0.0
  }

  /** `n` consecutive negative samples start at `i`. */
  predicate RunAt(xs: seq<real>, i: int, n: nat)
  {
    0 <= i <= |xs| - n && AllNegative(xs[i..i + n])
  }

  lemma {:induction false} TrailingRunCovers(xs: seq<real>, i: nat)
    requires i <= |xs| && AllNegative(xs[i..])
    ensures TrailingRun(xs) >= |xs| - i
  {
    if i < |xs| {
      var init := xs[..|xs| - 1];
      assert xs[|xs| - 1] == xs[i..][|xs| - 1 - i];
      assert init[i..] == xs[i..][..|xs| - 1 - i];
      TrailingRunCovers(init, i);
    }
  }

  /** The longest run is an upper bound on every run of negative samples. */
  lemma {:induction false} LongestRunIsMaximal(xs: seq<real>, i: nat, j: nat)
    requires i <= j <= |xs| && AllNegative(xs[i..j])
    ensures j - i <= LongestRun(xs)
  {
    if |xs| > 0 {
      var init := xs[..|xs| - 1];
      if j == |xs| {
        TrailingRunCovers(xs, i);
      } else {
        assert init[i..j] == xs[i..j];
        LongestRunIsMaximal(init, i, j);
      }
    }
  }

  lemma {:induction false} TrailingRunIsRun(xs: seq<real>)
    ensures AllNegative(xs[|xs| - TrailingRun(xs)..])
  {
    if |xs| > 0 && xs[|xs| - 1] < 0.0 {
      var init := xs[..|xs| - 1];
      TrailingRunIsRun(init);
      var k := |xs| - TrailingRun(xs);
      assert xs[k..] == init[k..] + [xs[|xs| - 1]];
    }
  }

  /** The longest run is attained: some stretch of that many samples is all
      negative. */
  lemma {:induction false} LongestRunAttained(xs: seq<real>)
    ensures exists i :: RunAt(xs, i, LongestRun(xs))
  {
    if |xs| == 0 {
      assert LongestRun(xs) == 0 && xs[0..0] == [];
      assert RunAt(xs, 0, 0);
    } else {
      var init := xs[..|xs| - 1];
      var tail := TrailingRun(xs);
      if tail > LongestRun(init) {
        TrailingRunIsRun(xs);
        assert xs[|xs| - tail..|xs| - tail + tail] == xs[|xs| - tail..];
        assert LongestRun(xs) == tail;
        assert RunAt(xs, |xs| - tail, tail);
      } else {
        LongestRunAttained(init);
        var i :| RunAt(init, i, LongestRun(init));
        assert xs[i..i + LongestRun(init)] == init[i..i + LongestRun(init)];
        assert RunAt(xs, i, LongestRun(xs));
      }
    }
  }

  /** The longest run never exceeds the number of negative samples. */
  lemma {:induction false} LongestRunAtMostCount(xs: seq<real>)
    ensures TrailingRun(xs) <= |Negatives(xs)|
    ensures LongestRun(xs) <= |Negatives(xs)|
  {
    if |xs| > 0 {
      LongestRunAtMostCount(xs[..|xs| - 1]);
    }
  }

  /** `max_drawdown_duration` as written: the groupby key counts
      non-negative samples among samples already filtered to be negative,
      so it is constant and the single group's size is the number of
      negative samples. */
  function DrawdownDurationAsWritten(samples: seq<real>): nat
  {
    |Negatives(samples)|
  }

  /** The duration as evidently intended: the longest stretch of
      consecutive samples below the running peak. */
  function DrawdownDuration(samples: seq<real>): (n: nat)
    ensures n <= DrawdownDurationAsWritten(samples)
    ensures forall i, j :: 0 <= i <= j <= |samples| && AllNegative(samples[i..j]) ==> j - i <= n
    ensures exists i :: RunAt(samples, i, n)
  {
    LongestRunAtMostCount(samples);
    LongestRunAttained(samples);
    forall i, j | 0 <= i <= j <= |samples| && AllNegative(samples[i..j])
      ensures j - i <= LongestRun(samples)
    {
      LongestRunIsMaximal(samples, i, j);
    }
    LongestRun(samples)
  }

  /** Two separate dips (equity 100, 90, 100, 90) last one sample each, yet
      the as-written duration reports two. */
  lemma DurationAsWrittenCountsSeparateDips()
    ensures DrawdownSamples([100.0, 90.0, 100.0, 90.0]) == Some([0.0, -10.0, 0.0, -10.0])
    ensures DrawdownDurationAsWritten([0.0, -10.0, 0.0, -10.0]) == 2
    ensures DrawdownDuration([0.0, -10.0, 0.0, -10.0]) == 1
  {
    SeparateDipsSamples();
    SeparateDipsCount();
    SeparateDipsLongest();
  }

  lemma SeparateDipsSamples()
    ensures DrawdownSamples([100.0, 90.0, 100.0, 90.0]) == Some([0.0, -10.0, 0.0, -10.0])
  {
    var eqs := [100.0, 90.0, 100.0, 90.0];
    var r := RunningPeak(eqs);
    assert r[0] == 100.0 && r[1] == 100.0 && r[2] == 100.0 && r[3] == 100.0;
    var ds := DrawdownSamples(eqs);
    assert ds.Some?;
    assert ds.value[0] == 0.0 && ds.value[1] == -10.0 && ds.value[2] == 0.0 && ds.value[3] == -10.0;
    assert ds.value == [0.0, -10.0, 0.0, -10.0];
  }

  lemma SeparateDipsCount()
    ensures DrawdownDurationAsWritten([0.0, -10.0, 0.0, -10.0]) == 2
  {
    var ds := [0.0, -10.0, 0.0, -10.0];
    assert ds[..3] == [0.0, -10.0, 0.0];
    assert ds[..3][..2] == [0.0, -10.0];
    assert ds[..3][..2][..1] == [0.0];
    assert [0.0][..0] == [];
    assert Negatives([0.0]) == [];
    assert Negatives([0.0, -10.0]) == [-10.0];
    assert Negatives([0.0, -10.0, 0.0]) == [-10.0];
  }

  lemma SeparateDipsLongest()
    ensures LongestRun([0.0, -10.0, 0.0, -10.0]) == 1
  {
    var ds := [0.0, -10.0, 0.0, -10.0];
    assert ds[..3] == [0.0, -10.0, 0.0];
    assert ds[..3][..2] == [0.0, -10.0];
    assert ds[..3][..2][..1] == [0.0];
    assert [0.0][..0] == [];
    assert ds[..3][..2][..1][..0] == [];
    assert TrailingRun([0.0]) == 0;
    assert TrailingRun([0.0, -10.0]) == 1;
    assert LongestRun([0.0]) == 0;
    assert LongestRun([0.0, -10.0]) == 1;
    assert LongestRun([0.0, -10.0, 0.0]) == 1;
    assert TrailingRun(ds) == 1;
  }

  datatype DrawdownMetrics = DrawdownMetrics(maxDrawdown: real, avgDrawdown: real, maxDrawdownDuration: nat)

  /** Drawdown metrics of a non-empty equity curve: the magnitude of the
      deepest sample, the magnitude of the mean negative sample (0 with
      none), and the longest stretch below the peak. */
  function ComputeDrawdownMetrics(eqs: seq<real>): (m: Option<DrawdownMetrics>)
    requires |eqs| > 0
    ensures m.Some? <==> DrawdownSamples(eqs).Some?
  {
    var samples := DrawdownSamples(eqs);
    if samples.None? then None
    else
      var ds := samples.value;
      var neg := Negatives(ds);
      Some(DrawdownMetrics(
        Abs(MinOf(ds)),
        if |neg| > 0 then Abs(Mean(neg).value) else 0.0,
        DrawdownDuration(ds)))
  }

  /** The average drawdown never exceeds the maximum one, and both are
      non-negative. */
  lemma AverageWithinMaximum(eqs: seq<real>)
    requires |eqs| > 0 && ComputeDrawdownMetrics(eqs).Some?
    ensures var m := ComputeDrawdownMetrics(eqs).value;
            0.0 <= m.avgDrawdown <= m.maxDrawdown
  {
    var ds := DrawdownSamples(eqs).value;
    var neg := Negatives(ds);
    var lo := MinOf(ds);
    if |neg| > 0 {
      NegativesAboveMin(ds, lo);
      MeanBetween(neg, lo);
    }
  }

  /** The mean of negative values that are all at least `lo` lies in
      `[lo, 0)`. */
  lemma MeanBetween(xs: seq<real>, lo: real)
    requires |xs| > 0
    requires forall i :: 0 <= i < |xs| ==> lo <= xs[i] < 0.0
    ensures lo <= Mean(xs).value < 0.0
    ensures Abs(Mean(xs).value) <= Abs(lo)
  {
    SumBounds(xs, lo, 0.0);
    MeanNegative(xs);
    var m := Mean(xs).value;
    var n := |xs| as real;
    assert m * n == Sum(xs);
    assert n * lo <= m * n;
  }

  datatype Metrics = Metrics(
    performance: map<string, real>,
    trade: TradeMetrics,
    drawdown: Option<DrawdownMetrics>)

  /** What stops the metrics: the annualised return divides by the whole
      days between the first and the last sample, so a curve spanning
      less than one day raises a division by zero. */
  datatype MetricsError = SpanUnderOneDay

  /** The whole days between the first and the last sample, rounded down
      as a time difference's day count is. */
  function SpanDays(curve: seq<EquitySample>): (d: int)
    requires |curve| > 0
    ensures d == 0 <==> 0 <= curve[|curve| - 1].time - curve[0].time < MicrosPerDay
    ensures d * MicrosPerDay <= curve[|curve| - 1].time - curve[0].time < (d + 1) * MicrosPerDay
  {
    (curve[|curve| - 1].time - curve[0].time) / MicrosPerDay
  }

  /** All three metric groups, or none when the curve or the trade list is
      empty; a failure when there are samples and trades but the curve
      spans no whole day. The return-based metrics come from
      `performance`. */
  function ComputeMetrics(curve: seq<EquitySample>, pnls: seq<Option<real>>,
                          performance: seq<EquitySample> -> map<string, real>): (r: Result<Option<Metrics>, MetricsError>)
    ensures r.Failure? <==> HasMetrics(curve, |pnls|) && SpanDays(curve) == 0
    ensures r.Success? ==> (r.value.Some? <==> HasMetrics(curve, |pnls|))
    ensures r.Success? && r.value.Some? ==> r.value.value.trade == ComputeTradeMetrics(pnls)
    ensures r.Success? && r.value.Some? ==> r.value.value.drawdown == ComputeDrawdownMetrics(Equities(curve))
    ensures r.Success? && r.value.Some? ==> r.value.value.performance == performance(curve)
  {
    if !HasMetrics(curve, |pnls|) then Success(None)
    else if SpanDays(curve) == 0 then Failure(SpanUnderOneDay)
    else Success(Some(Metrics(performance(curve), ComputeTradeMetrics(pnls), ComputeDrawdownMetrics(Equities(curve)))))
  }
}
