/** The historical data processor: validation that only reports, cleaning
    (drop empty rows, clip outliers, bounded forward fill, volume filter),
    normalisation (volume scaling, OHLC repair), rolling-window enrichment
    that drops warm-up rows, the cache key, the processing pipeline around
    a keyed cache, and feature selection. A table is a sequence of rows
    keyed by time; a missing value (NaN) is `None`. */
module DataProcessing {
  import opened Common

  datatype Row = Row(time: Timestamp, cells: map<string, Option<real>>)

  /** Columns in order (a name may repeat, as in a selection that repeats
      a column) and rows in index order. */
  datatype Frame = Frame(columns: seq<string>, rows: seq<Row>)

  predicate WellFormed(f: Frame)
  {
    forall r :: r in f.rows ==> r.cells.Keys == set c | c in f.columns
  }

  function Cell(r: Row, c: string): Option<real>
  {
    if c in r.cells then r.cells[c] else None
  }

  function Column(f: Frame, c: string): (col: seq<Option<real>>)
    ensures |col| == |f.rows|
    ensures forall i :: 0 <= i < |f.rows| ==> col[i] == Cell(f.rows[i], c)
  {
    seq(|f.rows|, i requires 0 <= i < |f.rows| => Cell(f.rows[i], c))
  }

  function Times(rows: seq<Row>): (ts: seq<Timestamp>)
    ensures |ts| == |rows|
    ensures forall i :: 0 <= i < |rows| ==> ts[i] == rows[i].time
  {
    seq(|rows|, i requires 0 <= i < |rows| => rows[i].time)
  }

  /** `df[c] = col`: replaces column `c`, or appends it when new. */
  function WithColumn(f: Frame, c: string, col: seq<Option<real>>): (g: Frame)
    requires |col| == |f.rows|
    ensures WellFormed(f) ==> WellFormed(g)
    ensures c in g.columns && (c in f.columns ==> g.columns == f.columns)
    ensures forall d :: d in g.columns <==> d in f.columns || d == c
    ensures |g.rows| == |f.rows|
    ensures forall i :: 0 <= i < |f.rows| ==> g.rows[i].time == f.rows[i].time
    ensures forall i :: 0 <= i < |f.rows| ==> Cell(g.rows[i], c) == col[i]
    ensures forall i, d :: 0 <= i < |f.rows| && d != c ==> Cell(g.rows[i], d) == Cell(f.rows[i], d)
  {
    Frame(if c in f.columns then f.columns else f.columns + [c],
          seq(|f.rows|, i requires 0 <= i < |f.rows| => Row(f.rows[i].time, f.rows[i].cells[c := col[i]])))
  }

  // ----- sequences -------------------------------------------------------

  function Filter<T(!new)>(s: seq<T>, p: T -> bool): (r: seq<T>)
    ensures |r| <= |s|
    ensures forall x :: x in r <==> x in s && p(x)
  {
    if |s| == 0 then []
    else if p(s[0]) then [s[0]] + Filter(s[1..], p)
    else Filter(s[1..], p)
  }

  lemma {:induction false} FilterAppend<T(!new)>(a: seq<T>, b: seq<T>, p: T -> bool)
    ensures Filter(a + b, p) == Filter(a, p) + Filter(b, p)
  {
    if |a| > 0 {
      assert (a + b)[1..] == a[1..] + b;
      FilterAppend(a[1..], b, p);
    } else {
      assert a + b == b;
    }
  }

  /** The present values of a column, in order. */
  function Present(col: seq<Option<real>>): (xs: seq<real>)
    ensures |xs| <= |col|
  {
    if |col| == 0 then []
    else if col[0].Some? then [col[0].value] + Present(col[1..])
    else Present(col[1..])
  }

  lemma {:induction false} PresentMembers(col: seq<Option<real>>, x: real)
    ensures x in Present(col) <==> Some(x) in col
  {
    if |col| > 0 {
      PresentMembers(col[1..], x);
      assert Some(x) in col <==> col[0] == Some(x) || Some(x) in col[1..];
    }
  }

  lemma {:induction false} PresentAllSome(col: seq<Option<real>>)
    requires forall i :: 0 <= i < |col| ==> col[i].Some?
    ensures |Present(col)| == |col|
    ensures forall i :: 0 <= i < |col| ==> Present(col)[i] == col[i].value
  {
    if |col| > 0 {
      PresentAllSome(col[1..]);
    }
  }

  function MaxOf(xs: seq<real>): (m: Option<real>)
    ensures m.Some? <==> |xs| > 0
    ensures m.Some? ==> m.value in xs && forall x :: x in xs ==> x <= m.value
  {
    if |xs| == 0 then None
    else
      var rest := MaxOf(xs[1..]);
      assert forall x :: x in xs[1..] ==> x in xs;
      assert forall x :: x in xs ==> x == xs[0] || x in xs[1..];
      if rest.None? || xs[0] >= rest.value then Some(xs[0]) else rest
  }

  function Min(a: real, b: real): real { if a <= b then a else b }
  function Max(a: real, b: real): real { if a >= b then a else b }

  function SquaredDeviations(xs: seq<real>, m: real): (ds: seq<real>)
    ensures |ds| == |xs|
    ensures forall i :: 0 <= i < |xs| ==> ds[i] == (xs[i] - m) * (xs[i] - m) && ds[i] >= 0.0
  {
    seq(|xs|, i requires 0 <= i < |xs| => Square(xs[i] - m))
  }

  function Square(x: real): (y: real)
    ensures y == x * x && y >= 0.0
  {
    if x >= 0.0 then x * x else (-x) * (-x)
  }

  /** Sample variance (one degree of freedom), undefined below two values. */
  function Variance(xs: seq<real>): (v: Option<real>)
    ensures v.Some? <==> |xs| >= 2
    ensures v.Some? ==> v.value >= 0.0
  {
    if |xs| < 2 then None
    else
      var m := Sum(xs) / |xs| as real;
      var ds := SquaredDeviations(xs, m);
      NonNegativeSum(ds);
      Some(Sum(ds) / (|xs| - 1) as real)
  }

  lemma {:induction false} NonNegativeSum(xs: seq<real>)
    requires forall i :: 0 <= i < |xs| ==> xs[i] >= 0.0
    ensures Sum(xs) >= 0.0
  {
    if |xs| > 0 {
      var init := xs[..|xs| - 1];
      NonNegativeSum(init);
      assert Sum(xs) == Sum(init) + xs[|xs| - 1];
    }
  }

  /** Sample standard deviation through the supplied square root. */
  function Std(sqrt: real -> real, xs: seq<real>): (s: Option<real>)
    ensures s.Some? <==> |xs| >= 2
  {
    var v := Variance(xs);
    if v.Some? then Some(sqrt(v.value)) else None
  }

  // ----- configuration and results ---------------------------------------

  datatype ProcessingConfig = ProcessingConfig(
    resampleInterval: int,
    fillGaps: bool,
    removeOutliers: bool,
    outlierStdThreshold: real,
    minVolumeThreshold: real,
    validateData: bool,
    maxGapThreshold: int,
    normalizeVolume: bool,
    addIndicators: bool,
    cacheProcessedData: bool)

  const DefaultProcessingConfig: ProcessingConfig :=
    ProcessingConfig(MicrosPerMinute, true, true, 3.0, 0.01, true, 5 * MicrosPerMinute, true, true, true)

  /** The forward-fill limit of cleaning. */
  const FillLimit: nat := 5

  datatype ProcessingError = MissingColumn(name: string)

  datatype Issue =
    | MissingColumns(missing: seq<string>)
    | DuplicateTimestamps(count: nat)
    | TimeGaps(count: nat)
    | PriceAnomalies(count: nat)
    | NonPositivePrices
  {
    /** The position of the check that reports this kind of issue. */
    function Rank(): nat
    {
      match this
      case MissingColumns(_) => 0
      case DuplicateTimestamps(_) => 1
      case TimeGaps(_) => 2
      case PriceAnomalies(_) => 3
      case NonPositivePrices => 4
    }
  }

  datatype ValidationResult = ValidationResult(
    isValid: bool,
    issues: seq<Issue>,
    gapLocations: seq<Timestamp>,
    anomalyLocations: seq<Timestamp>,
    totalMissingValues: nat)

  const EmptyValidation: ValidationResult := ValidationResult(true, [], [], [], 0)

  // ----- validation ------------------------------------------------------

  const RequiredColumns: seq<string> := ["open", "high", "low", "close", "volume"]

  /** The required columns the table lacks, in required order. */
  function MissingRequired(f: Frame): (m: seq<string>)
    ensures forall c :: c in m <==> c in RequiredColumns && c !in f.columns
  {
    Filter(RequiredColumns, c => c !in f.columns)
  }

  function MissingInRow(r: Row, columns: seq<string>): nat
  {
    if |columns| == 0 then 0
    else (if Cell(r, columns[0]).None? then 1 else 0) + MissingInRow(r, columns[1..])
  }

  /** Missing cells over every column and row. */
  function MissingCount(f: Frame): nat
    decreases |f.rows|
  {
    if |f.rows| == 0 then 0
    else MissingInRow(f.rows[0], f.columns) + MissingCount(Frame(f.columns, f.rows[1..]))
  }

  /** Rows whose time already occurred earlier (first occurrence kept). */
  function DuplicateCount(ts: seq<Timestamp>): nat
  {
    if |ts| == 0 then 0
    else DuplicateCount(ts[..|ts| - 1]) + (if ts[|ts| - 1] in ts[..|ts| - 1] then 1 else 0)
  }

  predicate DistinctTimes(ts: seq<Timestamp>)
  {
    forall i, j :: 0 <= i < j < |ts| ==> ts[i] != ts[j]
  }

  /** There are no duplicates exactly when all times are distinct. */
  lemma {:induction false} DuplicateCountZero(ts: seq<Timestamp>)
    ensures DuplicateCount(ts) == 0 <==> DistinctTimes(ts)
  {
    if |ts| > 0 {
      var init := ts[..|ts| - 1];
      DuplicateCountZero(init);
      assert forall i :: 0 <= i < |init| ==> init[i] == ts[i];
      if ts[|ts| - 1] in init {
        var k :| 0 <= k < |init| && init[k] == ts[|ts| - 1];
        assert ts[k] == ts[|ts| - 1];
      }
    }
  }

  /** Times whose distance from the previous row exceeds the interval. */
  function GapTimes(ts: seq<Timestamp>, interval: int): (gs: seq<Timestamp>)
    ensures |gs| <= |ts|
    ensures |ts| <= 1 ==> gs == []
  {
    if |ts| <= 1 then []
    else GapTimes(ts[..|ts| - 1], interval)
         + (if ts[|ts| - 1] - ts[|ts| - 2] > interval then [ts[|ts| - 1]] else [])
  }

  /** A time is reported as a gap exactly when some row at that time lies
      more than the interval after its predecessor. */
  lemma {:induction false} GapTimesCharacterized(ts: seq<Timestamp>, interval: int, t: Timestamp)
    ensures t in GapTimes(ts, interval) <==>
              exists i :: 1 <= i < |ts| && ts[i] == t && ts[i] - ts[i - 1] > interval
  {
    if |ts| > 1 {
      var init := ts[..|ts| - 1];
      GapTimesCharacterized(init, interval, t);
      assert forall i :: 0 <= i < |init| ==> init[i] == ts[i];
      if exists i :: 1 <= i < |ts| && ts[i] == t && ts[i] - ts[i - 1] > interval {
        var i :| 1 <= i < |ts| && ts[i] == t && ts[i] - ts[i - 1] > interval;
        if i < |ts| - 1 {
          assert init[i] == t && init[i] - init[i - 1] > interval;
        }
      }
    }
  }

  /** The close statistics the anomaly check compares against. */
  function CloseStats(sqrt: real -> real, f: Frame): Option<(real, real)>
  {
    var xs := Present(Column(f, "close"));
    var s := Std(sqrt, xs);
    if s.Some? then Some((Sum(xs) / |xs| as real, s.value)) else None
  }

  /** A close further than `k` standard deviations from the mean. */
  predicate IsAnomaly(r: Row, stats: Option<(real, real)>, k: real)
  {
    stats.Some? && Cell(r, "close").Some?
    && Abs(Cell(r, "close").value - stats.value.0) > k * stats.value.1
  }

  function Abs(x: real): real { if x < 0.0 then -x else x }

  function AnomalyTimes(cfg: ProcessingConfig, sqrt: real -> real, f: Frame): seq<Timestamp>
  {
    if "close" !in f.columns then []
    else
      var stats := CloseStats(sqrt, f);
      Times(Filter(f.rows, r => IsAnomaly(r, stats, cfg.outlierStdThreshold)))
  }

  predicate HasNonPositiveClose(f: Frame)
  {
    "close" in f.columns && exists i :: 0 <= i < |f.rows| && Cell(f.rows[i], "close").Some? && Cell(f.rows[i], "close").value <= 0.0
  }

  /** The gap check runs only with at least two rows. */
  function GapReport(cfg: ProcessingConfig, f: Frame): seq<Timestamp>
  {
    if |f.rows| > 1 then GapTimes(Times(f.rows), cfg.resampleInterval) else []
  }

  /** Issues in strictly increasing check order: at most one per check. */
  predicate InCheckOrder(issues: seq<Issue>)
  {
    forall i, j :: 0 <= i < j < |issues| ==> issues[i].Rank() < issues[j].Rank()
  }

  predicate RanksBelow(issues: seq<Issue>, k: nat)
  {
    forall i :: 0 <= i < |issues| ==> issues[i].Rank() < k
  }

  /** One check's append: the issue goes last when the check found
      something, which keeps the check order. */
  method AppendIssue(issues: seq<Issue>, found: bool, x: Issue) returns (r: seq<Issue>)
    requires InCheckOrder(issues) && RanksBelow(issues, x.Rank())
    ensures InCheckOrder(r) && RanksBelow(r, x.Rank() + 1)
    ensures forall y :: y in r <==> y in issues || (found && y == x)
    ensures r == [] <==> issues == [] && !found
  {
    r := issues;
    if found {
      r := issues + [x];
    }
  }

  /** What a validation reports, given what the five checks found: each
      check adds at most one issue, in check order, exactly when it found
      something; validity means no issue. */
  predicate ReportsFindings(missing: seq<string>, dups: nat, gaps: seq<Timestamp>, anomalies: seq<Timestamp>,
                            nonPositive: bool, missingCount: nat, v: ValidationResult)
  {
    && (v.isValid <==> v.issues == [])
    && InCheckOrder(v.issues)
    && (MissingColumns(missing) in v.issues <==> missing != [])
    && (DuplicateTimestamps(dups) in v.issues <==> dups > 0)
    && (TimeGaps(|gaps|) in v.issues <==> |gaps| > 0)
    && (PriceAnomalies(|anomalies|) in v.issues <==> |anomalies| > 0)
    && (NonPositivePrices in v.issues <==> nonPositive)
    && (forall x :: x in v.issues ==>
          x == MissingColumns(missing) || x == DuplicateTimestamps(dups) || x == TimeGaps(|gaps|)
          || x == PriceAnomalies(|anomalies|) || x == NonPositivePrices)
    && v.gapLocations == gaps
    && v.anomalyLocations == anomalies
    && v.totalMissingValues == missingCount
  }

  /** What a validation of `f` reports. */
  predicate Reports(cfg: ProcessingConfig, sqrt: real -> real, f: Frame, v: ValidationResult)
  {
    ReportsFindings(MissingRequired(f), DuplicateCount(Times(f.rows)), GapReport(cfg, f),
                    AnomalyTimes(cfg, sqrt, f), HasNonPositiveClose(f), MissingCount(f), v)
  }

  /** Appends the issue of each check that found something, in check
      order, and records the locations. */
  method CollectIssues(missing: seq<string>, dups: nat, gaps: seq<Timestamp>, anomalies: seq<Timestamp>,
                       nonPositive: bool, missingCount: nat) returns (v: ValidationResult)
    ensures ReportsFindings(missing, dups, gaps, anomalies, nonPositive, missingCount, v)
  {
    var i1 := AppendIssue([], missing != [], MissingColumns(missing));
    var i2 := AppendIssue(i1, dups > 0, DuplicateTimestamps(dups));
    var i3 := AppendIssue(i2, gaps != [], TimeGaps(|gaps|));
    var i4 := AppendIssue(i3, anomalies != [], PriceAnomalies(|anomalies|));
    var issues := AppendIssue(i4, nonPositive, NonPositivePrices);
    v := ValidationResult(|issues| == 0, issues, gaps, anomalies, missingCount);
  }

  /** Runs the five checks in order; it reports and never fails. */
  method ValidateRawData(cfg: ProcessingConfig, sqrt: real -> real, f: Frame) returns (v: ValidationResult)
    ensures Reports(cfg, sqrt, f, v)
  {
    var missing := MissingRequired(f);
    var dups := DuplicateCount(Times(f.rows));
    var gaps := GapReport(cfg, f);
    var anomalies := AnomalyTimes(cfg, sqrt, f);
    v := CollectIssues(missing, dups, gaps, anomalies, HasNonPositiveClose(f), MissingCount(f));
  }

  // ----- cleaning --------------------------------------------------------

  predicate AnyPresent(r: Row, columns: seq<string>)
  {
    exists c :: c in columns && Cell(r, c).Some?
  }

  /** `dropna(how="all")`. */
  function DropAllMissing(f: Frame): (g: Frame)
    ensures g.columns == f.columns
    ensures forall r :: r in g.rows <==> r in f.rows && AnyPresent(r, f.columns)
  {
    Frame(f.columns, Filter(f.rows, r => AnyPresent(r, f.columns)))
  }

  /** The clip interval of a column: mean plus and minus `k` standard
      deviations, ordered; none when the deviation is undefined. */
  function ClipBounds(sqrt: real -> real, k: real, xs: seq<real>): (b: Option<(real, real)>)
    ensures b.Some? <==> |xs| >= 2
    ensures b.Some? ==> b.value.0 <= b.value.1
  {
    var s := Std(sqrt, xs);
    if s.None? then None
    else
      var m := Sum(xs) / |xs| as real;
      var lo := m - k * s.value;
      var hi := m + k * s.value;
      Some((Min(lo, hi), Max(lo, hi)))
  }

  function ClipValue(x: Option<real>, b: Option<(real, real)>): (y: Option<real>)
    ensures y.Some? <==> x.Some?
    ensures x.Some? && b.Some? && b.value.0 <= b.value.1 ==> b.value.0 <= y.value <= b.value.1
    ensures x.Some? && b.Some? && b.value.0 <= x.value <= b.value.1 ==> y == x
    ensures b.None? ==> y == x
  {
    if x.None? || b.None? then x else Some(Min(Max(x.value, b.value.0), b.value.1))
  }

  /** `df[c].clip(mean - k·std, mean + k·std)` when the column exists. */
  function ClipColumn(sqrt: real -> real, k: real, f: Frame, c: string): (g: Frame)
    ensures WellFormed(f) ==> WellFormed(g)
    ensures g.columns == f.columns && |g.rows| == |f.rows|
    ensures forall i :: 0 <= i < |f.rows| ==> g.rows[i].time == f.rows[i].time
    ensures forall i, d :: 0 <= i < |f.rows| && d != c ==> Cell(g.rows[i], d) == Cell(f.rows[i], d)
    ensures forall i :: 0 <= i < |f.rows| ==> (Cell(g.rows[i], c).Some? <==> Cell(f.rows[i], c).Some?)
  {
    if c !in f.columns then f
    else
      var col := Column(f, c);
      var b := ClipBounds(sqrt, k, Present(col));
      WithColumn(f, c, seq(|col|, i requires 0 <= i < |col| => ClipValue(col[i], b)))
  }

  /** After clipping, every present value of the column lies within the
      bounds computed from the column before clipping. */
  lemma ClippedWithinBounds(sqrt: real -> real, k: real, f: Frame, c: string, i: nat)
    requires c in f.columns && i < |f.rows|
    requires Cell(f.rows[i], c).Some?
    requires |Present(Column(f, c))| >= 2
    ensures var b := ClipBounds(sqrt, k, Present(Column(f, c))).value;
            var y := Cell(ClipColumn(sqrt, k, f, c).rows[i], c).value;
            b.0 <= y <= b.1
  {
  }

  // Forward fill.

  /** The cell a bounded forward fill emits for `c`, given the last present
      value and the number of missing cells since it. */
  function ScanCell(c: Option<real>, last: Option<real>, gap: nat, limit: nat): Option<real>
  {
    if c.Some? then c else if last.Some? && gap < limit then last else None
  }

  function NextLast(c: Option<real>, last: Option<real>): Option<real>
  {
    if c.Some? then c else last
  }

  function NextGap(c: Option<real>, gap: nat): nat
  {
    if c.Some? then 0 else gap + 1
  }

  /** The scan behind `ffill` with a limit: it carries the last present
      value and the number of missing cells since it. */
  function FFillScan(col: seq<Option<real>>, last: Option<real>, gap: nat, limit: nat): (r: seq<Option<real>>)
    ensures |r| == |col|
  {
    if |col| == 0 then []
    else [ScanCell(col[0], last, gap, limit)] + FFillScan(col[1..], NextLast(col[0], last), NextGap(col[0], gap), limit)
  }

  function FFill(col: seq<Option<real>>, limit: nat): (r: seq<Option<real>>)
    ensures |r| == |col|
  {
    FFillScan(col, None, 0, limit)
  }

  /** The last index at or before `i` holding a value. */
  function LastPresent(col: seq<Option<real>>, i: int): (j: Option<nat>)
    requires i < |col|
    ensures j.Some? ==> j.value <= i && col[j.value].Some?
    ensures j.Some? ==> forall k :: j.value < k <= i ==> col[k].None?
    ensures j.None? ==> forall k :: 0 <= k <= i ==> col[k].None?
    decreases i + 1
  {
    if i < 0 then None
    else if col[i].Some? then Some(i)
    else LastPresent(col, i - 1)
  }

  /** Reference definition of a bounded forward fill, cell by cell: a
      present value stays, a missing one takes the last present value when
      it lies at most `limit` rows back. */
  function FilledAt(col: seq<Option<real>>, i: nat, limit: nat): Option<real>
    requires i < |col|
  {
    if col[i].Some? then col[i]
    else
      var j := LastPresent(col, i);
      if j.Some? && i - j.value <= limit then col[j.value] else None
  }

  /** `last` and `gap` are what the scan carries on reaching index `k`. */
  predicate Tracks(col: seq<Option<real>>, k: nat, last: Option<real>, gap: nat)
    requires k <= |col|
  {
    var j := LastPresent(col, k - 1);
    && (j.Some? ==> last == col[j.value] && gap == k - 1 - j.value)
    && (j.None? ==> last.None?)
  }

  lemma TracksStep(col: seq<Option<real>>, k: nat, last: Option<real>, gap: nat)
    requires k < |col| && Tracks(col, k, last, gap)
    ensures Tracks(col, k + 1, NextLast(col[k], last), NextGap(col[k], gap))
  {
    if col[k].None? {
      assert LastPresent(col, k) == LastPresent(col, k - 1);
    }
  }

  /** The cell emitted at `k` is the reference fill at `k`. */
  lemma ScanCellIsFilledAt(col: seq<Option<real>>, k: nat, last: Option<real>, gap: nat, limit: nat)
    requires k < |col| && Tracks(col, k, last, gap)
    ensures ScanCell(col[k], last, gap, limit) == FilledAt(col, k, limit)
  {
    if col[k].None? {
      assert LastPresent(col, k) == LastPresent(col, k - 1);
    }
  }

  lemma {:induction false} FFillScanAt(col: seq<Option<real>>, k: nat, last: Option<real>, gap: nat, limit: nat, i: nat)
    requires k <= i < |col| && Tracks(col, k, last, gap)
    ensures FFillScan(col[k..], last, gap, limit)[i - k] == FilledAt(col, i, limit)
    decreases |col| - k
  {
    var rest := col[k..];
    assert rest[0] == col[k];
    assert rest[1..] == col[k + 1..];
    if i == k {
      ScanCellIsFilledAt(col, k, last, gap, limit);
    } else {
      TracksStep(col, k, last, gap);
      FFillScanAt(col, k + 1, NextLast(col[k], last), NextGap(col[k], gap), limit, i);
    }
  }

  /** The scan computes the reference fill at every index. */
  lemma FFillIsFilledAt(col: seq<Option<real>>, limit: nat, i: nat)
    requires i < |col|
    ensures FFill(col, limit)[i] == FilledAt(col, i, limit)
  {
    assert col[0..] == col;
    FFillScanAt(col, 0, None, 0, limit, i);
  }

  /** A bounded forward fill keeps present values, fills only from the
      last present value within the limit, and leaves the rest missing. */
  lemma FFillProperties(col: seq<Option<real>>, limit: nat, i: nat)
    requires i < |col|
    ensures col[i].Some? ==> FFill(col, limit)[i] == col[i]
    ensures FFill(col, limit)[i].Some? && col[i].None? ==>
              exists j :: 0 <= j < i && i - limit <= j && col[j].Some? && FFill(col, limit)[i] == col[j]
    ensures col[i].None? && (forall j :: 0 <= j < i && i - limit <= j ==> col[j].None?) ==>
              FFill(col, limit)[i].None?
  {
    FFillIsFilledAt(col, limit, i);
  }

  /** `fillna(method="ffill", limit=limit)` on every column. */
  function FillForward(f: Frame, limit: nat): (g: Frame)
    ensures g.columns == f.columns && |g.rows| == |f.rows|
    ensures WellFormed(f) ==> WellFormed(g)
    ensures forall i :: 0 <= i < |f.rows| ==> g.rows[i].time == f.rows[i].time
    ensures forall i, c :: 0 <= i < |f.rows| && c in f.rows[i].cells ==> Cell(g.rows[i], c) == FFill(Column(f, c), limit)[i]
  {
    Frame(f.columns, seq(|f.rows|, i requires 0 <= i < |f.rows| =>
      Row(f.rows[i].time, map c | c in f.rows[i].cells :: FFill(Column(f, c), limit)[i])))
  }

  predicate VolumeAtLeast(r: Row, threshold: real)
  {
    Cell(r, "volume").Some? && Cell(r, "volume").value >= threshold
  }

  /** Cleaning: drop empty rows, clip the four price columns, forward fill
      short gaps, and keep rows whose volume reaches the threshold when it
      is positive (the volume column must then exist). */
  function CleanData(cfg: ProcessingConfig, sqrt: real -> real, f: Frame): (r: Result<Frame, ProcessingError>)
    ensures r.Failure? <==> cfg.minVolumeThreshold > 0.0 && "volume" !in f.columns
    ensures r.Success? ==> r.value.columns == f.columns && |r.value.rows| <= |f.rows|
    ensures r.Success? && WellFormed(f) ==> WellFormed(r.value)
    ensures r.Success? && cfg.minVolumeThreshold > 0.0 ==>
              forall row :: row in r.value.rows ==> VolumeAtLeast(row, cfg.minVolumeThreshold)
  {
    var a := DropAllMissing(f);
    var k := cfg.outlierStdThreshold;
    var b := if cfg.removeOutliers
             then ClipColumn(sqrt, k, ClipColumn(sqrt, k, ClipColumn(sqrt, k, ClipColumn(sqrt, k, a, "open"), "high"), "low"), "close")
             else a;
    var c := if cfg.fillGaps then FillForward(b, FillLimit) else b;
    if cfg.minVolumeThreshold > 0.0 then
      if "volume" !in c.columns then Failure(MissingColumn("volume"))
      else Success(Frame(c.columns, Filter(c.rows, row => VolumeAtLeast(row, cfg.minVolumeThreshold))))
    else Success(c)
  }

  // ----- normalisation ---------------------------------------------------

  function ScaleValue(x: Option<real>, m: real): Option<real>
    requires m != 0.0
  {
    if x.Some? then Some(x.value / m) else None
  }

  /** Divides volume by its maximum when that maximum is positive. */
  function NormalizeVolume(f: Frame): (g: Frame)
    ensures g.columns == f.columns && |g.rows| == |f.rows|
    ensures WellFormed(f) ==> WellFormed(g)
    ensures forall i :: 0 <= i < |f.rows| ==> g.rows[i].time == f.rows[i].time
    ensures forall i, d :: 0 <= i < |f.rows| && d != "volume" ==> Cell(g.rows[i], d) == Cell(f.rows[i], d)
  {
    var col := Column(f, "volume");
    var m := MaxOf(Present(col));
    if "volume" !in f.columns || m.None? || m.value <= 0.0 then f
    else WithColumn(f, "volume", seq(|col|, i requires 0 <= i < |col| => ScaleValue(col[i], m.value)))
  }

  /** After scaling, no present volume exceeds 1, and a non-negative
      volume stays non-negative. */
  lemma ScaledVolumeAtMostOne(f: Frame, i: nat)
    requires "volume" in f.columns && i < |f.rows|
    requires Cell(f.rows[i], "volume").Some?
    requires MaxOf(Present(Column(f, "volume"))).Some? && MaxOf(Present(Column(f, "volume"))).value > 0.0
    ensures var y := Cell(NormalizeVolume(f).rows[i], "volume").value;
            && y <= 1.0
            && (Cell(f.rows[i], "volume").value >= 0.0 ==> y >= 0.0)
  {
    var col := Column(f, "volume");
    var m := MaxOf(Present(col)).value;
    var x := col[i].value;
    PresentMembers(col, x);
    assert col[i] in col;
    assert x <= m;
    DivBounds(x, m);
  }

  lemma DivBounds(x: real, m: real)
    requires m > 0.0 && x <= m
    ensures x / m <= 1.0
    ensures x >= 0.0 ==> x / m >= 0.0
  {
  }

  /** The largest present value among the cells, if any. */
  function RowMax(xs: seq<Option<real>>): (m: Option<real>)
    ensures m.Some? <==> exists i :: 0 <= i < |xs| && xs[i].Some?
    ensures m.Some? ==> forall i :: 0 <= i < |xs| && xs[i].Some? ==> xs[i].value <= m.value
  {
    if |xs| == 0 then None
    else
      var rest := RowMax(xs[1..]);
      assert forall i :: 1 <= i < |xs| ==> xs[i] == xs[1..][i - 1];
      if xs[0].None? then rest
      else if rest.None? || xs[0].value >= rest.value then xs[0]
      else rest
  }

  /** The smallest present value among the cells, if any. */
  function RowMin(xs: seq<Option<real>>): (m: Option<real>)
    ensures m.Some? <==> exists i :: 0 <= i < |xs| && xs[i].Some?
    ensures m.Some? ==> forall i :: 0 <= i < |xs| && xs[i].Some? ==> m.value <= xs[i].value
  {
    if |xs| == 0 then None
    else
      var rest := RowMin(xs[1..]);
      assert forall i :: 1 <= i < |xs| ==> xs[i] == xs[1..][i - 1];
      if xs[0].None? then rest
      else if rest.None? || xs[0].value <= rest.value then xs[0]
      else rest
  }

  /** `high = max(open, high, close)` and `low = min(open, low, close)`
      row by row, skipping missing cells. */
  function RepairRow(r: Row): Row
  {
    var o := Cell(r, "open");
    var c := Cell(r, "close");
    Row(r.time, r.cells["high" := RowMax([o, Cell(r, "high"), c])]["low" := RowMin([o, Cell(r, "low"), c])])
  }

  /** After the repair, a present open or close lies between low and high. */
  lemma RepairedRowOrdered(r: Row)
    ensures var s := RepairRow(r);
            && (Cell(r, "open").Some? ==>
                  && Cell(s, "low").Some? && Cell(s, "high").Some? && Cell(s, "open") == Cell(r, "open")
                  && Cell(s, "low").value <= Cell(r, "open").value <= Cell(s, "high").value)
            && (Cell(r, "close").Some? ==>
                  && Cell(s, "low").Some? && Cell(s, "high").Some? && Cell(s, "close") == Cell(r, "close")
                  && Cell(s, "low").value <= Cell(r, "close").value <= Cell(s, "high").value)
  {
    var o := Cell(r, "open");
    var c := Cell(r, "close");
    var hs := [o, Cell(r, "high"), c];
    var ls := [o, Cell(r, "low"), c];
    if o.Some? {
      assert hs[0].Some? && ls[0].Some?;
    }
    if c.Some? {
      assert hs[2].Some? && ls[2].Some?;
    }
  }

  /** Normalisation: volume scaling when configured, then the OHLC repair
      when all four price columns exist. The index is unchanged. */
  function NormalizeData(cfg: ProcessingConfig, f: Frame): (g: Frame)
    ensures g.columns == f.columns && |g.rows| == |f.rows|
    ensures WellFormed(f) ==> WellFormed(g)
    ensures forall i :: 0 <= i < |f.rows| ==> g.rows[i].time == f.rows[i].time
  {
    var a := if cfg.normalizeVolume && "volume" in f.columns then NormalizeVolume(f) else f;
    if "open" in a.columns && "high" in a.columns && "low" in a.columns && "close" in a.columns then
      Frame(a.columns, seq(|a.rows|, i requires 0 <= i < |a.rows| => RepairRow(a.rows[i])))
    else a
  }

  /** With all four price columns, every normalised row with an open
      (or a close) has low <= open <= high (and low <= close <= high). */
  lemma NormalizedOrdered(cfg: ProcessingConfig, f: Frame, i: nat)
    requires "open" in f.columns && "high" in f.columns && "low" in f.columns && "close" in f.columns
    requires i < |f.rows|
    ensures var r := NormalizeData(cfg, f).rows[i];
            && (Cell(r, "open").Some? ==>
                  Cell(r, "low").Some? && Cell(r, "high").Some? &&
                  Cell(r, "low").value <= Cell(r, "open").value <= Cell(r, "high").value)
            && (Cell(r, "close").Some? ==>
                  Cell(r, "low").Some? && Cell(r, "high").Some? &&
                  Cell(r, "low").value <= Cell(r, "close").value <= Cell(r, "high").value)
  {
    var a := if cfg.normalizeVolume && "volume" in f.columns then NormalizeVolume(f) else f;
    assert NormalizeData(cfg, f).rows[i] == RepairRow(a.rows[i]);
    RepairedRowOrdered(a.rows[i]);
  }

  // ----- enrichment ------------------------------------------------------

  /** `pct_change(periods)` after padding missing values forward; a zero
      base has no finite change. */
  function PctChange(col: seq<Option<real>>, periods: nat): (r: seq<Option<real>>)
    ensures |r| == |col|
    ensures forall i :: 0 <= i < |col| && i < periods ==> r[i].None?
  {
    var p := FFill(col, |col|);
    seq(|col|, i requires 0 <= i < |col| =>
      if i < periods || p[i].None? || p[i - periods].None? || p[i - periods].value == 0.0 then None
      else Some(p[i].value / p[i - periods].value - 1.0))
  }

  /** Between two present values with a non-zero base, the change is
      their relative difference: padding does not touch present values. */
  lemma PctChangeOfPresent(col: seq<Option<real>>, periods: nat, i: nat)
    requires periods <= i < |col|
    requires col[i].Some? && col[i - periods].Some? && col[i - periods].value != 0.0
    ensures PctChange(col, periods)[i] == Some(col[i].value / col[i - periods].value - 1.0)
  {
    FFillProperties(col, |col|, i);
    FFillProperties(col, |col|, i - periods);
  }

  /** `log1p` of each return through the supplied logarithm; below -1 the
      logarithm is undefined. */
  function LogReturns(log1p: real -> real, rs: seq<Option<real>>): (r: seq<Option<real>>)
    ensures |r| == |rs|
    ensures forall i :: 0 <= i < |rs| ==> (r[i].Some? <==> rs[i].Some? && rs[i].value >= -1.0)
  {
    seq(|rs|, i requires 0 <= i < |rs| =>
      if rs[i].Some? && rs[i].value >= -1.0 then Some(log1p(rs[i].value)) else None)
  }

  predicate FullWindow(col: seq<Option<real>>, i: nat, k: nat)
    requires i < |col|
  {
    k >= 1 && i + 1 >= k && forall j :: i + 1 - k <= j <= i ==> col[j].Some?
  }

  function WindowValues(col: seq<Option<real>>, i: nat, k: nat): (w: seq<real>)
    requires i < |col| && FullWindow(col, i, k)
    ensures |w| == k
  {
    PresentAllSome(col[i + 1 - k..i + 1]);
    Present(col[i + 1 - k..i + 1])
  }

  /** `rolling(window=k).mean()`: defined only over a full window. */
  function RollingMean(col: seq<Option<real>>, k: nat): (r: seq<Option<real>>)
    ensures |r| == |col|
    ensures forall i :: 0 <= i < |col| ==> (r[i].Some? <==> FullWindow(col, i, k))
  {
    seq(|col|, i requires 0 <= i < |col| =>
      if FullWindow(col, i, k) then Some(Sum(WindowValues(col, i, k)) / k as real) else None)
  }

  /** `rolling(window=k).std()`: defined only over a full window of at
      least two values. */
  function RollingStd(sqrt: real -> real, col: seq<Option<real>>, k: nat): (r: seq<Option<real>>)
    ensures |r| == |col|
    ensures forall i :: 0 <= i < |col| ==> (r[i].Some? <==> FullWindow(col, i, k) && k >= 2)
  {
    seq(|col|, i requires 0 <= i < |col| =>
      if FullWindow(col, i, k) then Std(sqrt, WindowValues(col, i, k)) else None)
  }

  predicate Complete(r: Row, columns: seq<string>)
  {
    forall c :: c in columns ==> Cell(r, c).Some?
  }

  function CompleteIn(columns: seq<string>): Row -> bool
  {
    r => Complete(r, columns)
  }

  /** `dropna()`: keeps the rows with every column present. */
  function DropNa(f: Frame): (g: Frame)
    ensures g.columns == f.columns && |g.rows| <= |f.rows|
    ensures forall r :: r in g.rows <==> r in f.rows && Complete(r, f.columns)
  {
    Frame(f.columns, Filter(f.rows, CompleteIn(f.columns)))
  }

  /** The longest window of the enrichment. */
  const LongestWindow: nat := 50

  /** `g` has the rows of `f`, at the same times, and at least its columns. */
  predicate Extends(f: Frame, g: Frame)
  {
    && |g.rows| == |f.rows|
    && (forall i :: 0 <= i < |f.rows| ==> g.rows[i].time == f.rows[i].time)
    && (forall c :: c in f.columns ==> c in g.columns)
    && (WellFormed(f) ==> WellFormed(g))
  }

  /** The columns the enrichment adds (or overwrites). */
  const ReturnNames: set<string> := {"returns", "log_returns", "volatility"}
  const VolumeNames: set<string> := {"volume_ma", "volume_std"}
  const TrendNames: set<string> := {"momentum", "sma_10", "sma_20"}
  const IndicatorNames: set<string> := ReturnNames + VolumeNames + TrendNames + {"sma_50"}

  /** `g`'s returns, momentum and 10- and 20-row averages are those of
      `f`'s close. */
  predicate CloseIndicators(f: Frame, g: Frame)
    requires |g.rows| == |f.rows|
  {
    forall i :: 0 <= i < |f.rows| ==>
      && Cell(g.rows[i], "returns") == PctChange(Column(f, "close"), 1)[i]
      && Cell(g.rows[i], "momentum") == PctChange(Column(f, "close"), 10)[i]
      && Cell(g.rows[i], "sma_10") == RollingMean(Column(f, "close"), 10)[i]
      && Cell(g.rows[i], "sma_20") == RollingMean(Column(f, "close"), 20)[i]
  }

  /** Every cell of a column outside `names` is the same in `f` and `g`. */
  ghost predicate KeepsOthers(f: Frame, g: Frame, names: set<string>)
    requires |g.rows| == |f.rows|
  {
    forall i, d :: 0 <= i < |f.rows| && d !in names ==> Cell(g.rows[i], d) == Cell(f.rows[i], d)
  }

  /** Returns, log returns and their rolling volatility. */
  function ReturnColumns(sqrt: real -> real, log1p: real -> real, f: Frame): (g: Frame)
    ensures Extends(f, g)
    ensures forall c :: c in ReturnNames ==> c in g.columns
    ensures forall i :: 0 <= i < |f.rows| ==> Cell(g.rows[i], "returns") == PctChange(Column(f, "close"), 1)[i]
    ensures forall i :: 0 <= i < |f.rows| ==>
              Cell(g.rows[i], "log_returns") == LogReturns(log1p, PctChange(Column(f, "close"), 1))[i]
    ensures forall i :: 0 <= i < |f.rows| ==>
              Cell(g.rows[i], "volatility") == RollingStd(sqrt, PctChange(Column(f, "close"), 1), 20)[i]
    ensures KeepsOthers(f, g, ReturnNames)
  {
    var change := PctChange(Column(f, "close"), 1);
    var e1 := WithColumn(f, "returns", change);
    var e2 := WithColumn(e1, "log_returns", LogReturns(log1p, change));
    WithColumn(e2, "volatility", RollingStd(sqrt, change, 20))
  }

  /** The rolling volume average and deviation, when volume exists. */
  function VolumeColumns(sqrt: real -> real, f: Frame, e: Frame): (g: Frame)
    requires |e.rows| == |f.rows|
    ensures Extends(e, g)
    ensures "volume" !in f.columns ==> g == e
    ensures "volume" in f.columns ==> "volume_ma" in g.columns && "volume_std" in g.columns
    ensures "volume" in f.columns ==> forall i :: 0 <= i < |f.rows| ==>
              && Cell(g.rows[i], "volume_ma") == RollingMean(Column(f, "volume"), 20)[i]
              && Cell(g.rows[i], "volume_std") == RollingStd(sqrt, Column(f, "volume"), 20)[i]
    ensures KeepsOthers(e, g, VolumeNames)
  {
    if "volume" in f.columns then
      var volume := Column(f, "volume");
      WithColumn(WithColumn(e, "volume_ma", RollingMean(volume, 20)), "volume_std", RollingStd(sqrt, volume, 20))
    else e
  }

  /** Momentum and the 10- and 20-bar averages of the close. */
  function TrendColumns(f: Frame, e: Frame): (g: Frame)
    requires |e.rows| == |f.rows|
    ensures Extends(e, g)
    ensures forall c :: c in TrendNames ==> c in g.columns
    ensures forall i :: 0 <= i < |f.rows| ==>
              && Cell(g.rows[i], "momentum") == PctChange(Column(f, "close"), 10)[i]
              && Cell(g.rows[i], "sma_10") == RollingMean(Column(f, "close"), 10)[i]
              && Cell(g.rows[i], "sma_20") == RollingMean(Column(f, "close"), 20)[i]
    ensures KeepsOthers(e, g, TrendNames)
  {
    var close := Column(f, "close");
    var e1 := WithColumn(e, "momentum", PctChange(close, 10));
    var e2 := WithColumn(e1, "sma_10", RollingMean(close, 10));
    WithColumn(e2, "sma_20", RollingMean(close, 20))
  }

  /** Returns, volume and trend columns, in the order they are added. */
  function BaseIndicators(sqrt: real -> real, log1p: real -> real, f: Frame): (g: Frame)
    ensures Extends(f, g)
    ensures forall c :: c in ReturnNames + TrendNames ==> c in g.columns
    ensures "volume" in f.columns ==> forall c :: c in VolumeNames ==> c in g.columns
    ensures CloseIndicators(f, g)
    ensures KeepsOthers(f, g, ReturnNames + VolumeNames + TrendNames)
  {
    var e1 := ReturnColumns(sqrt, log1p, f);
    var e2 := VolumeColumns(sqrt, f, e1);
    var g := TrendColumns(f, e2);
    KeptThroughBase(f, e1, e2, g);
    g
  }

  /** What the return step leaves outside its own names, and its returns
      column, pass through the volume and trend steps unchanged. */
  lemma KeptThroughBase(f: Frame, e1: Frame, e2: Frame, g: Frame)
    requires |e1.rows| == |f.rows| && |e2.rows| == |f.rows| && |g.rows| == |f.rows|
    requires KeepsOthers(f, e1, ReturnNames)
    requires KeepsOthers(e1, e2, VolumeNames)
    requires KeepsOthers(e2, g, TrendNames)
    ensures KeepsOthers(f, g, ReturnNames + VolumeNames + TrendNames)
    ensures forall i :: 0 <= i < |f.rows| ==> Cell(g.rows[i], "returns") == Cell(e1.rows[i], "returns")
  {
    ReturnsNotOverwritten();
    forall i, d | 0 <= i < |f.rows| && d !in ReturnNames + VolumeNames + TrendNames
      ensures Cell(g.rows[i], d) == Cell(f.rows[i], d)
    {
      assert Cell(e2.rows[i], d) == Cell(e1.rows[i], d);
    }
    forall i | 0 <= i < |f.rows|
      ensures Cell(g.rows[i], "returns") == Cell(e1.rows[i], "returns")
    {
      assert Cell(e2.rows[i], "returns") == Cell(e1.rows[i], "returns");
    }
  }

  /** The indicator columns, before rows lacking a value are dropped. */
  function WithIndicators(sqrt: real -> real, log1p: real -> real, f: Frame): (g: Frame)
    ensures Extends(f, g)
    ensures forall c :: c in ReturnNames + TrendNames + {"sma_50"} ==> c in g.columns
    ensures "volume" in f.columns ==> forall c :: c in VolumeNames ==> c in g.columns
    ensures CloseIndicators(f, g)
    ensures forall i :: 0 <= i < |f.rows| ==> Cell(g.rows[i], "sma_50") == RollingMean(Column(f, "close"), 50)[i]
    ensures KeepsOthers(f, g, IndicatorNames)
  {
    var e := BaseIndicators(sqrt, log1p, f);
    var g := WithColumn(e, "sma_50", RollingMean(Column(f, "close"), 50));
    KeptThroughSma50(f, e, g);
    g
  }

  /** Adding the 50-row average keeps the close indicators and every
      column the earlier steps kept. */
  lemma KeptThroughSma50(f: Frame, e: Frame, g: Frame)
    requires |e.rows| == |f.rows| && |g.rows| == |f.rows|
    requires KeepsOthers(f, e, ReturnNames + VolumeNames + TrendNames)
    requires forall i, d :: 0 <= i < |e.rows| && d != "sma_50" ==> Cell(g.rows[i], d) == Cell(e.rows[i], d)
    ensures KeepsOthers(f, g, IndicatorNames)
    ensures forall i :: 0 <= i < |f.rows| ==>
              && Cell(g.rows[i], "returns") == Cell(e.rows[i], "returns")
              && Cell(g.rows[i], "momentum") == Cell(e.rows[i], "momentum")
              && Cell(g.rows[i], "sma_10") == Cell(e.rows[i], "sma_10")
              && Cell(g.rows[i], "sma_20") == Cell(e.rows[i], "sma_20")
  {
    CloseNamesNotSma50();
    forall i, d | 0 <= i < |f.rows| && d !in IndicatorNames
      ensures Cell(g.rows[i], d) == Cell(f.rows[i], d)
    {
      assert d != "sma_50" && d !in ReturnNames + VolumeNames + TrendNames;
      assert Cell(g.rows[i], d) == Cell(e.rows[i], d);
    }
  }

  /** The 50-row average is added last and overwrites none of the close
      indicators: their names differ from it in length or in the digit. */
  lemma CloseNamesNotSma50()
    ensures "returns" != "sma_50" && "momentum" != "sma_50"
    ensures "sma_10" != "sma_50" && "sma_20" != "sma_50"
  {
    assert |"returns"| == 7 && |"momentum"| == 8 && |"sma_50"| == 6;
    assert "sma_10"[4] == '1' && "sma_20"[4] == '2' && "sma_50"[4] == '5';
  }

  /** No later step overwrites the returns column: its name is longer
      than every volume and trend name but the 8- to 10-letter ones, which
      it is shorter than. */
  lemma ReturnsNotOverwritten()
    ensures "returns" !in VolumeNames && "returns" !in TrendNames
  {
    assert |"returns"| == 7;
    assert |"volume_ma"| == 9 && |"volume_std"| == 10;
    assert |"momentum"| == 8 && |"sma_10"| == 6 && |"sma_20"| == 6;
  }

  /** Enrichment: the indicator columns, then `dropna()`; the close column
      must exist. */
  function AddTechnicalIndicators(sqrt: real -> real, log1p: real -> real, f: Frame): (r: Result<Frame, ProcessingError>)
    ensures r.Failure? <==> "close" !in f.columns
    ensures r.Success? ==> r.value == DropNa(WithIndicators(sqrt, log1p, f))
    ensures r.Success? ==> forall row :: row in r.value.rows ==> Complete(row, r.value.columns)
  {
    if "close" !in f.columns then Failure(MissingColumn("close"))
    else Success(DropNa(WithIndicators(sqrt, log1p, f)))
  }

  /** When a column is missing in the first `cut` rows, `dropna()` keeps
      at most the rows after them, and only rows from there. */
  lemma {:induction false} DropNaSkipsPrefix(g: Frame, c: string, cut: nat)
    requires c in g.columns && cut <= |g.rows|
    requires forall i :: 0 <= i < cut ==> Cell(g.rows[i], c).None?
    ensures |DropNa(g).rows| <= |g.rows| - cut
    ensures forall row :: row in DropNa(g).rows ==> exists i :: cut <= i < |g.rows| && row == g.rows[i]
  {
    var p := CompleteIn(g.columns);
    var head, tail := g.rows[..cut], g.rows[cut..];
    assert g.rows == head + tail;
    FilterAppend(head, tail, p);
    forall i | 0 <= i < |head|
      ensures !p(head[i])
    {
      assert head[i] == g.rows[i];
    }
    FilterNone(head, p);
    assert DropNa(g).rows == Filter(tail, p);
    forall row | row in DropNa(g).rows
      ensures exists i :: cut <= i < |g.rows| && row == g.rows[i]
    {
      assert row in tail;
      var j :| 0 <= j < |tail| && tail[j] == row;
      assert tail[j] == g.rows[cut + j];
    }
  }

  /** The warm-up argument for any table carrying the 50-bar average of
      the closes of `f`. */
  lemma WarmUpOf(f: Frame, g: Frame)
    requires Extends(f, g) && "sma_50" in g.columns
    requires forall i :: 0 <= i < |f.rows| ==> Cell(g.rows[i], "sma_50") == RollingMean(Column(f, "close"), 50)[i]
    ensures |DropNa(g).rows| <= (if |f.rows| >= LongestWindow - 1 then |f.rows| - (LongestWindow - 1) else 0)
    ensures forall row :: row in DropNa(g).rows ==>
              exists i :: LongestWindow - 1 <= i < |f.rows| && row.time == f.rows[i].time
  {
    var cut := if |f.rows| >= LongestWindow - 1 then LongestWindow - 1 else |f.rows|;
    DropNaSkipsPrefix(g, "sma_50", cut);
    forall row | row in DropNa(g).rows
      ensures exists i :: LongestWindow - 1 <= i < |f.rows| && row.time == f.rows[i].time
    {
      var i :| cut <= i < |g.rows| && row == g.rows[i];
      assert row.time == f.rows[i].time;
    }
  }

  /** Every row lacking a full 50-bar window is dropped, so the output has
      at most `n - 49` rows (none below 49), and every kept row's time is
      the time of an input row at index 49 or later. */
  lemma WarmUpDropped(sqrt: real -> real, log1p: real -> real, f: Frame)
    requires "close" in f.columns
    ensures var out := AddTechnicalIndicators(sqrt, log1p, f).value;
            && |out.rows| <= (if |f.rows| >= LongestWindow - 1 then |f.rows| - (LongestWindow - 1) else 0)
            && forall row :: row in out.rows ==>
                 exists i :: LongestWindow - 1 <= i < |f.rows| && row.time == f.rows[i].time
  {
    WarmUpOf(f, WithIndicators(sqrt, log1p, f));
  }

  lemma {:induction false} FilterNone<T(!new)>(s: seq<T>, p: T -> bool)
    requires forall i :: 0 <= i < |s| ==> !p(s[i])
    ensures Filter(s, p) == []
  {
    if |s| > 0 {
      FilterNone(s[1..], p);
    }
  }

  /** A kept row's 50-bar average is the mean of the fifty closes ending
      at its input row. */
  lemma MovingAverageIsWindowMean(col: seq<Option<real>>, k: nat, i: nat)
    requires i < |col| && FullWindow(col, i, k)
    ensures RollingMean(col, k)[i].value * k as real == Sum(Present(col[i + 1 - k..i + 1]))
  {
  }

  // ----- cache key -------------------------------------------------------

  /** `symbol_YYYYMMDD_YYYYMMDD` of the start and end days. */
  function CacheKey(symbol: string, start: Timestamp, end: Timestamp): (k: string)
    ensures |k| == |symbol| + 18
  {
    symbol + "_" + Yyyymmdd(start) + "_" + Yyyymmdd(end)
  }

  /** The key depends only on the symbol and the two calendar days. */
  lemma CacheKeyByDay(symbol: string, a: Timestamp, b: Timestamp, c: Timestamp, d: Timestamp)
    requires DayNumber(a) == DayNumber(c) && DayNumber(b) == DayNumber(d)
    ensures CacheKey(symbol, a, b) == CacheKey(symbol, c, d)
  {
    SameDaySameDate(a, c);
    SameDaySameDate(b, d);
  }

  /** Two keys for symbols of the same length agree only when the symbols
      and both day strings agree. */
  lemma CacheKeyDetermines(s1: string, a: Timestamp, b: Timestamp, s2: string, c: Timestamp, d: Timestamp)
    requires |s1| == |s2| && CacheKey(s1, a, b) == CacheKey(s2, c, d)
    ensures s1 == s2 && Yyyymmdd(a) == Yyyymmdd(c) && Yyyymmdd(b) == Yyyymmdd(d)
  {
    AppendCancel(s1 + "_" + Yyyymmdd(a) + "_", Yyyymmdd(b), s2 + "_" + Yyyymmdd(c) + "_", Yyyymmdd(d));
    AppendCancel(s1 + "_" + Yyyymmdd(a), "_", s2 + "_" + Yyyymmdd(c), "_");
    AppendCancel(s1 + "_", Yyyymmdd(a), s2 + "_", Yyyymmdd(c));
    AppendCancel(s1, "_", s2, "_");
  }

  lemma AppendCancel(a: string, b: string, c: string, d: string)
    requires a + b == c + d && |b| == |d|
    ensures a == c && b == d
  {
    assert a == (a + b)[..|a|];
    assert c == (c + d)[..|c|];
    assert b == (a + b)[|a|..];
    assert d == (c + d)[|c|..];
  }

  // ----- pipeline --------------------------------------------------------

  predicate InRange(r: Row, start: Option<Timestamp>, end: Option<Timestamp>)
  {
    (start.None? || r.time >= start.value) && (end.None? || r.time <= end.value)
  }

  /** The row filter of the optional date bounds, both inclusive. */
  function DateFilter(f: Frame, start: Option<Timestamp>, end: Option<Timestamp>): (g: Frame)
    ensures g.columns == f.columns
    ensures forall r :: r in g.rows <==> r in f.rows && InRange(r, start, end)
  {
    Frame(f.columns, Filter(f.rows, r => InRange(r, start, end)))
  }

  /** Date filter, cleaning, normalisation and, when configured,
      enrichment, in that order. */
  function Pipeline(cfg: ProcessingConfig, sqrt: real -> real, log1p: real -> real,
                    f: Frame, start: Option<Timestamp>, end: Option<Timestamp>): Result<Frame, ProcessingError>
  {
    var d := DateFilter(f, start, end);
    var c := CleanData(cfg, sqrt, d);
    if c.Failure? then Failure(c.error)
    else
      var n := NormalizeData(cfg, c.value);
      if cfg.addIndicators then AddTechnicalIndicators(sqrt, log1p, n) else Success(n)
  }

  /** The processor: its configuration, the numeric collaborators it
      needs, and the cache of processed tables by key. */
  class HistoricalDataProcessor {
    const config: ProcessingConfig
    const sqrt: real -> real
    const log1p: real -> real
    var cache: map<string, Frame>

    constructor (config: ProcessingConfig, sqrt: real -> real, log1p: real -> real)
      ensures this.config == config && this.sqrt == sqrt && this.log1p == log1p
      ensures cache == map[]
    {
      this.config := config;
      this.sqrt := sqrt;
      this.log1p := log1p;
      cache := map[];
    }

    /** With both dates and caching on, a cached table is returned with an
        empty, valid result and nothing is validated. Otherwise the raw
        table is validated, then processed, and the result is stored when
        both dates are given and caching is on. */
    method ProcessData(f: Frame, symbol: string, start: Option<Timestamp>, end: Option<Timestamp>)
      returns (r: Result<(Frame, ValidationResult), ProcessingError>)
      modifies this`cache
      ensures var keyed := start.Some? && end.Some? && config.cacheProcessedData;
              var key := if start.Some? && end.Some? then CacheKey(symbol, start.value, end.value) else "";
              && (keyed && key in old(cache) ==> r == Success((old(cache)[key], EmptyValidation)) && cache == old(cache))
              && (!(keyed && key in old(cache)) ==>
                    var p := Pipeline(config, sqrt, log1p, f, start, end);
                    && (p.Failure? ==> r == Failure(p.error) && cache == old(cache))
                    && (p.Success? ==>
                          && r.Success? && r.value.0 == p.value && Reports(config, sqrt, f, r.value.1)
                          && cache == (if keyed then old(cache)[key := p.value] else old(cache))))
    {
      var key := "";
      if start.Some? && end.Some? {
        key := CacheKey(symbol, start.value, end.value);
        if config.cacheProcessedData && key in cache {
          return Success((cache[key], EmptyValidation));
        }
      }
      var validation := ValidateRawData(config, sqrt, f);
      var processed := Pipeline(config, sqrt, log1p, f, start, end);
      if processed.Failure? {
        return Failure(processed.error);
      }
      if start.Some? && end.Some? && config.cacheProcessedData {
        cache := cache[key := processed.value];
      }
      return Success((processed.value, validation));
    }
  }

  /** The columns selected by default. */
  const DefaultFeatures: seq<string> :=
    ["open", "high", "low", "close", "volume", "returns", "volatility", "momentum"]

  /** Feature selection: the requested columns that exist, in requested
      order, padded forward and then filled with zero. */
  function PrepareFeatures(f: Frame, featureColumns: Option<seq<string>>): (g: Frame)
    ensures g.columns == Filter(featureColumns.GetOr(DefaultFeatures), c => c in f.columns)
    ensures |g.rows| == |f.rows|
    ensures WellFormed(g)
    ensures forall i :: 0 <= i < |f.rows| ==> g.rows[i].time == f.rows[i].time
    ensures forall i :: 0 <= i < |f.rows| ==> Complete(g.rows[i], g.columns)
    ensures forall i, c :: 0 <= i < |f.rows| && c in g.columns && Cell(f.rows[i], c).Some? ==>
              Cell(g.rows[i], c) == Cell(f.rows[i], c)
    ensures forall i, c :: 0 <= i < |f.rows| && c in g.columns ==>
              Cell(g.rows[i], c) == Some(match LastPresent(Column(f, c), i)
                                         case Some(j) => Column(f, c)[j].value
                                         case None => 0.0)
  {
    var available := Filter(featureColumns.GetOr(DefaultFeatures), c => c in f.columns);
    var g := Frame(available, seq(|f.rows|, i requires 0 <= i < |f.rows| =>
      Row(f.rows[i].time, map c | c in available :: Some(FFill(Column(f, c), |f.rows|)[i].GetOr(0.0)))));
    forall i, c | 0 <= i < |f.rows| && c in available
      ensures Cell(g.rows[i], c) == Some(match LastPresent(Column(f, c), i)
                                         case Some(j) => Column(f, c)[j].value
                                         case None => 0.0)
    {
      FFillIsFilledAt(Column(f, c), |f.rows|, i);
    }
    g
  }
}
