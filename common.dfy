/** Shared vocabulary of the trading backend model: optional values and
    error outcomes, wall-clock timestamps, decimal digit strings, the civil
    calendar used by date formatting, ASCII case mapping and real sums. */
module Common {

  datatype Option<+T> = None | Some(value: T) {
    function GetOr(default: T): T {
      match this
      case Some(v) => v
      case None => default
    }
  }

  datatype Result<+T, +E> = Success(value: T) | Failure(error: E)

  /** A point in time, in microseconds since the Unix epoch (the resolution
      of Python's datetime). */
  type Timestamp = int

  const MicrosPerSecond: int := 1_000_000
  const MicrosPerMinute: int := 60 * MicrosPerSecond
  const MicrosPerDay: int := 86_400 * MicrosPerSecond

  /** Sum of a sequence of reals, folded from the left. */
  function Sum(xs: seq<real>): real
  {
    if |xs| == 0 then 0.0 else Sum(xs[..|xs| - 1]) + xs[|xs| - 1]
  }

  lemma {:induction false} SumAppend(xs: seq<real>, ys: seq<real>)
    ensures Sum(xs + ys) == Sum(xs) + Sum(ys)
    decreases |ys|
  {
    if |ys| == 0 {
      assert xs + ys == xs;
    } else {
      var ys' := ys[..|ys| - 1];
      assert (xs + ys)[..|xs + ys| - 1] == xs + ys';
      SumAppend(xs, ys');
    }
  }

  lemma {:induction false} SumBounds(xs: seq<real>, lo: real, hi: real)
    requires forall i :: 0 <= i < |xs| ==> lo <= xs[i] <= hi
    ensures |xs| as real * lo <= Sum(xs) <= |xs| as real * hi
    decreases |xs|
  {
    if |xs| > 0 {
      var init := xs[..|xs| - 1];
      SumBounds(init, lo, hi);
      assert Sum(xs) == Sum(init) + xs[|xs| - 1];
      assert |xs| as real * lo == |init| as real * lo + lo;
      assert |xs| as real * hi == |init| as real * hi + hi;
    }
  }

  /** Arithmetic mean; `None` for an empty sequence (numpy's NaN). */
  function Mean(xs: seq<real>): (m: Option<real>)
    ensures m.Some? <==> |xs| > 0
    ensures m.Some? ==> m.value * |xs| as real == Sum(xs)
  {
    if |xs| == 0 then None else Some(Sum(xs) / |xs| as real)
  }

  function Pow10(n: nat): (p: nat)
    ensures p >= 1
  {
    if n == 0 then 1 else 10 * Pow10(n - 1)
  }

  function DigitChar(d: int): char
    requires 0 <= d < 10
  {
    ['0', '1', '2', '3', '4', '5', '6', '7', '8', '9'][d]
  }

  function CharDigit(c: char): int
  {
    if '0' <= c <= '9' then (c as int) - ('0' as int) else 0
  }

  /** The last `width` decimal digits of `n`, zero padded (`%0<width>d`
      of `n mod 10^width`). */
  function Digits(n: int, width: nat): (s: string)
    ensures |s| == width
    ensures forall i :: 0 <= i < |s| ==> '0' <= s[i] <= '9'
    decreases width
  {
    if width == 0 then ""
    else Digits(n / 10, width - 1) + [DigitChar(n % 10)]
  }

  /** Reads a string of decimal digits back as a number. */
  function ParseDigits(s: string): int
  {
    if |s| == 0 then 0 else 10 * ParseDigits(s[..|s| - 1]) + CharDigit(s[|s| - 1])
  }

  /** Formatting then parsing recovers the number modulo 10^width. */
  lemma {:induction false} DigitsRoundTrip(n: int, width: nat)
    ensures ParseDigits(Digits(n, width)) == n % Pow10(width)
    decreases width
  {
    if width > 0 {
      var a := ParseDigits(Digits(n, width));
      var b := ParseDigits(Digits(n / 10, width - 1));
      DigitsStep(n, width);
      DigitsRoundTrip(n / 10, width - 1);
      ModDecomposePow(n, width);
      assert a == 10 * b + n % 10;
      assert b == (n / 10) % Pow10(width - 1);
    } else {
      assert Pow10(width) == 1;
    }
  }

  /** A value that fits the width is recovered exactly. */
  lemma DigitsRoundTripExact(n: int, width: nat)
    requires 0 <= n < Pow10(width)
    ensures ParseDigits(Digits(n, width)) == n
  {
    DigitsRoundTrip(n, width);
    ModUnique(n, Pow10(width), 0, n);
  }

  /** Parsing the formatted digits peels off the last digit. */
  lemma DigitsStep(n: int, width: nat)
    requires width > 0
    ensures ParseDigits(Digits(n, width)) == 10 * ParseDigits(Digits(n / 10, width - 1)) + n % 10
  {
    var s := Digits(n, width);
    assert s[..|s| - 1] == Digits(n / 10, width - 1);
    assert CharDigit(s[|s| - 1]) == n % 10;
  }

  /** The remainder modulo 10^width splits into the remainder of the
      leading digits and the last digit. */
  lemma ModDecomposePow(n: int, width: nat)
    requires width > 0
    ensures 10 * ((n / 10) % Pow10(width - 1)) + n % 10 == n % Pow10(width)
  {
    ModDecompose(n, Pow10(width - 1));
  }

  lemma ModDecompose(n: int, p: int)
    requires p >= 1
    ensures 10 * ((n / 10) % p) + n % 10 == n % (10 * p)
  {
    var q := n / 10;
    var r := n % 10;
    var a := q / p;
    var b := q % p;
    assert n == 10 * q + r;
    assert q == p * a + b;
    assert 10 * q == (10 * p) * a + 10 * b by {
      assert 10 * (p * a) == (10 * p) * a;
    }
    ModUnique(n, 10 * p, a, 10 * b + r);
  }

  /** Euclidean division has a unique remainder. */
  lemma ModUnique(n: int, d: int, q: int, r: int)
    requires d >= 1 && 0 <= r < d && n == d * q + r
    ensures n % d == r
  {
    var q' := n / d;
    var r' := n % d;
    assert n == d * q' + r';
    assert d * (q - q') == r' - r by {
      assert d * (q - q') == d * q - d * q';
    }
    if q - q' >= 1 {
      MulAtLeast(d, q - q');
    } else if q - q' <= -1 {
      MulAtLeast(d, q' - q);
    }
  }

  lemma MulAtLeast(d: int, k: int)
    requires d >= 1 && k >= 1
    ensures d * k >= d
  {
    assert d * k == d * (k - 1) + d;
    assert d * (k - 1) >= 0;
  }

  /** Proleptic Gregorian date of a day number counted from 1970-01-01
      (the days-to-civil algorithm); `/` and `%` are floor operations for
      the positive divisors used here. */
  function CivilFromDays(days: int): (date: (int, int, int))
  {
    var z := days + 719468;
    var era := z / 146097;
    var doe := z - era * 146097;
    var yoe := (doe - doe / 1460 + doe / 36524 - doe / 146096) / 365;
    var y := yoe + era * 400;
    var doy := doe - (365 * yoe + yoe / 4 - yoe / 100);
    var mp := (5 * doy + 2) / 153;
    var d := doy - (153 * mp + 2) / 5 + 1;
    var m := if mp < 10 then mp + 3 else mp - 9;
    (if m <= 2 then y + 1 else y, m, d)
  }

  /** The calendar day a timestamp falls on, as a day number. */
  function DayNumber(t: Timestamp): int
  {
    t / MicrosPerDay
  }

  /** `strftime('%Y%m%d')`: the year, month and day of `t`'s calendar
      day as four, two and two digits. */
  function Yyyymmdd(t: Timestamp): (s: string)
    ensures |s| == 8
    ensures forall i :: 0 <= i < |s| ==> '0' <= s[i] <= '9'
    ensures var date := CivilFromDays(DayNumber(t));
            && ParseDigits(s[..4]) == date.0 % 10000
            && ParseDigits(s[4..6]) == date.1 % 100
            && ParseDigits(s[6..]) == date.2 % 100
  {
    CompactDate(CivilFromDays(DayNumber(t)))
  }

  /** `date().isoformat()`, i.e. YYYY-MM-DD. */
  function IsoDate(t: Timestamp): (s: string)
    ensures |s| == 10
    ensures s[4] == '-' && s[7] == '-'
    ensures var date := CivilFromDays(DayNumber(t));
            && ParseDigits(s[..4]) == date.0 % 10000
            && ParseDigits(s[5..7]) == date.1 % 100
            && ParseDigits(s[8..]) == date.2 % 100
  {
    DashedDate(CivilFromDays(DayNumber(t)))
  }

  /** A (year, month, day) triple as YYYYMMDD. */
  function CompactDate(date: (int, int, int)): (s: string)
    ensures |s| == 8
    ensures forall i :: 0 <= i < |s| ==> '0' <= s[i] <= '9'
    ensures && ParseDigits(s[..4]) == date.0 % 10000
            && ParseDigits(s[4..6]) == date.1 % 100
            && ParseDigits(s[6..]) == date.2 % 100
  {
    var y, m, d := Digits(date.0, 4), Digits(date.1, 2), Digits(date.2, 2);
    DateFields(date.0, date.1, date.2);
    assert (y + m + d)[..4] == y && (y + m + d)[4..6] == m && (y + m + d)[6..] == d;
    y + m + d
  }

  /** A (year, month, day) triple as YYYY-MM-DD. */
  function DashedDate(date: (int, int, int)): (s: string)
    ensures |s| == 10
    ensures s[4] == '-' && s[7] == '-'
    ensures && ParseDigits(s[..4]) == date.0 % 10000
            && ParseDigits(s[5..7]) == date.1 % 100
            && ParseDigits(s[8..]) == date.2 % 100
  {
    var y, m, d := Digits(date.0, 4), Digits(date.1, 2), Digits(date.2, 2);
    DateFields(date.0, date.1, date.2);
    var tail := m + ("-" + d);
    assert tail[..2] == m && tail[3..] == d;
    var s := y + ("-" + tail);
    assert s[..4] == y && s[5..] == tail;
    assert s[5..7] == tail[..2] && s[8..] == tail[3..];
    s
  }

  /** The date fields read back from their digits. */
  lemma DateFields(y: int, m: int, d: int)
    ensures ParseDigits(Digits(y, 4)) == y % 10000
    ensures ParseDigits(Digits(m, 2)) == m % 100
    ensures ParseDigits(Digits(d, 2)) == d % 100
  {
    DigitsRoundTrip(y, 4);
    DigitsRoundTrip(m, 2);
    DigitsRoundTrip(d, 2);
    assert Pow10(2) == 100 && Pow10(4) == 10000 by {
      assert Pow10(1) == 10;
      assert Pow10(3) == 1000;
    }
  }

  /** Two instants on the same calendar day have the same date text. */
  lemma SameDaySameDate(a: Timestamp, b: Timestamp)
    requires DayNumber(a) == DayNumber(b)
    ensures Yyyymmdd(a) == Yyyymmdd(b) && IsoDate(a) == IsoDate(b)
  {
  }

  function UpperChar(c: char): char
  {
    if 'a' <= c <= 'z' then (c as int - 'a' as int + 'A' as int) as char else c
  }

  function LowerChar(c: char): char
  {
    if 'A' <= c <= 'Z' then (c as int - 'A' as int + 'a' as int) as char else c
  }

  /** `str.upper()` on ASCII letters. */
  function Upper(s: string): (r: string)
    ensures |r| == |s|
    ensures forall i :: 0 <= i < |s| ==> r[i] == UpperChar(s[i])
  {
    if |s| == 0 then "" else Upper(s[..|s| - 1]) + [UpperChar(s[|s| - 1])]
  }

  /** `str.lower()` on ASCII letters. */
  function Lower(s: string): (r: string)
    ensures |r| == |s|
    ensures forall i :: 0 <= i < |s| ==> r[i] == LowerChar(s[i])
  {
    if |s| == 0 then "" else Lower(s[..|s| - 1]) + [LowerChar(s[|s| - 1])]
  }

  /** Lower-casing forgets case: a name and its upper-cased form share a key. */
  lemma {:induction false} LowerOfUpper(s: string)
    ensures Lower(Upper(s)) == Lower(s)
  {
    var a := Lower(Upper(s));
    var b := Lower(s);
    forall i | 0 <= i < |s|
      ensures a[i] == b[i]
    {
      LowerOfUpperChar(s[i]);
    }
    assert a == b;
  }

  lemma LowerOfUpperChar(c: char)
    ensures LowerChar(UpperChar(c)) == LowerChar(c)
  {
    if 'a' <= c <= 'z' {
      assert UpperChar(c) as int == c as int - 32;
    }
  }
}
