/** Probability cones (src/ChartModels/ProbabilityCone.ts): from the log returns of a
    price series, a window of `lookback` returns ending at an anchor bar gives a mean and a
    deviation, and the cone projects the anchor price forward with three pairs of bands
    that widen with the square root of elapsed bars.

    Numbers are exact reals. A JavaScript result that is NaN or infinite is `None`.
    The transcendental functions are not defined here: they are the fields of an
    `Analytic` value, and the properties that need them assume `Lawful`, the few laws of
    `exp`, `log` and `sqrt` the proofs use. */
module ProbabilityCone {
  import opened Wrappers

  /** A JavaScript number that may have become NaN or infinite (`None`). */
  type Num = Option<real>

  datatype DeviationMethod = Standard | Laplace | Absolute

  datatype MeanMethod = AutoMean | AverageMean | MedianMean

  /** The six band multipliers. */
  datatype Multipliers = Multipliers(
    firstUpper: real, firstLower: real,
    secondUpper: real, secondLower: real,
    thirdUpper: real, thirdLower: real)

  datatype ConesInput = ConesInput(
    source: seq<real>,
    deviation: DeviationMethod,
    meanMethod: MeanMethod,
    lookback: int,
    forecastBars: int,
    drift: bool,
    anchorIndex: int,
    anchorOpen: bool,
    deviations: Multipliers)

  datatype ConesOutput = ConesOutput(
    mean: seq<Num>,
    firstUpper: seq<Num>, firstLower: seq<Num>,
    secondUpper: seq<Num>, secondLower: seq<Num>,
    thirdUpper: seq<Num>, thirdLower: seq<Num>)

  /** The values of `Math.exp`, `Math.log` and `Math.sqrt` on the reals. */
  datatype Analytic = Analytic(exp: real -> real, log: real -> real, sqrt: real -> real)

  function Exp(f: Analytic, x: real): real {
    f.exp(x)
  }

  function Log(f: Analytic, x: real): real {
    f.log(x)
  }

  function Sqrt(f: Analytic, x: real): real {
    f.sqrt(x)
  }

  /** The laws of the three functions that the properties below rely on. */
  ghost predicate Lawful(f: Analytic) {
    && Exp(f, 0.0) == 1.0
    && (forall x :: 0.0 < Exp(f, x))
    && (forall x, y :: x <= y ==> Exp(f, x) <= Exp(f, y))
    && Log(f, 1.0) == 0.0
    && Sqrt(f, 0.0) == 0.0
    && (forall x :: 0.0 <= x ==> 0.0 <= Sqrt(f, x))
    && (forall x, y :: 0.0 <= x <= y ==> Sqrt(f, x) <= Sqrt(f, y))
  }

  // ---------------------------------------------------------------------------
  // Arithmetic on numbers that may be NaN

  function Add(a: Num, b: Num): Num {
    if a.Some? && b.Some? then Some(a.value + b.value) else None
  }

  function Sub(a: Num, b: Num): Num {
    if a.Some? && b.Some? then Some(a.value - b.value) else None
  }

  function Mul(a: Num, b: Num): Num {
    if a.Some? && b.Some? then Some(Times(a.value, b.value)) else None
  }

  /** The product of two reals, named so that equal products are recognised as equal. */
  function Times(x: real, y: real): real {
    x * y
  }

  /** `x / y`, NaN or infinite when `y` is zero. */
  function Div(x: real, y: real): Num {
    if y == 0.0 then None else Some(x / y)
  }

  function ExpOf(f: Analytic, a: Num): Num {
    if a.Some? then Some(Exp(f, a.value)) else None
  }

  /** `Math.log`: NaN below zero and minus infinity at zero. */
  function LogOf(f: Analytic, a: Num): Num {
    if a.Some? && a.value > 0.0 then Some(Log(f, a.value)) else None
  }

  /** `Math.sqrt`: NaN below zero. */
  function SqrtOf(f: Analytic, x: real): Num {
    if x >= 0.0 then Some(Sqrt(f, x)) else None
  }

  function Square(x: real): (r: real)
    ensures 0.0 <= r
  {
    x * x
  }

  function RealAbs(x: real): real {
    if x < 0.0 then -x else x
  }

  // ---------------------------------------------------------------------------
  // Array helpers

  /** Where `Array.prototype.slice` puts a (possibly negative) bound: negative positions
      count from the end, and the result is clamped to the array. */
  function SliceBound(k: int, len: nat): (b: nat)
    ensures b <= len
    ensures 0 <= k <= len ==> b == k
  {
    if k < 0 then (if len + k < 0 then 0 else len + k)
    else if k < len then k else len
  }

  /** `arr.slice(start, end)`. */
  function JsSlice<T>(arr: seq<T>, start: int, end: int): (r: seq<T>)
    ensures |r| <= |arr|
    ensures 0 <= start <= end <= |arr| ==> r == arr[start..end]
    ensures 0 < -start <= |arr| && end == |arr| ==> r == arr[|arr| + start..]
    ensures 0 <= end <= start ==> r == []
  {
    var a, b := SliceBound(start, |arr|), SliceBound(end, |arr|);
    if a < b then arr[a..b] else []
  }

  /** The sum of the entries, added left to right as `reduce` does. */
  function Sum(xs: seq<real>): real {
    if |xs| == 0 then 0.0 else Sum(xs[..|xs| - 1]) + xs[|xs| - 1]
  }

  predicate Sorted(s: seq<real>) {
    forall i, j :: 0 <= i < j < |s| ==> s[i] <= s[j]
  }

  function Insert(x: real, s: seq<real>): (r: seq<real>)
    requires Sorted(s)
    ensures Sorted(r) && multiset(r) == multiset(s) + multiset{x}
  {
    if s == [] then [x]
    else if x <= s[0] then [x] + s
    else
      var rest := Insert(x, s[1..]);
      assert s == [s[0]] + s[1..];
      BoundedBelow(s[0], x, s[1..], rest);
      [s[0]] + rest
  }

  /** Inserting a value not below `lo` into entries not below `lo` keeps them all above `lo`. */
  lemma BoundedBelow(lo: real, x: real, s: seq<real>, r: seq<real>)
    requires lo <= x && forall k :: 0 <= k < |s| ==> lo <= s[k]
    requires multiset(r) == multiset(s) + multiset{x}
    ensures forall k :: 0 <= k < |r| ==> lo <= r[k]
  {
    forall k | 0 <= k < |r|
      ensures lo <= r[k]
    {
      assert r[k] in multiset(r);
      if r[k] != x {
        assert r[k] in multiset(s);
      }
    }
  }

  /** The copy `[...arr].sort((a, b) => a - b)`: ascending and a permutation of the input,
      which itself is left as it was. */
  function SortedCopy(xs: seq<real>): (r: seq<real>)
    ensures Sorted(r) && multiset(r) == multiset(xs)
  {
    if xs == [] then []
    else
      assert xs == xs[..|xs| - 1] + [xs[|xs| - 1]];
      Insert(xs[|xs| - 1], SortedCopy(xs[..|xs| - 1]))
  }

  /** A sorted sequence is determined by its multiset of entries. */
  lemma {:induction false} SortedUnique(a: seq<real>, b: seq<real>)
    requires Sorted(a) && Sorted(b) && multiset(a) == multiset(b)
    ensures a == b
    decreases |a|
  {
    if a != [] {
      SortedHeads(a, b);
      SortedUnique(a[1..], b[1..]);
      assert a == [a[0]] + a[1..];
      assert b == [b[0]] + b[1..];
    } else {
      assert |b| == |multiset(b)|;
    }
  }

  /** Two sorted sequences with the same entries start alike, and their tails again have
      the same entries. */
  lemma SortedHeads(a: seq<real>, b: seq<real>)
    requires Sorted(a) && Sorted(b) && multiset(a) == multiset(b) && a != []
    ensures b != [] && a[0] == b[0]
    ensures Sorted(a[1..]) && Sorted(b[1..]) && multiset(a[1..]) == multiset(b[1..])
  {
    assert |a| == |multiset(a)| == |multiset(b)| == |b|;
    assert b[0] in multiset(a) && a[0] in multiset(b) by {
      assert b[0] in b && a[0] in a;
    }
    SortedHeadIsLeast(a, b[0]);
    SortedHeadIsLeast(b, a[0]);
    DropHead(a);
    DropHead(b);
  }

  /** The first entry of a sorted sequence is at most every value it holds. */
  lemma SortedHeadIsLeast(a: seq<real>, x: real)
    requires Sorted(a) && x in multiset(a)
    ensures a[0] <= x
  {
    var i :| 0 <= i < |a| && a[i] == x;
    assert i == 0 || a[0] <= a[i];
  }

  /** Removing the first entry removes one copy of it from the multiset. */
  lemma DropHead(a: seq<real>)
    requires |a| > 0
    ensures multiset(a[1..]) == multiset(a) - multiset{a[0]}
    ensures Sorted(a) ==> Sorted(a[1..])
  {
    assert a == [a[0]] + a[1..];
  }

  // ---------------------------------------------------------------------------
  // Statistics

  /** `sma`: the mean of the last `period` entries, NaN when there are fewer. */
  function Sma(xs: seq<real>, period: int): (r: Num)
    ensures period > 0 ==> (r.None? <==> |xs| < period)
  {
    if |xs| < period then None
    else Div(Sum(JsSlice(xs, -period, |xs|)), period as real)
  }

  /** The last `period` entries are the ones `sma` and `stdev` read. */
  lemma SmaWindow(xs: seq<real>, period: int)
    requires 0 < period <= |xs|
    ensures JsSlice(xs, -period, |xs|) == xs[|xs| - period..]
  {
  }

  /** Entries before the last `period` do not matter. */
  lemma SmaReadsOnlyTheTail(ys: seq<real>, xs: seq<real>, period: int)
    requires 0 < period <= |xs|
    ensures Sma(ys + xs, period) == Sma(xs, period)
  {
    SmaWindow(ys + xs, period);
    SmaWindow(xs, period);
    assert (ys + xs)[|ys + xs| - period..] == xs[|xs| - period..];
  }

  lemma {:induction false} SumConstant(xs: seq<real>, c: real)
    requires forall i :: 0 <= i < |xs| ==> xs[i] == c
    ensures Sum(xs) == |xs| as real * c
  {
    if |xs| > 0 {
      SumConstant(xs[..|xs| - 1], c);
    }
  }

  lemma {:induction false} SumNonNegative(xs: seq<real>)
    requires forall i :: 0 <= i < |xs| ==> 0.0 <= xs[i]
    ensures 0.0 <= Sum(xs)
  {
    if |xs| > 0 {
      SumNonNegative(xs[..|xs| - 1]);
    }
  }

  /** The moving average of a constant series is that constant. */
  lemma SmaConstant(xs: seq<real>, period: int, c: real)
    requires 0 < period <= |xs|
    requires forall i :: 0 <= i < |xs| ==> xs[i] == c
    ensures Sma(xs, period) == Some(c)
  {
    SmaWindow(xs, period);
    var t := xs[|xs| - period..];
    SumConstant(t, c);
    assert Sum(t) == period as real * c;
    assert (period as real * c) / period as real == c;
  }

  /** The middle of a sorted array: its middle entry for an odd count, the mean of its two
      middle entries for an even one, NaN when it is empty. */
  function Middle(s: seq<real>): (r: Num)
    ensures r.None? <==> |s| == 0
    ensures Sorted(s) && r.Some? ==> s[0] <= r.value <= s[|s| - 1]
  {
    var mid := |s| / 2;
    if |s| % 2 != 0 then Some(s[mid])
    else if |s| == 0 then None
    else Some((s[mid - 1] + s[mid]) / 2.0)
  }

  /** `median`: the middle of the sorted copy; it lies between the least and the greatest
      entry. */
  function Median(xs: seq<real>): (r: Num)
    ensures r.None? <==> |xs| == 0
    ensures r.Some? ==> exists i, j :: 0 <= i < |xs| && 0 <= j < |xs| && xs[i] <= r.value <= xs[j]
  {
    var s := SortedCopy(xs);
    if |s| > 0 then
      assert s[0] in multiset(xs) && s[|s| - 1] in multiset(xs);
      Middle(s)
    else Middle(s)
  }

  /** The median depends only on the entries, not on their order. */
  lemma MedianPermutation(xs: seq<real>, ys: seq<real>)
    requires multiset(xs) == multiset(ys)
    ensures Median(xs) == Median(ys)
  {
    SortedUnique(SortedCopy(xs), SortedCopy(ys));
  }

  /** An odd count has its median among the entries. */
  lemma MedianOddIsEntry(xs: seq<real>)
    requires |xs| % 2 == 1
    ensures Median(xs).Some? && Median(xs).value in xs
  {
    var s := SortedCopy(xs);
    assert s[|s| / 2] in multiset(xs);
  }

  /** The median of a constant series is that constant. */
  lemma MedianConstant(xs: seq<real>, c: real)
    requires |xs| > 0
    requires forall i :: 0 <= i < |xs| ==> xs[i] == c
    ensures Median(xs) == Some(c)
  {
    var s := SortedCopy(xs);
    forall k | 0 <= k < |s|
      ensures s[k] == c
    {
      assert s[k] in multiset(xs);
      var j :| 0 <= j < |xs| && xs[j] == s[k];
    }
  }

  /** The squared distance of each entry from `mean`. */
  function SquaredDeviations(xs: seq<real>, mean: real): (r: seq<real>)
    ensures |r| == |xs| && forall i :: 0 <= i < |xs| ==> r[i] == Square(xs[i] - mean)
  {
    seq(|xs|, i requires 0 <= i < |xs| => Square(xs[i] - mean))
  }

  /** The distance of each entry from `mean`. */
  function AbsoluteDeviations(xs: seq<real>, mean: real): (r: seq<real>)
    ensures |r| == |xs| && forall i :: 0 <= i < |xs| ==> r[i] == RealAbs(xs[i] - mean)
  {
    seq(|xs|, i requires 0 <= i < |xs| => RealAbs(xs[i] - mean))
  }

  /** `stdev`: the population standard deviation of the last `period` entries around
      their `sma`, NaN when there are fewer. */
  function Stdev(f: Analytic, xs: seq<real>, period: int): (r: Num)
    ensures period > 0 ==> (r.None? <==> |xs| < period)
    ensures Lawful(f) && r.Some? ==> 0.0 <= r.value
  {
    if |xs| < period then None
    else
      var mean := Sma(xs, period);
      if mean.None? then None
      else
        var sq := SquaredDeviations(JsSlice(xs, -period, |xs|), mean.value);
        SumNonNegative(sq);
        SqrtOf(f, Sum(sq) / period as real)
  }

  /** A constant series has standard deviation zero. */
  lemma StdevConstant(f: Analytic, xs: seq<real>, period: int, c: real)
    requires Lawful(f) && 0 < period <= |xs|
    requires forall i :: 0 <= i < |xs| ==> xs[i] == c
    ensures Stdev(f, xs, period) == Some(0.0)
  {
    SmaConstant(xs, period, c);
    SmaWindow(xs, period);
    var sq := SquaredDeviations(JsSlice(xs, -period, |xs|), c);
    SumConstant(sq, 0.0);
  }

  /** `absoluteDeviation`: the mean distance of the entries from `mean`. */
  function AbsoluteDeviation(xs: seq<real>, mean: Num): (r: Num)
    ensures r.None? <==> (mean.None? || |xs| == 0)
    ensures r.Some? ==> 0.0 <= r.value
  {
    if mean.None? then None
    else
      var d := AbsoluteDeviations(xs, mean.value);
      SumNonNegative(d);
      Div(Sum(d), |xs| as real)
  }

  /** The entries of a constant series are at distance zero from it. */
  lemma AbsoluteDeviationConstant(xs: seq<real>, c: real)
    requires |xs| > 0 && forall i :: 0 <= i < |xs| ==> xs[i] == c
    ensures AbsoluteDeviation(xs, Some(c)) == Some(0.0)
  {
    SumConstant(AbsoluteDeviations(xs, c), 0.0);
  }

  /** The Laplace deviation `sqrt(2 * absDev^2)`. */
  function LaplaceDeviation(f: Analytic, absDev: Num): (r: Num)
    ensures r.None? <==> absDev.None?
    ensures Lawful(f) && r.Some? ==> 0.0 <= r.value
  {
    if absDev.None? then None else SqrtOf(f, 2.0 * Square(absDev.value))
  }

  /** The statistics of the log-return window. */
  datatype Stats = Stats(median: Num, average: Num, stdev: Num, absDev: Num, laplace: Num)

  /** The window as reals, or `None` when one of its returns is NaN or infinite. */
  function Finite(w: seq<Num>): (r: Option<seq<real>>)
    ensures r.Some? <==> forall i :: 0 <= i < |w| ==> w[i].Some?
    ensures r.Some? ==> |r.value| == |w| && forall i :: 0 <= i < |w| ==> w[i] == Some(r.value[i])
  {
    if forall i :: 0 <= i < |w| ==> w[i].Some? then
      Some(seq(|w|, i requires 0 <= i < |w| => w[i].value))
    else None
  }

  /** All statistics of the window; the absolute deviation is taken around the median
      exactly when the mean method is `Median`. */
  function WindowStats(f: Analytic, w: seq<Num>, lookback: int, meanMethod: MeanMethod): (s: Stats)
    ensures Lawful(f) ==> forall d :: d in [s.stdev, s.absDev, s.laplace] && d.Some? ==> 0.0 <= d.value
  {
    match Finite(w)
    case None => Stats(None, None, None, None, None)
    case Some(xs) =>
      var median := Median(xs);
      var average := Sma(xs, lookback);
      var absDev := AbsoluteDeviation(xs, if meanMethod == MedianMean then median else average);
      Stats(median, average, Stdev(f, xs, lookback), absDev, LaplaceDeviation(f, absDev))
  }

  /** The mean the cone uses: the average, the median, or for `Auto` the average exactly
      when the deviation method is `Standard`. */
  function SelectMean(meanMethod: MeanMethod, deviation: DeviationMethod, s: Stats): (m: Num)
    ensures meanMethod == AverageMean ==> m == s.average
    ensures meanMethod == MedianMean ==> m == s.median
    ensures meanMethod == AutoMean ==> m == (if deviation == Standard then s.average else s.median)
  {
    match meanMethod
    case AverageMean => s.average
    case MedianMean => s.median
    case AutoMean => if deviation == Standard then s.average else s.median
  }

  /** The deviation the cone uses: standard deviation, Laplace or absolute deviation. */
  function SelectDeviation(deviation: DeviationMethod, s: Stats): (d: Num)
    ensures deviation == Standard ==> d == s.stdev
    ensures deviation == Laplace ==> d == s.laplace
    ensures deviation == Absolute ==> d == s.absDev
  {
    match deviation
    case Standard => s.stdev
    case Laplace => s.laplace
    case Absolute => s.absDev
  }

  // ---------------------------------------------------------------------------
  // The cone

  /** The log return from bar `k` to bar `k + 1`. */
  function LogReturn(f: Analytic, source: seq<real>, k: nat): Num
    requires k + 1 < |source|
  {
    LogOf(f, Div(source[k + 1], source[k]))
  }

  /** Step 1: one log return per pair of consecutive prices. */
  function LogReturns(f: Analytic, source: seq<real>): (r: seq<Num>)
    ensures |r| == if |source| == 0 then 0 else |source| - 1
    ensures forall k :: 0 <= k < |r| ==> r[k] == LogReturn(f, source, k)
  {
    seq(if |source| == 0 then 0 else |source| - 1, k requires 0 <= k < |source| - 1 => LogReturn(f, source, k))
  }

  /** `source[anchorIndex]`, NaN when the index is outside the series. */
  function AnchorOf(source: seq<real>, anchorIndex: int): (a: Num)
    ensures a.Some? <==> 0 <= anchorIndex < |source|
  {
    if 0 <= anchorIndex < |source| then Some(source[anchorIndex]) else None
  }

  /** Step 2: the returns `anchorIndex - lookback .. anchorIndex - 1`, as `slice` picks them. */
  function Window(f: Analytic, input: ConesInput): seq<Num> {
    JsSlice(LogReturns(f, input.source), input.anchorIndex - input.lookback, input.anchorIndex)
  }

  /** With enough history, the window is the `lookback` returns that end at the anchor bar. */
  lemma WindowEndsAtAnchor(f: Analytic, input: ConesInput)
    requires 0 <= input.lookback <= input.anchorIndex < |input.source|
    ensures |Window(f, input)| == input.lookback
    ensures forall k :: 0 <= k < input.lookback ==>
      Window(f, input)[k] == LogReturn(f, input.source, input.anchorIndex - input.lookback + k)
  {
  }

  /** What every step of the forecast needs. */
  datatype ConeParams = ConeParams(anchor: Num, mean: Num, dev: Num, drift: bool, anchorOpen: bool)

  /** Step 3: anchor, mean and deviation. */
  function ParamsOf(f: Analytic, input: ConesInput): ConeParams {
    var stats := WindowStats(f, Window(f, input), input.lookback, input.meanMethod);
    ConeParams(
      AnchorOf(input.source, input.anchorIndex),
      SelectMean(input.meanMethod, input.deviation, stats),
      SelectDeviation(input.deviation, stats),
      input.drift, input.anchorOpen)
  }

  /** A series of the cone: the mean, or a band with its multiplier. */
  datatype Band = Centre | Upper(m: real) | Lower(m: real)

  /** `sqrt(i + anchorOpen)`: the spread grows with the square root of elapsed bars. */
  function PeriodSqrt(f: Analytic, p: ConeParams, i: nat): Num {
    SqrtOf(f, (i + if p.anchorOpen then 1 else 0) as real)
  }

  /** The log-mean at step `i`: scaled by `i` with drift, constant without. */
  function ConeMean(p: ConeParams, i: nat): Num {
    if p.drift then Mul(p.mean, Some(i as real)) else p.mean
  }

  /** How far a band with multiplier `m` lies from the log-mean at step `i`. */
  function Spread(f: Analytic, p: ConeParams, m: real, i: nat): Num {
    Mul(Mul(Some(m), p.dev), PeriodSqrt(f, p, i))
  }

  /** Step 4: the value of one series at step `i`. */
  function BandValue(f: Analytic, p: ConeParams, band: Band, i: nat): Num {
    match band
    case Centre => Mul(p.anchor, ExpOf(f, ConeMean(p, i)))
    case Upper(m) => Mul(p.anchor, ExpOf(f, Add(ConeMean(p, i), Spread(f, p, m, i))))
    case Lower(m) => Mul(p.anchor, ExpOf(f, Sub(ConeMean(p, i), Spread(f, p, m, i))))
  }

  /** The first `n` steps of one series. */
  function Series(f: Analytic, p: ConeParams, band: Band, n: int): (s: seq<Num>)
    ensures |s| == if n < 0 then 0 else n
    decreases n
  {
    if n <= 0 then [] else Series(f, p, band, n - 1) + [BandValue(f, p, band, n - 1)]
  }

  /** Entry `i` of a series is the band's value at step `i`. */
  lemma {:induction false} SeriesValues(f: Analytic, p: ConeParams, band: Band, n: int)
    ensures forall i :: 0 <= i < |Series(f, p, band, n)| ==> Series(f, p, band, n)[i] == BandValue(f, p, band, i)
    decreases n
  {
    if n > 0 {
      SeriesValues(f, p, band, n - 1);
    }
  }

  /** The first `n` steps of all seven series. */
  function ConesPrefix(f: Analytic, p: ConeParams, d: Multipliers, n: int): ConesOutput {
    ConesOutput(
      Series(f, p, Centre, n),
      Series(f, p, Upper(d.firstUpper), n), Series(f, p, Lower(d.firstLower), n),
      Series(f, p, Upper(d.secondUpper), n), Series(f, p, Lower(d.secondLower), n),
      Series(f, p, Upper(d.thirdUpper), n), Series(f, p, Lower(d.thirdLower), n))
  }

  /** The whole forecast: steps `0 .. forecastBars` of the seven series. */
  function Cones(f: Analytic, input: ConesInput): ConesOutput {
    ConesPrefix(f, ParamsOf(f, input), input.deviations, input.forecastBars + 1)
  }

  /** `calculateProbabilityCones`: collects the log returns, takes the statistics of the
      window, and fills the seven arrays one forecast step at a time. */
  method CalculateProbabilityCones(f: Analytic, input: ConesInput) returns (out: ConesOutput)
    ensures out == Cones(f, input)
  {
    var logReturns := CollectLogReturns(f, input.source);
    var anchor := AnchorOf(input.source, input.anchorIndex);
    var window := JsSlice(logReturns, input.anchorIndex - input.lookback, input.anchorIndex);
    assert window == Window(f, input);
    var stats := WindowStats(f, window, input.lookback, input.meanMethod);
    var mean := SelectMean(input.meanMethod, input.deviation, stats);
    var dev := SelectDeviation(input.deviation, stats);
    var p := ConeParams(anchor, mean, dev, input.drift, input.anchorOpen);
    assert p == ParamsOf(f, input);
    out := Forecast(f, p, input.deviations, input.forecastBars);
  }

  /** The first loop of `calculateProbabilityCones`: one log return per pair of bars. */
  method CollectLogReturns(f: Analytic, source: seq<real>) returns (logReturns: seq<Num>)
    ensures logReturns == LogReturns(f, source)
  {
    logReturns := [];
    var i := 1;
    while i < |source|
      invariant 1 <= i && (i <= |source| || i == 1)
      invariant |logReturns| == i - 1
      invariant forall k :: 0 <= k < i - 1 ==> logReturns[k] == LogReturn(f, source, k)
    {
      logReturns := logReturns + [LogOf(f, Div(source[i], source[i - 1]))];
      i := i + 1;
    }
  }

  /** The values of an upper and a lower band at step `i`, computed as the loop computes them. */
  lemma StepValues(f: Analytic, p: ConeParams, up: real, down: real, i: nat, coneMean: Num, periodSqrt: Num)
    requires periodSqrt == PeriodSqrt(f, p, i) && coneMean == ConeMean(p, i)
    ensures BandValue(f, p, Upper(up), i) == Mul(p.anchor, ExpOf(f, Add(coneMean, Mul(Mul(Some(up), p.dev), periodSqrt))))
    ensures BandValue(f, p, Lower(down), i) == Mul(p.anchor, ExpOf(f, Sub(coneMean, Mul(Mul(Some(down), p.dev), periodSqrt))))
  {
  }

  /** The forecast loop of `calculateProbabilityCones`: steps `0 .. forecastBars`. */
  method Forecast(f: Analytic, p: ConeParams, d: Multipliers, forecastBars: int) returns (out: ConesOutput)
    ensures out == ConesPrefix(f, p, d, forecastBars + 1)
  {
    var meanArr, firstUpper, firstLower, secondUpper, secondLower, thirdUpper, thirdLower := [], [], [], [], [], [], [];
    var step: nat := 0;
    while step <= forecastBars
      invariant step <= forecastBars + 1 || step == 0
      invariant meanArr == Series(f, p, Centre, step)
      invariant firstUpper == Series(f, p, Upper(d.firstUpper), step)
      invariant firstLower == Series(f, p, Lower(d.firstLower), step)
      invariant secondUpper == Series(f, p, Upper(d.secondUpper), step)
      invariant secondLower == Series(f, p, Lower(d.secondLower), step)
      invariant thirdUpper == Series(f, p, Upper(d.thirdUpper), step)
      invariant thirdLower == Series(f, p, Lower(d.thirdLower), step)
    {
      var meanValue, firstUpperVal, firstLowerVal, secondUpperVal, secondLowerVal, thirdUpperVal, thirdLowerVal :=
        ForecastStep(f, p, d, step);
      meanArr := meanArr + [meanValue];
      firstUpper := firstUpper + [firstUpperVal];
      firstLower := firstLower + [firstLowerVal];
      secondUpper := secondUpper + [secondUpperVal];
      secondLower := secondLower + [secondLowerVal];
      thirdUpper := thirdUpper + [thirdUpperVal];
      thirdLower := thirdLower + [thirdLowerVal];
      step := step + 1;
    }
    out := ConesOutput(meanArr, firstUpper, firstLower, secondUpper, secondLower, thirdUpper, thirdLower);
  }

  /** The body of the forecast loop: the seven values of step `step`. */
  method ForecastStep(f: Analytic, p: ConeParams, d: Multipliers, step: nat)
    returns (meanValue: Num, firstUpperVal: Num, firstLowerVal: Num, secondUpperVal: Num, secondLowerVal: Num,
             thirdUpperVal: Num, thirdLowerVal: Num)
    ensures meanValue == BandValue(f, p, Centre, step)
    ensures firstUpperVal == BandValue(f, p, Upper(d.firstUpper), step)
    ensures firstLowerVal == BandValue(f, p, Lower(d.firstLower), step)
    ensures secondUpperVal == BandValue(f, p, Upper(d.secondUpper), step)
    ensures secondLowerVal == BandValue(f, p, Lower(d.secondLower), step)
    ensures thirdUpperVal == BandValue(f, p, Upper(d.thirdUpper), step)
    ensures thirdLowerVal == BandValue(f, p, Lower(d.thirdLower), step)
  {
    var anchorOpenVal := if p.anchorOpen then 1 else 0;
    var periodSqrt := SqrtOf(f, (step + anchorOpenVal) as real);
    var coneMean := if p.drift then Mul(p.mean, Some(step as real)) else p.mean;
    assert periodSqrt == PeriodSqrt(f, p, step) && coneMean == ConeMean(p, step);
    meanValue := Mul(p.anchor, ExpOf(f, coneMean));
    firstUpperVal := Mul(p.anchor, ExpOf(f, Add(coneMean, Mul(Mul(Some(d.firstUpper), p.dev), periodSqrt))));
    firstLowerVal := Mul(p.anchor, ExpOf(f, Sub(coneMean, Mul(Mul(Some(d.firstLower), p.dev), periodSqrt))));
    secondUpperVal := Mul(p.anchor, ExpOf(f, Add(coneMean, Mul(Mul(Some(d.secondUpper), p.dev), periodSqrt))));
    secondLowerVal := Mul(p.anchor, ExpOf(f, Sub(coneMean, Mul(Mul(Some(d.secondLower), p.dev), periodSqrt))));
    thirdUpperVal := Mul(p.anchor, ExpOf(f, Add(coneMean, Mul(Mul(Some(d.thirdUpper), p.dev), periodSqrt))));
    thirdLowerVal := Mul(p.anchor, ExpOf(f, Sub(coneMean, Mul(Mul(Some(d.thirdLower), p.dev), periodSqrt))));
    StepValues(f, p, d.firstUpper, d.firstLower, step, coneMean, periodSqrt);
    StepValues(f, p, d.secondUpper, d.secondLower, step, coneMean, periodSqrt);
    StepValues(f, p, d.thirdUpper, d.thirdLower, step, coneMean, periodSqrt);
  }

  // ---------------------------------------------------------------------------
  // Properties of the cone

  /** Every output array has `forecastBars + 1` entries (none for a negative count). */
  lemma ConeLengths(f: Analytic, input: ConesInput)
    ensures var out, n := Cones(f, input), if input.forecastBars < 0 then 0 else input.forecastBars + 1;
      && |out.mean| == n
      && |out.firstUpper| == n && |out.firstLower| == n
      && |out.secondUpper| == n && |out.secondLower| == n
      && |out.thirdUpper| == n && |out.thirdLower| == n
  {
  }

  lemma MulMonotone(a: real, x: real, y: real)
    requires 0.0 <= a && x <= y
    ensures Times(a, x) <= Times(a, y)
  {
  }

  lemma MulMonotoneRight(x: real, y: real, a: real)
    requires 0.0 <= a && x <= y
    ensures Times(x, a) <= Times(y, a)
  {
  }

  lemma MulNonNegative(x: real, y: real)
    requires 0.0 <= x && 0.0 <= y
    ensures 0.0 <= Times(x, y)
  {
  }

  /** `exp` scaled by a positive anchor is monotone. */
  lemma ScaledExpMonotone(f: Analytic, a: real, x: real, y: real)
    requires Lawful(f) && 0.0 < a && x <= y
    ensures Times(a, Exp(f, x)) <= Times(a, Exp(f, y))
  {
    assert Exp(f, x) <= Exp(f, y);
    MulMonotone(a, Exp(f, x), Exp(f, y));
  }

  /** The spread of a band is never negative when the deviation and multiplier are not. */
  lemma SpreadNonNegative(f: Analytic, p: ConeParams, m: real, i: nat)
    requires Lawful(f) && p.dev.Some? && 0.0 <= p.dev.value && 0.0 <= m
    ensures Spread(f, p, m, i).Some? && 0.0 <= Spread(f, p, m, i).value
  {
    var r := (i + if p.anchorOpen then 1 else 0) as real;
    assert 0.0 <= Sqrt(f, r);
    MulNonNegative(m, p.dev.value);
    MulNonNegative(Times(m, p.dev.value), Sqrt(f, r));
  }

  /** The spread grows with the multiplier and with the step. */
  lemma SpreadMonotone(f: Analytic, p: ConeParams, m: real, m': real, i: nat, i': nat)
    requires Lawful(f) && p.dev.Some? && 0.0 <= p.dev.value && 0.0 <= m <= m' && i <= i'
    ensures Spread(f, p, m, i).Some? && Spread(f, p, m', i').Some?
    ensures Spread(f, p, m, i).value <= Spread(f, p, m', i').value
  {
    var o := if p.anchorOpen then 1 else 0;
    var q, q' := Sqrt(f, (i + o) as real), Sqrt(f, (i' + o) as real);
    assert 0.0 <= q <= q';
    var d := p.dev.value;
    var k, k' := Times(m, d), Times(m', d);
    assert Spread(f, p, m, i) == Some(Times(k, q));
    assert Spread(f, p, m', i') == Some(Times(k', q'));
    MulMonotoneRight(m, m', d);
    MulNonNegative(m', d);
    MulMonotoneRight(k, k', q);
    MulMonotone(k', q, q');
  }

  /** With a positive anchor, a non-negative deviation and non-negative multipliers, every
      lower band is at or below the mean and every upper band at or above it. */
  lemma BandsEncloseMean(f: Analytic, p: ConeParams, m: real, i: nat)
    requires Lawful(f)
    requires p.anchor.Some? && 0.0 < p.anchor.value
    requires p.mean.Some? && p.dev.Some? && 0.0 <= p.dev.value && 0.0 <= m
    ensures BandValue(f, p, Centre, i).Some?
    ensures BandValue(f, p, Lower(m), i).Some? && BandValue(f, p, Upper(m), i).Some?
    ensures BandValue(f, p, Lower(m), i).value <= BandValue(f, p, Centre, i).value <= BandValue(f, p, Upper(m), i).value
  {
    SpreadNonNegative(f, p, m, i);
    var a, c, s := p.anchor.value, ConeMean(p, i).value, Spread(f, p, m, i).value;
    assert BandValue(f, p, Lower(m), i) == Some(Times(a, Exp(f, c - s)));
    assert BandValue(f, p, Centre, i) == Some(Times(a, Exp(f, c)));
    assert BandValue(f, p, Upper(m), i) == Some(Times(a, Exp(f, c + s)));
    ScaledExpMonotone(f, a, c - s, c);
    ScaledExpMonotone(f, a, c, c + s);
  }

  /** A larger multiplier gives a wider band. */
  lemma BandsNest(f: Analytic, p: ConeParams, m: real, m': real, i: nat)
    requires Lawful(f)
    requires p.anchor.Some? && 0.0 < p.anchor.value
    requires p.mean.Some? && p.dev.Some? && 0.0 <= p.dev.value && 0.0 <= m <= m'
    ensures BandValue(f, p, Upper(m), i).Some? && BandValue(f, p, Upper(m'), i).Some?
    ensures BandValue(f, p, Upper(m), i).value <= BandValue(f, p, Upper(m'), i).value
    ensures BandValue(f, p, Lower(m), i).Some? && BandValue(f, p, Lower(m'), i).Some?
    ensures BandValue(f, p, Lower(m'), i).value <= BandValue(f, p, Lower(m), i).value
  {
    SpreadMonotone(f, p, m, m', i, i);
    var a, c := p.anchor.value, ConeMean(p, i).value;
    var s, s' := Spread(f, p, m, i).value, Spread(f, p, m', i).value;
    assert BandValue(f, p, Upper(m), i) == Some(Times(a, Exp(f, c + s)));
    assert BandValue(f, p, Upper(m'), i) == Some(Times(a, Exp(f, c + s')));
    assert BandValue(f, p, Lower(m), i) == Some(Times(a, Exp(f, c - s)));
    assert BandValue(f, p, Lower(m'), i) == Some(Times(a, Exp(f, c - s')));
    ScaledExpMonotone(f, a, c + s, c + s');
    ScaledExpMonotone(f, a, c - s', c - s);
  }

  /** Without drift the cone widens step by step: each upper band rises and each lower
      band falls. */
  lemma ConeWidens(f: Analytic, p: ConeParams, m: real, i: nat)
    requires Lawful(f) && !p.drift
    requires p.anchor.Some? && 0.0 < p.anchor.value
    requires p.mean.Some? && p.dev.Some? && 0.0 <= p.dev.value && 0.0 <= m
    ensures BandValue(f, p, Upper(m), i).Some? && BandValue(f, p, Upper(m), i + 1).Some?
    ensures BandValue(f, p, Upper(m), i).value <= BandValue(f, p, Upper(m), i + 1).value
    ensures BandValue(f, p, Lower(m), i).Some? && BandValue(f, p, Lower(m), i + 1).Some?
    ensures BandValue(f, p, Lower(m), i + 1).value <= BandValue(f, p, Lower(m), i).value
  {
    SpreadMonotone(f, p, m, m, i, i + 1);
    var a, c := p.anchor.value, p.mean.value;
    var s, s' := Spread(f, p, m, i).value, Spread(f, p, m, i + 1).value;
    assert BandValue(f, p, Upper(m), i) == Some(Times(a, Exp(f, c + s)));
    assert BandValue(f, p, Upper(m), i + 1) == Some(Times(a, Exp(f, c + s')));
    assert BandValue(f, p, Lower(m), i) == Some(Times(a, Exp(f, c - s)));
    assert BandValue(f, p, Lower(m), i + 1) == Some(Times(a, Exp(f, c - s')));
    ScaledExpMonotone(f, a, c + s, c + s');
    ScaledExpMonotone(f, a, c - s', c - s);
  }

  /** With drift and a closed anchor bar, step 0 of every series is the anchor price. */
  lemma FirstStepIsAnchor(f: Analytic, p: ConeParams, band: Band)
    requires Lawful(f) && p.drift && !p.anchorOpen
    requires p.anchor.Some? && p.mean.Some? && p.dev.Some?
    ensures BandValue(f, p, band, 0) == p.anchor
  {
    assert ConeMean(p, 0) == Some(0.0);
    assert PeriodSqrt(f, p, 0) == Some(0.0);
    assert Times(p.anchor.value, Exp(f, 0.0)) == p.anchor.value;
    if !band.Centre? {
      assert Spread(f, p, band.m, 0) == Some(0.0);
    }
  }

  /** A series of constant positive prices has a cone that is flat at that price: every
      return is `log 1 = 0`, so the mean and every deviation are zero. */
  lemma FlatPricesGiveFlatCone(f: Analytic, input: ConesInput, price: real)
    requires Lawful(f) && 0.0 < price
    requires forall k :: 0 <= k < |input.source| ==> input.source[k] == price
    requires 0 < input.lookback <= input.anchorIndex < |input.source|
    ensures forall band, i: nat :: BandValue(f, ParamsOf(f, input), band, i) == Some(price)
  {
    FlatWindow(f, input, price);
    var w := Window(f, input);
    ZeroWindowStats(f, w, input.lookback, input.meanMethod);
    var p := ParamsOf(f, input);
    assert p.mean == Some(0.0) && p.dev == Some(0.0) && p.anchor == Some(price);
    forall band, i: nat
      ensures BandValue(f, p, band, i) == Some(price)
    {
      ZeroConeIsFlat(f, p, band, i);
    }
  }

  /** Constant prices give a window of zero returns. */
  lemma FlatWindow(f: Analytic, input: ConesInput, price: real)
    requires Lawful(f) && 0.0 < price
    requires forall k :: 0 <= k < |input.source| ==> input.source[k] == price
    requires 0 < input.lookback <= input.anchorIndex < |input.source|
    ensures |Window(f, input)| == input.lookback
    ensures forall k :: 0 <= k < |Window(f, input)| ==> Window(f, input)[k] == Some(0.0)
  {
    var w := Window(f, input);
    WindowEndsAtAnchor(f, input);
    forall k | 0 <= k < |w|
      ensures w[k] == Some(0.0)
    {
      var j := input.anchorIndex - input.lookback + k;
      var r := Div(input.source[j + 1], input.source[j]);
      assert r.Some? && r.value == price / price == 1.0;
      assert LogOf(f, r) == Some(Log(f, 1.0));
    }
  }

  /** A window of `lookback` zero returns has zero mean, median and deviations. */
  lemma ZeroWindowStats(f: Analytic, w: seq<Num>, lookback: int, meanMethod: MeanMethod)
    requires Lawful(f) && 0 < lookback == |w|
    requires forall k :: 0 <= k < |w| ==> w[k] == Some(0.0)
    ensures var s := WindowStats(f, w, lookback, meanMethod);
      s == Stats(Some(0.0), Some(0.0), Some(0.0), Some(0.0), Some(0.0))
  {
    var xs := Finite(w).value;
    assert forall k :: 0 <= k < |xs| ==> xs[k] == 0.0;
    MedianConstant(xs, 0.0);
    SmaConstant(xs, lookback, 0.0);
    StdevConstant(f, xs, lookback, 0.0);
    AbsoluteDeviationConstant(xs, 0.0);
    LaplaceOfZero(f);
    WindowStatsOfFinite(f, w, xs, lookback, meanMethod);
  }

  /** The statistics of a window of finite returns are those of the returns as reals. */
  lemma WindowStatsOfFinite(f: Analytic, w: seq<Num>, xs: seq<real>, lookback: int, meanMethod: MeanMethod)
    requires Finite(w) == Some(xs)
    ensures var absDev := AbsoluteDeviation(xs, if meanMethod == MedianMean then Median(xs) else Sma(xs, lookback));
      WindowStats(f, w, lookback, meanMethod)
        == Stats(Median(xs), Sma(xs, lookback), Stdev(f, xs, lookback), absDev, LaplaceDeviation(f, absDev))
  {
  }

  lemma LaplaceOfZero(f: Analytic)
    requires Lawful(f)
    ensures LaplaceDeviation(f, Some(0.0)) == Some(0.0)
  {
    assert 2.0 * Square(0.0) == 0.0;
  }

  /** With zero mean and zero deviation every series stays at the anchor. */
  lemma ZeroConeIsFlat(f: Analytic, p: ConeParams, band: Band, i: nat)
    requires Lawful(f) && p.anchor.Some? && p.mean == Some(0.0) && p.dev == Some(0.0)
    ensures BandValue(f, p, band, i) == p.anchor
  {
    assert ConeMean(p, i) == Some(0.0);
    assert PeriodSqrt(f, p, i).Some?;
    assert Times(p.anchor.value, Exp(f, 0.0)) == p.anchor.value;
    if !band.Centre? {
      assert Spread(f, p, band.m, i) == Some(0.0);
    }
  }
}
