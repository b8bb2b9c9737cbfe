/** The option chart of one ticker: `generateChartData` in chart.ts (server) and in
    src/App.tsx (browser), and the browser's expiration filter `filterContracts`.
    Day counts come from the clock in the source; here they are a parameter
    `daysOf` giving each contract its whole number of days until expiration. */
module ChartSeries {
  import opened Wrappers
  import opened ContractSymbol

  /** The two copies of `generateChartData` differ in which day counts survive
      and where the closing-price line ends. */
  datatype Variant = ServerChart | BrowserChart

  datatype Marker = Circle | Cross

  datatype LineColor = Green | Red

  /** One marker of a call or put trace: x is the day count, y the strike in dollars. */
  datatype Point = Point(days: int, strike: real, marker: Marker, hoverPct: Option<real>)

  /** A scatter trace: markers for the calls or the puts, or the dashed closing-price line
      from `(xStart, price)` to `(xEnd, price)`. */
  datatype Trace =
    | Markers(kind: Kind, points: seq<Point>)
    | PriceLine(xStart: int, xEnd: int, price: real, color: LineColor)

  /** The parts of the chart the model keeps: the traces that are drawn, the x-axis tick
      values and the x-axis range. */
  datatype Chart = Chart(ticker: string, plotData: seq<Trace>, tickVals: seq<int>, rangeStart: int, rangeEnd: int)

  /** chart.ts keeps day counts above zero, src/App.tsx keeps zero as well. */
  predicate Survives(v: Variant, days: int) {
    match v
    case ServerChart => days > 0
    case BrowserChart => days >= 0
  }

  /** A call struck below the close or a put struck above it: drawn with an `x`. */
  predicate AtRisk(c: Contract, close: real) {
    match c.kind
    case Call => Strike(c) < close
    case Put => Strike(c) > close
  }

  predicate IsCall(c: Contract) { c.kind == Call }

  predicate IsPut(c: Contract) { c.kind == Put }

  /** The contracts whose day count the variant keeps, in input order. */
  function ValidContracts(v: Variant, contracts: seq<Contract>, daysOf: Contract -> int): (r: seq<Contract>)
    ensures forall c :: c in r <==> c in contracts && Survives(v, daysOf(c))
  {
    Filter(contracts, c => Survives(v, daysOf(c)))
  }

  /** The signed distance from the close shown on hover, in percent. It is negative for an
      at-risk leg; a zero close makes the division produce no finite number (`None`). */
  function HoverPct(c: Contract, close: real): (pct: Option<real>)
    ensures pct.Some? <==> close != 0.0
    ensures pct.Some? && AtRisk(c, close) ==> pct.value <= 0.0
  {
    if close == 0.0 then None
    else
      match c.kind
      case Call =>
        var diff := (Strike(c) - close) / close * 100.0;
        Some(if Strike(c) < close then -Abs(diff) else diff)
      case Put =>
        var diff := (close - Strike(c)) / close * 100.0;
        Some(if Strike(c) > close then -Abs(diff) else diff)
  }

  function Abs(x: real): (r: real)
    ensures r >= 0.0 && (r == x || r == -x)
  {
    if x < 0.0 then -x else x
  }

  /** The marker drawn for a contract. */
  function PointOf(c: Contract, daysOf: Contract -> int, close: real): (p: Point)
    ensures p.days == daysOf(c) && p.strike == Strike(c)
    ensures p.marker == Cross <==> AtRisk(c, close)
  {
    Point(daysOf(c), Strike(c), if AtRisk(c, close) then Cross else Circle, HoverPct(c, close))
  }

  /** One marker per contract, in order. */
  function Points(cs: seq<Contract>, daysOf: Contract -> int, close: real): (ps: seq<Point>)
    ensures |ps| == |cs|
    ensures forall i :: 0 <= i < |cs| ==> ps[i] == PointOf(cs[i], daysOf, close)
  {
    seq(|cs|, i requires 0 <= i < |cs| => PointOf(cs[i], daysOf, close))
  }

  /** The day count of every valid contract, in order (the `days` array). */
  function DayCounts(cs: seq<Contract>, daysOf: Contract -> int): (ds: seq<int>)
    ensures |ds| == |cs|
    ensures forall x :: x in ds <==> exists c :: c in cs && daysOf(c) == x
  {
    var ds := seq(|cs|, i requires 0 <= i < |cs| => daysOf(cs[i]));
    assert forall c :: c in cs ==> daysOf(c) in ds by {
      forall c | c in cs ensures daysOf(c) in ds {
        var i :| 0 <= i < |cs| && cs[i] == c;
        assert ds[i] == daysOf(c);
      }
    }
    ds
  }

  /** `Math.max` of a non-empty list. */
  function MaxOf(s: seq<int>): (m: int)
    requires |s| > 0
    ensures m in s && forall x :: x in s ==> x <= m
  {
    if |s| == 1 then s[0]
    else
      var rest := MaxOf(s[1..]);
      assert forall x :: x in s ==> x == s[0] || x in s[1..];
      if s[0] >= rest then s[0] else rest
  }

  /** `maxDays`: the largest day count, or 1 when there is none. */
  function MaxDays(days: seq<int>): int {
    if |days| > 0 then MaxOf(days) else 1
  }

  /** Where the closing-price line ends: one day past `maxDays` in chart.ts, at `maxDays`
      in src/App.tsx. */
  function LineEnd(v: Variant, maxDays: int): int {
    match v
    case ServerChart => maxDays + 1
    case BrowserChart => maxDays
  }

  predicate StrictlyIncreasing(s: seq<int>) {
    forall i, j :: 0 <= i < j < |s| ==> s[i] < s[j]
  }

  /** Inserts `x` into a strictly increasing list unless it is already there. */
  function InsertUnique(x: int, s: seq<int>): (r: seq<int>)
    requires StrictlyIncreasing(s)
    ensures StrictlyIncreasing(r)
    ensures forall y :: y in r <==> y == x || y in s
  {
    if s == [] then [x]
    else if x < s[0] then [x] + s
    else if x == s[0] then s
    else
      var tail := InsertUnique(x, s[1..]);
      assert forall y :: y in tail ==> s[0] < y;
      assert forall j :: 0 <= j < |tail| ==> tail[j] in tail;
      [s[0]] + tail
  }

  /** `Array.from(new Set(days)).sort((a, b) => a - b)`: the distinct values, ascending. */
  function SortedUnique(s: seq<int>): (r: seq<int>)
    ensures StrictlyIncreasing(r)
    ensures forall x :: x in r <==> x in s
  {
    if s == [] then []
    else
      var r := InsertUnique(s[|s| - 1], SortedUnique(s[..|s| - 1]));
      assert s == s[..|s| - 1] + [s[|s| - 1]];
      r
  }

  /** `Math.max(...ticks, 1)`. */
  function MaxWithOne(ticks: seq<int>): (m: int)
    ensures m >= 1 && forall x :: x in ticks ==> x <= m
    ensures m == 1 || m in ticks
  {
    if |ticks| == 0 then 1
    else
      var t := MaxOf(ticks);
      if t >= 1 then t else 1
  }

  function CallTrace(v: Variant, contracts: seq<Contract>, daysOf: Contract -> int, close: real): Trace {
    Markers(Call, Points(Filter(ValidContracts(v, contracts, daysOf), IsCall), daysOf, close))
  }

  function PutTrace(v: Variant, contracts: seq<Contract>, daysOf: Contract -> int, close: real): Trace {
    Markers(Put, Points(Filter(ValidContracts(v, contracts, daysOf), IsPut), daysOf, close))
  }

  /** The dashed closing-price line: red when some call is struck below the close or
      some put above it. */
  function PriceLineOf(v: Variant, contracts: seq<Contract>, daysOf: Contract -> int, close: real): Trace {
    var valid := ValidContracts(v, contracts, daysOf);
    var calls := Filter(valid, IsCall);
    var puts := Filter(valid, IsPut);
    var maxDays := MaxDays(DayCounts(valid, daysOf));
    var hasCallBelow := exists c :: c in calls && Strike(c) < close;
    var hasPutAbove := exists p :: p in puts && Strike(p) > close;
    PriceLine(0, LineEnd(v, maxDays), close, if hasCallBelow || hasPutAbove then Red else Green)
  }

  /** Number of x values of a trace; traces with none are not drawn. */
  function XCount(t: Trace): nat {
    match t
    case Markers(_, ps) => |ps|
    case PriceLine(_, _, _, _) => 2
  }

  predicate HasPoints(t: Trace) { XCount(t) > 0 }

  function TickVals(v: Variant, contracts: seq<Contract>, daysOf: Contract -> int): seq<int> {
    SortedUnique(DayCounts(ValidContracts(v, contracts, daysOf), daysOf))
  }

  /** `generateChartData` without its hover and title text. */
  function GenerateChartData(v: Variant, ticker: string, contracts: seq<Contract>,
                             daysOf: Contract -> int, close: real): (chart: Chart)
    ensures chart.ticker == ticker && chart.rangeStart == 0
    ensures 1 <= |chart.plotData| <= 3
    ensures chart.plotData[|chart.plotData| - 1] == PriceLineOf(v, contracts, daysOf, close)
    ensures StrictlyIncreasing(chart.tickVals)
    ensures chart.rangeEnd >= 2
  {
    var traces := [CallTrace(v, contracts, daysOf, close), PutTrace(v, contracts, daysOf, close),
                   PriceLineOf(v, contracts, daysOf, close)];
    var plotData := Filter(traces, HasPoints);
    var ticks := TickVals(v, contracts, daysOf);
    PlotDataShape(traces);
    Chart(ticker, plotData, ticks, 0, MaxWithOne(ticks) + 1)
  }

  /** Filtering the three traces keeps the non-empty marker traces and always the line. */
  lemma PlotDataShape(traces: seq<Trace>)
    requires |traces| == 3 && traces[2].PriceLine?
    ensures Filter(traces, HasPoints)
         == (if HasPoints(traces[0]) then [traces[0]] else [])
          + (if HasPoints(traces[1]) then [traces[1]] else [])
          + [traces[2]]
  {
    assert traces == [traces[0]] + [traces[1]] + [traces[2]];
    FilterAppend([traces[0]] + [traces[1]], [traces[2]], HasPoints);
    FilterAppend([traces[0]], [traces[1]], HasPoints);
  }

  // ---------------------------------------------------------------------------
  // Properties of the chart

  /** Every drawn marker belongs to a surviving contract of the trace's kind, and every
      surviving contract is drawn; in particular no marker has a filtered-out day count. */
  lemma {:induction false} MarkersAreSurvivingContracts(v: Variant, contracts: seq<Contract>,
                                                        daysOf: Contract -> int, close: real, kind: Kind)
    ensures var t := if kind == Call then CallTrace(v, contracts, daysOf, close)
                     else PutTrace(v, contracts, daysOf, close);
      && (forall p :: p in t.points ==>
            Survives(v, p.days)
            && exists c :: c in contracts && c.kind == kind && p == PointOf(c, daysOf, close))
      && (forall c :: c in contracts && c.kind == kind && Survives(v, daysOf(c)) ==>
            PointOf(c, daysOf, close) in t.points)
  {
    var valid := ValidContracts(v, contracts, daysOf);
    var legs := if kind == Call then Filter(valid, IsCall) else Filter(valid, IsPut);
    var t := if kind == Call then CallTrace(v, contracts, daysOf, close)
             else PutTrace(v, contracts, daysOf, close);
    assert t.points == Points(legs, daysOf, close);
    forall p | p in t.points
      ensures Survives(v, p.days)
      ensures exists c :: c in contracts && c.kind == kind && p == PointOf(c, daysOf, close)
    {
      var i :| 0 <= i < |t.points| && t.points[i] == p;
      assert legs[i] in legs;
    }
    forall c | c in contracts && c.kind == kind && Survives(v, daysOf(c))
      ensures PointOf(c, daysOf, close) in t.points
    {
      assert c in legs;
      var i :| 0 <= i < |legs| && legs[i] == c;
      assert t.points[i] == PointOf(c, daysOf, close);
    }
  }

  /** The calls and the puts split the surviving contracts: each surviving contract is in
      exactly one of them, as often as it occurs in the input. */
  lemma CallsPutsPartition(v: Variant, contracts: seq<Contract>, daysOf: Contract -> int)
    ensures var valid := ValidContracts(v, contracts, daysOf);
      multiset(Filter(valid, IsCall)) + multiset(Filter(valid, IsPut)) == multiset(valid)
  {
    FilterPartition(ValidContracts(v, contracts, daysOf), IsCall, IsPut);
  }

  /** The line is red exactly when some surviving contract is at risk. */
  lemma LineColorRule(v: Variant, contracts: seq<Contract>, daysOf: Contract -> int, close: real)
    ensures PriceLineOf(v, contracts, daysOf, close).color == Red
        <==> exists c :: c in contracts && Survives(v, daysOf(c)) && AtRisk(c, close)
  {
    var valid := ValidContracts(v, contracts, daysOf);
    var calls := Filter(valid, IsCall);
    var puts := Filter(valid, IsPut);
    if exists c :: c in contracts && Survives(v, daysOf(c)) && AtRisk(c, close) {
      var c :| c in contracts && Survives(v, daysOf(c)) && AtRisk(c, close);
      if c.kind == Call {
        assert c in calls;
      } else {
        assert c in puts;
      }
    }
  }

  /** The line starts at day 0 and ends at the largest surviving day count (one day later
      in chart.ts); with no surviving contract `maxDays` is 1. */
  lemma LineSpan(v: Variant, contracts: seq<Contract>, daysOf: Contract -> int, close: real)
    ensures var line := PriceLineOf(v, contracts, daysOf, close);
      var bump := if v == ServerChart then 1 else 0;
      && line.xStart == 0 && line.price == close
      && ((forall c :: c in contracts ==> !Survives(v, daysOf(c))) ==> line.xEnd == 1 + bump)
      && (forall c :: c in contracts && Survives(v, daysOf(c)) ==> daysOf(c) + bump <= line.xEnd)
      && ((exists c :: c in contracts && Survives(v, daysOf(c))) ==>
            exists c :: c in contracts && Survives(v, daysOf(c)) && daysOf(c) + bump == line.xEnd)
  {
    var valid := ValidContracts(v, contracts, daysOf);
    var days := DayCounts(valid, daysOf);
    if exists c :: c in contracts && Survives(v, daysOf(c)) {
      var c :| c in contracts && Survives(v, daysOf(c));
      assert daysOf(c) in days;
      var m := MaxOf(days);
      var w :| w in valid && daysOf(w) == m;
      forall c' | c' in contracts && Survives(v, daysOf(c')) ensures daysOf(c') <= m {
        assert daysOf(c') in days;
      }
    } else {
      assert forall i :: 0 <= i < |valid| ==> valid[i] in valid;
    }
  }

  /** The tick values are the distinct surviving day counts, strictly increasing. */
  lemma TicksAreSurvivingDays(v: Variant, contracts: seq<Contract>, daysOf: Contract -> int)
    ensures var ticks := TickVals(v, contracts, daysOf);
      && StrictlyIncreasing(ticks)
      && forall x :: x in ticks <==> exists c :: c in contracts && Survives(v, daysOf(c)) && daysOf(c) == x
  {
  }

  /** The x-range starts at 0 and ends one past the largest tick, or at 2 without ticks
      above 1. In chart.ts every tick is positive, so the range ends where the price line
      ends; in src/App.tsx it ends at least one day past it. */
  lemma RangeCoversLine(v: Variant, ticker: string, contracts: seq<Contract>,
                        daysOf: Contract -> int, close: real)
    ensures var chart := GenerateChartData(v, ticker, contracts, daysOf, close);
      var lineEnd := PriceLineOf(v, contracts, daysOf, close).xEnd;
      && chart.rangeStart == 0
      && (forall x :: x in chart.tickVals ==> x < chart.rangeEnd)
      && (chart.rangeEnd == 2 || chart.rangeEnd - 1 in chart.tickVals)
      && (v == ServerChart ==> chart.rangeEnd == lineEnd)
      && (v == BrowserChart ==> chart.rangeEnd >= lineEnd + 1)
  {
    var valid := ValidContracts(v, contracts, daysOf);
    var days := DayCounts(valid, daysOf);
    var ticks := TickVals(v, contracts, daysOf);
    if |days| > 0 {
      var m := MaxOf(days);
      assert m in ticks;
      assert forall x :: x in ticks ==> x in days;
      var c :| c in valid && daysOf(c) == m;
      assert MaxWithOne(ticks) == (if m >= 1 then m else 1);
    } else {
      assert days == [];
    }
  }

  /** The hover percentage is never positive for an at-risk leg and, for a positive close,
      negative exactly for the at-risk legs. */
  lemma HoverSign(c: Contract, close: real)
    requires close > 0.0
    ensures HoverPct(c, close).Some?
    ensures HoverPct(c, close).value < 0.0 <==> AtRisk(c, close)
  {
  }

  /** chart.ts keeps exactly what src/App.tsx keeps except the contracts expiring today. */
  lemma VariantsDiffer(contracts: seq<Contract>, daysOf: Contract -> int)
    ensures ValidContracts(ServerChart, contracts, daysOf)
         == Filter(ValidContracts(BrowserChart, contracts, daysOf), c => daysOf(c) != 0)
  {
    FilterFilter(contracts, c => Survives(BrowserChart, daysOf(c)), c => daysOf(c) != 0,
                 c => Survives(ServerChart, daysOf(c)));
  }

  /** A call expiring today: drawn by src/App.tsx, dropped by chart.ts. */
  lemma ExpiringTodayExample(c: Contract, daysOf: Contract -> int, close: real)
    requires daysOf(c) == 0
    ensures |CallTrace(ServerChart, [c], daysOf, close).points + PutTrace(ServerChart, [c], daysOf, close).points| == 0
    ensures |CallTrace(BrowserChart, [c], daysOf, close).points + PutTrace(BrowserChart, [c], daysOf, close).points| == 1
  {
    assert ValidContracts(BrowserChart, [c], daysOf) == [c];
    assert ValidContracts(ServerChart, [c], daysOf) == [];
    assert Filter([c], IsCall) == (if c.kind == Call then [c] else []);
    assert Filter([c], IsPut) == (if c.kind == Put then [c] else []);
  }

  // ---------------------------------------------------------------------------
  // The expiration filter of the browser app

  /** `filterContracts`: `none` keeps the list as it is; `week` keeps the contracts expiring
      within 0 to 7 days, `month` within 0 to 31 days; any other value keeps everything. */
  function FilterContracts(filter: string, contracts: seq<Contract>, daysOf: Contract -> int): (r: seq<Contract>)
    ensures filter == "none" ==> r == contracts
    ensures |r| <= |contracts|
    ensures forall c :: c in r <==> c in contracts && InWindow(filter, daysOf(c))
  {
    if filter == "none" then contracts
    else Filter(contracts, c => InWindow(filter, daysOf(c)))
  }

  /** The day window a filter value keeps. */
  predicate InWindow(filter: string, days: int) {
    if filter == "week" then 0 <= days <= 7
    else if filter == "month" then 0 <= days <= 31
    else true
  }

  /** Filtering twice with the same value changes nothing the second time. */
  lemma FilterContractsIdempotent(filter: string, contracts: seq<Contract>, daysOf: Contract -> int)
    ensures FilterContracts(filter, FilterContracts(filter, contracts, daysOf), daysOf)
         == FilterContracts(filter, contracts, daysOf)
  {
    if filter != "none" {
      var p := c => InWindow(filter, daysOf(c));
      FilterFilter(contracts, p, p, p);
    }
  }

  /** The week is part of the month: filtering by week after month is filtering by week. */
  lemma WeekWithinMonth(contracts: seq<Contract>, daysOf: Contract -> int)
    ensures FilterContracts("week", FilterContracts("month", contracts, daysOf), daysOf)
         == FilterContracts("week", contracts, daysOf)
  {
    FilterFilter(contracts, c => InWindow("month", daysOf(c)), c => InWindow("week", daysOf(c)),
                 c => InWindow("week", daysOf(c)));
  }
}
