/** Support and resistance levels (src/ChartModels/SupportResistance.ts): a bar is a
    pivot high when its high is strictly above the highs of the `left` bars before it and
    not below the highs of the `right` bars after it; pivot lows are the mirror image on
    the lows. Every pivot high becomes a resistance level, every pivot low a support. */
module SupportResistance {

  /** One OHLCV bar; prices and volume are kept as exact reals. */
  datatype Bar = Bar(open: real, high: real, low: real, close: real, volume: real)

  datatype LevelKind = Resistance | Support

  datatype Level = Level(index: int, price: real, kind: LevelKind)

  datatype SupportResistanceResult = SupportResistanceResult(resistances: seq<Level>, supports: seq<Level>)

  /** The pivot-high test, with both windows inside the data. */
  predicate PivotHigh(data: seq<Bar>, i: int, left: nat, right: nat)
    requires 0 <= i < |data|
  {
    && i - left >= 0 && i + right < |data|
    && (forall j :: i - left <= j < i ==> data[j].high < data[i].high)
    && (forall j :: i < j <= i + right ==> data[j].high <= data[i].high)
  }

  /** The pivot-low test, with both windows inside the data. */
  predicate PivotLow(data: seq<Bar>, i: int, left: nat, right: nat)
    requires 0 <= i < |data|
  {
    && i - left >= 0 && i + right < |data|
    && (forall j :: i - left <= j < i ==> data[j].low > data[i].low)
    && (forall j :: i < j <= i + right ==> data[j].low >= data[i].low)
  }

  /** `isPivotHigh`: scans the left window, then the right one, and gives up at the first
      bar that is out of range or too high. */
  method IsPivotHigh(data: seq<Bar>, i: int, left: nat, right: nat) returns (b: bool)
    requires 0 <= i < |data|
    ensures b == PivotHigh(data, i, left, right)
  {
    var pivot := data[i].high;
    var j := i - left;
    while j < i
      invariant i - left <= j <= i
      invariant i - left < j ==> 0 <= i - left
      invariant forall k :: i - left <= k < j ==> data[k].high < pivot
    {
      if j < 0 || data[j].high >= pivot {
        return false;
      }
      j := j + 1;
    }
    j := i + 1;
    while j <= i + right
      invariant i + 1 <= j <= i + right + 1
      invariant j - 1 < |data|
      invariant forall k :: i < k < j ==> data[k].high <= pivot
    {
      if j >= |data| || data[j].high > pivot {
        return false;
      }
      j := j + 1;
    }
    return true;
  }

  /** `isPivotLow`: the same scan on the lows, with the comparisons reversed. */
  method IsPivotLow(data: seq<Bar>, i: int, left: nat, right: nat) returns (b: bool)
    requires 0 <= i < |data|
    ensures b == PivotLow(data, i, left, right)
  {
    var pivot := data[i].low;
    var j := i - left;
    while j < i
      invariant i - left <= j <= i
      invariant i - left < j ==> 0 <= i - left
      invariant forall k :: i - left <= k < j ==> data[k].low > pivot
    {
      if j < 0 || data[j].low <= pivot {
        return false;
      }
      j := j + 1;
    }
    j := i + 1;
    while j <= i + right
      invariant i + 1 <= j <= i + right + 1
      invariant j - 1 < |data|
      invariant forall k :: i < k < j ==> data[k].low >= pivot
    {
      if j >= |data| || data[j].low < pivot {
        return false;
      }
      j := j + 1;
    }
    return true;
  }

  predicate IsPivot(data: seq<Bar>, i: int, left: nat, right: nat, kind: LevelKind)
    requires 0 <= i < |data|
  {
    match kind
    case Resistance => PivotHigh(data, i, left, right)
    case Support => PivotLow(data, i, left, right)
  }

  /** The level a pivot at `i` produces: the bar's high for a resistance, its low for a support. */
  function LevelAt(data: seq<Bar>, i: int, kind: LevelKind): Level
    requires 0 <= i < |data|
  {
    Level(i, if kind == Resistance then data[i].high else data[i].low, kind)
  }

  /** The levels of one kind found at the indices `left .. hi - 1`, in index order. */
  function Levels(data: seq<Bar>, left: nat, right: nat, kind: LevelKind, hi: int): (ls: seq<Level>)
    requires hi <= left || hi <= |data|
    ensures |ls| <= if hi <= left then 0 else hi - left
    decreases hi - left
  {
    if hi <= left then []
    else
      Levels(data, left, right, kind, hi - 1) +
        (if IsPivot(data, hi - 1, left, right, kind) then [LevelAt(data, hi - 1, kind)] else [])
  }

  /** Every level is the level of a pivot in the scanned range. */
  lemma {:induction false} LevelsSound(data: seq<Bar>, left: nat, right: nat, kind: LevelKind, hi: int)
    requires hi <= left || hi <= |data|
    ensures forall l :: l in Levels(data, left, right, kind, hi) ==>
      left <= l.index < hi && IsPivot(data, l.index, left, right, kind) && l == LevelAt(data, l.index, kind)
    decreases hi - left
  {
    if hi > left {
      LevelsSound(data, left, right, kind, hi - 1);
      LevelsStep(data, left, right, kind, hi - 1);
    }
  }

  predicate Increasing(ls: seq<Level>) {
    forall a, b :: 0 <= a < b < |ls| ==> ls[a].index < ls[b].index
  }

  lemma IncreasingSnoc(ls: seq<Level>, l: Level, r: seq<Level>)
    requires Increasing(ls) && forall x :: x in ls ==> x.index < l.index
    requires r == ls + [l]
    ensures Increasing(r)
  {
    forall a, b | 0 <= a < b < |r| ensures r[a].index < r[b].index {
      assert r[a] == ls[a] && ls[a] in ls;
    }
  }

  /** The levels come in strictly increasing index order. */
  lemma {:induction false} LevelsOrdered(data: seq<Bar>, left: nat, right: nat, kind: LevelKind, hi: int)
    requires hi <= left || hi <= |data|
    ensures Increasing(Levels(data, left, right, kind, hi))
    decreases hi - left
  {
    if hi > left {
      var before := Levels(data, left, right, kind, hi - 1);
      var ls := Levels(data, left, right, kind, hi);
      assert forall x :: x in before ==> x.index < hi - 1 by {
        LevelsSound(data, left, right, kind, hi - 1);
      }
      LevelsOrdered(data, left, right, kind, hi - 1);
      LevelsStep(data, left, right, kind, hi - 1);
      if IsPivot(data, hi - 1, left, right, kind) {
        IncreasingSnoc(before, LevelAt(data, hi - 1, kind), ls);
      } else {
        assert ls == before;
      }
    }
  }

  /** Every pivot in the scanned range has its level in the list. */
  lemma {:induction false} LevelsComplete(data: seq<Bar>, left: nat, right: nat, kind: LevelKind, hi: int)
    requires hi <= left || hi <= |data|
    ensures forall k :: left <= k < hi && IsPivot(data, k, left, right, kind) ==>
      LevelAt(data, k, kind) in Levels(data, left, right, kind, hi)
    decreases hi - left
  {
    if hi > left {
      LevelsComplete(data, left, right, kind, hi - 1);
      LevelsStep(data, left, right, kind, hi - 1);
      var before := Levels(data, left, right, kind, hi - 1);
      forall k | left <= k < hi && IsPivot(data, k, left, right, kind)
        ensures LevelAt(data, k, kind) in Levels(data, left, right, kind, hi)
      {
        if k < hi - 1 {
          assert LevelAt(data, k, kind) in before;
        }
      }
    }
  }

  /** Scanning one more index appends its level when it is a pivot. */
  lemma LevelsStep(data: seq<Bar>, left: nat, right: nat, kind: LevelKind, i: int)
    requires left <= i < |data|
    ensures Levels(data, left, right, kind, i + 1) == Levels(data, left, right, kind, i) +
      (if IsPivot(data, i, left, right, kind) then [LevelAt(data, i, kind)] else [])
  {
  }

  /** `computeSupportResistance`: every index from `leftBars` up to `data.length - rightBars`
      is tested for both kinds of pivot. */
  method ComputeSupportResistance(data: seq<Bar>, left: nat, right: nat) returns (result: SupportResistanceResult)
    ensures result.resistances == Levels(data, left, right, Resistance, |data| - right)
    ensures result.supports == Levels(data, left, right, Support, |data| - right)
  {
    var resistances: seq<Level> := [];
    var supports: seq<Level> := [];
    var i := left;
    while i < |data| - right
      invariant left <= i
      invariant i <= |data| - right || i == left
      invariant resistances == Levels(data, left, right, Resistance, i)
      invariant supports == Levels(data, left, right, Support, i)
    {
      LevelsStep(data, left, right, Resistance, i);
      LevelsStep(data, left, right, Support, i);
      var high := IsPivotHigh(data, i, left, right);
      if high {
        resistances := resistances + [Level(i, data[i].high, Resistance)];
      }
      var low := IsPivotLow(data, i, left, right);
      if low {
        supports := supports + [Level(i, data[i].low, Support)];
      }
      i := i + 1;
    }
    result := SupportResistanceResult(resistances, supports);
  }

  // ---------------------------------------------------------------------------
  // Properties of the levels

  /** With `data.length <= leftBars + rightBars` no index is scanned and both lists are empty. */
  lemma ShortSeriesHasNoLevels(data: seq<Bar>, left: nat, right: nat)
    requires |data| <= left + right
    ensures Levels(data, left, right, Resistance, |data| - right) == []
    ensures Levels(data, left, right, Support, |data| - right) == []
  {
  }

  /** Every level's windows lie inside the data. */
  lemma LevelsHaveFullWindows(data: seq<Bar>, left: nat, right: nat, kind: LevelKind)
    ensures forall l :: l in Levels(data, left, right, kind, |data| - right) ==>
      0 <= l.index - left && l.index + right < |data|
  {
    LevelsSound(data, left, right, kind, |data| - right);
  }

  /** With a left window of at least one bar, a series whose bars all have the same high
      and low has no pivots of either kind: the left test is strict. */
  lemma {:induction false} FlatSeriesHasNoLevels(data: seq<Bar>, left: nat, right: nat, kind: LevelKind, h: real, lo: real, hi: int)
    requires left >= 1 && hi <= |data|
    requires forall j :: 0 <= j < |data| ==> data[j].high == h && data[j].low == lo
    ensures Levels(data, left, right, kind, hi) == []
    decreases hi - left
  {
    if hi > left {
      FlatSeriesHasNoLevels(data, left, right, kind, h, lo, hi - 1);
      LevelsStep(data, left, right, kind, hi - 1);
      FlatHasNoPivot(data, hi - 1, left, right, kind, h, lo);
    }
  }

  /** In a flat series no bar is strictly above or below its left neighbour. */
  lemma FlatHasNoPivot(data: seq<Bar>, i: int, left: nat, right: nat, kind: LevelKind, h: real, lo: real)
    requires 0 <= i < |data| && left >= 1
    requires forall j :: 0 <= j < |data| ==> data[j].high == h && data[j].low == lo
    ensures !IsPivot(data, i, left, right, kind)
  {
    if i >= 1 {
      assert data[i - 1].high == data[i].high && data[i - 1].low == data[i].low;
    }
  }

  /** With a left window of at least one bar, a resistance's high is strictly above the
      previous bar's high, and a support's low strictly below the previous bar's low. */
  lemma LevelsRiseFromLeftNeighbour(data: seq<Bar>, left: nat, right: nat, kind: LevelKind, hi: int)
    requires left >= 1 && hi <= |data|
    ensures forall l :: l in Levels(data, left, right, kind, hi) ==>
      1 <= l.index < |data| &&
      (if kind == Resistance then data[l.index - 1].high < data[l.index].high
       else data[l.index - 1].low > data[l.index].low)
  {
    LevelsSound(data, left, right, kind, hi);
  }

  /** Two pivot highs are more than `min(left, right)` bars apart: the later one would lie
      in the earlier one's right window and the earlier one in the later one's left window. */
  lemma PivotHighsAreSeparated(data: seq<Bar>, i: int, k: int, left: nat, right: nat)
    requires 0 <= i < k < |data|
    requires PivotHigh(data, i, left, right) && PivotHigh(data, k, left, right)
    ensures k - i > left || k - i > right
  {
    if k - i <= left {
      assert data[i].high < data[k].high;
    }
    if k - i <= right {
      assert data[k].high <= data[i].high;
    }
  }

  /** A pivot for some windows is a pivot for any narrower windows. */
  lemma PivotHighNarrower(data: seq<Bar>, i: int, left: nat, right: nat, left': nat, right': nat)
    requires 0 <= i < |data| && left' <= left && right' <= right
    requires PivotHigh(data, i, left, right)
    ensures PivotHigh(data, i, left', right')
  {
  }

  /** The bars turned upside down: each low becomes the negated high, and each high the
      negated low. */
  function Mirror(data: seq<Bar>): (m: seq<Bar>)
    ensures |m| == |data|
    ensures forall j :: 0 <= j < |data| ==> m[j].high == -data[j].low && m[j].low == -data[j].high
  {
    seq(|data|, j requires 0 <= j < |data| =>
      Bar(-data[j].open, -data[j].low, -data[j].high, -data[j].close, data[j].volume))
  }

  /** Pivot lows are the pivot highs of the mirrored series, and the other way round. */
  lemma PivotLowIsMirroredHigh(data: seq<Bar>, i: int, left: nat, right: nat)
    requires 0 <= i < |data|
    ensures PivotLow(data, i, left, right) <==> PivotHigh(Mirror(data), i, left, right)
    ensures PivotHigh(data, i, left, right) <==> PivotLow(Mirror(data), i, left, right)
  {
  }

  /** Three bars whose middle one stands out: it is the only resistance, and with one bar
      on each side no support is found (the first and last bars have incomplete windows). */
  lemma SinglePeakExample(data: seq<Bar>)
    requires data == [Bar(1.0, 2.0, 1.0, 1.5, 10.0), Bar(2.0, 5.0, 2.0, 4.0, 10.0), Bar(4.0, 4.5, 3.0, 3.5, 10.0)]
    ensures Levels(data, 1, 1, Resistance, |data| - 1) == [Level(1, 5.0, Resistance)]
    ensures Levels(data, 1, 1, Support, |data| - 1) == []
  {
    assert PivotHigh(data, 1, 1, 1);
    assert !PivotLow(data, 1, 1, 1) by {
      assert data[0].low < data[1].low;
    }
  }
}
