/**
 * A model of the bar-chart highlighter of the iOS Charts library: it turns a
 * touch on a bar chart into a Highlight, and for a stacked bar it works out
 * which segment of the stack was touched.
 *
 * The collaborators whose code is not part of this model (the base
 * highlighter's hit test, getValsForTouch, the coordinate transformer, entry
 * and data-set lookup, Range.contains) are fields of the Chart and DataSet
 * values below or parameters of the operations. Swift's `as?` downcasts become
 * datatype alternatives and Option values.
 */
module BarHighlighter {

  datatype Option<+T> = None | Some(value: T)

  /** Which y axis a data set is plotted against. */
  datatype AxisDependency = Left | Right

  /** One segment of a stacked bar along the value axis. */
  datatype Range = Range(from: real, to: real)

  /** A point, in data space or in pixel space. */
  datatype Point = Point(x: real, y: real)

  /** The result of a touch: the entry's data coordinates, the pixel drawn, and
      which data set and which stack segment (-1 when none) were selected. */
  datatype Highlight = Highlight(
    x: real, y: real,
    xPx: real, yPx: real,
    dataSetIndex: int,
    stackIndex: int,
    axis: AxisDependency)

  /** An entry returned by a data set's lookup: either a bar entry, with its
      optional stack values and the ranges computed from them, or an entry of
      some other kind (the downcast to a bar entry fails). */
  datatype DataEntry =
    | PlainEntry(x: real, y: real)
    | BarEntry(x: real, y: real, yValues: Option<seq<real>>, ranges: Option<seq<Range>>)

  /** A data set found by index: a bar data set, or one of another kind. */
  datatype DataSet =
    | BarDataSet(
        isStacked: bool,
        axisDependency: AxisDependency,
        // entryForXValue(x, closestToY: y)
        entryForXValue: (real, real) -> Option<DataEntry>)
    | OtherDataSet

  /** The bar data of a chart: its data sets by index. */
  datatype BarData = BarData(dataSetByIndex: int -> Option<DataSet>)

  /** What the highlighter sees of its chart. `barData` is None when the chart
      is not a bar-chart data provider or has no bar data;
      `isBarLineProvider` says whether the chart is a bar/line/scatter/candle/
      bubble data provider; `superHighlight` is the base highlighter's hit
      test (which uses GetDistance as its metric); `valsForTouch` converts a
      touch to data space; `pixelForValues` is the transformer of an axis
      applied to a data-space point. */
  datatype Chart = Chart(
    barData: Option<BarData>,
    isBarLineProvider: bool,
    superHighlight: (real, real) -> Option<Highlight>,
    valsForTouch: (real, real) -> Point,
    pixelForValues: (AxisDependency, real, real) -> Point)

  /** A bar-chart data provider is always a bar/line/scatter/candle/bubble data
      provider, so a chart with bar data passes both of the source's casts. */
  predicate WellFormedChart(chart: Chart) {
    chart.barData.Some? ==> chart.isBarLineProvider
  }

  // ---------------------------------------------------------------------------
  // The stack index of a value
  // ---------------------------------------------------------------------------

  /** The index of the first range, in list order, that contains the value. */
  function FirstContaining(ranges: seq<Range>, value: real, contains: (Range, real) -> bool): (r: Option<nat>)
    ensures r.Some? ==> r.value < |ranges| && contains(ranges[r.value], value)
    ensures r.Some? ==> forall j :: 0 <= j < r.value ==> !contains(ranges[j], value)
    ensures r.None? <==> forall j :: 0 <= j < |ranges| ==> !contains(ranges[j], value)
  {
    if ranges == [] then None
    else if contains(ranges[0], value) then Some(0)
    else
      match FirstContaining(ranges[1..], value, contains)
      case None => None
      case Some(k) => Some(k + 1)
  }

  /** The stack index that getClosestStackIndex computes: 0 without ranges;
      otherwise the first range that contains the value, and when none does,
      the last index if the value lies above the last range's `to`, else 0. */
  function StackIndexOf(ranges: Option<seq<Range>>, value: real, contains: (Range, real) -> bool): (r: int)
    requires ranges.Some? ==> |ranges.value| > 0
    ensures ranges.None? ==> r == 0
    ensures ranges.Some? ==> 0 <= r < |ranges.value|
    ensures ranges.Some? && (exists j :: 0 <= j < |ranges.value| && contains(ranges.value[j], value)) ==>
      contains(ranges.value[r], value) && forall j :: 0 <= j < r ==> !contains(ranges.value[j], value)
    ensures ranges.Some? && (forall j :: 0 <= j < |ranges.value| ==> !contains(ranges.value[j], value)) ==>
      (value > ranges.value[|ranges.value| - 1].to ==> r == |ranges.value| - 1) &&
      (value <= ranges.value[|ranges.value| - 1].to ==> r == 0)
  {
    match ranges
    case None => 0
    case Some(rs) =>
      match FirstContaining(rs, value, contains)
      case Some(k) => k
      case None =>
        var length := if |rs| - 1 > 0 then |rs| - 1 else 0;
        if value > rs[length].to then length else 0
  }

  /** getClosestStackIndex: scans the ranges in order and returns as soon as
      one contains the value, falling back to the top or bottom index. */
  method ClosestStackIndex(ranges: Option<seq<Range>>, value: real, contains: (Range, real) -> bool)
    returns (index: int)
    requires ranges.Some? ==> |ranges.value| > 0
    ensures index == StackIndexOf(ranges, value, contains)
  {
    if ranges.None? {
      return 0;
    }
    var rs := ranges.value;
    var stackIndex := 0;
    while stackIndex < |rs|
      invariant 0 <= stackIndex <= |rs|
      invariant forall j :: 0 <= j < stackIndex ==> !contains(rs[j], value)
    {
      if contains(rs[stackIndex], value) {
        return stackIndex;
      }
      stackIndex := stackIndex + 1;
    }
    var length := if |rs| - 1 > 0 then |rs| - 1 else 0;
    index := if value > rs[length].to then length else 0;
  }

  // ---------------------------------------------------------------------------
  // The distance metric
  // ---------------------------------------------------------------------------

  /** getDistance: only the x coordinates count, so a touch anywhere along a
      bar's column matches that bar. */
  function GetDistance(x1: real, y1: real, x2: real, y2: real): (d: real)
    ensures d >= 0.0
    ensures d == x1 - x2 || d == x2 - x1
  {
    if x1 - x2 < 0.0 then x2 - x1 else x1 - x2
  }

  lemma DistanceIgnoresY(x1: real, y1: real, x2: real, y2: real, y1': real, y2': real)
    ensures GetDistance(x1, y1, x2, y2) == GetDistance(x1, y1', x2, y2')
  {
  }

  lemma DistanceSymmetric(x1: real, y1: real, x2: real, y2: real)
    ensures GetDistance(x1, y1, x2, y2) == GetDistance(x2, y2, x1, y1)
  {
  }

  lemma DistanceZeroIff(x1: real, y1: real, x2: real, y2: real)
    ensures GetDistance(x1, y1, x2, y2) == 0.0 <==> x1 == x2
  {
  }

  // ---------------------------------------------------------------------------
  // Stacked highlight and the entry point
  // ---------------------------------------------------------------------------

  /** True when the lookup found an entry and it is a bar entry. */
  predicate IsBarEntry(e: Option<DataEntry>) {
    e.Some? && e.value.BarEntry?
  }

  /** getStackedHighlight: refines `high` to the touched segment of a stacked
      bar entry. */
  function StackedHighlight(
    chart: Chart, high: Highlight, dataSet: DataSet, xValue: real, yValue: real,
    contains: (Range, real) -> bool): (r: Option<Highlight>)
    requires dataSet.BarDataSet?
    // No bar/line provider, or no bar entry at xValue: nothing is selected.
    ensures var e := dataSet.entryForXValue(xValue, yValue);
      (!chart.isBarLineProvider || !IsBarEntry(e)) ==> r.None?
    // A bar entry without stack values is reported as the candidate itself.
    ensures var e := dataSet.entryForXValue(xValue, yValue);
      (chart.isBarLineProvider && IsBarEntry(e) && e.value.yValues.None?) ==> r == Some(high)
    // A stacked entry resolves to a segment exactly when it has ranges.
    ensures var e := dataSet.entryForXValue(xValue, yValue);
      (chart.isBarLineProvider && IsBarEntry(e) && e.value.yValues.Some?) ==>
        (r.None? <==> (e.value.ranges.None? || |e.value.ranges.value| == 0))
    // A stacked entry with ranges resolves to the segment holding yValue: the
    // entry's own x and y, the candidate's data set and axis, that segment's
    // index, and the pixel of the segment's top at the candidate's x.
    ensures var e := dataSet.entryForXValue(xValue, yValue);
      (chart.isBarLineProvider && IsBarEntry(e) && e.value.yValues.Some?
       && e.value.ranges.Some? && |e.value.ranges.value| > 0) ==>
        var k := StackIndexOf(e.value.ranges, yValue, contains);
        var pixel := chart.pixelForValues(dataSet.axisDependency, high.x, e.value.ranges.value[k].to);
        0 <= k < |e.value.ranges.value| &&
        r == Some(Highlight(e.value.x, e.value.y, pixel.x, pixel.y, high.dataSetIndex, k, high.axis))
  {
    if !chart.isBarLineProvider then None
    else
      match dataSet.entryForXValue(xValue, yValue)
      case None => None
      case Some(PlainEntry(_, _)) => None
      case Some(entry) =>
        if entry.yValues.None? then Some(high)
        else
          match entry.ranges
          case Some(ranges) =>
            if |ranges| > 0 then
              var stackIndex := StackIndexOf(entry.ranges, yValue, contains);
              var pixel := chart.pixelForValues(dataSet.axisDependency, high.x, ranges[stackIndex].to);
              Some(Highlight(entry.x, entry.y, pixel.x, pixel.y, high.dataSetIndex, stackIndex, high.axis))
            else None
          case None => None
  }

  /** True when `s` is a bar data set flagged as stacked. */
  predicate IsStackedBarSet(s: Option<DataSet>) {
    s.Some? && s.value.BarDataSet? && s.value.isStacked
  }

  /** getHighlight: the base hit test's candidate, refined to a stack segment
      when its data set is a stacked bar data set. */
  function GetHighlight(chart: Chart, x: real, y: real, contains: (Range, real) -> bool): (r: Option<Highlight>)
    // No base candidate, or not a bar-chart data provider: nothing is selected.
    ensures chart.superHighlight(x, y).None? || chart.barData.None? ==> r.None?
    // A candidate whose data set is missing, not a bar set or not stacked is
    // passed through as it is.
    ensures chart.superHighlight(x, y).Some? && chart.barData.Some?
            && !IsStackedBarSet(chart.barData.value.dataSetByIndex(chart.superHighlight(x, y).value.dataSetIndex))
            ==> r == chart.superHighlight(x, y)
    // A stacked bar set delegates to StackedHighlight at the touch's data-space point.
    ensures chart.superHighlight(x, y).Some? && chart.barData.Some?
            && IsStackedBarSet(chart.barData.value.dataSetByIndex(chart.superHighlight(x, y).value.dataSetIndex))
            ==> r == StackedHighlight(
                       chart, chart.superHighlight(x, y).value,
                       chart.barData.value.dataSetByIndex(chart.superHighlight(x, y).value.dataSetIndex).value,
                       chart.valsForTouch(x, y).x, chart.valsForTouch(x, y).y, contains)
    // Whatever is selected keeps the candidate's data set and axis.
    ensures r.Some? ==> chart.superHighlight(x, y).Some?
                        && r.value.dataSetIndex == chart.superHighlight(x, y).value.dataSetIndex
                        && r.value.axis == chart.superHighlight(x, y).value.axis
  {
    match chart.superHighlight(x, y)
    case None => None
    case Some(high) =>
      match chart.barData
      case Some(barData) =>
        var pos := chart.valsForTouch(x, y);
        var dataSet := barData.dataSetByIndex(high.dataSetIndex);
        if IsStackedBarSet(dataSet) then
          StackedHighlight(chart, high, dataSet.value, pos.x, pos.y, contains)
        else
          Some(high)
      case None => None
  }

  /** A stacked bar set whose entry at the touch has no stack values reports the
      base candidate unchanged. */
  lemma UnstackedEntryPassesThrough(chart: Chart, x: real, y: real, contains: (Range, real) -> bool)
    requires WellFormedChart(chart)
    requires chart.superHighlight(x, y).Some? && chart.barData.Some?
    requires var ds := chart.barData.value.dataSetByIndex(chart.superHighlight(x, y).value.dataSetIndex);
      IsStackedBarSet(ds)
      && var e := ds.value.entryForXValue(chart.valsForTouch(x, y).x, chart.valsForTouch(x, y).y);
      IsBarEntry(e) && e.value.yValues.None?
    ensures GetHighlight(chart, x, y, contains) == chart.superHighlight(x, y)
  {
  }

  // ---------------------------------------------------------------------------
  // Ranges in ascending order, with a concrete containment test
  // ---------------------------------------------------------------------------

  /** A concrete containment test: the segment is open at `from` and closed at
      `to`, so a value on a shared boundary belongs to the lower segment. */
  predicate InRange(range: Range, value: real) {
    range.from < value <= range.to
  }

  /** Ranges of a stack of non-negative values: each segment runs upwards and
      starts where the previous one ends. */
  predicate Ascending(ranges: seq<Range>) {
    (forall i :: 0 <= i < |ranges| ==> ranges[i].from <= ranges[i].to)
    && (forall i :: 0 < i < |ranges| ==> ranges[i - 1].to == ranges[i].from)
  }

  /** In ascending ranges a lower segment ends no higher than a later one starts. */
  lemma {:induction false} AscendingSeparated(ranges: seq<Range>, i: nat, j: nat)
    requires Ascending(ranges) && i < j < |ranges|
    ensures ranges[i].to <= ranges[j].from
    decreases j - i
  {
    if i + 1 < j {
      AscendingSeparated(ranges, i + 1, j);
      assert ranges[i].to == ranges[i + 1].from;
    } else {
      assert ranges[j - 1].to == ranges[j].from;
    }
  }

  /** With ascending ranges and the concrete test, a value inside a segment
      gets that segment's index: the first match is the only match. */
  lemma StackIndexOfSegment(ranges: seq<Range>, i: nat, value: real)
    requires Ascending(ranges) && i < |ranges| && InRange(ranges[i], value)
    ensures StackIndexOf(Some(ranges), value, InRange) == i
  {
    forall j | 0 <= j < i
      ensures !InRange(ranges[j], value)
    {
      AscendingSeparated(ranges, j, i);
    }
  }

  /** With ascending ranges and the concrete test, a value on the boundary
      between a segment and the next belongs to the lower one. */
  lemma TopOfSegmentSelectsSegment(ranges: seq<Range>, i: nat)
    requires Ascending(ranges) && i < |ranges| && ranges[i].from < ranges[i].to
    ensures StackIndexOf(Some(ranges), ranges[i].to, InRange) == i
  {
    StackIndexOfSegment(ranges, i, ranges[i].to);
  }

  /** Ascending ranges cover every value between the start of a segment and
      the top of the stack. */
  lemma {:induction false} AscendingCovers(ranges: seq<Range>, i: nat, value: real)
    requires Ascending(ranges) && i < |ranges|
    requires ranges[i].from < value <= ranges[|ranges| - 1].to
    ensures exists j :: i <= j < |ranges| && InRange(ranges[j], value)
    decreases |ranges| - i
  {
    if value > ranges[i].to {
      assert i + 1 < |ranges| && ranges[i].to == ranges[i + 1].from;
      AscendingCovers(ranges, i + 1, value);
    } else {
      assert InRange(ranges[i], value);
    }
  }

  /** With ascending ranges and the concrete test, a higher touch never selects
      a lower segment. */
  lemma StackIndexMonotone(ranges: seq<Range>, v1: real, v2: real)
    requires Ascending(ranges) && |ranges| > 0 && v1 <= v2
    ensures StackIndexOf(Some(ranges), v1, InRange) <= StackIndexOf(Some(ranges), v2, InRange)
  {
    var last := |ranges| - 1;
    var k1 := StackIndexOf(Some(ranges), v1, InRange);
    var k2 := StackIndexOf(Some(ranges), v2, InRange);
    if k1 > 0 {
      if InRange(ranges[k1], v1) {
        if v2 <= ranges[last].to {
          AscendingCovers(ranges, k1, v2);
          var j :| k1 <= j < |ranges| && InRange(ranges[j], v2);
          StackIndexOfSegment(ranges, j, v2);
        } else {
          forall j | 0 <= j < |ranges|
            ensures !InRange(ranges[j], v2)
          {
            if j < last { AscendingSeparated(ranges, j, last); }
          }
        }
      } else {
        // v1 lies above the whole stack, and so does v2
        assert v1 > ranges[last].to;
        forall j | 0 <= j < |ranges|
          ensures !InRange(ranges[j], v2)
        {
          if j < last { AscendingSeparated(ranges, j, last); }
        }
      }
    }
  }

  // Worked examples: ranges of the stack [5, 7, 8] and of the stack [10, 20, 15].

  lemma ContainedValueSelectsItsSegment()
    ensures StackIndexOf(Some([Range(0.0, 5.0), Range(5.0, 12.0), Range(12.0, 20.0)]), 8.0, InRange) == 1
    ensures StackIndexOf(Some([Range(0.0, 10.0), Range(10.0, 30.0), Range(30.0, 45.0)]), 22.0, InRange) == 1
  {
  }

  lemma ValueAboveStackSelectsTop()
    ensures StackIndexOf(Some([Range(0.0, 5.0), Range(5.0, 12.0), Range(12.0, 20.0)]), 25.0, InRange) == 2
    ensures StackIndexOf(Some([Range(0.0, 10.0), Range(10.0, 30.0), Range(30.0, 45.0)]), 50.0, InRange) == 2
  {
  }

  lemma ValueBelowStackSelectsBottom()
    ensures StackIndexOf(Some([Range(0.0, 5.0), Range(5.0, 12.0), Range(12.0, 20.0)]), -3.0, InRange) == 0
  {
  }

  lemma SharedBoundarySelectsLowerSegment()
    ensures StackIndexOf(Some([Range(0.0, 5.0), Range(5.0, 12.0), Range(12.0, 20.0)]), 5.0, InRange) == 0
  {
  }
}
