# Bar-chart highlighter

A Dafny model of `BarHighlighter`, the highlighter of the iOS Charts library (a
port of MPAndroidChart) that turns a touch on a bar chart into a `Highlight`.
The base highlighter supplies a candidate, found with an x-only distance
metric. When the candidate's data set is a stacked bar data set, the touch is
converted to data space. The bar entry under it is looked up, and the stack
segment holding the touched value is chosen: the first range that contains the
value, or else the top or bottom segment.

Everything is in `bar_highlighter.dfy`, module `BarHighlighter`:

- `ClosestStackIndex` is `getClosestStackIndex`. It is a method with the
  source's loop and early return, proved equal to the specification function
  `StackIndexOf`. That function is built on `FirstContaining`, the first range
  in list order that contains the value.
- `GetDistance`, `StackedHighlight` and `GetHighlight` are `getDistance`,
  `getStackedHighlight` and `getHighlight`. They are functions over `Option`,
  and every guard of the source is a branch of their contracts.
- The collaborators are fields of the `Chart`, `BarData` and `DataSet` values.
  They are the base hit test, `getValsForTouch`, the transformer's
  `pixelForValues`, `entryForXValue` and `getDataSetByIndex`.
- Swift's `as?` downcasts become datatype alternatives: `PlainEntry` versus
  `BarEntry`, `OtherDataSet` versus `BarDataSet`, and `barData` being `None`.
- `Range.contains` is a parameter, `contains: (Range, real) -> bool`, because
  its definition is not part of this model.
- `InRange` is one concrete test: open at `from`, closed at `to`. For ranges
  that run upwards and meet end to end (`Ascending`), the lemmas show three
  things. A value inside a segment selects exactly that segment. A value on a
  shared boundary selects the lower segment (`TopOfSegmentSelectsSegment`).
  A higher touch never selects a lower segment.

## Model

| member | source | states |
|---|---|---|
| `BarHighlighter.FirstContaining` | tools/wigadget/iOS/WiGadget/WiGadget/iOSCharts/Charts/Highlight/BarHighlighter.swift:110-122 | The result is a valid index of a range that contains the value, and no earlier range contains it. It is none exactly when no range contains the value. |
| `BarHighlighter.StackIndexOf` | tools/wigadget/iOS/WiGadget/WiGadget/iOSCharts/Charts/Highlight/BarHighlighter.swift:103-127 | With nil ranges the index is 0. With non-empty ranges it lies in `[0, count-1]`. It is the first containing range when one exists. Otherwise it is the last index if the value is above the last range's `to`, and 0 if not. |
| `BarHighlighter.ClosestStackIndex` | tools/wigadget/iOS/WiGadget/WiGadget/iOSCharts/Charts/Highlight/BarHighlighter.swift:103-127 | The scan with a counter and an early return computes exactly `StackIndexOf`, and so has all of its properties. |
| `BarHighlighter.GetDistance` | tools/wigadget/iOS/WiGadget/WiGadget/iOSCharts/Charts/Highlight/BarHighlighter.swift:46-49 | The distance is non-negative and is one of `x1 - x2` and `x2 - x1`, which together make it `abs(x1 - x2)`. |
| `BarHighlighter.DistanceIgnoresY` | tools/wigadget/iOS/WiGadget/WiGadget/iOSCharts/Charts/Highlight/BarHighlighter.swift:46-49 | Changing `y1` and `y2` does not change the distance. |
| `BarHighlighter.DistanceSymmetric` | tools/wigadget/iOS/WiGadget/WiGadget/iOSCharts/Charts/Highlight/BarHighlighter.swift:46-49 | Swapping the two points does not change the distance. |
| `BarHighlighter.DistanceZeroIff` | tools/wigadget/iOS/WiGadget/WiGadget/iOSCharts/Charts/Highlight/BarHighlighter.swift:46-49 | The distance is zero exactly when the x coordinates are equal. |
| `BarHighlighter.StackedHighlight` | tools/wigadget/iOS/WiGadget/WiGadget/iOSCharts/Charts/Highlight/BarHighlighter.swift:62-97 | The result is none when the chart is not a bar/line provider or no bar entry is found. An entry without stack values gives `high` unchanged. For a stacked entry, the result is none exactly when its ranges are nil or empty. Otherwise the result is a new highlight with the entry's x and y, `high`'s data set index and axis, the stack index of `yValue` (within bounds), and the transformer's pixel for `(high.x, ranges[stackIndex].to)`. |
| `BarHighlighter.GetHighlight` | tools/wigadget/iOS/WiGadget/WiGadget/iOSCharts/Charts/Highlight/BarHighlighter.swift:18-44 | The result is none when there is no base candidate or the chart has no bar data. The candidate passes through unchanged when its data set is missing, not a bar set or not stacked. A stacked set delegates to `StackedHighlight` at the touch's data-space point. Any result keeps the candidate's data set index and axis. |
| `BarHighlighter.UnstackedEntryPassesThrough` | tools/wigadget/iOS/WiGadget/WiGadget/iOSCharts/Charts/Highlight/BarHighlighter.swift:72-76 | On a well-formed chart (one with bar data is also a bar/line provider), in a stacked bar set, a touched entry with no stack values makes the whole resolution return the base candidate unchanged. |
| `BarHighlighter.AscendingSeparated` | tools/wigadget/iOS/WiGadget/WiGadget/iOSCharts/Charts/Highlight/BarHighlighter.swift:110-122 | In ascending stack ranges, an earlier segment ends no higher than a later one starts. This is what makes the first match the only match. |
| `BarHighlighter.StackIndexOfSegment` | tools/wigadget/iOS/WiGadget/WiGadget/iOSCharts/Charts/Highlight/BarHighlighter.swift:110-122 | With ascending ranges and `InRange`, a value inside segment `i` gives stack index `i`. |
| `BarHighlighter.TopOfSegmentSelectsSegment` | tools/wigadget/iOS/WiGadget/WiGadget/iOSCharts/Charts/Highlight/BarHighlighter.swift:110-122 | With ascending ranges and `InRange`, the top of a non-empty segment `i`, which is also the bottom of the next one, gives stack index `i`: a value on a shared boundary selects the lower segment. |
| `BarHighlighter.AscendingCovers` | tools/wigadget/iOS/WiGadget/WiGadget/iOSCharts/Charts/Highlight/BarHighlighter.swift:110-126 | Ascending ranges leave no gap. Every value from the start of a segment up to the top of the stack lies in some later or equal segment. |
| `BarHighlighter.StackIndexMonotone` | tools/wigadget/iOS/WiGadget/WiGadget/iOSCharts/Charts/Highlight/BarHighlighter.swift:103-127 | With ascending ranges and `InRange`, the stack index never decreases as the touched value grows. This holds through both fallbacks. |
| `BarHighlighter.ContainedValueSelectsItsSegment` | tools/wigadget/iOS/WiGadget/WiGadget/iOSCharts/Charts/Highlight/BarHighlighter.swift:110-122 | Value 8 in ranges `[0,5],[5,12],[12,20]` gives index 1. Value 22 in ranges `[0,10],[10,30],[30,45]` gives index 1. |
| `BarHighlighter.ValueAboveStackSelectsTop` | tools/wigadget/iOS/WiGadget/WiGadget/iOSCharts/Charts/Highlight/BarHighlighter.swift:124-126 | A value above the stack (25, resp. 50) gives the last index, 2. |
| `BarHighlighter.ValueBelowStackSelectsBottom` | tools/wigadget/iOS/WiGadget/WiGadget/iOSCharts/Charts/Highlight/BarHighlighter.swift:124-126 | A value below the stack (-3) gives index 0. |
| `BarHighlighter.SharedBoundarySelectsLowerSegment` | tools/wigadget/iOS/WiGadget/WiGadget/iOSCharts/Charts/Highlight/BarHighlighter.swift:110-122 | A value on the boundary between two segments (5) gives the lower segment, 0, under `InRange`. |

## Left out

- The base class `ChartHighlighter` is not part of this model. Its hit test (`super.getHighlight`, which uses `GetDistance` as its metric) and `getValsForTouch` are the `superHighlight` and `valsForTouch` fields of `Chart`. Only the metric is shown to ignore y (`DistanceIgnoresY`). That two touches with equal x give the same candidate is not proved.
- The transformer, `entryForXValue(_:closestToY:)` and `getDataSetByIndex` are not part of this model. They are uninterpreted function fields.
- `Range.contains` is not part of this model. It is a parameter. `InRange` is one chosen convention, used only by the ordering lemmas and the worked examples.
- How a bar entry computes its `ranges` from its stack values is not part of this model. This includes the downward ranges of negative stack values, which do not satisfy `Ascending`.
- The `data` property (lines 51-54) is a downcast accessor and is not modelled.
- The `@objc` bridging, class-hierarchy casts and CoreGraphics types are not modelled. Casts are datatype alternatives, and `CGFloat`/`Double` are `real`, because the logic only compares values and takes an absolute value.
- `ClosestStackIndex` and `StackIndexOf` require non-empty ranges when ranges are present. On an empty array the source would index `ranges[0]` out of bounds. Its only caller, `getStackedHighlight`, checks `ranges.count > 0` first.
- Every operation is a function, so equal inputs give equal results.
- A candidate whose data set is missing or is not a bar data set is returned unchanged (lines 31-41). Only the absence of bar data on the chart gives none (line 43).
- The `Chart` datatype also admits a chart that has bar data but is not a bar/line provider. The library never builds one, and `WellFormedChart` excludes it. The operations still follow the source's two separate casts on such a chart.
