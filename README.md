# Fixed-date bar series and fluent numeric indicators, in Dafny

This project models two parts of the ta4j technical-analysis library.

**`FixedDateBarSeries`** is an immutable list of evenly spaced bars (candles). It places the
bars on an absolute index axis that counts whole time periods from a base date. The begin
index is the number of periods from the base date to the end of the first bar. The end index
is the begin index plus the number of stored bars, minus one. Asking for an index between 0
and the begin index returns the first bar. A negative index, or one past the end index,
fails. `getIndex` maps an instant to its index with one integer division. `getSubSeries`
rejects a bad range, clamps a good one to the stored window, and builds a new series whose
base date is moved forward, so that its first bar sits at index 0. Every mutator throws.

**`NumericIndicator`** is a fluent decorator around an indicator, meaning a function from
an index to a number. `plus`, `minus`, `multipliedBy`, `min`, `max`, `abs` and `squared`
each build a new uncached operation node. The number overloads wrap the number in a
constant indicator on the same series. The class also offers a read-only list view (`size`,
`get`, `contains`) and a comparison of the values at each series' end index (`compareTo`,
`equals`).

Modules (one per file):

- `Failures` (`failures.dfy`): the thrown exceptions as an `Error`, with `Result` and `Outcome`.
- `Time` (`time.dfy`): instants and durations as integers. `DividedBy` models Java's
  `Duration.dividedBy(Duration)`, which truncates toward zero.
- `BarSeries` (`fixed_date_bar_series.dfy`): the series as a datatype value, since all its
  fields are final. The constructor's validation loop and `getSubSeries` are methods, each
  proved equal to a specification function. The lemmas are stated about those functions.
- `Numeric` (`numeric_indicator.dfy`): indicators as an expression tree with a total value
  function. `NumericIndicator` is a datatype around its delegate. `contains` is a method with
  ta4j's loop.

Modelling choices:

- Timestamps and durations are integers; numbers (`Num`) are exact integers.
- A bar's prices are an opaque payload that the series never reads.
- The empty series is modelled. `getBar` and `getSubSeries` on it fail with
  index-out-of-bounds, because `getBeginIndex` reads the first bar. Its period is zero, so
  `getIndex` would divide by zero; that case is outside `GetIndex` (see "## Left out").
- A slice whose start lies past its end fails with invalid-argument. This is what
  `java.util.AbstractList.subList` throws. It happens when the start is past the end index
  plus one, or the end is before the begin index.
- The classes `BinaryOperation`, `UnaryOperation` and `ConstantIndicator` are not part of
  this model. Their behaviour is taken as follows: an operation node combines its operands'
  values at the same index; its series is that of its first operand; a constant has the same
  value everywhere.
- The tests in `ta4j-core/src/test/java/org/ta4j/core/FixedDateBarSeriesTest.java` at lines 55
  and 105 expect `getBarCount()` to be the begin index plus the stored count. The code returns
  the stored count. The model follows the code: `BarCountIsStoredWindow` proves the two agree
  only when the begin index is 0. `contains` scans the absolute indices `0 .. size()-1`, as
  the code does.
- The constructor checks only that end times are spaced by the first bar's period. It never
  checks each bar's own declared period. `getSubSeries` then re-runs that check with the first
  sliced bar's declared period. So a valid series can refuse a valid range with
  invalid-argument. `SubSeriesSucceeds` states exactly when this happens.

## Model

| member | source | states |
|---|---|---|
| `BarSeries.ValidateBarsTimePeriod` | ta4j-core/src/main/java/org/ta4j/core/FixedDateBarSeries.java:33-41 | the loop returns true iff every pair of consecutive end times is exactly the given period apart |
| `BarSeries.Construct` | ta4j-core/src/main/java/org/ta4j/core/FixedDateBarSeries.java:18-31 | the constructor's result (period zero for an empty list, otherwise the first bar's period, validated by the loop) is exactly `Constructed` |
| `BarSeries.Constructed` | ta4j-core/src/main/java/org/ta4j/core/FixedDateBarSeries.java:18-41 | construction succeeds iff the list is empty or evenly spaced by the first bar's period; failure is invalid-argument; success keeps name, base date and bars and yields a valid series |
| `BarSeries.GetBarCount` | ta4j-core/src/main/java/org/ta4j/core/FixedDateBarSeries.java:76-79 | the number of stored bars, zero exactly for the empty series |
| `BarSeries.GetBeginIndex` | ta4j-core/src/main/java/org/ta4j/core/FixedDateBarSeries.java:86-92 | whole periods from the base date to the first bar's end, truncated toward zero: the remainder has the offset's sign and is less than one period; needs a non-empty series with a positive period |
| `BarSeries.GetEndIndex` | ta4j-core/src/main/java/org/ta4j/core/FixedDateBarSeries.java:94-97 | an index no smaller than the begin index, and as many indices past it as there are stored bars after the first |
| `BarSeries.GetIndex` | ta4j-core/src/main/java/org/ta4j/core/FixedDateBarSeries.java:154-157 | whole periods from the base date to the instant, truncated toward zero; the first bar's end time gets the begin index; needs a positive period |
| `BarSeries.GetBar` | ta4j-core/src/main/java/org/ta4j/core/FixedDateBarSeries.java:53-70 | fails for a negative index or an empty series; gives the first bar for 0 <= i < begin and bar i - begin for begin <= i <= end; fails past the end index |
| `BarSeries.BeforeBeginClampsToFirstBar` | ta4j-core/src/main/java/org/ta4j/core/FixedDateBarSeries.java:59-64 | every index before the begin index answers with the same bar as the begin index |
| `BarSeries.BarCountIsStoredWindow` | ta4j-core/src/main/java/org/ta4j/core/FixedDateBarSeries.java:77-97 | the bar count is end - begin + 1, and it equals end + 1 exactly when begin is 0 |
| `BarSeries.EndTimeOffset` | ta4j-core/src/main/java/org/ta4j/core/FixedDateBarSeries.java:33-41 | in a list that passed validation, bar p ends p periods after the first bar |
| `BarSeries.IndexRoundTrip` | ta4j-core/src/main/java/org/ta4j/core/FixedDateBarSeries.java:154-157 | getIndex of a stored bar's end time is begin + p, getBar of that index is that bar, and the last bar maps to the end index |
| `BarSeries.TruncationBreaksRoundTripBeforeBaseDate` | ta4j-core/src/main/java/org/ta4j/core/FixedDateBarSeries.java:86-92 | with a base date after the first bar, truncation toward zero gives two different bars the same index |
| `BarSeries.SubSeries` | ta4j-core/src/main/java/org/ta4j/core/FixedDateBarSeries.java:140-152 | end <= start or start < 0 fail with invalid-argument before anything else; an empty series fails out-of-bounds; a clamped start past the clamped end fails invalid-argument; a result holds exactly the stored bars of the clamped window, the base date moved by T * start', and the name with "_sub" |
| `BarSeries.GetSubSeries` | ta4j-core/src/main/java/org/ta4j/core/FixedDateBarSeries.java:140-152 | the method that overwrites its bounds with their clamped values and calls the constructor returns exactly `SubSeries` |
| `BarSeries.SliceEvenlySpaced` | ta4j-core/src/main/java/org/ta4j/core/FixedDateBarSeries.java:150 | a slice of an evenly spaced list is evenly spaced with the same period |
| `BarSeries.SubSeriesSucceeds` | ta4j-core/src/main/java/org/ta4j/core/FixedDateBarSeries.java:150-151 | for a valid range, the sub-series is built iff the window has fewer than two bars or its first bar declares the series period; otherwise invalid-argument |
| `BarSeries.SubSeriesBeginsAtZero` | ta4j-core/src/main/java/org/ta4j/core/FixedDateBarSeries.java:151 | a series based s' periods after the original base date, whose first bar is the original's bar at s', has begin index 0: the truncated remainder stays below one period |
| `BarSeries.ReindexedBarAt` | ta4j-core/src/main/java/org/ta4j/core/FixedDateBarSeries.java:150 | in a window sliced from absolute index lo >= 0 and re-based at index 0, index k answers with the original's bar at lo + k |
| `BarSeries.SubSeriesReindexed` | ta4j-core/src/main/java/org/ta4j/core/FixedDateBarSeries.java:145-151 | a non-empty sub-series has begin index 0 and end index e' - s' - 1, and sub.getBar(k) == original.getBar(s' + k) for every k < e' - s' |
| `BarSeries.SubSeriesClamping` | ta4j-core/src/main/java/org/ta4j/core/FixedDateBarSeries.java:145-147 | a start before the begin index gives the same result as the begin index; an end past end + 1 gives the same result as end + 1 (clamped, not rejected) |
| `BarSeries.Mutate` | ta4j-core/src/main/java/org/ta4j/core/FixedDateBarSeries.java:104-167 | every addBar overload, addTrade, addPrice and setMaximumBarCount fails with unsupported-operation |
| `BarSeries.GetMaximumBarCount` | ta4j-core/src/main/java/org/ta4j/core/FixedDateBarSeries.java:99-102 | the maximum bar count is Integer.MAX_VALUE |
| `BarSeries.GetRemovedBarsCount` | ta4j-core/src/main/java/org/ta4j/core/FixedDateBarSeries.java:109-112 | no bar is ever removed |
| `BarSeries.ExampleFiveMinuteSeries` | ta4j-core/src/test/java/org/ta4j/core/FixedDateBarSeriesTest.java:23-88 | base 00:00, period 5 minutes, bars ending 00:05/00:10/00:15: begin 1, end 3, getBar(0) and getBar(1) are the first bar, getBar(4) fails, getIndex(00:10) is 2, 3 bars stored |
| `BarSeries.ExampleSubSeries` | ta4j-core/src/test/java/org/ta4j/core/FixedDateBarSeriesTest.java:90-135 | the sub-series of the test's four bars for (2,4), (0,2), (0,4) and (2,5), and the rejection of (2,2) and (3,1) |
| `Time.DividedBy` | ta4j-core/src/main/java/org/ta4j/core/FixedDateBarSeries.java:89-91 | the quotient is truncated toward zero: the remainder lies in [0, d) for a non-negative dividend and in (-d, 0] for a negative one |
| `Time.DividedByShift` | ta4j-core/src/main/java/org/ta4j/core/FixedDateBarSeries.java:154-157 | adding p whole periods to a non-negative duration adds exactly p to its index |
| `Numeric.Of` | ta4j-core/src/main/java/org/ta4j/core/indicators/numeric/NumericIndicator.java:85-87 | wrapping an indicator keeps its value at every index and its series |
| `Numeric.Get` | ta4j-core/src/main/java/org/ta4j/core/indicators/numeric/NumericIndicator.java:406-409 | get(i) equals getValue(i), the delegate's value |
| `Numeric.GetValue` | ta4j-core/src/main/java/org/ta4j/core/indicators/numeric/NumericIndicator.java:386-389 | getValue(i) is the delegate's value at i |
| `Numeric.GetBarSeries` | ta4j-core/src/main/java/org/ta4j/core/indicators/numeric/NumericIndicator.java:396-399 | getBarSeries() is the delegate's series |
| `Numeric.GetUnstableBars` | ta4j-core/src/main/java/org/ta4j/core/indicators/numeric/NumericIndicator.java:391-394 | every NumericIndicator reports 0 unstable bars, whatever its delegate's warm-up |
| `Numeric.CreateConstant` | ta4j-core/src/main/java/org/ta4j/core/indicators/numeric/NumericIndicator.java:382-384 | the constant has the given number at every index and lives on this indicator's series |
| `Numeric.Plus` | ta4j-core/src/main/java/org/ta4j/core/indicators/numeric/NumericIndicator.java:121-123 | at every index the result is this + other; same series as this |
| `Numeric.PlusNumber` | ta4j-core/src/main/java/org/ta4j/core/indicators/numeric/NumericIndicator.java:129-131 | at every index the result is this + n |
| `Numeric.Minus` | ta4j-core/src/main/java/org/ta4j/core/indicators/numeric/NumericIndicator.java:137-139 | at every index the result is this - other; same series as this |
| `Numeric.MinusNumber` | ta4j-core/src/main/java/org/ta4j/core/indicators/numeric/NumericIndicator.java:145-147 | at every index the result is this - n |
| `Numeric.MultipliedBy` | ta4j-core/src/main/java/org/ta4j/core/indicators/numeric/NumericIndicator.java:153-155 | at every index the result is this * other; same series as this |
| `Numeric.MultipliedByNumber` | ta4j-core/src/main/java/org/ta4j/core/indicators/numeric/NumericIndicator.java:165-167 | at every index the result is this * n |
| `Numeric.Min` | ta4j-core/src/main/java/org/ta4j/core/indicators/numeric/NumericIndicator.java:197-204 | at every index the result is one of the two values and no greater than either |
| `Numeric.MinNumber` | ta4j-core/src/main/java/org/ta4j/core/indicators/numeric/NumericIndicator.java:206-213 | at every index the result is this or n and no greater than either |
| `Numeric.Max` | ta4j-core/src/main/java/org/ta4j/core/indicators/numeric/NumericIndicator.java:215-222 | at every index the result is one of the two values and no smaller than either |
| `Numeric.MaxNumber` | ta4j-core/src/main/java/org/ta4j/core/indicators/numeric/NumericIndicator.java:224-231 | at every index the result is this or n and no smaller than either |
| `Numeric.Abs` | ta4j-core/src/main/java/org/ta4j/core/indicators/numeric/NumericIndicator.java:233-240 | at every index the result is non-negative and is this value or its negation |
| `Numeric.Squared` | ta4j-core/src/main/java/org/ta4j/core/indicators/numeric/NumericIndicator.java:251-259 | at every index the result is this * this |
| `Numeric.FluentOperand` | ta4j-core/src/main/java/org/ta4j/core/indicators/numeric/NumericIndicator.java:121-122 | a NumericIndicator passed as an operand contributes its own values and series |
| `Numeric.NumberOverloadsUseConstants` | ta4j-core/src/main/java/org/ta4j/core/indicators/numeric/NumericIndicator.java:125-231 | each number overload is the indicator overload applied to a constant indicator on the same series |
| `Numeric.Size` | ta4j-core/src/main/java/org/ta4j/core/indicators/numeric/NumericIndicator.java:466-469 | size() is the bar count of the delegate's series |
| `Numeric.IsEmpty` | ta4j-core/src/main/java/org/ta4j/core/indicators/numeric/NumericIndicator.java:471-474 | isEmpty() holds iff size() is 0, iff the delegate's series stores no bar |
| `Numeric.Contains` | ta4j-core/src/main/java/org/ta4j/core/indicators/numeric/NumericIndicator.java:476-487 | contains(o) is true iff o is a number and get(i) == o for some i in [0, size()) |
| `Numeric.CompareTo` | ta4j-core/src/main/java/org/ta4j/core/indicators/numeric/NumericIndicator.java:564-569 | the result is -1, 0 or 1, with the sign of this indicator's value at its end index compared with the other's at its own end index |
| `Numeric.Equals` | ta4j-core/src/main/java/org/ta4j/core/indicators/numeric/NumericIndicator.java:572-578 | equals holds iff the argument is this object, or another NumericIndicator whose latest value equals this one's; only that last case requires both series to be non-empty with a positive period |
| `Numeric.EqualsWithoutComparison` | ta4j-core/src/main/java/org/ta4j/core/indicators/numeric/NumericIndicator.java:574-575 | on any series, equals(this) is true and equals(null), a number or an object of another class is false |
| `Numeric.CompareToAntisymmetric` | ta4j-core/src/main/java/org/ta4j/core/indicators/numeric/NumericIndicator.java:564-578 | compareTo(a, b) == -compareTo(b, a), so equals between two NumericIndicators is symmetric |

## Left out

- `IndexRoundTrip`: proved only when the base date is not after the first bar's end. Otherwise Java's truncation toward zero breaks the round trip; `TruncationBreaksRoundTripBeforeBaseDate` shows an input.
- `SubSeriesReindexed`: requires the first bar of the clamped window to declare the series period. Without that, the sub-series is rejected, or it is indexed by a different period.
- `GetBar`, `SubSeries`, `GetSubSeries`: require a non-empty series to have a positive period. Java throws ArithmeticException when the period is zero. With a negative period it still divides, truncating; neither case is modelled.
- `GetIndex`, `GetBeginIndex`, `GetEndIndex`: require a positive period and, for the latter two, a non-empty series. On an empty series Java's `getIndex` divides by a zero period, and the other two fail reading the first bar.
- `CompareTo`: requires both series to be non-empty with a positive period. On an empty series `getEndIndex` throws.
- `Equals`: requires the same only when the argument is another NumericIndicator, the one case that calls `compareTo`.
- The indicators' series: every indicator here lies on a `FixedDateBarSeries`, not on an arbitrary implementation of the `BarSeries` interface. So `Size`, `IsEmpty`, `CompareTo` and `Equals` are stated with that series' bar count, end index and conditions. `BarSeries.isEmpty` is not part of this model; it is taken as "the bar count is zero".
- The `long` to `int` casts in `getBeginIndex` and `getIndex`, and `int` overflow in `getEndIndex`: indices are unbounded integers.
- `dividedBy`, `div` and `sqrt`: they round inside the library's number type, which is not part of this model.
- `multiply` is an alias of `multipliedBy`: it gets no member of its own.
- `sma`, `ema`, `stddev`, `highest`, `lowest`, `previous`: they only construct cached indicator classes, which are not part of this model.
- `crossedOver`, `crossedUnder`, `isGreaterThan`, `isLessThan`: they only construct rule classes, which are not part of this model.
- `closePrice`, `volume`, `toString`, `getName`, `num()`, `delegate()`, `getBarData`: reading bar fields, names and the number prototype is plumbing. A delegate defined elsewhere is a `Source` indicator with an arbitrary total value function.
- `numOf(Number)`: Java numbers are already exact integers here, so it is the identity.
- The list-interface stubs: `set`, `add(int, …)`, `remove(int)`, `indexOf`, `lastIndexOf`, `listIterator`, `subList`, `spliterator`, `parallelStream` and the throw-only methods. They return fixed values, do nothing, or throw.
- `hashCode`: hashes the latest value with the library number's `hashCode`, which is not part of this model. On an empty series it throws from `getEndIndex`.
- `stream` and `iterator`: they hand over the delegate's stream of values. Java streams, and the `Indicator.stream` they rely on, are not part of this model.
- Exception messages: only the exception kind is modelled.
- Reference sharing: bars and operand indicators are values here. ta4j keeps an unmodifiable view of the caller's list, and `getSubSeries` a `subList` view. So a caller who keeps the list can change the bars after validation; a `seq` cannot show that. Object identity appears only as the `Self` argument of `equals`, and a subclass instance is an `OtherObject`.
