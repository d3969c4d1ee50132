/**
 * A fixed-date bar series: an immutable list of evenly spaced bars placed on an absolute
 * index axis that counts whole time periods from a base date. Indices before the first
 * stored bar are clamped to it; indices past the last stored bar are errors.
 */
module BarSeries {
  import opened Failures
  import opened Time

  /** The prices and volumes a bar carries; the series never looks inside them. */
  datatype Prices = Prices(open: int, high: int, low: int, close: int, volume: int, amount: int)

  /** A candle: the instant it ends, the period it declares, and its payload. */
  datatype Bar = Bar(endTime: Timestamp, timePeriod: Duration, prices: Prices)

  /**
   * The series' final fields: its name, the base date index 0 stands for, the stored bars
   * and the period taken from the first bar (zero for an empty list).
   */
  datatype FixedDateBarSeries = FixedDateBarSeries(
    name: string,
    baseDate: Timestamp,
    bars: seq<Bar>,
    timePeriod: Duration)

  /** Java's Integer.MAX_VALUE. */
  const IntegerMaxValue: int := 0x7fff_ffff

  /** Every bar ends exactly `period` after the one before it. */
  predicate EvenlySpaced(bars: seq<Bar>, period: Duration)
  {
    forall i :: 0 < i < |bars| ==> Between(bars[i - 1].endTime, bars[i].endTime) == period
  }

  /** What the constructor guarantees of every series it returns. */
  predicate Valid(s: FixedDateBarSeries)
  {
    if |s.bars| == 0 then s.timePeriod == 0
    else s.timePeriod == s.bars[0].timePeriod && EvenlySpaced(s.bars, s.timePeriod)
  }

  /** A non-empty series has a positive period, so that it can be divided by. */
  predicate PositivePeriod(s: FixedDateBarSeries)
  {
    |s.bars| > 0 ==> s.timePeriod > 0
  }

  /** A series that can answer getBeginIndex and getEndIndex. */
  predicate Indexable(s: FixedDateBarSeries)
  {
    |s.bars| > 0 && s.timePeriod > 0
  }

  // ---------------------------------------------------------------------------------
  // Construction
  // ---------------------------------------------------------------------------------

  /** The series the constructor builds from its arguments, or the exception it throws. */
  function Constructed(name: string, baseDate: Timestamp, bars: seq<Bar>): (r: Result<FixedDateBarSeries>)
    ensures r.Ok? <==> |bars| == 0 || EvenlySpaced(bars, bars[0].timePeriod)
    ensures r.Err? ==> r.error == InvalidArgument
    ensures r.Ok? ==> Valid(r.value) && r.value.name == name && r.value.baseDate == baseDate && r.value.bars == bars
  {
    if |bars| == 0 then Ok(FixedDateBarSeries(name, baseDate, bars, 0))
    else if EvenlySpaced(bars, bars[0].timePeriod) then Ok(FixedDateBarSeries(name, baseDate, bars, bars[0].timePeriod))
    else Err(InvalidArgument)
  }

  /** validateBarsTimePeriod: scans consecutive pairs and stops at the first uneven one. */
  method ValidateBarsTimePeriod(bars: seq<Bar>, timePeriod: Duration) returns (ok: bool)
    requires |bars| > 0
    ensures ok <==> EvenlySpaced(bars, timePeriod)
  {
    var i := 1;
    while i < |bars|
      invariant 1 <= i <= |bars|
      invariant forall j :: 0 < j < i ==> Between(bars[j - 1].endTime, bars[j].endTime) == timePeriod
    {
      var actualTimePeriod := Between(bars[i - 1].endTime, bars[i].endTime);
      if actualTimePeriod != timePeriod {
        return false;
      }
      i := i + 1;
    }
    return true;
  }

  /** The constructor: an empty list gets period zero, otherwise the first bar's period is checked throughout. */
  method Construct(name: string, baseDate: Timestamp, bars: seq<Bar>) returns (r: Result<FixedDateBarSeries>)
    ensures r == Constructed(name, baseDate, bars)
  {
    if |bars| == 0 {
      return Ok(FixedDateBarSeries(name, baseDate, bars, 0));
    }
    var timePeriod := bars[0].timePeriod;
    var ok := ValidateBarsTimePeriod(bars, timePeriod);
    if !ok {
      return Err(InvalidArgument);
    }
    r := Ok(FixedDateBarSeries(name, baseDate, bars, timePeriod));
  }

  // ---------------------------------------------------------------------------------
  // Index queries
  // ---------------------------------------------------------------------------------

  /**
   * getBeginIndex: whole periods from the base date to the end of the first bar, truncated
   * toward zero, so the remainder has the sign of the offset and is less than one period.
   */
  function GetBeginIndex(s: FixedDateBarSeries): (r: int)
    requires Indexable(s)
    ensures var a, T := Between(s.baseDate, s.bars[0].endTime), s.timePeriod;
            (a >= 0 ==> r >= 0 && r * T <= a < r * T + T) &&
            (a < 0 ==> r <= 0 && r * T - T < a <= r * T)
  {
    DividedBy(Between(s.baseDate, s.bars[0].endTime), s.timePeriod)
  }

  /** getEndIndex: the absolute index of the last stored bar. */
  function GetEndIndex(s: FixedDateBarSeries): (r: int)
    requires Indexable(s)
    ensures GetBeginIndex(s) <= r
    ensures r - GetBeginIndex(s) == |s.bars| - 1
  {
    GetBeginIndex(s) + |s.bars| - 1
  }

  /** getBarCount: the number of stored bars. */
  function GetBarCount(s: FixedDateBarSeries): (r: nat)
    ensures r == |s.bars|
    ensures r == 0 <==> s.bars == []
  {
    |s.bars|
  }

  /**
   * getBar: an absolute index is shifted by the begin index; a shifted index below zero is
   * clamped to the first bar, one at or past the stored count is out of bounds. An empty
   * series fails in getBeginIndex, which reads the first bar.
   */
  function GetBar(s: FixedDateBarSeries, i: int): (r: Result<Bar>)
    requires PositivePeriod(s)
    ensures i < 0 || |s.bars| == 0 ==> r == Err(IndexOutOfBounds)
    ensures Indexable(s) && 0 <= i < GetBeginIndex(s) ==> r == Ok(s.bars[0])
    ensures Indexable(s) && 0 <= i && GetBeginIndex(s) <= i <= GetEndIndex(s) ==> r == Ok(s.bars[i - GetBeginIndex(s)])
    ensures Indexable(s) && i > GetEndIndex(s) ==> r == Err(IndexOutOfBounds)
  {
    if i < 0 then Err(IndexOutOfBounds)
    else if |s.bars| == 0 then Err(IndexOutOfBounds)
    else
      var adjustedIndex := i - GetBeginIndex(s);
      if adjustedIndex < 0 then Ok(s.bars[0])
      else if adjustedIndex >= |s.bars| then Err(IndexOutOfBounds)
      else Ok(s.bars[adjustedIndex])
  }

  /**
   * getIndex: the absolute index of an instant, by one truncating division; the first
   * bar's end time gets the begin index.
   */
  function GetIndex(s: FixedDateBarSeries, dateTime: Timestamp): (r: int)
    requires s.timePeriod > 0
    ensures var a, T := Between(s.baseDate, dateTime), s.timePeriod;
            (a >= 0 ==> r >= 0 && r * T <= a < r * T + T) &&
            (a < 0 ==> r <= 0 && r * T - T < a <= r * T)
    ensures |s.bars| > 0 && dateTime == s.bars[0].endTime ==> r == GetBeginIndex(s)
  {
    DividedBy(Between(s.baseDate, dateTime), s.timePeriod)
  }

  // ---------------------------------------------------------------------------------
  // Sub-series
  // ---------------------------------------------------------------------------------

  /** The requested start, raised to the begin index. */
  function ClampedStart(s: FixedDateBarSeries, startIndex: int): int
    requires Indexable(s)
  {
    if startIndex >= GetBeginIndex(s) then startIndex else GetBeginIndex(s)
  }

  /** The requested (exclusive) end, lowered to one past the end index. */
  function ClampedEnd(s: FixedDateBarSeries, endIndex: int): int
    requires Indexable(s)
  {
    if endIndex <= GetEndIndex(s) + 1 then endIndex else GetEndIndex(s) + 1
  }

  /**
   * getSubSeries: rejects a bad range, clamps it to the stored window, slices the stored
   * bars (the slice's own range check rejects a start past the end) and builds a new
   * series whose base date is moved forward by `start` periods.
   */
  function SubSeries(s: FixedDateBarSeries, startIndex: int, endIndex: int): (r: Result<FixedDateBarSeries>)
    requires PositivePeriod(s)
    ensures endIndex <= startIndex || startIndex < 0 ==> r == Err(InvalidArgument)
    ensures 0 <= startIndex < endIndex && |s.bars| == 0 ==> r == Err(IndexOutOfBounds)
    ensures Indexable(s) && ClampedStart(s, startIndex) > ClampedEnd(s, endIndex) ==> r == Err(InvalidArgument)
    ensures r.Ok? ==>
              Indexable(s) &&
              var lo, hi := ClampedStart(s, startIndex), ClampedEnd(s, endIndex);
              lo <= hi &&
              r.value.bars == s.bars[lo - GetBeginIndex(s) .. hi - GetBeginIndex(s)] &&
              r.value.baseDate == s.baseDate + s.timePeriod * lo &&
              r.value.name == s.name + "_sub" && Valid(r.value)
  {
    if endIndex <= startIndex || startIndex < 0 then Err(InvalidArgument)
    else if |s.bars| == 0 then Err(IndexOutOfBounds)
    else
      var start, end := ClampedStart(s, startIndex), ClampedEnd(s, endIndex);
      var from, to := start - GetBeginIndex(s), end - GetBeginIndex(s);
      if from > to then Err(InvalidArgument)
      else Constructed(s.name + "_sub", s.baseDate + s.timePeriod * start, s.bars[from..to])
  }

  /** getSubSeries as ta4j writes it: the bounds are overwritten by their clamped values. */
  method GetSubSeries(s: FixedDateBarSeries, startIndex: int, endIndex: int) returns (r: Result<FixedDateBarSeries>)
    requires PositivePeriod(s)
    ensures r == SubSeries(s, startIndex, endIndex)
  {
    if endIndex <= startIndex || startIndex < 0 {
      return Err(InvalidArgument);
    }
    if |s.bars| == 0 {
      return Err(IndexOutOfBounds);
    }
    var start := startIndex;
    var end := endIndex;
    start := if start >= GetBeginIndex(s) then start else GetBeginIndex(s);
    end := if end <= GetEndIndex(s) + 1 then end else GetEndIndex(s) + 1;
    var from, to := start - GetBeginIndex(s), end - GetBeginIndex(s);
    if from > to {
      return Err(InvalidArgument);
    }
    r := Construct(s.name + "_sub", s.baseDate + s.timePeriod * start, s.bars[from..to]);
  }

  // ---------------------------------------------------------------------------------
  // The unsupported mutators and the reporting getters
  // ---------------------------------------------------------------------------------

  /** The mutation entry points of the general series contract. */
  datatype Mutation =
    | AddBar(bar: Bar, replace: bool)
    | AddEmptyBar(barPeriod: Duration, barEnd: Timestamp)
    | AddPricedBar(barPeriod: Duration, barEnd: Timestamp, prices: Prices)
    | AddTrade(tradeVolume: int, tradePrice: int)
    | AddPrice(price: int)
    | SetMaximumBarCount(maximumBarCount: int)

  /**
   * Each mutator throws, so no call can change a series. AddPricedBar stands for the three
   * addBar overloads that take prices (with or without a period, with or without an amount).
   */
  function Mutate(s: FixedDateBarSeries, m: Mutation): (r: Outcome)
    ensures r == Fail(UnsupportedOperation)
  {
    Fail(UnsupportedOperation)
  }

  /** getMaximumBarCount: a fixed series reports no bound. */
  function GetMaximumBarCount(s: FixedDateBarSeries): (r: int)
    ensures r == IntegerMaxValue
  {
    IntegerMaxValue
  }

  /** getRemovedBarsCount: a fixed series never evicts a bar. */
  function GetRemovedBarsCount(s: FixedDateBarSeries): (r: nat)
    ensures r == 0
  {
    0
  }

  // ---------------------------------------------------------------------------------
  // Properties
  // ---------------------------------------------------------------------------------

  /** In an evenly spaced list, bar p ends p periods after the first. */
  lemma {:induction false} EndTimeOffset(bars: seq<Bar>, period: Duration, p: nat)
    requires EvenlySpaced(bars, period) && p < |bars|
    ensures bars[p].endTime == bars[0].endTime + p * period
    decreases p
  {
    if p > 0 {
      EndTimeOffset(bars, period, p - 1);
      assert Between(bars[p - 1].endTime, bars[p].endTime) == period;
    }
  }

  /** The stored bars occupy exactly the indices from the begin index to the end index. */
  lemma BarCountIsStoredWindow(s: FixedDateBarSeries)
    requires Indexable(s)
    ensures GetBarCount(s) == GetEndIndex(s) - GetBeginIndex(s) + 1
    ensures GetBarCount(s) == GetEndIndex(s) + 1 <==> GetBeginIndex(s) == 0
  {
  }

  /** Any index before the begin index answers with the bar at the begin index. */
  lemma BeforeBeginClampsToFirstBar(s: FixedDateBarSeries, i: int)
    requires Indexable(s) && 0 <= i < GetBeginIndex(s)
    ensures GetBar(s, i) == GetBar(s, GetBeginIndex(s)) == Ok(s.bars[0])
  {
  }

  /**
   * The end time of every stored bar maps back to its own absolute index, and from there to
   * the bar itself; the last bar maps to the end index. Holds when the base date is not
   * after the first bar's end (see TruncationBreaksRoundTripBeforeBaseDate).
   */
  lemma IndexRoundTrip(s: FixedDateBarSeries, p: nat)
    requires Valid(s) && Indexable(s) && p < |s.bars|
    requires s.baseDate <= s.bars[0].endTime
    ensures GetIndex(s, s.bars[p].endTime) == GetBeginIndex(s) + p
    ensures GetBar(s, GetIndex(s, s.bars[p].endTime)) == Ok(s.bars[p])
    ensures p == |s.bars| - 1 ==> GetIndex(s, s.bars[p].endTime) == GetEndIndex(s)
  {
    EndTimeOffset(s.bars, s.timePeriod, p);
    var a := Between(s.baseDate, s.bars[0].endTime);
    assert Between(s.baseDate, s.bars[p].endTime) == a + p * s.timePeriod;
    DividedByShift(a, p, s.timePeriod);
  }

  /**
   * Java's truncation toward zero: with the base date 3 units after a first bar that ends at
   * 0, the begin index is 0 but the second bar (ending at 5) is also given index 0.
   */
  lemma TruncationBreaksRoundTripBeforeBaseDate()
    ensures var p := Prices(0, 0, 0, 0, 0, 0);
            var s := FixedDateBarSeries("s", 3, [Bar(0, 5, p), Bar(5, 5, p)], 5);
            Valid(s) && GetBeginIndex(s) == 0 && GetIndex(s, 5) == 0
  {
  }

  /** The slice of an evenly spaced list is evenly spaced with the same period. */
  lemma SliceEvenlySpaced(bars: seq<Bar>, period: Duration, from: int, to: int)
    requires EvenlySpaced(bars, period) && 0 <= from <= to <= |bars|
    ensures EvenlySpaced(bars[from..to], period)
  {
  }

  /**
   * For a valid range on a valid series, getSubSeries succeeds exactly when the sub-list
   * passes the new series' own check, which uses the period its first bar declares: it
   * succeeds when the clamped window has at most one bar or its first bar declares the
   * series period, and otherwise fails with invalid-argument.
   */
  lemma SubSeriesSucceeds(s: FixedDateBarSeries, startIndex: int, endIndex: int)
    requires Valid(s) && Indexable(s) && 0 <= startIndex < endIndex
    requires ClampedStart(s, startIndex) <= ClampedEnd(s, endIndex)
    ensures var lo, hi := ClampedStart(s, startIndex), ClampedEnd(s, endIndex);
            SubSeries(s, startIndex, endIndex).Ok? <==>
              hi - lo < 2 || s.bars[lo - GetBeginIndex(s)].timePeriod == s.timePeriod
    ensures SubSeries(s, startIndex, endIndex).Err? ==> SubSeries(s, startIndex, endIndex).error == InvalidArgument
  {
    var b := GetBeginIndex(s);
    var lo, hi := ClampedStart(s, startIndex), ClampedEnd(s, endIndex);
    var sub := s.bars[lo - b .. hi - b];
    SliceEvenlySpaced(s.bars, s.timePeriod, lo - b, hi - b);
    if hi - lo >= 2 && sub[0].timePeriod != s.timePeriod {
      assert Between(sub[0].endTime, sub[1].endTime) == s.timePeriod;
      assert !EvenlySpaced(sub, sub[0].timePeriod);
    }
  }

  /**
   * A series over the bars from absolute index lo on, based lo periods after the original
   * base date, has its first bar at index 0: the truncated remainder stays below one period.
   */
  lemma SubSeriesBeginsAtZero(s: FixedDateBarSeries, lo: int, sub: FixedDateBarSeries)
    requires Valid(s) && Indexable(s) && GetBeginIndex(s) <= lo <= GetEndIndex(s)
    requires |sub.bars| > 0 && sub.timePeriod == s.timePeriod
    requires sub.bars[0] == s.bars[lo - GetBeginIndex(s)]
    requires sub.baseDate == s.baseDate + s.timePeriod * lo
    ensures Indexable(sub) && GetBeginIndex(sub) == 0
  {
    var b, T := GetBeginIndex(s), s.timePeriod;
    EndTimeOffset(s.bars, T, lo - b);
    var a := Between(s.baseDate, s.bars[0].endTime);
    assert T * lo == T * (lo - b) + b * T;
    assert Between(sub.baseDate, sub.bars[0].endTime) == a - b * T;
    DividedBySmall(a - b * T, T);
  }

  /**
   * A non-empty sub-series starts at index 0 on its own axis, and its k-th index answers
   * with the bar the original answers at index start + k.
   */
  lemma SubSeriesReindexed(s: FixedDateBarSeries, startIndex: int, endIndex: int)
    requires Valid(s) && Indexable(s) && 0 <= startIndex < endIndex
    requires ClampedStart(s, startIndex) < ClampedEnd(s, endIndex)
    requires s.bars[ClampedStart(s, startIndex) - GetBeginIndex(s)].timePeriod == s.timePeriod
    ensures SubSeries(s, startIndex, endIndex).Ok?
    ensures var sub := SubSeries(s, startIndex, endIndex).value;
            var lo, hi := ClampedStart(s, startIndex), ClampedEnd(s, endIndex);
            Indexable(sub) && GetBeginIndex(sub) == 0 && GetEndIndex(sub) == hi - lo - 1 &&
            forall k :: 0 <= k < hi - lo ==> GetBar(sub, k) == GetBar(s, lo + k)
  {
    SubSeriesSucceeds(s, startIndex, endIndex);
    var b := GetBeginIndex(s);
    var lo, hi := ClampedStart(s, startIndex), ClampedEnd(s, endIndex);
    var sub := SubSeries(s, startIndex, endIndex).value;
    assert sub.bars[0] == s.bars[lo - b];
    SubSeriesBeginsAtZero(s, lo, sub);
    forall k | 0 <= k < hi - lo
      ensures GetBar(sub, k) == GetBar(s, lo + k)
    {
      ReindexedBarAt(s, sub, lo, hi, k);
    }
  }

  /** One index of a window re-based at 0: its k-th bar is the original's bar at lo + k. */
  lemma ReindexedBarAt(s: FixedDateBarSeries, sub: FixedDateBarSeries, lo: int, hi: int, k: int)
    requires Indexable(s) && Indexable(sub) && GetBeginIndex(sub) == 0
    requires 0 <= lo && GetBeginIndex(s) <= lo && hi <= GetEndIndex(s) + 1 && 0 <= k < hi - lo
    requires sub.bars == s.bars[lo - GetBeginIndex(s) .. hi - GetBeginIndex(s)]
    ensures GetBar(sub, k) == GetBar(s, lo + k)
  {
    var b := GetBeginIndex(s);
    assert |sub.bars| == hi - lo;
    assert GetBar(sub, k) == Ok(sub.bars[k]);
    assert GetBar(s, lo + k) == Ok(s.bars[lo + k - b]);
    assert sub.bars[k] == s.bars[lo - b + k];
  }

  /**
   * The range is clamped, not rejected: a start before the begin index gives the same
   * sub-series as the begin index, an end past the stored bars the same as one past the end index.
   */
  lemma SubSeriesClamping(s: FixedDateBarSeries, startIndex: int, endIndex: int)
    requires Indexable(s) && 0 <= startIndex < endIndex
    ensures startIndex < GetBeginIndex(s) < endIndex ==>
              SubSeries(s, startIndex, endIndex) == SubSeries(s, GetBeginIndex(s), endIndex)
    ensures startIndex <= GetEndIndex(s) < endIndex ==>
              SubSeries(s, startIndex, endIndex) == SubSeries(s, startIndex, GetEndIndex(s) + 1)
  {
  }

  /**
   * Three five-minute bars ending 5, 10 and 15 minutes after the base date
   * 2010-01-01T00:00Z (in seconds since 1970): indices 0 and 1 give the first bar, 2 and 3 the
   * others, 4 fails, and the second bar's end time maps to 2; the series stores 3 bars.
   */
  lemma ExampleFiveMinuteSeries()
    ensures var base, T := 1262304000, 300;
            var b1, b2, b3 := Bar(base + T, T, Prices(1, 1, 1, 1, 1, 1)),
                              Bar(base + 2 * T, T, Prices(2, 2, 2, 2, 2, 2)),
                              Bar(base + 3 * T, T, Prices(3, 3, 3, 3, 3, 3));
            var r := Constructed("Test Series", base, [b1, b2, b3]);
            r.Ok? && Indexable(r.value) &&
            GetBeginIndex(r.value) == 1 && GetEndIndex(r.value) == 3 && GetBarCount(r.value) == 3 &&
            GetBar(r.value, 0) == Ok(b1) && GetBar(r.value, 1) == Ok(b1) &&
            GetBar(r.value, 2) == Ok(b2) && GetBar(r.value, 3) == Ok(b3) &&
            GetBar(r.value, 4) == Err(IndexOutOfBounds) &&
            GetIndex(r.value, base + 2 * T) == 2
  {
    var base, T := 1262304000, 300;
    var b1, b2, b3 := Bar(base + T, T, Prices(1, 1, 1, 1, 1, 1)),
                      Bar(base + 2 * T, T, Prices(2, 2, 2, 2, 2, 2)),
                      Bar(base + 3 * T, T, Prices(3, 3, 3, 3, 3, 3));
    assert EvenlySpaced([b1, b2, b3], T);
  }
  /**
   * Four five-minute bars from the same base date: getSubSeries(2, 4) holds the second and
   * third bar and answers index 0 with the second; (0, 2) and (0, 4) are raised to begin at
   * the first bar; (2, 5) is lowered to end after the fourth; (2, 2) and (3, 1) are rejected.
   * The series itself stores 4 bars.
   */
  lemma ExampleSubSeries()
    ensures var base, T := 1262304000, 300;
            var b1, b2, b3, b4 := Bar(base + T, T, Prices(1, 1, 1, 1, 1, 1)),
                                  Bar(base + 2 * T, T, Prices(2, 2, 2, 2, 2, 2)),
                                  Bar(base + 3 * T, T, Prices(3, 3, 3, 3, 3, 3)),
                                  Bar(base + 4 * T, T, Prices(4, 4, 4, 4, 4, 4));
            var s := FixedDateBarSeries("Test Series", base, [b1, b2, b3, b4], T);
            Valid(s) && GetBarCount(s) == 4 &&
            SubSeries(s, 2, 4).Ok? && SubSeries(s, 2, 4).value.bars == [b2, b3] &&
            GetBar(SubSeries(s, 2, 4).value, 0) == Ok(b2) && GetBar(SubSeries(s, 2, 4).value, 1) == Ok(b3) &&
            SubSeries(s, 0, 2).Ok? && SubSeries(s, 0, 2).value.bars == [b1] &&
            SubSeries(s, 0, 4).Ok? && SubSeries(s, 0, 4).value.bars == [b1, b2, b3] &&
            SubSeries(s, 2, 5).Ok? && SubSeries(s, 2, 5).value.bars == [b2, b3, b4] &&
            SubSeries(s, 2, 2) == Err(InvalidArgument) && SubSeries(s, 3, 1) == Err(InvalidArgument)
  {
    var base, T := 1262304000, 300;
    var b1, b2, b3, b4 := Bar(base + T, T, Prices(1, 1, 1, 1, 1, 1)),
                          Bar(base + 2 * T, T, Prices(2, 2, 2, 2, 2, 2)),
                          Bar(base + 3 * T, T, Prices(3, 3, 3, 3, 3, 3)),
                          Bar(base + 4 * T, T, Prices(4, 4, 4, 4, 4, 4));
    var bars := [b1, b2, b3, b4];
    assert EvenlySpaced(bars, T);
    assert bars[1..3] == [b2, b3] && bars[0..1] == [b1] && bars[0..3] == [b1, b2, b3] && bars[1..4] == [b2, b3, b4];
    assert EvenlySpaced([b2, b3], T) && EvenlySpaced([b1, b2, b3], T) && EvenlySpaced([b2, b3, b4], T);
  }
}
