/**
 * Building the regression dataset: one row per pair of consecutive pump
 * runs, holding the time between their starts and the mean soil moisture of
 * the weather rows logged in between.
 */
module Dataset {
  import opened Telemetry
  import Segmentation

  /** One row of the regression dataset. */
  datatype RegressionRow = RegressionRow(
    startTime: int,            // start of a run
    endTime: int,              // start of the next run
    durationMin: real,         // minutes between the two
    avgSoil: SoilMoisture)     // mean of each soil-moisture column in between

  /**
   * The weather rows logged after `start` and no later than `end`, in log
   * order. A row logged twice is selected twice, as a boolean mask keeps it.
   */
  function Between(weather: seq<WeatherSnapshot>, start: int, end: int): (sel: seq<WeatherSnapshot>)
    ensures |sel| <= |weather|
    ensures forall w {:trigger w in sel} {:trigger w in weather} :: w in sel <==> w in weather && start < w.time <= end
    ensures KeepsMultiplicity(sel, weather, start, end)
  {
    if |weather| == 0 then []
    else
      assert weather == [weather[0]] + weather[1..];
      assert multiset(weather) == multiset([weather[0]]) + multiset(weather[1..]);
      (if start < weather[0].time <= end then [weather[0]] else []) + Between(weather[1..], start, end)
  }

  /**
   * Each weather row logged in `(start, end]` occurs in `sel` as often as in
   * `weather`, and no other row occurs in `sel`.
   */
  ghost predicate KeepsMultiplicity(sel: seq<WeatherSnapshot>, weather: seq<WeatherSnapshot>, start: int, end: int) {
    forall w {:trigger multiset(sel)[w]} :: multiset(sel)[w] == if start < w.time <= end then multiset(weather)[w] else 0
  }

  /** The weather rows of the interval between run starts `i` and `i + 1`. */
  function PairWeather(starts: seq<int>, weather: seq<WeatherSnapshot>, i: int): (sel: seq<WeatherSnapshot>)
    requires 0 <= i < |starts| - 1
    ensures forall w {:trigger w in sel} {:trigger w in weather} :: w in sel <==> w in weather && starts[i] < w.time <= starts[i + 1]
    ensures KeepsMultiplicity(sel, weather, starts[i], starts[i + 1])
  {
    Between(weather, starts[i], starts[i + 1])
  }

  /** The sum of one soil-moisture column. */
  function ColumnSum(rows: seq<WeatherSnapshot>, d: Depth): (sum: real) {
    if |rows| == 0 then 0.0 else rows[0].soil.At(d) + ColumnSum(rows[1..], d)
  }

  /** The arithmetic mean of one soil-moisture column. */
  function Mean(rows: seq<WeatherSnapshot>, d: Depth): (mean: real)
    requires |rows| > 0
  {
    ColumnSum(rows, d) / |rows| as real
  }

  /** A column whose values lie in `[lo, hi]` sums to between `n * lo` and `n * hi`. */
  lemma {:induction false} ColumnSumBounds(rows: seq<WeatherSnapshot>, d: Depth, lo: real, hi: real)
    requires forall i :: 0 <= i < |rows| ==> lo <= rows[i].soil.At(d) <= hi
    ensures |rows| as real * lo <= ColumnSum(rows, d) <= |rows| as real * hi
  {
    if |rows| > 0 {
      ColumnSumBounds(rows[1..], d, lo, hi);
    }
  }

  /** The mean of a column lies between the column's bounds. */
  lemma {:induction false} MeanWithinBounds(rows: seq<WeatherSnapshot>, d: Depth, lo: real, hi: real)
    requires |rows| > 0
    requires forall i :: 0 <= i < |rows| ==> lo <= rows[i].soil.At(d) <= hi
    ensures lo <= Mean(rows, d) <= hi
  {
    ColumnSumBounds(rows, d, lo, hi);
    var n := |rows| as real;
    assert Mean(rows, d) * n == ColumnSum(rows, d);
  }

  /** A column holding one value throughout has that value as its mean. */
  lemma {:induction false} MeanOfConstantColumn(rows: seq<WeatherSnapshot>, d: Depth, v: real)
    requires |rows| > 0
    requires forall i :: 0 <= i < |rows| ==> rows[i].soil.At(d) == v
    ensures Mean(rows, d) == v
  {
    MeanWithinBounds(rows, d, v, v);
  }

  /**
   * The five `avg_soil_moisture_*` values of a non-empty selection: each,
   * taken once per selected row, adds up to its column's total.
   */
  function AverageSoil(sel: seq<WeatherSnapshot>): (avg: SoilMoisture)
    requires |sel| > 0
    ensures forall d :: avg.At(d) * |sel| as real == ColumnSum(sel, d)
  {
    SoilMoisture(Mean(sel, Cm0To1), Mean(sel, Cm1To3), Mean(sel, Cm3To9),
                 Mean(sel, Cm9To27), Mean(sel, Cm27To81))
  }

  /** Each average lies within any bounds its column keeps to. */
  lemma {:induction false} AverageSoilWithinBounds(sel: seq<WeatherSnapshot>, d: Depth, lo: real, hi: real)
    requires |sel| > 0
    requires forall i :: 0 <= i < |sel| ==> lo <= sel[i].soil.At(d) <= hi
    ensures lo <= AverageSoil(sel).At(d) <= hi
  {
    MeanWithinBounds(sel, d, lo, hi);
    assert AverageSoil(sel).At(d) == Mean(sel, d) by {
      assert AverageSoil(sel).At(d) * |sel| as real == ColumnSum(sel, d);
    }
  }

  /**
   * The dataset row of the pair of run starts `i` and `i + 1`, which have
   * weather logged in between: the interval's bounds, its length in minutes
   * and the mean of each soil-moisture column over that weather.
   */
  function PairRow(starts: seq<int>, weather: seq<WeatherSnapshot>, i: int): (row: RegressionRow)
    requires 0 <= i < |starts| - 1 && |PairWeather(starts, weather, i)| > 0
    ensures row.startTime == starts[i] && row.endTime == starts[i + 1]
    ensures row.durationMin * 60.0 == (starts[i + 1] - starts[i]) as real
    ensures starts[i] < starts[i + 1] ==> row.durationMin > 0.0
    ensures forall d :: row.avgSoil.At(d) * |PairWeather(starts, weather, i)| as real
                        == ColumnSum(PairWeather(starts, weather, i), d)
  {
    RegressionRow(starts[i], starts[i + 1], (starts[i + 1] - starts[i]) as real / 60.0,
                  AverageSoil(PairWeather(starts, weather, i)))
  }

  /**
   * When every weather row logged between run starts `i` and `i + 1` keeps
   * soil-moisture column `d` within `[lo, hi]`, so does the row's average.
   */
  lemma {:induction false} PairRowWithinBounds(starts: seq<int>, weather: seq<WeatherSnapshot>, i: int,
                                               d: Depth, lo: real, hi: real)
    requires 0 <= i < |starts| - 1 && |PairWeather(starts, weather, i)| > 0
    requires forall w :: w in weather && starts[i] < w.time <= starts[i + 1] ==> lo <= w.soil.At(d) <= hi
    ensures lo <= PairRow(starts, weather, i).avgSoil.At(d) <= hi
  {
    var sel := PairWeather(starts, weather, i);
    forall j | 0 <= j < |sel|
      ensures lo <= sel[j].soil.At(d) <= hi
    {
      assert sel[j] in sel;
    }
    AverageSoilWithinBounds(sel, d, lo, hi);
  }

  /** `row` is the dataset row of pair `i`. */
  predicate RowFor(row: RegressionRow, starts: seq<int>, weather: seq<WeatherSnapshot>, i: int) {
    && 0 <= i < |starts| - 1
    && |PairWeather(starts, weather, i)| > 0
    && row == PairRow(starts, weather, i)
  }

  /**
   * Pair `i` of run starts has weather logged in between, so it yields a row.
   * Kept apart from `RowFor` so that the two quantifiers of `Covered` do not
   * instantiate each other without end.
   */
  predicate HasWeather(starts: seq<int>, weather: seq<WeatherSnapshot>, i: int) {
    0 <= i < |starts| - 1 && |PairWeather(starts, weather, i)| > 0
  }

  /** `row` is the row of one of the pairs below `n`. */
  predicate RowOfSomePair(row: RegressionRow, starts: seq<int>, weather: seq<WeatherSnapshot>, n: int) {
    exists i :: 0 <= i < n && RowFor(row, starts, weather, i)
  }

  /** Pair `i` has its row among `rows`. */
  predicate PairHasRow(rows: seq<RegressionRow>, starts: seq<int>, weather: seq<WeatherSnapshot>, i: int) {
    exists k :: 0 <= k < |rows| && RowFor(rows[k], starts, weather, i)
  }

  /**
   * `rows` accounts for the pairs of run starts below `n`: each row is the
   * row of one of those pairs, and each of those pairs with weather logged
   * in between has its row.
   */
  predicate Covered(rows: seq<RegressionRow>, starts: seq<int>, weather: seq<WeatherSnapshot>, n: int) {
    && (forall k :: 0 <= k < |rows| ==> RowOfSomePair(rows[k], starts, weather, n))
    && (forall i :: 0 <= i < n && HasWeather(starts, weather, i) ==> PairHasRow(rows, starts, weather, i))
  }

  /**
   * `rows` is the dataset for the run starts `starts`: one row per pair of
   * consecutive starts with weather logged in between, and no other rows.
   */
  predicate DatasetFor(rows: seq<RegressionRow>, starts: seq<int>, weather: seq<WeatherSnapshot>) {
    Covered(rows, starts, weather, |starts| - 1)
  }

  /** Passing over a pair with no weather in between keeps the rows accounted for. */
  lemma {:induction false} CoveredSkip(rows: seq<RegressionRow>, starts: seq<int>, weather: seq<WeatherSnapshot>, i: int)
    requires 0 <= i && !HasWeather(starts, weather, i)
    requires Covered(rows, starts, weather, i)
    ensures Covered(rows, starts, weather, i + 1)
  {
  }

  /** Appending the row of pair `i` keeps the rows accounted for. */
  lemma {:induction false} CoveredAppend(rows: seq<RegressionRow>, row: RegressionRow, starts: seq<int>,
                      weather: seq<WeatherSnapshot>, i: int)
    requires RowFor(row, starts, weather, i)
    requires Covered(rows, starts, weather, i)
    ensures Covered(rows + [row], starts, weather, i + 1)
  {
    var next := rows + [row];
    forall k | 0 <= k < |next|
      ensures RowOfSomePair(next[k], starts, weather, i + 1)
    {
      if k < |rows| {
        assert next[k] == rows[k] && RowOfSomePair(rows[k], starts, weather, i);
      } else {
        assert next[k] == row;
      }
    }
    forall j | 0 <= j < i + 1 && HasWeather(starts, weather, j)
      ensures PairHasRow(next, starts, weather, j)
    {
      if j < i {
        assert PairHasRow(rows, starts, weather, j);
        var k :| 0 <= k < |rows| && RowFor(rows[k], starts, weather, j);
        assert next[k] == rows[k];
      } else {
        assert next[|rows|] == row;
      }
    }
  }

  /** The start times of `rows` increase strictly. */
  predicate InStartOrder(rows: seq<RegressionRow>) {
    forall a, b :: 0 <= a < b < |rows| ==> rows[a].startTime < rows[b].startTime
  }

  /**
   * The rows are in start order, all start before `bound`, and all span a
   * positive number of minutes.
   */
  predicate OrderedBefore(rows: seq<RegressionRow>, bound: int) {
    && InStartOrder(rows)
    && forall k :: 0 <= k < |rows| ==> rows[k].startTime < bound && rows[k].durationMin > 0.0
  }

  /** A row starting at `lo` and ending at `hi` extends rows ordered before `lo`. */
  lemma {:induction false} OrderedAppend(rows: seq<RegressionRow>, row: RegressionRow, lo: int, hi: int)
    requires lo < hi && OrderedBefore(rows, lo)
    requires row.startTime == lo && row.durationMin * 60.0 == (hi - lo) as real
    ensures OrderedBefore(rows + [row], hi)
  {
  }

  /**
   * One pass of the loop over consecutive run starts: pair `i` adds its row
   * when its interval holds weather and is passed over otherwise.
   */
  function Extend(rows: seq<RegressionRow>, starts: seq<int>, weather: seq<WeatherSnapshot>, i: int): (next: seq<RegressionRow>)
    requires 0 <= i < |starts| - 1
    requires Covered(rows, starts, weather, i)
    ensures Covered(next, starts, weather, i + 1)
    ensures |next| == if HasWeather(starts, weather, i) then |rows| + 1 else |rows|
    ensures forall k :: 0 <= k < |rows| ==> next[k] == rows[k]
    ensures starts[i] < starts[i + 1] && OrderedBefore(rows, starts[i]) ==> OrderedBefore(next, starts[i + 1])
  {
    if |PairWeather(starts, weather, i)| > 0 then
      var row := PairRow(starts, weather, i);
      CoveredAppend(rows, row, starts, weather, i);
      assert starts[i] < starts[i + 1] && OrderedBefore(rows, starts[i]) ==>
               OrderedBefore(rows + [row], starts[i + 1]) by {
        if starts[i] < starts[i + 1] && OrderedBefore(rows, starts[i]) {
          OrderedAppend(rows, row, starts[i], starts[i + 1]);
        }
      }
      rows + [row]
    else
      CoveredSkip(rows, starts, weather, i);
      rows
  }

  /**
   * The loop over consecutive run starts: a row for each pair whose
   * interval holds at least one weather row, in the order of the pairs.
   */
  method BuildRows(starts: seq<int>, weather: seq<WeatherSnapshot>) returns (rows: seq<RegressionRow>)
    ensures |starts| <= 1 ==> rows == []
    ensures |starts| > 1 ==> |rows| <= |starts| - 1
    ensures DatasetFor(rows, starts, weather)
    ensures Segmentation.StrictlyIncreasing(starts) ==> InStartOrder(rows)
    ensures Segmentation.StrictlyIncreasing(starts) ==>
      forall k :: 0 <= k < |rows| ==> rows[k].durationMin > 0.0
  {
    rows := [];
    var i := 0;
    while i + 1 < |starts|
      invariant 0 <= i
      invariant |starts| <= 1 ==> i == 0
      invariant |starts| > 1 ==> i <= |starts| - 1
      invariant |rows| <= i
      invariant Covered(rows, starts, weather, i)
      invariant Segmentation.StrictlyIncreasing(starts) && i < |starts| ==> OrderedBefore(rows, starts[i])
    {
      rows := Extend(rows, starts, weather, i);
      i := i + 1;
    }
  }

  /**
   * The whole dataset from the sorted power-log timestamps and the weather
   * log: runs are segmented, then consecutive run starts are paired.
   */
  method MakeDataset(ts: seq<int>, weather: seq<WeatherSnapshot>) returns (rows: seq<RegressionRow>)
    requires Segmentation.Sorted(ts)
    ensures |ts| > 0 ==> |rows| < |Segmentation.RunStarts(ts)|
    ensures DatasetFor(rows, Segmentation.RunStarts(ts), weather)
    ensures InStartOrder(rows)
    ensures forall k :: 0 <= k < |rows| ==> rows[k].durationMin > 0.0
  {
    var starts := Segmentation.RunStarts(ts);
    Segmentation.RunStartsIncrease(ts);
    rows := BuildRows(starts, weather);
  }
}
