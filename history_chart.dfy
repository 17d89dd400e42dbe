/** The historical chart card: summary statistics over the minute buckets the history
    endpoint returns, and the card's loading / no-data / chart choice. */
module HistoryChart {
  import opened Common
  import Routes

  type Bucket = Routes.Bucket

  /** What the card renders. */
  datatype View =
    | Loading
    | NoData
    | Chart(points: nat, average: int, minimum: int, maximum: int, durationMinutes: int)

  function SumRates(data: seq<Bucket>): int {
    if data == [] then 0 else SumRates(data[..|data| - 1]) + data[|data| - 1].heartRate
  }

  /** `Math.min(...heartRates)`. */
  function MinRate(data: seq<Bucket>): (m: int)
    requires data != []
    ensures forall i :: 0 <= i < |data| ==> m <= data[i].heartRate
    ensures exists i :: 0 <= i < |data| && data[i].heartRate == m
  {
    if |data| == 1 then data[0].heartRate
    else
      var rest := MinRate(data[..|data| - 1]);
      if data[|data| - 1].heartRate < rest then data[|data| - 1].heartRate else rest
  }

  /** `Math.max(...heartRates)`. */
  function MaxRate(data: seq<Bucket>): (m: int)
    requires data != []
    ensures forall i :: 0 <= i < |data| ==> data[i].heartRate <= m
    ensures exists i :: 0 <= i < |data| && data[i].heartRate == m
  {
    if |data| == 1 then data[0].heartRate
    else
      var rest := MaxRate(data[..|data| - 1]);
      if data[|data| - 1].heartRate > rest then data[|data| - 1].heartRate else rest
  }

  /** The rounded mean of the bucket heart rates. */
  function AverageRate(data: seq<Bucket>): int
    requires data != []
  {
    RoundReal(SumRates(data) as real / |data| as real)
  }

  lemma {:induction false} SumRatesBounds(data: seq<Bucket>, lo: int, hi: int)
    requires forall i :: 0 <= i < |data| ==> lo <= data[i].heartRate <= hi
    ensures |data| * lo <= SumRates(data) <= |data| * hi
  {
    if data != [] {
      var init := data[..|data| - 1];
      SumRatesBounds(init, lo, hi);
      Routes.ScaleSuccInt(|init|, lo);
      Routes.ScaleSuccInt(|init|, hi);
    }
  }

  /** The displayed average lies between the displayed minimum and maximum. */
  lemma AverageBetweenExtremes(data: seq<Bucket>)
    requires data != []
    ensures MinRate(data) <= AverageRate(data) <= MaxRate(data)
  {
    var lo, hi := MinRate(data), MaxRate(data);
    SumRatesBounds(data, lo, hi);
    Routes.MeanBetween(SumRates(data) as real, |data|, lo as real, hi as real);
    RoundRealBetween(SumRates(data) as real / |data| as real, lo, hi);
  }

  /** The minutes between the first and the last bucket, rounded. */
  function DurationMinutes(data: seq<Bucket>): int
    requires data != []
  {
    RoundReal((data[|data| - 1].timestamp - data[0].timestamp) as real / Routes.MillisPerMinute as real)
  }

  /** Consecutive minute-aligned keys in ascending order are at least a minute apart. */
  lemma {:induction false} SpanOfAlignedKeys(data: seq<Bucket>)
    requires data != []
    requires Routes.OldestFirst(data)
    requires forall i :: 0 <= i < |data| ==> data[i].timestamp % Routes.MillisPerMinute == 0
    ensures data[|data| - 1].timestamp - data[0].timestamp >= (|data| - 1) * Routes.MillisPerMinute
  {
    if |data| > 1 {
      var init := data[..|data| - 1];
      SpanOfAlignedKeys(init);
      var a, b := data[|data| - 2].timestamp, data[|data| - 1].timestamp;
      assert a < b;
      assert (b - a) % Routes.MillisPerMinute == 0;
    }
  }

  /** On the ascending, minute-aligned buckets the endpoint returns, the duration is never
      negative and spans at least one minute per gap between buckets. */
  lemma DurationCoversBuckets(data: seq<Bucket>)
    requires data != []
    requires Routes.OldestFirst(data)
    requires forall i :: 0 <= i < |data| ==> data[i].timestamp % Routes.MillisPerMinute == 0
    ensures DurationMinutes(data) >= |data| - 1 >= 0
  {
    SpanOfAlignedKeys(data);
    var span := (data[|data| - 1].timestamp - data[0].timestamp) as real;
    assert span / Routes.MillisPerMinute as real >= (|data| - 1) as real;
    RoundRealMonotone((|data| - 1) as real, span / Routes.MillisPerMinute as real);
    RoundRealOfInt(|data| - 1);
  }

  /** The card's choice: loading first, then no data on an error or an empty or missing
      result, and otherwise the chart with its statistics. */
  function ChartView(isLoading: bool, failed: bool, data: Option<seq<Bucket>>): (v: View)
    ensures v.Loading? <==> isLoading
    ensures v.NoData? <==> !isLoading && (failed || data.None? || data.value == [])
    ensures v.Chart? ==> data.Some? && data.value != [] && v.points == |data.value|
    ensures v.Chart? ==> v.minimum <= v.average <= v.maximum
    ensures v.Chart? ==> v.average == AverageRate(data.value) && v.minimum == MinRate(data.value)
                         && v.maximum == MaxRate(data.value) && v.durationMinutes == DurationMinutes(data.value)
  {
    if isLoading then Loading
    else if failed || data.None? || data.value == [] then NoData
    else
      var d := data.value;
      AverageBetweenExtremes(d);
      Chart(|d|, AverageRate(d), MinRate(d), MaxRate(d), DurationMinutes(d))
  }

  /** The tooltip's count line: "1 reading", "2 readings", "0 readings". */
  function ReadingCountText(count: nat): (s: string)
    ensures |s| > |NatToString(count)| && (s[|s| - 1] == 's' <==> count != 1)
    ensures s[..|NatToString(count)|] == NatToString(count)
    ensures s[|NatToString(count)|..] == if count == 1 then " reading" else " readings"
    ensures DecimalValue(s[..|NatToString(count)|]) == count
  {
    NatToStringRoundTrip(count);
    NatToString(count) + (if count != 1 then " readings" else " reading")
  }
}
