/**
 * HeartRateHistoryScreen: the Min, Avg and Max figures and the last sample of the day's
 * { bpm, time } samples, and the props it hands the zone bar.
 */
module HeartRateHistory {
  import opened Wrappers
  import opened Reduce
  import JsNumber
  import HeartRateService
  import HeartRateZonesBar

  type HeartRatePoint = HeartRateService.HeartRatePoint

  function Bpm(p: HeartRatePoint): int {
    p.bpm
  }

  /** `average`: the rounded mean bpm, or null without data. */
  function Average(data: seq<HeartRatePoint>): (avg: Option<int>)
    ensures avg.None? <==> data == []
    ensures avg.Some? ==>
      var mean := SumInt(data, Bpm) as real / |data| as real;
      mean - 0.5 < avg.value as real <= mean + 0.5
  {
    if |data| > 0 then Some(JsNumber.Round(SumInt(data, Bpm) as real / |data| as real)) else None
  }

  /** `max`: the greatest bpm, or null without data. */
  function MaxBpm(data: seq<HeartRatePoint>): (m: Option<int>)
    ensures m.None? <==> data == []
    ensures m.Some? ==> exists i :: 0 <= i < |data| && data[i].bpm == m.value
    ensures m.Some? ==> forall i :: 0 <= i < |data| ==> data[i].bpm <= m.value
  {
    if |data| > 0 then Some(MaxInt(data, Bpm)) else None
  }

  /** `min`: the least bpm, or null without data. */
  function MinBpm(data: seq<HeartRatePoint>): (m: Option<int>)
    ensures m.None? <==> data == []
    ensures m.Some? ==> exists i :: 0 <= i < |data| && data[i].bpm == m.value
    ensures m.Some? ==> forall i :: 0 <= i < |data| ==> m.value <= data[i].bpm
  {
    if |data| > 0 then Some(MinInt(data, Bpm)) else None
  }

  /** The three figures are all shown or all null, and Min <= Avg <= Max. */
  lemma MinAverageMax(data: seq<HeartRatePoint>)
    ensures Average(data).None? <==> MinBpm(data).None?
    ensures Average(data).None? <==> MaxBpm(data).None?
    ensures data != [] ==> MinBpm(data).value <= Average(data).value <= MaxBpm(data).value
  {
    if data != [] {
      var lo, hi := MinBpm(data).value, MaxBpm(data).value;
      SumIntBounds(data, Bpm, lo, hi);
      JsNumber.RoundedMeanBetween(SumInt(data, Bpm), |data|, lo, hi);
    }
  }

  /** `lastSample`, which on the service's sorted samples is the service's latest reading. */
  lemma LastSampleIsLatest(records: seq<HeartRateService.HeartRateRecord>)
    ensures LastOf(HeartRateService.SamplesByDate(records)) == HeartRateService.LatestHeartRate(records)
  {
  }

  /** The props of `HeartRateZonesBar`. */
  datatype ZoneBarProps = ZoneBarProps(age: int, data: seq<int>, sampleTimes: seq<int>)

  const ZoneBarAge := 23

  /** The zone bar, shown only with data, for age 23, with the bpm and time of each sample. */
  function ZoneBar(data: seq<HeartRatePoint>): (bar: Option<ZoneBarProps>)
    ensures bar.None? <==> data == []
    ensures bar.Some? ==> bar.value.age == 23 && |bar.value.data| == |bar.value.sampleTimes| == |data|
    ensures bar.Some? ==> forall i :: 0 <= i < |data| ==>
      bar.value.data[i] == data[i].bpm && bar.value.sampleTimes[i] == data[i].time
  {
    if |data| > 0 then
      Some(ZoneBarProps(ZoneBarAge, MapSeq(data, Bpm), MapSeq(data, (p: HeartRatePoint) => p.time)))
    else None
  }

  /**
   * Whenever the bar is shown its legend total is the number of samples, and its counters
   * add up to at most that many.
   */
  lemma ZoneBarWithinSamples(data: seq<HeartRatePoint>)
    requires data != []
    ensures HeartRateZonesBar.TotalMinutes(ZoneBar(data).value.data) == |data|
    ensures HeartRateZonesBar.Counts(23, ZoneBar(data).value.data).Total() <= |data|
  {
    HeartRateZonesBar.CountsWithinTotalMinutes(23, ZoneBar(data).value.data);
  }
}
