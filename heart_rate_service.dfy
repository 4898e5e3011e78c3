/**
 * HeartRateService. `fetchHeartRateSamplesByDate` flattens the samples of a day's heart-rate
 * records, sorts them in place by time and maps them to { bpm, time }; `fetchLatestHeartRate`
 * reports the last of today's mapped samples. Sample times are milliseconds.
 */
module HeartRateService {
  import opened Wrappers
  import opened Reduce
  import TimeSort

  datatype HeartRateSample = HeartRateSample(beatsPerMinute: int, time: int)

  datatype HeartRateRecord = HeartRateRecord(samples: seq<HeartRateSample>)

  /** The `{ bpm, time }` objects the service returns. */
  datatype HeartRatePoint = HeartRatePoint(bpm: int, time: int)

  function SamplesOf(r: HeartRateRecord): seq<HeartRateSample> {
    r.samples
  }

  function SampleCount(r: HeartRateRecord): int {
    |r.samples|
  }

  function SampleTime(s: HeartRateSample): int {
    s.time
  }

  function PointTime(p: HeartRatePoint): int {
    p.time
  }

  function ToPoint(s: HeartRateSample): (p: HeartRatePoint)
    ensures p.bpm == s.beatsPerMinute && p.time == s.time
  {
    HeartRatePoint(s.beatsPerMinute, s.time)
  }

  /** `records.flatMap(record => record.samples)`. */
  function AllSamples(records: seq<HeartRateRecord>): seq<HeartRateSample> {
    FlatMap(records, SamplesOf)
  }

  /** The result of `fetchHeartRateSamplesByDate` for the day's records. */
  function SamplesByDate(records: seq<HeartRateRecord>): (points: seq<HeartRatePoint>)
    ensures |points| == |AllSamples(records)|
    ensures TimeSort.SortedBy(points, PointTime)
  {
    var sorted := TimeSort.SortByKey(AllSamples(records), SampleTime);
    TimeSort.SortByKeySorted(AllSamples(records), SampleTime);
    MapKeepsOrder(sorted);
    MapSeq(sorted, ToPoint)
  }

  /** `fetchHeartRateSamplesByDate`: flatten, sort by time, map. */
  method FetchHeartRateSamplesByDate(records: seq<HeartRateRecord>) returns (points: seq<HeartRatePoint>)
    ensures points == SamplesByDate(records)
  {
    var allSamples := AllSamples(records);
    allSamples := TimeSort.SortedCopy(allSamples, SampleTime);
    points := MapSeq(allSamples, ToPoint);
  }

  /** Mapping to points keeps the time order. */
  lemma MapKeepsOrder(s: seq<HeartRateSample>)
    requires TimeSort.SortedBy(s, SampleTime)
    ensures TimeSort.SortedBy(MapSeq(s, ToPoint), PointTime)
  {
    var m := MapSeq(s, ToPoint);
    forall i, j | 0 <= i < j < |m|
      ensures PointTime(m[i]) <= PointTime(m[j])
    {
      assert SampleTime(s[i]) <= SampleTime(s[j]);
    }
  }

  /**
   * One point per sample of every record, in ascending time, holding exactly the mapped
   * samples (as a permutation: samples repeated across records are all kept).
   */
  lemma SamplesByDateSortedPermutation(records: seq<HeartRateRecord>)
    ensures |SamplesByDate(records)| == SumInt(records, SampleCount)
    ensures TimeSort.SortedBy(SamplesByDate(records), PointTime)
    ensures multiset(SamplesByDate(records)) == multiset(MapSeq(AllSamples(records), ToPoint))
  {
    var all := AllSamples(records);
    FlatMapLength(records, SamplesOf, SampleCount);
    TimeSort.SortByKeyPermutation(all, SampleTime);
    TimeSort.SortByKeySorted(all, SampleTime);
    MapKeepsOrder(TimeSort.SortByKey(all, SampleTime));
    MapPermutation(TimeSort.SortByKey(all, SampleTime), all, ToPoint);
  }

  /** `fetchLatestHeartRate` on today's records: null without samples, else the last point. */
  function LatestHeartRate(records: seq<HeartRateRecord>): (r: Option<HeartRatePoint>)
    ensures r.None? <==> AllSamples(records) == []
    ensures r.Some? ==> forall i :: 0 <= i < |SamplesByDate(records)| ==>
      SamplesByDate(records)[i].time <= r.value.time
  {
    var points := SamplesByDate(records);
    if |points| == 0 then None else Some(points[|points| - 1])
  }

  /**
   * The latest reading is null exactly when no record holds a sample; otherwise it is a
   * sample of greatest time, and among samples sharing that time the last one flattened.
   */
  lemma LatestHeartRateIsLatest(records: seq<HeartRateRecord>)
    ensures LatestHeartRate(records).None? <==> AllSamples(records) == []
    ensures AllSamples(records) != [] ==>
      (exists k :: TimeSort.IsLatestMax(AllSamples(records), k, SampleTime) &&
        LatestHeartRate(records) == Some(ToPoint(AllSamples(records)[k])))
  {
    var all := AllSamples(records);
    TimeSort.SortByKeyPermutation(all, SampleTime);
    if all != [] {
      var k := TimeSort.SortByKeyLast(all, SampleTime);
      assert TimeSort.IsLatestMax(all, k, SampleTime);
    } else {
      assert |TimeSort.SortByKey(all, SampleTime)| == |multiset(all)| == 0;
    }
  }
}
