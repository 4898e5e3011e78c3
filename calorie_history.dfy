/**
 * CalorieHistoryScreen: the total, max and min of the day's calorie samples (0 without
 * data) and the last sample (null without data).
 */
module CalorieHistory {
  import opened Wrappers
  import opened Reduce
  import JsNumber
  import TimeSort
  import CaloriesService

  type CalorieSample = CaloriesService.CalorieSample

  function CaloriesOf(s: CalorieSample): real {
    s.calories
  }

  /** `total`: the rounded sum, 0 without data. */
  function Total(data: seq<CalorieSample>): (total: int)
    ensures data == [] ==> total == 0
    ensures SumReal(data, CaloriesOf) - 0.5 < total as real <= SumReal(data, CaloriesOf) + 0.5
  {
    if |data| > 0 then JsNumber.Round(SumReal(data, CaloriesOf)) else 0
  }

  /** `max`: the greatest calorie value, 0 without data. */
  function MaxCalories(data: seq<CalorieSample>): (m: real)
    ensures data == [] ==> m == 0.0
    ensures data != [] ==> exists i :: 0 <= i < |data| && data[i].calories == m
    ensures data != [] ==> forall i :: 0 <= i < |data| ==> data[i].calories <= m
  {
    if |data| > 0 then MaxReal(data, CaloriesOf) else 0.0
  }

  /** `min`: the least calorie value, 0 without data. */
  function MinCalories(data: seq<CalorieSample>): (m: real)
    ensures data == [] ==> m == 0.0
    ensures data != [] ==> exists i :: 0 <= i < |data| && data[i].calories == m
    ensures data != [] ==> forall i :: 0 <= i < |data| ==> m <= data[i].calories
  {
    if |data| > 0 then MinReal(data, CaloriesOf) else 0.0
  }

  /** The min figure never exceeds the max figure. */
  lemma MinAtMostMax(data: seq<CalorieSample>)
    ensures MinCalories(data) <= MaxCalories(data)
  {
    if data != [] {
      assert MinCalories(data) <= data[0].calories <= MaxCalories(data);
    }
  }

  /**
   * On the service's samples the last sample is null exactly without records, and is
   * otherwise the sample of a record of greatest start time (the last such in input order).
   */
  lemma LastSampleIsLatest(records: seq<CaloriesService.CaloriesRecord>)
    ensures LastOf(CaloriesService.CalorieSamples(Fetched(records))).None? <==> records == []
    ensures records != [] ==>
      var mapped := MapSeq(records, CaloriesService.ToSample);
      exists k :: TimeSort.IsLatestMax(mapped, k, CaloriesService.SampleTime) &&
        LastOf(CaloriesService.CalorieSamples(Fetched(records))) == Some(mapped[k])
  {
    CaloriesService.CalorieSamplesSortedPermutation(records);
    if records != [] {
      var mapped := MapSeq(records, CaloriesService.ToSample);
      var k := TimeSort.SortByKeyLast(mapped, CaloriesService.SampleTime);
      assert TimeSort.IsLatestMax(mapped, k, CaloriesService.SampleTime);
    }
  }
}
