/**
 * ExerciseHeartRateZonesBar: the time spent in each zone during an exercise. Sample i is
 * credited the seconds until sample i + 1 (the last time has no successor and credits 0),
 * into the zone of its bpm; readings under the light zone are skipped. The bar shows each
 * zone's share of the total and a "M min S sec" legend.
 * Sample times are the milliseconds of `new Date(sampleTimes[i]).getTime()`.
 */
module ExerciseHeartRateZonesBar {
  import opened Wrappers
  import opened ZoneClassifier
  import JsNumber
  import Text

  /** The `zoneDurations` object: seconds per zone. */
  datatype ZoneSeconds = ZoneSeconds(light: real, moderate: real, aerobic: real, anaerobic: real, vo2max: real) {
    function Get(z: Zone): real {
      match z
      case Light => light
      case Moderate => moderate
      case Aerobic => aerobic
      case Anaerobic => anaerobic
      case Vo2Max => vo2max
    }

    /** `zoneDurations[z] += d`: only the bucket of z changes. */
    function Add(z: Zone, d: real): (r: ZoneSeconds)
      ensures r.Get(z) == Get(z) + d
      ensures forall z' :: z' != z ==> r.Get(z') == Get(z')
    {
      match z
      case Light => this.(light := light + d)
      case Moderate => this.(moderate := moderate + d)
      case Aerobic => this.(aerobic := aerobic + d)
      case Anaerobic => this.(anaerobic := anaerobic + d)
      case Vo2Max => this.(vo2max := vo2max + d)
    }

    /** `Object.values(zoneDurations).reduce((sum, d) => sum + d, 0)`. */
    function Total(): real {
      light + moderate + aerobic + anaerobic + vo2max
    }
  }

  const NoSeconds := ZoneSeconds(0.0, 0.0, 0.0, 0.0, 0.0)

  /** `(nextTime - currentTime) / 1000`, where the last sample time is its own successor. */
  function IntervalSeconds(times: seq<int>, i: nat): (d: real)
    requires i < |times|
    ensures i == |times| - 1 ==> d == 0.0
    ensures i < |times| - 1 ==> d * 1000.0 == (times[i + 1] - times[i]) as real
  {
    if i < |times| - 1 then (times[i + 1] - times[i]) as real / 1000.0 else 0.0
  }

  /**
   * The buckets after the first n iterations of the loop. The total over the five buckets is
   * the sum of the intervals of all qualifying samples.
   */
  function Durations(age: int, data: seq<int>, times: seq<int>, n: nat): (d: ZoneSeconds)
    requires n <= |data| <= |times|
    ensures d.Total() == QualifyingSeconds(age, data, times, n)
  {
    if n == 0 then NoSeconds
    else
      var before := Durations(age, data, times, n - 1);
      match ClassifyBpm(data[n - 1], age)
      case None => before
      case Some(z) => before.Add(z, IntervalSeconds(times, n - 1))
  }

  /** The loop of the component over `data`, crediting each sample's interval to its zone. */
  method ZoneDurations(age: int, data: seq<int>, sampleTimes: seq<int>) returns (d: ZoneSeconds)
    requires |data| <= |sampleTimes|
    ensures d == Durations(age, data, sampleTimes, |data|)
  {
    d := ZoneSeconds(0.0, 0.0, 0.0, 0.0, 0.0);
    for i := 0 to |data|
      invariant d == Durations(age, data, sampleTimes, i)
    {
      var bpm := data[i];
      var m := MaxHeartRate(age);
      if 10 * bpm < 5 * m {
        continue;
      }
      var currentTime := sampleTimes[i];
      var nextTime := if i < |sampleTimes| - 1 then sampleTimes[i + 1] else currentTime;
      var intervalSeconds := (nextTime - currentTime) as real / 1000.0;
      if 10 * bpm < 6 * m {
        d := d.(light := d.light + intervalSeconds);
      } else if 10 * bpm < 7 * m {
        d := d.(moderate := d.moderate + intervalSeconds);
      } else if 10 * bpm < 8 * m {
        d := d.(aerobic := d.aerobic + intervalSeconds);
      } else if 10 * bpm < 9 * m {
        d := d.(anaerobic := d.anaerobic + intervalSeconds);
      } else {
        d := d.(vo2max := d.vo2max + intervalSeconds);
      }
    }
  }

  /**
   * One iteration: a skipped reading changes nothing, and otherwise exactly the bucket of the
   * reading's zone grows, by that sample's interval; the other four are unchanged.
   */
  lemma StepChangesOneBucket(age: int, data: seq<int>, times: seq<int>, n: nat, z: Zone)
    requires 0 < n <= |data| <= |times|
    ensures ClassifyBpm(data[n - 1], age).None? ==>
      Durations(age, data, times, n) == Durations(age, data, times, n - 1)
    ensures Durations(age, data, times, n).Get(z) ==
      Durations(age, data, times, n - 1).Get(z) +
        (if ClassifyBpm(data[n - 1], age) == Some(z) then IntervalSeconds(times, n - 1) else 0.0)
  {
  }

  /** The seconds credited to zone z, summed sample by sample: an independent reference. */
  function SecondsIn(age: int, data: seq<int>, times: seq<int>, n: nat, z: Zone): real
    requires n <= |data| <= |times|
  {
    if n == 0 then 0.0
    else
      var credit := if ClassifyBpm(data[n - 1], age) == Some(z) then IntervalSeconds(times, n - 1) else 0.0;
      SecondsIn(age, data, times, n - 1, z) + credit
  }

  /** The seconds credited to any zone, i.e. the intervals of all readings not skipped. */
  function QualifyingSeconds(age: int, data: seq<int>, times: seq<int>, n: nat): real
    requires n <= |data| <= |times|
  {
    if n == 0 then 0.0
    else
      var credit := if ClassifyBpm(data[n - 1], age).Some? then IntervalSeconds(times, n - 1) else 0.0;
      QualifyingSeconds(age, data, times, n - 1) + credit
  }

  /** The buckets partition the qualifying samples: each is the sum of its own samples' intervals. */
  lemma {:induction false} DurationsPartition(age: int, data: seq<int>, times: seq<int>, n: nat)
    requires n <= |data| <= |times|
    ensures forall z :: Durations(age, data, times, n).Get(z) == SecondsIn(age, data, times, n, z)
  {
    if n > 0 {
      DurationsPartition(age, data, times, n - 1);
    }
  }

  predicate Ascending(times: seq<int>) {
    forall i, j :: 0 <= i < j < |times| ==> times[i] <= times[j]
  }

  /**
   * With ascending sample times (at least one per reading) no bucket is negative, and the
   * total never exceeds the span from the first to the last sample.
   */
  lemma {:induction false} DurationsBounded(age: int, data: seq<int>, times: seq<int>, n: nat)
    requires 0 < n <= |data| <= |times|
    requires Ascending(times)
    ensures forall z :: Durations(age, data, times, n).Get(z) >= 0.0
    ensures Durations(age, data, times, n).Total() * 1000.0 <=
      (times[if n < |times| then n else n - 1] - times[0]) as real
  {
    QualifyingBounded(age, data, times, n);
    forall i | 0 <= i < n
      ensures IntervalSeconds(times, i) >= 0.0
    {
    }
    BucketsNonNegative(age, data, times, n);
  }

  lemma BucketsNonNegative(age: int, data: seq<int>, times: seq<int>, n: nat)
    requires n <= |data| <= |times|
    requires forall i :: 0 <= i < n ==> IntervalSeconds(times, i) >= 0.0
    ensures forall z :: Durations(age, data, times, n).Get(z) >= 0.0
  {
    DurationsPartition(age, data, times, n);
    forall z
      ensures SecondsIn(age, data, times, n, z) >= 0.0
    {
      SecondsInNonNegative(age, data, times, n, z);
    }
  }

  lemma {:induction false} SecondsInNonNegative(age: int, data: seq<int>, times: seq<int>, n: nat, z: Zone)
    requires n <= |data| <= |times|
    requires forall i :: 0 <= i < n ==> IntervalSeconds(times, i) >= 0.0
    ensures SecondsIn(age, data, times, n, z) >= 0.0
  {
    if n > 0 {
      SecondsInNonNegative(age, data, times, n - 1, z);
    }
  }

  lemma {:induction false} QualifyingBounded(age: int, data: seq<int>, times: seq<int>, n: nat)
    requires 0 < n <= |data| <= |times|
    requires Ascending(times)
    ensures QualifyingSeconds(age, data, times, n) * 1000.0 <=
      (times[if n < |times| then n else n - 1] - times[0]) as real
  {
    assert IntervalSeconds(times, n - 1) >= 0.0;
    if n > 1 {
      QualifyingBounded(age, data, times, n - 1);
    }
  }

  /**
   * The bar width of zone z: its share of the total, as a percentage, or 0 when the total is
   * not positive; with non-negative buckets it lies between 0 and 100.
   */
  function Percentage(d: ZoneSeconds, z: Zone): (p: real)
    ensures d.Total() <= 0.0 ==> p == 0.0
    ensures d.Total() > 0.0 ==> p * d.Total() == d.Get(z) * 100.0
    ensures (forall z' :: d.Get(z') >= 0.0) ==> 0.0 <= p <= 100.0
  {
    var total := d.Total();
    ShareBounds(d, z);
    if total > 0.0 then d.Get(z) / total * 100.0 else 0.0
  }

  lemma ShareBounds(d: ZoneSeconds, z: Zone)
    ensures d.Total() > 0.0 ==> d.Get(z) / d.Total() * 100.0 * d.Total() == d.Get(z) * 100.0
    ensures d.Total() > 0.0 && (forall z' :: d.Get(z') >= 0.0) ==>
      0.0 <= d.Get(z) / d.Total() * 100.0 <= 100.0
  {
    var total := d.Total();
    if total > 0.0 {
      assert d.Get(z) / total * total == d.Get(z);
      if forall z' :: d.Get(z') >= 0.0 {
        assert d.Get(Light) >= 0.0 && d.Get(Moderate) >= 0.0 && d.Get(Aerobic) >= 0.0;
        assert d.Get(Anaerobic) >= 0.0 && d.Get(Vo2Max) >= 0.0;
        DivAtMostOne(d.Get(z), total);
      }
    }
  }

  /** The five widths are 0 when nothing was credited, and otherwise sum to 100. */
  lemma PercentagesSum(d: ZoneSeconds)
    ensures d.Total() <= 0.0 ==> forall z :: Percentage(d, z) == 0.0
    ensures d.Total() > 0.0 ==>
      Percentage(d, Light) + Percentage(d, Moderate) + Percentage(d, Aerobic) +
      Percentage(d, Anaerobic) + Percentage(d, Vo2Max) == 100.0
  {
    var t := d.Total();
    if t > 0.0 {
      SharesAddUp(d.light, d.moderate, d.aerobic, d.anaerobic, d.vo2max, t);
    }
  }

  /** Five shares of their own sum, each scaled to 100, add up to 100. */
  lemma SharesAddUp(a: real, b: real, c: real, e: real, f: real, t: real)
    requires t > 0.0 && t == a + b + c + e + f
    ensures a / t * 100.0 + b / t * 100.0 + c / t * 100.0 + e / t * 100.0 + f / t * 100.0 == 100.0
  {
    assert a / t + b / t + c / t + e / t + f / t == t / t;
  }

  lemma DivAtMostOne(a: real, t: real)
    requires 0.0 <= a <= t && t > 0.0
    ensures 0.0 <= a / t * 100.0 <= 100.0
  {
    assert a / t <= 1.0;
  }

  /** `formatDuration`: "M min S sec", the seconds part left empty when it rounds to 0. */
  function FormatDuration(seconds: real): (legend: string)
    ensures var head := Text.IntToString(JsNumber.SplitSixty(seconds).0) + " min ";
      |head| <= |legend| && legend[..|head|] == head &&
      (|head| < |legend| <==> JsNumber.SplitSixty(seconds).1 > 0) &&
      (|head| < |legend| ==> legend[|head|..] == Text.IntToString(JsNumber.SplitSixty(seconds).1) + " sec")
  {
    var (minutes, remainingSeconds) := JsNumber.SplitSixty(seconds);
    Text.IntToString(minutes) + " min " +
      (if remainingSeconds > 0 then Text.IntToString(remainingSeconds) + " sec" else "")
  }

  /**
   * For a whole number of seconds s the legend reads minutes = s / 60 and seconds = s % 60,
   * and the seconds part is dropped exactly when that remainder is 0.
   */
  lemma FormatDurationWhole(s: nat)
    ensures s % 60 == 0 ==> FormatDuration(s as real) == Text.NatToString(s / 60) + " min "
    ensures s % 60 > 0 ==>
      FormatDuration(s as real) == Text.NatToString(s / 60) + " min " + Text.NatToString(s % 60) + " sec"
  {
    JsNumber.SplitSixtyWhole(s);
  }

  /** For any non-negative duration, no seconds part is shown when the rest rounds to zero. */
  lemma FormatDurationOmitsZeroSeconds(seconds: real)
    requires seconds >= 0.0
    ensures JsNumber.SplitSixty(seconds).1 == 0 ==>
      FormatDuration(seconds) == Text.NatToString(JsNumber.SplitSixty(seconds).0) + " min "
  {
  }

  /** The aerobic example: 70 bpm, 150 bpm and 90 bpm five minutes apart at age 30. */
  lemma AerobicExample()
    ensures Durations(30, [70, 150, 90], [0, 300000, 600000], 3) == NoSeconds.(aerobic := 300.0)
  {
    assert ClassifyBpm(70, 30) == None;
    assert ClassifyBpm(150, 30) == Some(Aerobic);
    assert ClassifyBpm(90, 30) == None;
  }
}
