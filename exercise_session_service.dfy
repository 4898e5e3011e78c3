/**
 * ExerciseSessionService. `fetchExerciseSessions` lists the exercise sessions, each with the
 * active calories burned during it; `fetchExerciseDetails` gathers for one session its
 * calories, steps, distance and heart-rate samples. The provider's reads for a session's
 * time range are given as their records; `getExerciseName` is a parameter.
 */
module ExerciseSessionService {
  import opened Wrappers
  import opened Reduce
  import JsNumber
  import CaloriesService
  import StepService
  import DistanceService

  datatype ExerciseSessionRecord = ExerciseSessionRecord(
    metadataId: Option<string>, startTime: string, endTime: string, exerciseType: int, title: Option<string>)

  datatype BasicExerciseInfo = BasicExerciseInfo(
    id: string, startTime: string, endTime: string, exerciseType: int, exerciseName: string,
    title: Option<string>, calories: Option<real>)

  /** `metadata?.id ?? `${startTime}-${endTime}``. */
  function SessionId(s: ExerciseSessionRecord): (id: string)
    ensures s.metadataId.Some? ==> id == s.metadataId.value
    ensures s.metadataId.None? ==> id == s.startTime + "-" + s.endTime
  {
    s.metadataId.GetOr(s.startTime + "-" + s.endTime)
  }

  /** The running sum of `energy?.inKilocalories ?? 0`. */
  function ActiveKcal(records: seq<CaloriesService.CaloriesRecord>): real {
    SumReal(records, CaloriesService.KcalOrZero)
  }

  /**
   * One entry of the list: the session's fields and name, and its calories only when their
   * sum is positive (`calories > 0 ? calories : undefined`).
   */
  function BasicInfo(s: ExerciseSessionRecord, active: seq<CaloriesService.CaloriesRecord>,
                     exerciseName: int -> string): (info: BasicExerciseInfo)
    ensures info.id == SessionId(s)
    ensures info.startTime == s.startTime && info.endTime == s.endTime
    ensures info.exerciseType == s.exerciseType && info.title == s.title
    ensures info.exerciseName == exerciseName(s.exerciseType)
    ensures info.calories.Some? <==> ActiveKcal(active) > 0.0
    ensures info.calories.Some? ==> info.calories.value == ActiveKcal(active)
  {
    var calories := ActiveKcal(active);
    BasicExerciseInfo(SessionId(s), s.startTime, s.endTime, s.exerciseType, exerciseName(s.exerciseType),
      s.title, if calories > 0.0 then Some(calories) else None)
  }

  /** The per-session step of the `records.map`, over the records of that session's read. */
  function InfoOf(activeIn: ExerciseSessionRecord -> seq<CaloriesService.CaloriesRecord>,
                  exerciseName: int -> string): ExerciseSessionRecord -> BasicExerciseInfo {
    s => BasicInfo(s, activeIn(s), exerciseName)
  }

  /** `fetchExerciseSessions`: one entry per session, in the provider's order. */
  function ExerciseSessions(sessions: seq<ExerciseSessionRecord>,
                            activeIn: ExerciseSessionRecord -> seq<CaloriesService.CaloriesRecord>,
                            exerciseName: int -> string): (list: seq<BasicExerciseInfo>)
    ensures |list| == |sessions|
    ensures forall i :: 0 <= i < |sessions| ==> list[i] == BasicInfo(sessions[i], activeIn(sessions[i]), exerciseName)
  {
    MapSeq(sessions, InfoOf(activeIn, exerciseName))
  }

  /**
   * The list keeps the sessions one for one and in order, and an entry shows calories
   * exactly when its session burned a positive amount.
   */
  lemma ExerciseSessionsOnePerSession(sessions: seq<ExerciseSessionRecord>,
                                      activeIn: ExerciseSessionRecord -> seq<CaloriesService.CaloriesRecord>,
                                      exerciseName: int -> string)
    ensures |ExerciseSessions(sessions, activeIn, exerciseName)| == |sessions|
    ensures forall i :: 0 <= i < |sessions| ==>
      ExerciseSessions(sessions, activeIn, exerciseName)[i].id == SessionId(sessions[i]) &&
      ExerciseSessions(sessions, activeIn, exerciseName)[i].startTime == sessions[i].startTime &&
      (ExerciseSessions(sessions, activeIn, exerciseName)[i].calories.Some? <==> ActiveKcal(activeIn(sessions[i])) > 0.0)
  {
    var r := ExerciseSessions(sessions, activeIn, exerciseName);
    forall i | 0 <= i < |sessions|
      ensures r[i] == BasicInfo(sessions[i], activeIn(sessions[i]), exerciseName)
    {
    }
  }

  /** `activeCalories > 0 ? activeCalories : totalCalories`. */
  function ChosenCalories(active: real, total: real): (c: real)
    ensures active > 0.0 ==> c == active
    ensures active <= 0.0 ==> c == total
  {
    if active > 0.0 then active else total
  }

  /**
   * The detail screen's rule differs from the dashboard's (the larger of the two sums):
   * 100 active and 300 total kcal show 100 here and 300 there.
   */
  lemma CaloriesRulesDiffer()
    ensures ChosenCalories(100.0, 300.0) == 100.0
    ensures CaloriesService.Max(100.0, 300.0) == 300.0
  {
  }

  /** `(s as StepsRecord).count ?? 0`. */
  function StepsOrZero(r: StepService.StepsRecord): int {
    r.count.GetOr(0)
  }

  /** `?? 0` here and `|| 0` in the step service read the same count from every record. */
  lemma StepsAgreeWithStepService(records: seq<StepService.StepsRecord>)
    ensures SumInt(records, StepsOrZero) == StepService.TodaySteps(records)
    decreases |records|
  {
    if records != [] {
      StepsAgreeWithStepService(records[..|records| - 1]);
    }
  }

  datatype HeartRateSample = HeartRateSample(time: int, beatsPerMinute: Option<int>)

  datatype HeartRateRecord = HeartRateRecord(samples: Option<seq<HeartRateSample>>)

  /** An element of `heartRateSamples`: the time and `beatsPerMinute ?? 0`. */
  datatype SamplePoint = SamplePoint(time: int, beatsPerMinute: int)

  /** `record.samples ?? []`. */
  function SamplesOrEmpty(r: HeartRateRecord): seq<HeartRateSample> {
    r.samples.GetOr([])
  }

  function BpmOrZero(s: HeartRateSample): int {
    s.beatsPerMinute.GetOr(0)
  }

  function ToPoint(s: HeartRateSample): (p: SamplePoint)
    ensures p.time == s.time && p.beatsPerMinute == BpmOrZero(s)
  {
    SamplePoint(s.time, BpmOrZero(s))
  }

  /**
   * `averageHeartRate`: null without samples, else the mean of `beatsPerMinute ?? 0`
   * rounded by Math.round, so within half a beat of the exact mean.
   */
  function AverageHeartRate(samples: seq<HeartRateSample>): (avg: Option<int>)
    ensures avg.None? <==> samples == []
    ensures avg.Some? ==>
      var mean := SumInt(samples, BpmOrZero) as real / |samples| as real;
      mean - 0.5 < avg.value as real <= mean + 0.5
  {
    if |samples| > 0 then Some(JsNumber.Round(SumInt(samples, BpmOrZero) as real / |samples| as real))
    else None
  }

  /** The rounded average lies between the least and the greatest reading. */
  lemma AverageWithinRange(samples: seq<HeartRateSample>, lo: int, hi: int)
    requires samples != []
    requires forall i :: 0 <= i < |samples| ==> lo <= BpmOrZero(samples[i]) <= hi
    ensures lo <= AverageHeartRate(samples).value <= hi
  {
    SumIntBounds(samples, BpmOrZero, lo, hi);
    JsNumber.RoundedMeanBetween(SumInt(samples, BpmOrZero), |samples|, lo, hi);
  }

  datatype DetailedExerciseInfo = DetailedExerciseInfo(
    session: BasicExerciseInfo, calories: real, steps: int, distance: real,
    averageHeartRate: Option<int>, heartRateSamples: seq<SamplePoint>)

  /**
   * `fetchExerciseDetails` over the five reads for the session's time range: the average is
   * taken over the flattened samples, and each returned point keeps its sample's time and
   * `beatsPerMinute ?? 0`, in flattened order.
   */
  function ExerciseDetails(session: BasicExerciseInfo,
                           active: seq<CaloriesService.CaloriesRecord>,
                           total: seq<CaloriesService.CaloriesRecord>,
                           steps: seq<StepService.StepsRecord>,
                           distance: seq<DistanceService.DistanceRecord>,
                           heartRate: seq<HeartRateRecord>): (d: DetailedExerciseInfo)
    ensures d.session == session
    ensures ActiveKcal(active) > 0.0 ==> d.calories == ActiveKcal(active)
    ensures ActiveKcal(active) <= 0.0 ==> d.calories == ActiveKcal(total)
    ensures var samples := FlatMap(heartRate, SamplesOrEmpty);
      && |d.heartRateSamples| == |samples|
      && (forall i :: 0 <= i < |samples| ==> d.heartRateSamples[i].time == samples[i].time)
      && (forall i :: 0 <= i < |samples| ==> d.heartRateSamples[i].beatsPerMinute == BpmOrZero(samples[i]))
      && d.averageHeartRate == AverageHeartRate(samples)
  {
    var samples := FlatMap(heartRate, SamplesOrEmpty);
    DetailedExerciseInfo(session, ChosenCalories(ActiveKcal(active), ActiveKcal(total)),
      SumInt(steps, StepsOrZero), DistanceService.KmSum(distance),
      AverageHeartRate(samples), MapSeq(samples, ToPoint))
  }

  function SampleCount(r: HeartRateRecord): int {
    |SamplesOrEmpty(r)|
  }

  /**
   * The details: the session passes through; calories are the active sum when positive and
   * the total sum otherwise; steps and distance are the step-service and distance-service
   * sums; one point per sample of every record with samples, in record order; and the average
   * is null exactly when there is no sample, and otherwise Math.round of the mean bpm of the
   * returned points.
   */
  lemma ExerciseDetailsFields(session: BasicExerciseInfo,
                              active: seq<CaloriesService.CaloriesRecord>,
                              total: seq<CaloriesService.CaloriesRecord>,
                              steps: seq<StepService.StepsRecord>,
                              distance: seq<DistanceService.DistanceRecord>,
                              heartRate: seq<HeartRateRecord>)
    ensures var d := ExerciseDetails(session, active, total, steps, distance, heartRate);
      && d.session == session
      && (ActiveKcal(active) > 0.0 ==> d.calories == ActiveKcal(active))
      && (ActiveKcal(active) <= 0.0 ==> d.calories == ActiveKcal(total))
      && d.steps == StepService.TodaySteps(steps)
      && d.distance == DistanceService.KmSum(distance)
      && |d.heartRateSamples| == SumInt(heartRate, SampleCount)
      && (d.averageHeartRate.None? <==> SumInt(heartRate, SampleCount) == 0)
      && (d.averageHeartRate.Some? ==>
            var mean := SumInt(d.heartRateSamples, PointBpm) as real / |d.heartRateSamples| as real;
            mean - 0.5 < d.averageHeartRate.value as real <= mean + 0.5)
  {
    var samples := FlatMap(heartRate, SamplesOrEmpty);
    PointBpmSum(samples);
    StepsAgreeWithStepService(steps);
    FlatMapLength(heartRate, SamplesOrEmpty, SampleCount);
  }

  function PointBpm(p: SamplePoint): int {
    p.beatsPerMinute
  }

  /** The returned points carry the same bpm total as the samples the average is taken over. */
  lemma {:induction false} PointBpmSum(samples: seq<HeartRateSample>)
    ensures SumInt(MapSeq(samples, ToPoint), PointBpm) == SumInt(samples, BpmOrZero)
    decreases |samples|
  {
    if samples != [] {
      var front := samples[..|samples| - 1];
      PointBpmSum(front);
      var points := MapSeq(samples, ToPoint);
      assert points[..|points| - 1] == MapSeq(front, ToPoint);
    }
  }

  /** Heart-rate records without samples contribute no points. */
  lemma RecordWithoutSamplesIgnored(heartRate: seq<HeartRateRecord>)
    ensures FlatMap(heartRate + [HeartRateRecord(None)], SamplesOrEmpty) == FlatMap(heartRate, SamplesOrEmpty)
  {
    assert (heartRate + [HeartRateRecord(None)])[..|heartRate|] == heartRate;
  }
}
