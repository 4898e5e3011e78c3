# Health-metrics core of fittrackerapp, in Dafny

fittrackerapp is a React Native client that reads a user's Health Connect records and
turns them into the figures its screens show. It has no separate engine. The figures come
from a set of small derivations spread over the HealthConnect services, three chart
components and four history screens. This project models those derivations and proves
what each one computes:

- heart-rate zones, in the three variants the code carries:
  - the duration-weighted zone bar of an exercise;
  - the sample-count zone bar of a day;
  - the five-zone table with a 0.85 boundary;
- the sleep-stage summariser of the sleep history screen;
- the per-metric reductions of the services:
  - calories, with the maximum rule of the dashboard and the active-else-total rule of an exercise;
  - steps, distance, sleep hours;
  - the heart-rate flatten, sort and average;
  - the latest VO2 max (sorted first) and the latest SpO2 (not sorted);
- the statistics of the history screens (min, average, max, latest);
- the two screen state machines:
  - the two-tap step range picker;
  - the ±50 px day swipe;
- the chart helpers:
  - decimal hours;
  - hex colour channels;
  - label placement;
  - minute/second labels.

Conventions of the model:

- Fetched records are inputs. A read that the source wraps in `try`/`catch` is a
  `Fetch` value, either the records or an error.
- Optional payloads (`energy?`, `count`, `samples ?? []`, `distance?`) are `Option` fields.
- Times are integer milliseconds and dates are integer day numbers (`Days`).
- The zone thresholds are compared exactly in tenths: `bpm < 0.6 * maxHR` is
  `10 * bpm < 6 * maxHR`.
- Calories, kilometres and seconds are exact reals.
- `JsNumber` gives the JavaScript number operations on exact reals:
  - `Math.floor`;
  - `Math.round`, which rounds halves up;
  - the `%` remainder, which keeps the sign of the dividend;
  - `toFixed(1)`;
  - `Math.round(x * 10) / 10`.

Three behaviours of the code are easy to miss.

- The oxygen-saturation lookup does not sort by time, while the VO2 max lookup does.
- In the exercise zone bar a qualifying sample is credited the time to the next sample,
  whether or not that one qualifies, and a skipped sample credits nothing. So
  `ExerciseHeartRateZonesBar.DurationsBounded` bounds the total by the span from the first
  to the last sample time; the total need not equal it.
- Two calorie-combination rules coexist, as listed below.

Where the code disagrees with itself, the model keeps each variant as written.

- `CaloriesService` takes the maximum of the active and total sums. The exercise details
  take the active sum when it is positive and the total otherwise. `CaloriesRulesDiffer`
  shows an input on which the two rules differ.
- Oxygen saturation returns the last record in provider order. `NotNecessarilyLatest` shows
  that this need not be the latest.
- The exercise chart with one to four samples divides 0 by 0 and reads a property of
  `undefined`. This is the `Crashed` outcome of `ExerciseHeartRateChart.ExerciseChart`.

The code is imperative in some places:

- the zone loops;
- the stage accumulation of `loadSleepData`;
- the marked-dates `while` loop;
- the label arrays;
- the in-place sorts;
- the two state machines.

Each of these is a method with loop invariants, or a class whose method updates its
fields. It is proved equal to a recursive specification function, and the properties are
lemmas about that function. The pure parts are functions with contracts.

The sort by time is `TimeSort`, a stable insertion sort. `Array.prototype.sort` is stable in
the engines the app targets. `TimeSort` is proved sorted and a permutation, and proved to end
with the record of greatest time that comes last in input order.

## Model

| member | source | states |
|---|---|---|
| ZoneClassifier.ZoneBounds | src/components/charts/ExerciseHeartRateZonesBar.tsx:25-33 | each zone's min and max are its lower and upper fraction (0.5 … 0.9, 1.0) of maxHR = 220 − age; vo2max ends at maxHR |
| ZoneClassifier.ZonesContiguous | src/components/charts/HeartRateZonesBar.tsx:18-24 | each zone's max is the next zone's min |
| ZoneClassifier.ClassifyBpm | src/components/charts/ExerciseHeartRateZonesBar.tsx:46-59 | a reading is skipped exactly when bpm < 0.5·maxHR; otherwise, for maxHR ≥ 0, it lies at or above its zone's min, and below its max in every zone but vo2max |
| ZoneClassifier.ClassifyIsBand | src/components/charts/HeartRateZonesBar.tsx:34-40 | for maxHR ≥ 0 the if-chain puts a reading in zone z if and only if min ≤ bpm < max of z (vo2max: min ≤ bpm) |
| ExerciseHeartRateZonesBar.ZoneSeconds.Add | src/components/charts/ExerciseHeartRateZonesBar.tsx:55-59 | `zoneDurations[z] += d` changes the bucket of z by d and no other bucket |
| ExerciseHeartRateZonesBar.IntervalSeconds | src/components/charts/ExerciseHeartRateZonesBar.tsx:49-53 | a sample's interval is (t[i+1] − t[i]) / 1000 seconds, and 0 for the last sample time |
| ExerciseHeartRateZonesBar.ZoneDurations | src/components/charts/ExerciseHeartRateZonesBar.tsx:35-60 | the `for` loop computes the recursive bucket function over all readings |
| ExerciseHeartRateZonesBar.StepChangesOneBucket | src/components/charts/ExerciseHeartRateZonesBar.tsx:44-60 | a skipped reading changes no bucket; otherwise only its zone's bucket grows, by its interval |
| ExerciseHeartRateZonesBar.Durations | src/components/charts/ExerciseHeartRateZonesBar.tsx:44-62 | after the loop the five buckets add up to the sum of the intervals of all readings ≥ 0.5·maxHR |
| ExerciseHeartRateZonesBar.DurationsPartition | src/components/charts/ExerciseHeartRateZonesBar.tsx:44-60 | each bucket is the sum of the intervals of that zone's readings |
| ExerciseHeartRateZonesBar.DurationsBounded | src/components/charts/ExerciseHeartRateZonesBar.tsx:49-62 | with ascending times every bucket is ≥ 0 and totalSeconds · 1000 is at most the span from the first time to the last time reached |
| ExerciseHeartRateZonesBar.Percentage | src/components/charts/ExerciseHeartRateZonesBar.tsx:62-70 | a width is its bucket's share of the total times 100, 0 when the total is not positive, and between 0 and 100 when no bucket is negative |
| ExerciseHeartRateZonesBar.PercentagesSum | src/components/charts/ExerciseHeartRateZonesBar.tsx:62-70 | with a total that is not positive every width is 0; otherwise the five widths sum to 100 |
| ExerciseHeartRateZonesBar.FormatDurationWhole | src/components/charts/ExerciseHeartRateZonesBar.tsx:18-22 | on whole seconds s the legend is "s/60 min s%60 sec", without the seconds part exactly when s % 60 = 0 |
| ExerciseHeartRateZonesBar.FormatDuration | src/components/charts/ExerciseHeartRateZonesBar.tsx:18-22 | the legend is "M min " for M = ⌊s/60⌋, followed by "S sec" exactly when the rounded remainder S = round(s mod 60) is positive |
| ExerciseHeartRateZonesBar.FormatDurationOmitsZeroSeconds | src/components/charts/ExerciseHeartRateZonesBar.tsx:18-22 | for any duration ≥ 0 whose rounded remainder is 0 the legend is "M min " alone |
| ExerciseHeartRateZonesBar.AerobicExample | src/components/charts/ExerciseHeartRateZonesBar.tsx:44-60 | age 30, readings 70, 150, 90 five minutes apart: only the aerobic bucket is credited, with 300 s |
| JsNumber.Round | src/screens/athlete/HeartRateHistoryScreen.tsx:63 | `Math.round` gives the integer r with x − 0.5 < r ≤ x + 0.5, so halves round up |
| JsNumber.RoundedMeanBetween | src/services/HealthConnect/ExerciseSessionService.ts:130-138 | the rounded mean of n readings, each in [lo, hi], lies in [lo, hi] |
| JsNumber.ToFixed1 | src/services/HealthConnect/SleepService.ts:23 | `parseFloat(x.toFixed(1))` is a multiple of 0.1 within 0.05 of x, with the sign of x kept |
| JsNumber.RoundTenth | src/services/HealthConnect/CaloriesService.ts:94 | `Math.round(x * 10) / 10` is a multiple of 0.1 with x − 0.05 < r ≤ x + 0.05 |
| JsNumber.ToFixed1Halves | src/services/HealthConnect/SleepService.ts:23 | ties that a double holds exactly go away from zero: 1.25 gives 1.3, 7.25 gives 7.3 and −7.25 gives −7.3 |
| JsNumber.SplitSixty | src/components/charts/ExerciseHeartRateZonesBar.tsx:19-20 | `Math.floor(x / 60)` is the whole minutes of x; for x ≥ 0, `Math.round(x % 60)` lies in 0..60 and within 0.5 of x − 60·⌊x/60⌋ |
| JsNumber.SplitSixtyWhole | src/components/charts/HeartRateZonesBar.tsx:10-11 | on a whole number the two parts are its quotient and remainder by 60 |
| HeartRateZonesBar.CountZones | src/components/charts/HeartRateZonesBar.tsx:26-41 | the `forEach` loop computes, for each zone, the number of readings the if-chain puts in that zone |
| HeartRateZonesBar.CountsStep | src/components/charts/HeartRateZonesBar.tsx:34-41 | one more reading adds exactly 1 to its zone's counter; a skipped reading changes nothing |
| HeartRateZonesBar.InZonesSum | src/components/charts/HeartRateZonesBar.tsx:35-40 | a reading is counted in at most one zone, and in one exactly when bpm ≥ 0.5·maxHR |
| HeartRateZonesBar.CountsTotal | src/components/charts/HeartRateZonesBar.tsx:34-41 | the five counters sum to the number of readings ≥ 0.5·maxHR, which is between 0 and data.length |
| HeartRateZonesBar.Counts | src/components/charts/HeartRateZonesBar.tsx:26-41 | no counter is negative or above the number of readings |
| HeartRateZonesBar.CountsPermutation | src/components/charts/HeartRateZonesBar.tsx:34-41 | any reordering of the readings gives the same counters |
| HeartRateZonesBar.TotalMinutes | src/components/charts/HeartRateZonesBar.tsx:43 | `data.length \|\| 1` is at least 1 and at least the reading count, and equals the count exactly when there is a reading |
| HeartRateZonesBar.CountsWithinTotalMinutes | src/components/charts/HeartRateZonesBar.tsx:43 | totalMinutes bounds every counter and their sum |
| HeartRateZonesBar.FormatMinutesWhole | src/components/charts/HeartRateZonesBar.tsx:9-13 | on m whole minutes the legend is "m min" below 60, else "m/60 hour m%60 min" |
| HeartRateZonesBar.FormatMinutes | src/components/charts/HeartRateZonesBar.tsx:9-13 | the legend ends with "m min" for m = round(minutes mod 60), and has an hours part before it exactly when ⌊minutes/60⌋ > 0 |
| HeartRateZoneTable.HeartRateZones | src/utils/heartRateZones.ts:8-18 | five zones named Rest, Fat Burn, Cardio, Aerobic, Anaerobic, from 0 to 220 − age, each ending where the next begins, at 0.5, 0.6, 0.7, 0.85 of maxHR |
| HeartRateZoneTable.ZonesWellFormed | src/utils/heartRateZones.ts:9-16 | every zone has min ≤ max if and only if age ≤ 220 |
| SleepHistory.StageOf | src/screens/athlete/SleepHistoryScreen.tsx:37-52 | code 1 is awake, 4 light, 2, 3 and 5 deep, 6 rem; every other code is unknown |
| SleepHistory.StageTotals.Add | src/screens/athlete/SleepHistoryScreen.tsx:95 | crediting a stage changes its total by the stage length and leaves the other three totals unchanged |
| SleepHistory.IgnoredStage | src/screens/athlete/SleepHistoryScreen.tsx:88-96 | an unknown code, an invalid time or an end not after the start leaves all totals unchanged |
| SleepHistory.AddStage | src/screens/athlete/SleepHistoryScreen.tsx:88-96 | one stage record never lowers a total |
| SleepHistory.AddStages | src/screens/athlete/SleepHistoryScreen.tsx:87-98 | a session's stage loop never lowers a total |
| SleepHistory.AccumulateStages | src/screens/athlete/SleepHistoryScreen.tsx:87-98 | the inner `forEach` over a session's stages computes the stage fold from the totals so far |
| SleepHistory.AddStagesIsSum | src/screens/athlete/SleepHistoryScreen.tsx:87-98 | a session's stage loop adds, per stage, the sum of what each of its records credits |
| SleepHistory.CombinedTotalsIsSum | src/screens/athlete/SleepHistoryScreen.tsx:60-101 | each total starts at 0 and is the sum over all stage records of all sessions, with no de-duplication of overlaps |
| SleepHistory.CombinedTotalsAppend | src/screens/athlete/SleepHistoryScreen.tsx:70-101 | the totals of two batches of sessions add up |
| SleepHistory.CombinedTotals | src/screens/athlete/SleepHistoryScreen.tsx:60-101 | no stage total is negative |
| SleepHistory.EarliestStart | src/screens/athlete/SleepHistoryScreen.tsx:74-78 | undefined exactly when no start is valid; otherwise a valid session start no later than any other |
| SleepHistory.LatestEnd | src/screens/athlete/SleepHistoryScreen.tsx:79-83 | undefined exactly when no end is valid; otherwise a valid session end no earlier than any other |
| SleepHistory.TotalDuration | src/screens/athlete/SleepHistoryScreen.tsx:116-118 | ≥ 0; positive exactly when both ends are defined and the end is after the start, and then the end minus the start |
| SleepHistory.EnvelopeCoversSessions | src/screens/athlete/SleepHistoryScreen.tsx:116-118 | the total duration is at least the length of every session with valid, forward times |
| SleepHistory.KeepPositive | src/screens/athlete/SleepHistoryScreen.tsx:103-108 | the filter keeps exactly the entries with a positive duration |
| SleepHistory.SummaryIsDisplayOrder | src/screens/athlete/SleepHistoryScreen.tsx:103-113 | the summary is the stages with positive totals, each with its total, in the order deep, light, rem, awake |
| SleepHistory.KeepPositiveMultiset | src/screens/athlete/SleepHistoryScreen.tsx:103-113 | the filtered key-order entries and the display-order list are the same entries |
| SleepHistory.LoadSleepData | src/screens/athlete/SleepHistoryScreen.tsx:56-134 | the nested loops, the envelope updates and the sort compute the recursive summary function |
| SleepHistory.EnvelopeSpan | src/screens/athlete/SleepHistoryScreen.tsx:74-118 | a positive total duration is the distance from some session's valid start to some session's valid end |
| SleepHistory.ProcessSleep | src/screens/athlete/SleepHistoryScreen.tsx:56-134 | null exactly for a fetch error or no sessions; otherwise the earliest valid start, the latest valid end, their total duration, and the positive stage totals of all sessions in display order |
| SleepService.TodaySleepHours | src/services/HealthConnect/SleepService.ts:16-23 | the result is a multiple of 0.1 within 0.05 of Σ(end − start) / 3 600 000, and 0 for no sessions |
| SleepService.TotalAppend | src/services/HealthConnect/SleepService.ts:16-20 | the millisecond total is additive over concatenation |
| SleepService.TotalSleepMillis | src/services/HealthConnect/SleepService.ts:16-20 | 0 for no sessions, and ≥ 0 when no session ends before it starts |
| SleepService.QuarterPastExample | src/services/HealthConnect/SleepService.ts:22-23 | a session of 1 h 15 min reads 1.3 hours: the tie at 1.25 goes away from zero |
| SleepService.InvertedSessionLowersTotal | src/services/HealthConnect/SleepService.ts:19 | a session ending before it starts lowers the total |
| SleepService.TotalOrderIndependent | src/services/HealthConnect/SleepService.ts:16-20 | the total does not depend on session order |
| SleepService.ForwardSessionsNonNegative | src/services/HealthConnect/SleepService.ts:16-23 | with forward sessions the total and the hours are ≥ 0 |
| SleepService.TwoSessionsExample | src/services/HealthConnect/SleepService.ts:16-23 | sessions of 6 h and 1.5 h give 7.5 |
| CaloriesService.Kcal | src/services/HealthConnect/CaloriesService.ts:34-39 | kilocalories are kept, joules are divided by 4184, any other unit gives 0 |
| CaloriesService.TodayCalories | src/services/HealthConnect/CaloriesService.ts:30-65 | any read error gives 0; otherwise the result is the rounding of the active sum or of the total sum, never a blend, and at least the rounding of each |
| CaloriesService.MissingEnergyIgnored | src/services/HealthConnect/CaloriesService.ts:31-32 | a record without energy leaves the sum unchanged |
| CaloriesService.EnergySumOrderIndependent | src/services/HealthConnect/CaloriesService.ts:30-42 | the energy sum does not depend on record order |
| CaloriesService.JoulesExample | src/services/HealthConnect/CaloriesService.ts:30-61 | active records of 120 kcal and 4184 J with no total records give 121 |
| CaloriesService.ToSample | src/services/HealthConnect/CaloriesService.ts:87-97 | a sample's time is the record's start time and its calories are `inKilocalories` (0 if absent) rounded to a multiple of 0.1 |
| CaloriesService.CalorieSamples | src/services/HealthConnect/CaloriesService.ts:76-103 | an error gives no samples; otherwise one sample per record, sorted by time |
| CaloriesService.FetchCalorieSamplesByDate | src/services/HealthConnect/CaloriesService.ts:76-103 | the map and the sort compute the sorted samples, and an error gives none |
| CaloriesService.CalorieSamplesSortedPermutation | src/services/HealthConnect/CaloriesService.ts:87-99 | one sample per record, sorted by time, a permutation of the mapped records |
| Days.DayWindow | src/services/HealthConnect/CaloriesService.ts:71-74 | the query runs from local midnight of the date to the next midnight, one day later |
| Days.InWindowIffDay | src/services/HealthConnect/HeartRateService.ts:7-11 | an instant is in the day's window exactly when it falls on that day |
| Days.WindowsTile | src/services/HealthConnect/HeartRateService.ts:7-11 | consecutive day windows meet, and the end of a day is before the next day's window |
| Days.EndOfDay | src/services/HealthConnect/DistanceService.ts:9-10 | the end of a day is the last millisecond before the next midnight |
| StepService.CountOrZero | src/services/HealthConnect/StepService.ts:26 | a missing count contributes 0, a present one its value |
| StepService.MissingCountAddsNothing | src/services/HealthConnect/StepService.ts:26 | no records give 0 and a record without count adds nothing |
| StepService.TodayStepsAppend | src/services/HealthConnect/StepService.ts:26 | the step total is additive over concatenation |
| StepService.TodaySteps | src/services/HealthConnect/StepService.ts:26 | 0 for no records, and ≥ 0 when every count (0 if missing) is ≥ 0 |
| StepService.TodayStepsOrderIndependent | src/services/HealthConnect/StepService.ts:26 | the step total does not depend on record order |
| DistanceService.TotalDistance | src/services/HealthConnect/DistanceService.ts:8-32 | an error gives 0, no records give 0, and non-negative distances give a non-negative total |
| DistanceService.SumRealNonNegativeIf | src/services/HealthConnect/DistanceService.ts:21-24 | when every record's km (0 if missing) is ≥ 0, so is the sum |
| DistanceService.KmSum | src/services/HealthConnect/DistanceService.ts:21-24 | 0 for no records, and ≥ 0 when every record's km (0 if missing) is ≥ 0 |
| DistanceService.KmSumProperties | src/services/HealthConnect/DistanceService.ts:21-24 | a missing distance adds 0, the sum is additive and order-independent |
| OxygenSaturationService.LatestOxygenSaturation | src/services/HealthConnect/OxygenSaturationService.ts:23-30 | null exactly for no records; otherwise the percentage and time of the last record in provider order |
| OxygenSaturationService.NotNecessarilyLatest | src/services/HealthConnect/OxygenSaturationService.ts:25 | records at times 2000 then 1000 give the reading at 1000, not the latest |
| OxygenSaturationService.LatestWhenOrdered | src/services/HealthConnect/OxygenSaturationService.ts:25 | when the provider returns records in time order the result has the greatest time |
| Vo2MaxService.FetchLatestVo2Max | src/services/HealthConnect/Vo2MaxService.ts:18-31 | the provider array is sorted by time in place, and the result is the reading of its last element, or null for none |
| Vo2MaxService.LatestVo2MaxIsLatest | src/services/HealthConnect/Vo2MaxService.ts:18-31 | null exactly for no records; otherwise the vo2 and time of a record of greatest time, the last such in input order |
| Vo2MaxService.LatestVo2Max | src/services/HealthConnect/Vo2MaxService.ts:18-31 | null exactly for no records; otherwise the reading of one of the records |
| HeartRateService.ToPoint | src/services/HealthConnect/HeartRateService.ts:24-27 | each point has bpm = beatsPerMinute and the sample's time |
| HeartRateService.FetchHeartRateSamplesByDate | src/services/HealthConnect/HeartRateService.ts:21-27 | the flatten, the in-place sort and the map compute the sorted point sequence |
| HeartRateService.MapKeepsOrder | src/services/HealthConnect/HeartRateService.ts:24-27 | mapping sorted samples to points keeps them sorted |
| HeartRateService.SamplesByDate | src/services/HealthConnect/HeartRateService.ts:21-27 | one point per flattened sample, sorted ascending by time |
| HeartRateService.SamplesByDateSortedPermutation | src/services/HealthConnect/HeartRateService.ts:21-27 | the output has one point per sample of every record, sorted by time, a permutation of the mapped flattened samples |
| HeartRateService.LatestHeartRateIsLatest | src/services/HealthConnect/HeartRateService.ts:30-35 | null exactly when there is no sample; otherwise the point of a sample of greatest time, the last such flattened |
| HeartRateService.LatestHeartRate | src/services/HealthConnect/HeartRateService.ts:30-35 | null exactly when there is no sample; otherwise no point of the day is later |
| TimeSort.SortByKeySorted | src/services/HealthConnect/HeartRateService.ts:22 | the sort by time yields ascending times |
| TimeSort.SortByKeyPermutation | src/services/HealthConnect/CaloriesService.ts:99 | the sort by time reorders and neither loses nor adds records |
| TimeSort.SortByKeyLast | src/services/HealthConnect/Vo2MaxService.ts:21-25 | the last sorted record has the greatest time and, among ties, is the last in input order |
| TimeSort.SortInPlace | src/services/HealthConnect/Vo2MaxService.ts:21-23 | the in-place insertion sort leaves the array equal to the functional sort of its old contents |
| TimeSort.SortedCopy | src/services/HealthConnect/HeartRateService.ts:22 | sorting a copy in place yields the functional sort of the sequence |
| ExerciseSessionService.SessionId | src/services/HealthConnect/ExerciseSessionService.ts:57 | the id is the metadata id, or "start-end" when it is missing |
| ExerciseSessionService.BasicInfo | src/services/HealthConnect/ExerciseSessionService.ts:51-64 | fields copied from the session; calories set exactly when the active sum is positive, and then equal to it |
| ExerciseSessionService.ExerciseSessions | src/services/HealthConnect/ExerciseSessionService.ts:44-67 | one entry per session, in order, each the basic info of its session and its active-calorie records |
| ExerciseSessionService.ExerciseSessionsOnePerSession | src/services/HealthConnect/ExerciseSessionService.ts:44-67 | one entry per session, in order, each with its session's id and start time, and with calories exactly when that session's active sum is positive |
| ExerciseSessionService.ChosenCalories | src/services/HealthConnect/ExerciseSessionService.ts:108 | active calories if positive, otherwise total calories |
| ExerciseSessionService.CaloriesRulesDiffer | src/services/HealthConnect/ExerciseSessionService.ts:108 | with 100 active and 300 total the exercise detail gives 100 where the dashboard's maximum rule gives 300 |
| ExerciseSessionService.StepsAgreeWithStepService | src/services/HealthConnect/ExerciseSessionService.ts:110-117 | summing `count ?? 0` agrees with the step service's `count \|\| 0` sum |
| ExerciseSessionService.ToPoint | src/services/HealthConnect/ExerciseSessionService.ts:146-149 | a returned sample keeps its time and has bpm, or 0 when bpm is missing |
| ExerciseSessionService.AverageHeartRate | src/services/HealthConnect/ExerciseSessionService.ts:130-138 | null exactly for no samples; otherwise within 0.5 of the mean, missing bpm counting 0 but counting toward the length |
| ExerciseSessionService.AverageWithinRange | src/services/HealthConnect/ExerciseSessionService.ts:130-138 | if every bpm lies in [lo, hi], so does the rounded average |
| ExerciseSessionService.ExerciseDetailsFields | src/services/HealthConnect/ExerciseSessionService.ts:98-150 | the details carry the session, the active-else-total calories, the step-service step sum, the distance-service km sum, one point per sample, an average that is null exactly without samples and otherwise within 0.5 of the mean bpm of the returned points |
| ExerciseSessionService.RecordWithoutSamplesIgnored | src/services/HealthConnect/ExerciseSessionService.ts:126-128 | a heart-rate record without samples contributes none |
| ExerciseSessionService.ExerciseDetails | src/services/HealthConnect/ExerciseSessionService.ts:98-150 | the session passes through; calories are the active sum when positive, else the total sum; one returned point per flattened sample, in order, with its time and `beatsPerMinute ?? 0`; the average is the rounded mean of the flattened samples |
| ExerciseSessionService.PointBpmSum | src/services/HealthConnect/ExerciseSessionService.ts:130-149 | the returned points carry the same bpm total as the samples the average is taken over |
| DateNavigation.SwipedDay | src/screens/athlete/SleepHistoryScreen.tsx:159-168 | at gesture end, a swipe beyond +50 moves to the previous day and beyond −50 to the next; everything else leaves the day |
| DateNavigation.MirrorSwipeRestores | src/screens/athlete/HeartRateHistoryScreen.tsx:50-61 | a completed swipe followed by its mirror returns to the starting day |
| DateNavigation.SelectedDay.constructor | src/screens/athlete/SleepHistoryScreen.tsx:33 | the selected day starts on today |
| DateNavigation.SelectedDay.OnGestureEvent | src/screens/athlete/CalorieHistoryScreen.tsx:40-49 | the handler sets the selected day to the swiped day of the previous one |
| StepHistory.DefaultRange | src/screens/athlete/StepHistoryScreen.tsx:17-18 | the range starts six days before today and ends today, so it is ordered |
| StepHistory.DayPress | src/screens/athlete/StepHistoryScreen.tsx:50-62 | a tap closes the range exactly when a start is set, no end is set and the day is not before the start; otherwise the day is the new start and the end is cleared |
| StepHistory.DayPressOrdered | src/screens/athlete/StepHistoryScreen.tsx:50-62 | after any tap, a set end is not before the start |
| StepHistory.TwoTaps | src/screens/athlete/StepHistoryScreen.tsx:50-62 | from a complete range, taps a then b select a..b when a ≤ b, and restart at b otherwise |
| StepHistory.RangePicker.constructor | src/screens/athlete/StepHistoryScreen.tsx:17-21 | the picker starts on the default range with the calendar hidden |
| StepHistory.RangePicker.OnDayPressCalendar | src/screens/athlete/StepHistoryScreen.tsx:44-63 | the handler moves the range as a tap does, hides the calendar when the tap closes the range, and keeps start ≤ end |
| StepHistory.MarkedDays | src/screens/athlete/StepHistoryScreen.tsx:66-80 | the marked days are start..end inclusive, or only the start when no end is set |
| StepHistory.MarkedDates | src/screens/athlete/StepHistoryScreen.tsx:66-80 | a day is marked exactly when it lies in start..end, or equals the start while no end is set, and each mark is the selected style |
| StepHistory.MarkDates | src/screens/athlete/StepHistoryScreen.tsx:66-80 | the `while` loop marks exactly the marked days, each with the selected style |
| StepHistory.MarkedDayCount | src/screens/athlete/StepHistoryScreen.tsx:66-80 | an ordered range marks end − start + 1 days, a start alone marks one, the default range marks seven |
| StepHistory.QueryWindow | src/screens/athlete/StepHistoryScreen.tsx:26-29 | the query runs from the start day's midnight to 23:59:59.999 of the end day |
| StepHistory.QueryWindowCoversDays | src/screens/athlete/StepHistoryScreen.tsx:26-29 | an instant is queried exactly when its day lies between the start and end days |
| StepHistory.TotalStepsProperties | src/screens/athlete/StepHistoryScreen.tsx:94 | totalSteps is 0 for no days, additive, and non-negative for non-negative days |
| StepHistory.TotalSteps | src/screens/athlete/StepHistoryScreen.tsx:94 | 0 for no days, and ≥ 0 when every day's steps are ≥ 0 |
| HeartRateHistory.Average | src/screens/athlete/HeartRateHistoryScreen.tsx:63 | null exactly for no data; otherwise within 0.5 of the mean bpm |
| HeartRateHistory.MaxBpm | src/screens/athlete/HeartRateHistoryScreen.tsx:64 | null exactly for no data; otherwise a reading's bpm, and no bpm is above it |
| HeartRateHistory.MinBpm | src/screens/athlete/HeartRateHistoryScreen.tsx:65 | null exactly for no data; otherwise a reading's bpm, and no bpm is below it |
| HeartRateHistory.MinAverageMax | src/screens/athlete/HeartRateHistoryScreen.tsx:63-65 | the three are null together, and otherwise min ≤ average ≤ max |
| HeartRateHistory.LastSampleIsLatest | src/screens/athlete/HeartRateHistoryScreen.tsx:67 | the screen's last sample of the fetched day is the service's latest heart rate |
| HeartRateHistory.ZoneBar | src/screens/athlete/HeartRateHistoryScreen.tsx:126-132 | the bar is shown exactly for non-empty data, with age 23 and the bpm and time arrays of the data, pointwise |
| HeartRateHistory.ZoneBarWithinSamples | src/screens/athlete/HeartRateHistoryScreen.tsx:126-132 | the bar's totalMinutes is the number of readings and bounds the counted readings |
| CalorieHistory.Total | src/screens/athlete/CalorieHistoryScreen.tsx:52 | 0 for no data; otherwise within 0.5 of the calorie sum |
| CalorieHistory.MaxCalories | src/screens/athlete/CalorieHistoryScreen.tsx:53 | 0 for no data; otherwise a sample's calories, and no sample is above it |
| CalorieHistory.MinCalories | src/screens/athlete/CalorieHistoryScreen.tsx:54 | 0 for no data; otherwise a sample's calories, and no sample is below it |
| CalorieHistory.MinAtMostMax | src/screens/athlete/CalorieHistoryScreen.tsx:53-54 | min ≤ max always |
| CalorieHistory.LastSampleIsLatest | src/screens/athlete/CalorieHistoryScreen.tsx:55 | null exactly for no records; otherwise the sample of a record of greatest start time, the last such |
| ChartAxis.DecimalHourOfClockTime | src/components/charts/CalorieChart.tsx:21-23 | "H:M" in decimal digits reads as H + M / 60 |
| ChartAxis.DecimalHour | src/components/charts/CalorieChart.tsx:15-25 | an ISO time reads as its clock hours and minutes; an "H:M" time is a number exactly when H is digits, and is then at least H |
| ChartAxis.DecimalHourMissingMinutes | src/components/charts/HeartRateChart.tsx:22-23 | "H" with no minutes reads as H |
| ChartAxis.LabelIndexes | src/components/charts/CalorieChart.tsx:53 | the label indexes are 0, ⌊n/4⌋, ⌊n/2⌋, ⌊3n/4⌋ and n − 1 |
| ChartAxis.FillLabels | src/components/charts/CalorieChart.tsx:53-57 | the `fill` and the `forEach` produce the label function's array |
| ChartAxis.LabelsOnlyAtIndexes | src/components/charts/HeartRateChart.tsx:43-47 | a label is non-blank exactly at one of the five indexes |
| ChartAxis.LastLabelMidnight | src/components/charts/CalorieChart.tsx:54-56 | later writes win, so the last label is always "00:00" |
| ChartAxis.LabelsSpread | src/components/charts/CalorieChart.tsx:53-57 | with n ≥ 5 the labels at 0, ⌊n/4⌋, ⌊n/2⌋, ⌊3n/4⌋ are 00:00, 06:00, 12:00, 18:00 |
| ChartAxis.TwoSampleLabels | src/components/charts/HeartRateChart.tsx:43-47 | two samples give the labels "06:00", "00:00": index collisions keep the later label |
| ChartAxis.Chart | src/components/charts/CalorieChart.tsx:41-57 | nothing is rendered exactly for no data; otherwise the labels are those of n points and the values are the samples' y values in order |
| CalorieChart.LineColor | src/components/charts/CalorieChart.tsx:59-60 | the line colour is chartColor, or '#f46409' when it is absent or empty |
| CalorieChart.RemoveHash | src/components/charts/CalorieChart.tsx:29 | a leading '#' is removed, and a string without '#' is unchanged |
| CalorieChart.ParseHex | src/components/charts/CalorieChart.tsx:29 | a non-empty string of hex digits parses as its value |
| CalorieChart.ToInt32 | src/components/charts/CalorieChart.tsx:30-32 | the operand of `>>` and `&` is a signed 32-bit value, equal to the parsed number when that is below 2^31 |
| CalorieChart.Channels | src/components/charts/CalorieChart.tsx:30-32 | r, g and b each lie in 0..255 |
| CalorieChart.ChannelsRecombine | src/components/charts/CalorieChart.tsx:30-32 | for a 24-bit value v, 65536·r + 256·g + b = v |
| CalorieChart.SixDigitColourRoundTrip | src/components/charts/CalorieChart.tsx:28-34 | for "#" and six hex digits the channels recombine to the digits' value |
| CalorieChart.HexToRgba | src/components/charts/CalorieChart.tsx:28-35 | for "#" and six hex digits of value v the text is "rgba(" v div 65536, (v div 256) mod 256, v mod 256 and alpha ")" |
| CalorieChart.DefaultColourChannels | src/components/charts/CalorieChart.tsx:59 | the default orange is rgb(244, 100, 9) |
| CalorieChart.DefaultColourRgba | src/components/charts/CalorieChart.tsx:28-35 | the default orange at alpha 1 is "rgba(244, 100, 9, 1)" |
| CalorieChart.CalorieChartShape | src/components/charts/CalorieChart.tsx:41-57 | nothing is drawn exactly for no data; otherwise the values are the calories in input order and the n labels end with "00:00" |
| HeartRateChart.HeartRateChartShape | src/components/charts/HeartRateChart.tsx:30-47 | null exactly for no data; otherwise the values are the bpm in input order and the n labels end with "00:00" |
| ExerciseHeartRateChart.FormatTimeLabelWhole | src/components/charts/ExerciseHeartRateChart.tsx:14-18 | on whole seconds s the label is s/60 ":" and s % 60 padded to two digits |
| ExerciseHeartRateChart.FormatTimeLabelShape | src/components/charts/ExerciseHeartRateChart.tsx:14-18 | `formatTimeLabel` is ⌊s/60⌋, a colon and round(s mod 60) padded to two digits; for s ≥ 0 the seconds part is exactly two characters |
| ExerciseHeartRateChart.SixtySecondsShown | src/components/charts/ExerciseHeartRateChart.tsx:14-18 | 59.6 s is labelled "0:60" |
| ExerciseHeartRateChart.LabelCount | src/components/charts/ExerciseHeartRateChart.tsx:29 | labelCount lies in 1..5, and is 1 exactly when there are fewer than 5 samples |
| ExerciseHeartRateChart.LabelIndex | src/components/charts/ExerciseHeartRateChart.tsx:31 | for n ≥ 5 label i uses index ⌊(n − 1)·i / (labelCount − 1)⌋ |
| ExerciseHeartRateChart.LabelIndexesSpan | src/components/charts/ExerciseHeartRateChart.tsx:29-34 | the first index is 0, the last n − 1, and the indexes are non-decreasing and in range |
| ExerciseHeartRateChart.ExerciseChart | src/components/charts/ExerciseHeartRateChart.tsx:20-36 | nothing is rendered exactly for no data, 1 to 4 samples crash (0/0 index), and otherwise there are labelCount ≥ 2 labels and the bpm in input order |
| ExerciseHeartRateChart.FirstAndLastLabel | src/components/charts/ExerciseHeartRateChart.tsx:24-34 | the first label is "0:00" and the last shows the elapsed seconds of the last sample |

## Left out

- Provider I/O is not modelled: `readRecords`, `Promise.all`, async sequencing and the
  permission and SDK checks. Fetched records are inputs, and a failed read is an error value
  wherever the source catches it.
- SleepService, StepService, HeartRateService, Vo2MaxService, OxygenSaturationService and
  `fetchExerciseSessions`/`fetchExerciseDetails` have no `catch`, so a failed read there is an
  exception outside the model. Their inputs are the records of a successful read.
- The date and time libraries are not modelled: `new Date`, dayjs parsing and validity,
  the local time zone, daylight-saving days, `toISOString` and `toLocaleDateString`.
  - Times are integer milliseconds and a day is 86 400 000 ms.
  - A parsed time is valid or absent (`Option`).
  - The `'YYYY-MM-DD'` string comparison of the step range is modelled as day-number order,
    which it agrees with for well-formed dates.
  - UTC and local dates are not distinguished. `fetchLatestHeartRate` takes today's UTC
    date. `new Date('YYYY-MM-DD')` parses a date-only string as UTC midnight, while
    `setHours` works in local time (StepHistoryScreen.tsx:26-29, CaloriesService.ts:71-74,
    HeartRateService.ts:7-11). West of UTC this has two effects:
    - the step query starts at UTC midnight of the start date and ends at 23:59:59.999 of
      the day before the end date;
    - the calorie and heart-rate windows cover the previous day.
- Days.DayWindow: runs from local midnight of the day to the next, not from the local
  midnight of the day that holds the UTC parse of the date string.
- StepHistory.QueryWindow: runs from local midnight of the start day to 23:59:59.999 local
  time of the end day; the UTC parse of both date strings is not modelled.
- IEEE-754 rounding is not modelled: `0.6 * maxHR`, `value / 4184`, `toFixed` and `Math.round`
  on doubles are exact here, so float effects at exact zone boundaries are absent.
- `Number` and `parseInt` are modelled on the strings the app produces. `Number` reads
  digits (and "" as 0) and `parseInt(…, 16)` reads a hex-digit prefix. Signs, whitespace,
  decimal points and `0x` prefixes are not modelled.
- ChartAxis.DecimalHour takes the local hours and minutes of an ISO date as a parameter,
  because they come from the time zone. Its result is never used by the label placement.
- `getExerciseName` lives in a file that is not part of this model, so it is a parameter of
  ExerciseSessionService.BasicInfo.
- `estimateRestingHeartRate`, `fetchRestingHeartRateByDate` and `fetchDailySteps` are not
  part of this model, since their definitions are not among the source files. The step
  screen's `stepData` is an input.
- HeartRateService assumes each record has its `samples` array, as the source's types say.
  A record without it would make `flatMap` yield `undefined` entries, which is not modelled.
- ExerciseHeartRateZonesBar.ZoneDurations requires at least one sample time per reading.
  With fewer, the source reads `undefined` times and gets NaN intervals.
- Presentation is not modelled: React rendering, styles, the chart and calendar
  components, cards, navigators, theme, authentication screens and `console.log`.
- No code implements weekly sleep roll-ups, N-minute step buckets or a resting-rate
  window, so none is modelled.
