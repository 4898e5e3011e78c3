/**
 * CaloriesService. `fetchTodayCalories` sums today's active and total calorie records,
 * converting each energy by its unit, and reports the larger sum rounded. `fetchCalorieSamplesByDate`
 * turns a day's active-calorie records into (calories, time) samples sorted by time.
 * Record times are milliseconds.
 */
module CaloriesService {
  import opened Wrappers
  import opened Reduce
  import JsNumber
  import TimeSort

  /** The `energy` of a calorie record, read as `{ value, unit }`. */
  datatype Energy = Energy(value: real, unit: string)

  datatype EnergyRecord = EnergyRecord(energy: Option<Energy>)

  /** The unit conversion: kilocalories as they are, joules over 4184, any other unit 0. */
  function Kcal(e: Energy): (k: real)
    ensures e.unit == "kilocalories" ==> k == e.value
    ensures e.unit == "joules" ==> k * 4184.0 == e.value
    ensures e.unit != "kilocalories" && e.unit != "joules" ==> k == 0.0
  {
    if e.unit == "kilocalories" then e.value
    else if e.unit == "joules" then e.value / 4184.0
    else 0.0
  }

  /** What one record adds: nothing without `energy`. */
  function RecordKcal(r: EnergyRecord): real {
    match r.energy
    case None => 0.0
    case Some(e) => Kcal(e)
  }

  /** `activeCalories` and `totalCalories`: the reduce over one result's records. */
  function EnergySum(records: seq<EnergyRecord>): real {
    SumReal(records, RecordKcal)
  }

  function Max(a: real, b: real): real {
    if a >= b then a else b
  }

  /**
   * `fetchTodayCalories`: 0 when either read fails; otherwise Math.round(Math.max(active,
   * total)), which is the rounding of one of the two sums, never a blend, and at least the
   * rounding of each.
   */
  function TodayCalories(active: Fetch<seq<EnergyRecord>>, total: Fetch<seq<EnergyRecord>>): (kcal: int)
    ensures active.FetchError? || total.FetchError? ==> kcal == 0
    ensures active.Fetched? && total.Fetched? ==>
      var a, t := EnergySum(active.records), EnergySum(total.records);
      (kcal == JsNumber.Round(a) || kcal == JsNumber.Round(t)) &&
      JsNumber.Round(a) <= kcal && JsNumber.Round(t) <= kcal
  {
    match (active, total)
    case (Fetched(a), Fetched(t)) =>
      var sa, st := EnergySum(a), EnergySum(t);
      JsNumber.RoundMonotone(sa, Max(sa, st));
      JsNumber.RoundMonotone(st, Max(sa, st));
      JsNumber.Round(Max(sa, st))
    case _ => 0
  }

  /** A record without energy leaves the running sum unchanged. */
  lemma MissingEnergyIgnored(records: seq<EnergyRecord>)
    ensures EnergySum(records + [EnergyRecord(None)]) == EnergySum(records)
  {
    assert (records + [EnergyRecord(None)])[..|records|] == records;
  }

  /** The sums do not depend on the order of the records. */
  lemma EnergySumOrderIndependent(a: seq<EnergyRecord>, b: seq<EnergyRecord>)
    requires multiset(a) == multiset(b)
    ensures EnergySum(a) == EnergySum(b)
  {
    SumRealPermutation(a, b, RecordKcal);
  }

  /** 120 kcal plus 4184 J of active energy, and no total records, give 121 kcal. */
  lemma JoulesExample()
    ensures TodayCalories(
      Fetched([EnergyRecord(Some(Energy(120.0, "kilocalories"))), EnergyRecord(Some(Energy(4184.0, "joules")))]),
      Fetched([])) == 121
  {
    var a := [EnergyRecord(Some(Energy(120.0, "kilocalories"))), EnergyRecord(Some(Energy(4184.0, "joules")))];
    assert a[..1] == [a[0]] && a[..1][..0] == [];
    assert RecordKcal(a[0]) == 120.0 && RecordKcal(a[1]) == 1.0;
    assert SumReal(a[..1], RecordKcal) == SumReal(a[..1][..0], RecordKcal) + RecordKcal(a[0]);
    assert EnergySum(a[..1]) == 120.0;
    assert EnergySum(a) == 121.0;
  }

  /** An active-calories record as `fetchCalorieSamplesByDate` reads it. */
  datatype CaloriesRecord = CaloriesRecord(inKilocalories: Option<real>, startTime: int)

  /** `energy?.inKilocalories ?? 0`. */
  function KcalOrZero(r: CaloriesRecord): real {
    r.inKilocalories.GetOr(0.0)
  }

  datatype CalorieSample = CalorieSample(calories: real, time: int)

  /** One sample per record: its kcal to the nearest tenth, at the record's start. */
  function ToSample(r: CaloriesRecord): (s: CalorieSample)
    ensures s.time == r.startTime
    ensures -0.05 < s.calories - KcalOrZero(r) <= 0.05
    ensures exists n: int {:trigger n as real} :: s.calories == n as real / 10.0
  {
    CalorieSample(JsNumber.RoundTenth(KcalOrZero(r)), r.startTime)
  }

  function SampleTime(s: CalorieSample): int {
    s.time
  }

  /** The samples of `fetchCalorieSamplesByDate`: [] on an error, else the mapped records by time. */
  function CalorieSamples(fetched: Fetch<seq<CaloriesRecord>>): (samples: seq<CalorieSample>)
    ensures fetched.FetchError? ==> samples == []
    ensures fetched.Fetched? ==> |samples| == |fetched.records|
    ensures TimeSort.SortedBy(samples, SampleTime)
  {
    match fetched
    case FetchError => []
    case Fetched(records) =>
      TimeSort.SortByKeySorted(MapSeq(records, ToSample), SampleTime);
      TimeSort.SortByKey(MapSeq(records, ToSample), SampleTime)
  }

  /** `fetchCalorieSamplesByDate`: map the records, then sort the new array in place by time. */
  method FetchCalorieSamplesByDate(fetched: Fetch<seq<CaloriesRecord>>) returns (samples: seq<CalorieSample>)
    ensures samples == CalorieSamples(fetched)
  {
    if fetched.FetchError? {
      return [];
    }
    samples := MapSeq(fetched.records, ToSample);
    samples := TimeSort.SortedCopy(samples, SampleTime);
  }

  /**
   * One sample per record, in ascending time, holding exactly the mapped records (as a
   * permutation, so repeated records are kept as often as they occur).
   */
  lemma CalorieSamplesSortedPermutation(records: seq<CaloriesRecord>)
    ensures |CalorieSamples(Fetched(records))| == |records|
    ensures TimeSort.SortedBy(CalorieSamples(Fetched(records)), SampleTime)
    ensures multiset(CalorieSamples(Fetched(records))) == multiset(MapSeq(records, ToSample))
  {
    TimeSort.SortByKeySorted(MapSeq(records, ToSample), SampleTime);
    TimeSort.SortByKeyPermutation(MapSeq(records, ToSample), SampleTime);
  }
}
