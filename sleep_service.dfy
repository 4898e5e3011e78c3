/**
 * SleepService's `fetchTodaySleepHours`: today's sleep sessions summed end minus start,
 * converted to hours and rounded to one decimal place. Session times are milliseconds.
 */
module SleepService {
  import opened Reduce
  import JsNumber

  datatype SleepSessionRecord = SleepSessionRecord(startTime: int, endTime: int)

  /** What one session adds to the sum: `end - start`, with no guard on the sign. */
  function SessionMillis(session: SleepSessionRecord): int {
    session.endTime - session.startTime
  }

  /** `totalSleepMillis`. */
  function TotalSleepMillis(records: seq<SleepSessionRecord>): (total: int)
    ensures records == [] ==> total == 0
    ensures (forall i :: 0 <= i < |records| ==> records[i].startTime <= records[i].endTime) ==> total >= 0
  {
    if forall i :: 0 <= i < |records| ==> records[i].startTime <= records[i].endTime then
      SumIntNonNegative(records, SessionMillis);
      SumInt(records, SessionMillis)
    else SumInt(records, SessionMillis)
  }

  const MsPerHour: int := 1000 * 60 * 60

  /**
   * `parseFloat((totalSleepMillis / 3600000).toFixed(1))`: the hours to within 0.05, as a
   * whole number of tenths.
   */
  function TodaySleepHours(records: seq<SleepSessionRecord>): (hours: real)
    ensures TotalSleepMillis(records) >= 0 ==>
      -0.05 < hours - TotalSleepMillis(records) as real / 3600000.0 <= 0.05
    ensures TotalSleepMillis(records) < 0 ==>
      -0.05 <= hours - TotalSleepMillis(records) as real / 3600000.0 < 0.05
    ensures exists n: int {:trigger n as real} :: hours == n as real / 10.0
    ensures records == [] ==> hours == 0.0
  {
    JsNumber.ToFixed1(TotalSleepMillis(records) as real / MsPerHour as real)
  }

  /** The sum over two lists of sessions is the sum of the two sums. */
  lemma TotalAppend(a: seq<SleepSessionRecord>, b: seq<SleepSessionRecord>)
    ensures TotalSleepMillis(a + b) == TotalSleepMillis(a) + TotalSleepMillis(b)
  {
    SumIntAppend(a, b, SessionMillis);
  }

  /** A session whose end is before its start lowers the total. */
  lemma InvertedSessionLowersTotal(records: seq<SleepSessionRecord>, session: SleepSessionRecord)
    requires session.endTime < session.startTime
    ensures TotalSleepMillis(records + [session]) < TotalSleepMillis(records)
  {
    assert (records + [session])[..|records|] == records;
  }

  /** The order in which the provider lists the sessions does not matter. */
  lemma TotalOrderIndependent(a: seq<SleepSessionRecord>, b: seq<SleepSessionRecord>)
    requires multiset(a) == multiset(b)
    ensures TotalSleepMillis(a) == TotalSleepMillis(b)
  {
    SumIntPermutation(a, b, SessionMillis);
  }

  /** With no inverted session the total, and so the hours, are not negative. */
  lemma ForwardSessionsNonNegative(records: seq<SleepSessionRecord>)
    requires forall i :: 0 <= i < |records| ==> records[i].startTime <= records[i].endTime
    ensures TotalSleepMillis(records) >= 0
    ensures TodaySleepHours(records) >= 0.0
  {
    SumIntNonNegative(records, SessionMillis);
  }

  /** One hour and a quarter, 1.25 h, is shown as 1.3: the tie goes away from zero. */
  lemma QuarterPastExample()
    ensures TodaySleepHours([SleepSessionRecord(0, 4500000)]) == 1.3
  {
    var s := [SleepSessionRecord(0, 4500000)];
    assert s[..0] == [];
    assert TotalSleepMillis(s) == 4500000;
    assert 4500000 as real / MsPerHour as real == 1.25;
    JsNumber.ToFixed1Halves();
  }

  /** Seven and a half hours of sleep, in two sessions, reads 7.5. */
  lemma TwoSessionsExample()
    ensures TodaySleepHours([SleepSessionRecord(0, 21600000), SleepSessionRecord(25200000, 30600000)]) == 7.5
  {
    var s := [SleepSessionRecord(0, 21600000), SleepSessionRecord(25200000, 30600000)];
    assert s[..1] == [SleepSessionRecord(0, 21600000)] && s[..1][..0] == [];
    assert SumInt(s[..1], SessionMillis) == 21600000;
    assert TotalSleepMillis(s) == 27000000;
  }
}
