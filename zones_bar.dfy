/**
 * HeartRateZonesBar: the day-history zone bar. Every bpm reading counts one unit (one
 * "minute" in the legend) into the zone of the shared if-chain; readings under the light
 * zone are skipped. The bar widths are the raw counts.
 */
module HeartRateZonesBar {
  import opened Wrappers
  import opened ZoneClassifier
  import opened Reduce
  import JsNumber
  import Text

  /** The `zoneDurations` counters. */
  datatype ZoneCounts = ZoneCounts(light: int, moderate: int, aerobic: int, anaerobic: int, vo2max: int) {
    function Get(z: Zone): int {
      match z
      case Light => light
      case Moderate => moderate
      case Aerobic => aerobic
      case Anaerobic => anaerobic
      case Vo2Max => vo2max
    }

    function Total(): int {
      light + moderate + aerobic + anaerobic + vo2max
    }
  }

  /** 1 for a reading the chain puts in zone z, else 0. */
  function InZone(age: int, z: Zone): int -> int {
    bpm => if ClassifyBpm(bpm, age) == Some(z) then 1 else 0
  }

  /** 1 for a reading at or above the light zone's lower bound, else 0. */
  function Qualifies(age: int): int -> int {
    bpm => if ClassifyBpm(bpm, age).Some? then 1 else 0
  }

  /** Each counter, as the number of readings in its zone; none is negative or above data.length. */
  function Counts(age: int, data: seq<int>): (c: ZoneCounts)
    ensures forall z :: 0 <= c.Get(z) <= |data|
  {
    forall z
      ensures 0 <= SumInt(data, InZone(age, z)) <= |data|
    {
      SumIntBounds(data, InZone(age, z), 0, 1);
    }
    ZoneCounts(SumInt(data, InZone(age, Light)), SumInt(data, InZone(age, Moderate)),
      SumInt(data, InZone(age, Aerobic)), SumInt(data, InZone(age, Anaerobic)),
      SumInt(data, InZone(age, Vo2Max)))
  }

  /** The `data.forEach` loop incrementing one counter per qualifying reading. */
  method CountZones(age: int, data: seq<int>) returns (c: ZoneCounts)
    ensures c == Counts(age, data)
  {
    c := ZoneCounts(0, 0, 0, 0, 0);
    for i := 0 to |data|
      invariant c == Counts(age, data[..i])
    {
      assert data[..i + 1][..i] == data[..i];
      var bpm := data[i];
      var m := MaxHeartRate(age);
      if 10 * bpm < 5 * m {
        continue;
      } else if 10 * bpm < 6 * m {
        c := c.(light := c.light + 1);
      } else if 10 * bpm < 7 * m {
        c := c.(moderate := c.moderate + 1);
      } else if 10 * bpm < 8 * m {
        c := c.(aerobic := c.aerobic + 1);
      } else if 10 * bpm < 9 * m {
        c := c.(anaerobic := c.anaerobic + 1);
      } else {
        c := c.(vo2max := c.vo2max + 1);
      }
    }
    assert data[..|data|] == data;
  }

  /**
   * One more reading adds exactly 1 to the counter of its zone and leaves the others alone;
   * a reading under the light zone changes nothing.
   */
  lemma CountsStep(age: int, data: seq<int>, bpm: int, z: Zone)
    ensures Counts(age, data + [bpm]).Get(z) ==
      Counts(age, data).Get(z) + (if ClassifyBpm(bpm, age) == Some(z) then 1 else 0)
    ensures ClassifyBpm(bpm, age).None? ==> Counts(age, data + [bpm]) == Counts(age, data)
  {
    assert (data + [bpm])[..|data|] == data;
  }

  /** A reading is in at most one zone, and in one exactly when it qualifies. */
  lemma InZonesSum(age: int, bpm: int)
    ensures InZone(age, Light)(bpm) + InZone(age, Moderate)(bpm) + InZone(age, Aerobic)(bpm)
      + InZone(age, Anaerobic)(bpm) + InZone(age, Vo2Max)(bpm) == Qualifies(age)(bpm)
  {
  }

  /**
   * The five counters add up to the number of qualifying readings, which lies between 0
   * and the number of readings.
   */
  lemma {:induction false} CountsTotal(age: int, data: seq<int>)
    ensures Counts(age, data).Total() == SumInt(data, Qualifies(age))
    ensures 0 <= SumInt(data, Qualifies(age)) <= |data|
  {
    if data != [] {
      CountsTotal(age, data[..|data| - 1]);
      InZonesSum(age, data[|data| - 1]);
    }
  }

  /** The counters do not depend on the order of the readings. */
  lemma CountsPermutation(age: int, a: seq<int>, b: seq<int>)
    requires multiset(a) == multiset(b)
    ensures Counts(age, a) == Counts(age, b)
  {
    SumIntPermutation(a, b, InZone(age, Light));
    SumIntPermutation(a, b, InZone(age, Moderate));
    SumIntPermutation(a, b, InZone(age, Aerobic));
    SumIntPermutation(a, b, InZone(age, Anaerobic));
    SumIntPermutation(a, b, InZone(age, Vo2Max));
  }

  /**
   * `data.length || 1`: a positive divisor, never below the reading count, and equal to it
   * exactly when there is a reading.
   */
  function TotalMinutes(data: seq<int>): (m: int)
    ensures m >= 1 && m >= |data|
    ensures m == |data| <==> data != []
  {
    if |data| == 0 then 1 else |data|
  }

  /** No counter, nor their sum, exceeds totalMinutes, which is always at least 1. */
  lemma CountsWithinTotalMinutes(age: int, data: seq<int>)
    ensures TotalMinutes(data) >= 1
    ensures Counts(age, data).Total() <= TotalMinutes(data)
    ensures forall z :: Counts(age, data).Get(z) <= TotalMinutes(data)
  {
    CountsTotal(age, data);
    var c := Counts(age, data);
    assert c.Get(Light) >= 0 && c.Get(Moderate) >= 0 && c.Get(Aerobic) >= 0;
    assert c.Get(Anaerobic) >= 0 && c.Get(Vo2Max) >= 0;
  }

  /** `formatDuration(minutes)`: "H hour M min", with the hours part only when positive. */
  function FormatMinutes(minutes: real): (legend: string)
    ensures var tail := Text.IntToString(JsNumber.SplitSixty(minutes).1) + " min";
      |tail| <= |legend| && legend[|legend| - |tail|..] == tail &&
      (|tail| < |legend| <==> JsNumber.SplitSixty(minutes).0 > 0)
  {
    var (hrs, mins) := JsNumber.SplitSixty(minutes);
    (if hrs > 0 then Text.IntToString(hrs) + " hour " else "") + Text.IntToString(mins) + " min"
  }

  /** On a count m the legend shows m / 60 hours (only if positive) and m % 60 minutes. */
  lemma FormatMinutesWhole(m: nat)
    ensures m < 60 ==> FormatMinutes(m as real) == Text.NatToString(m) + " min"
    ensures m >= 60 ==>
      FormatMinutes(m as real) == Text.NatToString(m / 60) + " hour " + Text.NatToString(m % 60) + " min"
  {
    JsNumber.SplitSixtyWhole(m);
  }
}
