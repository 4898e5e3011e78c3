/**
 * The five exercise zones shared by the two zone bars: the `zones` table built from
 * maxHR = 220 - age, and the if-chain that puts one bpm reading into the first zone whose
 * upper bound it is below (readings under the light zone's lower bound go nowhere).
 * Fractions of maxHR are compared exactly in tenths: bpm < 0.6 * maxHR is 10 * bpm < 6 * maxHR.
 */
module ZoneClassifier {
  import opened Wrappers

  datatype Zone = Light | Moderate | Aerobic | Anaerobic | Vo2Max

  /** The estimated maximum heart rate. */
  function MaxHeartRate(age: int): int {
    220 - age
  }

  /** A zone's lower bound in tenths of maxHR: 0.5, 0.6, 0.7, 0.8 and 0.9. */
  function LowerTenths(z: Zone): (t: int)
    ensures 5 <= t <= 9
  {
    match z
    case Light => 5
    case Moderate => 6
    case Aerobic => 7
    case Anaerobic => 8
    case Vo2Max => 9
  }

  /** A zone's upper bound in tenths of maxHR: the next zone's lower bound, and 1.0 for vo2max. */
  function UpperTenths(z: Zone): (t: int)
    ensures t == LowerTenths(z) + 1
  {
    match z
    case Light => 6
    case Moderate => 7
    case Aerobic => 8
    case Anaerobic => 9
    case Vo2Max => 10
  }

  /** The zone following z in the table, if any. */
  function Next(z: Zone): Option<Zone> {
    match z
    case Light => Some(Moderate)
    case Moderate => Some(Aerobic)
    case Aerobic => Some(Anaerobic)
    case Anaerobic => Some(Vo2Max)
    case Vo2Max => None
  }

  datatype Bounds = Bounds(min: real, max: real)

  /** An entry of the `zones` object: { min: lower * maxHR, max: upper * maxHR }. */
  function ZoneBounds(z: Zone, age: int): (b: Bounds)
    ensures b.min == LowerTenths(z) as real * MaxHeartRate(age) as real / 10.0
    ensures z == Vo2Max ==> b.max == MaxHeartRate(age) as real
    ensures b.max == UpperTenths(z) as real * MaxHeartRate(age) as real / 10.0
  {
    var m := MaxHeartRate(age) as real;
    match z
    case Light => Bounds(0.5 * m, 0.6 * m)
    case Moderate => Bounds(0.6 * m, 0.7 * m)
    case Aerobic => Bounds(0.7 * m, 0.8 * m)
    case Anaerobic => Bounds(0.8 * m, 0.9 * m)
    case Vo2Max => Bounds(0.9 * m, m)
  }

  /** The table is contiguous: each zone's max is the next zone's min. */
  lemma ZonesContiguous(z: Zone, age: int)
    requires Next(z).Some?
    ensures ZoneBounds(z, age).max == ZoneBounds(Next(z).value, age).min
  {
  }

  /**
   * The if-chain of both zone bars. None means the reading is under the light zone's lower
   * bound and is skipped; otherwise the reading is at or above its zone's lower bound and,
   * except in vo2max, below its upper bound, so a reading above maxHR is in vo2max.
   */
  function ClassifyBpm(bpm: int, age: int): (z: Option<Zone>)
    ensures z.None? <==> 10 * bpm < 5 * MaxHeartRate(age)
    ensures MaxHeartRate(age) >= 0 && z.Some? ==>
      LowerTenths(z.value) * MaxHeartRate(age) <= 10 * bpm
    ensures z.Some? && z.value != Vo2Max ==> 10 * bpm < UpperTenths(z.value) * MaxHeartRate(age)
  {
    var m := MaxHeartRate(age);
    if 10 * bpm < 5 * m then None
    else if 10 * bpm < 6 * m then Some(Light)
    else if 10 * bpm < 7 * m then Some(Moderate)
    else if 10 * bpm < 8 * m then Some(Aerobic)
    else if 10 * bpm < 9 * m then Some(Anaerobic)
    else Some(Vo2Max)
  }

  /**
   * With a non-negative maxHR the chain is the band test of the `zones` table: a reading is
   * in zone z exactly when min <= bpm < max (vo2max: min <= bpm, with no upper bound).
   */
  lemma ClassifyIsBand(bpm: int, age: int, z: Zone)
    requires MaxHeartRate(age) >= 0
    ensures ClassifyBpm(bpm, age) == Some(z) <==>
      ZoneBounds(z, age).min <= bpm as real &&
      (z != Vo2Max ==> bpm as real < ZoneBounds(z, age).max)
  {
    var m := MaxHeartRate(age);
    assert 5 * m <= 6 * m <= 7 * m <= 8 * m <= 9 * m;
  }
}
