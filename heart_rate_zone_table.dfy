/**
 * `getHeartRateZones(age)`: the five named zones of the heart-rate card, from rest up to
 * maxHR = 220 - age. Its boundaries (0.5, 0.6, 0.7 and 0.85 of maxHR) differ from the
 * zone bars', whose fourth boundary is 0.8.
 */
module HeartRateZoneTable {
  import opened ZoneClassifier

  datatype HeartRateZone = HeartRateZone(name: string, min: real, max: real, color: string)

  /** The fractions of maxHR at which consecutive zones meet. */
  const Boundaries: seq<real> := [0.5, 0.6, 0.7, 0.85]

  /**
   * The array literal of `getHeartRateZones`: five zones, named in order, starting at 0 and
   * ending at maxHR, each ending where the next begins, at the fractions 0.5, 0.6, 0.7 and
   * 0.85 of maxHR.
   */
  function HeartRateZones(age: int): (zones: seq<HeartRateZone>)
    ensures |zones| == 5
    ensures forall i :: 0 <= i < 5 ==>
      zones[i].name == ["Rest", "Fat Burn", "Cardio", "Aerobic", "Anaerobic"][i]
    ensures zones[0].min == 0.0
    ensures zones[4].max == (220 - age) as real
    ensures forall i :: 0 <= i < 4 ==> zones[i].max == zones[i + 1].min
    ensures forall i :: 0 <= i < 4 ==> zones[i].max == Boundaries[i] * (220 - age) as real
  {
    var maxHR := MaxHeartRate(age) as real;
    [ HeartRateZone("Rest", 0.0, 0.5 * maxHR, "#269ae9"),
      HeartRateZone("Fat Burn", 0.5 * maxHR, 0.6 * maxHR, "#1fb456"),
      HeartRateZone("Cardio", 0.6 * maxHR, 0.7 * maxHR, "#eead00"),
      HeartRateZone("Aerobic", 0.7 * maxHR, 0.85 * maxHR, "#f68202"),
      HeartRateZone("Anaerobic", 0.85 * maxHR, maxHR, "#eb3d3c") ]
  }

  /** Every zone is a proper interval (min <= max) exactly when age <= 220. */
  lemma ZonesWellFormed(age: int)
    ensures (forall i :: 0 <= i < 5 ==> HeartRateZones(age)[i].min <= HeartRateZones(age)[i].max)
      <==> age <= 220
  {
    var zones := HeartRateZones(age);
    if age > 220 {
      assert zones[0].min > zones[0].max;
    }
  }
}
