/**
 * DistanceService's `fetchTotalDistanceByDate`: the kilometres of a day's distance records,
 * with 0 on any error. The same per-record reading serves the exercise details.
 */
module DistanceService {
  import opened Wrappers
  import opened Reduce

  datatype DistanceRecord = DistanceRecord(inKilometers: Option<real>)

  /** `record.distance?.inKilometers ?? 0`. */
  function KmOrZero(r: DistanceRecord): real {
    r.inKilometers.GetOr(0.0)
  }

  function KmSum(records: seq<DistanceRecord>): (km: real)
    ensures records == [] ==> km == 0.0
    ensures (forall i :: 0 <= i < |records| ==> KmOrZero(records[i]) >= 0.0) ==> km >= 0.0
  {
    if forall i :: 0 <= i < |records| ==> KmOrZero(records[i]) >= 0.0 then
      SumRealNonNegative(records, KmOrZero);
      SumReal(records, KmOrZero)
    else SumReal(records, KmOrZero)
  }

  /** `fetchTotalDistanceByDate`: the sum, or 0 when the read fails. */
  function TotalDistance(fetched: Fetch<seq<DistanceRecord>>): (km: real)
    ensures fetched.FetchError? ==> km == 0.0
    ensures fetched == Fetched([]) ==> km == 0.0
    ensures fetched.Fetched? && (forall i :: 0 <= i < |fetched.records| ==> KmOrZero(fetched.records[i]) >= 0.0)
      ==> km >= 0.0
  {
    match fetched
    case FetchError => 0.0
    case Fetched(records) =>
      SumRealNonNegativeIf(records);
      KmSum(records)
  }

  lemma SumRealNonNegativeIf(records: seq<DistanceRecord>)
    ensures (forall i :: 0 <= i < |records| ==> KmOrZero(records[i]) >= 0.0) ==> KmSum(records) >= 0.0
  {
    if forall i :: 0 <= i < |records| ==> KmOrZero(records[i]) >= 0.0 {
      SumRealNonNegative(records, KmOrZero);
    }
  }

  /** A record without a distance adds nothing; the sum is additive and order-free. */
  lemma KmSumProperties(a: seq<DistanceRecord>, b: seq<DistanceRecord>)
    ensures KmSum(a + [DistanceRecord(None)]) == KmSum(a)
    ensures KmSum(a + b) == KmSum(a) + KmSum(b)
    ensures multiset(a) == multiset(b) ==> KmSum(a) == KmSum(b)
  {
    assert (a + [DistanceRecord(None)])[..|a|] == a;
    SumRealAppend(a, b, KmOrZero);
    if multiset(a) == multiset(b) {
      SumRealPermutation(a, b, KmOrZero);
    }
  }
}
