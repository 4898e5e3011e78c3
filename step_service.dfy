/**
 * StepService's `getTodaySteps`: the sum of `record.count || 0` over today's step records.
 * A count is a number or absent; an absent or zero count adds 0.
 */
module StepService {
  import opened Wrappers
  import opened Reduce

  datatype StepsRecord = StepsRecord(count: Option<int>)

  /** `record.count || 0`. */
  function CountOrZero(r: StepsRecord): (c: int)
    ensures r.count.None? ==> c == 0
    ensures r.count.Some? ==> c == r.count.value
  {
    match r.count
    case None => 0
    case Some(n) => if n == 0 then 0 else n
  }

  /** `getTodaySteps`'s total. */
  function TodaySteps(records: seq<StepsRecord>): (steps: int)
    ensures records == [] ==> steps == 0
    ensures (forall i :: 0 <= i < |records| ==> CountOrZero(records[i]) >= 0) ==> steps >= 0
  {
    if forall i :: 0 <= i < |records| ==> CountOrZero(records[i]) >= 0 then
      SumIntNonNegative(records, CountOrZero);
      SumInt(records, CountOrZero)
    else SumInt(records, CountOrZero)
  }

  /** No records give 0, and a record without a count adds nothing. */
  lemma MissingCountAddsNothing(records: seq<StepsRecord>)
    ensures TodaySteps([]) == 0
    ensures TodaySteps(records + [StepsRecord(None)]) == TodaySteps(records)
  {
    assert (records + [StepsRecord(None)])[..|records|] == records;
  }

  /** The total over two lists is the sum of their totals. */
  lemma TodayStepsAppend(a: seq<StepsRecord>, b: seq<StepsRecord>)
    ensures TodaySteps(a + b) == TodaySteps(a) + TodaySteps(b)
  {
    SumIntAppend(a, b, CountOrZero);
  }

  /** The total does not depend on the order of the records. */
  lemma TodayStepsOrderIndependent(a: seq<StepsRecord>, b: seq<StepsRecord>)
    requires multiset(a) == multiset(b)
    ensures TodaySteps(a) == TodaySteps(b)
  {
    SumIntPermutation(a, b, CountOrZero);
  }
}
