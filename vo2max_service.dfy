/**
 * Vo2MaxService's `fetchLatestVo2Max`: today's records are sorted in place by time and the
 * last one is reported. Times are milliseconds.
 */
module Vo2MaxService {
  import opened Wrappers
  import TimeSort

  datatype Vo2MaxRecord = Vo2MaxRecord(vo2MillilitersPerMinuteKilogram: real, time: int)

  datatype Vo2Reading = Vo2Reading(vo2: real, time: int)

  function RecordTime(r: Vo2MaxRecord): int {
    r.time
  }

  function Reading(r: Vo2MaxRecord): Vo2Reading {
    Vo2Reading(r.vo2MillilitersPerMinuteKilogram, r.time)
  }

  /** null for no records, else the last record after the stable sort by time. */
  function LatestVo2Max(records: seq<Vo2MaxRecord>): (r: Option<Vo2Reading>)
    ensures r.None? <==> records == []
    ensures r.Some? ==> exists i :: 0 <= i < |records| && r.value == Reading(records[i])
  {
    if |records| == 0 then None
    else
      var sorted := TimeSort.SortByKey(records, RecordTime);
      TimeSort.SortByKeyMembers(records, RecordTime);
      assert sorted[|sorted| - 1] in records;
      Some(Reading(sorted[|sorted| - 1]))
  }

  /**
   * `fetchLatestVo2Max` on the provider's array: it is left sorted by time, and the reading
   * is that of its last record.
   */
  method FetchLatestVo2Max(records: array<Vo2MaxRecord>) returns (r: Option<Vo2Reading>)
    modifies records
    ensures records[..] == TimeSort.SortByKey(old(records[..]), RecordTime)
    ensures r == LatestVo2Max(old(records[..]))
  {
    if records.Length == 0 {
      return None;
    }
    TimeSort.SortInPlace(records, RecordTime);
    var latest := records[records.Length - 1];
    r := Some(Vo2Reading(latest.vo2MillilitersPerMinuteKilogram, latest.time));
  }

  /**
   * The reading is null exactly for no records; otherwise it is taken from a record of
   * greatest time, and among records sharing that time from the last one in input order.
   */
  lemma LatestVo2MaxIsLatest(records: seq<Vo2MaxRecord>)
    ensures LatestVo2Max(records).None? <==> records == []
    ensures records != [] ==>
      (exists k :: TimeSort.IsLatestMax(records, k, RecordTime) && LatestVo2Max(records) == Some(Reading(records[k])))
  {
    if records != [] {
      var k := TimeSort.SortByKeyLast(records, RecordTime);
      assert TimeSort.IsLatestMax(records, k, RecordTime);
    }
  }
}
