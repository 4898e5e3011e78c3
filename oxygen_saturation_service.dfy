/**
 * OxygenSaturationService's `fetchLatestOxygenSaturation`: the last of today's records in
 * the order the provider returns them, with no sort. Times are milliseconds.
 */
module OxygenSaturationService {
  import opened Wrappers

  datatype OxygenSaturationRecord = OxygenSaturationRecord(percentage: real, time: int)

  datatype OxygenReading = OxygenReading(percentage: real, time: int)

  /** null for no records, else the percentage and time of the last record. */
  function LatestOxygenSaturation(records: seq<OxygenSaturationRecord>): (r: Option<OxygenReading>)
    ensures r.None? <==> records == []
    ensures r.Some? ==> r.value.percentage == records[|records| - 1].percentage
    ensures r.Some? ==> r.value.time == records[|records| - 1].time
  {
    if |records| == 0 then None
    else
      var latest := records[|records| - 1];
      Some(OxygenReading(latest.percentage, latest.time))
  }

  /**
   * Without a sort the reading need not be the most recent one: when the provider lists a
   * later record first, the earlier one is reported.
   */
  lemma NotNecessarilyLatest()
    ensures var records := [OxygenSaturationRecord(97.0, 2000), OxygenSaturationRecord(95.0, 1000)];
      LatestOxygenSaturation(records) == Some(OxygenReading(95.0, 1000)) &&
      LatestOxygenSaturation(records).value.time < records[0].time
  {
  }

  /** On records already in time order the reading has the greatest time. */
  lemma LatestWhenOrdered(records: seq<OxygenSaturationRecord>)
    requires records != []
    requires forall i, j :: 0 <= i < j < |records| ==> records[i].time <= records[j].time
    ensures forall i :: 0 <= i < |records| ==> records[i].time <= LatestOxygenSaturation(records).value.time
  {
    forall i | 0 <= i < |records|
      ensures records[i].time <= records[|records| - 1].time
    {
      if i < |records| - 1 {
        assert records[i].time <= records[|records| - 1].time;
      }
    }
  }
}
