/** HeartRateChart: the day's bpm line chart over the shared hour axis. */
module HeartRateChart {
  import opened Wrappers
  import ChartAxis
  import HeartRateService

  /** The chart of the day's samples: nothing without data, else the bpm values in order. */
  function HeartRateChartData(data: seq<HeartRateService.HeartRatePoint>): Option<ChartAxis.ChartData> {
    ChartAxis.Chart(data, (p: HeartRateService.HeartRatePoint) => p.bpm as real)
  }

  /**
   * Nothing is drawn without samples; otherwise the values are the bpm sequence in input
   * order, and the labels are the axis labels of that many points, ending in "00:00".
   */
  lemma HeartRateChartShape(data: seq<HeartRateService.HeartRatePoint>)
    ensures HeartRateChartData(data).None? <==> data == []
    ensures data != [] ==> var c := HeartRateChartData(data).value;
      |c.values| == |data| && (forall i :: 0 <= i < |data| ==> c.values[i] == data[i].bpm as real) &&
      |c.labels| == |data| && c.labels[|data| - 1] == "00:00"
  {
    if data != [] {
      ChartAxis.LastLabelMidnight(|data|);
    }
  }
}
