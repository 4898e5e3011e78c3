/**
 * The x axis the heart-rate and calorie line charts share (the two components carry the same
 * code): `getDecimalHour`, and the five hour labels placed at fixed fractions of the sample
 * count in an otherwise blank label array.
 */
module ChartAxis {
  import opened Wrappers
  import JsNumber
  import Text

  /**
   * `getDecimalHour`: a time containing 'T' is read as a date, whose local hours and minutes
   * `clock` gives (None for an invalid date); any other time is split at ':' into hours and
   * minutes read with Number, where missing or unreadable minutes count 0 and unreadable
   * hours give NaN (None).
   */
  function DecimalHour(time: string, clock: string -> Option<(int, int)>): (hour: Option<real>)
    ensures 'T' in time ==> (hour.Some? <==> clock(time).Some?)
    ensures 'T' !in time ==> (hour.Some? <==> Text.AllDigits(Text.Split(time, ':')[0]))
    ensures 'T' !in time && Text.AllDigits(Text.Split(time, ':')[0]) ==>
      hour.Some? && Text.DigitsValue(Text.Split(time, ':')[0]) as real <= hour.value
  {
    if 'T' in time then
      match clock(time)
      case None => None
      case Some((hours, minutes)) => Some(hours as real + minutes as real / 60.0)
    else
      var parts := Text.Split(time, ':');
      var minutes := if |parts| > 1 then Text.NumberOf(parts[1]) else None;
      match Text.NumberOf(parts[0])
      case None => None
      case Some(hours) => Some(hours as real + minutes.GetOr(0) as real / 60.0)
  }

  /** "H:M" with decimal digits reads as H + M / 60. */
  lemma DecimalHourOfClockTime(hh: string, mm: string, clock: string -> Option<(int, int)>)
    requires Text.AllDigits(hh) && Text.AllDigits(mm)
    ensures DecimalHour(hh + ":" + mm, clock) ==
      Some(Text.DigitsValue(hh) as real + Text.DigitsValue(mm) as real / 60.0)
  {
    NoDateMarker(hh, mm);
    SplitClockTime(hh, mm);
  }

  /** Digits and a colon contain no 'T'. */
  lemma NoDateMarker(hh: string, mm: string)
    requires Text.AllDigits(hh) && Text.AllDigits(mm)
    ensures 'T' !in hh + ":" + mm
  {
    var time := hh + ":" + mm;
    forall i | 0 <= i < |time|
      ensures time[i] != 'T'
    {
      if i < |hh| {
        assert time[i] == hh[i];
      } else if i > |hh| {
        assert time[i] == mm[i - |hh| - 1];
      }
    }
  }

  /** "H:M" splits into H and M. */
  lemma SplitClockTime(hh: string, mm: string)
    requires Text.AllDigits(hh) && Text.AllDigits(mm)
    ensures Text.Split(hh + ":" + mm, ':') == [hh, mm]
  {
    assert ':' !in hh && ':' !in mm;
    assert hh + ":" + mm == hh + [':'] + mm;
    Text.SplitAtFirst(hh, mm, ':');
  }

  /** "H" alone reads as H hours: the missing minutes count 0. */
  lemma DecimalHourMissingMinutes(hh: string, clock: string -> Option<(int, int)>)
    requires Text.AllDigits(hh)
    ensures DecimalHour(hh, clock) == Some(Text.DigitsValue(hh) as real)
  {
    assert ':' !in hh && 'T' !in hh;
  }

  /** The hour labels, written in this order. */
  const MainLabels: seq<string> := ["00:00", "06:00", "12:00", "18:00", "00:00"]

  /** `labelIndexes`: 0, Math.floor(n * 0.25), Math.floor(n * 0.5), Math.floor(n * 0.75) and n - 1. */
  function LabelIndexes(n: nat): (idx: seq<int>)
    ensures |idx| == 5
    ensures idx == [0, n / 4, n / 2, 3 * n / 4, n - 1]
  {
    var q1, q2, q3 := JsNumber.Floor(n as real * 0.25), JsNumber.Floor(n as real * 0.5), JsNumber.Floor(n as real * 0.75);
    assert q1 == n / 4 && q2 == n / 2 && q3 == 3 * n / 4;
    [0, q1, q2, q3, n - 1]
  }

  /** The label of position i once the first k of the five labels have been written. */
  function LabelAfter(n: nat, k: nat, i: int): string
    requires k <= 5
  {
    if k == 0 then ""
    else if LabelIndexes(n)[k - 1] == i then MainLabels[k - 1]
    else LabelAfter(n, k - 1, i)
  }

  /** The label array of n samples. */
  function Labels(n: nat): seq<string> {
    seq(n, i requires 0 <= i < n => LabelAfter(n, 5, i))
  }

  /** `Array(n).fill('')` and then the `forEach` writing each label at its index when it exists. */
  method FillLabels(n: nat) returns (labels: seq<string>)
    ensures labels == Labels(n)
  {
    var a := new string[n](_ => "");
    var indexes := LabelIndexes(n);
    for k := 0 to 5
      invariant forall i :: 0 <= i < n ==> a[i] == LabelAfter(n, k, i)
    {
      var idx := indexes[k];
      if 0 <= idx < n {
        a[idx] := MainLabels[k];
      }
    }
    labels := a[..];
  }

  /** A position holds a label exactly when it is one of the five indexes; the rest are blank. */
  lemma LabelsOnlyAtIndexes(n: nat, i: int)
    requires 0 <= i < n
    ensures Labels(n)[i] != "" <==> i in LabelIndexes(n)
  {
    assert Labels(n)[i] == LabelAfter(n, 5, i);
    NonBlankIffWritten(n, 5, i);
    assert LabelIndexes(n)[..5] == LabelIndexes(n);
  }

  /** After k writes a position is non-blank exactly when one of those writes hit it. */
  lemma {:induction false} NonBlankIffWritten(n: nat, k: nat, i: int)
    requires k <= 5
    ensures LabelAfter(n, k, i) != "" <==> i in LabelIndexes(n)[..k]
  {
    if k > 0 {
      NonBlankIffWritten(n, k - 1, i);
      assert LabelIndexes(n)[..k] == LabelIndexes(n)[..k - 1] + [LabelIndexes(n)[k - 1]];
    }
  }

  /** The last position is written last, so it always reads "00:00". */
  lemma LastLabelMidnight(n: nat)
    requires n >= 1
    ensures Labels(n)[n - 1] == "00:00"
  {
    assert Labels(n)[n - 1] == LabelAfter(n, 5, n - 1);
  }

  /** From five samples on the five indexes are distinct, so each label shows at its own place. */
  lemma LabelsSpread(n: nat)
    requires n >= 5
    ensures Labels(n)[0] == "00:00" && Labels(n)[n / 4] == "06:00"
    ensures Labels(n)[n / 2] == "12:00" && Labels(n)[3 * n / 4] == "18:00"
  {
    var idx := LabelIndexes(n);
    assert 0 < n / 4 < n / 2 < 3 * n / 4 < n - 1;
    WrittenLast(n, 5, 0, 0);
    WrittenLast(n, 5, 1, n / 4);
    WrittenLast(n, 5, 2, n / 2);
    WrittenLast(n, 5, 3, 3 * n / 4);
  }

  /** A position keeps the label of the last write to it. */
  lemma {:induction false} WrittenLast(n: nat, m: nat, k: nat, i: int)
    requires k < m <= 5 && LabelIndexes(n)[k] == i
    requires forall j :: k < j < m ==> LabelIndexes(n)[j] != i
    ensures LabelAfter(n, m, i) == MainLabels[k]
    decreases m
  {
    if m - 1 > k {
      WrittenLast(n, m - 1, k, i);
    }
  }

  /** With two samples the indexes collide and the later label wins. */
  lemma TwoSampleLabels()
    ensures Labels(2) == ["06:00", "00:00"]
  {
    assert LabelIndexes(2) == [0, 0, 1, 1, 1];
  }

  /** The `labels` and the dataset values of a line chart. */
  datatype ChartData = ChartData(labels: seq<string>, values: seq<real>)

  /** A line chart over data: nothing without data, else one value y(d) and one label per sample. */
  function Chart<T>(data: seq<T>, y: T -> real): (c: Option<ChartData>)
    ensures c.None? <==> data == []
    ensures c.Some? ==> c.value.labels == Labels(|data|) && |c.value.values| == |data|
    ensures c.Some? ==> forall i :: 0 <= i < |data| ==> c.value.values[i] == y(data[i])
  {
    if |data| == 0 then None
    else Some(ChartData(Labels(|data|), seq(|data|, i requires 0 <= i < |data| => y(data[i]))))
  }
}
