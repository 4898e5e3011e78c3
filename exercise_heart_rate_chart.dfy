/**
 * ExerciseHeartRateChart: the bpm line of an exercise, with up to five labels of elapsed
 * "M:SS" time picked at evenly spread samples. Sample times are the milliseconds of
 * `new Date(time).getTime()`.
 */
module ExerciseHeartRateChart {
  import JsNumber
  import Text

  datatype Sample = Sample(time: int, bpm: int)

  /** `formatTimeLabel`: whole minutes, a colon, and the rounded remaining seconds padded to two digits. */
  function FormatTimeLabel(seconds: real): string {
    var (minutes, remainingSeconds) := JsNumber.SplitSixty(seconds);
    Text.IntToString(minutes) + ":" + Text.PadStart2(Text.IntToString(remainingSeconds))
  }

  /**
   * Every label starts with the whole minutes and a colon. After the colon come the rounded
   * remaining seconds (JsNumber.SplitSixty pins them within 0.5 of s mod 60), zero-padded; for
   * a non-negative time they are exactly two characters.
   */
  lemma FormatTimeLabelShape(seconds: real)
    ensures var m := Text.IntToString(JsNumber.SplitSixty(seconds).0);
      |m| < |FormatTimeLabel(seconds)| && FormatTimeLabel(seconds)[..|m| + 1] == m + ":" &&
      FormatTimeLabel(seconds)[|m| + 1..] == Text.PadStart2(Text.IntToString(JsNumber.SplitSixty(seconds).1))
    ensures seconds >= 0.0 ==>
      |FormatTimeLabel(seconds)| == |Text.IntToString(JsNumber.SplitSixty(seconds).0)| + 3
  {
    var (minutes, remainingSeconds) := JsNumber.SplitSixty(seconds);
    if seconds >= 0.0 {
      Text.NatToStringShort(remainingSeconds);
    }
  }

  /** For whole seconds the label is s / 60, a colon and s % 60 in two digits. */
  lemma FormatTimeLabelWhole(s: nat)
    ensures FormatTimeLabel(s as real) == Text.NatToString(s / 60) + ":" + Text.PadStart2(Text.NatToString(s % 60))
    ensures |Text.PadStart2(Text.NatToString(s % 60))| == 2
  {
    JsNumber.SplitSixtyWhole(s);
    var r := s % 60;
    if r >= 10 {
      assert Text.NatToString(r) == Text.NatToString(r / 10) + [Text.DigitChar(r % 10)];
    }
  }

  /** A remainder that rounds up shows "60" seconds: 59.6 s reads "0:60", not "1:00". */
  lemma SixtySecondsShown()
    ensures FormatTimeLabel(59.6) == "0:60"
  {
    assert JsNumber.Floor(59.6 / 60.0) == 0;
    assert JsNumber.Trunc(59.6 / 60.0) == 0;
    assert JsNumber.Rem60(59.6) == 59.6;
    assert JsNumber.Round(59.6) == 60;
    assert Text.NatToString(6) == "6";
    assert Text.NatToString(60) == "60";
  }

  /** `Math.min(5, Math.floor(data.length / 5) + 1)`. */
  function LabelCount(n: nat): (lc: int)
    ensures 1 <= lc <= 5
    ensures lc == 1 <==> n < 5
  {
    var k := JsNumber.Floor(n as real / 5.0) + 1;
    assert k == n / 5 + 1;
    if k < 5 then k else 5
  }

  /** `Math.floor((data.length - 1) * (i / (labelCount - 1)))`, defined once there are two labels. */
  function LabelIndex(n: nat, i: nat): (k: int)
    requires n >= 5 && i < LabelCount(n)
    ensures k == (n - 1) * i / (LabelCount(n) - 1)
  {
    ScaledFloor(n - 1, i, LabelCount(n) - 1)
  }

  /** Math.floor(m * (i / d)) on naturals: the integer quotient m * i / d. */
  function ScaledFloor(m: nat, i: nat, d: nat): (k: int)
    requires d >= 1
    ensures k == m * i / d
  {
    FloorOfScaledRatio(m, i, d);
    JsNumber.Floor(m as real * (i as real / d as real))
  }

  /** Math.floor of a ratio of naturals is their integer quotient. */
  lemma FloorOfRatio(a: nat, d: nat)
    requires d >= 1
    ensures JsNumber.Floor(a as real / d as real) == a / d
  {
    var q, r := a / d, a % d;
    assert (q * d) as real == q as real * d as real;
    assert a as real == q as real * d as real + r as real;
    assert a as real / d as real == q as real + r as real / d as real;
    RemainderFraction(r, d);
  }

  /** A remainder below its divisor is a fraction in [0, 1). */
  lemma RemainderFraction(r: nat, d: nat)
    requires r < d
    ensures 0.0 <= r as real / d as real < 1.0
  {
    var x := r as real / d as real;
    assert x * d as real == r as real;
  }

  /** m * (i / d) on exact reals is (m * i) / d. */
  lemma ScaledRatio(m: nat, i: nat, d: nat)
    requires d >= 1
    ensures m as real * (i as real / d as real) == (m * i) as real / d as real
  {
    assert (m * i) as real == m as real * i as real;
  }

  /** Math.floor(m * (i / d)) on naturals is the integer quotient m * i / d. */
  lemma FloorOfScaledRatio(m: nat, i: nat, d: nat)
    requires d >= 1
    ensures JsNumber.Floor(m as real * (i as real / d as real)) == m * i / d
  {
    ScaledRatio(m, i, d);
    FloorOfRatio(m * i, d);
  }

  lemma QuotientMonotone(a: nat, b: nat, d: nat)
    requires a <= b && d >= 1
    ensures a / d <= b / d
  {
    var qa, qb := a / d, b / d;
    assert qa * d <= a;
    assert b < qb * d + d;
    assert (qb + 1) * d == qb * d + d;
    ProductCancel(qa, qb + 1, d);
  }

  lemma ProductCancel(x: nat, y: nat, d: nat)
    requires d > 0 && x * d < y * d
    ensures x < y
  {
    if x >= y {
      ProductMonotone(d, y, x);
    }
  }

  lemma ProductMonotone(m: nat, i: nat, j: nat)
    requires i <= j
    ensures m * i <= m * j
  {
  }

  /**
   * From five samples on the label indexes start at the first sample, end at the last one,
   * never decrease and stay within the data.
   */
  lemma LabelIndexesSpan(n: nat)
    requires n >= 5
    ensures LabelIndex(n, 0) == 0
    ensures LabelIndex(n, LabelCount(n) - 1) == n - 1
    ensures forall i, j :: 0 <= i <= j < LabelCount(n) ==> LabelIndex(n, i) <= LabelIndex(n, j)
    ensures forall i :: 0 <= i < LabelCount(n) ==> 0 <= LabelIndex(n, i) < n
  {
    var d := LabelCount(n) - 1;
    LastLabelIndex(n);
    forall i, j | 0 <= i <= j < LabelCount(n)
      ensures LabelIndex(n, i) <= LabelIndex(n, j)
    {
      LabelIndexMonotone(n, i, j);
    }
    forall i | 0 <= i < LabelCount(n)
      ensures 0 <= LabelIndex(n, i) < n
    {
      LabelIndexMonotone(n, i, d);
    }
  }

  lemma LastLabelIndex(n: nat)
    requires n >= 5
    ensures LabelIndex(n, LabelCount(n) - 1) == n - 1
  {
    var d := LabelCount(n) - 1;
    assert (n - 1) * d / d == n - 1;
  }

  lemma LabelIndexMonotone(n: nat, i: nat, j: nat)
    requires n >= 5 && i <= j < LabelCount(n)
    ensures LabelIndex(n, i) <= LabelIndex(n, j)
  {
    var d := LabelCount(n) - 1;
    ProductMonotone(n - 1, i, j);
    QuotientMonotone((n - 1) * i, (n - 1) * j, d);
  }

  /**
   * What the component produces: nothing for no data; a crash for one to four samples, where
   * the single label's index is 0 / 0 (NaN) and `data[NaN].time` reads a missing sample;
   * otherwise the labels and the values.
   */
  datatype ChartOutcome = NotRendered | Crashed | Rendered(labels: seq<string>, values: seq<int>)

  /** The label of position i: the elapsed seconds from the first sample to sample LabelIndex(n, i). */
  function LabelAt(data: seq<Sample>, i: nat): string
    requires |data| >= 5 && i < LabelCount(|data|)
  {
    LabelIndexesSpan(|data|);
    FormatTimeLabel(Elapsed(data, LabelIndex(|data|, i)))
  }

  /** `(new Date(data[index].time).getTime() - startTime) / 1000`. */
  function Elapsed(data: seq<Sample>, index: nat): real
    requires index < |data|
  {
    (data[index].time - data[0].time) as real / 1000.0
  }

  function ExerciseChart(data: seq<Sample>): (c: ChartOutcome)
    ensures c == NotRendered <==> data == []
    ensures c == Crashed <==> 1 <= |data| <= 4
    ensures c.Rendered? ==> |c.labels| == LabelCount(|data|) && |c.labels| >= 2
    ensures c.Rendered? ==> |c.values| == |data| && forall i :: 0 <= i < |data| ==> c.values[i] == data[i].bpm
  {
    var n := |data|;
    if n == 0 then NotRendered
    else if LabelCount(n) == 1 then Crashed
    else
      Rendered(seq(LabelCount(n), i requires 0 <= i < LabelCount(n) => LabelAt(data, i)),
        seq(n, i requires 0 <= i < n => data[i].bpm))
  }

  /** From five samples on the first label is "0:00" and the last one the whole elapsed time. */
  lemma FirstAndLastLabel(data: seq<Sample>)
    requires |data| >= 5
    ensures ExerciseChart(data).labels[0] == "0:00"
    ensures ExerciseChart(data).labels[LabelCount(|data|) - 1] == FormatTimeLabel(Elapsed(data, |data| - 1))
  {
    FirstLabel(data);
    LastLabel(data);
  }

  lemma LastLabel(data: seq<Sample>)
    requires |data| >= 5
    ensures ExerciseChart(data).labels[LabelCount(|data|) - 1] == FormatTimeLabel(Elapsed(data, |data| - 1))
  {
    LastLabelText(data);
    RenderedLabel(data, LabelCount(|data|) - 1);
  }

  lemma LastLabelText(data: seq<Sample>)
    requires |data| >= 5
    ensures LabelAt(data, LabelCount(|data|) - 1) == FormatTimeLabel(Elapsed(data, |data| - 1))
  {
    LastLabelIndex(|data|);
    LabelAtIndex(data, LabelCount(|data|) - 1, |data| - 1);
  }

  lemma FirstLabel(data: seq<Sample>)
    requires |data| >= 5
    ensures ExerciseChart(data).labels[0] == "0:00"
  {
    RenderedLabel(data, 0);
    LabelIndexesSpan(|data|);
    assert Elapsed(data, 0) == 0.0;
    ZeroLabel();
  }

  lemma RenderedLabel(data: seq<Sample>, i: nat)
    requires |data| >= 5 && i < LabelCount(|data|)
    ensures ExerciseChart(data).labels[i] == LabelAt(data, i)
  {
  }

  lemma LabelAtIndex(data: seq<Sample>, i: nat, k: nat)
    requires |data| >= 5 && i < LabelCount(|data|) && k < |data| && LabelIndex(|data|, i) == k
    ensures LabelAt(data, i) == FormatTimeLabel(Elapsed(data, k))
  {
  }

  lemma ZeroLabel()
    ensures FormatTimeLabel(0.0) == "0:00"
  {
    assert JsNumber.SplitSixty(0.0) == (0, 0);
    var zero := Text.IntToString(0);
    assert zero == [Text.DigitChar(0)] == "0";
    assert Text.PadStart2(zero) == Text.Zeros(1) + zero == "00";
  }
}
