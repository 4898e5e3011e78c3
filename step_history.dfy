/**
 * StepHistoryScreen: a date range picked by two taps on a calendar, the days the calendar
 * marks for it, the query window it stands for and the total of the daily step counts.
 * Dates are day numbers; an empty date string is None. The `>=` on 'YYYY-MM-DD' strings
 * is the order of day numbers.
 */
module StepHistory {
  import opened Wrappers
  import opened Reduce
  import Days

  /** `selectedStartDate` and `selectedEndDate`. */
  datatype DateRange = DateRange(start: Option<int>, end: Option<int>)

  /** Whenever an end is set, a start is set too and does not come after it. */
  predicate Ordered(r: DateRange) {
    r.end.Some? ==> r.start.Some? && r.start.value <= r.end.value
  }

  /** The initial range: six days ago through today. */
  function DefaultRange(today: int): (r: DateRange)
    ensures r.start == Some(today - 6) && r.end == Some(today)
    ensures Ordered(r)
  {
    DateRange(Some(today - 6), Some(today))
  }

  /** The new range after a tap, and whether the tap closes the calendar. */
  datatype Tap = Tap(range: DateRange, closesCalendar: bool)

  /** `onDayPressCalendar`. */
  function DayPress(r: DateRange, day: int): (t: Tap)
    ensures t.closesCalendar <==> r.start.Some? && r.end.None? && r.start.value <= day
    ensures t.closesCalendar ==> t.range == DateRange(r.start, Some(day))
    ensures !t.closesCalendar ==> t.range == DateRange(Some(day), None)
  {
    if r.start.None? || (r.start.Some? && r.end.Some?) then Tap(DateRange(Some(day), None), false)
    else if day >= r.start.value then Tap(DateRange(r.start, Some(day)), true)
    else Tap(DateRange(Some(day), None), false)
  }

  /** Every tap leaves the range ordered, whatever the range was before. */
  lemma DayPressOrdered(r: DateRange, day: int)
    ensures Ordered(DayPress(r, day).range)
  {
  }

  /**
   * From a completed range (such as the default one), a tap on a and then a tap on b select
   * the range a..b and close the calendar when b is not before a; a tap on an earlier b
   * instead restarts the selection at b.
   */
  lemma TwoTaps(r: DateRange, a: int, b: int)
    requires r.start.Some? && r.end.Some?
    ensures var second := DayPress(DayPress(r, a).range, b);
      (a <= b ==> second == Tap(DateRange(Some(a), Some(b)), true)) &&
      (b < a ==> second == Tap(DateRange(Some(b), None), false))
  {
  }

  /** The range state of the screen, with the calendar's visibility. */
  class RangePicker {
    var selectedStartDate: Option<int>
    var selectedEndDate: Option<int>
    var calendarVisible: bool

    predicate Valid()
      reads this
    {
      Ordered(DateRange(selectedStartDate, selectedEndDate))
    }

    constructor(today: int)
      ensures DateRange(selectedStartDate, selectedEndDate) == DefaultRange(today)
      ensures !calendarVisible
      ensures Valid()
    {
      selectedStartDate := Some(today - 6);
      selectedEndDate := Some(today);
      calendarVisible := false;
    }

    /** `onDayPressCalendar` as the screen performs it, on its state fields. */
    method OnDayPressCalendar(day: int)
      modifies this
      ensures DateRange(selectedStartDate, selectedEndDate) ==
        DayPress(old(DateRange(selectedStartDate, selectedEndDate)), day).range
      ensures calendarVisible ==
        (old(calendarVisible) && !DayPress(old(DateRange(selectedStartDate, selectedEndDate)), day).closesCalendar)
      ensures Valid()
    {
      if selectedStartDate.None? || selectedEndDate.Some? {
        selectedStartDate := Some(day);
        selectedEndDate := None;
      } else if day >= selectedStartDate.value {
        selectedEndDate := Some(day);
        calendarVisible := false;
      } else {
        selectedStartDate := Some(day);
        selectedEndDate := None;
      }
      DayPressOrdered(old(DateRange(selectedStartDate, selectedEndDate)), day);
    }
  }

  /** The style of a marked day. */
  datatype DayMark = DayMark(selected: bool, color: string, textColor: string)

  const Selected := DayMark(true, "#a0c4ff", "#121212")

  /** The days a through b, as many as there are from a to b. */
  function DaysFrom(a: int, b: int): (days: set<int>)
    ensures forall d :: d in days <==> a <= d <= b
    ensures a <= b + 1 ==> |days| == b - a + 1
    decreases b - a
  {
    if a > b then {} else DaysFrom(a, b - 1) + {b}
  }

  /**
   * The days `markedDates` marks: start through end inclusive, or only the start while no
   * end is chosen. An empty date parses to an invalid date, which never compares before or
   * the same as another, so with no start nothing is marked.
   */
  function MarkedDays(r: DateRange): (days: set<int>)
    ensures forall d :: d in days <==>
      r.start.Some? && (if r.end.Some? then r.start.value <= d <= r.end.value else d == r.start.value)
  {
    if r.start.Some? && r.end.Some? then DaysFrom(r.start.value, r.end.value)
    else if r.start.Some? then {r.start.value}
    else {}
  }

  /** The marks of a set of days, every one of them selected. */
  function MarkAll(days: set<int>): (marks: map<int, DayMark>)
    ensures marks.Keys == days
    ensures forall d :: d in marks ==> marks[d] == Selected
  {
    map d | d in days :: Selected
  }

  /** Marking one more day adds that day's entry. */
  lemma MarkAllAdd(days: set<int>, d: int)
    ensures MarkAll(days + {d}) == MarkAll(days)[d := Selected]
  {
  }

  /** The `markedDates` object: the marked days, each with the selected style. */
  function MarkedDates(r: DateRange): (marks: map<int, DayMark>)
    ensures forall d :: d in marks <==>
      r.start.Some? && (if r.end.Some? then r.start.value <= d <= r.end.value else d == r.start.value)
    ensures forall d :: d in marks ==> marks[d] == Selected
  {
    MarkAll(MarkedDays(r))
  }

  /** `markedDates`: the `while` loop advancing a day at a time, then the lone start. */
  method MarkDates(r: DateRange) returns (marked: map<int, DayMark>)
    ensures marked == MarkedDates(r)
  {
    marked := map[];
    if r.start.Some? && r.end.Some? {
      var current := r.start.value;
      while current <= r.end.value
        invariant r.start.value <= current
        invariant current <= r.end.value + 1 || current == r.start.value
        invariant marked == MarkAll(DaysFrom(r.start.value, current - 1))
        decreases r.end.value - current
      {
        MarkAllAdd(DaysFrom(r.start.value, current - 1), current);
        assert DaysFrom(r.start.value, current) == DaysFrom(r.start.value, current - 1) + {current};
        marked := marked[current := Selected];
        current := current + 1;
      }
    }
    if r.start.Some? && r.end.None? {
      marked := marked[r.start.value := Selected];
    }
  }

  /** An ordered complete range marks end - start + 1 days; the default range marks seven. */
  lemma MarkedDayCount(r: DateRange, today: int)
    ensures Ordered(r) && r.start.Some? && r.end.Some? ==>
      |MarkedDates(r)| == r.end.value - r.start.value + 1
    ensures r.start.Some? && r.end.None? ==> MarkedDates(r).Keys == {r.start.value}
    ensures |MarkedDates(DefaultRange(today))| == 7
  {
  }

  /**
   * The instants the steps query covers: from the start day's midnight up to 23:59:59.999 of
   * the end day, the time `setHours(23, 59, 59, 999)` gives the end date.
   */
  function QueryWindow(startDay: int, endDay: int): (w: (int, int))
    ensures w.0 == Days.Midnight(startDay) && w.1 + 1 == Days.Midnight(endDay + 1)
  {
    (Days.Midnight(startDay), Days.EndOfDay(endDay))
  }

  /** An instant is in the window exactly when its day lies between the two days. */
  lemma QueryWindowCoversDays(startDay: int, endDay: int, t: int)
    ensures QueryWindow(startDay, endDay).0 <= t <= QueryWindow(startDay, endDay).1 <==>
      startDay <= Days.DayOf(t) <= endDay
  {
    var d := Days.DayOf(t);
    Days.InWindowIffDay(t, d);
    if d < startDay {
      assert Days.Midnight(d + 1) <= Days.Midnight(startDay);
    }
    if d > endDay {
      assert Days.Midnight(endDay + 1) <= Days.Midnight(d);
    }
  }

  /** A day of the step chart. */
  datatype DaySteps = DaySteps(date: int, steps: int)

  function StepsOf(d: DaySteps): int {
    d.steps
  }

  /** `totalSteps`: the sum of the daily counts. */
  function TotalSteps(stepData: seq<DaySteps>): (total: int)
    ensures stepData == [] ==> total == 0
    ensures (forall i :: 0 <= i < |stepData| ==> stepData[i].steps >= 0) ==> total >= 0
  {
    if forall i :: 0 <= i < |stepData| ==> stepData[i].steps >= 0 then
      SumIntNonNegative(stepData, StepsOf);
      SumInt(stepData, StepsOf)
    else SumInt(stepData, StepsOf)
  }

  /** No days give 0; the total adds over consecutive periods and never goes negative. */
  lemma TotalStepsProperties(a: seq<DaySteps>, b: seq<DaySteps>)
    ensures TotalSteps([]) == 0
    ensures TotalSteps(a + b) == TotalSteps(a) + TotalSteps(b)
    ensures (forall i :: 0 <= i < |a| ==> a[i].steps >= 0) ==> TotalSteps(a) >= 0
  {
    SumIntAppend(a, b, StepsOf);
    if forall i :: 0 <= i < |a| ==> a[i].steps >= 0 {
      SumIntNonNegative(a, StepsOf);
    }
  }
}
