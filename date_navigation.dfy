/**
 * The swipe handler the heart-rate, calorie and sleep history screens share: when a pan
 * gesture ends more than 50 px to the right the selected day moves back one day, more than
 * 50 px to the left it moves forward one day, and otherwise it stays. Days are day numbers.
 */
module DateNavigation {

  /** The states a pan gesture handler reports; only `End` moves the date. */
  datatype HandlerState = Undetermined | Failed | Began | Cancelled | Active | End

  const SwipeThreshold: real := 50.0

  /** The day selected after a gesture event on `day`. */
  function SwipedDay(day: int, translationX: real, state: HandlerState): (d: int)
    ensures d == day - 1 <==> state == End && translationX > SwipeThreshold
    ensures d == day + 1 <==> state == End && translationX < -SwipeThreshold
    ensures d == day <==> state != End || -SwipeThreshold <= translationX <= SwipeThreshold
  {
    if state == End && translationX > SwipeThreshold then day - 1
    else if state == End && translationX < -SwipeThreshold then day + 1
    else day
  }

  /** A swipe one way followed by the mirror swipe returns to the starting day. */
  lemma MirrorSwipeRestores(day: int, translationX: real)
    ensures SwipedDay(SwipedDay(day, translationX, End), -translationX, End) == day
  {
  }

  /** The `selectedDate` state of a history screen. */
  class SelectedDay {
    var selectedDate: int

    constructor(today: int)
      ensures selectedDate == today
    {
      selectedDate := today;
    }

    /** `onGestureEvent`: the functional update of `selectedDate` the screen performs. */
    method OnGestureEvent(translationX: real, state: HandlerState)
      modifies this
      ensures selectedDate == SwipedDay(old(selectedDate), translationX, state)
    {
      if state == End {
        if translationX > 50.0 {
          selectedDate := selectedDate - 1;
        } else if translationX < -50.0 {
          selectedDate := selectedDate + 1;
        }
      }
    }
  }
}
