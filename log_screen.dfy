/**
 * The day screen of `src/screens/log/LogView.tsx`: the selected day, the
 * start point of the current touch and the swipe that moves the day.
 */
module LogScreen {
  import opened Time
  import opened DatePicker

  /** `Math.abs`. */
  function Abs(x: real): real {
    if x < 0.0 then -x else x
  }

  /** `Math.sign` of a non-zero number. */
  function Sign(x: real): int {
    if x > 0.0 then 1 else if x < 0.0 then -1 else 0
  }

  /**
   * The days a touch from (startX, startY) to (endX, endY) moves the selection:
   * none when the horizontal travel is under 10 pixels or smaller than the
   * vertical one, else the sign of `startX - endX`.
   */
  function SwipeDays(startX: real, startY: real, endX: real, endY: real): (n: int)
    ensures -1 <= n <= 1
  {
    var dx, dy := startX - endX, startY - endY;
    if Abs(dx) < 10.0 || Abs(dx) < Abs(dy) then 0 else Sign(dx)
  }

  /** The classification of a touch, in full. */
  lemma SwipeCases(startX: real, startY: real, endX: real, endY: real)
    ensures Abs(startX - endX) < 10.0 ==> SwipeDays(startX, startY, endX, endY) == 0
    ensures Abs(startX - endX) < Abs(startY - endY) ==> SwipeDays(startX, startY, endX, endY) == 0
    ensures Abs(startX - endX) >= 10.0 && Abs(startX - endX) >= Abs(startY - endY) ==>
      (endX < startX ==> SwipeDays(startX, startY, endX, endY) == 1)
      && (endX > startX ==> SwipeDays(startX, startY, endX, endY) == -1)
  {
  }

  /** A horizontal swipe is never ignored: once it counts, the day always moves. */
  lemma CountedSwipeMoves(startX: real, startY: real, endX: real, endY: real)
    requires Abs(startX - endX) >= 10.0 && Abs(startX - endX) >= Abs(startY - endY)
    ensures SwipeDays(startX, startY, endX, endY) != 0
  {
  }

  /** A swipe and the opposite swipe cancel out. */
  lemma OppositeSwipesCancel(startX: real, startY: real, endX: real, endY: real)
    ensures SwipeDays(startX, startY, endX, endY) + SwipeDays(endX, endY, startX, startY) == 0
  {
  }

  class LogScreenState {
    var filterDate: Day
    var touchStartX: real
    var touchStartY: real

    /** Mounting: today's day, and the -1 sentinel for the touch start. */
    constructor(now: Instant)
      ensures filterDate == DayOf(now) && touchStartX == -1.0 && touchStartY == -1.0
    {
      filterDate := DayOf(now);
      touchStartX, touchStartY := -1.0, -1.0;
    }

    /** `handleTouchStart`: records where the first touch began. */
    method TouchStart(x: real, y: real)
      modifies this
      ensures touchStartX == x && touchStartY == y && filterDate == old(filterDate)
    {
      touchStartX, touchStartY := x, y;
    }

    /** `handleTouchEnd`: moves the day by the classified swipe; the start point is kept. */
    method TouchEnd(x: real, y: real)
      modifies this
      ensures filterDate == old(filterDate) + SwipeDays(old(touchStartX), old(touchStartY), x, y)
      ensures touchStartX == old(touchStartX) && touchStartY == old(touchStartY)
    {
      var n := SwipeDays(touchStartX, touchStartY, x, y);
      if n != 0 {
        filterDate := PlusDays(filterDate, n);
      }
    }

    /** The date picker's `onChange`: the emitted day replaces the selection outright. */
    method PickDate(day: Day)
      modifies this
      ensures filterDate == day && touchStartX == old(touchStartX) && touchStartY == old(touchStartY)
    {
      filterDate := day;
    }

    /** The picker's previous button. */
    method ClickPrevious()
      modifies this
      ensures filterDate == Previous(old(filterDate))
      ensures touchStartX == old(touchStartX) && touchStartY == old(touchStartY)
    {
      PickDate(Previous(filterDate));
    }

    /** The picker's next button. */
    method ClickNext()
      modifies this
      ensures filterDate == Next(old(filterDate))
      ensures touchStartX == old(touchStartX) && touchStartY == old(touchStartY)
    {
      PickDate(Next(filterDate));
    }
  }
}
