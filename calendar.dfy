/**
 * The calendar day shared by the room, the members and the day generator:
 * `{ date, isNonWorkingDay }`. Dates are ordinal day numbers, so "start plus
 * k days" is integer addition and chronological order is integer order.
 */
module Calendar {

  /** An ordinal day number (days since some fixed epoch). */
  type Date = int

  datatype Day = Day(date: Date, isNonWorkingDay: bool)

  /** `{ ...day, isNonWorkingDay: !day.isNonWorkingDay }` */
  function Flip(day: Day): (r: Day)
    ensures r.date == day.date && r.isNonWorkingDay == !day.isNonWorkingDay
  {
    day.(isNonWorkingDay := !day.isNonWorkingDay)
  }

  /**
   * `days.map((day, index) => index === dayIndex ? flip(day) : day)`, the
   * change list that the room-level and the member-level toggles build.
   * An index outside the array matches no element and changes nothing.
   */
  function FlipAt(days: seq<Day>, dayIndex: int): (r: seq<Day>)
    ensures |r| == |days|
    ensures forall i :: 0 <= i < |days| && i != dayIndex ==> r[i] == days[i]
    ensures 0 <= dayIndex < |days| ==> r[dayIndex] == Flip(days[dayIndex])
    ensures !(0 <= dayIndex < |days|) ==> r == days
  {
    seq(|days|, i requires 0 <= i < |days| => if i == dayIndex then Flip(days[i]) else days[i])
  }

  /** Toggling the same day twice gives back the original days. */
  lemma FlipAtInvolution(days: seq<Day>, dayIndex: int)
    ensures FlipAt(FlipAt(days, dayIndex), dayIndex) == days
  {
  }
}
