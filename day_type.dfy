/**
 * The four day types and the two toggles that cycle through them: the room's
 * global toggle (full day and holiday swap) and a member's personal toggle
 * (full day, half day, holiday, back to full day). A weekend is never changed
 * by either toggle.
 */
module DayType {

  datatype DayType = FullDay | Holiday | Weekend | HalfDay

  /** The string each constant of `DayTypes` stands for. */
  function DayTypeValue(d: DayType): string
  {
    match d
    case FullDay => "full-day"
    case Holiday => "holiday"
    case Weekend => "weekend"
    case HalfDay => "half-day"
  }

  /** The four string values are pairwise different, so a `switch` on them is well defined. */
  lemma DayTypeValueInjective(a: DayType, b: DayType)
    ensures DayTypeValue(a) == DayTypeValue(b) ==> a == b
  {
  }

  /** `toggleGlobalDayType` */
  function ToggleGlobalDayType(d: DayType): (r: DayType)
    ensures r == Holiday <==> d == FullDay
    ensures r == FullDay <==> d == Holiday
    ensures d == Weekend || d == HalfDay ==> r == d
  {
    match d
    case FullDay => Holiday
    case Holiday => FullDay
    case _ => d
  }

  /** `toggleMemberOffDayType` */
  function ToggleMemberOffDayType(d: DayType): (r: DayType)
    ensures d == FullDay ==> r == HalfDay
    ensures d == HalfDay ==> r == Holiday
    ensures d == Holiday ==> r == FullDay
    ensures d == Weekend ==> r == Weekend
  {
    match d
    case FullDay => HalfDay
    case HalfDay => Holiday
    case Holiday => FullDay
    case _ => d
  }

  /** The global toggle undoes itself. */
  lemma GlobalToggleInvolution(d: DayType)
    ensures ToggleGlobalDayType(ToggleGlobalDayType(d)) == d
  {
  }

  /** The member toggle is a three-cycle: three presses give back any day type. */
  lemma MemberToggleThreeCycle(d: DayType)
    ensures ToggleMemberOffDayType(ToggleMemberOffDayType(ToggleMemberOffDayType(d))) == d
  {
  }

  /** Neither toggle turns a day into a weekend, nor a weekend into anything else. */
  lemma TogglesPreserveWeekend(d: DayType)
    ensures ToggleGlobalDayType(d) == Weekend <==> d == Weekend
    ensures ToggleMemberOffDayType(d) == Weekend <==> d == Weekend
  {
  }
}
