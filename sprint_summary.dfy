/**
 * The sprint summary selectors: the total number of working days over all
 * members, and the number of the room's days that are not working days.
 */
module SprintSummary {
  import opened Calendar
  import opened MembersSlice

  /** `days.filter((day) => !day.isNonWorkingDay).length` */
  function WorkingDays(days: seq<Day>): (r: nat)
    ensures r <= |days|
  {
    if days == [] then 0
    else (if days[0].isNonWorkingDay then 0 else 1) + WorkingDays(days[1..])
  }

  /** `days.filter((day) => day.isNonWorkingDay).length` */
  function NonWorkingDays(days: seq<Day>): (r: nat)
    ensures r <= |days|
  {
    if days == [] then 0
    else (if days[0].isNonWorkingDay then 1 else 0) + NonWorkingDays(days[1..])
  }

  /** Every day is either a working day or not. */
  lemma {:induction false} WorkingAndNonWorkingPartition(days: seq<Day>)
    ensures WorkingDays(days) + NonWorkingDays(days) == |days|
  {
    if days != [] {
      WorkingAndNonWorkingPartition(days[1..]);
    }
  }

  /** The step of the `reduce`: add one member's working days to the running total. */
  function AddWorkingDays(accumulator: int, members: seq<Member>): int
    decreases |members|
  {
    if members == [] then accumulator
    else AddWorkingDays(accumulator + WorkingDays(members[0].days), members[1..])
  }

  /** The total number of days over all members. */
  function TotalDays(members: seq<Member>): nat
  {
    if members == [] then 0 else |members[0].days| + TotalDays(members[1..])
  }

  /** The sum over members of their working days, member by member. */
  function SumWorkingDays(members: seq<Member>): nat
  {
    if members == [] then 0 else WorkingDays(members[0].days) + SumWorkingDays(members[1..])
  }

  lemma {:induction false} AddWorkingDaysIsSum(accumulator: int, members: seq<Member>)
    ensures AddWorkingDays(accumulator, members) == accumulator + SumWorkingDays(members)
    decreases |members|
  {
    if members != [] {
      AddWorkingDaysIsSum(accumulator + WorkingDays(members[0].days), members[1..]);
    }
  }

  lemma {:induction false} SumWorkingDaysBound(members: seq<Member>)
    ensures SumWorkingDays(members) <= TotalDays(members)
  {
    if members != [] {
      SumWorkingDaysBound(members[1..]);
    }
  }

  /**
   * The result function of `selectTotalWorkingDays`: a `reduce` from 0 over
   * the members (as `selectAll` lists them) of each member's working days.
   */
  function SelectTotalWorkingDays(members: seq<Member>): (r: int)
    ensures r == SumWorkingDays(members)
    ensures 0 <= r <= TotalDays(members)
    ensures members == [] ==> r == 0
  {
    AddWorkingDaysIsSum(0, members);
    SumWorkingDaysBound(members);
    AddWorkingDays(0, members)
  }

  /** The result function of `selectHolidays`: the room's days that are not working days. */
  function SelectHolidays(days: seq<Day>): (r: nat)
    ensures r <= |days|
    ensures r == |days| - WorkingDays(days)
  {
    WorkingAndNonWorkingPartition(days);
    NonWorkingDays(days)
  }
}
