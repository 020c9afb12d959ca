/**
 * `getStartDate`: the date of the first day of a date-sorted copy of the
 * days, which is the earliest date among them. The input is not reordered
 * (the sort runs on a copy; here the input is a value). An empty input has no
 * first element, and reading its date fails.
 */
module StartDate {
  import opened Wrappers
  import opened Calendar

  /** The earliest date of a non-empty list of days. */
  function Earliest(days: seq<Day>): (r: Date)
    requires |days| > 0
    ensures exists i :: 0 <= i < |days| && days[i].date == r
    ensures forall i :: 0 <= i < |days| ==> r <= days[i].date
  {
    if |days| == 1 then days[0].date
    else
      var rest := Earliest(days[1..]);
      assert forall i :: 1 <= i < |days| ==> days[i] == days[1..][i - 1];
      if days[0].date <= rest then days[0].date else rest
  }

  function GetStartDate(days: seq<Day>): (r: Option<Date>)
    ensures r.None? <==> |days| == 0
    ensures r.Some? ==> exists i :: 0 <= i < |days| && days[i].date == r.value
    ensures r.Some? ==> forall i :: 0 <= i < |days| ==> r.value <= days[i].date
  {
    if |days| == 0 then None else Some(Earliest(days))
  }

  /** A single day's date is the start date. */
  lemma GetStartDateSingle(day: Day)
    ensures GetStartDate([day]) == Some(day.date)
  {
  }

  /** The start date does not depend on the order of the days. */
  lemma {:induction false} GetStartDateOrderFree(days: seq<Day>, other: seq<Day>)
    requires multiset(days) == multiset(other)
    ensures GetStartDate(days) == GetStartDate(other)
  {
    if |days| > 0 {
      assert |other| == |multiset(other)| == |multiset(days)| == |days|;
      var x := Earliest(days);
      var y := Earliest(other);
      var i :| 0 <= i < |days| && days[i].date == x;
      var j :| 0 <= j < |other| && other[j].date == y;
      assert days[i] in multiset(other);
      assert other[j] in multiset(days);
    } else {
      assert |other| == |multiset(other)| == 0;
    }
  }
}
