/**
 * The room slice: the room id, the sprint's start date and its days. The
 * reducers assign the draft's fields; a reducer that reads a day that is not
 * there fails, and a failing reducer leaves the state as it was. Today's date
 * is a parameter.
 */
module RoomSlice {
  import opened Wrappers
  import opened Calendar
  import opened DayGenerator
  import StartDate

  /** The number of days a fresh room starts with. */
  const InitialLength := 9

  ghost predicate SortedByDate(s: seq<Day>)
  {
    forall p, q :: 0 <= p < q < |s| ==> s[p].date <= s[q].date
  }

  /**
   * `room.days.sort((a, b) => a.date < b.date ? -1 : 1)`: sorts the days by
   * date in place. The comparator never reports a tie, so the order among
   * days with one date is the engine's choice; this contract fixes none.
   */
  method SortByDate(a: array<Day>)
    modifies a
    ensures SortedByDate(a[..])
    ensures multiset(a[..]) == multiset(old(a[..]))
  {
    var i := 0;
    while i < a.Length
      invariant 0 <= i <= a.Length
      invariant SortedByDate(a[..i])
      invariant multiset(a[..]) == multiset(old(a[..]))
    {
      InsertIntoSorted(a, i);
      i := i + 1;
    }
    assert a[..a.Length] == a[..];
  }

  /** Moves `a[i]` down into the sorted prefix `a[..i]`. */
  method InsertIntoSorted(a: array<Day>, i: nat)
    requires i < a.Length && SortedByDate(a[..i])
    modifies a
    ensures SortedByDate(a[..i + 1])
    ensures multiset(a[..]) == multiset(old(a[..]))
  {
    var j := i;
    while j > 0 && a[j - 1].date > a[j].date
      invariant 0 <= j <= i
      invariant forall p, q :: 0 <= p < q <= i && p != j && q != j ==> a[p].date <= a[q].date
      invariant forall q :: j < q <= i ==> a[j].date < a[q].date
      invariant multiset(a[..]) == multiset(old(a[..]))
    {
      Swap(a, j - 1, j);
      j := j - 1;
    }
  }

  method Swap(a: array<Day>, i: nat, j: nat)
    requires i < j < a.Length
    modifies a
    ensures a[i] == old(a[j]) && a[j] == old(a[i])
    ensures forall k :: 0 <= k < a.Length && k != i && k != j ==> a[k] == old(a[k])
    ensures multiset(a[..]) == multiset(old(a[..]))
  {
    a[i], a[j] := a[j], a[i];
  }

  /** The first day of a sorted permutation carries the earliest date. */
  lemma SortedFirstIsStartDate(sorted: seq<Day>, days: seq<Day>)
    requires SortedByDate(sorted) && multiset(sorted) == multiset(days) && |days| > 0
    ensures |sorted| > 0 && StartDate.GetStartDate(days) == Some(sorted[0].date)
  {
    StartDate.GetStartDateOrderFree(sorted, days);
    assert |sorted| == |multiset(sorted)|;
  }

  class RoomState {
    var id: Option<string>
    var startDate: Date
    var days: seq<Day>

    /** `initialState`: no room, starting today, nine generated days. */
    constructor (today: Date)
      ensures id == None && startDate == today
      ensures days == GenerateDays(today, [], InitialLength) && |days| == InitialLength
    {
      id := None;
      startDate := today;
      days := GenerateDays(today, [], InitialLength);
    }

    method SetRoomId(roomId: string)
      modifies this
      ensures id == Some(roomId)
      ensures startDate == old(startDate) && days == old(days)
    {
      id := Some(roomId);
    }

    /** `clearRoom`: back to the initial room for the given today. */
    method ClearRoom(today: Date)
      modifies this
      ensures id == None && startDate == today
      ensures days == GenerateDays(today, [], InitialLength) && |days| == InitialLength
    {
      id := None;
      startDate := today;
      days := GenerateDays(startDate, [], InitialLength);
    }

    /** `setLength`: a positive length regenerates the days to that length; any other is ignored. */
    method SetLength(newLength: int)
      modifies this
      ensures newLength <= 0 ==> days == old(days)
      ensures newLength > 0 ==> days == GenerateDays(old(startDate), old(days), newLength) && |days| == newLength
      ensures id == old(id) && startDate == old(startDate)
    {
      if newLength > 0 {
        days := GenerateDays(startDate, days, newLength);
      }
    }

    /**
     * `setStartDate`: the days are recomputed by `getUpdatedDays`, which is
     * not part of this model and is passed in, and the start date is set.
     */
    method SetStartDate(newStartDate: Date, getUpdatedDays: (seq<Day>, Date) -> seq<Day>)
      modifies this
      ensures days == getUpdatedDays(old(days), newStartDate)
      ensures startDate == newStartDate && id == old(id)
    {
      days := getUpdatedDays(days, newStartDate);
      startDate := newStartDate;
    }

    /**
     * `toggleGlobalNonWorkingDay`: flips one day's flag. Reading a day outside
     * the array fails (`ok` is false) and nothing changes.
     */
    method ToggleGlobalNonWorkingDay(index: int) returns (ok: bool)
      modifies this
      ensures ok <==> 0 <= index < |old(days)|
      ensures days == FlipAt(old(days), index)
      ensures id == old(id) && startDate == old(startDate)
    {
      ok := 0 <= index < |days|;
      if ok {
        days := days[index := Flip(days[index])];
      }
    }

    /**
     * `fetchRoomAndSet.fulfilled`: sorts the fetched days by date in place,
     * then adopts the room's id, the sorted days and the earliest date as the
     * start date. A room without days has no first day to read, so the case
     * fails and the state is kept.
     */
    method FetchRoomAndSetFulfilled(roomId: string, roomDays: array<Day>) returns (ok: bool)
      modifies this, roomDays
      ensures SortedByDate(roomDays[..]) && multiset(roomDays[..]) == multiset(old(roomDays[..]))
      ensures ok <==> roomDays.Length > 0
      ensures ok ==> id == Some(roomId) && days == roomDays[..]
      ensures ok ==> Some(startDate) == StartDate.GetStartDate(old(roomDays[..]))
      ensures !ok ==> id == old(id) && startDate == old(startDate) && days == old(days)
    {
      ghost var fetched := roomDays[..];
      SortByDate(roomDays);
      ok := roomDays.Length > 0;
      if ok {
        SortedFirstIsStartDate(roomDays[..], fetched);
        id := Some(roomId);
        days := roomDays[..];
        startDate := roomDays[0].date;
      }
    }
  }
}
