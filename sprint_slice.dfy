/**
 * The sprint slice: a start date and a days array whose entries only carry
 * a holiday flag as a string. `setLength` cuts the array down, or pads it
 * with `{ isHoliday: 'false' }` entries; a non-positive length is ignored.
 * Today's formatted date is a parameter.
 */
module SprintSlice {

  datatype SprintDay = SprintDay(isHoliday: string)

  /** The entry `setLength` pads with. */
  const PaddingDay := SprintDay("false")

  /** `Array(count).fill({ isHoliday: 'false' })` */
  function Padding(count: nat): (r: seq<SprintDay>)
    ensures |r| == count && forall i :: 0 <= i < count ==> r[i] == PaddingDay
  {
    seq(count, _ => PaddingDay)
  }

  class SprintState {
    var startDate: string
    var days: seq<SprintDay>

    /** `initialState`: today's date and no days. */
    constructor (today: string)
      ensures startDate == today && days == []
    {
      startDate := today;
      days := [];
    }

    method SetLength(newLength: int)
      modifies this
      ensures newLength <= 0 ==> days == old(days)
      ensures newLength > 0 ==> |days| == newLength
      ensures newLength > 0 && newLength < |old(days)| ==> days == old(days)[..newLength]
      ensures newLength >= |old(days)| ==> days == old(days) + Padding(newLength - |old(days)|)
      ensures days == Resized(old(days), newLength)
      ensures startDate == old(startDate)
    {
      if newLength <= 0 {
        return;
      }
      if |days| > newLength {
        // `splice(newLength)` drops the tail in place
        days := days[..newLength];
      } else {
        days := days + Padding(newLength - |days|);
      }
    }

    method SetStartDate(newStartDate: string)
      modifies this
      ensures startDate == newStartDate && days == old(days)
    {
      startDate := newStartDate;
    }
  }

  /**
   * The state change `setLength` makes, as a value: the existing prefix is
   * kept and the rest is padding.
   */
  function Resized(days: seq<SprintDay>, newLength: int): (r: seq<SprintDay>)
    ensures newLength <= 0 ==> r == days
    ensures newLength > 0 ==> |r| == newLength
    ensures forall i :: 0 <= i < |r| && i < |days| ==> r[i] == days[i]
    ensures forall i :: |days| <= i < |r| ==> r[i] == PaddingDay
  {
    if newLength <= 0 then days
    else if |days| > newLength then days[..newLength]
    else days + Padding(newLength - |days|)
  }

  /** Resizing twice to one length is resizing once. */
  lemma ResizedIdempotent(days: seq<SprintDay>, n: int)
    ensures Resized(Resized(days, n), n) == Resized(days, n)
  {
    if n > 0 {
      assert Padding(0) == [];
    }
  }

  /** Growing and then shrinking back to the original length restores the days. */
  lemma GrowThenShrinkRestores(days: seq<SprintDay>, n: int)
    requires |days| > 0 && n >= |days|
    ensures Resized(Resized(days, n), |days|) == days
  {
    if n > |days| {
      assert Resized(days, n)[..|days|] == days;
    } else {
      assert Padding(0) == [];
    }
  }
}
