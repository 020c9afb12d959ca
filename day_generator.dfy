/**
 * `generateDay` and `generateDays`: extend a days array with freshly
 * generated working days, or trim it to a prefix.
 */
module DayGenerator {
  import opened Calendar

  /**
   * The day `offset` days after `startDate`; a generated day is always a
   * working day. The calendar arithmetic of `Date.setDate` (month and year
   * rollover) is integer addition on ordinal dates.
   */
  function GenerateDay(startDate: Date, offset: int): Day
  {
    Day(startDate + offset, false)
  }

  /**
   * The end index that JavaScript's `slice(0, end)` uses on an array of
   * length `len`: a negative `end` counts back from the end of the array.
   */
  function SliceEnd(len: nat, end: int): (r: nat)
    ensures r <= len
    ensures 0 <= end <= len ==> r == end
    ensures end < 0 ==> r == if len + end < 0 then 0 else len + end
  {
    if end < 0 then (if len + end < 0 then 0 else len + end)
    else if end > len then len
    else end
  }

  /**
   * `generateDays(startDate, currentDays, newLength)`: when `newLength`
   * exceeds the current length, the current days are kept and the new
   * positions `i` are filled with `generateDay(startDate, i)`; otherwise the
   * result is `currentDays.slice(0, newLength)`.
   */
  function GenerateDays(startDate: Date, currentDays: seq<Day>, newLength: int): (r: seq<Day>)
    ensures newLength >= 0 ==> |r| == newLength
    ensures newLength < 0 ==> r == currentDays[..SliceEnd(|currentDays|, newLength)]
    ensures forall i :: 0 <= i < |r| && i < |currentDays| ==> r[i] == currentDays[i]
    ensures forall i :: |currentDays| <= i < |r| ==> r[i] == GenerateDay(startDate, i)
    ensures 0 <= newLength <= |currentDays| ==> r == currentDays[..newLength]
  {
    if newLength > |currentDays| then
      currentDays + seq(newLength - |currentDays|, i => GenerateDay(startDate, |currentDays| + i))
    else
      currentDays[..SliceEnd(|currentDays|, newLength)]
  }

  /** Generating from nothing gives consecutive working days from the start date. */
  lemma GenerateDaysFromEmpty(startDate: Date, n: nat)
    ensures |GenerateDays(startDate, [], n)| == n
    ensures forall i :: 0 <= i < n ==>
      GenerateDays(startDate, [], n)[i].date == startDate + i &&
      !GenerateDays(startDate, [], n)[i].isNonWorkingDay
  {
  }

  /** A length of zero always yields an empty array. */
  lemma GenerateDaysZero(startDate: Date, currentDays: seq<Day>)
    ensures GenerateDays(startDate, currentDays, 0) == []
  {
  }

  /** At a fixed non-negative length, generating again changes nothing. */
  lemma GenerateDaysIdempotent(startDate: Date, currentDays: seq<Day>, n: nat)
    ensures GenerateDays(startDate, GenerateDays(startDate, currentDays, n), n)
         == GenerateDays(startDate, currentDays, n)
  {
    var once := GenerateDays(startDate, currentDays, n);
    assert once[..n] == once;
  }

  /**
   * Extending and then cutting back to any shorter length is the same as
   * generating that length directly, as long as the extension did not drop
   * existing days first.
   */
  lemma GenerateDaysThenShorter(startDate: Date, currentDays: seq<Day>, m: nat, n: nat)
    requires n <= m
    ensures GenerateDays(startDate, GenerateDays(startDate, currentDays, m), n)
         == GenerateDays(startDate, currentDays, n)
  {
    var once := GenerateDays(startDate, currentDays, m);
    var twice := GenerateDays(startDate, once, n);
    var direct := GenerateDays(startDate, currentDays, n);
    assert |twice| == |direct| == n;
    forall i | 0 <= i < n ensures twice[i] == direct[i] {
      assert twice[i] == once[i];
    }
  }

  /** Extending and then cutting back to the original length restores it. */
  lemma ExtendThenTrimRestores(startDate: Date, currentDays: seq<Day>, m: nat)
    requires |currentDays| <= m
    ensures GenerateDays(startDate, GenerateDays(startDate, currentDays, m), |currentDays|) == currentDays
  {
    GenerateDaysThenShorter(startDate, currentDays, m, |currentDays|);
    assert currentDays[..|currentDays|] == currentDays;
  }

  /**
   * Shrinking below the current length and growing back does not restore
   * the dropped days: the regrown positions are fresh working days.
   */
  lemma ShrinkThenGrowRegenerates(startDate: Date, currentDays: seq<Day>, m: nat, n: nat)
    requires m < |currentDays| && m <= n
    ensures forall i :: m <= i < n ==>
      GenerateDays(startDate, GenerateDays(startDate, currentDays, m), n)[i] == GenerateDay(startDate, i)
  {
  }
}
