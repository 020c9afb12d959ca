/**
 * `formatDate(date)`: the `yyyy-mm-dd` text of a date input. The date's
 * fields are parameters: `year` is `getFullYear()`, `month` is the
 * zero-based `getMonth()` and `day` is `getDate()`.
 */
module FormatDateInput {
  import opened NumberText


  /** `s.padStart(2, '0')` */
  function PadStart2(s: string): (r: string)
    ensures |s| >= 2 ==> r == s
    ensures |s| < 2 ==> |r| == 2 && r[2 - |s|..] == s && forall i :: 0 <= i < 2 - |s| ==> r[i] == '0'
    decreases 2 - |s|
  {
    if |s| >= 2 then s else PadStart2("0" + s)
  }

  function FormatDate(year: int, month: int, day: int): string
  {
    IntToString(year) + "-" + PadStart2(IntToString(month + 1)) + "-" + PadStart2(IntToString(day))
  }

  /** A padded one- or two-digit field is two digits denoting `n`. */
  lemma PaddedField(n: nat)
    requires n < 100
    ensures |PadStart2(NatToString(n))| == 2
    ensures AllDigits(PadStart2(NatToString(n)))
    ensures DigitsValue(PadStart2(NatToString(n))) == n
  {
    NatToStringLength(n);
    NatToStringRoundTrip(n);
    if n < 10 {
      assert PadStart2(NatToString(n)) == "0" + NatToString(n);
      LeadingZeroValue(NatToString(n));
    }
  }

  /** The three fields of a `${y}-${m}-${d}` text with a four-digit `y` and two-digit `m` and `d`. */
  lemma JoinedFields(y: string, m: string, d: string)
    requires |y| == 4 && |m| == 2 && |d| == 2
    ensures var s := y + "-" + m + "-" + d;
      |s| == 10 && s[4] == '-' && s[7] == '-' && s[..4] == y && s[5..7] == m && s[8..] == d
  {
  }

  /**
   * For a four-digit year, a month index 0-11 and a day 1-31 the text is
   * `yyyy-mm-dd`, and each field is a run of digits that reads back as the
   * year, the one-based month and the day.
   */
  lemma FormatDateFields(year: int, month: int, day: int)
    requires 1000 <= year <= 9999 && 0 <= month <= 11 && 1 <= day <= 31
    ensures var s := FormatDate(year, month, day);
      |s| == 10 && s[4] == '-' && s[7] == '-' &&
      AllDigits(s[..4]) && DigitsValue(s[..4]) == year &&
      AllDigits(s[5..7]) && DigitsValue(s[5..7]) == month + 1 &&
      AllDigits(s[8..]) && DigitsValue(s[8..]) == day
  {
    var y := NatToString(year);
    var m := PadStart2(NatToString(month + 1));
    var d := PadStart2(NatToString(day));
    NatToStringLength(year);
    NatToStringRoundTrip(year);
    PaddedField(month + 1);
    PaddedField(day);
    JoinedFields(y, m, d);
  }

  lemma FormatDateExamples()
    ensures FormatDate(2024, 0, 5) == "2024-01-05"
    ensures FormatDate(2024, 4, 7) == "2024-05-07"
  {
    assert NatToString(2024) == "2024" by {
      assert NatToString(202) == "202" by {
        assert NatToString(20) == "20";
      }
    }
  }
}
