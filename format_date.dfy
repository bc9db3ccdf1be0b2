/**
 * `formatDate` of src/lib/utils/index.ts: the first 'YYYY', then the first 'MM', then
 * the first 'DD' of the format are replaced by the year, the two-digit month and the
 * two-digit day.
 *
 * The `Date` is given by the three local-time fields `formatDate` reads.
 */
module FormatDate {
  import opened Strings

  /** `getFullYear()`, `getMonth()` (0 for January) and `getDate()`. */
  datatype LocalDate = LocalDate(fullYear: int, monthIndex: nat, date: nat)

  const DefaultFormat := "YYYY-MM-DD"

  /** `String(n).padStart(2, '0')` */
  function TwoDigits(n: nat): (r: string)
    ensures forall k :: 0 <= k < |r| ==> IsDigit(r[k])
  {
    PadStart(NatToString(n), 2, '0')
  }

  /** `format.replace('YYYY', …).replace('MM', …).replace('DD', …)` */
  function Format(d: LocalDate, format: string): string {
    var year := IntToString(d.fullYear);
    var month := TwoDigits(d.monthIndex + 1);
    var day := TwoDigits(d.date);
    ReplaceFirst(ReplaceFirst(ReplaceFirst(format, "YYYY", year), "MM", month), "DD", day)
  }

  lemma {:induction false} LeadingZero(s: string)
    requires forall k :: 0 <= k < |s| ==> IsDigit(s[k])
    ensures DecimalValue("0" + s) == DecimalValue(s)
    decreases |s|
  {
    if s != [] {
      var t := "0" + s;
      assert t[..|t| - 1] == "0" + s[..|s| - 1];
      LeadingZero(s[..|s| - 1]);
    }
  }

  /**
   * A month or day below 100 becomes exactly two digits that read back as the number;
   * the first is '0' exactly when the number is below 10.
   */
  lemma TwoDigitsFacts(n: nat)
    requires n < 100
    ensures |TwoDigits(n)| == 2 && DecimalValue(TwoDigits(n)) == n
    ensures TwoDigits(n)[0] == '0' <==> n < 10
  {
    NatToStringRoundTrip(n);
    if n < 10 {
      assert TwoDigits(n) == "0" + NatToString(n);
      LeadingZero(NatToString(n));
    } else {
      assert NatToString(n) == NatToString(n / 10) + [DigitChar(n % 10)];
    }
  }

  /** A number's text holds no letter of a token. */
  lemma NumberHasNoTokenLetters(s: string)
    requires forall k :: 0 <= k < |s| ==> IsDigit(s[k]) || s[k] == '-'
    ensures 'Y' !in s && 'M' !in s && 'D' !in s
  {
  }

  /** The default format gives `<year>-<MM>-<DD>`, the year unpadded. */
  lemma DefaultLayout(d: LocalDate)
    ensures Format(d, DefaultFormat) ==
      IntToString(d.fullYear) + "-" + TwoDigits(d.monthIndex + 1) + "-" + TwoDigits(d.date)
  {
    var year, month, day := IntToString(d.fullYear), TwoDigits(d.monthIndex + 1), TwoDigits(d.date);
    assert 'M' !in year && 'D' !in year && 'D' !in month by {
      NumberHasNoTokenLetters(year);
      NumberHasNoTokenLetters(month);
    }
    YearStep(year);
    MonthStep(year, month);
    DayStep(year + "-" + month + "-", day);
  }

  lemma YearStep(year: string)
    ensures ReplaceFirst(DefaultFormat, "YYYY", year) == (year + "-") + "MM" + "-DD"
  {
    assert DefaultFormat == "" + "YYYY" + "-MM-DD";
    ReplaceFirstAfter("", "YYYY", "-MM-DD", year);
  }

  lemma MonthStep(year: string, month: string)
    requires 'M' !in year
    ensures ReplaceFirst((year + "-") + "MM" + "-DD", "MM", month) == (year + "-" + month + "-") + "DD"
  {
    ReplaceFirstAfter(year + "-", "MM", "-DD", month);
    assert (year + "-") + month + "-DD" == (year + "-" + month + "-") + "DD";
  }

  lemma DayStep(text: string, day: string)
    requires 'D' !in text
    ensures ReplaceFirst(text + "DD", "DD", day) == text + day
  {
    ReplaceFirstAfter(text, "DD", "", day);
    assert text + "DD" + "" == text + "DD" && text + day + "" == text + day;
  }

  /** A format with none of the three tokens comes back unchanged. */
  lemma NoTokensUnchanged(d: LocalDate, format: string)
    requires !Contains(format, "YYYY") && !Contains(format, "MM") && !Contains(format, "DD")
    ensures Format(d, format) == format
  {
    ReplaceFirstAbsent(format, "YYYY", IntToString(d.fullYear));
    ReplaceFirstAbsent(format, "MM", TwoDigits(d.monthIndex + 1));
    ReplaceFirstAbsent(format, "DD", TwoDigits(d.date));
  }

  /** Only the first 'YYYY' is replaced: a second one stays in the result. */
  lemma SecondYearTokenKept(d: LocalDate)
    ensures Format(d, "YYYY/YYYY") == IntToString(d.fullYear) + "/YYYY"
  {
    var year := IntToString(d.fullYear);
    var s1 := ReplaceFirst("YYYY/YYYY", "YYYY", year);
    assert s1 == year + "/YYYY" by {
      assert "YYYY/YYYY" == "" + "YYYY" + "/YYYY";
      ReplaceFirstAfter("", "YYYY", "/YYYY", year);
    }
    assert 'M' !in s1 && 'D' !in s1 by {
      NumberHasNoTokenLetters(year);
    }
    AbsentFirstChar(s1, "MM");
    ReplaceFirstAbsent(s1, "MM", TwoDigits(d.monthIndex + 1));
    AbsentFirstChar(s1, "DD");
    ReplaceFirstAbsent(s1, "DD", TwoDigits(d.date));
  }

  /** January is month 1: the 0-based `getMonth()` is shifted, and small numbers get a leading zero. */
  lemma JanuaryFirst(year: int)
    ensures Format(LocalDate(year, 0, 1), DefaultFormat) == IntToString(year) + "-" + "01" + "-" + "01"
  {
    DefaultLayout(LocalDate(year, 0, 1));
    assert TwoDigits(1) == "01" by {
      assert NatToString(1) == "1";
    }
  }
}
