/**
 * formatMonthLabel (src/lib/pac.ts:13-17) as written: it copies the start
 * date, day of month included, and calls setMonth on the copy. When the day
 * does not exist in the target month, the JavaScript Date rolls the surplus
 * days into the following month, so the label can name the month after the
 * intended one. The rest of the model labels points by calendar month alone
 * (MonthLabel.FormatMonthLabel); this module shows where the two part ways.
 */
module DateOverflow {
  import opened Wrappers
  import opened MonthLabel

  /** A day of the proleptic Gregorian calendar: full year, 0-based month, 1-based day. */
  datatype CalendarDate = CalendarDate(year: int, month0: int, day: int)

  predicate IsLeapYear(year: int) {
    (year % 4 == 0 && year % 100 != 0) || year % 400 == 0
  }

  function DaysInMonth(year: int, month0: int): (n: int)
    ensures 28 <= n <= 31
  {
    if month0 == 1 then (if IsLeapYear(year) then 29 else 28)
    else if month0 == 3 || month0 == 5 || month0 == 8 || month0 == 10 then 30
    else 31
  }

  predicate ValidDate(d: CalendarDate) {
    0 <= d.month0 < 12 && 1 <= d.day <= DaysInMonth(d.year, d.month0)
  }

  /** The calendar month of a date. */
  function MonthOf(d: CalendarDate): YearMonth {
    YearMonth(d.year, d.month0)
  }

  /**
   * Date.prototype.setMonth(month): an out-of-range month carries into the
   * year, and a day past the end of the resulting month rolls over into the
   * next month.
   */
  function SetMonth(d: CalendarDate, month: int): (r: CalendarDate)
    requires ValidDate(d)
    ensures ValidDate(r)
    ensures MonthNumber(MonthOf(r)) == d.year * 12 + month || MonthNumber(MonthOf(r)) == d.year * 12 + month + 1
  {
    var target := AddMonths(YearMonth(d.year, 0), month);
    var length := DaysInMonth(target.year, target.month0);
    if d.day <= length then
      CalendarDate(target.year, target.month0, d.day)
    else
      var next := AddMonths(target, 1);
      CalendarDate(next.year, next.month0, d.day - length)
  }

  /** The month formatMonthLabel renders: that of the copy after `setMonth(getMonth() + monthIndex)`. */
  function LabelledMonthAsWritten(start: CalendarDate, monthIndex: int): YearMonth
    requires ValidDate(start)
  {
    MonthOf(SetMonth(start, start.month0 + monthIndex))
  }

  /** The label formatMonthLabel produces. */
  function FormatMonthLabelAsWritten(start: CalendarDate, monthIndex: int): string
    requires ValidDate(start)
  {
    FormatMonthLabel(LabelledMonthAsWritten(start, monthIndex), 0)
  }

  /** The label as written reads back as the month setMonth landed in. */
  lemma AsWrittenLabelNames(start: CalendarDate, monthIndex: int)
    requires ValidDate(start)
    ensures ParseMonthLabel(FormatMonthLabelAsWritten(start, monthIndex)) == Some(LabelledMonthAsWritten(start, monthIndex))
  {
    var month := LabelledMonthAsWritten(start, monthIndex);
    AddMonthsZero(month);
    LabelRoundTrip(month, 0);
  }

  /** Shifting by no months leaves a valid calendar month as it is. */
  lemma AddMonthsZero(ym: YearMonth)
    requires ValidYearMonth(ym)
    ensures AddMonths(ym, 0) == ym
  {
    MonthNumberInjective(AddMonths(ym, 0), ym);
  }

  /** The month after a month shorter than 31 days has 31 days. */
  lemma AfterShortMonth(ym: YearMonth)
    requires ValidYearMonth(ym)
    requires DaysInMonth(ym.year, ym.month0) < 31
    ensures var next := AddMonths(ym, 1);
      DaysInMonth(next.year, next.month0) == 31
  {
  }

  /** Where setMonth lands for `monthIndex` months on: the calendar month, or the one after it on overflow. */
  lemma SetMonthTarget(start: CalendarDate, monthIndex: int)
    requires ValidDate(start)
    ensures var target := AddMonths(MonthOf(start), monthIndex);
      var date := SetMonth(start, start.month0 + monthIndex);
      && (start.day <= DaysInMonth(target.year, target.month0) ==> MonthOf(date) == target)
      && (start.day > DaysInMonth(target.year, target.month0) ==> MonthOf(date) == AddMonths(target, 1))
  {
    MonthNumberInjective(AddMonths(YearMonth(start.year, 0), start.month0 + monthIndex), AddMonths(MonthOf(start), monthIndex));
  }

  /** From a start day of 1 to 28 the label as written is the calendar-month label the model uses. */
  lemma AsWrittenAgreesEarlyInMonth(start: CalendarDate, monthIndex: int)
    requires ValidDate(start)
    requires start.day <= 28
    ensures LabelledMonthAsWritten(start, monthIndex) == AddMonths(MonthOf(start), monthIndex)
    ensures FormatMonthLabelAsWritten(start, monthIndex) == FormatMonthLabel(MonthOf(start), monthIndex)
  {
    SetMonthTarget(start, monthIndex);
    AddMonthsZero(AddMonths(MonthOf(start), monthIndex));
  }

  /** The month before a month shorter than 31 days has 31 days. */
  lemma BeforeShortMonth(ym: YearMonth)
    requires ValidYearMonth(ym)
    requires DaysInMonth(ym.year, ym.month0) < 31
    ensures var previous := AddMonths(ym, -1);
      DaysInMonth(previous.year, previous.month0) == 31
  {
  }

  /** On overflow `monthIndex` months on, setMonth lands in the month after. */
  lemma OverflowLandsAfter(start: CalendarDate, monthIndex: int)
    requires ValidDate(start)
    requires var target := AddMonths(MonthOf(start), monthIndex);
      start.day > DaysInMonth(target.year, target.month0)
    ensures LabelledMonthAsWritten(start, monthIndex) == AddMonths(MonthOf(start), monthIndex + 1)
  {
    SetMonthTarget(start, monthIndex);
    AddMonthsCompose(MonthOf(start), monthIndex, 1);
  }

  /** On overflow `monthIndex` months on, the start day exists one month later. */
  lemma FitsAfterOverflow(start: CalendarDate, monthIndex: int)
    requires ValidDate(start)
    requires var target := AddMonths(MonthOf(start), monthIndex);
      start.day > DaysInMonth(target.year, target.month0)
    ensures LabelledMonthAsWritten(start, monthIndex + 1) == AddMonths(MonthOf(start), monthIndex + 1)
  {
    var target := AddMonths(MonthOf(start), monthIndex);
    AfterShortMonth(target);
    AddMonthsCompose(MonthOf(start), monthIndex, 1);
    SetMonthTarget(start, monthIndex + 1);
  }

  /** On overflow `monthIndex` months on, the start day exists one month earlier. */
  lemma FitsBeforeOverflow(start: CalendarDate, monthIndex: int)
    requires ValidDate(start)
    requires var target := AddMonths(MonthOf(start), monthIndex);
      start.day > DaysInMonth(target.year, target.month0)
    ensures LabelledMonthAsWritten(start, monthIndex - 1) == AddMonths(MonthOf(start), monthIndex - 1)
  {
    var target := AddMonths(MonthOf(start), monthIndex);
    BeforeShortMonth(target);
    AddMonthsCompose(MonthOf(start), monthIndex, -1);
    SetMonthTarget(start, monthIndex - 1);
  }

  /**
   * When the start day does not exist `monthIndex` months on, that point and
   * the next one are both labelled with the month after, and the point before
   * is labelled with the month before.
   */
  lemma OverflowRepeatsLabel(start: CalendarDate, monthIndex: int)
    requires ValidDate(start)
    requires var target := AddMonths(MonthOf(start), monthIndex);
      start.day > DaysInMonth(target.year, target.month0)
    ensures var next := AddMonths(MonthOf(start), monthIndex + 1);
      && LabelledMonthAsWritten(start, monthIndex) == next
      && LabelledMonthAsWritten(start, monthIndex + 1) == next
    ensures LabelledMonthAsWritten(start, monthIndex - 1) == AddMonths(MonthOf(start), monthIndex - 1)
  {
    OverflowLandsAfter(start, monthIndex);
    FitsAfterOverflow(start, monthIndex);
    FitsBeforeOverflow(start, monthIndex);
  }

  /**
   * In that case no point at all is labelled with the calendar month
   * `monthIndex` months on: every earlier point names an earlier month and
   * every later point a later one.
   */
  lemma OverflowSkipsMonth(start: CalendarDate, monthIndex: int, j: int)
    requires ValidDate(start)
    requires var target := AddMonths(MonthOf(start), monthIndex);
      start.day > DaysInMonth(target.year, target.month0)
    ensures LabelledMonthAsWritten(start, j) != AddMonths(MonthOf(start), monthIndex)
  {
    var target := AddMonths(MonthOf(start), monthIndex);
    OverflowRepeatsLabel(start, monthIndex);
    var labelled := LabelledMonthAsWritten(start, j);
    assert MonthNumber(labelled) != MonthNumber(target) by {
      SetMonthTarget(start, j);
      if j == monthIndex - 1 {
        assert MonthNumber(labelled) == MonthNumber(target) - 1;
      } else if j == monthIndex {
        assert MonthNumber(labelled) == MonthNumber(target) + 1;
      }
    }
  }

  /** A run started on 31 January 2024 is such a case: February 2024 has 29 days. */
  lemma LastOfJanuary()
    ensures ValidDate(CalendarDate(2024, 0, 31))
    ensures var target := AddMonths(MonthOf(CalendarDate(2024, 0, 31)), 1);
      31 > DaysInMonth(target.year, target.month0)
  {
    assert AddMonths(YearMonth(2024, 0), 1) == YearMonth(2024, 1);
    assert IsLeapYear(2024);
  }
}
