/**
 * The "MM/YYYY" label of a simulated month (formatMonthLabel in src/lib/pac.ts):
 * the start month shifted by a number of months, with month overflow carried
 * into the year, rendered as a two-digit month, a slash and the year.
 */
module MonthLabel {
  import opened Wrappers

  /** A calendar month as a JavaScript Date reports it: the full year and a 0-based month. */
  datatype YearMonth = YearMonth(year: int, month0: int)

  predicate ValidYearMonth(ym: YearMonth) {
    0 <= ym.month0 < 12
  }

  /** The number of months from January of year 0 to `ym`. */
  function MonthNumber(ym: YearMonth): int {
    ym.year * 12 + ym.month0
  }

  /** The calendar month `k` months after `ym`; setMonth carries an out-of-range month into the year. */
  function AddMonths(ym: YearMonth, k: int): (r: YearMonth)
    ensures ValidYearMonth(r)
    ensures MonthNumber(r) == MonthNumber(ym) + k
  {
    var n := MonthNumber(ym) + k;
    YearMonth(n / 12, n % 12)
  }

  /** A valid calendar month is determined by its month number. */
  lemma MonthNumberInjective(a: YearMonth, b: YearMonth)
    requires ValidYearMonth(a) && ValidYearMonth(b)
    requires MonthNumber(a) == MonthNumber(b)
    ensures a == b
  {
  }

  /** Shifting twice is shifting by the sum. */
  lemma AddMonthsCompose(ym: YearMonth, j: int, k: int)
    ensures AddMonths(AddMonths(ym, j), k) == AddMonths(ym, j + k)
  {
    MonthNumberInjective(AddMonths(AddMonths(ym, j), k), AddMonths(ym, j + k));
  }

  // Decimal text, as JavaScript's String(n) renders an integer.

  predicate IsDigit(c: char) {
    '0' <= c <= '9'
  }

  predicate AllDigits(s: string) {
    forall i :: 0 <= i < |s| ==> IsDigit(s[i])
  }

  function DigitChar(d: nat): (c: char)
    requires d < 10
    ensures IsDigit(c)
  {
    (48 + d) as char
  }

  function DigitValue(c: char): (d: nat)
    requires IsDigit(c)
    ensures d < 10
  {
    (c as int) - 48
  }

  /** The shortest decimal rendering of `n`. */
  function NatToDecimal(n: nat): (s: string)
    ensures 1 <= |s|
    ensures AllDigits(s)
    ensures 1 < |s| ==> s[0] != '0'
    ensures n < 10 <==> |s| == 1
  {
    if n < 10 then [DigitChar(n)] else NatToDecimal(n / 10) + [DigitChar(n % 10)]
  }

  /** The number a string of digits denotes. */
  function DecimalValue(s: string): nat
    requires AllDigits(s)
  {
    if s == [] then 0 else DecimalValue(s[..|s| - 1]) * 10 + DigitValue(s[|s| - 1])
  }

  lemma {:induction false} DecimalRoundTrip(n: nat)
    ensures DecimalValue(NatToDecimal(n)) == n
  {
    if n >= 10 {
      var s := NatToDecimal(n);
      assert s[..|s| - 1] == NatToDecimal(n / 10);
      DecimalRoundTrip(n / 10);
    }
  }

  /** The decimal rendering of an integer: a minus sign before the digits of its magnitude when negative. */
  function IntToDecimal(i: int): (s: string)
    ensures 1 <= |s|
    ensures i < 0 <==> s[0] == '-'
    ensures i < 0 ==> AllDigits(s[1..])
    ensures i >= 0 ==> AllDigits(s)
    ensures i >= 0 && 1 < |s| ==> s[0] != '0'
    ensures i < 0 ==> 1 < |s| && (2 < |s| ==> s[1] != '0')
  {
    if i < 0 then "-" + NatToDecimal(-i) else NatToDecimal(i)
  }

  predicate IsIntText(s: string) {
    if 0 < |s| && s[0] == '-' then 1 < |s| && AllDigits(s[1..]) else 0 < |s| && AllDigits(s)
  }

  function IntValue(s: string): int
    requires IsIntText(s)
  {
    if s[0] == '-' then 0 - DecimalValue(s[1..]) as int else DecimalValue(s)
  }

  lemma IntRoundTrip(i: int)
    ensures IsIntText(IntToDecimal(i))
    ensures IntValue(IntToDecimal(i)) == i
  {
    var s := IntToDecimal(i);
    if i < 0 {
      assert s[1..] == NatToDecimal(-i);
      DecimalRoundTrip(-i);
    } else {
      DecimalRoundTrip(i);
    }
  }

  /** String.prototype.padStart: `fill` repeated in front of `s` up to `width` characters. */
  function PadStart(s: string, width: nat, fill: char): string {
    if |s| < width then seq(width - |s|, _ => fill) + s else s
  }

  /** The padded text is `fill` up to `width` characters, then `s` unchanged. */
  lemma PadStartShape(s: string, width: nat, fill: char)
    ensures var r := PadStart(s, width, fill);
      && |r| == (if |s| < width then width else |s|)
      && r[|r| - |s|..] == s
      && forall i :: 0 <= i < |r| - |s| ==> r[i] == fill
  {
  }

  /** The label of the month `monthIndex` months after `start`: "MM/" followed by the year. */
  function FormatMonthLabel(start: YearMonth, monthIndex: int): (r: string)
  {
    var date := AddMonths(start, monthIndex);
    PadStart(NatToDecimal(date.month0 + 1), 2, '0') + "/" + IntToDecimal(date.year)
  }

  /** Every label is the two-digit month number, a slash and the year's text. */
  lemma LabelShape(start: YearMonth, monthIndex: int)
    ensures var r := FormatMonthLabel(start, monthIndex);
      var date := AddMonths(start, monthIndex);
      && 4 <= |r| && r[2] == '/' && IsDigit(r[0]) && IsDigit(r[1])
      && DecimalValue(r[..2]) == date.month0 + 1
      && IsIntText(r[3..]) && IntValue(r[3..]) == date.year
  {
    var date := AddMonths(start, monthIndex);
    var r := FormatMonthLabel(start, monthIndex);
    TwoDigitMonth(date.month0);
    IntRoundTrip(date.year);
    assert r[..2] == PadStart(NatToDecimal(date.month0 + 1), 2, '0');
    assert r[3..] == IntToDecimal(date.year);
  }

  /** Reads a label back: two digits naming a month 01..12, a slash, then a year. */
  function ParseMonthLabel(s: string): (r: Option<YearMonth>)
    ensures r.Some? ==> ValidYearMonth(r.value)
  {
    if 4 <= |s| && IsDigit(s[0]) && IsDigit(s[1]) && s[2] == '/' && IsIntText(s[3..]) then
      var month := DecimalValue(s[..2]);
      if 1 <= month <= 12 then Some(YearMonth(IntValue(s[3..]), month - 1)) else None
    else
      None
  }

  /** The month digits render month0 + 1 in two characters. */
  lemma TwoDigitMonth(month0: int)
    requires 0 <= month0 < 12
    ensures var t := PadStart(NatToDecimal(month0 + 1), 2, '0');
      |t| == 2 && AllDigits(t) && DecimalValue(t) == month0 + 1
  {
    var d := NatToDecimal(month0 + 1);
    var t := PadStart(d, 2, '0');
    PadStartShape(d, 2, '0');
    DecimalRoundTrip(month0 + 1);
    if month0 + 1 < 10 {
      assert t == ['0'] + d;
      assert t[..1] == ['0'];
    } else {
      assert t == d;
    }
  }

  /** A label names exactly the month it was made for. */
  lemma LabelRoundTrip(start: YearMonth, monthIndex: int)
    ensures ParseMonthLabel(FormatMonthLabel(start, monthIndex)) == Some(AddMonths(start, monthIndex))
  {
    var date := AddMonths(start, monthIndex);
    var mm := PadStart(NatToDecimal(date.month0 + 1), 2, '0');
    var yy := IntToDecimal(date.year);
    var s := FormatMonthLabel(start, monthIndex);
    assert s == mm + "/" + yy;
    TwoDigitMonth(date.month0);
    IntRoundTrip(date.year);
    assert s[..2] == mm;
    assert s[3..] == yy;
  }
}
