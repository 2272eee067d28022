/**
 * Civil dates in the proleptic Gregorian calendar, the way the calendar and history pages
 * use JavaScript `Date` values: a year, a 0-based month (0 = January) and a day of the month.
 * `DayNumber` counts days since 0000-01-01; comparing dates as the source compares `Date`
 * objects is comparing day numbers, and the day of the week follows from the day number.
 */
module CivilDate {
  import opened Wrappers
  import opened Decimal

  datatype Date = Date(year: int, month: int, day: int)

  predicate IsLeapYear(y: int) {
    y % 4 == 0 && (y % 100 != 0 || y % 400 == 0)
  }

  function DaysInMonth(y: int, m: int): (n: int)
    requires 0 <= m < 12
    ensures 28 <= n <= 31
    ensures n == 29 <==> m == 1 && IsLeapYear(y)
  {
    if m == 1 then (if IsLeapYear(y) then 29 else 28)
    else if m == 3 || m == 5 || m == 8 || m == 10 then 30
    else 31
  }

  /** A date that exists: `new Date(y, m, d)` with these fields does not roll over. */
  predicate Valid(d: Date) {
    0 <= d.month < 12 && 1 <= d.day <= DaysInMonth(d.year, d.month)
  }

  function YearLength(y: int): int {
    if IsLeapYear(y) then 366 else 365
  }

  /** Days in the months of year `y` before month `m` (m == 12: the whole year). */
  function DaysBeforeMonth(y: int, m: int): int
    requires 0 <= m <= 12
  {
    var common :=
      if m < 6 then
        (if m == 0 then 0 else if m == 1 then 31 else if m == 2 then 59
         else if m == 3 then 90 else if m == 4 then 120 else 151)
      else
        (if m == 6 then 181 else if m == 7 then 212 else if m == 8 then 243
         else if m == 9 then 273 else if m == 10 then 304 else if m == 11 then 334 else 365);
    common + (if m >= 2 && IsLeapYear(y) then 1 else 0)
  }

  lemma DaysBeforeMonthStep(y: int, m: int)
    requires 0 <= m < 12
    ensures DaysBeforeMonth(y, m + 1) == DaysBeforeMonth(y, m) + DaysInMonth(y, m)
    ensures DaysBeforeMonth(y, 12) == YearLength(y)
  {
  }

  /** Days from 0000-01-01 to the first day of year `y`. */
  function DaysBeforeYear(y: int): int {
    365 * y + (y + 3) / 4 - (y + 99) / 100 + (y + 399) / 400
  }

  lemma YearStep(y: int)
    ensures DaysBeforeYear(y + 1) == DaysBeforeYear(y) + YearLength(y)
  {
    LeapCountStep4(y);
    LeapCountStep100(y);
    LeapCountStep400(y);
    DivisibilityChain(y);
  }

  lemma DivisibilityChain(y: int)
    ensures y % 400 == 0 ==> y % 100 == 0
    ensures y % 100 == 0 ==> y % 4 == 0
  {
    if y % 400 == 0 {
      MultipleOf400(y);
    }
    if y % 100 == 0 {
      MultipleOf100(y);
    }
  }

  lemma MultipleOf400(y: int)
    requires y % 400 == 0
    ensures y % 100 == 0
  {
    var q := y / 400;
    assert y == 100 * (4 * q);
  }

  lemma MultipleOf100(y: int)
    requires y % 100 == 0
    ensures y % 4 == 0
  {
    var q := y / 100;
    assert y == 4 * (25 * q);
  }

  /** Each leap-rule count (multiples of 4, 100, 400) goes up by one exactly past a multiple. */
  lemma LeapCountStep4(y: int)
    ensures (y + 4) / 4 - (y + 3) / 4 == if y % 4 == 0 then 1 else 0
  {
    var q, r := (y + 3) / 4, (y + 3) % 4;
    assert y + 3 == 4 * q + r && 0 <= r < 4;
    if r == 3 {
      assert y + 4 == 4 * (q + 1);
      assert y == 4 * q;
    } else {
      assert y + 4 == 4 * q + (r + 1);
      assert y == 4 * (q - 1) + (r + 1);
    }
  }

  lemma LeapCountStep100(y: int)
    ensures (y + 100) / 100 - (y + 99) / 100 == if y % 100 == 0 then 1 else 0
  {
    var q, r := (y + 99) / 100, (y + 99) % 100;
    assert y + 99 == 100 * q + r && 0 <= r < 100;
    if r == 99 {
      assert y + 100 == 100 * (q + 1);
      assert y == 100 * q;
    } else {
      assert y + 100 == 100 * q + (r + 1);
      assert y == 100 * (q - 1) + (r + 1);
    }
  }

  lemma LeapCountStep400(y: int)
    ensures (y + 400) / 400 - (y + 399) / 400 == if y % 400 == 0 then 1 else 0
  {
    var q, r := (y + 399) / 400, (y + 399) % 400;
    assert y + 399 == 400 * q + r && 0 <= r < 400;
    if r == 399 {
      assert y + 400 == 400 * (q + 1);
      assert y == 400 * q;
    } else {
      assert y + 400 == 400 * q + (r + 1);
      assert y == 400 * (q - 1) + (r + 1);
    }
  }

  lemma {:induction false} DaysBeforeYearMonotone(y1: int, y2: int)
    requires y1 < y2
    ensures DaysBeforeYear(y1) + YearLength(y1) <= DaysBeforeYear(y2)
    decreases y2 - y1
  {
    YearStep(y1);
    if y1 + 1 < y2 {
      DaysBeforeYearMonotone(y1 + 1, y2);
    }
  }

  function DayNumber(d: Date): int
    requires 0 <= d.month < 12
  {
    DaysBeforeYear(d.year) + DaysBeforeMonth(d.year, d.month) + d.day - 1
  }

  /** Day of the week as JavaScript's `getDay()`: 0 = Sunday ... 6 = Saturday. */
  function Weekday(d: Date): (w: int)
    requires 0 <= d.month < 12
    ensures 0 <= w < 7
  {
    (DayNumber(d) + 6) % 7
  }

  /** The next calendar day (`setDate(getDate() + 1)`), rolling over month and year. */
  function Next(d: Date): (r: Date)
    requires Valid(d)
    ensures Valid(r) && DayNumber(r) == DayNumber(d) + 1
  {
    DaysBeforeMonthStep(d.year, d.month);
    if d.day < DaysInMonth(d.year, d.month) then Date(d.year, d.month, d.day + 1)
    else if d.month < 11 then Date(d.year, d.month + 1, 1)
    else (YearStep(d.year); Date(d.year + 1, 0, 1))
  }

  /** The previous calendar day (`setDate(getDate() - 1)`), rolling back month and year. */
  function Prev(d: Date): (r: Date)
    requires Valid(d)
    ensures Valid(r) && DayNumber(r) == DayNumber(d) - 1
  {
    if d.day > 1 then Date(d.year, d.month, d.day - 1)
    else if d.month > 0 then
      (DaysBeforeMonthStep(d.year, d.month - 1);
       Date(d.year, d.month - 1, DaysInMonth(d.year, d.month - 1)))
    else (YearStep(d.year - 1); DaysBeforeMonthStep(d.year - 1, 11); Date(d.year - 1, 11, 31))
  }

  lemma NextPrevInverse(d: Date)
    requires Valid(d)
    ensures Prev(Next(d)) == d && Next(Prev(d)) == d
  {
    DayNumberInjective(Prev(Next(d)), d);
    DayNumberInjective(Next(Prev(d)), d);
  }

  lemma WeekdayNext(d: Date)
    requires Valid(d)
    ensures Weekday(Next(d)) == (Weekday(d) + 1) % 7
    ensures Weekday(Prev(d)) == (Weekday(d) + 6) % 7
  {
    var x := DayNumber(d) + 6;
    ModSevenStep(x);
    assert DayNumber(Next(d)) + 6 == x + 1 && DayNumber(Prev(d)) + 6 == x - 1;
  }

  lemma ModSevenStep(x: int)
    ensures (x + 1) % 7 == (x % 7 + 1) % 7 && (x - 1) % 7 == (x % 7 + 6) % 7
  {
    var q, r := x / 7, x % 7;
    assert x == 7 * q + r;
    if r < 6 {
      assert x + 1 == 7 * q + (r + 1);
    } else {
      assert x + 1 == 7 * (q + 1);
    }
    if r > 0 {
      assert x - 1 == 7 * q + (r - 1);
    } else {
      assert x - 1 == 7 * (q - 1) + 6;
    }
  }

  /** The order of the fields: year, then month, then day. */
  predicate LexLess(a: Date, b: Date) {
    a.year < b.year || (a.year == b.year && (a.month < b.month || (a.month == b.month && a.day < b.day)))
  }

  /** Day numbers order valid dates exactly as their fields do. */
  lemma DayNumberOrder(a: Date, b: Date)
    requires Valid(a) && Valid(b) && LexLess(a, b)
    ensures DayNumber(a) < DayNumber(b)
  {
    if a.year < b.year {
      DaysBeforeMonthStep(a.year, a.month);
      assert DaysBeforeMonth(a.year, a.month + 1) <= DaysBeforeMonth(a.year, 12);
      DaysBeforeYearMonotone(a.year, b.year);
    } else if a.month < b.month {
      DaysBeforeMonthStep(a.year, a.month);
      assert DaysBeforeMonth(a.year, a.month + 1) <= DaysBeforeMonth(a.year, b.month);
    }
  }

  /** `a <= b` on dates, field by field. */
  predicate NotAfter(a: Date, b: Date) {
    !LexLess(b, a)
  }

  /** On valid dates the field order is the order of the day numbers (and so of the timestamps). */
  lemma NotAfterIsDayNumberOrder(a: Date, b: Date)
    requires Valid(a) && Valid(b)
    ensures NotAfter(a, b) <==> DayNumber(a) <= DayNumber(b)
  {
    if LexLess(b, a) {
      DayNumberOrder(b, a);
    } else if LexLess(a, b) {
      DayNumberOrder(a, b);
    }
  }

  /** Two valid dates with the same day number are the same date. */
  lemma DayNumberInjective(a: Date, b: Date)
    requires Valid(a) && Valid(b) && DayNumber(a) == DayNumber(b)
    ensures a == b
  {
    if LexLess(a, b) {
      DayNumberOrder(a, b);
    } else if LexLess(b, a) {
      DayNumberOrder(b, a);
    }
  }

  /** `k` calendar days after `d` (before it when `k` is negative), as `setDate(getDate() + k)`. */
  function AddDays(d: Date, k: int): (r: Date)
    requires Valid(d)
    ensures Valid(r) && DayNumber(r) == DayNumber(d) + k
    decreases if k < 0 then -k else k
  {
    if k == 0 then d
    else if k > 0 then AddDays(Next(d), k - 1)
    else AddDays(Prev(d), k + 1)
  }

  /** The civil date of a day number is determined: what `AddDays` lands on is the only candidate. */
  lemma AddDaysUnique(d: Date, k: int, e: Date)
    requires Valid(d) && Valid(e) && DayNumber(e) == DayNumber(d) + k
    ensures AddDays(d, k) == e
  {
    DayNumberInjective(AddDays(d, k), e);
  }

  /** `toISOString().split("T")[0]`: YYYY-MM-DD, or the expanded-year form +YYYYYY-MM-DD / -YYYYYY-MM-DD. */
  function FormatIsoDate(d: Date): (s: string)
    requires Valid(d)
  {
    var yearText :=
      if 0 <= d.year <= 9999 then PadLeft(d.year, 4)
      else if d.year < 0 then "-" + PadLeft(-d.year, 6)
      else "+" + PadLeft(d.year, 6);
    yearText + "-" + PadLeft(d.month + 1, 2) + "-" + PadLeft(d.day, 2)
  }

  /** Reads a strict YYYY-MM-DD string back into a valid date. */
  function ParseIsoDate(s: string): (r: Option<Date>)
    ensures r.Some? ==> Valid(r.value) && 0 <= r.value.year <= 9999
  {
    if |s| == 10 && AllDigits(s[..4]) && s[4] == '-' && AllDigits(s[5..7]) && s[7] == '-'
       && AllDigits(s[8..]) then
      DecimalValueBound(s[..4]);
      var y, m, d := DecimalValue(s[..4]), DecimalValue(s[5..7]), DecimalValue(s[8..]);
      if 1 <= m <= 12 && 1 <= d <= DaysInMonth(y, m - 1) then Some(Date(y, m - 1, d)) else None
    else None
  }

  /** Formatting a date of years 0..9999 gives ten characters that read back as the same date. */
  lemma IsoDateRoundTrip(d: Date)
    requires Valid(d) && 0 <= d.year <= 9999
    ensures |FormatIsoDate(d)| == 10 && ParseIsoDate(FormatIsoDate(d)) == Some(d)
  {
    var y, m, dd := PadLeft(d.year, 4), PadLeft(d.month + 1, 2), PadLeft(d.day, 2);
    PadFour(d.year);
    PadTwo(d.month + 1);
    PadTwo(d.day);
    assert FormatIsoDate(d) == y + "-" + m + "-" + dd;
    ParseIsoFields(y, m, dd);
  }

  /** A text of the YYYY-MM-DD shape reads as the date its three digit fields denote, if that date exists. */
  lemma ParseIsoFields(y: string, m: string, dd: string)
    requires |y| == 4 && |m| == 2 && |dd| == 2 && AllDigits(y) && AllDigits(m) && AllDigits(dd)
    ensures var yv, mv, dv := DecimalValue(y), DecimalValue(m), DecimalValue(dd);
      ParseIsoDate(y + "-" + m + "-" + dd)
        == if 1 <= mv <= 12 && 1 <= dv <= DaysInMonth(yv, mv - 1) then Some(Date(yv, mv - 1, dv)) else None
  {
    IsoSlices(y, m, dd);
  }

  lemma PadFour(n: nat)
    requires n < 10000
    ensures |PadLeft(n, 4)| == 4 && DecimalValue(PadLeft(n, 4)) == n
  {
    assert Pow10(4) == 10000;
    PadLeftRoundTrip(n, 4);
  }

  lemma PadTwo(n: nat)
    requires n < 100
    ensures |PadLeft(n, 2)| == 2 && DecimalValue(PadLeft(n, 2)) == n
  {
    assert Pow10(2) == 100;
    PadLeftRoundTrip(n, 2);
  }

  /** Where the three fields sit in a YYYY-MM-DD text. */
  lemma IsoSlices(y: string, m: string, dd: string)
    requires |y| == 4 && |m| == 2 && |dd| == 2
    ensures var s := y + "-" + m + "-" + dd;
      |s| == 10 && s[..4] == y && s[4] == '-' && s[5..7] == m && s[7] == '-' && s[8..] == dd
  {
    var s := y + "-" + m + "-" + dd;
    assert s[..4] == y && s[5..7] == m && s[8..] == dd;
  }

  /** Every string that reads as a date is that date's canonical text. */
  lemma IsoDateCanonical(s: string)
    requires ParseIsoDate(s).Some?
    ensures FormatIsoDate(ParseIsoDate(s).value) == s
  {
    var d := ParseIsoDate(s).value;
    DecimalValueCanonical(s[..4]);
    DecimalValueCanonical(s[5..7]);
    DecimalValueCanonical(s[8..]);
    assert s == s[..4] + "-" + s[5..7] + "-" + s[8..];
  }

  /** Distinct valid dates of years 0..9999 have distinct keys. */
  lemma IsoDateInjective(a: Date, b: Date)
    requires Valid(a) && Valid(b) && 0 <= a.year <= 9999 && 0 <= b.year <= 9999
    requires FormatIsoDate(a) == FormatIsoDate(b)
    ensures a == b
  {
    IsoDateRoundTrip(a);
    IsoDateRoundTrip(b);
  }
}
