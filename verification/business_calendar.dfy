/**
 * The NYMEX business calendar of the trading calendar page: the weekend and holiday
 * predicates over a holiday table, and stepping a number of business days backward or
 * forward from a date, never counting the start date.
 */
module BusinessCalendar {
  import opened Wrappers
  import opened CivilDate

  /** Holiday dates with their names. The source keys its tables by the YYYY-MM-DD text of the date. */
  type HolidayTable = map<Date, string>

  const NymexHolidays2026: HolidayTable := map[
    Date(2026, 0, 1) := "New Year's Day",
    Date(2026, 0, 19) := "MLK Day",
    Date(2026, 1, 16) := "Presidents Day",
    Date(2026, 3, 3) := "Good Friday",
    Date(2026, 4, 25) := "Memorial Day",
    Date(2026, 6, 3) := "Independence Day",
    Date(2026, 8, 7) := "Labor Day",
    Date(2026, 10, 26) := "Thanksgiving",
    Date(2026, 11, 25) := "Christmas"
  ]

  const NymexHolidays2027: HolidayTable := map[
    Date(2027, 0, 1) := "New Year's Day",
    Date(2027, 0, 18) := "MLK Day",
    Date(2027, 1, 15) := "Presidents Day",
    Date(2027, 2, 26) := "Good Friday",
    Date(2027, 4, 31) := "Memorial Day",
    Date(2027, 6, 5) := "Independence Day",
    Date(2027, 8, 6) := "Labor Day",
    Date(2027, 10, 25) := "Thanksgiving",
    Date(2027, 11, 24) := "Christmas"
  ]

  /** The combined table the page consults for every year. */
  const AllHolidays: HolidayTable := NymexHolidays2026 + NymexHolidays2027

  predicate IsWeekend(d: Date)
    requires Valid(d)
  {
    Weekday(d) == 0 || Weekday(d) == 6
  }

  predicate IsHoliday(h: HolidayTable, d: Date) {
    d in h
  }

  predicate IsBusinessDay(h: HolidayTable, d: Date)
    requires Valid(d)
  {
    !IsWeekend(d) && !IsHoliday(h, d)
  }

  /** The holiday's name, absent (`undefined`) for a date that is not in the table. */
  function HolidayName(h: HolidayTable, d: Date): (r: Option<string>)
    ensures r.Some? <==> IsHoliday(h, d)
    ensures r.Some? ==> r.value == h[d]
  {
    if d in h then Some(h[d]) else None
  }

  /** The table covers 2026 and 2027 only, and every entry is a real date. */
  lemma HolidayTableYears()
    ensures forall d :: d in AllHolidays ==> Valid(d) && 2026 <= d.year <= 2027
  {
    Holidays2026AreWeekdays();
    Holidays2027AreWeekdays();
  }

  /** No entry of the table falls on a weekend. */
  lemma HolidaysAreWeekdays()
    ensures forall d :: d in AllHolidays ==> Valid(d) && !IsWeekend(d)
  {
    Holidays2026AreWeekdays();
    Holidays2027AreWeekdays();
  }

  /** Day numbers of the first days of the two years the table covers. */
  lemma TableYearStarts()
    ensures DaysBeforeYear(2026) == 739982 && DaysBeforeYear(2027) == 740347
  {
  }

  lemma Holidays2026AreWeekdays()
    ensures forall d :: d in NymexHolidays2026 ==> Valid(d) && d.year == 2026 && !IsWeekend(d)
  {
    TableYearStarts();
    assert Weekday(Date(2026, 0, 1)) == 4 && Weekday(Date(2026, 0, 19)) == 1;
    assert Weekday(Date(2026, 1, 16)) == 1 && Weekday(Date(2026, 3, 3)) == 5;
    assert Weekday(Date(2026, 4, 25)) == 1 && Weekday(Date(2026, 6, 3)) == 5;
    assert Weekday(Date(2026, 8, 7)) == 1 && Weekday(Date(2026, 10, 26)) == 4;
    assert Weekday(Date(2026, 11, 25)) == 5;
  }

  lemma Holidays2027AreWeekdays()
    ensures forall d :: d in NymexHolidays2027 ==> Valid(d) && d.year == 2027 && !IsWeekend(d)
  {
    TableYearStarts();
    assert Weekday(Date(2027, 0, 1)) == 5 && Weekday(Date(2027, 0, 18)) == 1;
    assert Weekday(Date(2027, 1, 15)) == 1 && Weekday(Date(2027, 2, 26)) == 5;
    assert Weekday(Date(2027, 4, 31)) == 1 && Weekday(Date(2027, 6, 5)) == 1;
    assert Weekday(Date(2027, 8, 6)) == 1 && Weekday(Date(2027, 10, 25)) == 4;
    assert Weekday(Date(2027, 11, 24)) == 5;
  }

  /** A 2026 date is in the combined table exactly when it is in the 2026 table, and with the same name. */
  lemma AllHolidays2026(d: Date)
    requires d.year == 2026
    ensures d in AllHolidays <==> d in NymexHolidays2026
    ensures d in AllHolidays ==> AllHolidays[d] == NymexHolidays2026[d]
  {
    Holidays2027AreWeekdays();
  }

  /** In a year the table does not cover, the business days are exactly the weekdays. */
  lemma BusinessDayOutsideTable(d: Date)
    requires Valid(d) && d.year != 2026 && d.year != 2027
    ensures IsBusinessDay(AllHolidays, d) <==> !IsWeekend(d)
  {
    HolidayTableYears();
  }

  /** The number of business days `d` with lo <= d < hi. */
  function BizCount(h: HolidayTable, lo: Date, hi: Date): nat
    requires Valid(lo) && Valid(hi)
    decreases DayNumber(hi) - DayNumber(lo)
  {
    if DayNumber(lo) >= DayNumber(hi) then 0
    else (if IsBusinessDay(h, lo) then 1 else 0) + BizCount(h, Next(lo), hi)
  }

  /** Without holidays, every run of seven consecutive days holds five business days. */
  lemma FiveBusinessDaysAWeek(d: Date)
    requires Valid(d)
    ensures BizCount(map[], d, AddDays(d, 7)) == 5
  {
    var hi := AddDays(d, 7);
    var d1 := Next(d);
    var d2 := Next(d1);
    var d3 := Next(d2);
    var d4 := Next(d3);
    var d5 := Next(d4);
    var d6 := Next(d5);
    DayNumberInjective(Next(d6), hi);
    OpenFirst(d, hi); OpenFirst(d1, hi); OpenFirst(d2, hi); OpenFirst(d3, hi);
    OpenFirst(d4, hi); OpenFirst(d5, hi); OpenFirst(d6, hi);
    var n := DayNumber(d) + 6;
    WeekdayAt(d, n, 0); WeekdayAt(d1, n, 1); WeekdayAt(d2, n, 2); WeekdayAt(d3, n, 3);
    WeekdayAt(d4, n, 4); WeekdayAt(d5, n, 5); WeekdayAt(d6, n, 6);
    OpenWeek(n, d, d1, d2, d3, d4, d5, d6);
  }

  /** Without holidays, a count starts with its first day's openness. */
  lemma OpenFirst(lo: Date, hi: Date)
    requires Valid(lo) && Valid(hi) && DayNumber(lo) < DayNumber(hi)
    ensures BizCount(map[], lo, hi) == Open(lo) + BizCount(map[], Next(lo), hi)
  {
  }

  /** 1 for a business day of the empty table, that is a weekday; 0 for a weekend day. */
  function Open(d: Date): (n: nat)
    requires Valid(d)
    ensures n == 1 - Closed(Weekday(d))
  {
    if IsBusinessDay(map[], d) then 1 else 0
  }

  lemma WeekdayAt(x: Date, n: int, i: int)
    requires Valid(x) && DayNumber(x) + 6 == n + i
    ensures Weekday(x) == (n + i) % 7
  {
  }

  /** Seven consecutive days take every weekday once, so two of them are weekend days. */
  lemma OpenWeek(n: int, d: Date, d1: Date, d2: Date, d3: Date, d4: Date, d5: Date, d6: Date)
    requires Valid(d) && Valid(d1) && Valid(d2) && Valid(d3) && Valid(d4) && Valid(d5) && Valid(d6)
    requires Weekday(d) == n % 7 && Weekday(d1) == (n + 1) % 7 && Weekday(d2) == (n + 2) % 7
    requires Weekday(d3) == (n + 3) % 7 && Weekday(d4) == (n + 4) % 7
    requires Weekday(d5) == (n + 5) % 7 && Weekday(d6) == (n + 6) % 7
    ensures Open(d) + Open(d1) + Open(d2) + Open(d3) + Open(d4) + Open(d5) + Open(d6) == 5
  {
    WeekdayCycle(n);
  }

  /** Of seven successive day numbers, exactly two fall on a weekend. */
  lemma WeekdayCycle(n: int)
    ensures Closed(n % 7) + Closed((n + 1) % 7) + Closed((n + 2) % 7) + Closed((n + 3) % 7)
      + Closed((n + 4) % 7) + Closed((n + 5) % 7) + Closed((n + 6) % 7) == 2
  {
    SuccMod(n); SuccMod(n + 1); SuccMod(n + 2);
    SuccMod(n + 3); SuccMod(n + 4); SuccMod(n + 5);
  }

  /** One day later moves the weekday number to its successor. */
  lemma SuccMod(x: int)
    ensures (x + 1) % 7 == Succ(x % 7)
  {
    ModSevenStep(x);
  }

  /** The weekday number after `w`, Saturday (6) wrapping to Sunday (0). */
  function Succ(w: int): (r: int)
    requires 0 <= w < 7
    ensures 0 <= r < 7
  {
    if w == 6 then 0 else w + 1
  }

  /** 1 for the weekend weekday numbers, 0 (Sunday) and 6 (Saturday); 0 otherwise. */
  function Closed(w: int): nat {
    if w == 0 || w == 6 then 1 else 0
  }

  /** Moving the upper end one day later adds that day when it is a business day. */
  lemma {:induction false} BizCountExtend(h: HolidayTable, lo: Date, hi: Date)
    requires Valid(lo) && Valid(hi) && DayNumber(lo) <= DayNumber(hi)
    ensures BizCount(h, lo, Next(hi)) == BizCount(h, lo, hi) + (if IsBusinessDay(h, hi) then 1 else 0)
    decreases DayNumber(hi) - DayNumber(lo)
  {
    if DayNumber(lo) == DayNumber(hi) {
      DayNumberInjective(lo, hi);
      assert BizCount(h, Next(lo), Next(hi)) == 0;
    } else {
      BizCountExtend(h, Next(lo), hi);
    }
  }

  /** Moving the lower end one day earlier adds that day when it is a business day. */
  lemma BizCountStepBack(h: HolidayTable, c: Date, hi: Date)
    requires Valid(c) && Valid(hi) && DayNumber(c) <= DayNumber(hi)
    ensures BizCount(h, Prev(c), hi) == BizCount(h, c, hi) + (if IsBusinessDay(h, Prev(c)) then 1 else 0)
  {
    NextPrevInverse(c);
  }

  /** The count over [lo, hi) splits at any day in between. */
  lemma {:induction false} BizCountSplit(h: HolidayTable, lo: Date, mid: Date, hi: Date)
    requires Valid(lo) && Valid(mid) && Valid(hi)
    requires DayNumber(lo) <= DayNumber(mid) <= DayNumber(hi)
    ensures BizCount(h, lo, hi) == BizCount(h, lo, mid) + BizCount(h, mid, hi)
    decreases DayNumber(mid) - DayNumber(lo)
  {
    if DayNumber(lo) == DayNumber(mid) {
      DayNumberInjective(lo, mid);
    } else {
      BizCountSplit(h, Next(lo), mid, hi);
    }
  }

  /** A business day inside [lo, hi) is counted. */
  lemma {:induction false} BizCountPositive(h: HolidayTable, lo: Date, hi: Date, d: Date)
    requires Valid(lo) && Valid(hi) && Valid(d) && IsBusinessDay(h, d)
    requires DayNumber(lo) <= DayNumber(d) < DayNumber(hi)
    ensures BizCount(h, lo, hi) >= 1
    decreases DayNumber(d) - DayNumber(lo)
  {
    if DayNumber(lo) == DayNumber(d) {
      DayNumberInjective(lo, d);
    } else {
      BizCountPositive(h, Next(lo), hi, d);
    }
  }

  /** Whatever finite table is in use, some business day lies before any date: backward stepping ends. */
  lemma BusinessDayBefore(h: HolidayTable, c: Date) returns (w: Date)
    requires Valid(c)
    ensures Valid(w) && IsBusinessDay(h, w) && DayNumber(w) < DayNumber(c)
    decreases |h|
  {
    var p1 := Prev(c);
    var p2 := Prev(p1);
    var p3 := Prev(p2);
    WeekdayNext(c);
    WeekdayNext(p1);
    WeekdayNext(p2);
    var k := if !IsWeekend(p1) then p1 else if !IsWeekend(p2) then p2 else p3;
    if k in h {
      w := BusinessDayBefore(h - {k}, k);
    } else {
      w := k;
    }
  }

  /** Whatever finite table is in use, some business day lies after any date: forward stepping ends. */
  lemma BusinessDayAfter(h: HolidayTable, c: Date) returns (w: Date)
    requires Valid(c)
    ensures Valid(w) && IsBusinessDay(h, w) && DayNumber(w) > DayNumber(c)
    decreases |h|
  {
    var n1 := Next(c);
    var n2 := Next(n1);
    var n3 := Next(n2);
    WeekdayNext(c);
    WeekdayNext(n1);
    WeekdayNext(n2);
    var k := if !IsWeekend(n1) then n1 else if !IsWeekend(n2) then n2 else n3;
    if k in h {
      w := BusinessDayAfter(h - {k}, k);
    } else {
      w := k;
    }
  }

  /**
   * `subtractBusinessDays`: walk back one calendar day at a time, counting the business days
   * landed on, until `days` of them are counted. The start date is never counted.
   */
  method SubtractBusinessDays(h: HolidayTable, date: Date, days: nat) returns (r: Date)
    requires Valid(date)
    ensures Valid(r) && DayNumber(r) <= DayNumber(date)
    ensures BizCount(h, r, date) == days
    ensures days == 0 ==> r == date
    ensures days > 0 ==> IsBusinessDay(h, r) && DayNumber(r) < DayNumber(date)
  {
    r := date;
    var count := 0;
    ghost var w := BusinessDayBefore(h, r);
    while count < days
      invariant Valid(r) && DayNumber(r) <= DayNumber(date) && count <= days
      invariant BizCount(h, r, date) == count
      invariant days == 0 ==> r == date
      invariant count == days && days > 0 ==> IsBusinessDay(h, r) && DayNumber(r) < DayNumber(date)
      invariant Valid(w) && (count < days ==> IsBusinessDay(h, w) && DayNumber(w) < DayNumber(r))
      decreases days - count, DayNumber(r) - DayNumber(w)
    {
      BizCountStepBack(h, r, date);
      r := Prev(r);
      if IsBusinessDay(h, r) {
        count := count + 1;
        if count < days {
          w := BusinessDayBefore(h, r);
        }
      } else if DayNumber(w) == DayNumber(r) {
        DayNumberInjective(w, r);
      }
    }
  }

  /**
   * `addBusinessDays`, the mirror image: walk forward, counting business days landed on;
   * the result closes the interval (date, r] holding exactly `days` business days.
   */
  method AddBusinessDays(h: HolidayTable, date: Date, days: nat) returns (r: Date)
    requires Valid(date)
    ensures Valid(r) && DayNumber(r) >= DayNumber(date)
    ensures BizCount(h, Next(date), Next(r)) == days
    ensures days == 0 ==> r == date
    ensures days > 0 ==> IsBusinessDay(h, r) && DayNumber(r) > DayNumber(date)
  {
    r := date;
    var count := 0;
    ghost var w := BusinessDayAfter(h, r);
    while count < days
      invariant Valid(r) && DayNumber(r) >= DayNumber(date) && count <= days
      invariant BizCount(h, Next(date), Next(r)) == count
      invariant days == 0 ==> r == date
      invariant count == days && days > 0 ==> IsBusinessDay(h, r) && DayNumber(r) > DayNumber(date)
      invariant Valid(w) && (count < days ==> IsBusinessDay(h, w) && DayNumber(w) > DayNumber(r))
      decreases days - count, DayNumber(w) - DayNumber(r)
    {
      BizCountExtend(h, Next(date), Next(r));
      r := Next(r);
      if IsBusinessDay(h, r) {
        count := count + 1;
        if count < days {
          w := BusinessDayAfter(h, r);
        }
      } else if DayNumber(w) == DayNumber(r) {
        DayNumberInjective(w, r);
      }
    }
  }

  /** The n-th business day before a date (n >= 1) is unique: stepping is deterministic. */
  lemma StepBackUnique(h: HolidayTable, date: Date, n: nat, r1: Date, r2: Date)
    requires Valid(date) && Valid(r1) && Valid(r2) && n >= 1
    requires IsBusinessDay(h, r1) && DayNumber(r1) < DayNumber(date) && BizCount(h, r1, date) == n
    requires IsBusinessDay(h, r2) && DayNumber(r2) < DayNumber(date) && BizCount(h, r2, date) == n
    ensures r1 == r2
  {
    if DayNumber(r1) < DayNumber(r2) {
      BizCountSplit(h, r1, r2, date);
      BizCountPositive(h, r1, r2, r1);
    } else if DayNumber(r2) < DayNumber(r1) {
      BizCountSplit(h, r2, r1, date);
      BizCountPositive(h, r2, r1, r2);
    } else {
      DayNumberInjective(r1, r2);
    }
  }

  /** One business day forward lands on the first business day after the start: none lies between. */
  lemma NextBusinessDayIsFirst(h: HolidayTable, date: Date, r: Date, d: Date)
    requires Valid(date) && Valid(r) && Valid(d)
    requires IsBusinessDay(h, r) && DayNumber(r) > DayNumber(date)
    requires BizCount(h, Next(date), Next(r)) == 1
    requires DayNumber(date) < DayNumber(d) < DayNumber(r)
    ensures !IsBusinessDay(h, d)
  {
    BizCountExtend(h, Next(date), r);
    if IsBusinessDay(h, d) {
      BizCountPositive(h, Next(date), r, d);
    }
  }
}
