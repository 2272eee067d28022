/**
 * The month view of the trading calendar page: a grid of whole weeks, Sunday first, from the
 * Sunday on or before the 1st to the Saturday on or after the last day, each cell annotated
 * with the weekend and holiday flags and with the contract codes whose dates fall on it.
 */
module MonthGrid {
  import opened Wrappers
  import opened CivilDate
  import opened BusinessCalendar
  import opened ContractCalendar

  /** One cell of the grid; absent optional fields of the source are `None`. */
  datatype DayInfo = DayInfo(
    date: Date,
    dateStr: string,
    isWeekend: bool,
    isHoliday: bool,
    holidayName: Option<string>,
    isLastTradingDay: Option<string>,
    isFirstNoticeDay: Option<string>,
    tradePeriods: seq<string>,
    isTradeMonthStart: seq<string>,
    isTradeMonthEnd: seq<string>)

  /** The ways a contract can mark a day of the grid. */
  datatype Mark = LastTrading | FirstNotice | InTradePeriod | TradeMonthStart | TradeMonthEnd

  predicate AllWellFormed(cs: seq<ContractDates>) {
    forall i :: 0 <= i < |cs| ==> WellFormed(cs[i])
  }

  /** Whether contract `c` marks day `d` in the way `k`; the trade period includes both ends. */
  predicate Marks(c: ContractDates, d: Date, k: Mark)
    requires WellFormed(c) && Valid(d)
  {
    match k
    case LastTrading => c.lastTradingDay == d
    case FirstNotice => c.firstNoticeDay == d
    case InTradePeriod => NotAfter(c.tradeMonthStart, d) && NotAfter(d, c.tradeMonthEnd)
    case TradeMonthStart => c.tradeMonthStart == d
    case TradeMonthEnd => c.tradeMonthEnd == d
  }

  function Code(c: ContractDates): string
    requires WellFormed(c)
  {
    ContractCode(c.contractMonth, c.contractYear)
  }

  /** The codes of the first `n` contracts that mark `d` in the way `k`, in the order of `cs`. */
  function MarkedCodes(cs: seq<ContractDates>, n: int, d: Date, k: Mark): (r: seq<string>)
    requires 0 <= n <= |cs| && AllWellFormed(cs) && Valid(d)
    ensures |r| <= n
  {
    if n == 0 then []
    else if Marks(cs[n - 1], d, k) then MarkedCodes(cs, n - 1, d, k) + [Code(cs[n - 1])]
    else MarkedCodes(cs, n - 1, d, k)
  }

  /**
   * The code of the last of the first `n` contracts that marks `d` in the way `k`:
   * later contracts overwrite earlier ones.
   */
  function LastMarkedCode(cs: seq<ContractDates>, n: int, d: Date, k: Mark): Option<string>
    requires 0 <= n <= |cs| && AllWellFormed(cs) && Valid(d)
  {
    if n == 0 then None
    else if Marks(cs[n - 1], d, k) then Some(Code(cs[n - 1]))
    else LastMarkedCode(cs, n - 1, d, k)
  }

  /** The cell the page builds for day `d`. */
  function DayAnnotation(h: HolidayTable, d: Date, cs: seq<ContractDates>): DayInfo
    requires AllWellFormed(cs) && Valid(d)
  {
    var n := |cs|;
    DayInfo(d, FormatIsoDate(d), IsWeekend(d), IsHoliday(h, d), HolidayName(h, d),
      LastMarkedCode(cs, n, d, LastTrading), LastMarkedCode(cs, n, d, FirstNotice),
      MarkedCodes(cs, n, d, InTradePeriod), MarkedCodes(cs, n, d, TradeMonthStart),
      MarkedCodes(cs, n, d, TradeMonthEnd))
  }

  /** A code is listed exactly when one of the first `n` contracts has that code and marks the day. */
  lemma MarkedCodesMembership(cs: seq<ContractDates>, n: int, d: Date, k: Mark, x: string)
    requires 0 <= n <= |cs| && AllWellFormed(cs) && Valid(d)
    ensures x in MarkedCodes(cs, n, d, k) <==> exists i :: 0 <= i < n && Marks(cs[i], d, k) && Code(cs[i]) == x
  {
    if x in MarkedCodes(cs, n, d, k) {
      var i := MarkedCodesSound(cs, n, d, k, x);
    }
    if exists i :: 0 <= i < n && Marks(cs[i], d, k) && Code(cs[i]) == x {
      var i :| 0 <= i < n && Marks(cs[i], d, k) && Code(cs[i]) == x;
      MarkedCodesComplete(cs, n, d, k, i);
    }
  }

  /** Every listed code comes from a contract that marks the day. */
  lemma {:induction false} MarkedCodesSound(cs: seq<ContractDates>, n: int, d: Date, k: Mark, x: string)
    returns (i: int)
    requires 0 <= n <= |cs| && AllWellFormed(cs) && Valid(d)
    requires x in MarkedCodes(cs, n, d, k)
    ensures 0 <= i < n && Marks(cs[i], d, k) && Code(cs[i]) == x
  {
    var last := n - 1;
    if Marks(cs[last], d, k) && Code(cs[last]) == x {
      i := last;
    } else {
      i := MarkedCodesSound(cs, last, d, k, x);
    }
  }

  /** Every contract among the first `n` that marks the day has its code listed. */
  lemma {:induction false} MarkedCodesComplete(cs: seq<ContractDates>, n: int, d: Date, k: Mark, i: int)
    requires 0 <= i < n <= |cs| && AllWellFormed(cs) && Valid(d)
    requires Marks(cs[i], d, k)
    ensures Code(cs[i]) in MarkedCodes(cs, n, d, k)
  {
    if i < n - 1 {
      MarkedCodesComplete(cs, n - 1, d, k, i);
    }
  }

  /** The overwritten field holds the last listed code, and is absent exactly when none is listed. */
  lemma {:induction false} LastMarkedIsLastListed(cs: seq<ContractDates>, n: int, d: Date, k: Mark)
    requires 0 <= n <= |cs| && AllWellFormed(cs) && Valid(d)
    ensures var m := MarkedCodes(cs, n, d, k);
      LastMarkedCode(cs, n, d, k) == if m == [] then None else Some(m[|m| - 1])
  {
    if n > 0 {
      LastMarkedIsLastListed(cs, n - 1, d, k);
    }
  }

  /**
   * Over a chain of trade months, the first `n` periods tile the span from the first one's start
   * to the n-th one's end: a day in the span lies in exactly one trade period, a day outside in none.
   */
  lemma {:induction false} TradePeriodsPartition(cs: seq<ContractDates>, n: int, d: Date)
    requires TradeMonthsChain(cs) && 1 <= n <= |cs| && Valid(d)
    ensures AllWellFormed(cs)
    ensures DayNumber(cs[0].tradeMonthStart) < DayNumber(cs[n - 1].tradeMonthEnd)
    ensures |MarkedCodes(cs, n, d, InTradePeriod)|
      == if DayNumber(cs[0].tradeMonthStart) <= DayNumber(d) <= DayNumber(cs[n - 1].tradeMonthEnd) then 1 else 0
  {
    NotAfterIsDayNumberOrder(cs[n - 1].tradeMonthStart, d);
    NotAfterIsDayNumberOrder(d, cs[n - 1].tradeMonthEnd);
    if n > 1 {
      TradePeriodsPartition(cs, n - 1, d);
    }
  }

  /**
   * The grid of any month shown for `year`, built from that year's fifteen contracts, puts each
   * day from the 26th of November before to the 25th of February after in exactly one trade period.
   */
  lemma YearTradePeriodsCover(h: HolidayTable, year: int, cs: seq<ContractDates>, d: Date)
    requires |cs| == 15 && Consecutive(h, cs)
    requires cs[0].contractYear == year && cs[0].contractMonth == 0
    requires cs[14].contractYear == year + 1 && cs[14].contractMonth == 2
    requires Valid(d)
    requires DayNumber(Date(year - 1, 10, 26)) <= DayNumber(d) <= DayNumber(Date(year + 1, 1, 25))
    ensures AllWellFormed(cs) && |MarkedCodes(cs, |cs|, d, InTradePeriod)| == 1
  {
    assert ContractRules(h, cs[0]) && ContractRules(h, cs[14]);
    assert cs[0].tradeMonthStart == Date(year - 1, 10, 26);
    assert cs[14].tradeMonthEnd == Date(year + 1, 1, 25);
    ConsecutiveChain(h, cs);
    TradePeriodsPartition(cs, |cs|, d);
  }

  /** `generateMonthCalendar`'s inner loop over the contracts for one day. */
  method AnnotateDay(h: HolidayTable, currentDate: Date, contracts: seq<ContractDates>) returns (info: DayInfo)
    requires AllWellFormed(contracts) && Valid(currentDate)
    ensures info == DayAnnotation(h, currentDate, contracts)
  {
    var d := currentDate;
    var isLastTradingDay: Option<string> := None;
    var isFirstNoticeDay: Option<string> := None;
    var tradePeriods: seq<string> := [];
    var isTradeMonthStart: seq<string> := [];
    var isTradeMonthEnd: seq<string> := [];
    for n := 0 to |contracts|
      invariant isLastTradingDay == LastMarkedCode(contracts, n, d, LastTrading)
      invariant isFirstNoticeDay == LastMarkedCode(contracts, n, d, FirstNotice)
      invariant tradePeriods == MarkedCodes(contracts, n, d, InTradePeriod)
      invariant isTradeMonthStart == MarkedCodes(contracts, n, d, TradeMonthStart)
      invariant isTradeMonthEnd == MarkedCodes(contracts, n, d, TradeMonthEnd)
    {
      var contract := contracts[n];
      var contractCode := Code(contract);
      AnnotateStep(contracts, n, d);
      isLastTradingDay := if contract.lastTradingDay == d then Some(contractCode) else isLastTradingDay;
      isFirstNoticeDay := if contract.firstNoticeDay == d then Some(contractCode) else isFirstNoticeDay;
      tradePeriods := if NotAfter(contract.tradeMonthStart, d) && NotAfter(d, contract.tradeMonthEnd)
        then tradePeriods + [contractCode] else tradePeriods;
      isTradeMonthStart := if contract.tradeMonthStart == d then isTradeMonthStart + [contractCode] else isTradeMonthStart;
      isTradeMonthEnd := if contract.tradeMonthEnd == d then isTradeMonthEnd + [contractCode] else isTradeMonthEnd;
    }
    info := DayInfo(d, FormatIsoDate(d), IsWeekend(d), IsHoliday(h, d), HolidayName(h, d),
      isLastTradingDay, isFirstNoticeDay, tradePeriods, isTradeMonthStart, isTradeMonthEnd);
  }

  /** Taking contract `n` into account: it overwrites the single fields and appends to the lists it marks. */
  lemma AnnotateStep(cs: seq<ContractDates>, n: int, d: Date)
    requires 0 <= n < |cs| && AllWellFormed(cs) && Valid(d)
    ensures var c := cs[n];
      && LastMarkedCode(cs, n + 1, d, LastTrading)
        == (if c.lastTradingDay == d then Some(Code(c)) else LastMarkedCode(cs, n, d, LastTrading))
      && LastMarkedCode(cs, n + 1, d, FirstNotice)
        == (if c.firstNoticeDay == d then Some(Code(c)) else LastMarkedCode(cs, n, d, FirstNotice))
      && MarkedCodes(cs, n + 1, d, InTradePeriod)
        == (if NotAfter(c.tradeMonthStart, d) && NotAfter(d, c.tradeMonthEnd)
            then MarkedCodes(cs, n, d, InTradePeriod) + [Code(c)] else MarkedCodes(cs, n, d, InTradePeriod))
      && MarkedCodes(cs, n + 1, d, TradeMonthStart)
        == (if c.tradeMonthStart == d then MarkedCodes(cs, n, d, TradeMonthStart) + [Code(c)]
            else MarkedCodes(cs, n, d, TradeMonthStart))
      && MarkedCodes(cs, n + 1, d, TradeMonthEnd)
        == (if c.tradeMonthEnd == d then MarkedCodes(cs, n, d, TradeMonthEnd) + [Code(c)]
            else MarkedCodes(cs, n, d, TradeMonthEnd))
  {
  }

  /** Seven consecutive days starting at day number `start`. */
  predicate WeekDays(week: seq<DayInfo>, start: int) {
    |week| == 7
    && forall j :: 0 <= j < 7 ==> Valid(week[j].date) && DayNumber(week[j].date) == start + j
  }

  /** Every cell holds the annotation of its own date. */
  predicate WeekAnnotated(h: HolidayTable, cs: seq<ContractDates>, week: seq<DayInfo>)
    requires AllWellFormed(cs)
  {
    forall j :: 0 <= j < |week| ==> Valid(week[j].date) && week[j] == DayAnnotation(h, week[j].date, cs)
  }

  /** One row of the grid: seven days from `weekStart`, advancing the cursor a week. */
  method BuildWeek(h: HolidayTable, weekStart: Date, contracts: seq<ContractDates>)
    returns (week: seq<DayInfo>, currentDate: Date)
    requires Valid(weekStart) && AllWellFormed(contracts)
    ensures WeekDays(week, DayNumber(weekStart)) && WeekAnnotated(h, contracts, week)
    ensures Valid(currentDate) && DayNumber(currentDate) == DayNumber(weekStart) + 7
  {
    currentDate := weekStart;
    week := [];
    for i := 0 to 7
      invariant Valid(currentDate) && DayNumber(currentDate) == DayNumber(weekStart) + i
      invariant PartialWeek(h, contracts, week, DayNumber(weekStart), i)
    {
      var dayInfo := AnnotateDay(h, currentDate, contracts);
      PartialWeekAppend(h, contracts, week, dayInfo, DayNumber(weekStart), i);
      week := week + [dayInfo];
      currentDate := Next(currentDate);
    }
  }

  /** The first `i` cells of a week from day number `start`, each annotated. */
  predicate PartialWeek(h: HolidayTable, cs: seq<ContractDates>, week: seq<DayInfo>, start: int, i: int)
    requires AllWellFormed(cs)
  {
    |week| == i
    && (forall j :: 0 <= j < i ==> Valid(week[j].date) && DayNumber(week[j].date) == start + j)
    && WeekAnnotated(h, cs, week)
  }

  lemma PartialWeekAppend(h: HolidayTable, cs: seq<ContractDates>, week: seq<DayInfo>, info: DayInfo, start: int, i: int)
    requires AllWellFormed(cs) && PartialWeek(h, cs, week, start, i)
    requires Valid(info.date) && DayNumber(info.date) == start + i && info == DayAnnotation(h, info.date, cs)
    ensures PartialWeek(h, cs, week + [info], start, i + 1)
  {
    assert forall j :: 0 <= j < i ==> (week + [info])[j] == week[j];
  }

  function FirstOfMonth(year: int, month: int): Date
    requires 0 <= month < 12
  {
    Date(year, month, 1)
  }

  /** `new Date(year, month + 1, 0)`: the last day of the month. */
  function LastOfMonth(year: int, month: int): Date
    requires 0 <= month < 12
  {
    Date(year, month, DaysInMonth(year, month))
  }

  /** Whole weeks of consecutive days, Sunday first, from the week of the 1st to the week of the last day. */
  predicate GridShape(weeks: seq<seq<DayInfo>>, year: int, month: int)
    requires 0 <= month < 12
  {
    |weeks| >= 1
    && (forall i :: 0 <= i < |weeks| ==> |weeks[i]| == 7)
    && Valid(weeks[0][0].date)
    && (forall i, j :: 0 <= i < |weeks| && 0 <= j < 7 ==>
          Valid(weeks[i][j].date)
          && DayNumber(weeks[i][j].date) == DayNumber(weeks[0][0].date) + 7 * i + j)
    && Weekday(weeks[0][0].date) == 0
    && DayNumber(FirstOfMonth(year, month)) - 6 <= DayNumber(weeks[0][0].date) <= DayNumber(FirstOfMonth(year, month))
    && DayNumber(LastOfMonth(year, month)) <= DayNumber(weeks[|weeks| - 1][6].date)
    && DayNumber(weeks[|weeks| - 1][6].date) < DayNumber(LastOfMonth(year, month)) + 7
  }

  /** A valid date whose day number lies between the month's first and last day is in that month. */
  lemma InMonthByDayNumber(d: Date, year: int, month: int)
    requires 0 <= month < 12 && Valid(d)
    requires DayNumber(FirstOfMonth(year, month)) <= DayNumber(d) <= DayNumber(LastOfMonth(year, month))
    ensures d.year == year && d.month == month
  {
    var first, last := FirstOfMonth(year, month), LastOfMonth(year, month);
    if LexLess(d, first) {
      DayNumberOrder(d, first);
    } else if LexLess(last, d) {
      DayNumberOrder(last, d);
    }
  }

  /** The Sunday on or before `d`: `d` moved back by its day of the week. */
  method WeekStart(d: Date) returns (start: Date)
    requires Valid(d)
    ensures Valid(start) && Weekday(start) == 0
    ensures DayNumber(d) - 6 <= DayNumber(start) <= DayNumber(d)
  {
    start := AddDays(d, -Weekday(d));
    StartIsSunday(d, start);
  }

  /** A day after the 1st that is not in the month lies past its last day. */
  lemma PastMonthEnd(d: Date, year: int, month: int)
    requires 0 <= month < 12 && Valid(d) && d.month != month
    requires DayNumber(FirstOfMonth(year, month)) <= DayNumber(d)
    ensures DayNumber(LastOfMonth(year, month)) < DayNumber(d)
  {
    if DayNumber(d) <= DayNumber(LastOfMonth(year, month)) {
      InMonthByDayNumber(d, year, month);
    }
  }

  /** `generateMonthCalendar` for `month` (0-based) of `year`. */
  method GenerateMonthCalendar(h: HolidayTable, year: int, month: int, contracts: seq<ContractDates>)
    returns (weeks: seq<seq<DayInfo>>)
    requires 0 <= month < 12 && AllWellFormed(contracts)
    ensures GridShape(weeks, year, month)
    ensures GridAnnotated(h, contracts, weeks)
  {
    var firstDay := FirstOfMonth(year, month);
    var lastDay := LastOfMonth(year, month);
    var startDate := WeekStart(firstDay);
    var currentDate := startDate;
    ghost var start, end := DayNumber(startDate), DayNumber(lastDay);
    assert DayNumber(firstDay) - 6 <= start <= DayNumber(firstDay) <= end;
    weeks := [];
    while DayNumber(currentDate) <= DayNumber(lastDay) || Weekday(currentDate) != 0
      invariant Valid(currentDate) && Weekday(currentDate) == 0
      invariant DayNumber(currentDate) == start + 7 * |weeks|
      invariant |weeks| > 0 ==> DayNumber(currentDate) - 7 <= end
      invariant RowsFrom(weeks, start)
      invariant GridAnnotated(h, contracts, weeks)
      decreases end + 7 - DayNumber(currentDate)
    {
      var week, next := BuildWeek(h, currentDate, contracts);
      WeekdayPlusWeek(currentDate, next);
      RowsAppend(weeks, week, start);
      GridAnnotatedAppend(h, contracts, weeks, week);
      currentDate := next;
      weeks := weeks + [week];
      if currentDate.month != month && Weekday(currentDate) == 0 {
        PastMonthEnd(currentDate, year, month);
        break;
      }
    }
    assert end < DayNumber(currentDate);
    GridFromWeeks(weeks, year, month, start);
  }

  /** Rows of consecutive weeks from day number `start`. */
  predicate RowsFrom(weeks: seq<seq<DayInfo>>, start: int) {
    forall i :: 0 <= i < |weeks| ==> WeekDays(weeks[i], start + 7 * i)
  }

  /** Every cell of the grid holds the annotation of its own date. */
  predicate GridAnnotated(h: HolidayTable, cs: seq<ContractDates>, weeks: seq<seq<DayInfo>>)
    requires AllWellFormed(cs)
  {
    forall i :: 0 <= i < |weeks| ==> WeekAnnotated(h, cs, weeks[i])
  }

  lemma RowsAppend(weeks: seq<seq<DayInfo>>, week: seq<DayInfo>, start: int)
    requires RowsFrom(weeks, start) && WeekDays(week, start + 7 * |weeks|)
    ensures RowsFrom(weeks + [week], start)
  {
  }

  lemma GridAnnotatedAppend(h: HolidayTable, cs: seq<ContractDates>, weeks: seq<seq<DayInfo>>, week: seq<DayInfo>)
    requires AllWellFormed(cs) && GridAnnotated(h, cs, weeks) && WeekAnnotated(h, cs, week)
    ensures GridAnnotated(h, cs, weeks + [week])
  {
  }

  lemma StartIsSunday(firstDay: Date, startDate: Date)
    requires Valid(firstDay) && Valid(startDate)
    requires DayNumber(startDate) == DayNumber(firstDay) - Weekday(firstDay)
    ensures Weekday(startDate) == 0
  {
    var x := DayNumber(firstDay) + 6;
    assert x == 7 * (x / 7) + Weekday(firstDay);
    ModSevenOf(DayNumber(startDate) + 6, x / 7, 0);
  }

  /** `t` written as 7m + j with 0 <= j < 7 leaves remainder j. */
  lemma ModSevenOf(t: int, m: int, j: int)
    requires t == 7 * m + j && 0 <= j < 7
    ensures t % 7 == j
  {
  }

  lemma WeekdayPlusWeek(a: Date, b: Date)
    requires Valid(a) && Valid(b) && DayNumber(b) == DayNumber(a) + 7
    ensures Weekday(b) == Weekday(a)
  {
    var x := DayNumber(a) + 6;
    assert x == 7 * (x / 7) + Weekday(a);
    ModSevenOf(x + 7, x / 7 + 1, Weekday(a));
  }

  /** The rows the loop collected form the grid the page promises. */
  lemma GridFromWeeks(weeks: seq<seq<DayInfo>>, year: int, month: int, start: int)
    requires 0 <= month < 12 && |weeks| >= 1
    requires RowsFrom(weeks, start)
    requires (start + 6) % 7 == 0
    requires DayNumber(FirstOfMonth(year, month)) - 6 <= start <= DayNumber(FirstOfMonth(year, month))
    requires DayNumber(LastOfMonth(year, month)) < start + 7 * |weeks| <= DayNumber(LastOfMonth(year, month)) + 7
    ensures GridShape(weeks, year, month)
  {
    RowsCells(weeks, start);
    assert WeekDays(weeks[|weeks| - 1], start + 7 * (|weeks| - 1));
  }

  /** Cell j of row i holds day number start + 7i + j. */
  lemma RowsCells(weeks: seq<seq<DayInfo>>, start: int)
    requires |weeks| >= 1 && RowsFrom(weeks, start)
    ensures forall i :: 0 <= i < |weeks| ==> |weeks[i]| == 7
    ensures Valid(weeks[0][0].date) && DayNumber(weeks[0][0].date) == start
    ensures forall i, j :: 0 <= i < |weeks| && 0 <= j < 7 ==>
      Valid(weeks[i][j].date) && DayNumber(weeks[i][j].date) == start + 7 * i + j
  {
    assert WeekDays(weeks[0], start);
    forall i, j | 0 <= i < |weeks| && 0 <= j < 7
      ensures Valid(weeks[i][j].date) && DayNumber(weeks[i][j].date) == start + 7 * i + j
    {
      assert WeekDays(weeks[i], start + 7 * i);
    }
  }

  /** Cell j of every row falls on weekday j (0 = Sunday). */
  lemma GridColumnsAreWeekdays(weeks: seq<seq<DayInfo>>, year: int, month: int, i: int, j: int)
    requires 0 <= month < 12 && GridShape(weeks, year, month)
    requires 0 <= i < |weeks| && 0 <= j < 7
    ensures Weekday(weeks[i][j].date) == j
  {
    WeekdayOffset(weeks[0][0].date, weeks[i][j].date, i, j);
  }

  /** The day `7i + j` days after a Sunday is weekday `j`. */
  lemma WeekdayOffset(sunday: Date, d: Date, i: int, j: int)
    requires Valid(sunday) && Valid(d) && Weekday(sunday) == 0 && 0 <= j < 7
    requires DayNumber(d) == DayNumber(sunday) + 7 * i + j
    ensures Weekday(d) == j
  {
    var s := DayNumber(sunday) + 6;
    assert s == 7 * (s / 7);
    ModSevenOf(DayNumber(d) + 6, s / 7 + i, j);
  }

  /** Every day of the month appears in the grid. */
  lemma GridCoversMonth(weeks: seq<seq<DayInfo>>, year: int, month: int, d: Date)
    requires 0 <= month < 12 && GridShape(weeks, year, month)
    requires Valid(d) && d.year == year && d.month == month
    ensures exists i, j :: 0 <= i < |weeks| && 0 <= j < 7 && weeks[i][j].date == d
  {
    var first, last := FirstOfMonth(year, month), LastOfMonth(year, month);
    if d.day > 1 {
      DayNumberOrder(first, d);
    }
    if d.day < last.day {
      DayNumberOrder(d, last);
    }
    var k := DayNumber(d) - DayNumber(weeks[0][0].date);
    var i, j := k / 7, k % 7;
    assert 0 <= i < |weeks|;
    DayNumberInjective(weeks[i][j].date, d);
  }

  /** No day appears twice: distinct cells hold distinct dates. */
  lemma GridCellsDistinct(weeks: seq<seq<DayInfo>>, year: int, month: int, i1: int, j1: int, i2: int, j2: int)
    requires 0 <= month < 12 && GridShape(weeks, year, month)
    requires 0 <= i1 < |weeks| && 0 <= j1 < 7 && 0 <= i2 < |weeks| && 0 <= j2 < 7
    requires weeks[i1][j1].date == weeks[i2][j2].date
    ensures i1 == i2 && j1 == j2
  {
  }
}
