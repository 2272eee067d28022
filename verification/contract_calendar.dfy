/**
 * WTI crude (CL) contract dates, as the trading calendar page computes them from the CME
 * termination-of-trading rule: the last trading day is 3 business days before the 25th of
 * the month preceding delivery, or 4 when that 25th is not a business day; first notice is
 * the next business day; the trade month runs from the 26th of M-2 to the 25th of M-1.
 */
module ContractCalendar {
  import opened Wrappers
  import opened Decimal
  import opened CivilDate
  import opened BusinessCalendar

  /** One delivery month's dates; `contractMonth` is 0-based. */
  datatype ContractDates = ContractDates(
    contractMonth: int,
    contractYear: int,
    lastTradingDay: Date,
    firstNoticeDay: Date,
    tradeMonthStart: Date,
    tradeMonthEnd: Date)

  /** The month before (year, month): one step back in the absolute month count, so January wraps to December. */
  function PrecedingMonth(year: int, month: int): (r: (int, int))
    requires 0 <= month < 12
    ensures 0 <= r.1 < 12 && r.0 * 12 + r.1 == year * 12 + month - 1
  {
    if month - 1 < 0 then (year - 1, 11) else (year, month - 1)
  }

  /** The month two before (year, month), wrapping by +12 months and -1 year. */
  function TradeStartMonth(year: int, month: int): (r: (int, int))
    requires 0 <= month < 12
    ensures 0 <= r.1 < 12 && r.0 * 12 + r.1 == year * 12 + month - 2
  {
    if month - 2 < 0 then (year - 1, month - 2 + 12) else (year, month - 2)
  }

  /** The 25th of the preceding month: the reference day of the last-trading-day rule. */
  function Anchor(year: int, month: int): (d: Date)
    requires 0 <= month < 12
    ensures Valid(d) && d.day == 25
  {
    var p := PrecedingMonth(year, month);
    Date(p.0, p.1, 25)
  }

  /** How many business days the last trading day lies before the anchor. */
  function LtdOffset(h: HolidayTable, anchor: Date): nat
    requires Valid(anchor)
  {
    if IsBusinessDay(h, anchor) then 3 else 4
  }

  /** The dates of a contract are real dates and its month is 0..11. */
  predicate WellFormed(c: ContractDates) {
    0 <= c.contractMonth < 12
    && Valid(c.lastTradingDay) && Valid(c.firstNoticeDay)
    && Valid(c.tradeMonthStart) && Valid(c.tradeMonthEnd)
  }

  /**
   * The offset of 3 or 4 is one uniform rule: the last trading day lies 3 business days before
   * the last business day `b` on or before the 25th.
   */
  lemma LastTradingRule(h: HolidayTable, anchor: Date, b: Date, ltd: Date)
    requires Valid(anchor) && Valid(b) && Valid(ltd) && IsBusinessDay(h, b)
    requires DayNumber(ltd) <= DayNumber(b) <= DayNumber(anchor)
    requires BizCount(h, Next(b), Next(anchor)) == 0
    ensures BizCount(h, ltd, anchor) == LtdOffset(h, anchor) <==> BizCount(h, ltd, b) == 3
  {
    if DayNumber(b) == DayNumber(anchor) {
      DayNumberInjective(b, anchor);
    } else {
      BizCountExtend(h, Next(b), anchor);
      BizCountSplit(h, ltd, b, anchor);
    }
  }

  /** Everything the rule fixes about the contract for delivery month (contractYear, contractMonth). */
  predicate ContractRules(h: HolidayTable, c: ContractDates) {
    WellFormed(c)
    && var anchor := Anchor(c.contractYear, c.contractMonth);
    var start := TradeStartMonth(c.contractYear, c.contractMonth);
    && IsBusinessDay(h, c.lastTradingDay)
    && DayNumber(c.lastTradingDay) < DayNumber(anchor)
    && BizCount(h, c.lastTradingDay, anchor) == LtdOffset(h, anchor)
    && IsBusinessDay(h, c.firstNoticeDay)
    && DayNumber(c.lastTradingDay) < DayNumber(c.firstNoticeDay)
    && BizCount(h, Next(c.lastTradingDay), Next(c.firstNoticeDay)) == 1
    && c.tradeMonthStart == Date(start.0, start.1, 26)
    && c.tradeMonthEnd == anchor
  }

  /** `calculateContractDates` for delivery month `month` (0-based) of `year`. */
  method CalculateContractDates(h: HolidayTable, year: int, month: int) returns (c: ContractDates)
    requires 0 <= month < 12
    ensures c.contractYear == year && c.contractMonth == month
    ensures ContractRules(h, c)
  {
    var precedingMonth := month - 1;
    var precedingYear := year;
    if precedingMonth < 0 {
      precedingMonth := 11;
      precedingYear := year - 1;
    }
    var the25th := Date(precedingYear, precedingMonth, 25);
    var daysToSubtract := if IsBusinessDay(h, the25th) then 3 else 4;
    var lastTradingDay := SubtractBusinessDays(h, the25th, daysToSubtract);
    var firstNoticeDay := AddBusinessDays(h, lastTradingDay, 1);
    var tradeStartMonth := month - 2;
    var tradeStartYear := year;
    if tradeStartMonth < 0 {
      tradeStartMonth := tradeStartMonth + 12;
      tradeStartYear := tradeStartYear - 1;
    }
    var tradeMonthStart := Date(tradeStartYear, tradeStartMonth, 26);
    var tradeMonthEnd := Date(precedingYear, precedingMonth, 25);
    assert the25th == Anchor(year, month) && tradeMonthEnd == the25th;
    assert tradeMonthStart == Date(TradeStartMonth(year, month).0, TradeStartMonth(year, month).1, 26);
    c := ContractDates(month, year, lastTradingDay, firstNoticeDay, tradeMonthStart, tradeMonthEnd);
    RulesFromSteps(h, c);
  }

  /** The two business-day walks of `calculateContractDates` meet the rules. */
  lemma RulesFromSteps(h: HolidayTable, c: ContractDates)
    requires 0 <= c.contractMonth < 12
    requires c.tradeMonthEnd == Anchor(c.contractYear, c.contractMonth)
    requires c.tradeMonthStart == Date(TradeStartMonth(c.contractYear, c.contractMonth).0, TradeStartMonth(c.contractYear, c.contractMonth).1, 26)
    requires Valid(c.lastTradingDay) && BizCount(h, c.lastTradingDay, c.tradeMonthEnd) == LtdOffset(h, c.tradeMonthEnd)
    requires IsBusinessDay(h, c.lastTradingDay) && DayNumber(c.lastTradingDay) < DayNumber(c.tradeMonthEnd)
    requires Valid(c.firstNoticeDay) && BizCount(h, Next(c.lastTradingDay), Next(c.firstNoticeDay)) == 1
    requires IsBusinessDay(h, c.firstNoticeDay) && DayNumber(c.firstNoticeDay) > DayNumber(c.lastTradingDay)
    ensures ContractRules(h, c)
  {
  }

  /** First notice day is the first business day after the last trading day: none lies strictly between. */
  lemma FirstNoticeFollowsLastTrading(h: HolidayTable, c: ContractDates, d: Date)
    requires ContractRules(h, c) && Valid(d)
    requires DayNumber(c.lastTradingDay) < DayNumber(d) < DayNumber(c.firstNoticeDay)
    ensures !IsBusinessDay(h, d)
  {
    NextBusinessDayIsFirst(h, c.lastTradingDay, c.firstNoticeDay, d);
  }

  /** The last trading day comes strictly before the end of the trade month (the anchor itself). */
  lemma LastTradingBeforeTradeMonthEnd(h: HolidayTable, c: ContractDates)
    requires ContractRules(h, c)
    ensures DayNumber(c.lastTradingDay) < DayNumber(c.tradeMonthEnd)
    ensures c.tradeMonthStart.day == 26 && c.tradeMonthEnd.day == 25
  {
  }

  /** The rules leave no choice: a delivery month has exactly one set of contract dates. */
  lemma ContractRulesDetermine(h: HolidayTable, c1: ContractDates, c2: ContractDates)
    requires ContractRules(h, c1) && ContractRules(h, c2)
    requires c1.contractYear == c2.contractYear && c1.contractMonth == c2.contractMonth
    ensures c1 == c2
  {
    var anchor := Anchor(c1.contractYear, c1.contractMonth);
    StepBackUnique(h, anchor, LtdOffset(h, anchor), c1.lastTradingDay, c2.lastTradingDay);
    var f1, f2 := c1.firstNoticeDay, c2.firstNoticeDay;
    if DayNumber(f1) < DayNumber(f2) {
      FirstNoticeFollowsLastTrading(h, c2, f1);
    } else if DayNumber(f2) < DayNumber(f1) {
      FirstNoticeFollowsLastTrading(h, c1, f2);
    } else {
      DayNumberInjective(f1, f2);
    }
  }

  /** The trade months of consecutive delivery months are back to back: no gap, no overlap. */
  lemma TradeMonthsAdjoin(h: HolidayTable, c1: ContractDates, c2: ContractDates)
    requires ContractRules(h, c1) && ContractRules(h, c2)
    requires AbsoluteMonth(c2) == AbsoluteMonth(c1) + 1
    ensures c2.tradeMonthStart == Next(c1.tradeMonthEnd)
    ensures DayNumber(c2.tradeMonthStart) == DayNumber(c1.tradeMonthEnd) + 1
  {
    var p := PrecedingMonth(c1.contractYear, c1.contractMonth);
    var t := TradeStartMonth(c2.contractYear, c2.contractMonth);
    MonthIndexUnique(p.0, p.1, t.0, t.1);
    var e := c1.tradeMonthEnd;
    assert e == Date(p.0, p.1, 25);
    assert Next(e) == Date(p.0, p.1, 26);
  }

  /** A (year, 0-based month) pair is determined by its absolute month count. */
  lemma MonthIndexUnique(y1: int, m1: int, y2: int, m2: int)
    requires 0 <= m1 < 12 && 0 <= m2 < 12 && y1 * 12 + m1 == y2 * 12 + m2
    ensures y1 == y2 && m1 == m2
  {
  }

  /** Counting the business days before 2026-02-25 from the week's weekday and holiday facts. */
  lemma March2026Counts(h: HolidayTable)
    requires IsBusinessDay(h, Date(2026, 1, 20)) && IsBusinessDay(h, Date(2026, 1, 23)) && IsBusinessDay(h, Date(2026, 1, 24))
    requires !IsBusinessDay(h, Date(2026, 1, 21)) && !IsBusinessDay(h, Date(2026, 1, 22))
    ensures BizCount(h, Date(2026, 1, 20), Date(2026, 1, 25)) == 3
    ensures BizCount(h, Next(Date(2026, 1, 20)), Next(Date(2026, 1, 23))) == 1
  {
    assert Next(Date(2026, 1, 24)) == Date(2026, 1, 25);
    assert Next(Date(2026, 1, 23)) == Date(2026, 1, 24);
    assert Next(Date(2026, 1, 22)) == Date(2026, 1, 23);
    assert Next(Date(2026, 1, 21)) == Date(2026, 1, 22);
    assert Next(Date(2026, 1, 20)) == Date(2026, 1, 21);
  }

  /** The week before 2026-02-25 in the NYMEX table: Saturday 21 and Sunday 22 are the only days off. */
  lemma February2026Week()
    ensures IsBusinessDay(AllHolidays, Date(2026, 1, 20)) && IsBusinessDay(AllHolidays, Date(2026, 1, 23))
    ensures IsBusinessDay(AllHolidays, Date(2026, 1, 24)) && IsBusinessDay(AllHolidays, Date(2026, 1, 25))
  {
    TableYearStarts();
    AllHolidays2026(Date(2026, 1, 20));
    AllHolidays2026(Date(2026, 1, 23));
    AllHolidays2026(Date(2026, 1, 24));
    AllHolidays2026(Date(2026, 1, 25));
  }

  /** Saturday 21 and Sunday 22 February 2026 are not business days. */
  lemma February2026Weekend()
    ensures !IsBusinessDay(AllHolidays, Date(2026, 1, 21)) && !IsBusinessDay(AllHolidays, Date(2026, 1, 22))
  {
    TableYearStarts();
  }

  /** A trade month is never empty: it starts before it ends. */
  lemma TradeMonthNonEmpty(h: HolidayTable, c: ContractDates)
    requires ContractRules(h, c)
    ensures DayNumber(c.tradeMonthStart) < DayNumber(c.tradeMonthEnd)
  {
    DayNumberOrder(c.tradeMonthStart, c.tradeMonthEnd);
  }

  /** The delivery month counted from January of year 0. */
  function AbsoluteMonth(c: ContractDates): int {
    c.contractYear * 12 + c.contractMonth
  }

  /** Contracts obeying the rules for consecutive delivery months, in order: the i-th is i months after the first. */
  predicate Consecutive(h: HolidayTable, cs: seq<ContractDates>) {
    forall i :: 0 <= i < |cs| ==> ContractRules(h, cs[i]) && AbsoluteMonth(cs[i]) == AbsoluteMonth(cs[0]) + i
  }

  /** The trade months of a run of consecutive contracts: each non-empty, each starting the day after the previous one ends. */
  predicate TradeMonthsChain(cs: seq<ContractDates>) {
    (forall i :: 0 <= i < |cs| ==>
       WellFormed(cs[i]) && DayNumber(cs[i].tradeMonthStart) < DayNumber(cs[i].tradeMonthEnd))
    && forall i :: 0 <= i < |cs| - 1 ==>
      DayNumber(cs[i + 1].tradeMonthStart) == DayNumber(cs[i].tradeMonthEnd) + 1
  }

  lemma ConsecutiveChain(h: HolidayTable, cs: seq<ContractDates>)
    requires Consecutive(h, cs)
    ensures TradeMonthsChain(cs)
  {
    forall i | 0 <= i < |cs| ensures DayNumber(cs[i].tradeMonthStart) < DayNumber(cs[i].tradeMonthEnd) {
      TradeMonthNonEmpty(h, cs[i]);
    }
    forall i | 0 <= i < |cs| - 1
      ensures DayNumber(cs[i + 1].tradeMonthStart) == DayNumber(cs[i].tradeMonthEnd) + 1
    {
      TradeMonthsAdjoin(h, cs[i], cs[i + 1]);
    }
  }

  /** March 2026: the 25th of February is a Wednesday and a business day, so 3 days back. */
  lemma ExampleMarch2026(c: ContractDates)
    requires ContractRules(AllHolidays, c) && c.contractYear == 2026 && c.contractMonth == 2
    ensures c.lastTradingDay == Date(2026, 1, 20) && c.firstNoticeDay == Date(2026, 1, 23)
    ensures c.tradeMonthStart == Date(2026, 0, 26) && c.tradeMonthEnd == Date(2026, 1, 25)
  {
    February2026Week();
    February2026Weekend();
    March2026Counts(AllHolidays);
    ContractRulesDetermine(AllHolidays, c,
      c.(lastTradingDay := Date(2026, 1, 20), firstNoticeDay := Date(2026, 1, 23)));
  }

  /** Counting the business days before 2026-05-25 from the week's weekday and holiday facts. */
  lemma June2026Counts(h: HolidayTable)
    requires IsBusinessDay(h, Date(2026, 4, 19)) && IsBusinessDay(h, Date(2026, 4, 20))
    requires IsBusinessDay(h, Date(2026, 4, 21)) && IsBusinessDay(h, Date(2026, 4, 22))
    requires !IsBusinessDay(h, Date(2026, 4, 23)) && !IsBusinessDay(h, Date(2026, 4, 24))
    ensures BizCount(h, Date(2026, 4, 19), Date(2026, 4, 25)) == 4
    ensures BizCount(h, Next(Date(2026, 4, 19)), Next(Date(2026, 4, 20))) == 1
  {
    assert Next(Date(2026, 4, 24)) == Date(2026, 4, 25);
    assert Next(Date(2026, 4, 23)) == Date(2026, 4, 24);
    assert Next(Date(2026, 4, 22)) == Date(2026, 4, 23);
    assert Next(Date(2026, 4, 21)) == Date(2026, 4, 22);
    assert Next(Date(2026, 4, 20)) == Date(2026, 4, 21);
    assert Next(Date(2026, 4, 19)) == Date(2026, 4, 20);
  }

  /** The week before 2026-05-25 in the NYMEX table: the 23rd and 24th are a weekend, the 25th Memorial Day. */
  lemma May2026Week()
    ensures IsBusinessDay(AllHolidays, Date(2026, 4, 19)) && IsBusinessDay(AllHolidays, Date(2026, 4, 20))
    ensures IsBusinessDay(AllHolidays, Date(2026, 4, 21)) && IsBusinessDay(AllHolidays, Date(2026, 4, 22))
  {
    TableYearStarts();
    AllHolidays2026(Date(2026, 4, 19));
    AllHolidays2026(Date(2026, 4, 20));
    AllHolidays2026(Date(2026, 4, 21));
    AllHolidays2026(Date(2026, 4, 22));
  }

  /** 23 and 24 May 2026 are a weekend and 25 May is Memorial Day: none is a business day. */
  lemma May2026Closed()
    ensures !IsBusinessDay(AllHolidays, Date(2026, 4, 23)) && !IsBusinessDay(AllHolidays, Date(2026, 4, 24))
    ensures !IsBusinessDay(AllHolidays, Date(2026, 4, 25))
  {
    TableYearStarts();
    AllHolidays2026(Date(2026, 4, 25));
  }

  /** June 2026: the 25th of May is Memorial Day, so the last trading day is 4 business days back. */
  lemma ExampleJune2026(c: ContractDates)
    requires ContractRules(AllHolidays, c) && c.contractYear == 2026 && c.contractMonth == 5
    ensures c.lastTradingDay == Date(2026, 4, 19) && c.firstNoticeDay == Date(2026, 4, 20)
  {
    May2026Week();
    May2026Closed();
    June2026Counts(AllHolidays);
    ContractRulesDetermine(AllHolidays, c,
      c.(lastTradingDay := Date(2026, 4, 19), firstNoticeDay := Date(2026, 4, 20)));
  }

  /** Counting the business days before 2026-12-25 from the week's weekday and holiday facts. */
  lemma December2026Counts(h: HolidayTable)
    requires IsBusinessDay(h, Date(2026, 11, 21)) && IsBusinessDay(h, Date(2026, 11, 22))
    requires IsBusinessDay(h, Date(2026, 11, 23)) && IsBusinessDay(h, Date(2026, 11, 24))
    ensures BizCount(h, Date(2026, 11, 21), Date(2026, 11, 25)) == 4
    ensures BizCount(h, Next(Date(2026, 11, 21)), Next(Date(2026, 11, 22))) == 1
  {
    assert Next(Date(2026, 11, 24)) == Date(2026, 11, 25);
    assert Next(Date(2026, 11, 23)) == Date(2026, 11, 24);
    assert Next(Date(2026, 11, 22)) == Date(2026, 11, 23);
    assert Next(Date(2026, 11, 21)) == Date(2026, 11, 22);
  }

  /** The days before Christmas 2026 in the NYMEX table: Monday 21 to Thursday 24 are business days. */
  lemma December2026Week()
    ensures IsBusinessDay(AllHolidays, Date(2026, 11, 21)) && IsBusinessDay(AllHolidays, Date(2026, 11, 22))
    ensures IsBusinessDay(AllHolidays, Date(2026, 11, 23)) && IsBusinessDay(AllHolidays, Date(2026, 11, 24))
  {
    TableYearStarts();
    AllHolidays2026(Date(2026, 11, 21));
    AllHolidays2026(Date(2026, 11, 22));
    AllHolidays2026(Date(2026, 11, 23));
    AllHolidays2026(Date(2026, 11, 24));
  }

  /** Christmas 2026 is not a business day. */
  lemma December2026Closed()
    ensures !IsBusinessDay(AllHolidays, Date(2026, 11, 25))
  {
    TableYearStarts();
    AllHolidays2026(Date(2026, 11, 25));
  }

  /** January 2027 wraps to December 2026, whose 25th is Christmas: 4 business days back. */
  lemma ExampleJanuary2027(c: ContractDates)
    requires ContractRules(AllHolidays, c) && c.contractYear == 2027 && c.contractMonth == 0
    ensures c.lastTradingDay == Date(2026, 11, 21) && c.firstNoticeDay == Date(2026, 11, 22)
    ensures c.tradeMonthStart == Date(2026, 10, 26) && c.tradeMonthEnd == Date(2026, 11, 25)
  {
    December2026Week();
    December2026Closed();
    December2026Counts(AllHolidays);
    ContractRulesDetermine(AllHolidays, c,
      c.(lastTradingDay := Date(2026, 11, 21), firstNoticeDay := Date(2026, 11, 22)));
  }

  /** `generateYearContracts`: the twelve months of `year`, then January to March of `year + 1`. */
  method GenerateYearContracts(h: HolidayTable, year: int) returns (contracts: seq<ContractDates>)
    ensures |contracts| == 15
    ensures forall i :: 0 <= i < 15 ==> contracts[i].contractYear == year + i / 12 && contracts[i].contractMonth == i % 12
    ensures Consecutive(h, contracts)
  {
    contracts := [];
    for month := 0 to 12
      invariant |contracts| == month
      invariant month > 0 ==> AbsoluteMonth(contracts[0]) == year * 12
      invariant Consecutive(h, contracts)
    {
      contracts := PushContract(h, contracts, year, month);
    }
    contracts := PushContract(h, contracts, year + 1, 0);
    contracts := PushContract(h, contracts, year + 1, 1);
    contracts := PushContract(h, contracts, year + 1, 2);
    ConsecutiveMonths(h, contracts, year);
  }

  /** `contracts.push(calculateContractDates(year, month))`, keeping the run consecutive. */
  method PushContract(h: HolidayTable, contracts: seq<ContractDates>, year: int, month: int) returns (r: seq<ContractDates>)
    requires 0 <= month < 12 && Consecutive(h, contracts)
    requires |contracts| > 0 ==> year * 12 + month == AbsoluteMonth(contracts[0]) + |contracts|
    ensures |r| == |contracts| + 1 && r[..|contracts|] == contracts
    ensures AbsoluteMonth(r[0]) == if |contracts| > 0 then AbsoluteMonth(contracts[0]) else year * 12 + month
    ensures Consecutive(h, r)
  {
    var c := CalculateContractDates(h, year, month);
    ConsecutiveAppend(h, contracts, c);
    r := contracts + [c];
  }

  /** In a consecutive run starting in January of `year`, the i-th contract is for month i % 12 of year + i / 12. */
  lemma ConsecutiveMonths(h: HolidayTable, cs: seq<ContractDates>, year: int)
    requires Consecutive(h, cs) && |cs| > 0 && AbsoluteMonth(cs[0]) == year * 12
    ensures forall i :: 0 <= i < |cs| ==> cs[i].contractYear == year + i / 12 && cs[i].contractMonth == i % 12
  {
    forall i | 0 <= i < |cs|
      ensures cs[i].contractYear == year + i / 12 && cs[i].contractMonth == i % 12
    {
      assert ContractRules(h, cs[i]) && AbsoluteMonth(cs[i]) == year * 12 + i;
      assert (year + i / 12) * 12 + i % 12 == year * 12 + i;
      MonthIndexUnique(cs[i].contractYear, cs[i].contractMonth, year + i / 12, i % 12);
    }
  }

  lemma ConsecutiveAppend(h: HolidayTable, cs: seq<ContractDates>, c: ContractDates)
    requires Consecutive(h, cs) && ContractRules(h, c)
    requires |cs| > 0 ==> AbsoluteMonth(c) == AbsoluteMonth(cs[0]) + |cs|
    ensures Consecutive(h, cs + [c])
  {
    assert forall i :: 0 <= i < |cs| ==> (cs + [c])[i] == cs[i];
  }

  /** The delivery-month letters F, G, H, J, K, M, N, Q, U, V, X, Z for January..December. */
  function MonthCode(month: int): char
    requires 0 <= month < 12
  {
    if month < 6 then
      (if month == 0 then 'F' else if month == 1 then 'G' else if month == 2 then 'H'
       else if month == 3 then 'J' else if month == 4 then 'K' else 'M')
    else
      (if month == 6 then 'N' else if month == 7 then 'Q' else if month == 8 then 'U'
       else if month == 9 then 'V' else if month == 10 then 'X' else 'Z')
  }

  /** The month a letter stands for, if any: the inverse of `MonthCode`. */
  function MonthOfCode(c: char): (r: Option<int>)
    ensures r.Some? ==> 0 <= r.value < 12 && MonthCode(r.value) == c
  {
    if c == 'F' then Some(0) else if c == 'G' then Some(1) else if c == 'H' then Some(2)
    else if c == 'J' then Some(3) else if c == 'K' then Some(4) else if c == 'M' then Some(5)
    else if c == 'N' then Some(6) else if c == 'Q' then Some(7) else if c == 'U' then Some(8)
    else if c == 'V' then Some(9) else if c == 'X' then Some(10) else if c == 'Z' then Some(11)
    else None
  }

  /**
   * `String(year).slice(-2)`: the tens and units digits of the year, or the whole text of a
   * one-digit year (with its sign); `YearSuffixIsTail` ties it to the decimal text.
   */
  function YearSuffix(year: int): (s: string)
    ensures 1 <= |s| <= 2
  {
    var a := if year < 0 then -year else year;
    if a >= 10 then [DigitChar((a / 10) % 10), DigitChar(a % 10)]
    else if year < 0 then ['-', DigitChar(a)]
    else [DigitChar(a)]
  }

  /** The contract code: "CL", the month letter, the year suffix. */
  function ContractCode(month: int, year: int): string
    requires 0 <= month < 12
  {
    "CL" + [MonthCode(month)] + YearSuffix(year)
  }

  /** A code is "CL", the month letter, then one or two characters of the year. */
  lemma ContractCodeShape(month: int, year: int)
    requires 0 <= month < 12
    ensures var code := ContractCode(month, year);
      |code| == 3 + |YearSuffix(year)| && 4 <= |code| <= 5 && code[..2] == "CL" && code[2] == MonthCode(month)
  {
  }

  /** The suffix is what `slice(-2)` leaves of the year's decimal text. */
  lemma YearSuffixIsTail(year: int)
    ensures var t := IntToDecimal(year);
      YearSuffix(year) == if |t| >= 2 then t[|t| - 2..] else t
  {
    var a := if year < 0 then -year else year;
    var t := IntToDecimal(year);
    if a >= 10 {
      NatToDecimalLastTwo(a);
      if year < 0 {
        assert t == "-" + NatToDecimal(a);
        assert t[|t| - 2..] == NatToDecimal(a)[|NatToDecimal(a)| - 2..];
      }
    } else if year < 0 {
      assert t == "-" + [DigitChar(a)];
    }
  }

  /** The last two characters of the decimal text of a number from 10 on are its tens and units digits. */
  lemma NatToDecimalLastTwo(a: nat)
    requires a >= 10
    ensures var t := NatToDecimal(a);
      |t| >= 2 && t[|t| - 2..] == [DigitChar((a / 10) % 10), DigitChar(a % 10)]
  {
    var q := a / 10;
    var t, u := NatToDecimal(a), NatToDecimal(q);
    assert t == u + [DigitChar(a % 10)];
    if q >= 10 {
      assert u == NatToDecimal(q / 10) + [DigitChar(q % 10)];
    }
    assert u[|u| - 1] == DigitChar(q % 10);
  }

  /** Reads a five-character code back into (0-based month, two-digit year). */
  function ParseContractCode(code: string): (r: Option<(int, int)>)
  {
    if |code| == 5 && code[..2] == "CL" && AllDigits(code[3..]) then
      match MonthOfCode(code[2])
      case None => None
      case Some(m) => Some((m, DecimalValue(code[3..])))
    else None
  }

  /** A code names its delivery month and the year modulo 100: reading it back recovers both. */
  lemma ContractCodeRoundTrip(month: int, year: int)
    requires 0 <= month < 12 && year >= 10
    ensures ParseContractCode(ContractCode(month, year)) == Some((month, year % 100))
  {
    var tens, units := (year / 10) % 10, year % 10;
    LastTwoDigits(year);
    TwoDigitValue(tens, units);
    MonthLetterIndex(month);
    var code := ContractCode(month, year);
    assert code == "CL" + [MonthCode(month)] + [DigitChar(tens), DigitChar(units)];
    assert code[..2] == "CL" && code[3..] == [DigitChar(tens), DigitChar(units)];
  }

  /**
   * The other round trip: a code that reads back as (month, yy) is the code of that month in
   * every year from 10 on whose last two digits are yy.
   */
  lemma ParseContractCodeSound(code: string, month: int, yy: int)
    requires ParseContractCode(code) == Some((month, yy))
    ensures 0 <= month < 12 && 0 <= yy < 100
    ensures forall year :: year >= 10 && year % 100 == yy ==> ContractCode(month, year) == code
  {
    var digits := code[3..];
    var c1, c2 := digits[0], digits[1];
    var a, b := c1 as int - '0' as int, c2 as int - '0' as int;
    TwoDigitValue(a, b);
    assert digits == [DigitChar(a), DigitChar(b)];
    forall year | year >= 10 && year % 100 == yy
      ensures ContractCode(month, year) == code
    {
      var tens, units := (year / 10) % 10, year % 10;
      LastTwoDigits(year);
      assert DigitChar(tens) == c1 && DigitChar(units) == c2;
      assert code == "CL" + [code[2]] + [c1, c2];
    }
  }

  /** The tens and units digits make up the year modulo 100. */
  lemma LastTwoDigits(y: int)
    requires y >= 0
    ensures ((y / 10) % 10) * 10 + y % 10 == y % 100
  {
    var q, r := y / 10, y % 10;
    var q2, r2 := q / 10, q % 10;
    assert y == 100 * q2 + (10 * r2 + r) && 0 <= 10 * r2 + r < 100;
  }

  lemma TwoDigitValue(a: nat, b: nat)
    requires a < 10 && b < 10
    ensures AllDigits([DigitChar(a), DigitChar(b)])
    ensures DecimalValue([DigitChar(a), DigitChar(b)]) == a * 10 + b
  {
    var digits := [DigitChar(a), DigitChar(b)];
    assert digits[..1] == [DigitChar(a)] && digits[..1][..0] == [];
    assert DecimalValue(digits[..1]) == a;
  }

  /** The twelve month letters are distinct, so each letter leads back to its month. */
  lemma MonthLetterIndex(month: int)
    requires 0 <= month < 12
    ensures MonthOfCode(MonthCode(month)) == Some(month)
  {
  }
}
