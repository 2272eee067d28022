# OilTex dashboard — verified model of the contract calendar and its helpers

This project models the core of the OilTex price dashboard in Dafny:

- the WTI crude (CL) futures contract calendar: the NYMEX business-day predicate over the
  2026/2027 holiday table, business-day stepping, the last-trading-day / first-notice-day /
  trade-month rules, the fifteen contracts of a year, contract codes, and the Sunday-first month
  grid annotated with those dates;
- the ticket extractor's pure helpers: cutting the JSON out of the model's reply, the advisory
  range checks, and the flattening of a parsed ticket into table columns. The range checks
  compare with JavaScript's `<` and `>`, which read a string, array or object operand through
  `Number()` (ToNumber and StringToNumber, sections 7.1.4 and 7.1.4.1.1 of ECMA-262), so the
  model includes that conversion: `"600"` and `[600]` compare as 600, a blank string as 0, and
  text that is not a numeric literal as NaN, which is never out of range;
- the SQL query builders of the ops-inventory database layer: placeholder numbering, the
  filter conditions, the field allow-list and `processed_at`;
- the upload-processing endpoint, as a store of uploads whose status the request moves through
  pending/failed/completed → processing → completed or failed;
- the price endpoint's date normalisation, the seven-series bucketing transform and its
  parameter checks;
- the price history page's trading and calendar date lists, the per-series price maps and the
  10-day fill-forward lookup;
- the login-code request: the allowed-domain check, the 8-digit code, and the order of the
  request's guards, store and send.

Dates are civil `(year, month, day)` values with a 0-based month, as JavaScript's `Date` holds
them; a day number since 0000-01-01 orders them and gives the weekday. Holiday tables are maps.
Every external effect — the clock, `Math.random`, `new Date(text)` parsing, the database, the
PDF extraction, the live price fetchers and the e-mail service — is a parameter: a value, a
function, or a set of fault flags.

Modules: `Wrappers`, `JsValue` (JavaScript values, truthiness, `trim`), `Decimal` (decimal
text), `JsNumber` (`Number()` of a value), `CivilDate`, `BusinessCalendar`, `ContractCalendar`, `MonthGrid`, `TicketExtractor`,
`OpsInventoryDb`, `UploadProcessing`, `Prices`, `History`, `SendCode`.

## Model

| member | source | states |
|---|---|---|
| CivilDate.DaysInMonth | src/app/calendar/page.tsx:158 | a month has 28 to 31 days, 29 exactly in February of a leap year |
| CivilDate.Weekday | src/app/calendar/page.tsx:34-37 | `getDay()` is in 0..6 |
| CivilDate.Next | src/app/calendar/page.tsx:68 | `setDate(getDate() + 1)` gives a valid date one day number later |
| CivilDate.Prev | src/app/calendar/page.tsx:56 | `setDate(getDate() - 1)` gives a valid date one day number earlier |
| CivilDate.NextPrevInverse | src/app/calendar/page.tsx:56-68 | stepping forward and back are inverse |
| CivilDate.WeekdayNext | src/app/calendar/page.tsx:34-37 | the weekday advances by one modulo 7 with each day |
| CivilDate.DayNumberOrder | src/app/calendar/page.tsx:196 | day numbers order valid dates as their fields do |
| CivilDate.NotAfterIsDayNumberOrder | src/app/calendar/page.tsx:196 | the date comparison `<=` is the day-number order |
| CivilDate.DayNumberInjective | src/app/calendar/page.tsx:48-50 | two valid dates with one day number are equal |
| CivilDate.AddDays | src/app/history/page.tsx:80-82 | `setDate(getDate() + k)` gives a valid date k day numbers later |
| CivilDate.AddDaysUnique | src/app/history/page.tsx:106-108 | the date k days away is the only valid date with that day number |
| CivilDate.ParseIsoDate | src/app/calendar/page.tsx:48-50 | a text that reads as a date gives a valid date of years 0..9999 |
| CivilDate.IsoDateRoundTrip | src/app/calendar/page.tsx:48-50 | `FormatIsoDate`, the `toISOString().split("T")[0]` key (also prices/route.ts:10 and history/page.tsx:27): the key of a date in years 0..9999 has 10 characters and reads back as that date |
| CivilDate.IsoDateCanonical | src/app/calendar/page.tsx:48-50 | every text that reads as a date is that date's key |
| CivilDate.IsoDateInjective | src/app/calendar/page.tsx:39-46 | distinct dates have distinct holiday-table keys |
| BusinessCalendar.HolidayName | src/app/calendar/page.tsx:39-46 | `isHoliday` and `ALL_HOLIDAYS[dateStr]`: the name is present exactly for the dates `IsHoliday` holds of, and is the table's entry |
| BusinessCalendar.FiveBusinessDaysAWeek | src/app/calendar/page.tsx:34-46 | `IsWeekend`/`IsBusinessDay`/`BizCount`: with no holidays, any seven consecutive days hold exactly five business days |
| BusinessCalendar.BizCountExtend | src/app/calendar/page.tsx:52-74 | `BizCount`: counting one day more adds that day exactly when it is a business day |
| BusinessCalendar.BizCountPositive | src/app/calendar/page.tsx:52-74 | `BizCount`: a business day inside an interval is counted |
| BusinessCalendar.HolidayTableYears | src/app/calendar/page.tsx:7-32 | the combined table holds valid dates of 2026 and 2027 only |
| BusinessCalendar.HolidaysAreWeekdays | src/app/calendar/page.tsx:7-32 | no holiday of the table falls on a weekend |
| BusinessCalendar.Holidays2026AreWeekdays | src/app/calendar/page.tsx:7-17 | the 2026 holidays are valid 2026 weekdays |
| BusinessCalendar.Holidays2027AreWeekdays | src/app/calendar/page.tsx:20-30 | the 2027 holidays are valid 2027 weekdays |
| BusinessCalendar.AllHolidays2026 | src/app/calendar/page.tsx:32 | on 2026 dates the combined table is the 2026 table, names included |
| BusinessCalendar.BusinessDayOutsideTable | src/app/calendar/page.tsx:43-46 | in a year the table does not cover, a business day is exactly a weekday |
| BusinessCalendar.BizCountSplit | src/app/calendar/page.tsx:52-74 | business-day counts over adjoining intervals add up |
| BusinessCalendar.BusinessDayBefore | src/app/calendar/page.tsx:52-62 | some business day precedes any date, so backward stepping ends |
| BusinessCalendar.BusinessDayAfter | src/app/calendar/page.tsx:64-74 | some business day follows any date, so forward stepping ends |
| BusinessCalendar.SubtractBusinessDays | src/app/calendar/page.tsx:52-62 | [result, date) holds exactly `days` business days; for days ≥ 1 the result is a business day before the date |
| BusinessCalendar.AddBusinessDays | src/app/calendar/page.tsx:64-74 | (date, result] holds exactly `days` business days; for days ≥ 1 the result is a business day after the date |
| BusinessCalendar.StepBackUnique | src/app/calendar/page.tsx:52-62 | the n-th business day back is unique |
| BusinessCalendar.NextBusinessDayIsFirst | src/app/calendar/page.tsx:64-74 | one business day forward skips only non-business days |
| ContractCalendar.PrecedingMonth | src/app/calendar/page.tsx:88-94 | the month before, wrapping January to December of the year before |
| ContractCalendar.TradeStartMonth | src/app/calendar/page.tsx:109-114 | the month two before, wrapping by +12 months and −1 year |
| ContractCalendar.Anchor | src/app/calendar/page.tsx:96 | the anchor is the valid 25th of the preceding month |
| ContractCalendar.CalculateContractDates | src/app/calendar/page.tsx:86-126 | the dates meet every rule: LTD 3 (or 4) business days before the anchor, FND next business day, trade month 26th M-2 to 25th M-1 |
| ContractCalendar.RulesFromSteps | src/app/calendar/page.tsx:101-105 | the two business-day walks meet `ContractRules` |
| ContractCalendar.LastTradingRule | src/app/calendar/page.tsx:99-102 | `LtdOffset`: the 3-or-4 offset is one rule, LTD lies 3 business days before the last business day on or before the 25th |
| ContractCalendar.FirstNoticeFollowsLastTrading | src/app/calendar/page.tsx:105 | no business day lies strictly between LTD and FND |
| ContractCalendar.LastTradingBeforeTradeMonthEnd | src/app/calendar/page.tsx:101-116 | LTD precedes the trade month end, which is the 25th; the start is a 26th |
| ContractCalendar.ContractRulesDetermine | src/app/calendar/page.tsx:86-126 | `ContractRules` fixes a delivery month's dates uniquely |
| ContractCalendar.TradeMonthsAdjoin | src/app/calendar/page.tsx:109-116 | consecutive contracts' trade months are back to back |
| ContractCalendar.MonthIndexUnique | src/app/calendar/page.tsx:88-94 | a (year, month) pair is fixed by its absolute month count |
| ContractCalendar.TradeMonthNonEmpty | src/app/calendar/page.tsx:109-116 | a trade month starts before it ends |
| ContractCalendar.ConsecutiveChain | src/app/calendar/page.tsx:129-139 | a run of consecutive contracts has chained trade months |
| ContractCalendar.March2026Counts | src/app/calendar/page.tsx:101-105 | the business-day counts that fix the March 2026 contract |
| ContractCalendar.February2026Week | src/app/calendar/page.tsx:7-46 | 20, 23, 24 and 25 February 2026 are business days |
| ContractCalendar.February2026Weekend | src/app/calendar/page.tsx:34-37 | 21 and 22 February 2026 are not business days |
| ContractCalendar.ExampleMarch2026 | src/app/calendar/page.tsx:86-126 | CLH26: LTD 2026-02-20, FND 2026-02-23, trade month 2026-01-26..2026-02-25 |
| ContractCalendar.June2026Counts | src/app/calendar/page.tsx:101-105 | the business-day counts that fix the June 2026 contract |
| ContractCalendar.May2026Week | src/app/calendar/page.tsx:7-46 | 19 to 22 May 2026 are business days |
| ContractCalendar.May2026Closed | src/app/calendar/page.tsx:12 | 23 to 25 May 2026 are not business days (weekend, Memorial Day) |
| ContractCalendar.ExampleJune2026 | src/app/calendar/page.tsx:101-102 | CLM26: the anchor is a holiday, so LTD is 4 business days back, 2026-05-19; FND 2026-05-20 |
| ContractCalendar.December2026Counts | src/app/calendar/page.tsx:101-105 | the business-day counts that fix the January 2027 contract |
| ContractCalendar.December2026Week | src/app/calendar/page.tsx:7-46 | 21 to 24 December 2026 are business days |
| ContractCalendar.December2026Closed | src/app/calendar/page.tsx:16 | Christmas 2026 is not a business day |
| ContractCalendar.ExampleJanuary2027 | src/app/calendar/page.tsx:88-116 | CLF27 wraps to December 2026: LTD 2026-12-21, FND 2026-12-22, trade month 2026-11-26..2026-12-25 |
| ContractCalendar.GenerateYearContracts | src/app/calendar/page.tsx:129-139 | 15 consecutive contracts: months 0..11 of the year, then 0..2 of the next |
| ContractCalendar.PushContract | src/app/calendar/page.tsx:131-137 | pushing the next month's contract keeps the run consecutive |
| ContractCalendar.ConsecutiveMonths | src/app/calendar/page.tsx:129-139 | the i-th contract of a run from January is month i % 12 of year + i / 12 |
| ContractCalendar.MonthOfCode | src/app/calendar/page.tsx:164 | a month letter leads back to its month |
| ContractCalendar.YearSuffix | src/app/calendar/page.tsx:186 | the year suffix has one or two characters |
| ContractCalendar.ContractCodeShape | src/app/calendar/page.tsx:186 | `ContractCode` is "CL", the month letter, then the year suffix |
| ContractCalendar.YearSuffixIsTail | src/app/calendar/page.tsx:186 | the suffix is what `slice(-2)` leaves of `String(year)` |
| ContractCalendar.ContractCodeRoundTrip | src/app/calendar/page.tsx:164-186 | `ParseContractCode` of a code gives its month and the year modulo 100 |
| ContractCalendar.ParseContractCodeSound | src/app/calendar/page.tsx:164-186 | the other direction: a code that `ParseContractCode` reads as (m, yy) is the code of month m in every year ending in yy |
| ContractCalendar.MonthLetterIndex | src/app/calendar/page.tsx:164 | `MonthCode`: the twelve letters are distinct, each leads back to its month |
| MonthGrid.MarkedCodes | src/app/calendar/page.tsx:185-206 | the list of codes marking a day has at most one entry per contract |
| MonthGrid.MarkedCodesMembership | src/app/calendar/page.tsx:185-206 | a code is listed iff a contract with that code `Marks` the day |
| MonthGrid.MarkedCodesSound | src/app/calendar/page.tsx:196-206 | every listed code comes from a marking contract |
| MonthGrid.MarkedCodesComplete | src/app/calendar/page.tsx:196-206 | every marking contract's code is listed |
| MonthGrid.LastMarkedIsLastListed | src/app/calendar/page.tsx:188-193 | LTD/FND hold the last matching code: later contracts overwrite earlier ones |
| MonthGrid.TradePeriodsPartition | src/app/calendar/page.tsx:196-199 | chained trade periods, both ends included, put each day of their span in exactly one period |
| MonthGrid.YearTradePeriodsCover | src/app/calendar/page.tsx:129-139 | with a year's 15 contracts, every day from 26 November before to 25 February after is in one trade period |
| MonthGrid.AnnotateDay | src/app/calendar/page.tsx:172-207 | the cell built for a day is its `DayAnnotation` over all contracts |
| MonthGrid.AnnotateStep | src/app/calendar/page.tsx:185-206 | one contract overwrites the single fields and appends to the lists it marks |
| MonthGrid.BuildWeek | src/app/calendar/page.tsx:169-211 | a row is seven consecutive annotated days, and the cursor moves a week |
| MonthGrid.WeekStart | src/app/calendar/page.tsx:160-162 | the grid starts at the Sunday on or before the 1st |
| MonthGrid.GenerateMonthCalendar | src/app/calendar/page.tsx:155-221 | whole Sunday-first weeks of consecutive days from the week of the 1st to the week of the last day, each cell annotated |
| MonthGrid.GridColumnsAreWeekdays | src/app/calendar/page.tsx:155-221 | column j of every row falls on weekday j |
| MonthGrid.GridCoversMonth | src/app/calendar/page.tsx:164-221 | every day of the month appears in the grid |
| MonthGrid.GridCellsDistinct | src/app/calendar/page.tsx:164-221 | no date appears twice in the grid |
| TicketExtractor.FindFence | src/lib/ticket-extractor.ts:145 | the first three-backtick fence from a position |
| TicketExtractor.ExtractJson | src/lib/ticket-extractor.ts:144-155 | an error iff there is neither a fenced block nor a brace span; a fenced block wins, trimmed; else first `{` to last `}` |
| TicketExtractor.CodeBlockExists | src/lib/ticket-extractor.ts:145 | the scan finds a block iff two non-overlapping fences exist |
| TicketExtractor.FencedBlockWins | src/lib/ticket-extractor.ts:145-148 | a fenced reply yields its body, trimmed, whatever follows |
| TicketExtractor.RawBraceSpan | src/lib/ticket-extractor.ts:150-153 | without backticks the outermost braces are taken untrimmed |
| TicketExtractor.NoBacktickNoBlock | src/lib/ticket-extractor.ts:145 | no backtick means no fenced block |
| TicketExtractor.CheckedValues | src/lib/ticket-extractor.ts:161-188 | the eight checks, in the order they run |
| TicketExtractor.Warnings | src/lib/ticket-extractor.ts:158-191 | at most one warning per check (which checks warn is `WarningsExactly`, with strings and arrays read by `Number()`) |
| TicketExtractor.CheckRange | src/lib/ticket-extractor.ts:160-162 | one check appends a warning iff its value is not null and, read by `Number()`, is outside the closed range |
| TicketExtractor.ValidateExtractedData | src/lib/ticket-extractor.ts:158-191 | the warnings are those of the eight checks, in order |
| TicketExtractor.RunChecks | src/lib/ticket-extractor.ts:158-191 | running checks one after the other collects exactly their warnings, in order |
| TicketExtractor.WarningsExactly | src/lib/ticket-extractor.ts:160-188 | a warning naming a check and its value is raised iff the value is not null or undefined and `OutOfRange`: read by `Number()`, it is outside the closed range (NaN never is) |
| TicketExtractor.Warning | src/lib/ticket-extractor.ts:160-188 | at most one warning per check, naming the check's field and the raw value |
| TicketExtractor.FiniteReading | src/lib/ticket-extractor.ts:160-188 | a value read as a finite number x warns iff x lies outside [lo, hi] |
| TicketExtractor.NaNReading | src/lib/ticket-extractor.ts:160-188 | a value read as NaN never warns |
| TicketExtractor.IntegerStringsCompareAsNumbers | src/lib/ticket-extractor.ts:160-162 | a string such as `"600"` warns exactly as the number it spells |
| TicketExtractor.OneElementArraysCompareAsNumbers | src/lib/ticket-extractor.ts:160-162 | a one-element array such as `[600]` warns exactly as its number |
| TicketExtractor.BlankTextsCompareAsZero | src/lib/ticket-extractor.ts:160-178 | a blank string or an empty array compares as 0 |
| TicketExtractor.EmptyGravityIsReported | src/lib/ticket-extractor.ts:169-171 | an empty `obs_gravity` string is reported, since 0 is below 10 |
| TicketExtractor.ListsAndObjectsAreNeverReported | src/lib/ticket-extractor.ts:160-188 | arrays of two or more elements and plain objects read NaN and never warn |
| TicketExtractor.ReportsAppend | src/lib/ticket-extractor.ts:158-191 | the reports over two runs of checks concatenate |
| TicketExtractor.ReportsExactly | src/lib/ticket-extractor.ts:158-191 | a warning is in the reports iff one of the checks reports it |
| JsNumber.DigitsRead | src/lib/ticket-extractor.ts:160-188 | `Number()` of a digit string is its decimal value |
| JsNumber.NegativeDigitsRead | src/lib/ticket-extractor.ts:160-188 | a `-` before digits negates their value |
| JsNumber.IntegerTextRead | src/lib/ticket-extractor.ts:160-188 | `Number(String(i)) == i` for every integer |
| JsNumber.FractionRead | src/lib/ticket-extractor.ts:160-188 | `w.f` reads as the digits wf divided by 10^|f| |
| JsNumber.ExponentRead | src/lib/ticket-extractor.ts:160-188 | `dek` reads as d times 10^k |
| JsNumber.NegativeExponentRead | src/lib/ticket-extractor.ts:160-188 | `de-k` reads as d divided by 10^k |
| JsNumber.ScaleDown | src/lib/ticket-extractor.ts:160-188 | a negative exponent divides by the power of ten |
| JsNumber.BlankIsZero | src/lib/ticket-extractor.ts:160-188 | a blank text reads 0 |
| JsNumber.StrayIsNaN | src/lib/ticket-extractor.ts:160-188 | a text holding a character that no numeric literal contains reads NaN |
| JsNumber.CommaIsNaN | src/lib/ticket-extractor.ts:160-188 | a text holding a comma, as every array of two or more elements does, reads NaN |
| JsNumber.ObjectIsNaN | src/lib/ticket-extractor.ts:160-188 | a plain object, `[object Object]`, reads NaN |
| JsNumber.TrimKeeps | src/lib/ticket-extractor.ts:160-188 | the white-space trim of the conversion keeps every other character |
| JsValue.FalsyValues | src/app/api/ops-inventory/process/route.ts:10 | `Truthy`, as the `!x` guards use it: falsy exactly on undefined, null, false, 0 and the empty string |
| JsValue.TrimStart | src/lib/ticket-extractor.ts:147 | only leading white space is removed, and the result does not start with any |
| JsValue.TrimEnd | src/lib/ticket-extractor.ts:147 | only trailing white space is removed, and the result does not end with any |
| TicketExtractor.NullAndBoundsAreAccepted | src/lib/ticket-extractor.ts:161-178 | null, undefined and both bounds raise nothing |
| TicketExtractor.ValidationShape | src/lib/ticket-extractor.ts:158-190 | at most 8 warnings; receiver coordinates never matter |
| TicketExtractor.MissingShipperRaisesNoCoordinateWarning | src/lib/ticket-extractor.ts:179-188 | no shipper, or null coordinates, raise no coordinate warning |
| TicketExtractor.WarningsAppend | src/lib/ticket-extractor.ts:158-191 | the checks' warnings concatenate in check order |
| TicketExtractor.FinishExtraction | src/lib/ticket-extractor.ts:132-140 | the parsed ticket is returned whatever the checks report |
| TicketExtractor.Prefixed | src/lib/ticket-extractor.ts:204-223 | the prefixed column names, one per sub-field |
| TicketExtractor.FlattenFixedColumns | src/lib/ticket-extractor.ts:194-261 | `Flatten`: `upload_id` is the argument and `manually_corrected` is false |
| TicketExtractor.FlattenCopies | src/lib/ticket-extractor.ts:199-257 | every other top-level property is copied unchanged |
| TicketExtractor.FlattenLocations | src/lib/ticket-extractor.ts:203-222 | location columns read the sub-field through `OrNull` (`?? null`), null when the parent or the sub-field is nullish |
| OpsInventoryDb.StatusNameInjective | src/lib/ops-inventory-db.ts:155 | `StatusName`: distinct statuses are stored as distinct texts |
| OpsInventoryDb.Placeholder | src/lib/ops-inventory-db.ts:180 | `$k` reads back as k |
| OpsInventoryDb.UpdateUploadStatus | src/lib/ops-inventory-db.ts:153-170 | `processed_at` is the clock iff completed or failed; params are status, message or null, id |
| OpsInventoryDb.Where | src/lib/ops-inventory-db.ts:183 | the WHERE clause is empty iff there is no condition, otherwise "WHERE " and `JoinAnd`, the `ConditionText`s joined by " AND " |
| OpsInventoryDb.GetUploads | src/lib/ops-inventory-db.ts:172-191 | a status filter adds exactly `status = $1`; none adds nothing |
| OpsInventoryDb.AddFilter | src/lib/ops-inventory-db.ts:260-289 | a present filter adds one condition and one param numbered by its position; an absent one adds nothing |
| OpsInventoryDb.Offset | src/lib/ops-inventory-db.ts:292-294 | page defaults to 1 and limit to 50 |
| OpsInventoryDb.GetTickets | src/lib/ops-inventory-db.ts:251-319 | the conditions are the present filters in order; LIMIT and OFFSET take the two next placeholders |
| OpsInventoryDb.FilterClauses | src/lib/ops-inventory-db.ts:257-289 | the seven filter tests build the conditions of the present filters |
| OpsInventoryDb.SearchIsLastCondition | src/lib/ops-inventory-db.ts:284-291 | the search term is `%term%` and its one placeholder serves the four columns of the `ILikeAll` group |
| OpsInventoryDb.PlaceholdersArePositions | src/lib/ops-inventory-db.ts:257-289 | each condition names its own param's position, and no two share one |
| OpsInventoryDb.UploadIdNotAllowed | src/lib/ops-inventory-db.ts:212-229 | `upload_id` is inserted but not allow-listed |
| OpsInventoryDb.Remove | src/lib/ops-inventory-db.ts:233-234 | the filter keeps exactly the other names |
| OpsInventoryDb.CreateTicket | src/lib/ops-inventory-db.ts:207-249 | one value per field in list order, missing or nullish keys as null (`OrNull`, line 231), placeholders $1..$n, the update set is every field but `ticket_number` |
| OpsInventoryDb.UpsertRewritesAllButKey | src/lib/ops-inventory-db.ts:233-241 | a conflict rewrites every column but the key |
| OpsInventoryDb.Kept | src/lib/ops-inventory-db.ts:365-370 | the kept entries are exactly the allow-listed ones |
| OpsInventoryDb.UpdateTicket | src/lib/ops-inventory-db.ts:337-385 | no query iff nothing is kept; the i-th kept entry uses `$i+1`; the id is the last param |
| OpsInventoryDb.SetClauses | src/lib/ops-inventory-db.ts:362-370 | the loop numbers each kept entry's assignment by its param |
| OpsInventoryDb.KeptAppend | src/lib/ops-inventory-db.ts:365-370 | filtering keeps the input order |
| OpsInventoryDb.UploadIdNeverUpdated | src/lib/ops-inventory-db.ts:343-366 | `upload_id` never reaches the SET list |
| UploadProcessing.ApplyStatus | src/lib/ops-inventory-db.ts:153-170 | a status write sets status and message and keeps `processed_at` in step |
| UploadProcessing.GuardsWriteNothing | src/app/api/ops-inventory/process/route.ts:5-30 | `Handle`: a body that is not JSON or is `null` gives 500, then a falsy (`Truthy`) `upload_id` 400, a missing row 404 and a processing row 409, all before any write |
| UploadProcessing.SuccessOrder | src/app/api/ops-inventory/process/route.ts:5-73 | `Handle`: processing is written first; success iff nothing failed, with writes processing, upsert, completed |
| UploadProcessing.FinalStatus | src/app/api/ops-inventory/process/route.ts:33-72 | completed after success, failed with the message after a failure, processing when the failed mark throws |
| UploadProcessing.UploadStore.CreateUpload | src/lib/ops-inventory-db.ts:132-151 | a new pending, unprocessed row under a fresh id |
| UploadProcessing.UploadStore.SetStatus | src/lib/ops-inventory-db.ts:153-170 | the row is updated as the status write says |
| UploadProcessing.UploadStore.SaveTicket | src/lib/ops-inventory-db.ts:207-249 | the upsert is logged; uploads are unchanged |
| UploadProcessing.UploadStore.Attempt | src/app/api/ops-inventory/process/route.ts:35-53 | the inner try's writes and first failure |
| UploadProcessing.UploadStore.Process | src/app/api/ops-inventory/process/route.ts:5-73 | the reply and writes are those of the request over the stored row; the store invariant holds |
| UploadProcessing.UploadStore.Run | src/app/api/ops-inventory/process/route.ts:33-65 | after the guards: mark, attempt, mark failed on failure |
| UploadProcessing.ProceedLeavesRow | src/app/api/ops-inventory/process/route.ts:33-72 | `Proceed`: after the writes the row's `processed_at` agrees with its status, and it is completed only if its ticket was upserted |
| UploadProcessing.ProceedKeepsInvariant | src/app/api/ops-inventory/process/route.ts:33-72 | the writes past the guards keep the table invariant: serial ids, consistent stamps, completed rows have tickets |
| UploadProcessing.SavedGrows | src/app/api/ops-inventory/process/route.ts:41-44 | an upserted ticket stays upserted as the log grows |
| UploadProcessing.ReplayAppend | src/app/api/ops-inventory/process/route.ts:33-59 | replaying writes in two runs is replaying them in one |
| UploadProcessing.AttemptSaves | src/app/api/ops-inventory/process/route.ts:35-53 | `Attempted`: a successful attempt upserts the ticket before marking completed |
| Prices.NormalizeDate | src/app/api/prices/route.ts:6-11 | empty iff the input is empty or unreadable |
| Prices.NormalizeDateIsIso | src/app/api/prices/route.ts:10 | otherwise a 10-character YYYY-MM-DD text that reads back as the day |
| Prices.Routing | src/app/api/prices/route.ts:34-48 | `BucketOf`: NYMEX and NYMEX_EIA share a series; other YAHOO types and unknown sources are dropped |
| Prices.Point | src/app/api/prices/route.ts:27-32 | a null or 0 value becomes null, any other is kept |
| Prices.TransformDbPrices | src/app/api/prices/route.ts:14-61 | each series is the routed rows' points in input order |
| Prices.CollectAppend | src/app/api/prices/route.ts:23-49 | within every series rows keep their input order |
| Prices.CollectSound | src/app/api/prices/route.ts:23-49 | every point comes from a row routed to its series |
| Prices.CollectComplete | src/app/api/prices/route.ts:23-49 | every routed row has its point in its series |
| Prices.SeriesPartition | src/app/api/prices/route.ts:34-48 | each row lands in at most one series; unreadable dates are dropped |
| Decimal.DigitRun | src/app/api/prices/route.ts:66 | `parseInt` reads the longest prefix of digits |
| Prices.ParseUnsignedDecimal | src/app/api/prices/route.ts:66 | a run of decimal digits reads as its value |
| Prices.ParseIntRoundTrip | src/app/api/prices/route.ts:66 | `ParseInt`: `parseInt(String(i)) == i` |
| Prices.GetPlan | src/app/api/prices/route.ts:64-78 | live only when source is "live" |
| Prices.DefaultDays | src/app/api/prices/route.ts:66 | an absent or empty `days` reads 30 |
| Prices.GivenDays | src/app/api/prices/route.ts:66 | a decimal `days` reads as its value |
| Prices.Get | src/app/api/prices/route.ts:63-86 | live data for "live", the stored rows grouped otherwise, 500 on failure |
| Prices.Post | src/app/api/prices/route.ts:89-110 | a body that is not JSON or is `null` gives 500; otherwise 400 iff month or source is falsy; the average is computed iff both are truthy and the computation does not throw, and 500 otherwise |
| History.NormalizersDiffer | src/app/history/page.tsx:22-28 | `NormalizeDate`: like the prices normaliser except that unreadable text is returned unchanged |
| History.StrLessTotal | src/app/history/page.tsx:72 | the sort order is total on distinct strings |
| History.StrLessTransitive | src/app/history/page.tsx:72 | the sort order is transitive |
| History.DescendingDistinct | src/app/history/page.tsx:72 | a descending list has no duplicates |
| History.SortDescending | src/app/history/page.tsx:72 | descending order holding exactly the set's members |
| History.DateSetMembers | src/app/history/page.tsx:68-71 | a date is in the set iff some point normalises to it |
| History.AddDates | src/app/history/page.tsx:69-71 | `forEach(add)` adds exactly the series' dates |
| History.TradingDates | src/app/history/page.tsx:67-73 | the duplicate-free union of the EIA, futures and Midland dates, newest first; none without prices |
| History.CalendarDates | src/app/history/page.tsx:76-85 | `daysToShow` dates, the i-th is i days before today |
| History.CalendarDatesConsecutive | src/app/history/page.tsx:79-83 | each calendar date is the day before the previous one |
| History.BuildPriceMap | src/app/history/page.tsx:88-92 | the map of normalised dates to values |
| History.LastWins | src/app/history/page.tsx:90 | a date maps to the value of the last point with that date |
| History.EveryDateMapped | src/app/history/page.tsx:90 | every point's date is a key |
| History.FillForward | src/app/history/page.tsx:95-114 | an exact hit as is; else the nearest of 10 earlier days, carried over; else empty |
| History.ExactCell | src/app/history/page.tsx:218-226 | the trading view looks up the exact date only |
| History.VisibleRows | src/app/history/page.tsx:214 | the table shows at most `daysToShow` rows, a prefix of the dates |
| SendCode.Before | src/app/api/auth/send-code/route.ts:20 | the text before the first separator |
| SendCode.Domain | src/app/api/auth/send-code/route.ts:20 | a domain exists iff the address has an '@' |
| SendCode.Lower | src/app/api/auth/send-code/route.ts:20 | lowercasing letter by letter |
| SendCode.DomainOfParts | src/app/api/auth/send-code/route.ts:19-22 | the domain of `local@domain[@rest]` is `domain` |
| SendCode.NoAtNotAllowed | src/app/api/auth/send-code/route.ts:19-22 | `IsAllowedDomain`: an address without '@' is never allowed |
| SendCode.CaseInsensitive | src/app/api/auth/send-code/route.ts:8-22 | `IsAllowedDomain`: letter case does not matter to the domain check |
| SendCode.GenerateCode | src/app/api/auth/send-code/route.ts:14-17 | 8 digits, no leading zero, value 10000000 + r |
| SendCode.EightDigits | src/app/api/auth/send-code/route.ts:14-17 | 10000000..99999999 are written with 8 digits |
| SendCode.InvalidBeforeDomain | src/app/api/auth/send-code/route.ts:29-34 | a falsy (`Truthy`) email, or one without '@', gives 400 before the domain check |
| SendCode.AuthCodes.Insert | src/app/api/auth/send-code/route.ts:49-58 | the INSERT appends exactly the new row and keeps the earlier ones |
| SendCode.DisallowedStoresNothing | src/app/api/auth/send-code/route.ts:37-42 | a disallowed domain gives 403 and stores nothing |
| SendCode.StoredCode | src/app/api/auth/send-code/route.ts:44-58 | a stored code is an 8-digit code for the allowed address, expiring 10 minutes later |
| SendCode.SuccessIff | src/app/api/auth/send-code/route.ts:24-104 | `Outcome`: success iff allowed and nothing failed; a send failure gives 500 with the code stored |
| SendCode.AuthCodes.Post | src/app/api/auth/send-code/route.ts:24-104 | the reply and the stored row are those of the request; stored codes stay well-formed |

## Left out

- Time zones: JavaScript's local-time `Date` and the UTC `toISOString` key can disagree near
  midnight; the model works on civil dates directly and keys a date by its own fields.
- "Today" and the wall clock are parameters (`today`, `now`); the active-row highlight is not modelled.
- JSX rendering, colours, tooltips, the history page's weekend shading and net price, and the
  other pages and layouts.
- Floating point: prices and the numbers `Number()` reads are exact `real`s; double rounding,
  overflow of a long literal to Infinity and NaN held in a number value are not modelled (a
  number is falsy only when it is 0); `parseFloat(String(v))` is the identity on numbers.
- An array or object value is carried as the text its `toString` gives; a `Date` value or an
  object with its own `valueOf` or `toString` is not modelled.
- Warning messages: a warning carries the check's field and the raw value; the
  message wording, and how `${...}` prints the value in it, are not modelled.
- `new Date(text)` parsing is a parameter `parse: string -> Option<Day>`; a `Date` object passed
  to the prices normaliser instead of text is not modelled.
- History.FillForward: takes the date both as text and as the day `new Date` reads it, so a date
  text that does not read as a day (where the source would throw in `toISOString`) is not modelled.
- History.SortDescending: `localeCompare` is modelled as code-unit order, which agrees with it on
  the YYYY-MM-DD keys the page sorts.
- Database execution: the query builders return conditions and parameters; SQL text beyond the
  WHERE clause, the database's coercion of an id's type, `getUploadById` (a map lookup here),
  `getTicketSummary`, `calculateCMA` and DDL are not modelled.
- OpsInventoryDb.UpdateTicket: takes the record's entries as a sequence in `Object.entries`
  order; JavaScript's ordering of integer-like keys first is not modelled.
- Prices.Get: the live fetchers' data is an abstract value; the stored rows are a function of `days`.
- The PDF extraction call, `JSON.parse` and the e-mail service are parameters or fault flags;
  the e-mail's HTML body and the `emailId` of the reply are not modelled.
- SendCode.Lower: lowercases ASCII letters only; `toLowerCase`'s full Unicode case mapping is not
  modelled.
- SendCode.Outcome: a truthy non-string `email` is treated as throwing in `includes`; an array
  `email`, whose `includes` would run, is not modelled.
- SendCode.GenerateCode: takes `Math.floor(Math.random() * 90000000)` as its argument `r`.
- Message texts are modelled where the model's responses carry them; console logging is left out.
- UploadProcessing.UploadStore.Process: requests are modelled one at a time. The 409 guard reads the
  row and the later write marks it processing across two `await`s, so it is not a lock: two requests
  for the same pending upload can both pass it, both extract and upsert, and the row ends with
  whichever status is written last. This interleaving is not modelled.
- Batch import, cron, file upload, session and verify-code routes are I/O around the modelled core.
