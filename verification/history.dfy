/**
 * The price history table: the dates it lists (the trading days found in the data, or the
 * calendar days counting back from today), the per-series price maps, and the fill-forward
 * lookup that carries the last known price over days without one.
 */
module History {
  import opened Wrappers
  import opened CivilDate
  import Prices

  type Day = Prices.Day

  /**
   * The history page's `normalizeDate`: like the one of the prices endpoint, except that a
   * text `new Date` cannot read is returned unchanged instead of emptied.
   */
  function NormalizeDate(input: string, parse: string -> Option<Day>): string {
    if input == "" then ""
    else match parse(input)
      case None => input
      case Some(d) => FormatIsoDate(d)
  }

  /** The two normalisers agree on every input but an unreadable non-empty one. */
  lemma NormalizersDiffer(input: string, parse: string -> Option<Day>)
    ensures NormalizeDate(input, parse) == Prices.NormalizeDate(input, parse) <==> input == "" || parse(input).Some?
    ensures input != "" && parse(input).None? ==> NormalizeDate(input, parse) == input
  {
  }

  // ---------------------------------------------------------------------------------------
  // String order and the descending sort
  // ---------------------------------------------------------------------------------------

  /** Code-unit order of strings; `localeCompare` agrees with it on ISO dates. */
  predicate StrLess(a: string, b: string)
    decreases |a|
  {
    if a == [] then b != []
    else if b == [] then false
    else if a[0] != b[0] then a[0] < b[0]
    else StrLess(a[1..], b[1..])
  }

  lemma {:induction false} StrLessIrreflexive(a: string)
    ensures !StrLess(a, a)
    decreases |a|
  {
    if a != [] {
      StrLessIrreflexive(a[1..]);
    }
  }

  lemma {:induction false} StrLessTotal(a: string, b: string)
    requires a != b
    ensures StrLess(a, b) || StrLess(b, a)
    decreases |a|
  {
    if a != [] && b != [] && a[0] == b[0] {
      assert a == [a[0]] + a[1..] && b == [b[0]] + b[1..];
      StrLessTotal(a[1..], b[1..]);
    }
  }

  lemma {:induction false} StrLessTransitive(a: string, b: string, c: string)
    requires StrLess(a, b) && StrLess(b, c)
    ensures StrLess(a, c)
    decreases |a|
  {
    if a != [] && a[0] == b[0] && b[0] == c[0] {
      StrLessTransitive(a[1..], b[1..], c[1..]);
    }
  }

  /** Every later element is smaller: sorted newest first, and free of duplicates. */
  predicate Descending(r: seq<string>) {
    forall i, j :: 0 <= i < j < |r| ==> StrLess(r[j], r[i])
  }

  lemma DescendingDistinct(r: seq<string>, i: int, j: int)
    requires Descending(r) && 0 <= i < j < |r|
    ensures r[i] != r[j]
  {
    StrLessIrreflexive(r[i]);
  }

  /** `m` is an element of `s` that no element of `s` exceeds. */
  predicate IsMax(s: set<string>, m: string) {
    m in s && forall y :: y in s ==> !StrLess(m, y)
  }

  lemma {:induction false} MaxExists(s: set<string>)
    requires s != {}
    ensures exists m :: IsMax(s, m)
    decreases |s|
  {
    var x :| x in s;
    if s == {x} {
      StrLessIrreflexive(x);
      assert IsMax(s, x);
    } else {
      MaxExists(s - {x});
      var m :| IsMax(s - {x}, m);
      if StrLess(m, x) {
        forall y | y in s
          ensures !StrLess(x, y)
        {
          if y == x {
            StrLessIrreflexive(x);
          } else if StrLess(x, y) {
            StrLessTransitive(m, x, y);
          }
        }
        assert IsMax(s, x);
      } else {
        assert IsMax(s, m);
      }
    }
  }

  /** `Array.from(set).sort((a, b) => b.localeCompare(a))`. */
  method SortDescending(s: set<string>) returns (r: seq<string>)
    ensures Descending(r)
    ensures forall x :: x in r <==> x in s
  {
    r := [];
    var rest := s;
    while rest != {}
      invariant Descending(r)
      invariant forall x :: x in s <==> x in r || x in rest
      invariant forall x, y :: x in r && y in rest ==> StrLess(y, x)
      decreases |rest|
    {
      MaxExists(rest);
      var m :| IsMax(rest, m);
      forall y | y in rest - {m}
        ensures StrLess(y, m)
      {
        StrLessTotal(y, m);
      }
      r := r + [m];
      rest := rest - {m};
    }
  }

  // ---------------------------------------------------------------------------------------
  // getTradingDates
  // ---------------------------------------------------------------------------------------

  /** The normalised dates of a series. */
  function DateSet(points: seq<Prices.PricePoint>, parse: string -> Option<Day>): set<string> {
    if points == [] then {}
    else DateSet(points[..|points| - 1], parse) + {NormalizeDate(points[|points| - 1].date, parse)}
  }

  lemma {:induction false} DateSetMembers(points: seq<Prices.PricePoint>, parse: string -> Option<Day>, d: string)
    ensures d in DateSet(points, parse) <==> exists i :: 0 <= i < |points| && NormalizeDate(points[i].date, parse) == d
  {
    if points != [] {
      var init := points[..|points| - 1];
      DateSetMembers(init, parse, d);
      if exists i :: 0 <= i < |points| && NormalizeDate(points[i].date, parse) == d {
        var i :| 0 <= i < |points| && NormalizeDate(points[i].date, parse) == d;
        if i < |init| {
          assert init[i] == points[i];
        }
      }
      if d in DateSet(init, parse) {
        var i :| 0 <= i < |init| && NormalizeDate(init[i].date, parse) == d;
        assert points[i] == init[i];
      }
    }
  }

  /** `series.forEach(p => dateSet.add(normalizeDate(p.date)))`. */
  method AddDates(dateSet: set<string>, points: seq<Prices.PricePoint>, parse: string -> Option<Day>)
    returns (r: set<string>)
    ensures r == dateSet + DateSet(points, parse)
  {
    r := dateSet;
    for i := 0 to |points|
      invariant r == dateSet + DateSet(points[..i], parse)
    {
      assert points[..i + 1][..i] == points[..i];
      r := r + {NormalizeDate(points[i].date, parse)};
    }
    assert points[..|points|] == points;
  }

  /**
   * `getTradingDates`: the dates of the EIA spot, futures and Midland series (FRED plays no
   * part), each once, newest first. No prices loaded yet gives no dates.
   */
  method TradingDates(prices: Option<Prices.Grouped>, parse: string -> Option<Day>) returns (dates: seq<string>)
    ensures Descending(dates)
    ensures prices.None? ==> dates == []
    ensures prices.Some? ==> forall d :: d in dates <==>
      d in DateSet(prices.value.eia, parse) || d in DateSet(prices.value.yahooFutures, parse) ||
      d in DateSet(prices.value.yahooMidland, parse)
  {
    var dateSet: set<string> := {};
    if prices.Some? {
      dateSet := AddDates(dateSet, prices.value.eia, parse);
      dateSet := AddDates(dateSet, prices.value.yahooFutures, parse);
      dateSet := AddDates(dateSet, prices.value.yahooMidland, parse);
    }
    dates := SortDescending(dateSet);
    if dates != [] {
      assert dates[0] in dates;
    }
  }

  // ---------------------------------------------------------------------------------------
  // getCalendarDates
  // ---------------------------------------------------------------------------------------

  /** The ISO text of the day `back` days before `day`. */
  function DaysBack(day: Day, back: int): string {
    FormatIsoDate(AddDays(day, -back))
  }

  /** `getCalendarDates`: `daysToShow` dates, today first, each one day before the previous. */
  method CalendarDates(today: Day, daysToShow: int) returns (dates: seq<string>)
    ensures |dates| == if daysToShow > 0 then daysToShow else 0
    ensures forall i :: 0 <= i < |dates| ==> dates[i] == DaysBack(today, i)
  {
    dates := [];
    var i := 0;
    while i < daysToShow
      invariant 0 <= i && |dates| == i && (daysToShow > 0 ==> i <= daysToShow) && (daysToShow <= 0 ==> i == 0)
      invariant CountsBack(today, dates)
    {
      CountsBackStep(today, dates);
      dates := dates + [DaysBack(today, i)];
      i := i + 1;
    }
  }

  /** Entry j of `dates` is the day j days before `today`. */
  predicate CountsBack(today: Day, dates: seq<string>) {
    forall j :: 0 <= j < |dates| ==> dates[j] == DaysBack(today, j)
  }

  lemma CountsBackStep(today: Day, dates: seq<string>)
    requires CountsBack(today, dates)
    ensures CountsBack(today, dates + [DaysBack(today, |dates|)])
  {
    var next := dates + [DaysBack(today, |dates|)];
    forall j | 0 <= j < |next|
      ensures next[j] == DaysBack(today, j)
    {
      if j < |dates| {
        assert next[j] == dates[j];
      }
    }
  }

  /**
   * Within years 0..9999 the i-th calendar date reads back as the day i days before today,
   * so the dates are consecutive and all different.
   */
  lemma CalendarDatesConsecutive(today: Day, i: int, j: int)
    requires 0 <= i && 0 <= j && i != j
    requires 0 <= AddDays(today, -i).year <= 9999 && 0 <= AddDays(today, -j).year <= 9999
    ensures ParseIsoDate(DaysBack(today, i)).Some?
    ensures DayNumber(ParseIsoDate(DaysBack(today, i)).value) == DayNumber(today) - i
    ensures DaysBack(today, i) != DaysBack(today, j)
  {
    IsoDateRoundTrip(AddDays(today, -i));
    IsoDateRoundTrip(AddDays(today, -j));
  }

  // ---------------------------------------------------------------------------------------
  // buildPriceMap and getPriceWithFillForward
  // ---------------------------------------------------------------------------------------

  type PriceMap = map<string, Option<real>>

  /** The map of `points` by `key`; a later point overwrites an earlier one with the same key. */
  function KeyedMap(points: seq<Prices.PricePoint>, key: Prices.PricePoint -> string): PriceMap {
    if points == [] then map[]
    else
      var last := points[|points| - 1];
      KeyedMap(points[..|points| - 1], key)[key(last) := last.value]
  }

  /** The key of a point: its normalised date. */
  function DateKey(parse: string -> Option<Day>): Prices.PricePoint -> string {
    (p: Prices.PricePoint) => NormalizeDate(p.date, parse)
  }

  /** The map of a series by normalised date. */
  function PricesByDate(points: seq<Prices.PricePoint>, parse: string -> Option<Day>): PriceMap {
    KeyedMap(points, DateKey(parse))
  }

  /** `buildPriceMap`. */
  method BuildPriceMap(points: seq<Prices.PricePoint>, parse: string -> Option<Day>) returns (m: PriceMap)
    ensures m == PricesByDate(points, parse)
  {
    m := map[];
    for i := 0 to |points|
      invariant m == PricesByDate(points[..i], parse)
    {
      assert points[..i + 1][..i] == points[..i];
      m := m[NormalizeDate(points[i].date, parse) := points[i].value];
    }
    assert points[..|points|] == points;
  }

  /** Point i is the last point whose key is `k`. */
  predicate LastKeyed(points: seq<Prices.PricePoint>, key: Prices.PricePoint -> string, k: string, i: int) {
    0 <= i < |points| && key(points[i]) == k &&
    forall j :: i < j < |points| ==> key(points[j]) != k
  }

  /** Point i is the last point dated `k`. */
  predicate LastDated(points: seq<Prices.PricePoint>, parse: string -> Option<Day>, k: string, i: int) {
    0 <= i < |points| && NormalizeDate(points[i].date, parse) == k &&
    forall j :: i < j < |points| ==> NormalizeDate(points[j].date, parse) != k
  }

  lemma {:induction false} KeyedLastWins(points: seq<Prices.PricePoint>, key: Prices.PricePoint -> string, k: string)
    requires k in KeyedMap(points, key)
    ensures exists i :: LastKeyed(points, key, k, i) && KeyedMap(points, key)[k] == points[i].value
  {
    var init, last := points[..|points| - 1], points[|points| - 1];
    if key(last) == k {
      assert LastKeyed(points, key, k, |points| - 1);
    } else {
      KeyedLastWins(init, key, k);
      var i :| LastKeyed(init, key, k, i) && KeyedMap(init, key)[k] == init[i].value;
      assert points[i] == init[i];
      forall j | i < j < |points|
        ensures key(points[j]) != k
      {
        if j < |init| {
          assert points[j] == init[j];
        }
      }
      assert LastKeyed(points, key, k, i);
    }
  }

  /** Each date of the map holds the value of the last point with that date. */
  lemma LastWins(points: seq<Prices.PricePoint>, parse: string -> Option<Day>, k: string)
    requires k in PricesByDate(points, parse)
    ensures exists i :: LastDated(points, parse, k, i) && PricesByDate(points, parse)[k] == points[i].value
  {
    KeyedLastWins(points, DateKey(parse), k);
    var i :| LastKeyed(points, DateKey(parse), k, i) && PricesByDate(points, parse)[k] == points[i].value;
    assert LastDated(points, parse, k, i);
  }

  lemma {:induction false} KeyedEvery(points: seq<Prices.PricePoint>, key: Prices.PricePoint -> string, i: int)
    requires 0 <= i < |points|
    ensures key(points[i]) in KeyedMap(points, key)
  {
    var init := points[..|points| - 1];
    if i < |init| {
      assert init[i] == points[i];
      KeyedEvery(init, key, i);
    }
  }

  /** Every point's date is a key of the map. */
  lemma EveryDateMapped(points: seq<Prices.PricePoint>, parse: string -> Option<Day>, i: int)
    requires 0 <= i < |points|
    ensures NormalizeDate(points[i].date, parse) in PricesByDate(points, parse)
  {
    KeyedEvery(points, DateKey(parse), i);
  }

  /** A table cell: the price shown and whether it was carried over from an earlier day. */
  datatype Cell = Cell(value: Option<real>, isFillForward: bool)

  /**
   * `getPriceWithFillForward` for the date text `date`, which `new Date` reads as `day`: an
   * exact hit is shown as it is (even a null price); otherwise the nearest of the 10 preceding
   * days with a price is carried over; with none, the cell is empty.
   */
  method FillForward(date: string, day: Day, priceMap: PriceMap) returns (c: Cell)
    ensures date in priceMap ==> c == Cell(priceMap[date], false)
    ensures date !in priceMap && c.isFillForward ==>
      exists k :: NearestEarlier(day, priceMap, k) && c.value == priceMap[DaysBack(day, k)]
    ensures date !in priceMap && !c.isFillForward ==>
      c.value == None && forall k :: 1 <= k <= 10 ==> DaysBack(day, k) !in priceMap
  {
    if date in priceMap {
      return Cell(priceMap[date], false);
    }
    for i := 1 to 11
      invariant NoneWithin(day, priceMap, i - 1)
    {
      var prevDateStr := DaysBack(day, i);
      if prevDateStr in priceMap {
        assert NearestEarlier(day, priceMap, i);
        return Cell(priceMap[prevDateStr], true);
      }
      NoneWithinStep(day, priceMap, i - 1);
    }
    return Cell(None, false);
  }

  /** None of the `n` preceding days has a price. */
  predicate NoneWithin(day: Day, priceMap: PriceMap, n: int) {
    forall j :: 1 <= j <= n ==> DaysBack(day, j) !in priceMap
  }

  lemma NoneWithinStep(day: Day, priceMap: PriceMap, n: int)
    requires NoneWithin(day, priceMap, n) && DaysBack(day, n + 1) !in priceMap
    ensures NoneWithin(day, priceMap, n + 1)
  {
  }

  /** `k` days back is the nearest of the 10 preceding days that has a price. */
  predicate NearestEarlier(day: Day, priceMap: PriceMap, k: int) {
    1 <= k <= 10 && DaysBack(day, k) in priceMap && forall j :: 1 <= j < k ==> DaysBack(day, j) !in priceMap
  }

  /** The trading view's cell: the exact date only, never carried over. */
  function ExactCell(date: string, priceMap: PriceMap): (c: Cell)
    ensures !c.isFillForward
    ensures c.value.Some? ==> date in priceMap && c.value == priceMap[date]
    ensures date in priceMap ==> c.value == priceMap[date]
  {
    Cell(if date in priceMap then priceMap[date] else None, false)
  }

  /** `dates.slice(0, daysToShow)`: the rows the table shows. */
  function VisibleRows(dates: seq<string>, daysToShow: int): (r: seq<string>)
    ensures |r| <= |dates| && r == dates[..|r|]
    ensures daysToShow >= 0 ==> |r| == if daysToShow < |dates| then daysToShow else |dates|
  {
    var end := if daysToShow < 0 then (if |dates| + daysToShow > 0 then |dates| + daysToShow else 0)
               else if daysToShow < |dates| then daysToShow else |dates|;
    dates[..end]
  }
}
