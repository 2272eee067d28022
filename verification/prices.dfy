/**
 * The prices endpoint: stored price rows are grouped by source into the seven series the
 * dashboard draws, `GET` chooses between the live fetchers and the stored rows, and `POST`
 * checks its parameters before computing a calendar-month average.
 */
module Prices {
  import opened Wrappers
  import opened JsValue
  import opened Decimal
  import opened CivilDate

  /** A `Date` object always holds an existing calendar day. */
  type Day = d: Date | Valid(d) witness Date(1970, 0, 1)

  /**
   * `normalizeDate`: the empty string stays empty, a text `new Date` cannot read (`parse`
   * gives None, standing for an invalid date) becomes empty, and anything else is written as
   * the ISO calendar date.
   */
  function NormalizeDate(input: string, parse: string -> Option<Day>): (r: string)
    ensures r == "" <==> input == "" || parse(input).None?
  {
    if input == "" then ""
    else match parse(input)
      case None => ""
      case Some(d) => FormatIsoDate(d)
  }

  /** A normalised date of years 0..9999 is a YYYY-MM-DD text that reads back as the parsed day. */
  lemma NormalizeDateIsIso(input: string, parse: string -> Option<Day>)
    requires input != "" && parse(input).Some? && 0 <= parse(input).value.year <= 9999
    ensures |NormalizeDate(input, parse)| == 10
    ensures ParseIsoDate(NormalizeDate(input, parse)) .Some? && ParseIsoDate(NormalizeDate(input, parse)).value == parse(input).value
  {
    IsoDateRoundTrip(parse(input).value);
  }

  // ---------------------------------------------------------------------------------------
  // transformDbPrices
  // ---------------------------------------------------------------------------------------

  /** A stored row of `oil_prices`. */
  datatype PriceRow = PriceRow(date: string, source: string, priceType: string, value: Option<real>)

  /** A point of one series as the dashboard receives it. */
  datatype PricePoint = PricePoint(date: string, value: Option<real>, source: string, priceType: string)

  datatype Bucket = Eia | Fred | YahooFutures | YahooMidland | Nymex | ChartExport | InvestingCom

  /** The series a row belongs to, if any: the `if … else if …` chain of the transform. */
  function BucketOf(source: string, priceType: string): Option<Bucket> {
    if source == "EIA" then Some(Eia)
    else if source == "FRED" then Some(Fred)
    else if source == "YAHOO" && priceType == "WTI_FUTURES_CL" then Some(YahooFutures)
    else if source == "YAHOO" && priceType == "WTI_MIDLAND_DIFF" then Some(YahooMidland)
    else if source == "NYMEX" || source == "NYMEX_EIA" then Some(Nymex)
    else if source == "CHART_EXPORT" then Some(ChartExport)
    else if source == "INVESTING_COM" then Some(InvestingCom)
    else None
  }

  /**
   * Both NYMEX sources feed one series, a YAHOO row of any other price type is dropped, and
   * so is a row of an unknown source.
   */
  lemma Routing(source: string, priceType: string)
    ensures BucketOf("NYMEX", priceType) == Some(Nymex) && BucketOf("NYMEX_EIA", priceType) == Some(Nymex)
    ensures priceType != "WTI_FUTURES_CL" && priceType != "WTI_MIDLAND_DIFF" ==> BucketOf("YAHOO", priceType) == None
    ensures BucketOf(source, priceType).None? <==>
      (source !in ["EIA", "FRED", "YAHOO", "NYMEX", "NYMEX_EIA", "CHART_EXPORT", "INVESTING_COM"] ||
       (source == "YAHOO" && priceType != "WTI_FUTURES_CL" && priceType != "WTI_MIDLAND_DIFF"))
  {
    assert "NYMEX_EIA" != "NYMEX" && "NYMEX"[0] == 'N';
  }

  /** The point a kept row becomes: a falsy value (null or 0) is sent as null. */
  function Point(row: PriceRow, date: string): (p: PricePoint)
    ensures p.date == date && p.source == row.source && p.priceType == row.priceType
    ensures p.value.None? <==> row.value.None? || row.value.value == 0.0
    ensures p.value.Some? ==> p.value == row.value
  {
    PricePoint(date, if row.value.Some? && row.value.value != 0.0 then row.value else None, row.source, row.priceType)
  }

  /** The row goes to series `b`: its date is readable and its source routes there. */
  predicate Routes(row: PriceRow, b: Bucket, parse: string -> Option<Day>) {
    NormalizeDate(row.date, parse) != "" && BucketOf(row.source, row.priceType) == Some(b)
  }

  function PointOf(row: PriceRow, parse: string -> Option<Day>): PricePoint {
    Point(row, NormalizeDate(row.date, parse))
  }

  /** The points of the rows `keep` accepts, in row order. */
  function Filter(rows: seq<PriceRow>, keep: PriceRow -> bool, point: PriceRow -> PricePoint): seq<PricePoint> {
    if rows == [] then []
    else
      var last := rows[|rows| - 1];
      Filter(rows[..|rows| - 1], keep, point) + (if keep(last) then [point(last)] else [])
  }

  /** Series `b` of a run of rows: the points of the rows routed to `b`, in row order. */
  function Collect(rows: seq<PriceRow>, b: Bucket, parse: string -> Option<Day>): seq<PricePoint> {
    Filter(rows, row => Routes(row, b, parse), row => PointOf(row, parse))
  }

  lemma FilterLast(rows: seq<PriceRow>, x: PriceRow, keep: PriceRow -> bool, point: PriceRow -> PricePoint)
    ensures Filter(rows + [x], keep, point) == Filter(rows, keep, point) + (if keep(x) then [point(x)] else [])
  {
    assert (rows + [x])[..|rows|] == rows;
  }

  lemma CollectStep(rows: seq<PriceRow>, i: int, b: Bucket, parse: string -> Option<Day>)
    requires 0 <= i < |rows|
    ensures Collect(rows[..i + 1], b, parse) ==
      Collect(rows[..i], b, parse) + (if Routes(rows[i], b, parse) then [PointOf(rows[i], parse)] else [])
  {
    assert rows[..i + 1] == rows[..i] + [rows[i]];
    FilterLast(rows[..i], rows[i], row => Routes(row, b, parse), row => PointOf(row, parse));
  }

  datatype Grouped = Grouped(
    eia: seq<PricePoint>, fred: seq<PricePoint>, yahooFutures: seq<PricePoint>, yahooMidland: seq<PricePoint>,
    nymex: seq<PricePoint>, chartExport: seq<PricePoint>, investingCom: seq<PricePoint>, fetchedAt: string)

  function Series(g: Grouped, b: Bucket): seq<PricePoint> {
    match b
    case Eia => g.eia
    case Fred => g.fred
    case YahooFutures => g.yahooFutures
    case YahooMidland => g.yahooMidland
    case Nymex => g.nymex
    case ChartExport => g.chartExport
    case InvestingCom => g.investingCom
  }

  /**
   * `transformDbPrices`: each series holds, in row order, the points of the rows routed to it;
   * `fetchedAt` is the clock reading `now`.
   */
  method TransformDbPrices(rows: seq<PriceRow>, parse: string -> Option<Day>, now: string) returns (g: Grouped)
    ensures forall b :: Series(g, b) == Collect(rows, b, parse)
    ensures g.fetchedAt == now
  {
    var eia, fred, yahooFutures, yahooMidland, nymex, chartExport, investingCom := [], [], [], [], [], [], [];
    for i := 0 to |rows|
      invariant eia == Collect(rows[..i], Eia, parse) && fred == Collect(rows[..i], Fred, parse)
      invariant yahooFutures == Collect(rows[..i], YahooFutures, parse)
      invariant yahooMidland == Collect(rows[..i], YahooMidland, parse)
      invariant nymex == Collect(rows[..i], Nymex, parse) && chartExport == Collect(rows[..i], ChartExport, parse)
      invariant investingCom == Collect(rows[..i], InvestingCom, parse)
    {
      var row := rows[i];
      CollectStep(rows, i, Eia, parse);
      CollectStep(rows, i, Fred, parse);
      CollectStep(rows, i, YahooFutures, parse);
      CollectStep(rows, i, YahooMidland, parse);
      CollectStep(rows, i, Nymex, parse);
      CollectStep(rows, i, ChartExport, parse);
      CollectStep(rows, i, InvestingCom, parse);
      var normalizedDate := NormalizeDate(row.date, parse);
      if normalizedDate != "" {
        var priceData := Point(row, normalizedDate);
        if row.source == "EIA" {
          eia := eia + [priceData];
        } else if row.source == "FRED" {
          fred := fred + [priceData];
        } else if row.source == "YAHOO" && row.priceType == "WTI_FUTURES_CL" {
          yahooFutures := yahooFutures + [priceData];
        } else if row.source == "YAHOO" && row.priceType == "WTI_MIDLAND_DIFF" {
          yahooMidland := yahooMidland + [priceData];
        } else if row.source == "NYMEX" || row.source == "NYMEX_EIA" {
          nymex := nymex + [priceData];
        } else if row.source == "CHART_EXPORT" {
          chartExport := chartExport + [priceData];
        } else if row.source == "INVESTING_COM" {
          investingCom := investingCom + [priceData];
        }
      }
    }
    assert rows[..|rows|] == rows;
    g := Grouped(eia, fred, yahooFutures, yahooMidland, nymex, chartExport, investingCom, now);
  }

  lemma {:induction false} FilterAppend(a: seq<PriceRow>, c: seq<PriceRow>, keep: PriceRow -> bool, point: PriceRow -> PricePoint)
    ensures Filter(a + c, keep, point) == Filter(a, keep, point) + Filter(c, keep, point)
    decreases |c|
  {
    if c == [] {
      assert a + c == a;
    } else {
      var c', x := c[..|c| - 1], c[|c| - 1];
      assert a + c == (a + c') + [x] && c == c' + [x];
      FilterLast(a + c', x, keep, point);
      FilterLast(c', x, keep, point);
      FilterAppend(a, c', keep, point);
    }
  }

  lemma {:induction false} FilterSound(rows: seq<PriceRow>, keep: PriceRow -> bool, point: PriceRow -> PricePoint, p: PricePoint)
    requires p in Filter(rows, keep, point)
    ensures exists i :: 0 <= i < |rows| && keep(rows[i]) && p == point(rows[i])
  {
    var init := rows[..|rows| - 1];
    if p in Filter(init, keep, point) {
      FilterSound(init, keep, point, p);
      var i :| 0 <= i < |init| && keep(init[i]) && p == point(init[i]);
      assert rows[i] == init[i];
    }
  }

  lemma {:induction false} FilterComplete(rows: seq<PriceRow>, keep: PriceRow -> bool, point: PriceRow -> PricePoint, i: int)
    requires 0 <= i < |rows| && keep(rows[i])
    ensures point(rows[i]) in Filter(rows, keep, point)
  {
    var init := rows[..|rows| - 1];
    if i < |init| {
      assert init[i] == rows[i];
      FilterComplete(init, keep, point, i);
    }
  }

  /** Grouping commutes with concatenation: within every series, rows keep their input order. */
  lemma CollectAppend(a: seq<PriceRow>, c: seq<PriceRow>, b: Bucket, parse: string -> Option<Day>)
    ensures Collect(a + c, b, parse) == Collect(a, b, parse) + Collect(c, b, parse)
  {
    FilterAppend(a, c, row => Routes(row, b, parse), row => PointOf(row, parse));
  }

  /** Every point of series `b` comes from a row routed to `b`. */
  lemma CollectSound(rows: seq<PriceRow>, b: Bucket, parse: string -> Option<Day>, p: PricePoint)
    requires p in Collect(rows, b, parse)
    ensures exists i :: 0 <= i < |rows| && Routes(rows[i], b, parse) && p == PointOf(rows[i], parse)
  {
    FilterSound(rows, row => Routes(row, b, parse), row => PointOf(row, parse), p);
  }

  /** Every row routed to `b` has its point in series `b`. */
  lemma CollectComplete(rows: seq<PriceRow>, b: Bucket, parse: string -> Option<Day>, i: int)
    requires 0 <= i < |rows| && Routes(rows[i], b, parse)
    ensures PointOf(rows[i], parse) in Collect(rows, b, parse)
  {
    FilterComplete(rows, row => Routes(row, b, parse), row => PointOf(row, parse), i);
  }

  /** The number of rows that land in some series. */
  function Routed(rows: seq<PriceRow>, parse: string -> Option<Day>): nat {
    if rows == [] then 0
    else
      var row := rows[|rows| - 1];
      Routed(rows[..|rows| - 1], parse)
      + (if NormalizeDate(row.date, parse) != "" && BucketOf(row.source, row.priceType).Some? then 1 else 0)
  }

  /** The seven series partition the routed rows: no row is counted twice, and none is lost. */
  lemma {:induction false} SeriesPartition(rows: seq<PriceRow>, parse: string -> Option<Day>)
    ensures |Collect(rows, Eia, parse)| + |Collect(rows, Fred, parse)| + |Collect(rows, YahooFutures, parse)|
      + |Collect(rows, YahooMidland, parse)| + |Collect(rows, Nymex, parse)| + |Collect(rows, ChartExport, parse)|
      + |Collect(rows, InvestingCom, parse)| == Routed(rows, parse)
    ensures Routed(rows, parse) <= |rows|
  {
    if rows != [] {
      SeriesPartition(rows[..|rows| - 1], parse);
    }
  }

  // ---------------------------------------------------------------------------------------
  // GET and POST
  // ---------------------------------------------------------------------------------------

  /**
   * `parseInt(s)` without a radix: leading whitespace is skipped, a sign is read, a `0x` /
   * `0X` prefix selects base 16, and the longest run of digits is read; no digit gives NaN (None).
   */
  function ParseInt(s: string): Option<int> {
    var t := TrimStart(s);
    if |t| > 0 && t[0] == '-' then
      match ParseUnsigned(t[1..])
      case None => None
      case Some(v) => Some(-v)
    else if |t| > 0 && t[0] == '+' then ParseUnsigned(t[1..])
    else ParseUnsigned(t)
  }

  /** The digits after the sign: hexadecimal after `0x` / `0X`, decimal otherwise. */
  function ParseUnsigned(u: string): Option<int> {
    var hex := |u| >= 2 && u[0] == '0' && (u[1] == 'x' || u[1] == 'X');
    var radix := if hex then 16 else 10;
    var w := if hex then u[2..] else u;
    var n := DigitRun(w, radix);
    if n == 0 then None else Some(RadixValue(w[..n], radix))
  }

  /** A non-empty run of decimal digits reads as its decimal value. */
  lemma ParseUnsignedDecimal(digits: string)
    requires |digits| >= 1 && AllDigits(digits)
    ensures ParseUnsigned(digits) == Some(DecimalValue(digits))
  {
    var hex := |digits| >= 2 && digits[0] == '0' && (digits[1] == 'x' || digits[1] == 'X');
    assert !hex by {
      if |digits| >= 2 {
        assert IsDigit(digits[1]);
      }
    }
    DigitRunOfDigits(digits);
    assert digits[..|digits|] == digits;
    RadixValueIsDecimal(digits);
  }

  /** `parseInt` reads back the decimal text `String(i)` of every integer. */
  lemma ParseIntRoundTrip(i: int)
    ensures ParseInt(IntToDecimal(i)) == Some(i)
  {
    var s := IntToDecimal(i);
    var digits := NatToDecimal(if i < 0 then -i else i);
    assert IsDigit(digits[0]);
    assert !IsSpace(s[0]);
    assert TrimStart(s) == s;
    ParseUnsignedDecimal(digits);
    NatToDecimalRoundTrip(if i < 0 then -i else i);
    if i < 0 {
      assert s[1..] == digits;
    } else {
      assert s == digits && s[0] != '-' && s[0] != '+';
    }
  }

  /** Where `GET` reads from, and the `days` it passes on (None stands for NaN). */
  datatype PriceRead = Live(days: Option<int>) | Stored(days: Option<int>)

  /**
   * `GET`'s parameters: the live fetchers only for `source=live`, the stored rows for any
   * other or no source; `days` is `parseInt(days || "30")`.
   */
  function GetPlan(source: Option<string>, days: Option<string>): (r: PriceRead)
    ensures r.Live? <==> source == Some("live")
  {
    var d := ParseInt(if days.Some? && days.value != "" then days.value else "30");
    if source == Some("live") then Live(d) else Stored(d)
  }

  /** An absent or empty `days` reads 30 days. */
  lemma DefaultDays(source: Option<string>)
    ensures GetPlan(source, None).days == Some(30) && GetPlan(source, Some("")).days == Some(30)
  {
    ParseThirty();
  }

  lemma ParseThirty()
    ensures ParseInt("30") == Some(30)
  {
    var thirty := "30";
    assert !IsSpace(thirty[0]) && TrimStart(thirty) == thirty;
    ParseUnsignedDecimal(thirty);
    assert thirty[..1] == "3";
  }

  /** A decimal `days` reads as that many days. */
  lemma GivenDays(source: Option<string>, n: nat)
    ensures GetPlan(source, Some(NatToDecimal(n))).days == Some(n)
  {
    ParseIntRoundTrip(n);
  }

  /** What `GET` answers: the stored rows grouped, the live data (not modelled), or a 500. */
  datatype PricesResponse = StoredPrices(data: Grouped) | LivePrices(days: Option<int>) | FetchFailed

  /**
   * `GET /api/prices`: `stored` and `liveFails` stand for the database read and the live
   * fetchers; a failure of whichever is used gives the 500 response.
   */
  method Get(source: Option<string>, days: Option<string>, stored: Option<int> -> Result<seq<PriceRow>, string>,
             liveFails: bool, parse: string -> Option<Day>, now: string)
    returns (r: PricesResponse)
    ensures source == Some("live") ==> r == if liveFails then FetchFailed else LivePrices(GetPlan(source, days).days)
    ensures source != Some("live") && stored(GetPlan(source, days).days).Err? ==> r == FetchFailed
    ensures source != Some("live") && stored(GetPlan(source, days).days).Ok? ==>
      r.StoredPrices? && forall b :: Series(r.data, b) == Collect(stored(GetPlan(source, days).days).value, b, parse)
  {
    var plan := GetPlan(source, days);
    if plan.Live? {
      r := if liveFails then FetchFailed else LivePrices(plan.days);
    } else {
      var rows := stored(plan.days);
      if rows.Err? {
        r := FetchFailed;
      } else {
        var g := TransformDbPrices(rows.value, parse, now);
        r := StoredPrices(g);
      }
    }
  }

  /** What `POST` answers. */
  datatype CmaResponse = MissingParameters | CmaComputed(month: Value, source: Value) | CmaFailed

  /**
   * `POST /api/prices`: a body that is not JSON, or is `null`, throws into the outer `catch`
   * (`bodyError`); a missing (falsy) month or source is refused with 400 before the average is
   * computed; `cmaFails` stands for the database computation throwing.
   */
  function Post(bodyError: bool, month: Value, source: Value, cmaFails: bool): (r: CmaResponse)
    ensures r == MissingParameters <==> !bodyError && (!Truthy(month) || !Truthy(source))
    ensures r == CmaComputed(month, source) <==> !bodyError && Truthy(month) && Truthy(source) && !cmaFails
    ensures r.CmaComputed? ==> r.month == month && r.source == source
    ensures r == CmaFailed <==> bodyError || (Truthy(month) && Truthy(source) && cmaFails)
  {
    if bodyError then CmaFailed
    else if !Truthy(month) || !Truthy(source) then MissingParameters
    else if cmaFails then CmaFailed
    else CmaComputed(month, source)
  }
}
