/**
 * The pure helpers around the PDF ticket extraction: cutting the JSON text out of the
 * model's reply, the advisory range checks on the parsed ticket, and the mapping of the
 * nested shipper/receiver objects onto the flat columns of the tickets table.
 * The model call itself and `JSON.parse` are parameters.
 */
module TicketExtractor {
  import opened Wrappers
  import opened JsValue
  import opened Decimal
  import opened JsNumber

  // ---------------------------------------------------------------------------------------
  // The parsed reply
  // ---------------------------------------------------------------------------------------

  /** A shipper or receiver object: its properties by name. */
  type Location = map<string, Value>

  /**
   * A parsed ticket: the top-level scalar properties, and the two nested location objects
   * (`None` when the property is missing, null or not an object).
   */
  datatype Extracted = Extracted(fields: map<string, Value>, shipper: Option<Location>, receiver: Option<Location>)

  /** `data.loc?.name ?? null`. */
  function SubField(loc: Option<Location>, name: string): Value {
    match loc
    case None => Null
    case Some(m) => OrNull(Get(m, name))
  }

  /** `data.loc?.name` without the `?? null`: a missing parent reads as `undefined`. */
  function OptionalSubField(loc: Option<Location>, name: string): Value {
    match loc
    case None => Undefined
    case Some(m) => Get(m, name)
  }

  // ---------------------------------------------------------------------------------------
  // extractJsonFromResponse
  // ---------------------------------------------------------------------------------------

  predicate FenceAt(t: string, i: int) {
    0 <= i && i + 3 <= |t| && t[i] == '`' && t[i + 1] == '`' && t[i + 2] == '`'
  }

  /** The first three-backtick fence at or after `from`. */
  function FindFence(t: string, from: nat): (r: Option<nat>)
    ensures r.Some? ==> from <= r.value && FenceAt(t, r.value)
    ensures r.Some? ==> forall j :: from <= j < r.value ==> !FenceAt(t, j)
    ensures r.None? ==> forall j :: from <= j ==> !FenceAt(t, j)
    decreases |t| - from
  {
    if from + 3 > |t| then None
    else if FenceAt(t, from) then Some(from)
    else FindFence(t, from + 1)
  }

  /** The first position at or after `from` that is not white space (or the end). */
  function SkipSpaces(t: string, from: nat): (r: nat)
    requires from <= |t|
    ensures from <= r <= |t| && (r < |t| ==> !IsSpace(t[r]))
    ensures forall j :: from <= j < r ==> IsSpace(t[j])
    decreases |t| - from
  {
    if from < |t| && IsSpace(t[from]) then SkipSpaces(t, from + 1) else from
  }

  /** Where the body of the block opened by the fence at `p` starts: after an optional `json` tag and white space. */
  function BodyStart(t: string, p: nat): (s: nat)
    requires FenceAt(t, p)
    ensures p + 3 <= s <= |t|
    ensures forall j :: p + 3 <= j < s ==> t[j] != '`'
  {
    var a := p + 3;
    var b := if a + 4 <= |t| && t[a..a + 4] == "json" then a + 4 else a;
    SkipSpaces(t, b)
  }

  /**
   * The capture of /```(?:json)?\s*([\s\S]*?)```/: the text after the first fence (its tag
   * and leading white space skipped) up to the next fence; `None` when there is no second fence.
   */
  function CodeBlock(t: string): Option<string> {
    match FindFence(t, 0)
    case None => None
    case Some(p) =>
      var s := BodyStart(t, p);
      match FindFence(t, s)
      case None => None
      case Some(q) => Some(t[s..q])
  }

  /** Two fences that do not overlap: the condition under which the fenced pattern matches at all. */
  predicate HasCodeBlock(t: string) {
    exists i, j :: 0 <= i && i + 3 <= j < |t| && FenceAt(t, i) && FenceAt(t, j)
  }

  /** A `{` somewhere before a `}`: the condition under which /\{[\s\S]*\}/ matches. */
  predicate HasBraceSpan(t: string) {
    exists i, j :: 0 <= i < j < |t| && t[i] == '{' && t[j] == '}'
  }

  function FirstIndexOf(t: string, c: char, from: nat): (r: Option<nat>)
    ensures r.Some? ==> from <= r.value < |t| && t[r.value] == c
    ensures r.Some? ==> forall j :: from <= j < r.value ==> t[j] != c
    ensures r.None? ==> forall j :: from <= j < |t| ==> t[j] != c
    decreases |t| - from
  {
    if from >= |t| then None else if t[from] == c then Some(from) else FirstIndexOf(t, c, from + 1)
  }

  function LastIndexOf(t: string, c: char): (r: Option<nat>)
    ensures r.Some? ==> r.value < |t| && t[r.value] == c
    ensures r.Some? ==> forall j :: r.value < j < |t| ==> t[j] != c
    ensures r.None? ==> forall j :: 0 <= j < |t| ==> t[j] != c
  {
    if |t| == 0 then None else if t[|t| - 1] == c then Some(|t| - 1) else LastIndexOf(t[..|t| - 1], c)
  }

  /**
   * `extractJsonFromResponse`: a fenced block wins (trimmed); otherwise the span from the first
   * `{` to the last `}`; otherwise an error.
   */
  function ExtractJson(text: string): (r: Result<string, string>)
    ensures r.Err? <==> !HasCodeBlock(text) && !HasBraceSpan(text)
    ensures HasCodeBlock(text) ==> r.Ok? && CodeBlock(text).Some? && r.value == Trim(CodeBlock(text).value)
    ensures r.Ok? && !HasCodeBlock(text) ==>
      exists i, j :: 0 <= i < j < |text| && r.value == text[i..j + 1] && text[i] == '{' && text[j] == '}'
        && (forall k :: 0 <= k < i ==> text[k] != '{') && (forall k :: j < k < |text| ==> text[k] != '}')
  {
    CodeBlockExists(text);
    match CodeBlock(text)
    case Some(body) => Ok(Trim(body))
    case None =>
      match (FirstIndexOf(text, '{', 0), LastIndexOf(text, '}'))
      case (Some(i), Some(j)) =>
        if i < j then Ok(text[i..j + 1]) else Err("No JSON found in Claude response")
      case _ => Err("No JSON found in Claude response")
  }

  /** The scanning `CodeBlock` finds a block exactly when two non-overlapping fences exist. */
  lemma CodeBlockExists(t: string)
    ensures CodeBlock(t).Some? <==> HasCodeBlock(t)
  {
    match FindFence(t, 0)
    case None =>
    case Some(p) =>
      var s := BodyStart(t, p);
      if HasCodeBlock(t) {
        var i, j :| 0 <= i && i + 3 <= j < |t| && FenceAt(t, i) && FenceAt(t, j);
        assert p <= i;
        assert s <= j;
      }
  }

  /** A fenced reply yields its body, trimmed, whatever follows the closing fence. */
  lemma FencedBlockWins(pre: string, body: string, post: string)
    requires forall k :: 0 <= k < |pre| ==> pre[k] != '`'
    requires forall k :: 0 <= k < |body| ==> body[k] != '`'
    requires body == [] || !IsSpace(body[0])
    requires |body| < 4 || body[..4] != "json"
    ensures ExtractJson(pre + "```" + body + "```" + post) == Ok(Trim(body))
  {
    FencedBody(pre, body, post);
    CodeBlockExists(pre + "```" + body + "```" + post);
  }

  /** The block found in such a reply is exactly the text between the two fences. */
  lemma FencedBody(pre: string, body: string, post: string)
    requires forall k :: 0 <= k < |pre| ==> pre[k] != '`'
    requires forall k :: 0 <= k < |body| ==> body[k] != '`'
    requires body == [] || !IsSpace(body[0])
    requires |body| < 4 || body[..4] != "json"
    ensures CodeBlock(pre + "```" + body + "```" + post) == Some(body)
  {
    var t := pre + "```" + body + "```" + post;
    var p, q := |pre|, |pre| + 3 + |body|;
    assert FenceAt(t, p) && FenceAt(t, q);
    assert forall j :: 0 <= j < p ==> !FenceAt(t, j) by {
      forall j | 0 <= j < p ensures !FenceAt(t, j) { assert t[j] == pre[j]; }
    }
    assert FindFence(t, 0) == Some(p) by { FindFenceIsFirst(t, 0, p); }
    assert t[p + 3..q] == body;
    if |body| >= 4 {
      assert t[p + 3..p + 7] == body[..4];
    }
    assert BodyStart(t, p) == p + 3 by {
      if p + 3 < |t| { assert t[p + 3] == (body + "```" + post)[0]; }
    }
    assert forall j :: p + 3 <= j < q ==> !FenceAt(t, j) by {
      forall j | p + 3 <= j < q ensures !FenceAt(t, j) { assert t[j] == body[j - p - 3]; }
    }
    FindFenceIsFirst(t, p + 3, q);
    assert CodeBlock(t) == Some(body);
  }

  /** `FindFence` returns the fence that has no fence before it. */
  lemma FindFenceIsFirst(t: string, from: nat, p: nat)
    requires from <= p && FenceAt(t, p) && forall j :: from <= j < p ==> !FenceAt(t, j)
    ensures FindFence(t, from) == Some(p)
  {
    var r := FindFence(t, from);
    assert r.Some?;
    assert !(r.value < p) && !(p < r.value);
  }

  /** Without any backtick, the outermost braces are taken, untrimmed. */
  lemma RawBraceSpan(pre: string, mid: string, post: string)
    requires forall k :: 0 <= k < |pre| ==> pre[k] != '`' && pre[k] != '{'
    requires forall k :: 0 <= k < |mid| ==> mid[k] != '`'
    requires forall k :: 0 <= k < |post| ==> post[k] != '`' && post[k] != '}'
    ensures ExtractJson(pre + "{" + mid + "}" + post) == Ok("{" + mid + "}")
  {
    var t := pre + "{" + mid + "}" + post;
    var i, j := |pre|, |pre| + 1 + |mid|;
    NoBacktickNoBlock(pre, mid, post);
    CodeBlockExists(t);
    forall k | 0 <= k < i ensures t[k] != '{' { assert t[k] == pre[k]; }
    forall k | j < k < |t| ensures t[k] != '}' { assert t[k] == post[k - j - 1]; }
    FirstIndexIs(t, '{', i);
    LastIndexIs(t, '}', j);
    assert t[i..j + 1] == "{" + mid + "}";
  }

  lemma NoBacktickNoBlock(pre: string, mid: string, post: string)
    requires forall k :: 0 <= k < |pre| ==> pre[k] != '`'
    requires forall k :: 0 <= k < |mid| ==> mid[k] != '`'
    requires forall k :: 0 <= k < |post| ==> post[k] != '`'
    ensures !HasCodeBlock(pre + "{" + mid + "}" + post)
  {
    var t := pre + "{" + mid + "}" + post;
    var i, j := |pre|, |pre| + 1 + |mid|;
    forall k | 0 <= k < |t| ensures t[k] != '`' {
      if k < i { assert t[k] == pre[k]; }
      else if i < k < j { assert t[k] == mid[k - i - 1]; }
      else if j < k { assert t[k] == post[k - j - 1]; }
    }
  }

  lemma FirstIndexIs(t: string, c: char, i: nat)
    requires i < |t| && t[i] == c && forall k :: 0 <= k < i ==> t[k] != c
    ensures FirstIndexOf(t, c, 0) == Some(i)
  {
    var r := FirstIndexOf(t, c, 0);
    assert r.Some?;
    assert !(r.value < i) && !(i < r.value);
  }

  lemma LastIndexIs(t: string, c: char, j: nat)
    requires j < |t| && t[j] == c && forall k :: j < k < |t| ==> t[k] != c
    ensures LastIndexOf(t, c) == Some(j)
  {
    var r := LastIndexOf(t, c);
    assert r.Some?;
    assert !(r.value < j) && !(j < r.value);
  }

  // ---------------------------------------------------------------------------------------
  // validateExtractedData
  // ---------------------------------------------------------------------------------------

  /** One advisory range check: a number outside [lo, hi] (bounds inclusive) is reported. */
  datatype RangeCheck = RangeCheck(field: string, lo: real, hi: real)

  /** One warning: which field, and the value its message shows. */
  datatype RangeError = RangeError(field: string, value: Value)

  const LoadedBarrels := RangeCheck("loaded_barrels", 0.0, 500.0)
  const NetBarrels := RangeCheck("net_barrels", 0.0, 500.0)
  const DeliveredBbls := RangeCheck("delivered_bbls", 0.0, 500.0)
  const ObsGravity := RangeCheck("obs_gravity", 10.0, 70.0)
  const ObsTemp := RangeCheck("obs_temp", -50.0, 200.0)
  const BswPercent := RangeCheck("bsw_percent", 0.0, 100.0)
  const ShipperLat := RangeCheck("shipper.lat", 25.0, 50.0)
  const ShipperLon := RangeCheck("shipper.lon", -130.0, -60.0)

  /**
   * `v < lo || v > hi` for a value that passed the null guard. Both comparisons read `v` as
   * `Number(v)`: NaN is never out of range, and an infinity always is.
   */
  predicate OutOfRange(v: Value, c: RangeCheck) {
    match ToNumber(v)
    case NaN => false
    case Finite(x) => x < c.lo || x > c.hi
    case Infinity(_) => true
  }

  /** The eight checks in the order they run, each with the value it inspects. */
  function CheckedValues(data: Extracted): (r: seq<(RangeCheck, Value)>)
    ensures |r| == 8
  {
    [(LoadedBarrels, Get(data.fields, "loaded_barrels")),
     (NetBarrels, Get(data.fields, "net_barrels")),
     (DeliveredBbls, Get(data.fields, "delivered_bbls")),
     (ObsGravity, Get(data.fields, "obs_gravity")),
     (ObsTemp, Get(data.fields, "obs_temp")),
     (BswPercent, Get(data.fields, "bsw_percent")),
     (ShipperLat, OptionalSubField(data.shipper, "lat")),
     (ShipperLon, OptionalSubField(data.shipper, "lon"))]
  }

  /** What `warn` reports over the checks in `cs`, concatenated in check order. */
  function Reports(cs: seq<(RangeCheck, Value)>, warn: (RangeCheck, Value) -> seq<RangeError>): seq<RangeError> {
    if cs == [] then [] else warn(cs[0].0, cs[0].1) + Reports(cs[1..], warn)
  }

  /** The warnings the checks in `cs` raise, in order: one per value that is non-null and out of range. */
  function Warnings(cs: seq<(RangeCheck, Value)>): (r: seq<RangeError>)
    ensures |r| <= |cs|
  {
    ReportsLength(cs, Warning);
    Reports(cs, Warning)
  }

  /** The warning one check raises: none for null or `undefined`, none inside the closed range. */
  function Warning(c: RangeCheck, v: Value): (r: seq<RangeError>)
    ensures |r| <= 1 && forall e :: e in r ==> e == RangeError(c.field, v)
  {
    if !Nullish(v) && OutOfRange(v, c) then [RangeError(c.field, v)] else []
  }

  lemma {:induction false} ReportsLength(cs: seq<(RangeCheck, Value)>, warn: (RangeCheck, Value) -> seq<RangeError>)
    requires forall c, v :: |warn(c, v)| <= 1
    ensures |Reports(cs, warn)| <= |cs|
  {
    if cs != [] {
      ReportsLength(cs[1..], warn);
    }
  }

  lemma ReportsOne(c: RangeCheck, v: Value, warn: (RangeCheck, Value) -> seq<RangeError>)
    ensures Reports([(c, v)], warn) == warn(c, v)
  {
    assert [(c, v)][1..] == [];
  }

  lemma ReportsStep(cs: seq<(RangeCheck, Value)>, i: nat, warn: (RangeCheck, Value) -> seq<RangeError>)
    requires i < |cs|
    ensures Reports(cs[i..], warn) == warn(cs[i].0, cs[i].1) + Reports(cs[i + 1..], warn)
  {
    assert cs[i..][1..] == cs[i + 1..];
  }

  lemma {:induction false} ReportsAppend(a: seq<(RangeCheck, Value)>, b: seq<(RangeCheck, Value)>, warn: (RangeCheck, Value) -> seq<RangeError>)
    ensures Reports(a + b, warn) == Reports(a, warn) + Reports(b, warn)
  {
    if a == [] {
      assert a + b == b;
    } else {
      assert (a + b)[1..] == a[1..] + b;
      ReportsAppend(a[1..], b, warn);
      ErrorsAssoc(warn(a[0].0, a[0].1), Reports(a[1..], warn), Reports(b, warn));
    }
  }

  lemma {:induction false} ReportsExactly(cs: seq<(RangeCheck, Value)>, warn: (RangeCheck, Value) -> seq<RangeError>, e: RangeError)
    ensures e in Reports(cs, warn) <==> exists k :: 0 <= k < |cs| && e in warn(cs[k].0, cs[k].1)
  {
    if cs != [] {
      ReportsExactly(cs[1..], warn, e);
      if e in Reports(cs[1..], warn) {
        var k :| 0 <= k < |cs[1..]| && e in warn(cs[1..][k].0, cs[1..][k].1);
        assert cs[k + 1] == cs[1..][k];
      }
      forall k | 1 <= k < |cs| ensures cs[k] == cs[1..][k - 1] { }
    }
  }

  /** One step of `validateExtractedData`. */
  method CheckRange(errors: seq<RangeError>, c: RangeCheck, v: Value) returns (r: seq<RangeError>)
    ensures r == errors + Warnings([(c, v)])
  {
    ReportsOne(c, v, Warning);
    r := errors;
    if v != Null && OutOfRange(v, c) {
      r := r + [RangeError(c.field, v)];
    }
  }

  /** `validateExtractedData`: the eight checks run one after the other. */
  method ValidateExtractedData(data: Extracted) returns (errors: seq<RangeError>)
    ensures errors == Warnings(CheckedValues(data))
  {
    errors := RunChecks(CheckedValues(data));
  }

  /** Runs the checks of `checks` in order, each pushing at most one warning. */
  method RunChecks(checks: seq<(RangeCheck, Value)>) returns (errors: seq<RangeError>)
    ensures errors == Warnings(checks)
  {
    errors := [];
    var i := 0;
    while i < |checks|
      invariant 0 <= i <= |checks|
      invariant errors + Warnings(checks[i..]) == Warnings(checks)
    {
      ghost var before, w, rest := errors, Warning(checks[i].0, checks[i].1), Warnings(checks[i + 1..]);
      ReportsStep(checks, i, Warning);
      ReportsOne(checks[i].0, checks[i].1, Warning);
      errors := CheckRange(errors, checks[i].0, checks[i].1);
      ErrorsAssoc(before, w, rest);
      i := i + 1;
    }
  }

  lemma ErrorsAssoc(a: seq<RangeError>, b: seq<RangeError>, c: seq<RangeError>)
    ensures (a + b) + c == a + (b + c)
  {
  }

  /** A check reports exactly when its value, read as a number, lies outside the closed range. */
  lemma WarningsExactly(cs: seq<(RangeCheck, Value)>, e: RangeError)
    ensures e in Warnings(cs) <==>
      exists k :: 0 <= k < |cs| && !Nullish(cs[k].1) && OutOfRange(cs[k].1, cs[k].0)
        && e == RangeError(cs[k].0.field, cs[k].1)
  {
    ReportsExactly(cs, Warning, e);
    forall k | 0 <= k < |cs|
      ensures e in Warning(cs[k].0, cs[k].1) <==>
        !Nullish(cs[k].1) && OutOfRange(cs[k].1, cs[k].0) && e == RangeError(cs[k].0.field, cs[k].1)
    {
    }
  }

  /** Null values, and numbers on either bound, raise nothing. */
  lemma NullAndBoundsAreAccepted(c: RangeCheck, x: real)
    requires c.lo <= c.hi
    ensures Warnings([(c, Null)]) == [] && Warnings([(c, Undefined)]) == []
    ensures Warnings([(c, Num(c.lo))]) == [] && Warnings([(c, Num(c.hi))]) == []
    ensures Warnings([(c, Num(x))]) == (if c.lo <= x <= c.hi then [] else [RangeError(c.field, Num(x))])
  {
    OneCheck(c, Null);
    OneCheck(c, Undefined);
    OneCheck(c, Num(c.lo));
    OneCheck(c, Num(c.hi));
    OneCheck(c, Num(x));
  }

  /** A value that reads as a finite number is reported exactly when that number is out of range. */
  lemma FiniteReading(c: RangeCheck, v: Value, x: real)
    requires !Nullish(v) && ToNumber(v) == Finite(x)
    ensures Warnings([(c, v)]) == (if c.lo <= x <= c.hi then [] else [RangeError(c.field, v)])
  {
    OneCheck(c, v);
  }

  /** A value that reads NaN is never reported. */
  lemma NaNReading(c: RangeCheck, v: Value)
    requires ToNumber(v) == NaN
    ensures Warnings([(c, v)]) == []
  {
    OneCheck(c, v);
  }

  /**
   * A numeric string is compared by the number it spells: `"600"` raises the same warning as
   * `600`.
   */
  lemma IntegerStringsCompareAsNumbers(c: RangeCheck, i: int)
    ensures Warnings([(c, Str(IntToDecimal(i)))]) ==
      (if c.lo <= i as real <= c.hi then [] else [RangeError(c.field, Str(IntToDecimal(i)))])
  {
    IntegerTextRead(i);
    FiniteReading(c, Str(IntToDecimal(i)), i as real);
  }

  /** So is a one-element array holding a number: `[600]` raises the same warning as `600`. */
  lemma OneElementArraysCompareAsNumbers(c: RangeCheck, i: int)
    ensures Warnings([(c, Other(IntToDecimal(i)))]) ==
      (if c.lo <= i as real <= c.hi then [] else [RangeError(c.field, Other(IntToDecimal(i)))])
  {
    IntegerTextRead(i);
    FiniteReading(c, Other(IntToDecimal(i)), i as real);
  }

  /** A blank string, and an empty array, are compared as 0. */
  lemma BlankTextsCompareAsZero(c: RangeCheck, s: string)
    requires forall i :: 0 <= i < |s| ==> IsSpace(s[i])
    ensures Warnings([(c, Str(s))]) == (if c.lo <= 0.0 <= c.hi then [] else [RangeError(c.field, Str(s))])
    ensures Warnings([(c, Other(s))]) == (if c.lo <= 0.0 <= c.hi then [] else [RangeError(c.field, Other(s))])
  {
    BlankIsZero(s);
    FiniteReading(c, Str(s), 0.0);
    FiniteReading(c, Other(s), 0.0);
  }

  /** So an empty observed gravity is reported, since 0 lies below its range. */
  lemma EmptyGravityIsReported()
    ensures Warnings([(ObsGravity, Str(""))]) == [RangeError("obs_gravity", Str(""))]
  {
    BlankTextsCompareAsZero(ObsGravity, "");
  }

  /** Arrays of two or more elements, and plain objects, read NaN and are never reported. */
  lemma ListsAndObjectsAreNeverReported(c: RangeCheck, s: string)
    requires ',' in s
    ensures Warnings([(c, Other(s))]) == [] && Warnings([(c, Str(s))]) == []
    ensures Warnings([(c, Other("[object Object]"))]) == []
  {
    CommaIsNaN(s);
    ObjectIsNaN();
    NaNReading(c, Str(s));
    NaNReading(c, Other(s));
    NaNReading(c, Other("[object Object]"));
  }

  lemma OneCheck(c: RangeCheck, v: Value)
    ensures Warnings([(c, v)]) == Warning(c, v)
  {
    ReportsOne(c, v, Warning);
  }

  /** At most one warning per check, so at most eight, and receiver coordinates never matter. */
  lemma ValidationShape(data: Extracted, receiver: Option<Location>)
    ensures |Warnings(CheckedValues(data))| <= 8
    ensures Warnings(CheckedValues(data.(receiver := receiver))) == Warnings(CheckedValues(data))
  {
  }

  /** Without a shipper object (or with null coordinates) no coordinate warning is raised. */
  lemma MissingShipperRaisesNoCoordinateWarning(data: Extracted)
    requires data.shipper.None? ||
      (Nullish(Get(data.shipper.value, "lat")) && Nullish(Get(data.shipper.value, "lon")))
    ensures Warnings(CheckedValues(data)) == Warnings(CheckedValues(data)[..6])
  {
    var cs := CheckedValues(data);
    WarningsAppend(cs[..6], cs[6..]);
    assert cs == cs[..6] + cs[6..];
    var tail := cs[6..];
    ReportsStep(tail, 0, Warning);
    ReportsStep(tail, 1, Warning);
    assert tail[2..] == [];
    assert Warning(tail[0].0, tail[0].1) == [] && Warning(tail[1].0, tail[1].1) == [];
  }

  lemma WarningsAppend(a: seq<(RangeCheck, Value)>, b: seq<(RangeCheck, Value)>)
    ensures Warnings(a + b) == Warnings(a) + Warnings(b)
  {
    ReportsAppend(a, b, Warning);
  }

  /**
   * The end of `extractTicketFromPdfUrl`: the JSON text is cut out and parsed, the checks run,
   * and the parsed ticket is returned whatever they report.
   */
  method FinishExtraction(reply: string, parse: string -> Option<Extracted>) returns (r: Result<Extracted, string>)
    ensures ExtractJson(reply).Err? ==> r.Err?
    ensures ExtractJson(reply).Ok? && parse(ExtractJson(reply).value).Some? ==>
      r == Ok(parse(ExtractJson(reply).value).value)
    ensures ExtractJson(reply).Ok? && parse(ExtractJson(reply).value).None? ==> r.Err?
  {
    var json := ExtractJson(reply);
    if json.Err? {
      return Err(json.error);
    }
    var parsed := parse(json.value);
    if parsed.None? {
      return Err("JSON.parse failed");
    }
    var errors := ValidateExtractedData(parsed.value);
    r := Ok(parsed.value);
  }

  // ---------------------------------------------------------------------------------------
  // flattenExtractedData
  // ---------------------------------------------------------------------------------------

  /** The sub-fields of a location object, as they appear after the `shipper_` / `receiver_` prefix. */
  const LocationFields: seq<string> := ["name", "time", "account", "city", "county", "state", "lat", "lon"]

  /** The top-level properties copied as they are, in the order `flattenExtractedData` lists them. */
  const CopiedFields: seq<string> := CopiedHead + CopiedTank + CopiedTail

  const CopiedHead: seq<string> := [
    "bol_number", "ticket_number", "ticket_date", "trucking_company",
    "operator", "property_number", "legal_land_desc", "federal_lease_number"]

  const CopiedTank: seq<string> := [
    "tank_id", "tank_bbls_per_inch", "tank_height", "tank_volume",
    "header_number", "start_meter_1", "stop_meter_1", "start_meter_2", "stop_meter_2",
    "seal_off", "seal_on", "time_off", "time_on"]

  const CopiedTail: seq<string> := [
    "obs_gravity", "obs_temp", "start_temp", "stop_temp", "bsw_percent", "avg_line_temp",
    "meter_factor", "loaded_barrels", "net_barrels", "delivered_bbls", "corrected_gravity",
    "driver_name", "truck_number", "trailer_number",
    "standard_distance", "loaded_miles", "rerouted_miles",
    "road_restrictions", "notes", "driver_notes", "po_number", "extraction_confidence"]

  function Prefixed(prefix: string, names: seq<string>): (r: seq<string>)
    ensures |r| == |names| && forall i :: 0 <= i < |names| ==> r[i] == prefix + names[i]
  {
    seq(|names|, i requires 0 <= i < |names| => prefix + names[i])
  }

  /** The columns `flattenExtractedData` writes (a record's keys have no order that matters here). */
  const FlatColumns: seq<string> :=
    ["upload_id"] + CopiedFields + Prefixed("shipper_", LocationFields) + Prefixed("receiver_", LocationFields)
    + ["manually_corrected"]

  predicate HasPrefix(c: string, prefix: string) {
    |prefix| <= |c| && c[..|prefix|] == prefix
  }

  /** What `flattenExtractedData` writes under one column name. */
  function ColumnValue(data: Extracted, uploadId: Value, column: string): Value {
    if column == "upload_id" then uploadId
    else if column == "manually_corrected" then Bool(false)
    else if column in CopiedFields then Get(data.fields, column)
    else if HasPrefix(column, "shipper_") then SubField(data.shipper, column[8..])
    else if HasPrefix(column, "receiver_") then SubField(data.receiver, column[9..])
    else Undefined
  }

  /** `flattenExtractedData`: the record with one entry per flat column. */
  function Flatten(data: Extracted, uploadId: Value): map<string, Value> {
    map c | c in FlatColumns :: ColumnValue(data, uploadId, c)
  }

  /** `upload_id` is the argument and `manually_corrected` is false, whatever the reply said. */
  lemma FlattenFixedColumns(data: Extracted, uploadId: Value)
    ensures "upload_id" in Flatten(data, uploadId) && Flatten(data, uploadId)["upload_id"] == uploadId
    ensures "manually_corrected" in Flatten(data, uploadId)
    ensures Flatten(data, uploadId)["manually_corrected"] == Bool(false)
  {
    assert FlatColumns[0] == "upload_id" && FlatColumns[|FlatColumns| - 1] == "manually_corrected";
  }

  /** Every other top-level property is copied unchanged (`undefined` when the reply lacks it). */
  lemma FlattenCopies(data: Extracted, uploadId: Value, k: string)
    requires k in CopiedFields
    ensures k in Flatten(data, uploadId) && Flatten(data, uploadId)[k] == Get(data.fields, k)
  {
    FixedNotInHead();
    FixedNotInTank();
    FixedNotInTail();
    assert k in FlatColumns;
  }

  lemma FixedNotInHead()
    ensures "upload_id" !in CopiedHead && "manually_corrected" !in CopiedHead
  {
  }

  lemma FixedNotInTank()
    ensures "upload_id" !in CopiedTank && "manually_corrected" !in CopiedTank
  {
  }

  lemma FixedNotInTail()
    ensures "upload_id" !in CopiedTail && "manually_corrected" !in CopiedTail
  {
  }

  /** Every location column reads the matching sub-field, and is null when the parent object is missing. */
  lemma FlattenLocations(data: Extracted, uploadId: Value, f: string)
    requires f in LocationFields
    ensures "shipper_" + f in Flatten(data, uploadId) && "receiver_" + f in Flatten(data, uploadId)
    ensures Flatten(data, uploadId)["shipper_" + f] == SubField(data.shipper, f)
    ensures Flatten(data, uploadId)["receiver_" + f] == SubField(data.receiver, f)
    ensures data.shipper.None? ==> Flatten(data, uploadId)["shipper_" + f] == Null
    ensures data.receiver.None? ==> Flatten(data, uploadId)["receiver_" + f] == Null
  {
    ShipperColumn(data, uploadId, f);
    ReceiverColumn(data, uploadId, f);
  }

  /** A `shipper_` column is no copied property and reads the shipper's sub-field. */
  lemma ShipperColumn(data: Extracted, uploadId: Value, f: string)
    requires f in LocationFields
    ensures "shipper_" + f in Flatten(data, uploadId)
    ensures Flatten(data, uploadId)["shipper_" + f] == SubField(data.shipper, f)
  {
    var s := "shipper_" + f;
    assert s[0] == 's' && s[1] == 'h' && |s| >= 11;
    NotCopied(s);
    assert s[..8] == "shipper_" && s[8..] == f;
    assert s in FlatColumns;
  }

  /** A `receiver_` column is no copied property, has no `shipper_` prefix, and reads the receiver's sub-field. */
  lemma ReceiverColumn(data: Extracted, uploadId: Value, f: string)
    requires f in LocationFields
    ensures "receiver_" + f in Flatten(data, uploadId)
    ensures Flatten(data, uploadId)["receiver_" + f] == SubField(data.receiver, f)
  {
    var r := "receiver_" + f;
    assert r[0] == 'r' && r[1] == 'e' && r[2] == 'c' && |r| >= 12;
    NotCopied(r);
    assert r[..9] == "receiver_" && r[9..] == f && !HasPrefix(r, "shipper_");
    assert r in FlatColumns;
  }

  /** Whether `s` starts with `sh` or `rec`, as the location columns do. */
  predicate LocationLike(s: string) {
    |s| >= 3 && ((s[0] == 's' && s[1] == 'h') || (s[0] == 'r' && s[1] == 'e' && s[2] == 'c'))
  }

  /** No copied property starts like a location column. */
  lemma NotCopied(s: string)
    requires LocationLike(s)
    ensures s !in CopiedFields
  {
    NotInHead(s);
    NotInTank(s);
    NotInTail(s);
  }

  lemma NotInHead(s: string)
    requires LocationLike(s)
    ensures s !in CopiedHead
  {
  }

  lemma NotInTank(s: string)
    requires LocationLike(s)
    ensures s !in CopiedTank
  {
  }

  lemma NotInTail(s: string)
    requires LocationLike(s)
    ensures s !in CopiedTail
  {
  }
}
