/**
 * Query construction in the oil-ticket store: the WHERE conditions, the numbered placeholders
 * and the parameter lists that `updateUploadStatus`, `getUploads`, `createTicket`,
 * `getTickets` and `updateTicket` hand to the database. The database itself is not modelled:
 * each builder returns its clauses and parameters as values.
 */
module OpsInventoryDb {
  import opened Wrappers
  import opened JsValue
  import opened Decimal

  datatype UploadStatus = Pending | Processing | Completed | Failed

  /** The status as it is stored in the `status` column. */
  function StatusName(s: UploadStatus): string {
    match s
    case Pending => "pending"
    case Processing => "processing"
    case Completed => "completed"
    case Failed => "failed"
  }

  lemma StatusNameInjective(a: UploadStatus, b: UploadStatus)
    requires StatusName(a) == StatusName(b)
    ensures a == b
  {
    assert StatusName(a)[0] == StatusName(b)[0];
    if StatusName(a)[0] == 'p' {
      assert StatusName(a)[1] == StatusName(b)[1];
    }
  }

  /** The text `$k` of the k-th placeholder; it reads back as k. */
  function Placeholder(k: nat): (r: string)
    ensures |r| >= 2 && r[0] == '$' && AllDigits(r[1..]) && DecimalValue(r[1..]) == k
  {
    NatToDecimalRoundTrip(k);
    assert ("$" + NatToDecimal(k))[1..] == NatToDecimal(k);
    "$" + NatToDecimal(k)
  }

  // ---------------------------------------------------------------------------------------
  // updateUploadStatus
  // ---------------------------------------------------------------------------------------

  /** What goes into `processed_at`: the database clock, or SQL NULL. */
  datatype ProcessedAt = CurrentTimestamp | NullTimestamp

  datatype StatusUpdate = StatusUpdate(processedAt: ProcessedAt, params: seq<Value>)

  /**
   * `UPDATE oil_ticket_uploads SET status = $1, error_message = $2, processed_at = … WHERE id = $3`:
   * only a finished upload (completed or failed) gets a processing time, and a missing error
   * message is stored as null.
   */
  function UpdateUploadStatus(id: Value, status: UploadStatus, errorMessage: Option<string>): (q: StatusUpdate)
    ensures q.processedAt == CurrentTimestamp <==> status == Completed || status == Failed
    ensures |q.params| == 3
    ensures q.params[0] == Str(StatusName(status)) && q.params[2] == id
    ensures q.params[1] == Null <==> errorMessage.None?
    ensures errorMessage.Some? ==> q.params[1] == Str(errorMessage.value)
  {
    var processedAt := if status == Completed || status == Failed then CurrentTimestamp else NullTimestamp;
    StatusUpdate(processedAt, [Str(StatusName(status)), if errorMessage.Some? then Str(errorMessage.value) else Null, id])
  }

  // ---------------------------------------------------------------------------------------
  // WHERE conditions
  // ---------------------------------------------------------------------------------------

  datatype Op = Eq | Ge | Le

  /**
   * One condition of a WHERE clause: a column compared with placeholder `index`, or the
   * search condition `(c1 ILIKE $k OR c2 ILIKE $k OR …)` that uses the one placeholder for
   * every column.
   */
  datatype Condition = Compare(column: string, op: Op, index: nat) | AnyILike(columns: seq<string>, index: nat)

  function OpText(op: Op): string {
    match op
    case Eq => "="
    case Ge => ">="
    case Le => "<="
  }

  function ILikeAll(columns: seq<string>, k: nat): string
    decreases |columns|
  {
    if columns == [] then ""
    else if |columns| == 1 then columns[0] + " ILIKE " + Placeholder(k)
    else columns[0] + " ILIKE " + Placeholder(k) + " OR " + ILikeAll(columns[1..], k)
  }

  function ConditionText(c: Condition): string {
    match c
    case Compare(column, op, k) => column + " " + OpText(op) + " " + Placeholder(k)
    case AnyILike(columns, k) => "(" + ILikeAll(columns, k) + ")"
  }

  function JoinAnd(cs: seq<Condition>): string
    decreases |cs|
  {
    if cs == [] then ""
    else if |cs| == 1 then ConditionText(cs[0])
    else ConditionText(cs[0]) + " AND " + JoinAnd(cs[1..])
  }

  /** The WHERE clause: empty exactly when there is no condition. */
  function Where(cs: seq<Condition>): (r: string)
    ensures r == "" <==> cs == []
    ensures cs != [] ==> |r| >= 6 && r[..6] == "WHERE "
  {
    if cs == [] then "" else "WHERE " + JoinAnd(cs)
  }

  // ---------------------------------------------------------------------------------------
  // getUploads
  // ---------------------------------------------------------------------------------------

  /**
   * The upload listing's filter: a given status becomes the single condition `status = $1`
   * and the single parameter; without one there is no condition and the WHERE clause is empty.
   * (A status name is never the empty string, so a given filter is always truthy.)
   */
  method GetUploads(statusFilter: Option<UploadStatus>) returns (conds: seq<Condition>, params: seq<Value>)
    ensures statusFilter.None? ==> conds == [] && params == [] && Where(conds) == ""
    ensures statusFilter.Some? ==>
      conds == [Compare("status", Eq, 1)] && params == [Str(StatusName(statusFilter.value))]
  {
    conds, params := [], [];
    if statusFilter.Some? {
      params := params + [Str(StatusName(statusFilter.value))];
      conds := conds + [Compare("status", Eq, |params|)];
    }
  }

  // ---------------------------------------------------------------------------------------
  // getTickets
  // ---------------------------------------------------------------------------------------

  datatype TicketFilters = TicketFilters(
    dateFrom: Option<string>, dateTo: Option<string>, shipper: Option<string>, operator: Option<string>,
    county: Option<string>, state: Option<string>, search: Option<string>,
    page: Option<int>, limit: Option<int>)

  /** The columns the free-text search matches, all against one placeholder. */
  const SearchColumns: seq<string> := ["ticket_number", "bol_number", "shipper_name", "driver_name"]

  /** What a filter turns into once its placeholder is known. */
  datatype Shape = Column(column: string, op: Op) | Search

  /** `if (filters.x)`: an absent filter and an empty string are both skipped. */
  predicate Given(v: Option<string>) { v.Some? && v.value != "" }

  function Slot(v: Option<string>, shape: Shape): seq<(Shape, string)> {
    if Given(v) then [(shape, v.value)] else []
  }

  /** The filters `getTickets` applies, in the order it tests them. */
  function ActiveFilters(f: TicketFilters): seq<(Shape, string)> {
    Slot(f.dateFrom, Column("ticket_date", Ge)) + Slot(f.dateTo, Column("ticket_date", Le))
    + Slot(f.shipper, Column("shipper_name", Eq)) + Slot(f.operator, Column("operator", Eq))
    + Slot(f.county, Column("shipper_county", Eq)) + Slot(f.state, Column("shipper_state", Eq))
    + Slot(f.search, Search)
  }

  function Instantiate(shape: Shape, k: nat): Condition {
    match shape
    case Column(column, op) => Compare(column, op, k)
    case Search => AnyILike(SearchColumns, k)
  }

  /** The bound value: the search term is wrapped as `%term%`, the others are passed as they are. */
  function ParamOf(shape: Shape, v: string): Value {
    if shape.Search? then Str("%" + v + "%") else Str(v)
  }

  /**
   * `conds` and `params` are the clauses of `active`, one condition and one parameter each,
   * and the placeholder of the i-th condition is i + 1: it names the i-th parameter.
   */
  predicate Built(active: seq<(Shape, string)>, conds: seq<Condition>, params: seq<Value>) {
    |conds| == |active| && |params| == |active| &&
    forall i :: 0 <= i < |active| ==>
      conds[i] == Instantiate(active[i].0, i + 1) && params[i] == ParamOf(active[i].0, active[i].1)
  }

  /** One `if (filters.x) { params.push(…); conditions.push(… $${params.length}) }` step. */
  method AddFilter(conds: seq<Condition>, params: seq<Value>, ghost active: seq<(Shape, string)>,
                   v: Option<string>, shape: Shape)
    returns (conds': seq<Condition>, params': seq<Value>)
    requires Built(active, conds, params)
    ensures Built(active + Slot(v, shape), conds', params')
    ensures Given(v) ==>
      conds' == conds + [Instantiate(shape, |params| + 1)] && params' == params + [ParamOf(shape, v.value)]
    ensures !Given(v) ==> conds' == conds && params' == params
  {
    conds', params' := conds, params;
    if Given(v) {
      params' := params' + [ParamOf(shape, v.value)];
      conds' := conds' + [Instantiate(shape, |params'|)];
    }
  }

  /** `filters.page ?? 1` and `filters.limit ?? 50`. */
  function Page(f: TicketFilters): int { if f.page.Some? then f.page.value else 1 }
  function Limit(f: TicketFilters): int { if f.limit.Some? then f.limit.value else 50 }

  /** The row offset of the requested page. */
  function Offset(f: TicketFilters): (r: int)
    ensures f.page.None? ==> r == 0
    ensures f.limit.None? ==> r == 50 * (Page(f) - 1)
  {
    (Page(f) - 1) * Limit(f)
  }

  datatype TicketQuery = TicketQuery(
    conditions: seq<Condition>, params: seq<Value>, dataParams: seq<Value>, limitIndex: nat, offsetIndex: nat)

  /**
   * The ticket listing: the count query binds `params`, the page query binds `dataParams`,
   * which adds the limit and the offset; their placeholders are the two indices right after
   * the filter parameters.
   */
  method GetTickets(f: TicketFilters) returns (q: TicketQuery)
    ensures Built(ActiveFilters(f), q.conditions, q.params)
    ensures Where(q.conditions) == "" <==> ActiveFilters(f) == []
    ensures q.limitIndex == |q.params| + 1 && q.offsetIndex == |q.params| + 2
    ensures |q.dataParams| == q.offsetIndex && q.dataParams[..|q.params|] == q.params
    ensures q.dataParams[q.limitIndex - 1] == Num(Limit(f) as real)
    ensures q.dataParams[q.offsetIndex - 1] == Num(Offset(f) as real)
  {
    var conds, params := FilterClauses(f);
    var page := if f.page.Some? then f.page.value else 1;
    var limit := if f.limit.Some? then f.limit.value else 50;
    var offset := (page - 1) * limit;
    var dataParams := params + [Num(limit as real), Num(offset as real)];
    q := TicketQuery(conds, params, dataParams, |dataParams| - 1, |dataParams|);
  }

  /** The seven filter tests of `getTickets`, in source order. */
  method FilterClauses(f: TicketFilters) returns (conds: seq<Condition>, params: seq<Value>)
    ensures Built(ActiveFilters(f), conds, params)
  {
    ghost var active := Slot(f.dateFrom, Column("ticket_date", Ge));
    conds, params := AddFilter([], [], [], f.dateFrom, Column("ticket_date", Ge));
    assert [] + active == active;
    conds, params := AddFilter(conds, params, active, f.dateTo, Column("ticket_date", Le));
    active := active + Slot(f.dateTo, Column("ticket_date", Le));
    conds, params := AddFilter(conds, params, active, f.shipper, Column("shipper_name", Eq));
    active := active + Slot(f.shipper, Column("shipper_name", Eq));
    conds, params := AddFilter(conds, params, active, f.operator, Column("operator", Eq));
    active := active + Slot(f.operator, Column("operator", Eq));
    conds, params := AddFilter(conds, params, active, f.county, Column("shipper_county", Eq));
    active := active + Slot(f.county, Column("shipper_county", Eq));
    conds, params := AddFilter(conds, params, active, f.state, Column("shipper_state", Eq));
    active := active + Slot(f.state, Column("shipper_state", Eq));
    conds, params := AddFilter(conds, params, active, f.search, Search);
    active := active + Slot(f.search, Search);
  }

  /**
   * A search term becomes the last condition, one ILIKE over four columns that all name the
   * last placeholder, whose parameter is the term wrapped in `%`.
   */
  lemma SearchIsLastCondition(f: TicketFilters, conds: seq<Condition>, params: seq<Value>)
    requires Built(ActiveFilters(f), conds, params)
    requires Given(f.search)
    ensures |conds| >= 1 && conds[|conds| - 1] == AnyILike(SearchColumns, |params|) && |SearchColumns| == 4
    ensures params[|params| - 1] == Str("%" + f.search.value + "%")
  {
    var a := ActiveFilters(f);
    assert a[|a| - 1] == (Search, f.search.value);
  }

  /** Every condition names the placeholder that holds its own parameter, and no other. */
  lemma PlaceholdersArePositions(active: seq<(Shape, string)>, conds: seq<Condition>, params: seq<Value>, i: int, j: int)
    requires Built(active, conds, params)
    requires 0 <= i < |conds| && 0 <= j < |conds| && i != j
    ensures 1 <= conds[i].index <= |params| && params[conds[i].index - 1] == ParamOf(active[i].0, active[i].1)
    ensures conds[i].index != conds[j].index
  {
    assert conds[i] == Instantiate(active[i].0, i + 1) && conds[j] == Instantiate(active[j].0, j + 1);
  }

  // ---------------------------------------------------------------------------------------
  // The ticket columns
  // ---------------------------------------------------------------------------------------

  /** The columns `updateTicket` accepts, in the order both field lists give them. */
  const AllowedFields: seq<string> := AllowedHead + AllowedMiddle + AllowedTail

  const AllowedHead: seq<string> := [
    "bol_number", "ticket_number", "trucking_company",
    "shipper_name", "shipper_time", "shipper_account", "operator",
    "property_number", "legal_land_desc", "federal_lease_number",
    "shipper_city", "shipper_county", "shipper_state", "shipper_lat", "shipper_lon",
    "receiver_name", "receiver_time", "receiver_account", "receiver_city", "receiver_county"]

  const AllowedMiddle: seq<string> := [
    "receiver_state", "receiver_lat", "receiver_lon",
    "tank_id", "tank_bbls_per_inch", "tank_height", "tank_volume",
    "header_number", "start_meter_1", "stop_meter_1", "start_meter_2", "stop_meter_2",
    "seal_off", "seal_on", "time_off", "time_on",
    "obs_gravity", "obs_temp", "start_temp", "stop_temp"]

  const AllowedTail: seq<string> := [
    "bsw_percent", "avg_line_temp", "meter_factor",
    "loaded_barrels", "net_barrels", "delivered_bbls", "corrected_gravity",
    "driver_name", "truck_number", "trailer_number",
    "standard_distance", "loaded_miles", "rerouted_miles",
    "road_restrictions", "notes", "driver_notes", "po_number",
    "extraction_confidence", "manually_corrected", "ticket_date"]

  /** The columns `createTicket` inserts: `upload_id` followed by the allowed columns. */
  const TicketFields: seq<string> := ["upload_id"] + AllowedFields

  /** `upload_id` can be inserted but never updated. */
  lemma UploadIdNotAllowed()
    ensures "upload_id" !in AllowedFields && "upload_id" in TicketFields
    ensures |AllowedFields| == 60 && |TicketFields| == 61
  {
    NotInHead();
    NotInMiddle();
    NotInTail();
    assert TicketFields[0] == "upload_id";
  }

  lemma NotInHead()
    ensures "upload_id" !in AllowedHead
  {
    assert "upload_id"[0] == 'u';
  }

  lemma NotInMiddle()
    ensures "upload_id" !in AllowedMiddle
  {
    assert "upload_id"[0] == 'u';
  }

  lemma NotInTail()
    ensures "upload_id" !in AllowedTail
  {
    assert "upload_id"[0] == 'u';
  }

  // ---------------------------------------------------------------------------------------
  // createTicket
  // ---------------------------------------------------------------------------------------

  /** `fields.filter(f => f !== x)`. */
  function Remove(s: seq<string>, x: string): (r: seq<string>)
    ensures forall c :: c in r <==> c in s && c != x
    ensures |r| <= |s|
  {
    if s == [] then []
    else if s[0] == x then Remove(s[1..], x)
    else [s[0]] + Remove(s[1..], x)
  }

  datatype TicketInsert = TicketInsert(columns: seq<string>, values: seq<Value>, placeholders: seq<nat>, updateSet: seq<string>)

  /**
   * The upsert: one bound value per column in the fixed column order (a missing or nullish
   * property becomes null), placeholders `$1 … $n`, and an ON CONFLICT (ticket_number)
   * update that sets every other column to its EXCLUDED value.
   */
  function CreateTicket(params: map<string, Value>): (r: TicketInsert)
    ensures r.columns == TicketFields
    ensures |r.values| == |TicketFields| && |r.placeholders| == |TicketFields|
    ensures forall i :: 0 <= i < |TicketFields| ==>
      r.placeholders[i] == i + 1 &&
      (TicketFields[i] in params && !Nullish(params[TicketFields[i]]) ==> r.values[i] == params[TicketFields[i]]) &&
      (TicketFields[i] !in params || Nullish(params[TicketFields[i]]) ==> r.values[i] == Null)
    ensures forall c :: c in r.updateSet <==> c in TicketFields && c != "ticket_number"
  {
    var values := seq(|TicketFields|, i requires 0 <= i < |TicketFields| => OrNull(Get(params, TicketFields[i])));
    var placeholders := seq(|TicketFields|, i requires 0 <= i < |TicketFields| => i + 1);
    TicketInsert(TicketFields, values, placeholders, Remove(TicketFields, "ticket_number"))
  }

  /** A later conflict on `ticket_number` rewrites `upload_id` and every other column but the key. */
  lemma UpsertRewritesAllButKey(params: map<string, Value>)
    ensures "ticket_number" !in CreateTicket(params).updateSet
    ensures "upload_id" in CreateTicket(params).updateSet
    ensures forall c :: c in AllowedFields && c != "ticket_number" ==> c in CreateTicket(params).updateSet
  {
    assert "upload_id"[0] == 'u' && "ticket_number"[0] == 't';
  }

  // ---------------------------------------------------------------------------------------
  // updateTicket
  // ---------------------------------------------------------------------------------------

  /** The entries whose key is in `allowed`, in input order. */
  function KeptFrom(entries: seq<(string, Value)>, allowed: seq<string>): (r: seq<(string, Value)>)
    ensures |r| <= |entries|
    ensures forall e :: e in r <==> e in entries && e.0 in allowed
  {
    if entries == [] then []
    else
      var last := entries[|entries| - 1];
      assert entries == entries[..|entries| - 1] + [last];
      KeptFrom(entries[..|entries| - 1], allowed) + (if last.0 in allowed then [last] else [])
  }

  /** The entries `updateTicket` keeps: allow-listed keys, in input order. */
  function Kept(entries: seq<(string, Value)>): (r: seq<(string, Value)>)
    ensures |r| <= |entries|
    ensures forall e :: e in r <==> e in entries && e.0 in AllowedFields
  {
    KeptFrom(entries, AllowedFields)
  }

  /** `SET key = $k`. */
  datatype Assignment = Assignment(column: string, index: nat)

  datatype TicketUpdate = TicketUpdate(assignments: seq<Assignment>, params: seq<Value>, idIndex: nat)

  /** The i-th kept entry sets its column from placeholder i + 1, which holds its value. */
  predicate Assigned(kept: seq<(string, Value)>, updates: seq<Assignment>, params: seq<Value>) {
    |updates| == |kept| && |params| == |kept| &&
    forall i :: 0 <= i < |kept| ==> updates[i] == Assignment(kept[i].0, i + 1) && params[i] == kept[i].1
  }

  /**
   * The partial update: no query at all when no allow-listed key remains; otherwise one
   * assignment per kept entry in input order, and the id as the last parameter, named by
   * the WHERE placeholder.
   */
  method UpdateTicket(id: int, entries: seq<(string, Value)>) returns (r: Option<TicketUpdate>)
    ensures r.None? <==> Kept(entries) == []
    ensures r.Some? ==> |r.value.params| >= 1
    ensures r.Some? ==> Assigned(Kept(entries), r.value.assignments, r.value.params[..|r.value.params| - 1])
    ensures r.Some? ==> r.value.idIndex == |r.value.params| && r.value.params[|r.value.params| - 1] == Num(id as real)
  {
    var updates, params := SetClauses(entries);
    if |updates| == 0 {
      return None;
    }
    params := params + [Num(id as real)];
    r := Some(TicketUpdate(updates, params, |params|));
  }

  /** The loop over `Object.entries(fields)`: push each allow-listed value and number its assignment. */
  method SetClauses(entries: seq<(string, Value)>) returns (updates: seq<Assignment>, params: seq<Value>)
    ensures Assigned(Kept(entries), updates, params)
  {
    updates, params := [], [];
    for i := 0 to |entries|
      invariant Assigned(Kept(entries[..i]), updates, params)
    {
      KeptStep(entries, i);
      var key, value := entries[i].0, entries[i].1;
      if key in AllowedFields {
        params := params + [value];
        updates := updates + [Assignment(key, |params|)];
      }
    }
    assert entries[..|entries|] == entries;
  }

  lemma KeptStep(entries: seq<(string, Value)>, i: int)
    requires 0 <= i < |entries|
    ensures Kept(entries[..i + 1]) == Kept(entries[..i]) + (if entries[i].0 in AllowedFields then [entries[i]] else [])
  {
    KeptFromStep(entries, AllowedFields, i);
  }

  lemma KeptFromStep(entries: seq<(string, Value)>, allowed: seq<string>, i: int)
    requires 0 <= i < |entries|
    ensures KeptFrom(entries[..i + 1], allowed) ==
      KeptFrom(entries[..i], allowed) + (if entries[i].0 in allowed then [entries[i]] else [])
  {
    assert entries[..i + 1][..i] == entries[..i];
  }

  lemma {:induction false} KeptFromAppend(a: seq<(string, Value)>, b: seq<(string, Value)>, allowed: seq<string>)
    ensures KeptFrom(a + b, allowed) == KeptFrom(a, allowed) + KeptFrom(b, allowed)
    decreases |b|
  {
    if b == [] {
      assert a + b == a;
    } else {
      var b' := b[..|b| - 1];
      assert (a + b)[..|a + b| - 1] == a + b';
      assert b[..|b| - 1] == b';
      KeptFromAppend(a, b', allowed);
    }
  }

  /** Filtering commutes with concatenation, so the kept entries keep their relative order. */
  lemma KeptAppend(a: seq<(string, Value)>, b: seq<(string, Value)>)
    ensures Kept(a + b) == Kept(a) + Kept(b)
  {
    KeptFromAppend(a, b, AllowedFields);
  }

  /** `upload_id` in the input never reaches the SET list. */
  lemma UploadIdNeverUpdated(entries: seq<(string, Value)>)
    ensures forall e :: e in Kept(entries) ==> e.0 != "upload_id"
  {
    UploadIdNotAllowed();
  }
}
