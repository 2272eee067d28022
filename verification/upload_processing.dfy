/**
 * The upload-processing endpoint: a `POST` with an `upload_id` moves the upload through
 * pending/failed/completed → processing → completed or failed, around the ticket extraction
 * and the ticket upsert. The upload table is a class whose rows the status writes update in
 * place; the extractor's result and the database faults are inputs.
 */
module UploadProcessing {
  import opened Wrappers
  import opened JsValue
  import TicketExtractor
  import opened OpsInventoryDb

  /** A row of `oil_ticket_uploads`, with the columns the endpoint reads or writes. */
  datatype Upload = Upload(fileUrl: string, status: UploadStatus, errorMessage: Option<string>, processedAt: ProcessedAt)

  /** `processed_at` is set exactly on finished uploads. */
  predicate Stamped(u: Upload) {
    u.processedAt == CurrentTimestamp <==> u.status == Completed || u.status == Failed
  }

  /** A write the endpoint sends to the database: a status update or a ticket upsert. */
  datatype Write = StatusWrite(id: Value, status: UploadStatus, errorMessage: Option<string>) | TicketWrite(row: map<string, Value>)

  /** The effect of `updateUploadStatus` on the row it names. */
  function ApplyStatus(u: Upload, id: Value, status: UploadStatus, errorMessage: Option<string>): (r: Upload)
    ensures Stamped(r) && r.fileUrl == u.fileUrl && r.status == status && r.errorMessage == errorMessage
  {
    u.(status := status, errorMessage := errorMessage, processedAt := UpdateUploadStatus(id, status, errorMessage).processedAt)
  }

  /** The row after a run of writes to it, replayed in order. */
  function Replay(u: Upload, ws: seq<Write>): Upload {
    if ws == [] then u
    else
      var w := ws[|ws| - 1];
      var before := Replay(u, ws[..|ws| - 1]);
      if w.StatusWrite? then ApplyStatus(before, w.id, w.status, w.errorMessage) else before
  }

  lemma ReplayStep(u: Upload, ws: seq<Write>, w: Write)
    ensures Replay(u, ws + [w]) ==
      if w.StatusWrite? then ApplyStatus(Replay(u, ws), w.id, w.status, w.errorMessage) else Replay(u, ws)
  {
    assert (ws + [w])[..|ws|] == ws;
  }

  /**
   * What can go wrong around the request and in the database: the body is not JSON or is `null`
   * (so `request.json()` or the destructuring throws), the lookup, the write that marks the
   * upload processing or failed throws, or the upsert or the write that marks it completed
   * throws with a message.
   */
  datatype Faults = Faults(
    bodyError: bool, lookupThrows: bool, markProcessingThrows: bool, saveError: Option<string>,
    completedError: Option<string>, markFailedThrows: bool)

  /** The HTTP status and, for a failure, the `error` text of the response body. */
  datatype Response = Response(code: int, error: Option<string>)

  const MissingId := Response(400, Some("upload_id is required"))
  const NotFound := Response(404, Some("Upload not found"))
  const Busy := Response(409, Some("Upload is already being processed"))
  const Crashed := Response(500, Some("Failed to process upload"))

  /**
   * The inner `try`: extract, flatten, upsert, mark completed. The message of the first step
   * that throws, if any, and the writes that went through.
   */
  function Attempted(id: Value, extraction: Result<TicketExtractor.Extracted, string>, faults: Faults): (Option<string>, seq<Write>) {
    if extraction.Err? then (Some(extraction.error), [])
    else if faults.saveError.Some? then (faults.saveError, [])
    else
      var row := TicketExtractor.Flatten(extraction.value, id);
      if faults.completedError.Some? then (faults.completedError, [TicketWrite(row)])
      else (None, [TicketWrite(row), StatusWrite(id, Completed, None)])
  }

  /** The response and the writes of one request, for the upload row as it stood when the request arrived. */
  function Handle(id: Value, upload: Option<Upload>, extraction: Result<TicketExtractor.Extracted, string>, faults: Faults): (Response, seq<Write>) {
    if faults.bodyError then (Crashed, [])
    else if !Truthy(id) then (MissingId, [])
    else if faults.lookupThrows then (Crashed, [])
    else if upload.None? then (NotFound, [])
    else if upload.value.status == Processing then (Busy, [])
    else if faults.markProcessingThrows then (Crashed, [])
    else Proceed(id, extraction, faults)
  }

  /** Past the guards: mark processing, attempt, and mark failed if the attempt threw. */
  function Proceed(id: Value, extraction: Result<TicketExtractor.Extracted, string>, faults: Faults): (Response, seq<Write>) {
    var start := [StatusWrite(id, Processing, None)];
    var (failure, done) := Attempted(id, extraction, faults);
    if failure.None? then (Response(200, None), start + done)
    else if faults.markFailedThrows then (Crashed, start + done)
    else (Response(500, Some("Extraction failed: " + failure.value)), start + done + [StatusWrite(id, Failed, failure)])
  }

  /** An unreadable body and the three guards answer before anything is written. */
  lemma GuardsWriteNothing(id: Value, upload: Option<Upload>, extraction: Result<TicketExtractor.Extracted, string>, faults: Faults)
    ensures faults.bodyError ==> Handle(id, upload, extraction, faults) == (Crashed, [])
    ensures !faults.bodyError && !Truthy(id) ==> Handle(id, upload, extraction, faults) == (MissingId, [])
    ensures !faults.bodyError && Truthy(id) && !faults.lookupThrows && upload.None? ==> Handle(id, upload, extraction, faults) == (NotFound, [])
    ensures !faults.bodyError && Truthy(id) && !faults.lookupThrows && upload.Some? && upload.value.status == Processing ==>
      Handle(id, upload, extraction, faults) == (Busy, [])
  {
  }

  /**
   * Once past the guards, the upload is marked processing before anything else; a success is
   * exactly the upsert of the flattened ticket followed by the completed mark.
   */
  lemma SuccessOrder(id: Value, upload: Option<Upload>, extraction: Result<TicketExtractor.Extracted, string>, faults: Faults)
    ensures Handle(id, upload, extraction, faults).1 != [] ==>
      Handle(id, upload, extraction, faults).1[0] == StatusWrite(id, Processing, None)
    ensures Handle(id, upload, extraction, faults).0.code == 200 <==>
      !faults.bodyError && Truthy(id) && !faults.lookupThrows && upload.Some? && upload.value.status != Processing &&
      !faults.markProcessingThrows && extraction.Ok? && faults.saveError.None? && faults.completedError.None?
    ensures Handle(id, upload, extraction, faults).0.code == 200 ==>
      Handle(id, upload, extraction, faults).1 == [StatusWrite(id, Processing, None),
        TicketWrite(TicketExtractor.Flatten(extraction.value, id)), StatusWrite(id, Completed, None)]
  {
  }

  /**
   * Where the row ends up: completed after a success, failed with the thrown message after
   * a failure, and still processing when the failed mark itself throws.
   */
  lemma {:induction false} FinalStatus(id: Value, u: Upload, extraction: Result<TicketExtractor.Extracted, string>, faults: Faults)
    requires !faults.bodyError && Truthy(id) && !faults.lookupThrows && u.status != Processing && !faults.markProcessingThrows
    ensures var (resp, ws) := Handle(id, Some(u), extraction, faults);
      var (failure, _) := Attempted(id, extraction, faults);
      var r := Replay(u, ws);
      (resp.code == 200 ==> r.status == Completed && r.errorMessage == None) &&
      (resp.code != 200 && !faults.markFailedThrows ==>
         r.status == Failed && r.errorMessage == failure && resp.error == Some("Extraction failed: " + failure.value)) &&
      (resp.code != 200 && faults.markFailedThrows ==> r.status == Processing && resp == Crashed) &&
      Stamped(r)
  {
    var (resp, ws) := Handle(id, Some(u), extraction, faults);
    var (failure, done) := Attempted(id, extraction, faults);
    var start := [StatusWrite(id, Processing, None)];
    ReplayStep(u, [], start[0]);
    assert [] + start == start;
    var p := Replay(u, start);
    assert p.status == Processing;
    if extraction.Ok? && faults.saveError.None? {
      var row := TicketExtractor.Flatten(extraction.value, id);
      ReplayStep(u, start, TicketWrite(row));
      assert Replay(u, start + [TicketWrite(row)]) == p;
      if faults.completedError.None? {
        assert start + done == start + [TicketWrite(row)] + [StatusWrite(id, Completed, None)];
        ReplayStep(u, start + [TicketWrite(row)], StatusWrite(id, Completed, None));
      } else if !faults.markFailedThrows {
        assert ws == start + [TicketWrite(row)] + [StatusWrite(id, Failed, failure)];
        ReplayStep(u, start + [TicketWrite(row)], StatusWrite(id, Failed, failure));
      }
    } else {
      assert done == [] && start + done == start;
      if !faults.markFailedThrows {
        ReplayStep(u, start, StatusWrite(id, Failed, failure));
      }
    }
  }

  /** Some write in the log upserted a ticket row for upload `id`. */
  ghost predicate Saved(log: seq<Write>, id: Value) {
    exists i :: 0 <= i < |log| && log[i].TicketWrite? && Get(log[i].row, "upload_id") == id
  }

  /**
   * Ids are the serial numbers handed out so far; every row's `processed_at` agrees with its
   * status; and every completed upload has had its ticket upserted.
   */
  ghost predicate TableInvariant(uploads: map<Value, Upload>, log: seq<Write>, nextId: nat) {
    nextId >= 1 &&
    (forall id :: id in uploads ==> id.Num? && 1.0 <= id.n < nextId as real && Stamped(uploads[id])) &&
    (forall id :: id in uploads && uploads[id].status == Completed ==> Saved(log, id))
  }

  /**
   * After the writes of `Proceed` the row is stamped consistently, and it is completed only if
   * those writes upserted its ticket.
   */
  lemma ProceedLeavesRow(id: Value, u: Upload, extraction: Result<TicketExtractor.Extracted, string>, faults: Faults)
    requires Truthy(id)
    ensures var ws := Proceed(id, extraction, faults).1;
      Stamped(Replay(u, ws)) && (Replay(u, ws).status == Completed ==> Saved(ws, id))
  {
    var ws := Proceed(id, extraction, faults).1;
    var start := [StatusWrite(id, Processing, None)];
    var (failure, done) := Attempted(id, extraction, faults);
    ReplayStep(u, [], start[0]);
    assert [] + start == start;
    if failure.None? {
      AttemptSaves(id, extraction, faults);
      assert ws == start + [done[0]] + [done[1]];
      assert ws[1] == done[0];
      ReplayStep(u, start + [done[0]], done[1]);
    } else if faults.markFailedThrows {
      if done != [] {
        assert ws == start + [done[0]];
        ReplayStep(u, start, done[0]);
      } else {
        assert ws == start;
      }
    } else {
      ReplayStep(u, start + done, StatusWrite(id, Failed, failure));
    }
  }

  /** A ticket upserted by the new writes is in the log. */
  lemma SavedAfter(log: seq<Write>, more: seq<Write>, id: Value)
    requires Saved(more, id)
    ensures Saved(log + more, id)
  {
    var i :| 0 <= i < |more| && more[i].TicketWrite? && Get(more[i].row, "upload_id") == id;
    assert (log + more)[|log| + i] == more[i];
  }

  /** The writes of `Proceed` on an existing row keep the table invariant. */
  lemma ProceedKeepsInvariant(uploads: map<Value, Upload>, log: seq<Write>, nextId: nat, id: Value,
                              extraction: Result<TicketExtractor.Extracted, string>, faults: Faults)
    requires TableInvariant(uploads, log, nextId) && Truthy(id) && id in uploads
    ensures var ws := Proceed(id, extraction, faults).1;
      TableInvariant(uploads[id := Replay(uploads[id], ws)], log + ws, nextId)
  {
    var ws := Proceed(id, extraction, faults).1;
    var after := uploads[id := Replay(uploads[id], ws)];
    ProceedLeavesRow(id, uploads[id], extraction, faults);
    forall x | x in after && after[x].status == Completed
      ensures Saved(log + ws, x)
    {
      if x == id {
        SavedAfter(log, ws, id);
      } else {
        SavedGrows(log, ws, x);
      }
    }
  }

  /** The upload table and the log of writes sent to the database. */
  class UploadStore {
    var uploads: map<Value, Upload>
    var log: seq<Write>
    var nextId: nat

    /** The table invariant, of the current table and log. */
    ghost predicate Valid()
      reads this
    {
      TableInvariant(uploads, log, nextId)
    }

    constructor()
      ensures Valid() && uploads == map[] && log == [] && nextId == 1
    {
      uploads, log, nextId := map[], [], 1;
    }

    /** `createUploadRecord`: a new row under a fresh serial id, pending and not yet processed. */
    method CreateUpload(fileUrl: string) returns (id: Value)
      requires Valid()
      modifies this
      ensures Valid() && Truthy(id) && id !in old(uploads)
      ensures uploads == old(uploads)[id := Upload(fileUrl, Pending, None, NullTimestamp)]
      ensures log == old(log)
    {
      id := Num(nextId as real);
      uploads := uploads[id := Upload(fileUrl, Pending, None, NullTimestamp)];
      nextId := nextId + 1;
    }

    /** `updateUploadStatus` on an existing row. */
    method SetStatus(id: Value, status: UploadStatus, errorMessage: Option<string>)
      requires id in uploads
      modifies this
      ensures uploads == old(uploads)[id := ApplyStatus(old(uploads)[id], id, status, errorMessage)]
      ensures log == old(log) + [StatusWrite(id, status, errorMessage)] && nextId == old(nextId)
    {
      uploads := uploads[id := ApplyStatus(uploads[id], id, status, errorMessage)];
      log := log + [StatusWrite(id, status, errorMessage)];
    }

    /** `createTicket` with a flattened ticket row. */
    method SaveTicket(row: map<string, Value>)
      modifies this
      ensures log == old(log) + [TicketWrite(row)]
      ensures uploads == old(uploads) && nextId == old(nextId)
    {
      log := log + [TicketWrite(row)];
    }

    /** The inner `try` of `POST`, for an upload already marked processing. */
    method Attempt(id: Value, extraction: Result<TicketExtractor.Extracted, string>, faults: Faults)
      returns (failure: Option<string>)
      requires id in uploads
      modifies this
      ensures failure == Attempted(id, extraction, faults).0
      ensures log == old(log) + Attempted(id, extraction, faults).1
      ensures id in uploads && uploads == old(uploads)[id := Replay(old(uploads)[id], Attempted(id, extraction, faults).1)]
      ensures nextId == old(nextId)
    {
      ghost var u := uploads[id];
      if extraction.Err? {
        return Some(extraction.error);
      }
      if faults.saveError.Some? {
        return faults.saveError;
      }
      var row := TicketExtractor.Flatten(extraction.value, id);
      SaveTicket(row);
      ReplayStep(u, [], TicketWrite(row));
      if faults.completedError.Some? {
        return faults.completedError;
      }
      SetStatus(id, Completed, None);
      ReplayStep(u, [TicketWrite(row)], StatusWrite(id, Completed, None));
      failure := None;
    }

    /**
     * `POST /api/ops-inventory/process`: the response and the writes are those of `Handle` for
     * the row as it stood, the row ends as the writes leave it, and the table invariant holds.
     */
    method Process(id: Value, extraction: Result<TicketExtractor.Extracted, string>, faults: Faults)
      returns (resp: Response)
      requires Valid()
      modifies this
      ensures Valid()
      ensures var upload := if id in old(uploads) then Some(old(uploads)[id]) else None;
        resp == Handle(id, upload, extraction, faults).0 &&
        log == old(log) + Handle(id, upload, extraction, faults).1
      ensures id in old(uploads) ==>
        uploads == old(uploads)[id := Replay(old(uploads)[id], Handle(id, Some(old(uploads)[id]), extraction, faults).1)]
      ensures id !in old(uploads) ==> uploads == old(uploads)
      ensures nextId == old(nextId)
    {
      if faults.bodyError {
        return Crashed;
      }
      if !Truthy(id) {
        return MissingId;
      }
      if faults.lookupThrows {
        return Crashed;
      }
      if id !in uploads {
        return NotFound;
      }
      if uploads[id].status == Processing {
        return Busy;
      }
      if faults.markProcessingThrows {
        return Crashed;
      }
      resp := Run(id, extraction, faults);
    }

    /** Everything `POST` does once the guards have passed. */
    method Run(id: Value, extraction: Result<TicketExtractor.Extracted, string>, faults: Faults)
      returns (resp: Response)
      requires Valid() && Truthy(id) && id in uploads
      modifies this
      ensures Valid()
      ensures resp == Proceed(id, extraction, faults).0 && log == old(log) + Proceed(id, extraction, faults).1
      ensures uploads == old(uploads)[id := Replay(old(uploads)[id], Proceed(id, extraction, faults).1)]
      ensures nextId == old(nextId)
    {
      ghost var u, uploads0, log0 := uploads[id], uploads, log;
      SetStatus(id, Processing, None);
      ghost var start := [StatusWrite(id, Processing, None)];
      ReplayStep(u, [], start[0]);
      assert [] + start == start;
      var failure := Attempt(id, extraction, faults);
      ghost var done := Attempted(id, extraction, faults).1;
      ReplayAppend(u, start, done);
      ConcatAssoc(log0, start, done);
      UpdateTwice(uploads0, id, Replay(u, start), Replay(u, start + done));
      ghost var ws := start + done;
      if failure.None? {
        resp := Response(200, None);
      } else if faults.markFailedThrows {
        resp := Crashed;
      } else {
        var w := StatusWrite(id, Failed, failure);
        SetStatus(id, w.status, w.errorMessage);
        ReplayStep(u, ws, w);
        ConcatAssoc(log0, ws, [w]);
        UpdateTwice(uploads0, id, Replay(u, ws), Replay(u, ws + [w]));
        ws := ws + [w];
        resp := Response(500, Some("Extraction failed: " + failure.value));
      }
      assert ws == Proceed(id, extraction, faults).1;
      ProceedKeepsInvariant(uploads0, log0, nextId, id, extraction, faults);
    }
  }

  lemma UpdateTwice(m: map<Value, Upload>, k: Value, a: Upload, b: Upload)
    ensures m[k := a][k := b] == m[k := b]
  {
  }

  lemma ConcatAssoc(a: seq<Write>, b: seq<Write>, c: seq<Write>)
    ensures (a + b) + c == a + (b + c)
  {
  }

  /** A ticket once upserted stays in the log. */
  lemma SavedGrows(log: seq<Write>, more: seq<Write>, id: Value)
    requires Saved(log, id)
    ensures Saved(log + more, id)
  {
    var i :| 0 <= i < |log| && log[i].TicketWrite? && Get(log[i].row, "upload_id") == id;
    assert (log + more)[i] == log[i];
  }

  lemma {:induction false} ReplayAppend(u: Upload, a: seq<Write>, b: seq<Write>)
    ensures Replay(Replay(u, a), b) == Replay(u, a + b)
    decreases |b|
  {
    if b == [] {
      assert a + b == a;
    } else {
      var b' := b[..|b| - 1];
      ReplayAppend(u, a, b');
      assert (a + b)[..|a + b| - 1] == a + b';
    }
  }

  /** A successful attempt upserted the flattened ticket, whose `upload_id` is the upload's id. */
  lemma AttemptSaves(id: Value, extraction: Result<TicketExtractor.Extracted, string>, faults: Faults)
    requires Truthy(id) && Attempted(id, extraction, faults).0.None?
    ensures |Attempted(id, extraction, faults).1| == 2
    ensures Attempted(id, extraction, faults).1[0].TicketWrite?
    ensures Get(Attempted(id, extraction, faults).1[0].row, "upload_id") == id
  {
    TicketExtractor.FlattenFixedColumns(extraction.value, id);
  }
}
