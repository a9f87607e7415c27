/** The batch handlers: create, list with filters, fetch, update and delete. */
module BatchController {
  import opened Common
  import opened Records
  import opened Listing
  import opened Store

  const DefaultUnit := "kg"

  /** A request body. `unit` is None when the key is absent, which is when the
      destructuring default applies. Quantities are the body's numeric values. */
  datatype BatchBody = BatchBody(
    productType: Option<string>,
    quantity: Option<int>,
    unit: Option<string>,
    location: Option<string>,
    destination: Option<string>,
    notes: Option<string>)

  /** productType, quantity, location and destination must all be truthy. */
  predicate HasRequiredFields(body: BatchBody) {
    TruthyStr(body.productType) && TruthyNumber(body.quantity) &&
    TruthyStr(body.location) && TruthyStr(body.destination)
  }

  /** `notes || null`. */
  function NotesOrNull(notes: Option<string>): (r: Option<string>)
    ensures r.None? <==> !TruthyStr(notes)
    ensures r.Some? ==> r == notes
  {
    if TruthyStr(notes) then notes else None
  }

  method CreateBatch(db: Database, body: BatchBody, exporterId: Option<nat>, now: int) returns (r: Reply<Batch>)
    requires db.Valid()
    modifies db
    ensures db.Valid()
    ensures !HasRequiredFields(body) ==> r == Fail(400, "Missing required fields") && unchanged(db)
    ensures HasRequiredFields(body) && !TruthyId(exporterId) ==> r == Fail(401, "User not authenticated") && unchanged(db)
    ensures HasRequiredFields(body) && TruthyId(exporterId) ==>
      && r.Ok? && r.code == 201
      && r.value.id !in old(db.batches)
      && r.value.fields == BatchFields(body.productType, body.quantity, body.unit.GetOr(DefaultUnit),
                                       body.location, body.destination, NotesOrNull(body.notes))
      && r.value.exporterId == exporterId.value && r.value.status == Submitted
      && r.value.createdAt == now && r.value.updatedAt.None?
      && db.batches == old(db.batches)[r.value.id := r.value]
      && db.inspections == old(db.inspections) && db.credentials == old(db.credentials)
  {
    if !HasRequiredFields(body) {
      return Fail(400, "Missing required fields");
    }
    if !TruthyId(exporterId) {
      return Fail(401, "User not authenticated");
    }
    var id := db.NewBatchId();
    var fields := BatchFields(body.productType, body.quantity, body.unit.GetOr(DefaultUnit),
                              body.location, body.destination, NotesOrNull(body.notes));
    var row := Batch(id, fields, exporterId.value, Submitted, now, None);
    db.batches := db.batches[id := row];
    r := Ok(201, row);
  }

  /** One `AND column = $n` condition of the listing query. */
  datatype BatchFilter = StatusIs(status: string) | ExporterIs(exporterId: nat)

  predicate BatchMatches(f: BatchFilter, b: Batch) {
    match f
    case StatusIs(s) => b.status == s
    case ExporterIs(e) => b.exporterId == e
  }

  predicate MatchesAll(filters: seq<BatchFilter>, b: Batch) {
    forall i :: 0 <= i < |filters| ==> BatchMatches(filters[i], b)
  }

  /** What the listing promises: a non-empty status query restricts the status,
      a present exporterId query restricts the exporter. */
  predicate Selected(b: Batch, status: Option<string>, exporterId: Option<nat>) {
    (TruthyStr(status) ==> b.status == status.value) &&
    (exporterId.Some? ==> b.exporterId == exporterId.value)
  }

  function CreatedAt(b: Batch): int {
    b.createdAt
  }

  /** `status` is None when the query parameter is absent; `exporterId` is None
      when it is absent or empty (a non-empty query string is truthy). */
  method GetBatches(db: Database, status: Option<string>, exporterId: Option<nat>) returns (rows: seq<Batch>)
    requires db.Valid()
    ensures forall b :: b in rows ==> b in db.batches.Values && Selected(b, status, exporterId)
    ensures forall k :: k in db.batches && Selected(db.batches[k], status, exporterId) ==> db.batches[k] in rows
    ensures NoDuplicates(rows) && SortedDesc(rows, CreatedAt)
  {
    var filters: seq<BatchFilter> := [];
    if TruthyStr(status) {
      filters := filters + [StatusIs(status.value)];
    }
    if exporterId.Some? {
      filters := filters + [ExporterIs(exporterId.value)];
    }
    assert forall b :: MatchesAll(filters, b) <==> Selected(b, status, exporterId) by {
      forall b ensures MatchesAll(filters, b) <==> Selected(b, status, exporterId) {
        if TruthyStr(status) { assert filters[0] == StatusIs(status.value); }
        if exporterId.Some? { assert filters[|filters| - 1] == ExporterIs(exporterId.value); }
      }
    }
    rows := Select(db.batches, b => MatchesAll(filters, b), CreatedAt);
  }

  method GetBatchById(db: Database, id: nat) returns (r: Reply<Batch>)
    ensures id in db.batches ==> r == Ok(200, db.batches[id])
    ensures id !in db.batches ==> r == Fail(404, "Batch not found")
  {
    if id !in db.batches {
      return Fail(404, "Batch not found");
    }
    r := Ok(200, db.batches[id]);
  }

  /** Overwrites the descriptive columns with the body's raw values (no
      validation, no `|| null`) and stamps updated_at; status, exporter and
      created_at are kept. */
  method UpdateBatch(db: Database, id: nat, body: BatchBody, now: int) returns (r: Reply<Batch>)
    requires db.Valid()
    modifies db
    ensures db.Valid()
    ensures id !in old(db.batches) ==> r == Fail(404, "Batch not found") && unchanged(db)
    ensures id in old(db.batches) ==>
      && r == Ok(200, old(db.batches)[id].(
                        fields := BatchFields(body.productType, body.quantity, body.unit.GetOr(DefaultUnit),
                                              body.location, body.destination, body.notes),
                        updatedAt := Some(now)))
      && db.batches == old(db.batches)[id := r.value]
      && db.inspections == old(db.inspections) && db.credentials == old(db.credentials)
      && db.nextBatchId == old(db.nextBatchId)
  {
    if id !in db.batches {
      return Fail(404, "Batch not found");
    }
    var fields := BatchFields(body.productType, body.quantity, body.unit.GetOr(DefaultUnit),
                              body.location, body.destination, body.notes);
    var row := db.batches[id].(fields := fields, updatedAt := Some(now));
    db.batches := db.batches[id := row];
    r := Ok(200, row);
  }

  /** Removes the row; inspections that referred to it are left in place. */
  method DeleteBatch(db: Database, id: nat) returns (r: Reply<string>)
    requires db.Valid()
    modifies db
    ensures db.Valid()
    ensures id !in old(db.batches) ==> r == Fail(404, "Batch not found") && unchanged(db)
    ensures id in old(db.batches) ==>
      && r == Ok(200, "Batch deleted successfully")
      && db.batches == old(db.batches) - {id}
      && db.inspections == old(db.inspections) && db.credentials == old(db.credentials)
      && db.nextBatchId == old(db.nextBatchId)
  {
    if id !in db.batches {
      return Fail(404, "Batch not found");
    }
    db.batches := db.batches - {id};
    r := Ok(200, "Batch deleted successfully");
  }

  // ---------------------------------------------------------------------------

  /** Quantity 0 is falsy, so it is rejected like a missing one; a negative
      quantity is truthy and passes. */
  lemma ZeroQuantityRejected(body: BatchBody)
    requires body.quantity == Some(0)
    ensures !HasRequiredFields(body)
  {
  }

  lemma NegativeQuantityAccepted(body: BatchBody)
    requires TruthyStr(body.productType) && TruthyStr(body.location) && TruthyStr(body.destination)
    requires body.quantity.Some? && body.quantity.value < 0
    ensures HasRequiredFields(body)
  {
  }
}
