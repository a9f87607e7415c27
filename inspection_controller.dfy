/** The inspection handlers: schedule, list with filters, record findings and
    complete. Each writes the inspection and, where the handler says so, the
    owning batch's status; neither write checks the prior status. */
module InspectionController {
  import opened Common
  import opened Records
  import opened Listing
  import opened Store

  /** `UPDATE batches SET status = s WHERE id = b`: no row changes when the batch
      does not exist. */
  function SetBatchStatus(batches: map<nat, Batch>, batchId: nat, status: string): (r: map<nat, Batch>)
    ensures r.Keys == batches.Keys
    ensures batchId in batches ==> r[batchId] == batches[batchId].(status := status)
    ensures forall k :: k in batches && k != batchId ==> r[k] == batches[k]
  {
    if batchId in batches then batches[batchId := batches[batchId].(status := status)] else batches
  }

  method CreateInspection(db: Database, batchId: Option<nat>, qaAgencyId: Option<nat>, scheduledDate: Option<string>, now: int)
    returns (r: Reply<Inspection>)
    requires db.Valid()
    modifies db
    ensures db.Valid()
    ensures !(TruthyId(batchId) && TruthyId(qaAgencyId) && TruthyStr(scheduledDate)) ==>
      r == Fail(400, "Missing required fields") && unchanged(db)
    ensures TruthyId(batchId) && TruthyId(qaAgencyId) && TruthyStr(scheduledDate) ==>
      && r.Ok? && r.code == 201
      && r.value.id !in old(db.inspections)
      && r.value == Inspection(r.value.id, batchId.value, qaAgencyId.value, scheduledDate.value,
                               Scheduled, NoFindings, now, None)
      && db.inspections == old(db.inspections)[r.value.id := r.value]
      && db.batches == SetBatchStatus(old(db.batches), batchId.value, InspectionPending)
      && db.credentials == old(db.credentials)
  {
    if !TruthyId(batchId) || !TruthyId(qaAgencyId) || !TruthyStr(scheduledDate) {
      return Fail(400, "Missing required fields");
    }
    db.batches := SetBatchStatus(db.batches, batchId.value, InspectionPending);
    var id := db.NewInspectionId();
    var row := Inspection(id, batchId.value, qaAgencyId.value, scheduledDate.value, Scheduled, NoFindings, now, None);
    db.inspections := db.inspections[id := row];
    r := Ok(201, row);
  }

  /** One `AND column = $n` condition of the listing query. */
  datatype InspectionFilter = BatchIs(batchId: nat) | AgencyIs(qaAgencyId: nat) | StatusIs(status: string)

  predicate InspectionMatches(f: InspectionFilter, i: Inspection) {
    match f
    case BatchIs(b) => i.batchId == b
    case AgencyIs(a) => i.qaAgencyId == a
    case StatusIs(s) => i.status == s
  }

  predicate MatchesAll(filters: seq<InspectionFilter>, i: Inspection) {
    forall n :: 0 <= n < |filters| ==> InspectionMatches(filters[n], i)
  }

  /** A present query parameter restricts its column; status only when
      non-empty. */
  predicate Selected(i: Inspection, batchId: Option<nat>, qaAgencyId: Option<nat>, status: Option<string>) {
    (batchId.Some? ==> i.batchId == batchId.value) &&
    (qaAgencyId.Some? ==> i.qaAgencyId == qaAgencyId.value) &&
    (TruthyStr(status) ==> i.status == status.value)
  }

  function CreatedAt(i: Inspection): int {
    i.createdAt
  }

  /** `batchId` and `qaAgencyId` are None when the query parameter is absent or
      empty, else its numeric value. */
  method GetInspections(db: Database, batchId: Option<nat>, qaAgencyId: Option<nat>, status: Option<string>)
    returns (rows: seq<Inspection>)
    requires db.Valid()
    ensures forall i :: i in rows ==> i in db.inspections.Values && Selected(i, batchId, qaAgencyId, status)
    ensures forall k :: k in db.inspections && Selected(db.inspections[k], batchId, qaAgencyId, status) ==>
      db.inspections[k] in rows
    ensures NoDuplicates(rows) && SortedDesc(rows, CreatedAt)
  {
    var filters: seq<InspectionFilter> := [];
    if batchId.Some? {
      filters := filters + [BatchIs(batchId.value)];
    }
    ghost var afterBatch := filters;
    if qaAgencyId.Some? {
      filters := filters + [AgencyIs(qaAgencyId.value)];
    }
    ghost var afterAgency := filters;
    if TruthyStr(status) {
      filters := filters + [StatusIs(status.value)];
    }
    assert forall i :: MatchesAll(filters, i) <==> Selected(i, batchId, qaAgencyId, status) by {
      forall i ensures MatchesAll(filters, i) <==> Selected(i, batchId, qaAgencyId, status) {
        if batchId.Some? { assert filters[0] == BatchIs(batchId.value); }
        if qaAgencyId.Some? { assert filters[|afterBatch|] == AgencyIs(qaAgencyId.value); }
        if TruthyStr(status) { assert filters[|afterAgency|] == StatusIs(status.value); }
      }
    }
    rows := Select(db.inspections, i => MatchesAll(filters, i), CreatedAt);
  }

  /** The findings fields of a request body; the measurements are the body's
      numeric values. */
  datatype FindingsBody = FindingsBody(
    moistureLevel: Option<int>,
    pesticideContent: Option<int>,
    organicStatus: Option<bool>,
    isoCodes: Option<string>,
    notes: Option<string>)

  /** `Number(x) || null`: a missing or zero measurement is stored as NULL. */
  function NumberOrNull(x: Option<int>): (r: Option<int>)
    ensures r.None? <==> !TruthyNumber(x)
    ensures r.Some? ==> r == x
  {
    if TruthyNumber(x) then x else None
  }

  function RecordedFindings(body: FindingsBody): Findings {
    Findings(NumberOrNull(body.moistureLevel), NumberOrNull(body.pesticideContent),
             body.organicStatus, body.isoCodes, body.notes)
  }

  /** Overwrites all five findings and forces the status to in_progress, from
      any prior status. */
  method UpdateInspection(db: Database, id: nat, body: FindingsBody) returns (r: Reply<Inspection>)
    requires db.Valid()
    modifies db
    ensures db.Valid()
    ensures id !in old(db.inspections) ==> r == Fail(404, "Inspection not found") && unchanged(db)
    ensures id in old(db.inspections) ==>
      && r == Ok(200, old(db.inspections)[id].(findings := RecordedFindings(body), status := InProgress))
      && db.inspections == old(db.inspections)[id := r.value]
      && db.batches == old(db.batches) && db.credentials == old(db.credentials)
      && db.nextInspectionId == old(db.nextInspectionId)
  {
    if id !in db.inspections {
      return Fail(404, "Inspection not found");
    }
    var row := db.inspections[id].(findings := RecordedFindings(body), status := InProgress);
    db.inspections := db.inspections[id := row];
    r := Ok(200, row);
  }

  /** Sets completed and completed_at from any prior status, then moves the
      owning batch to inspection_completed. */
  method CompleteInspection(db: Database, id: nat, now: int) returns (r: Reply<Inspection>)
    requires db.Valid()
    modifies db
    ensures db.Valid()
    ensures id !in old(db.inspections) ==> r == Fail(404, "Inspection not found") && unchanged(db)
    ensures id in old(db.inspections) ==>
      && r == Ok(200, old(db.inspections)[id].(status := Completed, completedAt := Some(now)))
      && db.inspections == old(db.inspections)[id := r.value]
      && db.batches == SetBatchStatus(old(db.batches), r.value.batchId, InspectionCompleted)
      && db.credentials == old(db.credentials)
      && db.nextInspectionId == old(db.nextInspectionId)
  {
    if id !in db.inspections {
      return Fail(404, "Inspection not found");
    }
    var row := db.inspections[id].(status := Completed, completedAt := Some(now));
    db.inspections := db.inspections[id := row];
    db.batches := SetBatchStatus(db.batches, row.batchId, InspectionCompleted);
    r := Ok(200, row);
  }

  // ---------------------------------------------------------------------------

  /** A zero measurement is indistinguishable from a missing one once stored. */
  lemma ZeroMeasurementStoredAsNull(body: FindingsBody)
    requires body.moistureLevel == Some(0) && body.pesticideContent.None?
    ensures RecordedFindings(body).moistureLevel == RecordedFindings(body).pesticideContent
  {
  }
}
