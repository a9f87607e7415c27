/** Rows of the three tables (batches, inspections, verifiable_credentials) and
    the status values the controllers write. Status columns are text, so a row
    altered outside the controllers can hold any string. */
module Records {
  import opened Common

  const Submitted := "submitted"
  const InspectionPending := "inspection_pending"
  const InspectionCompleted := "inspection_completed"
  const Certified := "certified"
  const Rejected := "rejected"

  const Scheduled := "scheduled"
  const InProgress := "in_progress"
  const Completed := "completed"

  const Issued := "issued"

  /** The descriptive columns of a batch; an optional one is NULL when the writer
      sent none. */
  datatype BatchFields = BatchFields(
    productType: Option<string>,
    quantity: Option<int>,
    unit: string,
    location: Option<string>,
    destination: Option<string>,
    notes: Option<string>)

  datatype Batch = Batch(
    id: nat,
    fields: BatchFields,
    exporterId: nat,
    status: string,
    createdAt: int,
    updatedAt: Option<int>)

  /** The quality findings an inspection records. */
  datatype Findings = Findings(
    moistureLevel: Option<int>,
    pesticideContent: Option<int>,
    organicStatus: Option<bool>,
    isoCodes: Option<string>,
    notes: Option<string>)

  const NoFindings := Findings(None, None, None, None, None)

  datatype Inspection = Inspection(
    id: nat,
    batchId: nat,
    qaAgencyId: nat,
    scheduledDate: string,
    status: string,
    findings: Findings,
    createdAt: int,
    completedAt: Option<int>)

  /** An HTTP reply: a status code with either a value or an error message. */
  datatype Reply<+T> = Ok(code: int, value: T) | Fail(code: int, error: string)
}
