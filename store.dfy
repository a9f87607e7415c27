/** The database the controllers share: three tables keyed by their serial id,
    and the next value of each id sequence. */
module Store {
  import opened Records
  import opened Credential

  /** No two credential rows belong to the same inspection. */
  ghost predicate OneCredentialPerInspection(credentials: map<nat, CredentialRow>) {
    forall a, b ::
      a in credentials && b in credentials && credentials[a].inspectionId == credentials[b].inspectionId
      ==> a == b
  }

  class Database {
    var batches: map<nat, Batch>
    var inspections: map<nat, Inspection>
    var credentials: map<nat, CredentialRow>
    var nextBatchId: nat
    var nextInspectionId: nat
    var nextCredentialId: nat

    /** Every row is stored under its own id, ids are positive and below the
        next value of their sequence, and each inspection has at most one
        credential. */
    ghost predicate Valid()
      reads this
    {
      && (forall k :: k in batches ==> 0 < k < nextBatchId && batches[k].id == k)
      && (forall k :: k in inspections ==> 0 < k < nextInspectionId && inspections[k].id == k)
      && (forall k :: k in credentials ==> 0 < k < nextCredentialId && credentials[k].id == k)
      && 0 < nextBatchId && 0 < nextInspectionId && 0 < nextCredentialId
      && OneCredentialPerInspection(credentials)
    }

    constructor ()
      ensures Valid()
      ensures batches == map[] && inspections == map[] && credentials == map[]
    {
      batches, inspections, credentials := map[], map[], map[];
      nextBatchId, nextInspectionId, nextCredentialId := 1, 1, 1;
    }

    /** Draws the next batch id from its sequence. */
    method NewBatchId() returns (id: nat)
      requires Valid()
      modifies this
      ensures Valid() && id == old(nextBatchId) && 0 < id < nextBatchId && id !in batches
      ensures nextInspectionId == old(nextInspectionId) && nextCredentialId == old(nextCredentialId)
      ensures batches == old(batches) && inspections == old(inspections) && credentials == old(credentials)
    {
      id := nextBatchId;
      nextBatchId := nextBatchId + 1;
    }

    method NewInspectionId() returns (id: nat)
      requires Valid()
      modifies this
      ensures Valid() && id == old(nextInspectionId) && 0 < id < nextInspectionId && id !in inspections
      ensures nextBatchId == old(nextBatchId) && nextCredentialId == old(nextCredentialId)
      ensures batches == old(batches) && inspections == old(inspections) && credentials == old(credentials)
    {
      id := nextInspectionId;
      nextInspectionId := nextInspectionId + 1;
    }

    method NewCredentialId() returns (id: nat)
      requires Valid()
      modifies this
      ensures Valid() && id == old(nextCredentialId) && 0 < id < nextCredentialId && id !in credentials
      ensures nextBatchId == old(nextBatchId) && nextInspectionId == old(nextInspectionId)
      ensures batches == old(batches) && inspections == old(inspections) && credentials == old(credentials)
    {
      id := nextCredentialId;
      nextCredentialId := nextCredentialId + 1;
    }
  }
}
