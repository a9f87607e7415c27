/** The maintenance script that completes every scheduled inspection in one
    bulk UPDATE and reports how many rows it changed. */
module CompleteInspections {
  import opened Common
  import opened Records
  import opened Store

  /** The ids the UPDATE's WHERE clause selects. */
  function ScheduledIds(inspections: map<nat, Inspection>): (ids: set<nat>)
    ensures ids <= inspections.Keys
    ensures forall k :: k in ids <==> k in inspections && inspections[k].status == Scheduled
  {
    set k | k in inspections && inspections[k].status == Scheduled
  }

  function CompleteIfScheduled(i: Inspection, now: int): Inspection {
    if i.status == Scheduled then i.(status := Completed, completedAt := Some(now)) else i
  }

  /** The table after `SET status = 'completed', completed_at = now WHERE status
      = 'scheduled'`: scheduled rows are completed, all others are kept. */
  function CompleteAll(inspections: map<nat, Inspection>, now: int): (r: map<nat, Inspection>)
    ensures r.Keys == inspections.Keys
    ensures forall k :: k in inspections && inspections[k].status == Scheduled ==>
      r[k] == inspections[k].(status := Completed, completedAt := Some(now))
    ensures forall k :: k in inspections && inspections[k].status != Scheduled ==> r[k] == inspections[k]
  {
    map k | k in inspections :: CompleteIfScheduled(inspections[k], now)
  }

  /** Completes the scheduled inspections and returns the row count; no other
      table is written. */
  method CompleteAllScheduledInspections(db: Database, now: int) returns (rowCount: nat)
    requires db.Valid()
    modifies db
    ensures db.Valid()
    ensures db.inspections == CompleteAll(old(db.inspections), now)
    ensures rowCount == |ScheduledIds(old(db.inspections))|
    ensures db.batches == old(db.batches) && db.credentials == old(db.credentials)
    ensures db.nextInspectionId == old(db.nextInspectionId)
  {
    rowCount := |ScheduledIds(db.inspections)|;
    db.inspections := CompleteAll(db.inspections, now);
  }

  /** After the script no inspection is left scheduled. */
  lemma NoneLeftScheduled(inspections: map<nat, Inspection>, now: int)
    ensures ScheduledIds(CompleteAll(inspections, now)) == {}
  {
  }

  /** Running the script a second time changes nothing and reports 0 rows. */
  lemma CompleteIdempotent(inspections: map<nat, Inspection>, now: int, later: int)
    ensures CompleteAll(CompleteAll(inspections, now), later) == CompleteAll(inspections, now)
    ensures |ScheduledIds(CompleteAll(inspections, now))| == 0
  {
    NoneLeftScheduled(inspections, now);
  }
}
