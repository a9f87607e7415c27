/** The QA agency dashboard: the three summary counts, the recent-inspections
    slice and the scheduling handler. */
module QaDashboard {
  import opened Common
  import opened Records

  /** An inspection as the page holds it. */
  datatype InspectionCard = InspectionCard(id: nat, batchId: nat, status: Option<string>)

  datatype QaStats = QaStats(total: nat, completed: nat, pending: nat)

  predicate IsCompleted(i: InspectionCard) {
    i.status == Some(Completed)
  }

  predicate IsOpen(i: InspectionCard) {
    i.status != Some(Completed)
  }

  /** Total, completed and pending: every inspection is counted as exactly one
      of completed or pending. */
  function StatsOf(inspections: seq<InspectionCard>): (st: QaStats)
    ensures st.total == |inspections|
    ensures st.completed == Count(inspections, IsCompleted)
    ensures st.pending == Count(inspections, IsOpen)
    ensures st.completed + st.pending == st.total
  {
    CountComplement(inspections, IsCompleted, IsOpen);
    QaStats(|inspections|, Count(inspections, IsCompleted), Count(inspections, IsOpen))
  }

  /** One more inspection raises the total by one, and the completed count
      exactly when its status is `completed`, the pending count otherwise. */
  lemma StatsAppend(inspections: seq<InspectionCard>, i: InspectionCard)
    ensures var before, after := StatsOf(inspections), StatsOf(inspections + [i]);
      && after.total == before.total + 1
      && after.completed == before.completed + (if i.status == Some(Completed) then 1 else 0)
      && after.pending == before.pending + (if i.status == Some(Completed) then 0 else 1)
  {
    CountAppend(inspections, i, IsCompleted);
    CountAppend(inspections, i, IsOpen);
  }

  /** No inspection completed means every inspection is pending. */
  lemma {:induction false} NoneCompletedAllPending(inspections: seq<InspectionCard>)
    requires forall k :: 0 <= k < |inspections| ==> !IsCompleted(inspections[k])
    ensures StatsOf(inspections).pending == |inspections|
    ensures StatsOf(inspections).completed == 0
  {
    if inspections != [] {
      NoneCompletedAllPending(inspections[..|inspections| - 1]);
    }
  }

  /** `inspections.slice(0, 10)`: the first ten, or all of them when there are
      fewer, in their original order. */
  function Recent(inspections: seq<InspectionCard>): (r: seq<InspectionCard>)
    ensures |r| == if |inspections| < 10 then |inspections| else 10
    ensures forall k :: 0 <= k < |r| ==> r[k] == inspections[k]
  {
    if |inspections| < 10 then inspections else inspections[..10]
  }

  /** The body sent to create an inspection. */
  datatype ScheduleRequest = ScheduleRequest(batchId: nat, qaAgencyId: nat, scheduledDate: string)

  /** How the create-and-reload calls ended: with the reloaded inspections, or
      with the error text of the failed reply, if it had one. */
  datatype ScheduleOutcome = Scheduled(reloaded: seq<InspectionCard>) | ScheduleFailed(serverError: Option<string>)

  const MissingUser := "Missing QA user context"
  const ScheduleFallback := "Failed to schedule inspection"

  class DashboardPage {
    var inspections: seq<InspectionCard>
    var schedulingId: Option<nat>
    var error: string
    /** The create-inspection requests the page has sent, oldest first. */
    var requests: seq<ScheduleRequest>

    constructor ()
      ensures inspections == [] && schedulingId == None && error == "" && requests == []
    {
      inspections, schedulingId, error, requests := [], None, "", [];
    }

    /** Without a signed-in user id the handler only reports the error and sends
        nothing; otherwise it sends one request for today and, on failure,
        reports the reply's error or the fallback text. */
    method HandleScheduleInspection(batchId: nat, userId: Option<nat>, today: string, outcome: ScheduleOutcome)
      modifies this
      ensures !TruthyId(userId) ==>
        error == MissingUser && requests == old(requests) &&
        inspections == old(inspections) && schedulingId == old(schedulingId)
      ensures TruthyId(userId) ==>
        && requests == old(requests) + [ScheduleRequest(batchId, userId.value, today)]
        && schedulingId == None
        && (outcome.Scheduled? ==> error == "" && inspections == outcome.reloaded)
        && (outcome.ScheduleFailed? ==>
              error == FirstText([outcome.serverError], ScheduleFallback) && inspections == old(inspections))
    {
      if !TruthyId(userId) {
        error := MissingUser;
        return;
      }
      schedulingId := Some(batchId);
      error := "";
      requests := requests + [ScheduleRequest(batchId, userId.value, today)];
      match outcome {
        case Scheduled(reloaded) =>
          inspections := reloaded;
        case ScheduleFailed(serverError) =>
          error := FirstText([serverError], ScheduleFallback);
      }
      schedulingId := None;
    }
  }
}
