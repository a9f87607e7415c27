/** The exporter dashboard: status normalisation of the fetched batches and the
    four summary counts. */
module ExporterDashboard {
  import opened Common
  import opened Records

  /** A batch as the page holds it: its status (possibly missing) and the other
      keys, carried unchanged. */
  datatype Card = Card(id: nat, status: Option<string>, details: map<string, string>)

  const Synonyms: set<string> :=
    {InspectionPending, "pending", "under_review", InspectionCompleted, "completed",
     Certified, "approved", Rejected, "failed"}

  /** The status values the backend writes for a batch. */
  const StoredValues: set<string> := {Submitted, InspectionPending, InspectionCompleted, Certified, Rejected}

  /** The branch chain on the trimmed, lower-cased text: each synonym group maps
      onto its stored value (and only that group does), the empty text is
      `submitted`, and any other text is kept. */
  function Canonical(raw: string): (r: string)
    ensures r != ""
    ensures raw in {InspectionPending, "pending", "under_review"} <==> r == InspectionPending
    ensures raw in {InspectionCompleted, "completed"} <==> r == InspectionCompleted
    ensures raw in {Certified, "approved"} <==> r == Certified
    ensures raw in {Rejected, "failed"} <==> r == Rejected
    ensures raw in {"", Submitted} <==> r == Submitted
    ensures raw !in Synonyms && raw != "" ==> r == raw
    ensures r == raw || r in StoredValues
  {
    if raw == InspectionPending || raw == "pending" || raw == "under_review" then InspectionPending
    else if raw == InspectionCompleted || raw == "completed" then InspectionCompleted
    else if raw == Certified || raw == "approved" then Certified
    else if raw == Rejected || raw == "failed" then Rejected
    else if raw != "" then raw
    else Submitted
  }

  /** `(status || '').toString().trim().toLowerCase()`, then the branch chain. */
  function NormalizeStatus(status: Option<string>): (r: string)
    ensures r != ""
    ensures !TruthyStr(status) ==> r == Submitted
  {
    Canonical(Lower(Trim(status.GetOr(""))))
  }

  /** Only the surrounding whitespace and the letter case of a status matter. */
  lemma NormalizeIgnoresCaseAndSpace(status: string)
    ensures NormalizeStatus(Some(status)) == NormalizeStatus(Some(Lower(Trim(status))))
  {
    NormalText(status);
  }

  /** Each stored status value normalises to itself. */
  lemma StoredValueFixed(s: string)
    requires s in StoredValues
    ensures NormalizeStatus(Some(s)) == s
  {
    StoredValueWords(s);
    WordText(s);
    CanonicalStored(s);
  }

  lemma CanonicalStored(s: string)
    requires s in StoredValues
    ensures Canonical(s) == s
  {
    if s == Submitted {
      assert s in {"", Submitted};
    }
  }

  lemma StoredValueWords(s: string)
    requires s in StoredValues
    ensures s != [] && forall i :: 0 <= i < |s| ==> IsWordChar(s[i])
  {
    forall i | 0 <= i < |s| ensures IsWordChar(s[i]) {
      var c := s[i];
      assert c in s;
      if s == Submitted { SubmittedLetters(c); }
      else if s == InspectionPending { InspectionPendingLetters(c); }
      else if s == InspectionCompleted { InspectionCompletedLetters(c); }
      else if s == Certified { CertifiedLetters(c); }
      else { RejectedLetters(c); }
    }
  }

  /** Normalising a normalised status changes nothing: a stored value is kept,
      and any other result is already trimmed and lower-cased. */
  lemma NormalizeIdempotent(status: Option<string>)
    ensures NormalizeStatus(Some(NormalizeStatus(status))) == NormalizeStatus(status)
  {
    var raw := Lower(Trim(status.GetOr("")));
    var r := Canonical(raw);
    if r == raw {
      NormalText(status.GetOr(""));
    } else {
      StoredValueFixed(r);
    }
  }

  // Each stored value is written in lower-case letters and underscores.

  lemma SubmittedLetters(c: char)
    requires c in Submitted
    ensures IsWordChar(c)
  {
  }

  lemma InspectionPendingLetters(c: char)
    requires c in InspectionPending
    ensures IsWordChar(c)
  {
  }

  lemma InspectionCompletedLetters(c: char)
    requires c in InspectionCompleted
    ensures IsWordChar(c)
  {
  }

  lemma CertifiedLetters(c: char)
    requires c in Certified
    ensures IsWordChar(c)
  {
  }

  lemma RejectedLetters(c: char)
    requires c in Rejected
    ensures IsWordChar(c)
  {
  }

  /** `batchList.map(b => ({ ...b, status: normalizeStatus(b.status) }))`. */
  function Normalized(list: seq<Card>): (r: seq<Card>)
    ensures |r| == |list|
    ensures forall i :: 0 <= i < |list| ==> r[i] == list[i].(status := Some(NormalizeStatus(list[i].status)))
  {
    seq(|list|, i requires 0 <= i < |list| => list[i].(status := Some(NormalizeStatus(list[i].status))))
  }

  datatype Stats = Stats(total: nat, pending: nat, certified: nat, rejected: nat)

  predicate IsPending(c: Card) {
    c.status == Some(InspectionPending) || c.status == Some(Submitted)
  }

  predicate IsCertified(c: Card) {
    c.status == Some(Certified)
  }

  predicate IsRejected(c: Card) {
    c.status == Some(Rejected)
  }

  /** The counts over the normalised list: pending counts `submitted` and
      `inspection_pending`, the others their one value; the three groups are
      disjoint, so they never add up to more than the total. */
  function StatsOf(normalized: seq<Card>): (st: Stats)
    ensures st.total == |normalized|
    ensures st.pending == Count(normalized, IsPending)
    ensures st.certified == Count(normalized, IsCertified)
    ensures st.rejected == Count(normalized, IsRejected)
    ensures st.pending + st.certified + st.rejected <= st.total
  {
    CountDisjoint(normalized, IsPending, IsCertified, IsRejected);
    Stats(|normalized|, Count(normalized, IsPending), Count(normalized, IsCertified), Count(normalized, IsRejected))
  }

  /** One more card raises the total by one and exactly the count of its own
      group. */
  lemma StatsAppend(list: seq<Card>, c: Card)
    ensures var before, after := StatsOf(list), StatsOf(list + [c]);
      && after.total == before.total + 1
      && after.pending == before.pending + (if IsPending(c) then 1 else 0)
      && after.certified == before.certified + (if IsCertified(c) then 1 else 0)
      && after.rejected == before.rejected + (if IsRejected(c) then 1 else 0)
  {
    CountAppend(list, c, IsPending);
    CountAppend(list, c, IsCertified);
    CountAppend(list, c, IsRejected);
  }

  /** Normalising twice gives the same list as normalising once. */
  lemma NormalizedIdempotent(list: seq<Card>)
    ensures Normalized(Normalized(list)) == Normalized(list)
  {
    forall i | 0 <= i < |list| {
      NormalizeIdempotent(list[i].status);
    }
  }

  class DashboardPage {
    var batches: seq<Card>
    var stats: Stats

    constructor ()
      ensures batches == [] && stats == Stats(0, 0, 0, 0)
    {
      batches, stats := [], Stats(0, 0, 0, 0);
    }

    /** calculateStats: stores the normalised list and its counts. */
    method CalculateStats(batchList: seq<Card>)
      modifies this
      ensures batches == Normalized(batchList)
      ensures stats == StatsOf(batches)
    {
      var normalized := Normalized(batchList);
      stats := StatsOf(normalized);
      batches := normalized;
    }
  }
}
