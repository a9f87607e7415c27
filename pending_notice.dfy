/** The "still pending" classification both importer pages apply to a failed
    verification's message. */
module PendingNotice {
  import opened Common
  import opened Credential

  /** The lower-cased message mentions `pending`, `not issued`, `waiting` or
      `inspection`. */
  predicate LooksPending(msg: string) {
    var lowered := Lower(msg);
    Contains(lowered, "pending") || Contains(lowered, "not issued") ||
    Contains(lowered, "waiting") || Contains(lowered, "inspection")
  }

  /** The classification ignores letter case. */
  lemma PendingIgnoresCase(msg: string)
    ensures LooksPending(Lower(msg)) == LooksPending(msg)
  {
    LowerIdempotent(msg);
  }

  /** Absent letters rule each keyword out: a letter of the keyword that the
      lower-cased message does not contain. */
  lemma NotPendingBy(msg: string, p: char, n: char, w: char, i: char)
    requires p in "pending" && p !in Lower(msg)
    requires n in "not issued" && n !in Lower(msg)
    requires w in "waiting" && w !in Lower(msg)
    requires i in "inspection" && i !in Lower(msg)
    ensures !LooksPending(msg)
  {
    AbsentChar(Lower(msg), "pending", p);
    AbsentChar(Lower(msg), "not issued", n);
    AbsentChar(Lower(msg), "waiting", w);
    AbsentChar(Lower(msg), "inspection", i);
  }

  lemma MissingIdLacks(c: char)
    requires c in "go"
    ensures c !in Lower(FailureMessage(MissingId))
  {
    LowerMissing(FailureMessage(MissingId), c);
  }

  lemma NotFoundLacks(c: char)
    requires c in "gs"
    ensures c !in Lower(FailureMessage(NotFound))
  {
    LowerMissing(FailureMessage(NotFound), c);
  }

  lemma NotIssuedLacks(c: char)
    requires c in "gp"
    ensures c !in Lower(FailureMessage(NotIssued))
  {
    LowerMissing(FailureMessage(NotIssued), c);
  }

  /** "Credential is not in an issuable state" has no `ue`, so it never contains
      `not issued`. */
  lemma NotIssuedLacksPair()
    ensures !Contains(Lower(FailureMessage(NotIssued)), "not issued")
  {
    var m := FailureMessage(NotIssued);
    forall i | 0 <= i < |Lower(m)| - 1 ensures !(Lower(m)[i] == 'u' && Lower(m)[i + 1] == 'e') {
      assert !(LowerChar(m[i]) == 'u' && LowerChar(m[i + 1]) == 'e');
    }
    AbsentPair(Lower(m), "not issued", 7);
  }

  lemma BatchNotCertifiedLacks(c: char)
    requires c in "gpu"
    ensures c !in Lower(FailureMessage(BatchNotCertified))
  {
    LowerMissing(FailureMessage(BatchNotCertified), c);
  }

  lemma ExpiredLacks(c: char)
    requires c in "go"
    ensures c !in Lower(FailureMessage(Expired))
  {
    LowerMissing(FailureMessage(Expired), c);
  }

  lemma IntegrityFailedLacks(c: char)
    requires c in "opw"
    ensures c !in Lower(FailureMessage(IntegrityFailed))
  {
    LowerMissing(FailureMessage(IntegrityFailed), c);
  }

  /** "Associated inspection is not completed" mentions `inspection`. */
  lemma InspectionNotCompletedPending()
    ensures LooksPending(FailureMessage(InspectionNotCompleted))
  {
    ContainsAt(Lower(FailureMessage(InspectionNotCompleted)), "inspection", 11);
  }

  /** Of the verifier's failure messages, only the one about an incomplete
      inspection reads as pending; every other failure is shown as an error. */
  lemma FailureClassification(f: Failure)
    ensures LooksPending(FailureMessage(f)) <==> f == InspectionNotCompleted
  {
    match f
    case MissingId =>
      MissingIdLacks('g'); MissingIdLacks('o');
      NotPendingBy(FailureMessage(f), 'g', 'o', 'g', 'o');
    case NotFound =>
      NotFoundLacks('g'); NotFoundLacks('s');
      NotPendingBy(FailureMessage(f), 'g', 's', 'g', 's');
    case NotIssued =>
      NotIssuedLacks('g'); NotIssuedLacks('p'); NotIssuedLacksPair();
      var low := Lower(FailureMessage(f));
      AbsentChar(low, "pending", 'g'); AbsentChar(low, "waiting", 'g'); AbsentChar(low, "inspection", 'p');
    case InspectionNotCompleted =>
      InspectionNotCompletedPending();
    case BatchNotCertified =>
      BatchNotCertifiedLacks('g'); BatchNotCertifiedLacks('p'); BatchNotCertifiedLacks('u');
      NotPendingBy(FailureMessage(f), 'g', 'u', 'g', 'p');
    case Expired =>
      ExpiredLacks('g'); ExpiredLacks('o');
      NotPendingBy(FailureMessage(f), 'g', 'o', 'g', 'o');
    case IntegrityFailed =>
      IntegrityFailedLacks('o'); IntegrityFailedLacks('p'); IntegrityFailedLacks('w');
      NotPendingBy(FailureMessage(f), 'p', 'o', 'w', 'o');
  }
}
