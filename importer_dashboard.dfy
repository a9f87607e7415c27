/** The importer dashboard: verifying a typed credential id, the local
    verification history and the pending-or-error report of a failure. */
module ImporterDashboard {
  import opened Common
  import opened PendingNotice

  const HistoryLimit := 10

  /** One remembered verification. */
  datatype HistoryEntry = HistoryEntry(
    credentialId: nat,
    issuer: string,
    issuanceDate: int,
    productType: Option<string>,
    destination: Option<string>,
    timestamp: string)

  /** `prev.filter(h => h.credentialId !== id)`. */
  function WithoutId(hs: seq<HistoryEntry>, id: nat): (r: seq<HistoryEntry>)
    ensures |r| <= |hs|
    ensures forall h :: h in r <==> h in hs && h.credentialId != id
  {
    if hs == [] then []
    else if hs[0].credentialId != id then [hs[0]] + WithoutId(hs[1..], id)
    else WithoutId(hs[1..], id)
  }

  /** a keeps some of b's elements, in b's order. */
  predicate Subsequence<T(==)>(a: seq<T>, b: seq<T>)
    decreases |b|
  {
    a == [] || (b != [] && ((a[0] == b[0] && Subsequence(a[1..], b[1..])) || Subsequence(a, b[1..])))
  }

  lemma {:induction false} WithoutIdSubsequence(hs: seq<HistoryEntry>, id: nat)
    ensures Subsequence(WithoutId(hs, id), hs)
  {
    if hs != [] {
      WithoutIdSubsequence(hs[1..], id);
      if hs[0].credentialId != id {
        assert ([hs[0]] + WithoutId(hs[1..], id))[1..] == WithoutId(hs[1..], id);
      }
    }
  }

  lemma {:induction false} PrefixSubsequence<T>(a: seq<T>, b: seq<T>, n: nat)
    requires n <= |a| && Subsequence(a, b)
    ensures Subsequence(a[..n], b)
    decreases |b|
  {
    if n > 0 {
      if a[0] == b[0] && Subsequence(a[1..], b[1..]) {
        PrefixSubsequence(a[1..], b[1..], n - 1);
        assert a[..n][1..] == a[1..][..n - 1];
      } else {
        PrefixSubsequence(a, b[1..], n);
      }
    }
  }

  ghost predicate UniqueIds(hs: seq<HistoryEntry>) {
    forall i, j :: 0 <= i < j < |hs| ==> hs[i].credentialId != hs[j].credentialId
  }

  /** In a list with unique ids, the head's id occurs nowhere in the tail. */
  lemma HeadIdFresh(hs: seq<HistoryEntry>)
    requires hs != [] && UniqueIds(hs)
    ensures UniqueIds(hs[1..])
    ensures forall h :: h in hs[1..] ==> h.credentialId != hs[0].credentialId
  {
    forall h | h in hs[1..] ensures h.credentialId != hs[0].credentialId {
      var m :| 0 <= m < |hs[1..]| && hs[1..][m] == h;
      assert hs[m + 1] == h;
    }
    forall i, j | 0 <= i < j < |hs[1..]| ensures hs[1..][i].credentialId != hs[1..][j].credentialId {
      assert hs[1..][i] == hs[i + 1] && hs[1..][j] == hs[j + 1];
    }
  }

  /** Putting an entry whose id is new in front of a list with unique ids keeps
      them unique. */
  lemma ConsUnique(h: HistoryEntry, tail: seq<HistoryEntry>)
    requires UniqueIds(tail)
    requires forall t :: t in tail ==> t.credentialId != h.credentialId
    ensures UniqueIds([h] + tail)
  {
    var r := [h] + tail;
    forall i, j | 0 <= i < j < |r| ensures r[i].credentialId != r[j].credentialId {
      assert r[j] == tail[j - 1];
      if i > 0 { assert r[i] == tail[i - 1]; }
    }
  }

  lemma {:induction false} WithoutIdUnique(hs: seq<HistoryEntry>, id: nat)
    requires UniqueIds(hs)
    ensures UniqueIds(WithoutId(hs, id))
  {
    if hs != [] {
      HeadIdFresh(hs);
      WithoutIdUnique(hs[1..], id);
      if hs[0].credentialId != id {
        ConsUnique(hs[0], WithoutId(hs[1..], id));
      }
    }
  }

  /** The new entry first, then the older entries with other ids, cut to ten:
      what falls off is the tail, the oldest entries. */
  function UpdateHistory(prev: seq<HistoryEntry>, entry: HistoryEntry): (r: seq<HistoryEntry>)
    ensures 1 <= |r| <= HistoryLimit && r[0] == entry
    ensures forall h :: h in r[1..] ==> h in prev && h.credentialId != entry.credentialId
    ensures |r| == if |WithoutId(prev, entry.credentialId)| < HistoryLimit
                   then |WithoutId(prev, entry.credentialId)| + 1 else HistoryLimit
    ensures r[1..] == WithoutId(prev, entry.credentialId)[..|r| - 1]
  {
    var all := [entry] + WithoutId(prev, entry.credentialId);
    var r := if |all| <= HistoryLimit then all else all[..HistoryLimit];
    assert r[1..] == WithoutId(prev, entry.credentialId)[..|r| - 1];
    r
  }

  /** The entries kept behind the new one are older entries in their old
      order, and an older entry is dropped only when it has the new id or the
      list is full. */
  lemma HistoryOrderKept(prev: seq<HistoryEntry>, entry: HistoryEntry)
    ensures Subsequence(UpdateHistory(prev, entry)[1..], prev)
    ensures forall h :: h in prev && h.credentialId != entry.credentialId && h !in UpdateHistory(prev, entry) ==>
      |UpdateHistory(prev, entry)| == HistoryLimit
  {
    var rest := WithoutId(prev, entry.credentialId);
    var r := UpdateHistory(prev, entry);
    assert r[1..] == rest[..|r| - 1];
    WithoutIdSubsequence(prev, entry.credentialId);
    PrefixSubsequence(rest, prev, |r| - 1);
  }

  /** Ids stay unique. */
  lemma HistoryIdsUnique(prev: seq<HistoryEntry>, entry: HistoryEntry)
    requires UniqueIds(prev)
    ensures UniqueIds(UpdateHistory(prev, entry))
  {
    var rest := WithoutId(prev, entry.credentialId);
    WithoutIdUnique(prev, entry.credentialId);
    var r := UpdateHistory(prev, entry);
    assert r[1..] == rest[..|r| - 1];
    forall i, j | 0 <= i < j < |r| ensures r[i].credentialId != r[j].credentialId {
      assert r[j] == rest[j - 1];
      if i > 0 { assert r[i] == rest[i - 1]; } else { assert r[j] in rest; }
    }
  }

  // ---------------------------------------------------------------------------
  // The page

  /** The fields of a successful verify reply the page keeps. */
  datatype VerifyResult = VerifyResult(credentialId: nat, issuer: string, issuanceDate: int)

  /** The subject fields of the fetched credential, when the fetch succeeds. */
  datatype Detail = Detail(productType: Option<string>, destination: Option<string>)

  /** How the verify call (and, after a success, the detail and QR fetches)
      ended; a failed reply may carry `message` and `error`. */
  datatype VerifyOutcome =
    | Verified(result: VerifyResult, detail: Option<Detail>, qr: Option<string>, timestamp: string)
    | Rejected(message: Option<string>, errorText: Option<string>)

  const BlankIdMessage := "Please enter a credential ID"
  const VerifyFallback := "Failed to verify credential"
  const PendingReview := "This certificate is still pending review. Please check back after inspection completion and issuance."

  /** The pending notice and the error a failure leaves, in that order: exactly
      one of them is set. */
  function FailureReport(message: Option<string>, errorText: Option<string>): (r: (string, string))
    ensures var msg := FirstText([message, errorText], VerifyFallback);
      && (LooksPending(msg) ==> r == (PendingReview, ""))
      && (!LooksPending(msg) ==> r == ("", msg))
    ensures (r.0 == "") != (r.1 == "")
  {
    var msg := FirstText([message, errorText], VerifyFallback);
    if LooksPending(msg) then (PendingReview, "") else ("", msg)
  }

  function EntryOf(result: VerifyResult, detail: Option<Detail>, timestamp: string): HistoryEntry {
    HistoryEntry(result.credentialId, result.issuer, result.issuanceDate,
                 if detail.Some? then detail.value.productType else None,
                 if detail.Some? then detail.value.destination else None,
                 timestamp)
  }

  class DashboardPage {
    var credentialId: string
    var verificationResult: Option<VerifyResult>
    var credentialDetails: Option<Detail>
    var qrCode: string
    var error: string
    var pendingInfo: string
    var history: seq<HistoryEntry>
    /** The ids the page has sent to the verifier, oldest first. */
    var calls: seq<string>

    constructor (cached: seq<HistoryEntry>)
      ensures credentialId == "" && verificationResult == None && credentialDetails == None
      ensures qrCode == "" && error == "" && pendingInfo == "" && history == cached && calls == []
    {
      credentialId, verificationResult, credentialDetails, qrCode := "", None, None, "";
      error, pendingInfo, history, calls := "", "", cached, [];
    }

    /** A blank id only reports the error. Otherwise the typed id is sent as
        is; a success shows the result and records it in the history, a failure
        clears the result and reports either the pending notice or the error,
        never both. */
    method HandleVerify(outcome: VerifyOutcome)
      modifies this
      ensures credentialId == old(credentialId)
      ensures IsBlank(credentialId) ==>
        error == BlankIdMessage && calls == old(calls) && history == old(history) &&
        pendingInfo == old(pendingInfo) && verificationResult == old(verificationResult) &&
        credentialDetails == old(credentialDetails) && qrCode == old(qrCode)
      ensures !IsBlank(credentialId) ==> calls == old(calls) + [credentialId]
      ensures !IsBlank(credentialId) && outcome.Verified? ==>
        && error == "" && pendingInfo == ""
        && verificationResult == Some(outcome.result) && credentialDetails == outcome.detail
        && qrCode == outcome.qr.GetOr("")
        && history == UpdateHistory(old(history), EntryOf(outcome.result, outcome.detail, outcome.timestamp))
      ensures !IsBlank(credentialId) && outcome.Rejected? ==>
        && (pendingInfo, error) == FailureReport(outcome.message, outcome.errorText)
        && verificationResult == None && credentialDetails == None && qrCode == ""
        && history == old(history)
    {
      if IsBlank(credentialId) {
        error := BlankIdMessage;
        return;
      }
      error := "";
      pendingInfo := "";
      calls := calls + [credentialId];
      match outcome {
        case Verified(result, detail, qr, timestamp) =>
          verificationResult := Some(result);
          credentialDetails := detail;
          qrCode := qr.GetOr("");
          history := UpdateHistory(history, EntryOf(result, detail, timestamp));
        case Rejected(message, errorText) =>
          var report := FailureReport(message, errorText);
          pendingInfo, error := report.0, report.1;
          verificationResult := None;
          credentialDetails := None;
          qrCode := "";
      }
    }
  }
}
