/** The public verification page: which credential id the address names, the
    verification it runs, and the manual retry. */
module VerifyCredential {
  import opened Common
  import opened Credential
  import opened PendingNotice
  import opened ImporterDashboard

  // ---------------------------------------------------------------------------
  // Path segments

  /** `s.split('/')`: the pieces between separators, always at least one. */
  function Split(s: string): (parts: seq<string>)
    ensures |parts| >= 1
    ensures forall k :: 0 <= k < |parts| ==> '/' !in parts[k]
  {
    if s == [] then [""]
    else
      var rest := Split(s[1..]);
      if s[0] == '/' then [""] + rest
      else [[s[0]] + rest[0]] + rest[1..]
  }

  /** `parts.join('/')`. */
  function Join(parts: seq<string>): string
    requires |parts| >= 1
  {
    if |parts| == 1 then parts[0] else parts[0] + "/" + Join(parts[1..])
  }

  /** Splitting loses nothing: joining the pieces gives the path back. */
  lemma {:induction false} SplitJoin(s: string)
    ensures Join(Split(s)) == s
  {
    if s != [] {
      SplitJoin(s[1..]);
      var rest := Split(s[1..]);
      if s[0] == '/' {
        assert Split(s)[1..] == rest;
      } else {
        var parts := Split(s);
        if |rest| == 1 {
          assert parts == [[s[0]] + rest[0]];
        } else {
          assert parts[1..] == rest[1..];
          assert Join(rest) == rest[0] + "/" + Join(rest[1..]);
        }
        assert s == [s[0]] + s[1..];
      }
    }
  }

  /** A trailing separator adds exactly one empty piece. */
  lemma {:induction false} SplitTrailingSlash(s: string)
    ensures Split(s + "/") == Split(s) + [""]
  {
    if s == [] {
      assert Split("/") == [""] + Split("");
    } else {
      assert (s + "/")[1..] == s[1..] + "/";
      SplitTrailingSlash(s[1..]);
    }
  }

  /** `.filter(Boolean)`: the non-empty pieces, in order. */
  function NonEmpty(parts: seq<string>): (r: seq<string>)
    ensures forall k :: 0 <= k < |r| ==> r[k] != ""
    ensures forall p :: p in r <==> p in parts && p != ""
  {
    if parts == [] then []
    else if parts[0] != "" then [parts[0]] + NonEmpty(parts[1..])
    else NonEmpty(parts[1..])
  }

  lemma {:induction false} NonEmptyAppend(a: seq<string>, b: seq<string>)
    ensures NonEmpty(a + b) == NonEmpty(a) + NonEmpty(b)
  {
    if a != [] {
      assert (a + b)[1..] == a[1..] + b;
      NonEmptyAppend(a[1..], b);
    } else {
      assert a + b == b;
    }
  }

  function Segments(pathname: string): (segs: seq<string>)
    ensures forall k :: 0 <= k < |segs| ==> segs[k] != "" && '/' !in segs[k]
  {
    var parts := Split(pathname);
    var segs := NonEmpty(parts);
    assert forall k :: 0 <= k < |segs| ==> segs[k] in parts;
    segs
  }

  /** A trailing slash does not change the segments. */
  lemma TrailingSlashIgnored(pathname: string)
    ensures Segments(pathname + "/") == Segments(pathname)
  {
    SplitTrailingSlash(pathname);
    NonEmptyAppend(Split(pathname), [""]);
    assert NonEmpty([""]) == [];
  }

  // ---------------------------------------------------------------------------
  // The credential id

  /** The route parameter, then the `credentialId` query, then the `id`
      query, then the last path segment unless it is `verify` (an empty
      result when it is, and no value when the path has no segment). */
  function DeriveCredentialId(param: Option<string>, queryCredentialId: Option<string>, queryId: Option<string>,
                              pathname: string): (r: Option<string>)
    ensures TruthyStr(param) ==> r == param
    ensures !TruthyStr(param) && TruthyStr(queryCredentialId) ==> r == queryCredentialId
    ensures !TruthyStr(param) && !TruthyStr(queryCredentialId) && TruthyStr(queryId) ==> r == queryId
    ensures !TruthyStr(param) && !TruthyStr(queryCredentialId) && !TruthyStr(queryId) ==>
      var segs := Segments(pathname);
      (TruthyStr(r) <==> segs != [] && segs[|segs| - 1] != "verify") &&
      (TruthyStr(r) ==> r.value == segs[|segs| - 1])
  {
    var segs := Segments(pathname);
    var lastSegment: Option<string> := if segs == [] then None else Some(segs[|segs| - 1]);
    var fromPath := if lastSegment != Some("verify") then lastSegment else Some("");
    if TruthyStr(param) then param
    else if TruthyStr(queryCredentialId) then queryCredentialId
    else if TruthyStr(queryId) then queryId
    else fromPath
  }

  lemma {:induction false} SplitPlain(s: string)
    requires '/' !in s
    ensures Split(s) == [s]
  {
    if s != [] {
      SplitPlain(s[1..]);
      assert s == [s[0]] + s[1..];
    }
  }

  /** Splitting at one separator splits each side on its own. */
  lemma {:induction false} SplitAround(a: string, b: string)
    ensures Split(a + "/" + b) == Split(a) + Split(b)
  {
    if a == [] {
      assert a + "/" + b == "/" + b;
      assert ("/" + b)[1..] == b;
    } else {
      assert (a + "/" + b)[1..] == a[1..] + "/" + b;
      SplitAround(a[1..], b);
    }
  }

  /** A path of two plain names has those two segments. */
  lemma TwoSegments(first: string, second: string)
    requires first != "" && '/' !in first && second != "" && '/' !in second
    ensures Segments("/" + first + "/" + second) == [first, second]
  {
    assert "/" + first + "/" + second == "" + "/" + (first + "/" + second);
    SplitAround("", first + "/" + second);
    SplitAround(first, second);
    SplitPlain(first);
    SplitPlain(second);
    var parts := ["", first, second];
    assert Split("/" + first + "/" + second) == parts;
    assert [second][1..] == [];
    assert NonEmpty([second]) == [second];
    assert [first, second][1..] == [second];
    assert NonEmpty([first, second]) == [first] + NonEmpty([second]);
    assert parts[1..] == [first, second];
    assert NonEmpty(parts) == NonEmpty([first, second]);
  }

  /** The address a credential's QR code encodes, `/verify/<id>`, names that
      credential when neither the route nor the query does. */
  lemma QrLinkNamesCredential(id: string)
    requires id != "" && '/' !in id && id != "verify"
    ensures DeriveCredentialId(None, None, None, "/verify/" + id) == Some(id)
  {
    assert "/verify/" + id == "/" + "verify" + "/" + id;
    TwoSegments("verify", id);
  }

  // ---------------------------------------------------------------------------
  // The page

  const MissingIdMessage := "Missing credential ID. Enter it below or scan a valid QR."
  const StillUnderReview := "This certificate is still under review. Try again after the inspection is completed and the credential is issued."

  /** How one verify call ended: the valid result, or a failure with the
      reply's `message` and `error` and the error's own message. */
  datatype CheckOutcome =
    | Checked(result: VerifyResult)
    | Failed(message: Option<string>, errorText: Option<string>, errMessage: Option<string>)

  function FailureText(o: CheckOutcome): (msg: string)
    requires o.Failed?
    ensures msg != ""
  {
    FirstText([o.message, o.errorText, o.errMessage], VerifyFallback)
  }

  /** What the page shows in its failure card: the pending notice if set,
      otherwise the error. */
  function Shown(pendingInfo: string, error: string): (r: string)
    ensures pendingInfo != "" ==> r == pendingInfo
    ensures pendingInfo == "" ==> r == error
  {
    if pendingInfo != "" then pendingInfo else error
  }

  class VerifyPage {
    var credential: Option<VerifyResult>
    var error: string
    var pendingInfo: string
    var manualId: string
    /** The ids the page has sent to the verifier, oldest first. */
    var calls: seq<string>

    constructor ()
      ensures credential == None && error == "" && pendingInfo == "" && manualId == "" && calls == []
    {
      credential, error, pendingInfo, manualId, calls := None, "", "", "", [];
    }

    /** verifyCredential as written: a non-pending failure sets the error but
        leaves an earlier pending notice in place. */
    method VerifyAsWritten(id: string, outcome: CheckOutcome)
      modifies this
      ensures calls == old(calls) + [id] && manualId == old(manualId)
      ensures outcome.Checked? ==> credential == Some(outcome.result) && error == "" && pendingInfo == ""
      ensures outcome.Failed? && LooksPending(FailureText(outcome)) ==>
        credential == None && pendingInfo == StillUnderReview && error == ""
      ensures outcome.Failed? && !LooksPending(FailureText(outcome)) ==>
        credential == None && error == FailureText(outcome) && pendingInfo == old(pendingInfo)
    {
      calls := calls + [id];
      match outcome {
        case Checked(result) =>
          credential := Some(result);
          error := "";
          pendingInfo := "";
        case Failed(_, _, _) =>
          var msg := FailureText(outcome);
          if LooksPending(msg) {
            pendingInfo := StillUnderReview;
            error := "";
          } else {
            error := msg;
          }
          credential := None;
      }
    }

    /** What the corrected handler leaves after an outcome: the result with
        both texts cleared, or no result and either the review notice alone or
        the failure text alone. */
    ghost predicate Shows(outcome: CheckOutcome)
      reads this
    {
      && (outcome.Checked? ==> credential == Some(outcome.result) && error == "" && pendingInfo == "")
      && (outcome.Failed? && LooksPending(FailureText(outcome)) ==>
            credential == None && pendingInfo == StillUnderReview && error == "")
      && (outcome.Failed? && !LooksPending(FailureText(outcome)) ==>
            credential == None && pendingInfo == "" && error == FailureText(outcome))
    }

    /** verifyCredential with the pending notice cleared on every other
        failure: after a failure exactly one of the notice and the error is
        set, and the card shows the current failure. */
    method Verify(id: string, outcome: CheckOutcome)
      modifies this
      ensures calls == old(calls) + [id] && manualId == old(manualId)
      ensures Shows(outcome)
      ensures outcome.Checked? ==> credential == Some(outcome.result) && error == "" && pendingInfo == ""
      ensures outcome.Failed? ==> credential == None && (pendingInfo == "") != (error == "")
      ensures outcome.Failed? && LooksPending(FailureText(outcome)) ==> pendingInfo == StillUnderReview
      ensures outcome.Failed? && !LooksPending(FailureText(outcome)) ==>
        error == FailureText(outcome) && Shown(pendingInfo, error) == FailureText(outcome)
    {
      calls := calls + [id];
      match outcome {
        case Checked(result) =>
          credential := Some(result);
          error := "";
          pendingInfo := "";
        case Failed(_, _, _) =>
          var msg := FailureText(outcome);
          if LooksPending(msg) {
            pendingInfo := StillUnderReview;
            error := "";
          } else {
            pendingInfo := "";
            error := msg;
          }
          credential := None;
      }
    }

    /** The effect on mount: verify the derived id, or report that there is
        none without calling the verifier. */
    method OnLoad(credentialId: Option<string>, outcome: CheckOutcome)
      modifies this
      ensures !TruthyStr(credentialId) ==>
        error == MissingIdMessage && calls == old(calls) &&
        credential == old(credential) && pendingInfo == old(pendingInfo)
      ensures TruthyStr(credentialId) ==> calls == old(calls) + [credentialId.value] && Shows(outcome)
    {
      if TruthyStr(credentialId) {
        Verify(credentialId.value, outcome);
      } else {
        error := MissingIdMessage;
      }
    }

    /** A blank manual entry only reports the error; otherwise the trimmed
        entry is verified. */
    method HandleManualVerify(outcome: CheckOutcome)
      modifies this
      ensures manualId == old(manualId)
      ensures IsBlank(manualId) ==>
        error == BlankIdMessage && calls == old(calls) &&
        credential == old(credential) && pendingInfo == old(pendingInfo)
      ensures !IsBlank(manualId) ==> calls == old(calls) + [Trim(manualId)] && Shows(outcome)
    {
      BlankTrim(manualId);
      if IsBlank(manualId) {
        error := BlankIdMessage;
        return;
      }
      Verify(Trim(manualId), outcome);
    }
  }

  /** The discrepancy of the page as written: a pending failure followed by a
      different failure leaves both the notice and the error set, and the card
      keeps showing the stale notice instead of the new error. */
  method StaleNoticeAsWritten() returns (staleShown: bool)
    ensures staleShown
  {
    var page := new VerifyPage();
    var pending := Failed(Some(FailureMessage(InspectionNotCompleted)), None, None);
    var tampered := Failed(Some(FailureMessage(IntegrityFailed)), None, None);
    FailureTextIs(pending, FailureMessage(InspectionNotCompleted));
    FailureTextIs(tampered, FailureMessage(IntegrityFailed));
    FailureClassification(InspectionNotCompleted);
    FailureClassification(IntegrityFailed);
    page.VerifyAsWritten("7", pending);
    page.VerifyAsWritten("7", tampered);
    staleShown := page.pendingInfo != "" && page.error != "" &&
                  Shown(page.pendingInfo, page.error) != page.error;
  }

  lemma FailureTextIs(o: CheckOutcome, msg: string)
    requires o.Failed? && o.message == Some(msg) && msg != ""
    ensures FailureText(o) == msg
  {
  }
}
