/** The inspection form of the QA agency: loading and submitting the organic
    flag, which action button is offered, field edits, and reading the new
    credential's id out of the issuance reply. */
module InspectionForm {
  import opened Common
  import opened Records
  import opened Credential
  import opened VcController

  // ---------------------------------------------------------------------------
  // Credential id of an issuance reply

  /** The id-bearing keys of a generate reply: `credential.credentialId`,
      `credential.id`, top-level `credentialId` and top-level `id`. */
  datatype GenerateResponse = GenerateResponse(
    nestedCredentialId: Option<nat>,
    nestedId: Option<nat>,
    credentialId: Option<nat>,
    id: Option<nat>)

  /** The fallback chain: the first truthy key in the order above; there is
      an id exactly when some key holds a non-zero one. */
  function ExtractCredentialId(resp: GenerateResponse): (r: Option<nat>)
    ensures r.Some? <==>
      TruthyId(resp.nestedCredentialId) || TruthyId(resp.nestedId) || TruthyId(resp.credentialId) || TruthyId(resp.id)
    ensures r.Some? ==> r.value != 0
  {
    var cands := [resp.nestedCredentialId, resp.nestedId, resp.credentialId, resp.id];
    assert (exists i :: 0 <= i < |cands| && TruthyId(cands[i])) ==>
      TruthyId(resp.nestedCredentialId) || TruthyId(resp.nestedId) || TruthyId(resp.credentialId) || TruthyId(resp.id);
    assert cands[0] == resp.nestedCredentialId && cands[1] == resp.nestedId;
    assert cands[2] == resp.credentialId && cands[3] == resp.id;
    FirstId(cands)
  }

  /** Which key wins: each one is used only when every earlier key is falsy. */
  lemma ExtractionOrder(resp: GenerateResponse)
    ensures TruthyId(resp.nestedCredentialId) ==> ExtractCredentialId(resp) == resp.nestedCredentialId
    ensures !TruthyId(resp.nestedCredentialId) && TruthyId(resp.nestedId) ==> ExtractCredentialId(resp) == resp.nestedId
    ensures !TruthyId(resp.nestedCredentialId) && !TruthyId(resp.nestedId) && TruthyId(resp.credentialId) ==>
      ExtractCredentialId(resp) == resp.credentialId
    ensures !TruthyId(resp.nestedCredentialId) && !TruthyId(resp.nestedId) && !TruthyId(resp.credentialId) ==>
      ExtractCredentialId(resp) == (if TruthyId(resp.id) then resp.id else None)
  {
    var cands := [resp.nestedCredentialId, resp.nestedId, resp.credentialId, resp.id];
    if TruthyId(cands[0]) {
      FirstIdAt(cands, 0);
    } else if TruthyId(cands[1]) {
      FirstIdAt(cands, 1);
    } else if TruthyId(cands[2]) {
      FirstIdAt(cands, 2);
    } else if TruthyId(cands[3]) {
      FirstIdAt(cands, 3);
    }
  }

  /** The body the backend sends with a 201: the `credential` object carries the
      new id under both `id` and `credentialId`; there is no top-level id. */
  function CreatedResponse(ack: Ack): GenerateResponse {
    GenerateResponse(Some(ack.credentialId), Some(ack.credentialId), None, None)
  }

  /** Every credential the backend creates has a positive id, so the page always
      finds the id of a successful issuance. */
  lemma IssuedIdFound(batches: map<nat, Batch>, inspections: map<nat, Inspection>,
                      credentials: map<nat, CredentialRow>, inspectionId: Option<nat>, user: User,
                      newId: nat, now: int, ttlDays: int, secret: string, hash: seq<Token> -> string)
    requires 0 < newId
    requires Issue(batches, inspections, credentials, inspectionId, user, newId, now, ttlDays, secret, hash).reply.Created?
    ensures var ack := Issue(batches, inspections, credentials, inspectionId, user, newId, now, ttlDays, secret, hash).reply.ack;
      ExtractCredentialId(CreatedResponse(ack)) == Some(newId)
  {
    IssueEffect(batches, inspections, credentials, inspectionId, user, newId, now, ttlDays, secret, hash);
  }

  // ---------------------------------------------------------------------------
  // The organic flag

  /** Loading: a truthy stored flag shows as 'yes', false or NULL as 'no'. */
  function OrganicToForm(stored: Option<bool>): (v: string)
    ensures v == "yes" || v == "no"
    ensures v == "yes" <==> stored == Some(true)
  {
    if stored == Some(true) then "yes" else "no"
  }

  /** Submitting: only 'yes' is sent as true. */
  function OrganicFromForm(v: string): (b: bool)
    ensures b <==> v == "yes"
  {
    v == "yes"
  }

  /** Load then submit gives back a stored boolean; a NULL flag comes back as
      false. */
  lemma OrganicRoundTrip(stored: Option<bool>)
    ensures stored.Some? ==> OrganicFromForm(OrganicToForm(stored)) == stored.value
    ensures stored.None? ==> !OrganicFromForm(OrganicToForm(stored))
  {
  }

  /** The 'in-transition' choice is submitted as not organic. */
  lemma InTransitionSubmittedFalse()
    ensures !OrganicFromForm("in-transition")
  {
  }

  // ---------------------------------------------------------------------------
  // Action buttons

  predicate OffersMarkComplete(status: string) {
    status != Completed
  }

  predicate OffersIssueCredential(status: string) {
    status == Completed
  }

  /** Exactly one of "Mark Complete" and "Issue Credential" is offered. */
  lemma ExactlyOneAction(status: string)
    ensures OffersMarkComplete(status) != OffersIssueCredential(status)
    ensures OffersIssueCredential(status) <==> status == Completed
  {
  }

  // ---------------------------------------------------------------------------
  // The page

  const NoIdMessage := "Credential issued but ID not found in response. Check console."
  const GenerateFallback := "Failed to generate credential"

  /** How the generate call ended: a reply body, or a thrown error with the
      reply's `error` and `message` and the error's own message. */
  datatype GenerateOutcome =
    | Replied(resp: GenerateResponse)
    | Threw(dataError: Option<string>, dataMessage: Option<string>, errMessage: Option<string>)

  class FormPage {
    var formData: map<string, string>
    var errors: map<string, string>
    var error: string
    var vcSuccess: bool
    var credentialId: Option<nat>

    constructor ()
      ensures formData == map["moistureLevel" := "", "pesticideContent" := "", "organicStatus" := "no",
                              "isoCodes" := "", "notes" := ""]
      ensures errors == map[] && error == "" && !vcSuccess && credentialId == None
    {
      formData := map["moistureLevel" := "", "pesticideContent" := "", "organicStatus" := "no",
                      "isoCodes" := "", "notes" := ""];
      errors, error, vcSuccess, credentialId := map[], "", false, None;
    }

    /** Sets the named field and clears that field's error; no other field or
        error changes. */
    method HandleChange(name: string, value: string)
      modifies this
      ensures formData == old(formData)[name := value]
      ensures errors == old(errors)[name := ""]
      ensures forall k :: k in old(formData) && k != name ==> k in formData && formData[k] == old(formData)[k]
      ensures forall k :: k in old(errors) && k != name ==> k in errors && errors[k] == old(errors)[k]
      ensures error == old(error) && vcSuccess == old(vcSuccess) && credentialId == old(credentialId)
    {
      formData := formData[name := value];
      errors := errors[name := ""];
    }

    /** Success is recorded only with an id found in the reply; a reply without
        one sets an error and leaves the success state as it was. */
    method HandleGenerateVC(outcome: GenerateOutcome)
      modifies this
      ensures formData == old(formData) && errors == old(errors)
      ensures outcome.Replied? && ExtractCredentialId(outcome.resp).Some? ==>
        error == "" && vcSuccess && credentialId == ExtractCredentialId(outcome.resp)
      ensures outcome.Replied? && ExtractCredentialId(outcome.resp).None? ==>
        error == NoIdMessage && vcSuccess == old(vcSuccess) && credentialId == old(credentialId)
      ensures outcome.Threw? ==>
        error == FirstText([outcome.dataError, outcome.dataMessage, outcome.errMessage], GenerateFallback) &&
        vcSuccess == old(vcSuccess) && credentialId == old(credentialId)
    {
      error := "";
      match outcome {
        case Replied(resp) =>
          var vcId := ExtractCredentialId(resp);
          if vcId.None? {
            error := NoIdMessage;
            return;
          }
          credentialId := vcId;
          vcSuccess := true;
        case Threw(dataError, dataMessage, errMessage) =>
          error := FirstText([dataError, dataMessage, errMessage], GenerateFallback);
      }
    }
  }
}
