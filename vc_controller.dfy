/** The credential handlers: issue a credential for a completed inspection,
    fetch one, and verify one. */
module VcController {
  import opened Common
  import opened Records
  import opened Credential
  import opened Store

  const Admin := "admin"
  const QaAgency := "qa_agency"

  /** The authenticated caller. */
  datatype User = User(id: nat, role: string)

  /** The `credential` object of a 201 reply. */
  datatype Ack = Ack(credentialId: nat, issuer: string, issuanceDate: int, expirationDate: int)

  datatype IssueReply =
    | Created(code: int, ack: Ack)
    | Refused(code: int, error: string, existingId: Option<nat>)

  /** The reply of an issuance together with the two tables it may write. */
  datatype Issuance = Issuance(reply: IssueReply, batches: map<nat, Batch>, credentials: map<nat, CredentialRow>)

  /** The inner join of the inspection with its batch has a row. */
  predicate Joinable(batches: map<nat, Batch>, inspections: map<nat, Inspection>, inspectionId: nat) {
    inspectionId in inspections && inspections[inspectionId].batchId in batches
  }

  predicate MayIssue(role: string) {
    role == Admin || role == QaAgency
  }

  predicate HasCredential(credentials: map<nat, CredentialRow>, inspectionId: nat) {
    exists c :: c in credentials && credentials[c].inspectionId == inspectionId
  }

  /** Issuance as a function of the tables: checks run in order and the first
      failure replies with no write; otherwise the sealed credential is inserted
      under `newId` and the batch is certified. Whether a QA caller is the
      assigned agency is not checked. */
  ghost function Issue(batches: map<nat, Batch>, inspections: map<nat, Inspection>, credentials: map<nat, CredentialRow>,
                       inspectionId: Option<nat>, user: User, newId: nat, now: int, ttlDays: int, secret: string,
                       hash: seq<Token> -> string): (s: Issuance)
    ensures s.reply.Refused? ==> s.batches == batches && s.credentials == credentials
  {
    if !TruthyId(inspectionId) then
      Issuance(Refused(400, "Inspection ID required", None), batches, credentials)
    else if !Joinable(batches, inspections, inspectionId.value) then
      Issuance(Refused(404, "Inspection not found", None), batches, credentials)
    else if inspections[inspectionId.value].status != Completed then
      Issuance(Refused(400, "Inspection must be completed before issuing a credential", None), batches, credentials)
    else if !MayIssue(user.role) then
      Issuance(Refused(403, "Only QA agency or admin can issue credentials", None), batches, credentials)
    else if HasCredential(credentials, inspectionId.value) then
      var c :| c in credentials && credentials[c].inspectionId == inspectionId.value;
      Issuance(Refused(400, "Credential already exists for this inspection", Some(c)), batches, credentials)
    else
      Insertion(batches, inspections, credentials, inspectionId.value, user, newId, now, ttlDays, secret, hash)
  }

  /** The writes of an issuance whose checks passed: the sealed credential
      under `newId`, and the batch certified. */
  ghost function Insertion(batches: map<nat, Batch>, inspections: map<nat, Inspection>, credentials: map<nat, CredentialRow>,
                           inspectionId: nat, user: User, newId: nat, now: int, ttlDays: int, secret: string,
                           hash: seq<Token> -> string): Issuance
    requires Joinable(batches, inspections, inspectionId)
  {
    var insp := inspections[inspectionId];
    var batch := batches[insp.batchId];
    var payload := Seal(BuildPayload(insp, batch.fields, user.id, now, ttlDays), user.id, now, secret, hash);
    Issuance(Created(201, Ack(newId, IssuerDid(user.id), now, Expiration(now, ttlDays))),
             batches[insp.batchId := batch.(status := Certified)],
             credentials[newId := CredentialRow(newId, inspectionId, user.id, payload, Issued, now)])
  }

  /** The refusals of an issuance, in the order the checks run: a missing id,
      then no joined row, then an inspection not completed, then a role that
      may not issue, then a credential already issued for the inspection, which
      the reply names. */
  lemma IssueRefusals(batches: map<nat, Batch>, inspections: map<nat, Inspection>, credentials: map<nat, CredentialRow>,
                      inspectionId: Option<nat>, user: User, newId: nat, now: int, ttlDays: int, secret: string,
                      hash: seq<Token> -> string)
    ensures var r := Issue(batches, inspections, credentials, inspectionId, user, newId, now, ttlDays, secret, hash).reply;
      && (!TruthyId(inspectionId) ==> r == Refused(400, "Inspection ID required", None))
      && (TruthyId(inspectionId) && !Joinable(batches, inspections, inspectionId.value) ==>
            r == Refused(404, "Inspection not found", None))
      && (TruthyId(inspectionId) && Joinable(batches, inspections, inspectionId.value) &&
          inspections[inspectionId.value].status != Completed ==>
            r == Refused(400, "Inspection must be completed before issuing a credential", None))
      && (TruthyId(inspectionId) && Joinable(batches, inspections, inspectionId.value) &&
          inspections[inspectionId.value].status == Completed && !MayIssue(user.role) ==>
            r == Refused(403, "Only QA agency or admin can issue credentials", None))
      && (TruthyId(inspectionId) && Joinable(batches, inspections, inspectionId.value) &&
          inspections[inspectionId.value].status == Completed && MayIssue(user.role) &&
          HasCredential(credentials, inspectionId.value) ==>
            && r.Refused? && r.code == 400 && r.error == "Credential already exists for this inspection"
            && r.existingId.Some? && r.existingId.value in credentials
            && credentials[r.existingId.value].inspectionId == inspectionId.value)
      && (r.Created? <==>
            TruthyId(inspectionId) && Joinable(batches, inspections, inspectionId.value) &&
            inspections[inspectionId.value].status == Completed && MayIssue(user.role) &&
            !HasCredential(credentials, inspectionId.value))
  {
  }

  /** What a successful issuance checked and wrote: every check passed; one new
      credential row, `issued`, for the inspection, under the new id, issued by
      the caller now, holding the sealed claims built from the joined row; the
      owning batch becomes `certified` with nothing else of it changed; every
      other row is kept. */
  lemma IssueEffect(batches: map<nat, Batch>, inspections: map<nat, Inspection>, credentials: map<nat, CredentialRow>,
                    inspectionId: Option<nat>, user: User, newId: nat, now: int, ttlDays: int, secret: string,
                    hash: seq<Token> -> string)
    requires Issue(batches, inspections, credentials, inspectionId, user, newId, now, ttlDays, secret, hash).reply.Created?
    ensures var s := Issue(batches, inspections, credentials, inspectionId, user, newId, now, ttlDays, secret, hash);
      && TruthyId(inspectionId) && Joinable(batches, inspections, inspectionId.value)
      && inspections[inspectionId.value].status == Completed && MayIssue(user.role)
      && !HasCredential(credentials, inspectionId.value)
      && var insp := inspections[inspectionId.value];
      && s.reply == Created(201, Ack(newId, IssuerDid(user.id), now, Expiration(now, ttlDays)))
      && s.credentials.Keys == credentials.Keys + {newId}
      && (forall k :: k in credentials && k != newId ==> s.credentials[k] == credentials[k])
      && s.credentials[newId] == CredentialRow(newId, inspectionId.value, user.id,
           Seal(BuildPayload(insp, batches[insp.batchId].fields, user.id, now, ttlDays), user.id, now, secret, hash),
           Issued, now)
      && s.batches.Keys == batches.Keys
      && (forall k :: k in batches && k != inspections[inspectionId.value].batchId ==> s.batches[k] == batches[k])
      && s.batches[inspections[inspectionId.value].batchId]
           == batches[inspections[inspectionId.value].batchId].(status := Certified)
  {
    assert Issue(batches, inspections, credentials, inspectionId, user, newId, now, ttlDays, secret, hash)
        == Insertion(batches, inspections, credentials, inspectionId.value, user, newId, now, ttlDays, secret, hash);
  }

  /** `ttlSetting` and `secretSetting` are the VC_TTL_DAYS and
      VC_SIGNING_SECRET settings; `now` is the request time. */
  method GenerateVC(db: Database, inspectionId: Option<nat>, user: User, now: int,
                    ttlSetting: Option<int>, secretSetting: Option<string>, hash: seq<Token> -> string)
    returns (r: IssueReply)
    requires db.Valid()
    modifies db
    ensures db.Valid()
    ensures var s := Issue(old(db.batches), old(db.inspections), old(db.credentials), inspectionId, user,
                           old(db.nextCredentialId), now, TtlDays(ttlSetting), SigningSecret(secretSetting), hash);
      r == s.reply && db.batches == s.batches && db.credentials == s.credentials
    ensures db.inspections == old(db.inspections)
    ensures r.Refused? ==> unchanged(db)
  {
    if !TruthyId(inspectionId) {
      return Refused(400, "Inspection ID required", None);
    }
    var iid := inspectionId.value;
    if !(iid in db.inspections && db.inspections[iid].batchId in db.batches) {
      return Refused(404, "Inspection not found", None);
    }
    var insp := db.inspections[iid];
    if insp.status != Completed {
      return Refused(400, "Inspection must be completed before issuing a credential", None);
    }
    if user.role != Admin && user.role != QaAgency {
      return Refused(403, "Only QA agency or admin can issue credentials", None);
    }
    // A QA caller other than insp.qaAgencyId is only logged.
    if exists c :: c in db.credentials && db.credentials[c].inspectionId == iid {
      var c :| c in db.credentials && db.credentials[c].inspectionId == iid;
      assert forall c' :: c' in db.credentials && db.credentials[c'].inspectionId == iid ==> c' == c;
      return Refused(400, "Credential already exists for this inspection", Some(c));
    }
    assert !HasCredential(db.credentials, iid);
    r := InsertCredential(db, iid, user, now, TtlDays(ttlSetting), SigningSecret(secretSetting), hash);
  }

  /** The writes of GenerateVC once its checks have passed: the credential
      sealed over the claims of the joined row, under the next serial id, and
      the batch certified. */
  method InsertCredential(db: Database, iid: nat, user: User, now: int, ttlDays: int, secret: string,
                          hash: seq<Token> -> string) returns (r: IssueReply)
    requires db.Valid() && Joinable(db.batches, db.inspections, iid) && !HasCredential(db.credentials, iid)
    modifies db
    ensures db.Valid()
    ensures var id, insp := old(db.nextCredentialId), old(db.inspections[iid]);
      var batch := old(db.batches[insp.batchId]);
      && r == Created(201, Ack(id, IssuerDid(user.id), now, Expiration(now, ttlDays)))
      && db.credentials == old(db.credentials)[id := CredentialRow(id, iid, user.id,
           Seal(BuildPayload(insp, batch.fields, user.id, now, ttlDays), user.id, now, secret, hash), Issued, now)]
      && db.batches == old(db.batches)[insp.batchId := batch.(status := Certified)]
    ensures var s := Insertion(old(db.batches), old(db.inspections), old(db.credentials), iid, user,
                               old(db.nextCredentialId), now, ttlDays, secret, hash);
      r == s.reply && db.batches == s.batches && db.credentials == s.credentials
    ensures db.inspections == old(db.inspections)
  {
    var insp := db.inspections[iid];
    var batch := db.batches[insp.batchId];
    var vcPayload := BuildPayload(insp, batch.fields, user.id, now, ttlDays);
    vcPayload := Seal(vcPayload, user.id, now, secret, hash);
    var credentialId := db.NewCredentialId();
    db.credentials := db.credentials[credentialId := CredentialRow(credentialId, iid, user.id, vcPayload, Issued, now)];
    db.batches := db.batches[insp.batchId := batch.(status := Certified)];
    r := Created(201, Ack(credentialId, IssuerDid(user.id), now, Expiration(now, ttlDays)));
  }

  /** The reply of a fetch: the id next to the stored payload's fields. */
  datatype CredentialView = CredentialView(id: nat, payload: Payload)

  method GetVC(db: Database, id: nat) returns (r: Reply<CredentialView>)
    ensures id in db.credentials ==> r == Ok(200, CredentialView(id, db.credentials[id].payload))
    ensures id !in db.credentials ==> r == Fail(404, "Credential not found")
  {
    if id !in db.credentials {
      return Fail(404, "Credential not found");
    }
    r := Ok(200, CredentialView(id, db.credentials[id].payload));
  }

  /** The verifier's join of the credential with its inspection and batch. */
  predicate Resolvable(batches: map<nat, Batch>, inspections: map<nat, Inspection>, credentials: map<nat, CredentialRow>, id: nat) {
    id in credentials && credentials[id].inspectionId in inspections &&
    inspections[credentials[id].inspectionId].batchId in batches
  }

  /** `req.body?.credentialId || req.params?.id || req.query?.credentialId`.
      The body id is a JSON number, so 0 is falsy there. The route and query ids
      are text, given here as the id the text spells: such text is never empty
      (an empty query value is falsy like an absent one, so None stands for
      both), hence truthy, even when it spells 0. */
  function RequestedId(bodyId: Option<nat>, routeId: Option<nat>, queryId: Option<nat>): (r: Option<nat>)
    ensures TruthyId(bodyId) ==> r == bodyId
    ensures !TruthyId(bodyId) && routeId.Some? ==> r == routeId
    ensures !TruthyId(bodyId) && routeId.None? ==> r == queryId
    ensures r.None? <==> !TruthyId(bodyId) && routeId.None? && queryId.None?
  {
    if TruthyId(bodyId) then bodyId else if routeId.Some? then routeId else queryId
  }

  /** Verification as a function of the tables and the requested id (None when
      the request names none): the missing id and the failed join first, then
      the gates of VerifyRow. */
  function VerifyIn(batches: map<nat, Batch>, inspections: map<nat, Inspection>, credentials: map<nat, CredentialRow>,
                    credentialId: Option<nat>, now: int, secret: string, hash: seq<Token> -> string): (v: Verdict)
    ensures credentialId.None? ==> v == Invalid(400, MissingId)
    ensures credentialId.Some? && !Resolvable(batches, inspections, credentials, credentialId.value) ==>
      v == Invalid(404, NotFound)
    ensures v.Valid? <==>
      && credentialId.Some? && Resolvable(batches, inspections, credentials, credentialId.value)
      && var c := credentials[credentialId.value];
         var insp := inspections[c.inspectionId];
         && c.status == Issued && insp.status == Completed && batches[insp.batchId].status == Certified
         && !IsExpired(c.payload, now) && IntegrityOk(c.payload, secret, hash)
    ensures v.Valid? ==>
      var c := credentials[credentialId.value];
      v == Valid(c.id, c.payload.issuer, c.payload.issuanceDate, c.payload.expirationDate,
                 inspections[c.inspectionId].batchId)
  {
    if credentialId.None? then Invalid(400, MissingId)
    else if !Resolvable(batches, inspections, credentials, credentialId.value) then Invalid(404, NotFound)
    else
      var c := credentials[credentialId.value];
      var insp := inspections[c.inspectionId];
      VerifyRow(c, insp.status, insp.batchId, batches[insp.batchId].status, now, secret, hash)
  }

  /** The id is taken from the body, else the route, else the query. The
      handler writes nothing. */
  method VerifyVC(db: Database, bodyId: Option<nat>, routeId: Option<nat>, queryId: Option<nat>, now: int,
                  secretSetting: Option<string>, hash: seq<Token> -> string) returns (v: Verdict)
    ensures v == VerifyIn(db.batches, db.inspections, db.credentials, RequestedId(bodyId, routeId, queryId),
                          now, SigningSecret(secretSetting), hash)
  {
    var credentialId := if TruthyId(bodyId) then bodyId else if routeId.Some? then routeId else queryId;
    if credentialId.None? {
      return Invalid(400, MissingId);
    }
    var id := credentialId.value;
    if !(id in db.credentials && db.credentials[id].inspectionId in db.inspections &&
         db.inspections[db.credentials[id].inspectionId].batchId in db.batches) {
      return Invalid(404, NotFound);
    }
    var credential := db.credentials[id];
    var insp := db.inspections[credential.inspectionId];
    var batchStatus := db.batches[insp.batchId].status;
    if credential.status != Issued {
      return Invalid(400, NotIssued);
    }
    if insp.status != Completed {
      return Invalid(400, InspectionNotCompleted);
    }
    if batchStatus != Certified {
      return Invalid(400, BatchNotCertified);
    }
    if IsExpired(credential.payload, now) {
      return Invalid(400, Expired);
    }
    if !IntegrityOk(credential.payload, SigningSecret(secretSetting), hash) {
      return Invalid(400, IntegrityFailed);
    }
    v := Valid(credential.id, credential.payload.issuer, credential.payload.issuanceDate, credential.payload.expirationDate, insp.batchId);
  }

  /** A route naming credential 0 is looked up and not found, while a body id
      of 0 counts as no id at all. */
  lemma RouteZeroNotFound(batches: map<nat, Batch>, inspections: map<nat, Inspection>,
                          credentials: map<nat, CredentialRow>, now: int, secret: string, hash: seq<Token> -> string)
    requires 0 !in credentials
    ensures VerifyIn(batches, inspections, credentials, RequestedId(None, Some(0), None), now, secret, hash)
      == Invalid(404, NotFound)
    ensures VerifyIn(batches, inspections, credentials, RequestedId(Some(0), None, None), now, secret, hash)
      == Invalid(400, MissingId)
  {
  }

  // ---------------------------------------------------------------------------
  // Issuance and verification together

  /** A credential just issued verifies as valid at any time before its
      expiration date, carrying the issuer, the dates and the batch. */
  lemma IssueThenVerify(batches: map<nat, Batch>, inspections: map<nat, Inspection>, credentials: map<nat, CredentialRow>,
                        inspectionId: Option<nat>, user: User, newId: nat, now: int, ttlDays: int, secret: string,
                        hash: seq<Token> -> string, later: int)
    requires DigestShaped(hash) && 0 < newId
    requires Issue(batches, inspections, credentials, inspectionId, user, newId, now, ttlDays, secret, hash).reply.Created?
    requires later < Expiration(now, ttlDays)
    ensures var s := Issue(batches, inspections, credentials, inspectionId, user, newId, now, ttlDays, secret, hash);
      VerifyIn(s.batches, inspections, s.credentials, Some(newId), later, secret, hash)
        == Valid(newId, IssuerDid(user.id), now, Some(Expiration(now, ttlDays)), inspections[inspectionId.value].batchId)
  {
    IssueEffect(batches, inspections, credentials, inspectionId, user, newId, now, ttlDays, secret, hash);
    var insp := inspections[inspectionId.value];
    var p0 := BuildPayload(insp, batches[insp.batchId].fields, user.id, now, ttlDays);
    var s := Insertion(batches, inspections, credentials, inspectionId.value, user, newId, now, ttlDays, secret, hash);
    assert s == Issue(batches, inspections, credentials, inspectionId, user, newId, now, ttlDays, secret, hash);
    SealedIntegrityOk(p0, user.id, now, secret, hash);
    assert s.credentials[newId].payload == Seal(p0, user.id, now, secret, hash);
  }

  /** Issuance never gives an inspection a second credential. */
  lemma IssueKeepsOneCredentialPerInspection(
    batches: map<nat, Batch>, inspections: map<nat, Inspection>, credentials: map<nat, CredentialRow>,
    inspectionId: Option<nat>, user: User, newId: nat, now: int, ttlDays: int, secret: string,
    hash: seq<Token> -> string)
    requires OneCredentialPerInspection(credentials) && newId !in credentials
    ensures OneCredentialPerInspection(
      Issue(batches, inspections, credentials, inspectionId, user, newId, now, ttlDays, secret, hash).credentials)
  {
    var s := Issue(batches, inspections, credentials, inspectionId, user, newId, now, ttlDays, secret, hash);
    if s.reply.Created? {
      IssueEffect(batches, inspections, credentials, inspectionId, user, newId, now, ttlDays, secret, hash);
    }
  }

  /** After a successful issuance, issuing again for the same inspection is
      refused with 400 and the id of the credential already issued, whoever
      asks (among the roles allowed to issue) and whenever. */
  lemma SecondIssueRefused(batches: map<nat, Batch>, inspections: map<nat, Inspection>, credentials: map<nat, CredentialRow>,
                           inspectionId: Option<nat>, user: User, newId: nat, now: int, ttlDays: int, secret: string,
                           hash: seq<Token> -> string,
                           user2: User, newId2: nat, now2: int, ttlDays2: int)
    requires OneCredentialPerInspection(credentials) && newId !in credentials
    requires Issue(batches, inspections, credentials, inspectionId, user, newId, now, ttlDays, secret, hash).reply.Created?
    requires MayIssue(user2.role)
    ensures var s := Issue(batches, inspections, credentials, inspectionId, user, newId, now, ttlDays, secret, hash);
      var s2 := Issue(s.batches, inspections, s.credentials, inspectionId, user2, newId2, now2, ttlDays2, secret, hash);
      s2 == Issuance(Refused(400, "Credential already exists for this inspection", Some(newId)), s.batches, s.credentials)
  {
    var s := Issue(batches, inspections, credentials, inspectionId, user, newId, now, ttlDays, secret, hash);
    IssueKeepsOneCredentialPerInspection(batches, inspections, credentials, inspectionId, user, newId, now, ttlDays, secret, hash);
    assert s.credentials[newId].inspectionId == inspectionId.value;
    assert HasCredential(s.credentials, inspectionId.value);
  }

  /** Which QA agency the inspection was assigned to never affects issuance. */
  lemma AssignedAgencyIgnored(batches: map<nat, Batch>, inspections: map<nat, Inspection>, credentials: map<nat, CredentialRow>,
                              inspectionId: nat, user: User, newId: nat, now: int, ttlDays: int, secret: string,
                              hash: seq<Token> -> string, otherAgency: nat)
    requires inspectionId in inspections
    ensures var changed := inspections[inspectionId := inspections[inspectionId].(qaAgencyId := otherAgency)];
      Issue(batches, changed, credentials, Some(inspectionId), user, newId, now, ttlDays, secret, hash)
        == Issue(batches, inspections, credentials, Some(inspectionId), user, newId, now, ttlDays, secret, hash)
  {
    var changed := inspections[inspectionId := inspections[inspectionId].(qaAgencyId := otherAgency)];
    var insp, insp' := inspections[inspectionId], changed[inspectionId];
    if inspectionId != 0 && Joinable(batches, inspections, inspectionId) {
      assert BuildPayload(insp', batches[insp.batchId].fields, user.id, now, ttlDays)
          == BuildPayload(insp, batches[insp.batchId].fields, user.id, now, ttlDays);
    }
  }

  /** Rewriting an issued credential's payload outside its proof block, keeping
      the proof block, is caught by the verifier when the hash is injective. */
  lemma TamperedCredentialRejected(
    batches: map<nat, Batch>, inspections: map<nat, Inspection>, credentials: map<nat, CredentialRow>,
    inspectionId: Option<nat>, user: User, newId: nat, now: int, ttlDays: int, secret: string,
    hash: seq<Token> -> string, forged: Payload, later: int)
    requires Injective(hash) && 0 < newId
    requires Issue(batches, inspections, credentials, inspectionId, user, newId, now, ttlDays, secret, hash).reply.Created?
    requires var s := Issue(batches, inspections, credentials, inspectionId, user, newId, now, ttlDays, secret, hash);
      forged.proof == s.credentials[newId].payload.proof &&
      forged.(proof := None) != s.credentials[newId].payload.(proof := None)
    ensures var s := Issue(batches, inspections, credentials, inspectionId, user, newId, now, ttlDays, secret, hash);
      var tampered := s.credentials[newId := s.credentials[newId].(payload := forged)];
      !VerifyIn(s.batches, inspections, tampered, Some(newId), later, secret, hash).Valid?
  {
    var insp := inspections[inspectionId.value];
    var p0 := BuildPayload(insp, batches[insp.batchId].fields, user.id, now, ttlDays);
    TamperDetected(p0, forged, user.id, now, secret, hash);
  }
}
