# agri-qcert in Dafny

A model of the core of agri-qcert, a certification portal for agricultural
export batches. An exporter submits a batch. A QA agency schedules an
inspection, records findings and completes it. The agency then issues a
verifiable credential: a W3C-style claim document carrying an integrity stamp,
which is the sha256 of the serialised claim followed by a signing secret. An
importer verifies the credential by id.

The model covers two halves.

- **Back end.** The three controllers (batches, inspections, verifiable
  credentials) and the script that completes every scheduled inspection. The
  store is a `Database` class holding three maps keyed by serial id, plus the
  next value of each id sequence. Each handler is a method that `modifies`
  that database, and its contract states the HTTP reply and the new tables.
  Credential issuance is also specified as a ghost function of the tables
  (`Issue`), so that issue-then-verify, tamper detection, one credential per
  inspection and refusal of a second issuance can be stated as lemmas. The
  method is proved equal to that function.
- **Front end.** The page logic the portal runs in the browser:
  - status normalisation and counting on the exporter and QA dashboards;
  - the credential-id fallback and the organic-status mapping of the
    inspection form;
  - the importer's verification history and its pending-message checks;
  - credential-id derivation on the public verification page;
  - the certification toggle of the batch form;
  - the registration and login validators;
  - the navigation bar's role map and theme switch.

  Each stateful page is a class whose fields are its React state, with one
  method per handler. Pure expressions are functions with lemmas.

The modules are:

- `Common` holds JavaScript truthiness and the `||` fallback chains,
  `String.prototype.trim` over the ECMAScript whitespace set, and ASCII
  `toLowerCase`.
- `Records` holds the table rows.
- `Listing` holds the `ORDER BY created_at DESC` selection engine.
- `Credential` holds the payload, its serialisation, the stamp and the
  verifier's gate chain.
- `Store` holds the database.
- There is one module per controller and one per page.

Some things are made parameters:

- the hash, as `hash: seq<Token> -> string`;
- the clock, as `now`;
- the environment settings (`VC_TTL_DAYS`, `VC_SIGNING_SECRET`);
- the outcomes of the browser's HTTP calls.

Lemmas that need the hash to be injective, or to return 64-character digests,
say so in their `requires`.

Where the code departs from what its names and comments suggest, the model follows the code:

- `createBatch` rejects only a falsy quantity, so a negative quantity is
  accepted (`BatchController.NegativeQuantityAccepted`).
- Scheduling, updating and completing an inspection never check the prior
  status of the batch or the inspection.
- Issuance does not require the QA caller to be the assigned agency: the mismatch is only logged, and the comments at vcController.js lines 42 and 48 say it may be enforced later
  (`VcController.AssignedAgencyIgnored`).

## Model

| member | source | states |
|---|---|---|
| Common.FirstText | agri-qcert/frontend/src/pages/importer/Dashboard.jsx:67 | the first truthy candidate wins, and earlier ones are all falsy; with none, the fallback; never empty when the fallback is not |
| Common.FirstId | agri-qcert/frontend/src/pages/qa-agency/InspectionForm.jsx:111-114 | the result is a truthy candidate preceded only by falsy ones, or None when there is none |
| Common.FirstIdAt | agri-qcert/frontend/src/pages/qa-agency/InspectionForm.jsx:111-114 | a truthy candidate with only falsy ones before it is the chain's value |
| Common.TrimStart | agri-qcert/frontend/src/pages/importer/Dashboard.jsx:27 | the result is a suffix that does not start with whitespace, and everything dropped is whitespace |
| Common.TrimEnd | agri-qcert/frontend/src/pages/importer/Dashboard.jsx:27 | the result is a prefix that does not end with whitespace, and everything dropped is whitespace |
| Common.Trim | agri-qcert/frontend/src/pages/importer/Dashboard.jsx:27 | a contiguous piece of the text, with only whitespace cut off before and after it |
| Common.TrimEnds | agri-qcert/frontend/src/pages/exporter/Dashboard.jsx:42 | a trimmed string has no whitespace at either end |
| Common.TrimFixed | agri-qcert/frontend/src/pages/exporter/Dashboard.jsx:42 | a string without whitespace at its ends is its own trim |
| Common.TrimIdempotent | agri-qcert/frontend/src/pages/exporter/Dashboard.jsx:42 | trimming twice is trimming once |
| Common.BlankTrim | agri-qcert/frontend/src/pages/importer/Dashboard.jsx:27 | `!s.trim()` holds exactly when every character of s is whitespace |
| Common.Lower | agri-qcert/frontend/src/pages/exporter/Dashboard.jsx:42 | same length; no ASCII capital is left; every other character is kept; each capital becomes its lower-case letter, 32 code points up |
| Common.LowerIdempotent | agri-qcert/frontend/src/pages/exporter/Dashboard.jsx:42 | lower-casing twice is lower-casing once |
| Common.LowerKeepsTrim | agri-qcert/frontend/src/pages/exporter/Dashboard.jsx:42 | lower-casing a trimmed string leaves it trimmed |
| Common.NormalText | agri-qcert/frontend/src/pages/exporter/Dashboard.jsx:42 | trimming and lower-casing a second time changes nothing |
| Common.WordText | agri-qcert/frontend/src/pages/exporter/Dashboard.jsx:42 | a non-empty text of lower-case letters and `_` is unchanged by trim and lower-case |
| Common.AbsentChar | agri-qcert/frontend/src/pages/importer/Dashboard.jsx:69 | a text lacking one character of a keyword does not contain the keyword |
| Common.AbsentPair | agri-qcert/frontend/src/pages/importer/Dashboard.jsx:69 | a text lacking one adjacent pair of a keyword does not contain the keyword |
| Common.ContainsAt | agri-qcert/frontend/src/pages/importer/Dashboard.jsx:69 | a keyword found at a position is contained |
| Common.LowerMissing | agri-qcert/frontend/src/pages/importer/Dashboard.jsx:68 | a letter missing from a text in both cases is missing after lower-casing |
| Common.Count | agri-qcert/frontend/src/pages/exporter/Dashboard.jsx:53-56 | the number of positions whose element passes the test, never more than the length |
| Common.CountAppend | agri-qcert/frontend/src/pages/exporter/Dashboard.jsx:53-56 | appending an element adds one exactly when it passes |
| Common.CountComplement | agri-qcert/frontend/src/pages/qa-agency/Dashboard.jsx:104-111 | the elements passing a test plus those failing it are all the elements |
| Common.CountDisjoint | agri-qcert/frontend/src/pages/exporter/Dashboard.jsx:53-56 | three disjoint tests count at most the length |
| Listing.InsertDesc | agri-qcert/backend/src/controllers/batchController.js:51 | one element longer, the same multiset plus the new row |
| Listing.InsertDescSorted | agri-qcert/backend/src/controllers/batchController.js:51 | insertion keeps the rows newest first |
| Listing.InsertDescDistinct | agri-qcert/backend/src/controllers/batchController.js:51 | inserting a new row keeps the rows distinct |
| Listing.Select | agri-qcert/backend/src/controllers/batchController.js:35-54 | exactly the stored rows passing the filters, each once, newest first |
| Store.Database.NewBatchId | agri-qcert/backend/src/controllers/batchController.js:18-23 | a fresh serial id above every stored one; no table changes |
| Store.Database.NewInspectionId | agri-qcert/backend/src/controllers/inspectionController.js:14-19 | a fresh serial id above every stored one; no table changes |
| Store.Database.NewCredentialId | agri-qcert/backend/src/controllers/vcController.js:106-113 | a fresh serial id above every stored one; no table changes |
| BatchController.NotesOrNull | agri-qcert/backend/src/controllers/batchController.js:22 | NULL exactly when the notes are falsy, the notes otherwise |
| BatchController.CreateBatch | agri-qcert/backend/src/controllers/batchController.js:3-33 | 400 on a missing field, then 401 without a user, with no write; otherwise 201 and one new `submitted` row under a fresh id, unit defaulting to `kg`, notes `\|\| null`, other tables kept |
| BatchController.GetBatches | agri-qcert/backend/src/controllers/batchController.js:35-59 | exactly the batches matching the given status and exporter, each once, newest first |
| BatchController.GetBatchById | agri-qcert/backend/src/controllers/batchController.js:61-76 | the stored row, or 404 `Batch not found` |
| BatchController.UpdateBatch | agri-qcert/backend/src/controllers/batchController.js:78-103 | 404 with no write for an unknown id; otherwise the six descriptive columns take the raw body values and updated_at is set, with status, exporter and created_at kept |
| BatchController.DeleteBatch | agri-qcert/backend/src/controllers/batchController.js:105-120 | 404 with no write for an unknown id; otherwise exactly that row is removed, inspections untouched |
| BatchController.ZeroQuantityRejected | agri-qcert/backend/src/controllers/batchController.js:10 | a zero quantity counts as missing |
| BatchController.NegativeQuantityAccepted | agri-qcert/backend/src/controllers/batchController.js:10 | a negative quantity passes validation |
| InspectionController.SetBatchStatus | agri-qcert/backend/src/controllers/inspectionController.js:12 | only the named batch's status changes, and nothing changes when it does not exist |
| InspectionController.CreateInspection | agri-qcert/backend/src/controllers/inspectionController.js:3-29 | 400 with no write unless batch, agency and date are truthy; otherwise the batch turns `inspection_pending` and one `scheduled` inspection with no findings is inserted under a fresh id |
| InspectionController.GetInspections | agri-qcert/backend/src/controllers/inspectionController.js:31-60 | exactly the inspections matching the given batch, agency and status filters, each once, newest first |
| InspectionController.NumberOrNull | agri-qcert/backend/src/controllers/inspectionController.js:72 | NULL exactly for a missing or zero measurement |
| InspectionController.UpdateInspection | agri-qcert/backend/src/controllers/inspectionController.js:62-87 | 404 with no write for an unknown id; otherwise the five findings are replaced and the status becomes `in_progress` from any prior status |
| InspectionController.CompleteInspection | agri-qcert/backend/src/controllers/inspectionController.js:89-114 | 404 with no write for an unknown id; otherwise `completed` with completed_at set, and the owning batch becomes `inspection_completed` |
| InspectionController.ZeroMeasurementStoredAsNull | agri-qcert/backend/src/controllers/inspectionController.js:72 | a zero measurement is stored like a missing one |
| CompleteInspections.CompleteAll | agri-qcert/backend/scripts/complete-inspections.js:6-10 | every scheduled row becomes completed at `now`, every other row is kept, no row added or removed |
| CompleteInspections.CompleteAllScheduledInspections | agri-qcert/backend/scripts/complete-inspections.js:3-19 | the inspections table becomes CompleteAll of the old one, the count is the number of scheduled rows, other tables are kept |
| CompleteInspections.NoneLeftScheduled | agri-qcert/backend/scripts/complete-inspections.js:6-10 | after the update no inspection is scheduled |
| CompleteInspections.CompleteIdempotent | agri-qcert/backend/scripts/complete-inspections.js:6-13 | a second run changes nothing and counts 0 rows |
| Credential.SigningSecret | agri-qcert/backend/src/controllers/vcController.js:90 | the setting when it is non-empty, `vc-signing-secret` otherwise; never empty |
| Credential.TtlDays | agri-qcert/backend/src/controllers/vcController.js:62 | the setting when given, 180 days otherwise |
| Credential.Expiration | agri-qcert/backend/src/controllers/vcController.js:63 | exactly ttl days of milliseconds after issuance, so later than issuance for a positive ttl |
| Credential.Digits | agri-qcert/backend/src/controllers/vcController.js:72 | the issuer id written in decimal: non-empty, all digits, and denoting the id |
| Credential.IssuerDidInjective | agri-qcert/backend/src/controllers/vcController.js:72 | distinct issuers get distinct DIDs |
| Credential.BuildPayload | agri-qcert/backend/src/controllers/vcController.js:61-87 | no proof yet; issuer DID and dates from the issuer and clock, expiration ttl days later in ms; each subject field copied from the joined batch and inspection |
| Credential.IssuanceStamp | agri-qcert/backend/src/controllers/vcController.js:90-94 | the hash of the serialised payload followed by the secret |
| Credential.ExpectedStamp | agri-qcert/backend/src/controllers/vcController.js:206-210 | the same hash over the stored payload with its proof removed |
| Credential.IntegrityOk | agri-qcert/backend/src/controllers/vcController.js:212-213 | the stored proof value is non-empty and equals the recomputed stamp |
| Credential.IsExpired | agri-qcert/backend/src/controllers/vcController.js:199-200 | an expiration date is present and not after now |
| Credential.SerialiseInjective | agri-qcert/backend/src/controllers/vcController.js:93 | distinct payloads never serialise alike |
| Credential.StampRoundTrip | agri-qcert/backend/src/controllers/vcController.js:91-102 | the verifier's stamp over the payload without proof equals the issuance stamp |
| Credential.SealedIntegrityOk | agri-qcert/backend/src/controllers/vcController.js:205-215 | a freshly sealed payload passes the integrity gate when digests are 64 characters |
| Credential.TamperDetected | agri-qcert/backend/src/controllers/vcController.js:205-215 | with an injective hash, changing any field outside the proof while keeping the issued proof fails the integrity gate |
| Credential.ProofMetadataNotCovered | agri-qcert/backend/src/controllers/vcController.js:207-213 | the proof's type, date, purpose and key reference may be rewritten without failing the gate |
| Credential.VerifyRow | agri-qcert/backend/src/controllers/vcController.js:185-225 | the first failing gate gives the reason, in order: not issued, inspection not completed, batch not certified, expired, integrity failed, each with 400; valid exactly when all pass, carrying id, issuer, dates and batch |
| Credential.ExpiryMonotone | agri-qcert/backend/src/controllers/vcController.js:198-203 | a credential found expired stays expired later |
| Credential.StatusGateBeforeStamp | agri-qcert/backend/src/controllers/vcController.js:194-196 | a batch moved away from `certified` is reported by the status gate, whatever the stamp |
| Credential.SealedVerifies | agri-qcert/backend/src/controllers/vcController.js:185-225 | a sealed, issued credential on a completed inspection and certified batch verifies before its expiration |
| VcController.Issue | agri-qcert/backend/src/controllers/vcController.js:14-59 | a refused issuance writes no table |
| VcController.IssueRefusals | agri-qcert/backend/src/controllers/vcController.js:14-59 | the refusals in their order: 400 without an id, 404 without a joined row, 400 for an inspection not completed, 403 for a role other than admin or qa_agency, and 400 naming the existing credential; created exactly when all checks pass |
| VcController.IssueEffect | agri-qcert/backend/src/controllers/vcController.js:14-129 | a created reply means every check passed; the reply carries the new id, the issuer DID and the dates; exactly one credential row is added, under the new id, for the inspection, by the caller, `issued`, created now, holding the claims of the joined row sealed with the stamp; exactly the owning batch becomes `certified`; every other row is kept |
| VcController.GenerateVC | agri-qcert/backend/src/controllers/vcController.js:5-129 | the reply and the new batches and credentials are Issue of the old tables with the next serial id, so the refusal chain and the writes are those of IssueRefusals and IssueEffect; inspections are never written; a refusal changes nothing |
| VcController.InsertCredential | agri-qcert/backend/src/controllers/vcController.js:96-129 | the 201 reply with the next serial id; the credential table gains exactly the sealed row built from the joined inspection and batch, issued by the caller now; the batch table changes only in that batch becoming `certified` |
| VcController.GetVC | agri-qcert/backend/src/controllers/vcController.js:136-159 | the stored payload with its id, or 404 `Credential not found` |
| VcController.RequestedId | agri-qcert/backend/src/controllers/vcController.js:163 | the body id when it is a non-zero number, else the route id, else the query id; none only when all three are missing |
| VcController.VerifyIn | agri-qcert/backend/src/controllers/vcController.js:163-225 | 400 when the request names no id, 404 when the three-table join has no row, and otherwise valid exactly when all gates pass, with the reply's fields |
| VcController.VerifyVC | agri-qcert/backend/src/controllers/vcController.js:161-230 | the verdict is VerifyIn of the tables for the requested id; nothing is written |
| VcController.RouteZeroNotFound | agri-qcert/backend/src/controllers/vcController.js:163-180 | a route naming credential 0 gets 404 `Credential not found`, while a body id of 0 counts as no id and gets 400 |
| VcController.IssueThenVerify | agri-qcert/backend/src/controllers/vcController.js:61-225 | a credential just issued verifies as valid before its expiration, with its issuer, dates and batch |
| VcController.IssueKeepsOneCredentialPerInspection | agri-qcert/backend/src/controllers/vcController.js:51-59 | issuance never gives an inspection a second credential |
| VcController.SecondIssueRefused | agri-qcert/backend/src/controllers/vcController.js:51-59 | issuing again for the same inspection is refused with 400 and the existing credential's id |
| VcController.AssignedAgencyIgnored | agri-qcert/backend/src/controllers/vcController.js:39-49 | which agency the inspection is assigned to never changes the issuance |
| VcController.TamperedCredentialRejected | agri-qcert/backend/src/controllers/vcController.js:205-215 | replacing an issued credential's claims while keeping its proof makes verification fail, given an injective hash |
| PendingNotice.NotPendingBy | agri-qcert/frontend/src/pages/importer/Dashboard.jsx:68-69 | a message missing one letter of each keyword is not classed as pending |
| PendingNotice.LooksPending | agri-qcert/frontend/src/pages/importer/VerifyCredential.jsx:38-39 | the lower-cased message contains `pending`, `not issued`, `waiting` or `inspection` |
| PendingNotice.PendingIgnoresCase | agri-qcert/frontend/src/pages/importer/Dashboard.jsx:68 | letter case never changes the classification |
| PendingNotice.InspectionNotCompletedPending | agri-qcert/frontend/src/pages/importer/Dashboard.jsx:68-69 | the server's `Associated inspection is not completed` is classed as pending |
| PendingNotice.FailureClassification | agri-qcert/frontend/src/pages/importer/Dashboard.jsx:68-69 | of the seven verifier failure texts, exactly the inspection one is classed as pending |
| ExporterDashboard.Canonical | agri-qcert/frontend/src/pages/exporter/Dashboard.jsx:43-47 | each synonym group, and only it, maps to its stored value; the empty text is `submitted`; other text is kept |
| ExporterDashboard.NormalizeStatus | agri-qcert/frontend/src/pages/exporter/Dashboard.jsx:41-48 | never empty, and a missing or empty status is `submitted` |
| ExporterDashboard.NormalizeIgnoresCaseAndSpace | agri-qcert/frontend/src/pages/exporter/Dashboard.jsx:42 | only the trimmed, lower-cased text decides the result |
| ExporterDashboard.StoredValueFixed | agri-qcert/frontend/src/pages/exporter/Dashboard.jsx:43-47 | each status the backend stores normalises to itself |
| ExporterDashboard.NormalizeIdempotent | agri-qcert/frontend/src/pages/exporter/Dashboard.jsx:41-48 | normalising a normalised status changes nothing |
| ExporterDashboard.Normalized | agri-qcert/frontend/src/pages/exporter/Dashboard.jsx:51 | same length and order, only the status rewritten |
| ExporterDashboard.StatsOf | agri-qcert/frontend/src/pages/exporter/Dashboard.jsx:52-57 | total is the length; pending counts the cards whose status is `submitted` or `inspection_pending`, certified those `certified`, rejected those `rejected`; the three never exceed the total |
| ExporterDashboard.StatsAppend | agri-qcert/frontend/src/pages/exporter/Dashboard.jsx:52-57 | one more card raises the total by one and exactly its own group's count |
| ExporterDashboard.NormalizedIdempotent | agri-qcert/frontend/src/pages/exporter/Dashboard.jsx:51 | normalising the list twice is normalising it once |
| ExporterDashboard.DashboardPage.CalculateStats | agri-qcert/frontend/src/pages/exporter/Dashboard.jsx:50-59 | the page holds the normalised list and its counts |
| QaDashboard.StatsOf | agri-qcert/frontend/src/pages/qa-agency/Dashboard.jsx:97-113 | total is the number of inspections; completed counts status `completed`, pending every other status; the two add up to the total |
| QaDashboard.StatsAppend | agri-qcert/frontend/src/pages/qa-agency/Dashboard.jsx:97-113 | one more inspection raises the total, and the completed count exactly when it is `completed`, the pending count otherwise |
| QaDashboard.NoneCompletedAllPending | agri-qcert/frontend/src/pages/qa-agency/Dashboard.jsx:104-111 | with no completed inspection, every inspection is pending |
| QaDashboard.Recent | agri-qcert/frontend/src/pages/qa-agency/Dashboard.jsx:115 | the first min(10, n) inspections, in order |
| QaDashboard.DashboardPage.HandleScheduleInspection | agri-qcert/frontend/src/pages/qa-agency/Dashboard.jsx:51-67 | without a user id: the error and no request; otherwise one request with the user as agency, the list reloaded or the server's error (else the fallback), and no batch left marked as scheduling |
| InspectionForm.ExtractCredentialId | agri-qcert/frontend/src/pages/qa-agency/InspectionForm.jsx:111-116 | an id is found exactly when one of the four keys holds a truthy id, and it is never 0 |
| InspectionForm.ExtractionOrder | agri-qcert/frontend/src/pages/qa-agency/InspectionForm.jsx:111-114 | credential.credentialId, then credential.id, then credentialId, then id |
| InspectionForm.IssuedIdFound | agri-qcert/frontend/src/pages/qa-agency/InspectionForm.jsx:111-114 | the 201 reply of issuance always yields the new credential's id |
| InspectionForm.OrganicToForm | agri-qcert/frontend/src/pages/qa-agency/InspectionForm.jsx:46 | `yes` exactly for a stored true, `no` otherwise |
| InspectionForm.OrganicFromForm | agri-qcert/frontend/src/pages/qa-agency/InspectionForm.jsx:74 | true exactly for `yes` |
| InspectionForm.OrganicRoundTrip | agri-qcert/frontend/src/pages/qa-agency/InspectionForm.jsx:46-74 | load then submit keeps a stored boolean and turns a missing one into false |
| InspectionForm.InTransitionSubmittedFalse | agri-qcert/frontend/src/pages/qa-agency/InspectionForm.jsx:74 | `in-transition` is submitted as false |
| InspectionForm.ExactlyOneAction | agri-qcert/frontend/src/pages/qa-agency/InspectionForm.jsx:298-316 | exactly one of Mark Complete and Issue Credential is offered, the latter exactly for `completed` |
| InspectionForm.FormPage.HandleChange | agri-qcert/frontend/src/pages/qa-agency/InspectionForm.jsx:60-64 | only the named field changes, and only its error is blanked |
| InspectionForm.FormPage.HandleGenerateVC | agri-qcert/frontend/src/pages/qa-agency/InspectionForm.jsx:102-137 | a found id is recorded with success; a reply without one sets the not-found error and no success; a thrown call sets the first of error, message, error message, fallback |
| ImporterDashboard.WithoutId | agri-qcert/frontend/src/pages/importer/Dashboard.jsx:64 | exactly the entries with another id, never longer |
| ImporterDashboard.WithoutIdSubsequence | agri-qcert/frontend/src/pages/importer/Dashboard.jsx:64 | filtering keeps the order of the remaining entries |
| ImporterDashboard.WithoutIdUnique | agri-qcert/frontend/src/pages/importer/Dashboard.jsx:64 | filtering keeps ids unique |
| ImporterDashboard.UpdateHistory | agri-qcert/frontend/src/pages/importer/Dashboard.jsx:55-65 | 1 to 10 entries, the new one first, followed by the older entries with other ids in their order, the oldest cut when more than ten |
| ImporterDashboard.HistoryOrderKept | agri-qcert/frontend/src/pages/importer/Dashboard.jsx:64-65 | the older entries keep their relative order, and one is dropped only when the list is full |
| ImporterDashboard.HistoryIdsUnique | agri-qcert/frontend/src/pages/importer/Dashboard.jsx:55-65 | a history with unique ids keeps them unique |
| ImporterDashboard.FailureReport | agri-qcert/frontend/src/pages/importer/Dashboard.jsx:67-74 | the text is message \|\| error \|\| fallback; when it looks pending only the review notice is set, otherwise only the error, holding that text |
| ImporterDashboard.DashboardPage.HandleVerify | agri-qcert/frontend/src/pages/importer/Dashboard.jsx:25-81 | a blank id sets the error and makes no call; otherwise the untrimmed id is verified; success stores result, detail, QR and the updated history; failure clears result, detail and QR and keeps the history |
| VerifyCredential.Split | agri-qcert/frontend/src/pages/importer/VerifyCredential.jsx:10 | at least one piece, none containing `/` |
| VerifyCredential.SplitJoin | agri-qcert/frontend/src/pages/importer/VerifyCredential.jsx:10 | joining the pieces with `/` gives the path back |
| VerifyCredential.SplitTrailingSlash | agri-qcert/frontend/src/pages/importer/VerifyCredential.jsx:10 | a trailing `/` adds exactly one empty piece |
| VerifyCredential.NonEmpty | agri-qcert/frontend/src/pages/importer/VerifyCredential.jsx:10 | exactly the non-empty pieces |
| VerifyCredential.Segments | agri-qcert/frontend/src/pages/importer/VerifyCredential.jsx:10 | no segment is empty or contains `/` |
| VerifyCredential.TrailingSlashIgnored | agri-qcert/frontend/src/pages/importer/VerifyCredential.jsx:10 | a trailing slash does not change the segments |
| VerifyCredential.DeriveCredentialId | agri-qcert/frontend/src/pages/importer/VerifyCredential.jsx:9-12 | route parameter, then query `credentialId`, then query `id`; failing those, the last segment when there is one and it is not `verify` |
| VerifyCredential.TwoSegments | agri-qcert/frontend/src/pages/importer/VerifyCredential.jsx:10 | `/a/b` has segments a and b |
| VerifyCredential.QrLinkNamesCredential | agri-qcert/backend/src/controllers/vcController.js:243 | the `/verify/<id>` path a QR code encodes names that credential |
| VerifyCredential.FailureText | agri-qcert/frontend/src/pages/importer/VerifyCredential.jsx:37 | the failure text is never empty |
| VerifyCredential.Shown | agri-qcert/frontend/src/pages/importer/VerifyCredential.jsx:75 | the pending notice when set, the error otherwise |
| VerifyCredential.VerifyPage.VerifyAsWritten | agri-qcert/frontend/src/pages/importer/VerifyCredential.jsx:29-50 | the handler as written: success clears both texts; a pending failure sets only the notice; another failure sets the error and keeps the old notice |
| VerifyCredential.VerifyPage.Verify | agri-qcert/frontend/src/pages/importer/VerifyCredential.jsx:29-50 | the corrected handler: after a failure exactly one of notice and error is set, and a non-pending failure is the text shown |
| VerifyCredential.VerifyPage.OnLoad | agri-qcert/frontend/src/pages/importer/VerifyCredential.jsx:19-27 | without an id, the missing-id error and no call; otherwise that id is verified and the page shows the outcome as the corrected handler does |
| VerifyCredential.VerifyPage.HandleManualVerify | agri-qcert/frontend/src/pages/importer/VerifyCredential.jsx:52-59 | a blank entry sets the error and makes no call; otherwise the trimmed entry is verified and the page shows the outcome as the corrected handler does |
| VerifyCredential.StaleNoticeAsWritten | agri-qcert/frontend/src/pages/importer/VerifyCredential.jsx:37-45 | a pending failure followed by an integrity failure leaves both texts set and shows the stale notice |
| BatchSubmission.Without | agri-qcert/frontend/src/pages/exporter/BatchSubmission.jsx:48 | exactly the other certifications, never longer |
| BatchSubmission.Toggle | agri-qcert/frontend/src/pages/exporter/BatchSubmission.jsx:44-51 | a ticked certification is removed wherever it stands, an unticked one appended at the end |
| BatchSubmission.ToggleFlips | agri-qcert/frontend/src/pages/exporter/BatchSubmission.jsx:44-51 | the toggled certification's membership flips and no other membership changes |
| BatchSubmission.ToggleDistinct | agri-qcert/frontend/src/pages/exporter/BatchSubmission.jsx:47-49 | toggling never introduces a duplicate |
| BatchSubmission.ToggleTwice | agri-qcert/frontend/src/pages/exporter/BatchSubmission.jsx:47-49 | toggling twice restores membership, and the list itself when the certification was unticked |
| BatchSubmission.PayloadOf | agri-qcert/frontend/src/pages/exporter/BatchSubmission.jsx:66-73 | each column comes from its input under the server's name; empty notes are sent as null |
| BatchSubmission.NotesAgreeWithServer | agri-qcert/frontend/src/pages/exporter/BatchSubmission.jsx:72 | the server's `notes \|\| null` leaves the notes the form sent unchanged |
| BatchSubmission.RequiredAgreesWithServer | agri-qcert/frontend/src/pages/exporter/BatchSubmission.jsx:58-68 | the server accepts a form's body exactly when product, location and destination are filled and the quantity converts to a non-zero number |
| BatchSubmission.SubmissionPage.HandleChange | agri-qcert/frontend/src/pages/exporter/BatchSubmission.jsx:39-42 | only the named input changes |
| BatchSubmission.SubmissionPage.HandleCertification | agri-qcert/frontend/src/pages/exporter/BatchSubmission.jsx:44-51 | the certifications become the toggle of the old list; nothing else changes |
| BatchSubmission.SubmissionPage.HandleSubmit | agri-qcert/frontend/src/pages/exporter/BatchSubmission.jsx:53-88 | an incomplete form sets the required-fields error and sends nothing; otherwise the payload is sent, and the page shows success or error \|\| message \|\| error message \|\| fallback |
| RegisterPage.ChecksMeanAcceptable | agri-qcert/frontend/src/pages/auth/RegisterPage.jsx:31-37 | no check fails exactly when name, email, password and organization are filled and the passwords match |
| RegisterPage.PhoneAndRoleUnchecked | agri-qcert/frontend/src/pages/auth/RegisterPage.jsx:31-37 | phone and role never decide whether a form passes |
| RegisterPage.CollectErrors | agri-qcert/frontend/src/pages/auth/RegisterPage.jsx:29-37 | one error per failing input, with that input's message, and no other key |
| RegisterPage.EmptyErrorsAcceptable | agri-qcert/frontend/src/pages/auth/RegisterPage.jsx:39 | no error keys exactly for a registrable form |
| RegisterPage.RegisterForm.HandleChange | agri-qcert/frontend/src/pages/auth/RegisterPage.jsx:21-25 | the input is set and its error blanked, nothing else |
| RegisterPage.RegisterForm.HandleSubmit | agri-qcert/frontend/src/pages/auth/RegisterPage.jsx:27-58 | errors stop the call; a registrable form is sent without the confirmation, then goes to `/login` or shows message \|\| `Registration failed` |
| LoginPage.RouteForRole | agri-qcert/frontend/src/pages/auth/LoginPage.jsx:35-50 | a dashboard exactly for the four roles, `/` otherwise |
| LoginPage.RoutesDistinct | agri-qcert/frontend/src/pages/auth/LoginPage.jsx:35-47 | no two roles share a dashboard |
| LoginPage.LoginForm.HandleChange | agri-qcert/frontend/src/pages/auth/LoginPage.jsx:13-17 | the input is set and its error blanked, nothing else |
| LoginPage.LoginForm.HandleSubmit | agri-qcert/frontend/src/pages/auth/LoginPage.jsx:19-54 | a missing email or password each get their error and stop the call; otherwise the login is sent and the user goes to their role's route, or sees `Invalid email or password` |
| Navbar.DashboardPath | agri-qcert/frontend/src/components/Navbar.jsx:31-39 | the table entry for a listed role, `/login` for any other or missing role |
| Navbar.DashboardAgreesWithLogin | agri-qcert/frontend/src/components/Navbar.jsx:31-39 | the bar's link and the login redirect agree on the four roles; otherwise the bar offers `/login` and the login page `/` |
| Navbar.ToggleTheme | agri-qcert/frontend/src/components/Navbar.jsx:22-24 | `light` exactly from `dark`, `dark` from anything else |
| Navbar.ToggleFlipsDarkness | agri-qcert/frontend/src/components/Navbar.jsx:12-24 | each toggle flips whether the page is dark |
| Navbar.ToggleTwice | agri-qcert/frontend/src/components/Navbar.jsx:22-24 | two toggles restore `dark` or `light`, and settle any other stored value on `light` |

## Left out

- VcController.Issue: its own contract states only that a refusal writes nothing; the refusal chain is stated by VcController.IssueRefusals and a created reply by VcController.IssueEffect.
- The sha256 function and the byte layout of `JSON.stringify`. The hash is a parameter. The serialisation is an ordered token list with the payload's keys in their source order; it is proved injective, as JSON of these records is.
- QR code generation (`generateQRCode`) is a call into a library. Only the `/verify/<id>` path it encodes is modelled.
- PostgreSQL. The SQL text becomes map operations, and `NOW()` becomes the `now` parameter. Foreign keys are not modelled because the schema is not part of this model, so `createInspection` accepts an unknown batch id and `deleteBatch` leaves its inspections in place.
- The 500 replies of the `catch` blocks. The model has no database errors.
- Concurrency. Two simultaneous issuances can both pass the duplicate check, and the insert and the batch update are not atomic. The model runs handlers one at a time.
- The environment is read as parameters: `VC_TTL_DAYS` as a number, `VC_SIGNING_SECRET` as text.
- Routing and authentication middleware. `req.user` is a parameter.
- ISO date strings. Dates are integer milliseconds, and the expiry comparison is done on those.
- Number conversion and floats: `Number(...)`, `parseFloat(...)` and `parseInt` of the route id. Measurements and quantities are integers or None; the conversion of the quantity text is a parameter of `BatchSubmission.RequiredAgreesWithServer`.
- A JSON `null` unit. The body's unit is text or missing, and a missing unit defaults to `kg`. The destructuring default applies only to an undefined unit, so in the source an explicit `null` is stored as NULL by `createBatch` and `updateBatch`.
- VcController.VerifyVC: the body id is a number and the route and query ids are the numbers their text spells. Text that spells no number makes the SQL cast fail with a 500, which is not modelled. A body id sent as text is not modelled either.
- `VerifyCredential.VerifyPage.OnLoad` and `HandleManualVerify` run the corrected handler `Verify`. The handler as written is `VerifyAsWritten`; the difference is the finding below.
- Unicode case mapping. `Lower` maps only ASCII letters.
- `toString` of a non-string status. Statuses are text.
- React rendering, hooks, timers, navigation delays, localStorage and console logging.
- The history cache read from localStorage is taken as the page's initial history, and the write back is left out.
- The loading flags of the pages.
- `ExporterDashboard.DashboardPage.CalculateStats`: the fetch around it (`fetchBatches`) and its error text are left out.
- The status label and colour switches (`getStatusColor`, `getStatusLabel`) are presentational.
- `handleSelectInspection`, `handleIssueVC`, `loadInspections` and `loadSubmittedBatches` of the QA dashboard are left out. The two loaders set their own errors (`Failed to load inspections`, `Failed to load submitted batches`) without throwing. So after a successful create, a failed reload leaves one of those errors. `QaDashboard.DashboardPage.HandleScheduleInspection` takes the reload's outcome as a parameter and cannot express that case: its `Scheduled` outcome always leaves the error empty.
- `loadInspection`, `handleSubmit` and `handleCompleteInspection` of the inspection form are left out. Only the organic-status mapping of the load and submit is modelled, and the numeric `|| ''` fields of the load are not.
- `InspectionForm.FormPage.HandleChange`: an input name outside the form's fields is accepted and stored, like the spread does.
- `Navbar.DashboardPath`: inherited object keys (a role named `constructor`, say) are not modelled; the table is a map with just the four roles.
- The register call's own error state inside the authentication hook is not part of this model.
- `ImporterDashboard.DashboardPage.HandleVerify`: the detail and QR fetches are folded into the outcome parameter; a failure of either only leaves that field empty.

## Findings

| source | as written | input that shows it | evidently intended | confidence | as-written member | corrected member |
|---|---|---|---|---|---|---|
| agri-qcert/frontend/src/pages/importer/VerifyCredential.jsx:40-45 | a failure that does not look pending sets the error but leaves an earlier pending notice in place, and the card shows `pendingInfo \|\| error` | verify an id whose inspection is not completed (the pending notice is set), then an id whose stamp fails: both texts are set and the card still shows the pending notice | every failure replaces the previous one, so at most one of notice and error is set and the current failure is shown | not executed | VerifyCredential.StaleNoticeAsWritten | VerifyCredential.VerifyPage.Verify |
