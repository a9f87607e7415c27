/** The verifiable-credential payload, its canonical serialisation, the
    integrity stamp (a hash of the serialised payload followed by a secret) and
    the verifier's gate chain over one joined credential row. The hash is a
    parameter; properties that need it injective or digest-shaped say so. */
module Credential {
  import opened Common
  import opened Records

  const MsPerDay := 86_400_000 // 24 * 60 * 60 * 1000
  const DefaultTtlDays := 180
  const DefaultSecret := "vc-signing-secret"
  const IssuerPrefix := "did:example:issuer-"
  const KeySuffix := "#key-1"
  const ContextUrls := ["https://www.w3.org/2018/credentials/v1", "https://www.w3.org/2018/credentials/examples/v1"]
  const CredentialTypes := ["VerifiableCredential", "AgriculturalProductCredential"]

  /** What the credential asserts, copied from the joined batch and inspection. */
  datatype Subject = Subject(
    productType: Option<string>,
    quantity: Option<int>,
    location: Option<string>,
    destination: Option<string>,
    moistureLevel: Option<int>,
    pesticideContent: Option<int>,
    organicStatus: Option<bool>,
    isoCodes: Option<string>,
    batchId: nat,
    inspectionId: nat)

  datatype Proof = Proof(
    proofType: string,
    created: int,
    proofPurpose: string,
    verificationMethod: string,
    proofValue: string)

  /** The stored document; dates are milliseconds since the epoch. */
  datatype Payload = Payload(
    context: seq<string>,
    types: seq<string>,
    issuer: string,
    issuanceDate: int,
    expirationDate: Option<int>,
    subject: Subject,
    proof: Option<Proof>)

  /** A row of verifiable_credentials. */
  datatype CredentialRow = CredentialRow(
    id: nat,
    inspectionId: nat,
    issuerId: nat,
    payload: Payload,
    status: string,
    createdAt: int)

  // ---------------------------------------------------------------------------
  // Canonical serialisation: the payload's keys in their fixed order, each
  // followed by its value; an array is announced by its length.

  datatype Token = TStr(s: string) | TInt(n: int) | TBool(b: bool) | TNull | TArr(len: nat)

  function Strings(xs: seq<string>): (ts: seq<Token>)
    ensures |ts| == |xs|
    ensures forall i :: 0 <= i < |xs| ==> ts[i] == TStr(xs[i])
  {
    seq(|xs|, i requires 0 <= i < |xs| => TStr(xs[i]))
  }

  function OptStr(o: Option<string>): Token {
    match o
    case None => TNull
    case Some(s) => TStr(s)
  }

  function OptInt(o: Option<int>): Token {
    match o
    case None => TNull
    case Some(n) => TInt(n)
  }

  function OptBool(o: Option<bool>): Token {
    match o
    case None => TNull
    case Some(b) => TBool(b)
  }

  function ArrayBlock(key: string, xs: seq<string>): seq<Token> {
    [TStr(key), TArr(|xs|)] + Strings(xs)
  }

  function HeadTokens(p: Payload): seq<Token> {
    [TStr("issuer"), TStr(p.issuer),
     TStr("issuanceDate"), TInt(p.issuanceDate),
     TStr("expirationDate"), OptInt(p.expirationDate),
     TStr("credentialSubject")]
  }

  function SubjectTokens(s: Subject): seq<Token> {
    [TStr("productType"), OptStr(s.productType),
     TStr("quantity"), OptInt(s.quantity),
     TStr("location"), OptStr(s.location),
     TStr("destination"), OptStr(s.destination),
     TStr("moistureLevel"), OptInt(s.moistureLevel),
     TStr("pesticideContent"), OptInt(s.pesticideContent),
     TStr("organicStatus"), OptBool(s.organicStatus),
     TStr("isoCodes"), OptStr(s.isoCodes),
     TStr("batchId"), TInt(s.batchId),
     TStr("inspectionId"), TInt(s.inspectionId)]
  }

  /** An absent proof contributes nothing, as JSON.stringify drops an undefined key. */
  function ProofTokens(o: Option<Proof>): seq<Token> {
    match o
    case None => []
    case Some(p) =>
      [TStr("proof"),
       TStr("type"), TStr(p.proofType),
       TStr("created"), TInt(p.created),
       TStr("proofPurpose"), TStr(p.proofPurpose),
       TStr("verificationMethod"), TStr(p.verificationMethod),
       TStr("proofValue"), TStr(p.proofValue)]
  }

  /** Everything after the two arrays. */
  function BodyTokens(p: Payload): seq<Token> {
    HeadTokens(p) + (SubjectTokens(p.subject) + ProofTokens(p.proof))
  }

  function Serialise(p: Payload): seq<Token> {
    ArrayBlock("@context", p.context) + (ArrayBlock("type", p.types) + BodyTokens(p))
  }

  lemma Cancel<T>(a: seq<T>, b: seq<T>, c: seq<T>, d: seq<T>)
    requires a + b == c + d && |a| == |c|
    ensures a == c && b == d
  {
    assert a == (a + b)[..|a|] && c == (c + d)[..|c|];
    assert b == (a + b)[|a|..] && d == (c + d)[|c|..];
  }

  /** An array block announces its length, so two encodings that agree agree on
      the block and on everything after it. */
  lemma ArrayBlockPrefix(key: string, xs: seq<string>, ys: seq<string>, rest1: seq<Token>, rest2: seq<Token>)
    requires ArrayBlock(key, xs) + rest1 == ArrayBlock(key, ys) + rest2
    ensures xs == ys && rest1 == rest2
  {
    var a, c := ArrayBlock(key, xs), ArrayBlock(key, ys);
    assert (a + rest1)[1] == TArr(|xs|);
    assert (c + rest2)[1] == TArr(|ys|);
    Cancel(a, rest1, c, rest2);
    forall i | 0 <= i < |xs| ensures xs[i] == ys[i] {
      assert a[i + 2] == TStr(xs[i]) && c[i + 2] == TStr(ys[i]);
    }
  }

  /** The serialisation is injective: distinct payloads never serialise alike. */
  lemma SerialiseInjective(p: Payload, q: Payload)
    requires Serialise(p) == Serialise(q)
    ensures p == q
  {
    ArrayBlockPrefix("@context", p.context, q.context,
                     ArrayBlock("type", p.types) + BodyTokens(p), ArrayBlock("type", q.types) + BodyTokens(q));
    ArrayBlockPrefix("type", p.types, q.types, BodyTokens(p), BodyTokens(q));
    BodyInjective(p, q);
  }

  lemma BodyInjective(p: Payload, q: Payload)
    requires BodyTokens(p) == BodyTokens(q)
    ensures p.issuer == q.issuer && p.issuanceDate == q.issuanceDate && p.expirationDate == q.expirationDate
    ensures p.subject == q.subject && p.proof == q.proof
  {
    var hp, hq := HeadTokens(p), HeadTokens(q);
    var sp, sq := SubjectTokens(p.subject), SubjectTokens(q.subject);
    Cancel(hp, sp + ProofTokens(p.proof), hq, sq + ProofTokens(q.proof));
    Cancel(sp, ProofTokens(p.proof), sq, ProofTokens(q.proof));
    assert hp[1] == hq[1] && hp[3] == hq[3] && hp[5] == hq[5];
    assert OptInt(p.expirationDate) == OptInt(q.expirationDate);
    SubjectInjective(p.subject, q.subject);
    ProofInjective(p.proof, q.proof);
  }

  lemma SubjectInjective(s: Subject, t: Subject)
    requires SubjectTokens(s) == SubjectTokens(t)
    ensures s == t
  {
    var a, b := SubjectTokens(s), SubjectTokens(t);
    assert a[1] == b[1] && a[3] == b[3] && a[5] == b[5] && a[7] == b[7] && a[9] == b[9];
    assert a[11] == b[11] && a[13] == b[13] && a[15] == b[15] && a[17] == b[17] && a[19] == b[19];
    assert OptStr(s.productType) == OptStr(t.productType);
    assert OptInt(s.quantity) == OptInt(t.quantity);
    assert OptStr(s.location) == OptStr(t.location);
    assert OptStr(s.destination) == OptStr(t.destination);
    assert OptInt(s.moistureLevel) == OptInt(t.moistureLevel);
    assert OptInt(s.pesticideContent) == OptInt(t.pesticideContent);
    assert OptBool(s.organicStatus) == OptBool(t.organicStatus);
    assert OptStr(s.isoCodes) == OptStr(t.isoCodes);
  }

  lemma ProofInjective(o: Option<Proof>, u: Option<Proof>)
    requires ProofTokens(o) == ProofTokens(u)
    ensures o == u
  {
    if o.Some? && u.Some? {
      var a, b := ProofTokens(o), ProofTokens(u);
      assert a[2] == b[2] && a[4] == b[4] && a[6] == b[6] && a[8] == b[8] && a[10] == b[10];
    }
  }

  // ---------------------------------------------------------------------------
  // Issuance

  /** `process.env.VC_SIGNING_SECRET || 'vc-signing-secret'`. */
  function SigningSecret(setting: Option<string>): (s: string)
    ensures s != ""
    ensures TruthyStr(setting) ==> s == setting.value
    ensures !TruthyStr(setting) ==> s == DefaultSecret
  {
    if TruthyStr(setting) then setting.value else DefaultSecret
  }

  /** `Number(process.env.VC_TTL_DAYS || 180)`; `setting` is the variable's numeric
      value, None when it is unset or empty. */
  function TtlDays(setting: Option<int>): (days: int)
    ensures setting.Some? ==> days == setting.value
    ensures setting.None? ==> days == DefaultTtlDays
  {
    setting.GetOr(DefaultTtlDays)
  }

  /** The expiration date lies exactly `ttlDays` whole days of milliseconds
      after the issuance date. */
  function Expiration(issuanceDate: int, ttlDays: int): (e: int)
    ensures e - issuanceDate == ttlDays * 24 * 60 * 60 * 1000
    ensures ttlDays > 0 ==> e > issuanceDate
  {
    issuanceDate + ttlDays * MsPerDay
  }

  /** The number a text of decimal digits denotes, read left to right. */
  function DecimalValue(s: string): nat {
    if s == [] then 0
    else
      var c := s[|s| - 1];
      10 * DecimalValue(s[..|s| - 1]) + (if '0' <= c <= '9' then c as int - '0' as int else 0)
  }

  /** The decimal numeral of n, as template interpolation writes it. */
  function Digits(n: nat): (s: string)
    ensures s != [] && forall i :: 0 <= i < |s| ==> '0' <= s[i] <= '9'
    ensures DecimalValue(s) == n
  {
    var d := ['0' + (n % 10) as char];
    if n < 10 then d
    else
      var s := Digits(n / 10) + d;
      assert s[..|s| - 1] == Digits(n / 10);
      s
  }

  function IssuerDid(issuerId: nat): string {
    IssuerPrefix + Digits(issuerId)
  }

  /** Distinct issuers get distinct DIDs. */
  lemma IssuerDidInjective(a: nat, b: nat)
    requires IssuerDid(a) == IssuerDid(b)
    ensures a == b
  {
    assert Digits(a) == IssuerDid(a)[|IssuerPrefix|..];
    assert Digits(b) == IssuerDid(b)[|IssuerPrefix|..];
  }

  /** The claim payload built from the joined inspection and batch row; it has
      no proof yet. */
  function BuildPayload(insp: Inspection, batch: BatchFields, issuerId: nat, issuanceDate: int, ttlDays: int): (p: Payload)
    ensures p.proof.None?
    ensures p.issuer == IssuerDid(issuerId) && p.issuanceDate == issuanceDate
    ensures p.expirationDate == Some(issuanceDate + ttlDays * 86_400_000)
    ensures p.subject.productType == batch.productType && p.subject.quantity == batch.quantity
    ensures p.subject.location == batch.location && p.subject.destination == batch.destination
    ensures p.subject.moistureLevel == insp.findings.moistureLevel
    ensures p.subject.pesticideContent == insp.findings.pesticideContent
    ensures p.subject.organicStatus == insp.findings.organicStatus
    ensures p.subject.isoCodes == insp.findings.isoCodes
    ensures p.subject.batchId == insp.batchId && p.subject.inspectionId == insp.id
  {
    Payload(
      ContextUrls, CredentialTypes, IssuerDid(issuerId),
      issuanceDate, Some(Expiration(issuanceDate, ttlDays)),
      Subject(batch.productType, batch.quantity, batch.location, batch.destination,
              insp.findings.moistureLevel, insp.findings.pesticideContent,
              insp.findings.organicStatus, insp.findings.isoCodes,
              insp.batchId, insp.id),
      None)
  }

  /** The stamp computed at issuance: hash of the serialised payload (which has no
      proof yet) followed by the secret. */
  function IssuanceStamp(p: Payload, secret: string, hash: seq<Token> -> string): string {
    hash(Serialise(p) + [TStr(secret)])
  }

  /** Embeds the proof block, carrying the stamp, into the payload. */
  function Seal(p: Payload, issuerId: nat, issuanceDate: int, secret: string, hash: seq<Token> -> string): Payload {
    p.(proof := Some(Proof("DataIntegrityProof", issuanceDate, "assertionMethod",
                           IssuerDid(issuerId) + KeySuffix, IssuanceStamp(p, secret, hash))))
  }

  // ---------------------------------------------------------------------------
  // Verification

  /** The stamp the verifier recomputes: over the stored payload with `proof`
      removed. */
  function ExpectedStamp(p: Payload, secret: string, hash: seq<Token> -> string): string {
    hash(Serialise(p.(proof := None)) + [TStr(secret)])
  }

  predicate IntegrityOk(p: Payload, secret: string, hash: seq<Token> -> string) {
    p.proof.Some? && p.proof.value.proofValue != "" &&
    p.proof.value.proofValue == ExpectedStamp(p, secret, hash)
  }

  /** An absent expiration date counts as not expired. */
  predicate IsExpired(p: Payload, now: int) {
    p.expirationDate.Some? && p.expirationDate.value <= now
  }

  datatype Failure =
    | MissingId | NotFound | NotIssued | InspectionNotCompleted
    | BatchNotCertified | Expired | IntegrityFailed

  datatype Verdict =
    | Valid(credentialId: nat, issuer: string, issuanceDate: int, expirationDate: Option<int>, batchId: nat)
    | Invalid(code: int, reason: Failure)

  /** The error text the verifier sends with each failure. */
  function FailureMessage(f: Failure): string {
    match f
    case MissingId => "Credential ID required"
    case NotFound => "Credential not found"
    case NotIssued => "Credential is not in an issuable state"
    case InspectionNotCompleted => "Associated inspection is not completed"
    case BatchNotCertified => "Batch is not certified"
    case Expired => "Credential is expired"
    case IntegrityFailed => "Credential integrity check failed"
  }

  /** The gates after the lookup, in order: credential status, inspection status,
      batch status, expiry, stamp. The first gate that fails gives the reason. */
  function VerifyRow(c: CredentialRow, inspectionStatus: string, batchId: nat, batchStatus: string,
                     now: int, secret: string, hash: seq<Token> -> string): (v: Verdict)
    ensures v.Valid? <==>
      c.status == Issued && inspectionStatus == Completed && batchStatus == Certified &&
      !IsExpired(c.payload, now) && IntegrityOk(c.payload, secret, hash)
    ensures v.Valid? ==> v == Valid(c.id, c.payload.issuer, c.payload.issuanceDate, c.payload.expirationDate, batchId)
    ensures c.status != Issued ==> v == Invalid(400, NotIssued)
    ensures c.status == Issued && inspectionStatus != Completed ==> v == Invalid(400, InspectionNotCompleted)
    ensures c.status == Issued && inspectionStatus == Completed && batchStatus != Certified ==>
      v == Invalid(400, BatchNotCertified)
    ensures c.status == Issued && inspectionStatus == Completed && batchStatus == Certified && IsExpired(c.payload, now)
      ==> v == Invalid(400, Expired)
    ensures c.status == Issued && inspectionStatus == Completed && batchStatus == Certified && !IsExpired(c.payload, now)
      && !IntegrityOk(c.payload, secret, hash)
      ==> v == Invalid(400, IntegrityFailed)
  {
    if c.status != Issued then Invalid(400, NotIssued)
    else if inspectionStatus != Completed then Invalid(400, InspectionNotCompleted)
    else if batchStatus != Certified then Invalid(400, BatchNotCertified)
    else if IsExpired(c.payload, now) then Invalid(400, Expired)
    else if !IntegrityOk(c.payload, secret, hash) then Invalid(400, IntegrityFailed)
    else Valid(c.id, c.payload.issuer, c.payload.issuanceDate, c.payload.expirationDate, batchId)
  }

  // ---------------------------------------------------------------------------
  // Properties of the stamp scheme

  ghost predicate Injective(hash: seq<Token> -> string) {
    forall a, b :: hash(a) == hash(b) ==> a == b
  }

  /** sha256 hex digests are 64 characters long, in particular never empty. */
  ghost predicate DigestShaped(hash: seq<Token> -> string) {
    forall m :: |hash(m)| == 64
  }

  /** The verifier recomputes exactly the stamp issuance embedded. */
  lemma StampRoundTrip(p: Payload, issuerId: nat, issuanceDate: int, secret: string, hash: seq<Token> -> string)
    requires p.proof.None?
    ensures ExpectedStamp(Seal(p, issuerId, issuanceDate, secret, hash), secret, hash) == IssuanceStamp(p, secret, hash)
  {
  }

  /** A freshly sealed payload passes the integrity gate. */
  lemma SealedIntegrityOk(p: Payload, issuerId: nat, issuanceDate: int, secret: string, hash: seq<Token> -> string)
    requires p.proof.None? && DigestShaped(hash)
    ensures IntegrityOk(Seal(p, issuerId, issuanceDate, secret, hash), secret, hash)
  {
    StampRoundTrip(p, issuerId, issuanceDate, secret, hash);
    assert |IssuanceStamp(p, secret, hash)| == 64;
  }

  /** Tampering with any field outside the proof block, while keeping the proof
      block issued for the original, fails the integrity gate when the hash is
      injective. */
  lemma TamperDetected(original: Payload, stored: Payload, issuerId: nat, issuanceDate: int,
                       secret: string, hash: seq<Token> -> string)
    requires Injective(hash) && original.proof.None?
    requires stored.proof == Seal(original, issuerId, issuanceDate, secret, hash).proof
    requires stored.(proof := None) != original
    ensures !IntegrityOk(stored, secret, hash)
  {
    if IntegrityOk(stored, secret, hash) {
      var a := Serialise(stored.(proof := None)) + [TStr(secret)];
      var b := Serialise(original) + [TStr(secret)];
      assert hash(a) == hash(b);
      assert a == b;
      Cancel(Serialise(stored.(proof := None)), [TStr(secret)], Serialise(original), [TStr(secret)]);
      SerialiseInjective(stored.(proof := None), original);
      assert false;
    }
  }

  /** The proof block's own metadata is not covered by the stamp: only its
      proofValue is checked. */
  lemma ProofMetadataNotCovered(p: Payload, proofType: string, created: int, purpose: string, keyRef: string,
                                secret: string, hash: seq<Token> -> string)
    requires IntegrityOk(p, secret, hash)
    ensures IntegrityOk(p.(proof := Some(Proof(proofType, created, purpose, keyRef, p.proof.value.proofValue))), secret, hash)
  {
    var q := p.(proof := Some(Proof(proofType, created, purpose, keyRef, p.proof.value.proofValue)));
    assert q.(proof := None) == p.(proof := None);
  }

  /** Once a credential verifies as expired it stays expired: verification at any
      later time is invalid too. */
  lemma ExpiryMonotone(c: CredentialRow, inspectionStatus: string, batchId: nat, batchStatus: string,
                       now: int, later: int, secret: string, hash: seq<Token> -> string)
    requires VerifyRow(c, inspectionStatus, batchId, batchStatus, now, secret, hash) == Invalid(400, Expired)
    requires now <= later
    ensures VerifyRow(c, inspectionStatus, batchId, batchStatus, later, secret, hash) == Invalid(400, Expired)
  {
  }

  /** A batch forced away from `certified` fails verification even with an intact
      stamp, and the status gate is what reports it. */
  lemma StatusGateBeforeStamp(c: CredentialRow, inspectionStatus: string, batchId: nat, batchStatus: string,
                              now: int, secret: string, hash: seq<Token> -> string)
    requires c.status == Issued && inspectionStatus == Completed && batchStatus != Certified
    ensures VerifyRow(c, inspectionStatus, batchId, batchStatus, now, secret, hash) == Invalid(400, BatchNotCertified)
  {
  }

  /** A sealed payload verifies before its expiration date when the statuses
      are issued, completed and certified. */
  lemma SealedVerifies(p: Payload, c: CredentialRow, issuerId: nat, issuanceDate: int, batchId: nat,
                       now: int, secret: string, hash: seq<Token> -> string)
    requires p.proof.None? && DigestShaped(hash)
    requires c.payload == Seal(p, issuerId, issuanceDate, secret, hash) && c.status == Issued
    requires p.expirationDate.Some? ==> now < p.expirationDate.value
    ensures VerifyRow(c, Completed, batchId, Certified, now, secret, hash)
      == Valid(c.id, p.issuer, p.issuanceDate, p.expirationDate, batchId)
  {
    SealedIntegrityOk(p, issuerId, issuanceDate, secret, hash);
  }
}
