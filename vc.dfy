/**
  Verifiable credentials and presentations (identity-core/src/vc.rs), with the structure
  checks the code makes from sections 4.3 (Types) and 4.5 (Issuer) of the W3C Verifiable
  Credentials Data Model 1.1. The clock (`now`) and the UUID drawn by `new` are parameters.
 */
module Vc {
  import opened Types
  import opened Wrappers
  import opened IdentityErrors
  import opened Strings

  datatype Issuer = Did(did: string) | Object(id: string, properties: map<string, Json>)

  datatype CredentialSubject = CredentialSubject(id: Option<string>, claims: map<string, Json>)

  datatype CredentialStatus = CredentialStatus(id: string, statusType: string, properties: map<string, Json>)

  datatype CredentialSchema = CredentialSchema(id: string, schemaType: string)

  datatype Proof = Proof(
    proofType: string,
    created: Timestamp,
    verificationMethod: string,
    proofPurpose: string,
    proofValue: string,
    additionalProperties: map<string, Json>)

  datatype VerifiableCredential = VerifiableCredential(
    context: seq<string>,
    id: string,
    credentialType: seq<string>,
    issuer: Issuer,
    issuanceDate: Timestamp,
    expirationDate: Option<Timestamp>,
    credentialSubject: CredentialSubject,
    credentialStatus: Option<CredentialStatus>,
    credentialSchema: Option<seq<CredentialSchema>>,
    proof: Option<seq<Proof>>)

  datatype VerifiablePresentation = VerifiablePresentation(
    context: seq<string>,
    id: Option<string>,
    presentationType: seq<string>,
    verifiableCredential: seq<VerifiableCredential>,
    holder: Option<string>,
    proof: Option<seq<Proof>>)

  datatype CredentialType =
    | VerifiableCredentialType
    | UniversityDegreeCredential
    | DriverLicenseCredential
    | KycCredential
    | AgeVerificationCredential
    | Custom(name: string)

  const CredentialsContextV1 := "https://www.w3.org/2018/credentials/v1"
  const BaseType := "VerifiableCredential"

  /** `Display` for `CredentialType`: the variant's name, or the custom name itself. */
  function TypeName(t: CredentialType): (s: string)
    ensures t.Custom? ==> s == t.name
    ensures t == VerifiableCredentialType ==> s == BaseType
  {
    match t
    case VerifiableCredentialType => "VerifiableCredential"
    case UniversityDegreeCredential => "UniversityDegreeCredential"
    case DriverLicenseCredential => "DriverLicenseCredential"
    case KycCredential => "KycCredential"
    case AgeVerificationCredential => "AgeVerificationCredential"
    case Custom(name) => name
  }

  /** The five named variants display as five different names. */
  lemma TypeNamesDistinct(a: CredentialType, b: CredentialType)
    requires !a.Custom? && !b.Custom? && a != b
    ensures TypeName(a) != TypeName(b)
  {
  }

  /**
    `VerifiableCredential::new` at time `now`, with `uid` the drawn UUID: the credentials
    context, the base type only, a DID issuer, and no expiration, status, schema or proof.
   */
  function NewCredential(issuerDid: string, subjectId: Option<string>, claims: map<string, Json>,
                         uid: string, now: Timestamp): (vc: VerifiableCredential)
    ensures vc.context == [CredentialsContextV1]
    ensures vc.id == "urn:uuid:" + uid && StartsWith(vc.id, "urn:uuid:")
    ensures vc.credentialType == [BaseType]
    ensures vc.issuer == Did(issuerDid) && vc.issuanceDate == now
    ensures vc.credentialSubject == CredentialSubject(subjectId, claims)
    ensures vc.expirationDate.None? && vc.credentialStatus.None?
    ensures vc.credentialSchema.None? && vc.proof.None?
  {
    VerifiableCredential([CredentialsContextV1], "urn:uuid:" + uid, [BaseType], Did(issuerDid), now,
                         None, CredentialSubject(subjectId, claims), None, None, None)
  }

  /** `add_type`: the type's name is appended unless it is already listed. */
  function AddType(vc: VerifiableCredential, t: CredentialType): (r: VerifiableCredential)
    ensures TypeName(t) in r.credentialType
    ensures forall s :: s in r.credentialType <==> s in vc.credentialType || s == TypeName(t)
    ensures NoDuplicates(vc.credentialType) ==> NoDuplicates(r.credentialType)
    ensures |vc.credentialType| <= |r.credentialType| <= |vc.credentialType| + 1
    ensures r.credentialType[..|vc.credentialType|] == vc.credentialType
    ensures r == vc.(credentialType := r.credentialType)
  {
    var name := TypeName(t);
    if name in vc.credentialType then vc
    else vc.(credentialType := vc.credentialType + [name])
  }

  /** Adding the same type twice is the same as adding it once. */
  lemma AddTypeIdempotent(vc: VerifiableCredential, t: CredentialType)
    ensures AddType(AddType(vc, t), t) == AddType(vc, t)
  {
  }

  /** `set_expiration`. */
  function SetExpiration(vc: VerifiableCredential, expiration: Timestamp): (r: VerifiableCredential)
    ensures r.expirationDate == Some(expiration)
    ensures r == vc.(expirationDate := r.expirationDate)
  {
    vc.(expirationDate := Some(expiration))
  }

  /** `add_proof`: the proof goes at the end of the (possibly new) list. */
  function AddProof(vc: VerifiableCredential, p: Proof): (r: VerifiableCredential)
    ensures r.proof.Some? && r.proof.value == Elements(vc.proof) + [p]
    ensures |r.proof.value| == |Elements(vc.proof)| + 1
    ensures r == vc.(proof := r.proof)
  {
    vc.(proof := Some(Elements(vc.proof) + [p]))
  }

  /** `is_expired`: an expiration exists and is not after `now`. */
  predicate IsExpired(vc: VerifiableCredential, now: Timestamp) {
    vc.expirationDate.Some? && vc.expirationDate.value <= now
  }

  /** `get_issuer_did`: the DID string, or the issuer object's `id`. */
  function GetIssuerDid(vc: VerifiableCredential): (did: string)
    ensures vc.issuer.Did? ==> did == vc.issuer.did
    ensures vc.issuer.Object? ==> did == vc.issuer.id
  {
    match vc.issuer
    case Did(d) => d
    case Object(id, _) => id
  }

  /** `VerifiableCredential::validate` at time `now`, with its four checks in source order. */
  function ValidateCredential(vc: VerifiableCredential, now: Timestamp): (r: Result<(), IdentityError>)
    ensures r.Success? <==>
              && BaseType in vc.credentialType
              && StartsWith(GetIssuerDid(vc), "did:")
              && !IsExpired(vc, now)
    ensures r.Failure? ==> r.error.InvalidCredential?
    ensures |vc.credentialType| == 0 ==>
              r == Failure(InvalidCredential("Credential must have at least one type"))
  {
    if |vc.credentialType| == 0 then
      Failure(InvalidCredential("Credential must have at least one type"))
    else if BaseType !in vc.credentialType then
      Failure(InvalidCredential("Credential must include 'VerifiableCredential' type"))
    else
      match vc.issuer
      case Did(did) =>
        if !StartsWith(did, "did:") then Failure(InvalidCredential("Issuer must be a valid DID"))
        else CheckExpiration(vc, now)
      case Object(id, _) =>
        if !StartsWith(id, "did:") then Failure(InvalidCredential("Issuer ID must be a valid DID"))
        else CheckExpiration(vc, now)
  }

  /** The last check of `validate`. */
  function CheckExpiration(vc: VerifiableCredential, now: Timestamp): (r: Result<(), IdentityError>)
    ensures r.Failure? <==> IsExpired(vc, now)
  {
    if vc.expirationDate.Some? && vc.expirationDate.value <= now then
      Failure(InvalidCredential("Credential has expired"))
    else Success(())
  }

  /** An expired credential never validates. */
  lemma ExpiredNeverValid(vc: VerifiableCredential, now: Timestamp)
    requires IsExpired(vc, now)
    ensures ValidateCredential(vc, now).Failure?
  {
  }

  /** Expiry is monotone in time: once expired, a credential stays expired. */
  lemma ExpiryIsPermanent(vc: VerifiableCredential, now: Timestamp, later: Timestamp)
    requires IsExpired(vc, now) && now <= later
    ensures IsExpired(vc, later)
  {
  }

  /** After `set_expiration(e)` the credential is expired at `now` exactly when `e <= now`. */
  lemma SetExpirationExpiry(vc: VerifiableCredential, e: Timestamp, now: Timestamp)
    ensures IsExpired(SetExpiration(vc, e), now) <==> e <= now
  {
  }

  /** A fresh credential validates exactly when its issuer is a DID. */
  lemma NewCredentialValidIff(issuerDid: string, subjectId: Option<string>, claims: map<string, Json>,
                              uid: string, now: Timestamp)
    ensures ValidateCredential(NewCredential(issuerDid, subjectId, claims, uid, now), now).Success?
            <==> StartsWith(issuerDid, "did:")
  {
  }

  /** Adding types and proofs never turns a valid credential invalid. */
  lemma AddingKeepsValidity(vc: VerifiableCredential, t: CredentialType, p: Proof, now: Timestamp)
    requires ValidateCredential(vc, now).Success?
    ensures ValidateCredential(AddType(vc, t), now).Success?
    ensures ValidateCredential(AddProof(vc, p), now).Success?
  {
  }

  /** `VerifiablePresentation::new`, with `uid` the drawn UUID. */
  function NewPresentation(credentials: seq<VerifiableCredential>, holder: Option<string>,
                           uid: string): (p: VerifiablePresentation)
    ensures p.context == [CredentialsContextV1] && p.id == Some("urn:uuid:" + uid)
    ensures p.presentationType == ["VerifiablePresentation"]
    ensures p.verifiableCredential == credentials && p.holder == holder && p.proof.None?
  {
    VerifiablePresentation([CredentialsContextV1], Some("urn:uuid:" + uid), ["VerifiablePresentation"],
                           credentials, holder, None)
  }

  /** `VerifiablePresentation::add_proof`: the proof goes at the end of the (possibly new) list. */
  function AddPresentationProof(p: VerifiablePresentation, pr: Proof): (r: VerifiablePresentation)
    ensures r.proof.Some? && r.proof.value == Elements(p.proof) + [pr]
    ensures |r.proof.value| == |Elements(p.proof)| + 1
    ensures r == p.(proof := r.proof)
  {
    p.(proof := Some(Elements(p.proof) + [pr]))
  }

  /**
    The position the loop of `VerifiablePresentation::validate` stops at: the index of the first
    credential that does not validate, or the number of credentials when all of them do.
   */
  function FirstInvalid(credentials: seq<VerifiableCredential>, now: Timestamp): (i: nat)
    ensures i <= |credentials|
    ensures forall j :: 0 <= j < i ==> ValidateCredential(credentials[j], now).Success?
    ensures i < |credentials| ==> ValidateCredential(credentials[i], now).Failure?
    decreases |credentials|
  {
    if |credentials| == 0 || ValidateCredential(credentials[0], now).Failure? then 0
    else
      var k := FirstInvalid(credentials[1..], now);
      assert forall j :: 1 <= j < |credentials| ==> credentials[j] == credentials[1..][j - 1];
      k + 1
  }

  /**
    The loop of `VerifiablePresentation::validate`: succeeds when every credential validates,
    and otherwise reports the error of the first one that does not.
   */
  function ValidateAll(credentials: seq<VerifiableCredential>, now: Timestamp): (r: Result<(), IdentityError>)
    ensures r.Success? <==> forall i :: 0 <= i < |credentials| ==> ValidateCredential(credentials[i], now).Success?
    ensures r.Failure? ==>
              exists i :: 0 <= i < |credentials| && r == ValidateCredential(credentials[i], now)
                          && forall j :: 0 <= j < i ==> ValidateCredential(credentials[j], now).Success?
  {
    var i := FirstInvalid(credentials, now);
    if i == |credentials| then Success(()) else ValidateCredential(credentials[i], now)
  }

  /** `VerifiablePresentation::validate`. */
  function ValidatePresentation(p: VerifiablePresentation, now: Timestamp): (r: Result<(), IdentityError>)
    ensures r.Success? <==> forall c :: c in p.verifiableCredential ==> ValidateCredential(c, now).Success?
    ensures r.Failure? ==> r.error.InvalidCredential?
  {
    ValidateAll(p.verifiableCredential, now)
  }

  /** A presentation holding an expired credential never validates. */
  lemma PresentationWithExpiredFails(p: VerifiablePresentation, c: VerifiableCredential, now: Timestamp)
    requires c in p.verifiableCredential && IsExpired(c, now)
    ensures ValidatePresentation(p, now).Failure?
  {
  }
}
