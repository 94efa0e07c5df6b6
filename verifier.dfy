/**
  Verifier parties of attestors/src/verifier.rs: capability bookkeeping, the structural
  credential check with its claim filter, and the DID-document check. The clock is the
  parameter `now`; reputation and confidence scores (floating point) are not modelled.
 */
module Verifiers {
  import opened Types
  import opened Wrappers
  import opened AttestorErrors
  import Did
  import Vc

  datatype VerificationCapability =
    | KycVerification
    | AgeVerification
    | EducationVerification
    | EmploymentVerification
    | IdentityVerification
    | AddressVerification
    | Custom(name: string)

  datatype EvidenceLevel = Low | Medium | High | VeryHigh

  datatype Verifier = Verifier(
    id: string,
    did: string,
    name: string,
    organization: Option<string>,
    publicKey: Bytes,
    verificationMethods: seq<string>,
    capabilities: seq<VerificationCapability>,
    createdAt: Timestamp,
    updatedAt: Timestamp,
    metadata: map<string, Json>)

  datatype VerificationCriteria = VerificationCriteria(
    credentialType: string,
    requiredFields: seq<string>,
    validationRules: map<string, Json>,
    minimumEvidenceLevel: EvidenceLevel)

  datatype VerificationResult = VerificationResult(
    verifierId: string,
    credentialId: string,
    verifiedClaims: seq<string>,
    evidenceLevel: EvidenceLevel,
    verificationMethod: string,
    timestamp: Timestamp,
    notes: Option<string>,
    supportingDocuments: seq<string>)

  /** `Verifier::new` at time `now`: no organisation, methods, capabilities or metadata. */
  function NewVerifier(id: string, did: string, name: string, publicKey: Bytes, now: Timestamp): (v: Verifier)
    ensures v.id == id && v.did == did && v.name == name && v.publicKey == publicKey
    ensures v.organization.None? && v.verificationMethods == [] && v.capabilities == []
    ensures v.createdAt == now && v.updatedAt == now && v.metadata == map[]
  {
    Verifier(id, did, name, None, publicKey, [], [], now, now, map[])
  }

  /** `has_capability`. */
  predicate HasCapability(v: Verifier, c: VerificationCapability) {
    c in v.capabilities
  }

  /** `add_capability` at time `now`: appended (and the update time set) only when not yet held. */
  function AddCapability(v: Verifier, c: VerificationCapability, now: Timestamp): (r: Verifier)
    ensures HasCapability(r, c)
    ensures forall d :: HasCapability(r, d) <==> HasCapability(v, d) || d == c
    ensures NoDuplicates(v.capabilities) ==> NoDuplicates(r.capabilities)
    ensures HasCapability(v, c) ==> r == v
    ensures !HasCapability(v, c) ==> r == v.(capabilities := v.capabilities + [c], updatedAt := now)
  {
    if c in v.capabilities then v
    else v.(capabilities := v.capabilities + [c], updatedAt := now)
  }

  /** Adding a capability twice is the same as adding it once. */
  lemma AddCapabilityIdempotent(v: Verifier, c: VerificationCapability, now: Timestamp, later: Timestamp)
    ensures AddCapability(AddCapability(v, c, now), c, later) == AddCapability(v, c, now)
  {
  }

  /**
    `get_capability_for_credential_type`: total and never an error; the six known type
    names map to their capability and any other name to `Custom` of itself.
   */
  function CapabilityForCredentialType(credentialType: string): (r: Result<VerificationCapability, AttestorError>)
    ensures r.Success?
    ensures r.value.Custom? <==>
              credentialType !in {"KycCredential", "AgeVerificationCredential", "UniversityDegreeCredential",
                                  "EmploymentCredential", "IdentityCredential", "AddressCredential"}
    ensures r.value.Custom? ==> r.value.name == credentialType
  {
    match credentialType
    case "KycCredential" => Success(KycVerification)
    case "AgeVerificationCredential" => Success(AgeVerification)
    case "UniversityDegreeCredential" => Success(EducationVerification)
    case "EmploymentCredential" => Success(EmploymentVerification)
    case "IdentityCredential" => Success(IdentityVerification)
    case "AddressCredential" => Success(AddressVerification)
    case other => Success(Custom(other))
  }

  /** Different type names never need the same capability. */
  lemma CapabilityForCredentialTypeInjective(a: string, b: string)
    requires a != b
    ensures CapabilityForCredentialType(a).value != CapabilityForCredentialType(b).value
  {
  }

  /**
    How the credential types of identity-core are served: three of them have a dedicated
    capability; `VerifiableCredential` and `DriverLicenseCredential` fall through to `Custom`.
   */
  lemma CapabilityForVcTypes()
    ensures CapabilityForCredentialType(Vc.TypeName(Vc.KycCredential)).value == KycVerification
    ensures CapabilityForCredentialType(Vc.TypeName(Vc.AgeVerificationCredential)).value == AgeVerification
    ensures CapabilityForCredentialType(Vc.TypeName(Vc.UniversityDegreeCredential)).value == EducationVerification
    ensures CapabilityForCredentialType(Vc.TypeName(Vc.VerifiableCredentialType)).value.Custom?
    ensures CapabilityForCredentialType(Vc.TypeName(Vc.DriverLicenseCredential)).value.Custom?
  {
  }

  /** `{:?}` of a capability (string escapes inside `Custom` are not modelled). */
  function CapabilityDebug(c: VerificationCapability): string {
    match c
    case KycVerification => "KycVerification"
    case AgeVerification => "AgeVerification"
    case EducationVerification => "EducationVerification"
    case EmploymentVerification => "EmploymentVerification"
    case IdentityVerification => "IdentityVerification"
    case AddressVerification => "AddressVerification"
    case Custom(name) => "Custom(\"" + name + "\")"
  }

  /** The required fields present among the claims, in their original order. */
  function PresentFields(fields: seq<string>, claims: map<string, Json>): seq<string>
    decreases |fields|
  {
    if |fields| == 0 then []
    else
      var last := fields[|fields| - 1];
      PresentFields(fields[..|fields| - 1], claims) + (if last in claims then [last] else [])
  }

  /** A field is kept exactly when it is required and claimed; nothing else gets in. */
  lemma {:induction false} PresentFieldsExactly(fields: seq<string>, claims: map<string, Json>)
    ensures forall f :: f in PresentFields(fields, claims) <==> f in fields && f in claims
    ensures |PresentFields(fields, claims)| <= |fields|
    decreases |fields|
  {
    if |fields| > 0 {
      var init := fields[..|fields| - 1];
      PresentFieldsExactly(init, claims);
      assert fields == init + [fields[|fields| - 1]];
    }
  }

  /** When every required field is claimed, all of them are reported, in order. */
  lemma {:induction false} PresentFieldsAllClaimed(fields: seq<string>, claims: map<string, Json>)
    requires forall f :: f in fields ==> f in claims
    ensures PresentFields(fields, claims) == fields
    decreases |fields|
  {
    if |fields| > 0 {
      var init := fields[..|fields| - 1];
      PresentFieldsAllClaimed(init, claims);
      assert fields == init + [fields[|fields| - 1]];
    }
  }

  /** The capability check of `verify_credential`. */
  predicate Capable(v: Verifier, criteria: VerificationCriteria) {
    HasCapability(v, CapabilityForCredentialType(criteria.credentialType).value)
  }

  /**
    `verify_credential` at time `now`: the capability check, then the credential's own
    validation, then the claim filter loop; the result copies the ids and the criteria's
    minimum evidence level.
   */
  method VerifyCredential(v: Verifier, credential: Vc.VerifiableCredential, criteria: VerificationCriteria,
                          now: Timestamp) returns (r: Result<VerificationResult, AttestorError>)
    ensures r.Success? <==> Capable(v, criteria) && Vc.ValidateCredential(credential, now).Success?
    ensures r.Failure? ==> r.error.InvalidSignature?
    ensures !Capable(v, criteria) ==>
              r == Failure(InvalidSignature("Verifier lacks required capability: "
                                            + CapabilityDebug(CapabilityForCredentialType(criteria.credentialType).value)))
    ensures Capable(v, criteria) && Vc.ValidateCredential(credential, now).Failure? ==>
              r == Failure(InvalidSignature("Invalid credential: "
                                            + Vc.ValidateCredential(credential, now).error.ToString()))
    ensures r.Success? ==>
              && r.value.verifiedClaims == PresentFields(criteria.requiredFields, credential.credentialSubject.claims)
              && r.value.verifierId == v.id
              && r.value.credentialId == credential.id
              && r.value.evidenceLevel == criteria.minimumEvidenceLevel
              && r.value.verificationMethod == "manual_review"
              && r.value.timestamp == now
              && r.value.notes.None? && r.value.supportingDocuments == []
  {
    var required := CapabilityForCredentialType(criteria.credentialType).value;
    if !HasCapability(v, required) {
      return Failure(InvalidSignature("Verifier lacks required capability: " + CapabilityDebug(required)));
    }
    var valid := Vc.ValidateCredential(credential, now);
    if valid.Failure? {
      return Failure(InvalidSignature("Invalid credential: " + valid.error.ToString()));
    }
    var claims := credential.credentialSubject.claims;
    var fields := criteria.requiredFields;
    var verifiedClaims: seq<string> := [];
    var i := 0;
    while i < |fields|
      invariant 0 <= i <= |fields|
      invariant verifiedClaims == PresentFields(fields[..i], claims)
    {
      assert fields[..i + 1][..i] == fields[..i];
      if fields[i] in claims {
        verifiedClaims := verifiedClaims + [fields[i]];
      }
      i := i + 1;
    }
    assert fields[..|fields|] == fields;
    return Success(VerificationResult(v.id, credential.id, verifiedClaims, criteria.minimumEvidenceLevel,
                                      "manual_review", now, None, []));
  }

  /** `EvidenceLevel::to_numeric`. */
  function ToNumeric(level: EvidenceLevel): (n: nat)
    ensures 1 <= n <= 4
  {
    match level
    case Low => 1
    case Medium => 2
    case High => 3
    case VeryHigh => 4
  }

  /** The numeric values follow the declaration order strictly, so they tell the levels apart. */
  lemma ToNumericOrder(a: EvidenceLevel, b: EvidenceLevel)
    ensures ToNumeric(Low) < ToNumeric(Medium) < ToNumeric(High) < ToNumeric(VeryHigh)
    ensures ToNumeric(a) == ToNumeric(b) <==> a == b
  {
  }

  /** `validate_did_document`: the document must be this verifier's DID and pass its own validation. */
  function ValidateDidDocument(v: Verifier, doc: Did.DidDocument): (r: Result<(), AttestorError>)
    ensures r.Success? <==> doc.id == v.did && Did.Validate(doc).Success?
    ensures doc.id != v.did ==> r == Failure(InvalidSignature("DID mismatch"))
    ensures doc.id == v.did && Did.Validate(doc).Failure? ==>
              r == Failure(InvalidSignature("Invalid DID document: " + Did.Validate(doc).error.ToString()))
  {
    if doc.id != v.did then Failure(InvalidSignature("DID mismatch"))
    else
      var checked := Did.Validate(doc);
      if checked.Failure? then Failure(InvalidSignature("Invalid DID document: " + checked.error.ToString()))
      else Success(())
  }
}
