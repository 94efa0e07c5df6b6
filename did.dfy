/**
  DID documents (identity-core/src/did.rs), following section 3.1 (DID Syntax) of
  W3C DID Core 1.0 as far as the code checks it: `did:<method>:<method-specific-id>`.
 */
module Did {
  import opened Types
  import opened Wrappers
  import opened IdentityErrors
  import opened Strings

  datatype PublicKeyFormat =
    | Jwk(publicKeyJwk: map<string, Json>)
    | Multibase(publicKeyMultibase: string)
    | Base58(publicKeyBase58: string)

  datatype VerificationMethod = VerificationMethod(
    id: string,
    methodType: string,
    controller: string,
    publicKey: PublicKeyFormat)

  datatype VerificationRelationship = Reference(reference: string) | Embedded(embedded: VerificationMethod)

  datatype ServiceType = Single(name: string) | Multiple(names: seq<string>)

  datatype ServiceEndpoint = Uri(uri: string) | EndpointMap(entries: map<string, Json>)

  datatype Service = Service(id: string, serviceType: ServiceType, serviceEndpoint: ServiceEndpoint)

  datatype DidDocument = DidDocument(
    context: seq<string>,
    id: string,
    verificationMethod: Option<seq<VerificationMethod>>,
    authentication: Option<seq<VerificationRelationship>>,
    assertionMethod: Option<seq<VerificationRelationship>>,
    keyAgreement: Option<seq<VerificationRelationship>>,
    capabilityInvocation: Option<seq<VerificationRelationship>>,
    capabilityDelegation: Option<seq<VerificationRelationship>>,
    service: Option<seq<Service>>,
    created: Option<Timestamp>,
    updated: Option<Timestamp>)

  datatype DidMethod = Web | Key | Ethr | Ion | Custom(name: string)

  /** `Display` for `DidMethod`. */
  function MethodName(m: DidMethod): string {
    match m
    case Web => "web"
    case Key => "key"
    case Ethr => "ethr"
    case Ion => "ion"
    case Custom(name) => name
  }

  const DidContextV1 := "https://www.w3.org/ns/did/v1"
  const Ed25519Context2020 := "https://w3id.org/security/suites/ed25519-2020/v1"

  /** `DidDocument::new` at time `now`: the two contexts, the id, a creation time, no optional list. */
  function NewDocument(id: string, now: Timestamp): (doc: DidDocument)
    ensures doc.context == [DidContextV1, Ed25519Context2020] && doc.id == id
    ensures doc.verificationMethod.None? && doc.authentication.None? && doc.assertionMethod.None?
    ensures doc.keyAgreement.None? && doc.capabilityInvocation.None?
    ensures doc.capabilityDelegation.None? && doc.service.None?
    ensures doc.created == Some(now) && doc.updated.None?
  {
    DidDocument([DidContextV1, Ed25519Context2020], id, None, None, None, None, None, None, None, Some(now), None)
  }

  /** `add_verification_method`: the method goes at the end of the (possibly new) list. */
  function AddVerificationMethod(doc: DidDocument, m: VerificationMethod, now: Timestamp): (d: DidDocument)
    ensures d.verificationMethod.Some? && |d.verificationMethod.value| == |Elements(doc.verificationMethod)| + 1
    ensures d.verificationMethod.value[..|Elements(doc.verificationMethod)|] == Elements(doc.verificationMethod)
    ensures d.verificationMethod.value[|Elements(doc.verificationMethod)|] == m
    ensures d == doc.(verificationMethod := d.verificationMethod, updated := Some(now))
  {
    doc.(verificationMethod := Some(Elements(doc.verificationMethod) + [m]), updated := Some(now))
  }

  /** `add_authentication`: the relationship goes at the end of the (possibly new) list. */
  function AddAuthentication(doc: DidDocument, auth: VerificationRelationship, now: Timestamp): (d: DidDocument)
    ensures d.authentication.Some? && |d.authentication.value| == |Elements(doc.authentication)| + 1
    ensures d.authentication.value[..|Elements(doc.authentication)|] == Elements(doc.authentication)
    ensures d.authentication.value[|Elements(doc.authentication)|] == auth
    ensures d == doc.(authentication := d.authentication, updated := Some(now))
  {
    doc.(authentication := Some(Elements(doc.authentication) + [auth]), updated := Some(now))
  }

  /** `add_service`: the service goes at the end of the (possibly new) list. */
  function AddService(doc: DidDocument, s: Service, now: Timestamp): (d: DidDocument)
    ensures d.service.Some? && |d.service.value| == |Elements(doc.service)| + 1
    ensures d.service.value[..|Elements(doc.service)|] == Elements(doc.service)
    ensures d.service.value[|Elements(doc.service)|] == s
    ensures d == doc.(service := d.service, updated := Some(now))
  {
    doc.(service := Some(Elements(doc.service) + [s]), updated := Some(now))
  }

  /** The per-method check of `validate`: relative to the document DID or itself a DID. */
  predicate MethodIdAcceptable(docId: string, m: VerificationMethod) {
    StartsWith(m.id, docId) || StartsWith(m.id, "did:")
  }

  /** `DidDocument::validate`, with its three checks in source order. */
  function Validate(doc: DidDocument): (r: Result<(), IdentityError>)
    ensures r.Success? <==>
              StartsWith(doc.id, "did:")
              && Occurrences(doc.id, ':') >= 2
              && forall m :: m in Elements(doc.verificationMethod) ==> StartsWith(m.id, "did:")
    ensures r.Failure? ==> r.error.InvalidDid?
  {
    SplitShape(doc.id, ':');
    if !StartsWith(doc.id, "did:") then
      Failure(InvalidDid("DID must start with 'did:'"))
    else if |Split(doc.id, ':')| < 3 then
      Failure(InvalidDid("DID must have at least 3 parts separated by ':'"))
    else if doc.verificationMethod.Some?
            && exists m :: m in doc.verificationMethod.value && !MethodIdAcceptable(doc.id, m) then
      AcceptableMeansDidPrefix(doc);
      Failure(InvalidDid("Verification method ID must be a DID or relative to document DID"))
    else
      AcceptableMeansDidPrefix(doc);
      Success(())
  }

  /**
    Once the document id starts with `did:`, the two-way test on a method id reduces to
    the `did:` prefix alone: an id relative to the document DID is itself a DID.
   */
  lemma AcceptableMeansDidPrefix(doc: DidDocument)
    requires StartsWith(doc.id, "did:")
    ensures forall m: VerificationMethod :: MethodIdAcceptable(doc.id, m) <==> StartsWith(m.id, "did:")
  {
    forall m: VerificationMethod | StartsWith(m.id, doc.id)
      ensures StartsWith(m.id, "did:")
    {
      PrefixTransitive(m.id, doc.id, "did:");
    }
  }

  /** `get_method`: the second `:`-piece, with the four registered methods recognised. */
  function GetMethod(doc: DidDocument): (r: Result<DidMethod, IdentityError>)
    ensures r.Failure? <==> ':' !in doc.id
    ensures r.Failure? ==> r.error.InvalidDid?
    ensures r.Success? ==> |Split(doc.id, ':')| >= 2 && MethodName(r.value) == Split(doc.id, ':')[1]
  {
    var parts := Split(doc.id, ':');
    SplitCountsSeparator(doc.id);
    if |parts| < 2 then
      Failure(InvalidDid("Invalid DID format"))
    else
      match parts[1]
      case "web" => Success(Web)
      case "key" => Success(Key)
      case "ethr" => Success(Ethr)
      case "ion" => Success(Ion)
      case other => Success(Custom(other))
  }

  /** Splitting yields a second piece exactly when the separator occurs. */
  lemma SplitCountsSeparator(s: string)
    ensures |Split(s, ':')| >= 2 <==> ':' in s
  {
    SplitShape(s, ':');
    OccurrencesPositive(s, ':');
  }

  lemma {:induction false} OccurrencesPositive(s: string, c: char)
    ensures Occurrences(s, c) > 0 <==> c in s
    decreases |s|
  {
    if |s| > 0 {
      OccurrencesPositive(s[1..], c);
      assert s == [s[0]] + s[1..];
    }
  }

  /** `get_method` never yields `Custom` for one of the four registered names. */
  lemma GetMethodCanonical(doc: DidDocument)
    requires GetMethod(doc).Success? && GetMethod(doc).value.Custom?
    ensures GetMethod(doc).value.name !in {"web", "key", "ethr", "ion"}
  {
  }

  /** Display and `get_method` agree: formatting the method parsed from `did:<name>:<rest>` gives `name`. */
  lemma GetMethodDisplayRoundTrip(name: string, rest: string, now: Timestamp)
    requires ':' !in name
    ensures GetMethod(NewDocument("did:" + name + ":" + rest, now)).Success?
    ensures MethodName(GetMethod(NewDocument("did:" + name + ":" + rest, now)).value) == name
  {
    var id := "did:" + name + ":" + rest;
    assert id == "did" + [':'] + (name + [':'] + rest);
    SplitAfterFreePrefix("did", name + [':'] + rest, ':');
    SplitAfterFreePrefix(name, rest, ':');
  }
}
