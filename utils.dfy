/**
  DID construction and parsing helpers of identity-core/src/utils.rs. The UUID that
  `generate_id` draws is a parameter (`uid`), and so is the wall clock (`now`).
 */
module IdentityUtils {
  import opened Types
  import opened Wrappers
  import opened IdentityErrors
  import opened Strings
  import opened Crypto
  import opened Did

  /** `generate_did_with_id`: `did:<method>:<id>`. */
  function GenerateDidWithId(methodName: string, id: string): string {
    "did:" + methodName + ":" + id
  }

  /** `generate_did`: the same format around a freshly drawn UUID `uid`. */
  function GenerateDid(methodName: string, uid: string): string {
    GenerateDidWithId(methodName, uid)
  }

  /**
    `parse_did`: at least three `:`-pieces, the first being `did`; the method is the second
    piece and the method-specific id is the rest joined back with `:` (it may hold `:`).
   */
  function ParseDid(did: string): (r: Result<(string, string, string), IdentityError>)
    ensures r.Success? <==> |Split(did, ':')| >= 3 && Split(did, ':')[0] == "did"
    ensures r.Failure? ==> r.error.InvalidDid?
    ensures r.Success? ==> r.value.0 == "did" && ':' !in r.value.1
  {
    var parts := Split(did, ':');
    SplitShape(did, ':');
    if |parts| < 3 then
      Failure(InvalidDid("DID must have at least 3 parts"))
    else if parts[0] != "did" then
      Failure(InvalidDid("DID must start with 'did:'"))
    else
      Success(("did", parts[1], Join(parts[2..], ':')))
  }

  /** Generating from what was parsed gives back the parsed string. */
  lemma {:induction false} ParseDidInverse(did: string)
    requires ParseDid(did).Success?
    ensures GenerateDidWithId(ParseDid(did).value.1, ParseDid(did).value.2) == did
  {
    var parts := Split(did, ':');
    JoinSplit(did, ':');
    assert Join(parts, ':') == parts[0] + [':'] + Join(parts[1..], ':');
    assert parts[1..][1..] == parts[2..];
    assert Join(parts[1..], ':') == parts[1] + [':'] + Join(parts[2..], ':');
  }

  /** Parsing what was generated gives back the method and the id, whenever the method has no `:`. */
  lemma {:induction false} ParseGeneratedDid(methodName: string, id: string)
    requires ':' !in methodName
    ensures ParseDid(GenerateDidWithId(methodName, id)) == Success(("did", methodName, id))
  {
    var did := GenerateDidWithId(methodName, id);
    assert did == "did" + [':'] + (methodName + [':'] + id);
    SplitAfterFreePrefix("did", methodName + [':'] + id, ':');
    SplitAfterFreePrefix(methodName, id, ':');
    assert Split(did, ':') == ["did", methodName] + Split(id, ':');
    assert Split(did, ':')[2..] == Split(id, ':');
    JoinSplit(id, ':');
  }

  /** A generated DID always parses back to its method, whatever UUID was drawn. */
  lemma GenerateDidParses(methodName: string, uid: string)
    requires ':' !in methodName
    ensures ParseDid(GenerateDid(methodName, uid)).Success?
    ensures ParseDid(GenerateDid(methodName, uid)).value.1 == methodName
  {
    ParseGeneratedDid(methodName, uid);
  }

  /** `validate_timestamp`: a timestamp later than `now` is refused. */
  function ValidateTimestamp(timestamp: Timestamp, now: Timestamp): (r: Result<(), IdentityError>)
    ensures r.Failure? <==> timestamp > now
    ensures r.Failure? ==> r.error.InvalidCredential?
  {
    if timestamp > now then Failure(InvalidCredential("Timestamp cannot be in the future"))
    else Success(())
  }

  /**
    `create_basic_did_document`: generate a key pair (`generated` is the generator's output),
    a DID around `uid`, and a document with one multibase verification method `<did>#key-1`
    controlled by the DID and one authentication reference to it.
   */
  function CreateBasicDidDocument(
    methodName: string, keyType: KeyType, uid: string, now: Timestamp,
    generated: KeyMaterial, base64: Bytes -> string): (r: Result<(DidDocument, CryptoKeyPair), IdentityError>)
    ensures r.Failure? <==> keyType == Secp256k1
    ensures r.Success? ==>
              var (doc, keypair) := r.value;
              var did := GenerateDid(methodName, uid);
              && doc.id == did
              && keypair.keyType == keyType && keypair.publicKey == generated.publicKey
              && doc.verificationMethod == Some([VerificationMethod(
                   did + "#key-1", KeyTypeName(keyType), did,
                   Multibase(PublicKeyToMultibase(generated.publicKey, keyType, base64)))])
              && doc.authentication == Some([Reference(did + "#key-1")])
    ensures r.Success? ==>
              var doc := r.value.0;
              && doc.context == [DidContextV1, Ed25519Context2020]
              && doc.assertionMethod.None? && doc.keyAgreement.None? && doc.capabilityInvocation.None?
              && doc.capabilityDelegation.None? && doc.service.None?
              && doc.created == Some(now) && doc.updated == Some(now)
  {
    var keypair :- GenerateKeypair(keyType, generated);
    var did := GenerateDid(methodName, uid);
    var doc := NewDocument(did, now);
    var vmId := did + "#key-1";
    var vm := VerificationMethod(vmId, KeyTypeName(keyType), did,
                                 Multibase(PublicKeyToMultibase(keypair.publicKey, keyType, base64)));
    var doc1 := AddVerificationMethod(doc, vm, now);
    var doc2 := AddAuthentication(doc1, Reference(vmId), now);
    Success((doc2, keypair))
  }

  /** The basic document passes `DidDocument::validate`, whatever method name and UUID were used. */
  lemma {:induction false} BasicDidDocumentValidates(
    methodName: string, keyType: KeyType, uid: string, now: Timestamp,
    generated: KeyMaterial, base64: Bytes -> string)
    requires CreateBasicDidDocument(methodName, keyType, uid, now, generated, base64).Success?
    ensures Validate(CreateBasicDidDocument(methodName, keyType, uid, now, generated, base64).value.0).Success?
  {
    var doc := CreateBasicDidDocument(methodName, keyType, uid, now, generated, base64).value.0;
    var did := GenerateDid(methodName, uid);
    GeneratedDidShape(methodName, uid);
    var vmId := did + "#key-1";
    assert vmId[..|did|] == did;
    PrefixTransitive(vmId, did, "did:");
    assert Elements(doc.verificationMethod) == [doc.verificationMethod.value[0]];
  }

  /** A generated DID starts with `did:` and holds at least two `:` separators. */
  lemma GeneratedDidShape(methodName: string, uid: string)
    ensures StartsWith(GenerateDid(methodName, uid), "did:")
    ensures Occurrences(GenerateDid(methodName, uid), ':') >= 2
  {
    var did := GenerateDid(methodName, uid);
    assert did == "did:" + (methodName + ":" + uid);
    assert did == "did" + [':'] + (methodName + [':'] + uid);
    ColonsCounted("did", methodName + [':'] + uid);
    ColonsCounted(methodName, uid);
  }

  lemma {:induction false} ColonsCounted(a: string, b: string)
    ensures Occurrences(a + [':'] + b, ':') == Occurrences(a, ':') + 1 + Occurrences(b, ':')
    decreases |a|
  {
    if |a| == 0 {
      assert a + [':'] + b == [':'] + b;
      assert ([':'] + b)[1..] == b;
    } else {
      assert (a + [':'] + b)[1..] == a[1..] + [':'] + b;
      ColonsCounted(a[1..], b);
    }
  }
}
