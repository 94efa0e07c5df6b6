/**
  The content-type tables of ipfs-client/src/client.rs and the metadata wiring of its store
  and fetch calls. The IPFS node is an oracle: the reply to `add` (the new content hash or an
  error text) and to `cat` (the bytes or an error text) are parameters, and so are the JSON
  serialisers and the clock.
 */
module IpfsClient {
  import opened Types
  import opened Wrappers
  import opened IpfsErrors
  import Did
  import Vc

  datatype ContentType =
    | DidDocument
    | VerifiableCredential
    | VerifiablePresentation
    | AttestationProof
    | RevocationList
    | Schema
    | Metadata
    | Custom(name: string)

  datatype EncryptionInfo = EncryptionInfo(algorithm: string, keyId: string, nonce: Option<string>)

  /** `ContentMetadata`; `size` is a byte count (`u64` sums are not bounded here). */
  datatype ContentMetadata = ContentMetadata(
    contentType: ContentType,
    hash: string,
    size: nat,
    createdAt: Timestamp,
    tags: seq<string>,
    encryption: Option<EncryptionInfo>)

  datatype StorageResult = StorageResult(hash: string, metadata: ContentMetadata)

  /** `serde_json::to_vec` for the four kinds of content the client stores (it cannot fail on them). */
  datatype Serializers = Serializers(
    didDocument: Did.DidDocument -> Bytes,
    credential: Vc.VerifiableCredential -> Bytes,
    presentation: Vc.VerifiablePresentation -> Bytes,
    json: Json -> Bytes)

  /** `ContentType::mime_type`. */
  function MimeType(t: ContentType): string {
    match t
    case DidDocument => "application/did+ld+json"
    case VerifiableCredential => "application/vc+ld+json"
    case VerifiablePresentation => "application/vp+ld+json"
    case AttestationProof => "application/json"
    case RevocationList => "application/json"
    case Schema => "application/schema+json"
    case Metadata => "application/json"
    case Custom(_) => "application/octet-stream"
  }

  /** `ContentType::file_extension`. */
  function FileExtension(t: ContentType): string {
    match t
    case DidDocument => ".did.json"
    case VerifiableCredential => ".vc.json"
    case VerifiablePresentation => ".vp.json"
    case AttestationProof => ".proof.json"
    case RevocationList => ".revocation.json"
    case Schema => ".schema.json"
    case Metadata => ".meta.json"
    case Custom(_) => ".bin"
  }

  /** `Display` for `ContentType`. */
  function ContentTypeName(t: ContentType): string {
    match t
    case DidDocument => "DID Document"
    case VerifiableCredential => "Verifiable Credential"
    case VerifiablePresentation => "Verifiable Presentation"
    case AttestationProof => "Attestation Proof"
    case RevocationList => "Revocation List"
    case Schema => "Schema"
    case Metadata => "Metadata"
    case Custom(name) => name
  }

  /** `{:?}` of a content type (string escapes inside `Custom` are not modelled). */
  function ContentTypeDebug(t: ContentType): string {
    match t
    case DidDocument => "DidDocument"
    case VerifiableCredential => "VerifiableCredential"
    case VerifiablePresentation => "VerifiablePresentation"
    case AttestationProof => "AttestationProof"
    case RevocationList => "RevocationList"
    case Schema => "Schema"
    case Metadata => "Metadata"
    case Custom(name) => "Custom(\"" + name + "\")"
  }

  /** Custom content is opaque whatever its name, and its Display is the name itself. */
  lemma CustomContentOpaque(name: string)
    ensures MimeType(Custom(name)) == "application/octet-stream"
    ensures FileExtension(Custom(name)) == ".bin"
    ensures ContentTypeName(Custom(name)) == name
  {
  }

  /** Exactly the attestation proofs, revocation lists and metadata are served as plain JSON. */
  lemma PlainJsonTypes(t: ContentType)
    ensures MimeType(t) == "application/json" <==> t in {AttestationProof, RevocationList, Metadata}
  {
  }

  /** Every named type is stored as a `.json` file, and their extensions tell them apart. */
  lemma JsonExtensions(t: ContentType, u: ContentType)
    ensures !t.Custom? ==> |FileExtension(t)| >= 5 && FileExtension(t)[|FileExtension(t)| - 5..] == ".json"
    ensures !t.Custom? && !u.Custom? && t != u ==> FileExtension(t) != FileExtension(u)
  {
  }

  /** `store_content`: the node's `add` reply supplies the hash, recorded in the metadata too. */
  function StoreContent(content: Bytes, metadata: ContentMetadata, addReply: Result<string, string>)
    : (r: Result<StorageResult, IpfsError>)
    ensures r.Failure? <==> addReply.Failure?
    ensures r.Failure? ==> r.error == StorageError("IPFS add failed: " + addReply.error)
    ensures r.Success? ==> r.value.hash == addReply.value && r.value.hash == r.value.metadata.hash
    ensures r.Success? ==> r.value.metadata == metadata.(hash := addReply.value)
  {
    match addReply
    case Failure(e) => Failure(StorageError("IPFS add failed: " + e))
    case Success(hash) => Success(StorageResult(hash, metadata.(hash := hash)))
  }

  /** The metadata each `store_*` call prepares: fixed type and tags, the serialised size, no hash yet. */
  function InitialMetadata(contentType: ContentType, content: Bytes, tags: seq<string>, now: Timestamp)
    : (m: ContentMetadata)
    ensures m.contentType == contentType && m.hash == "" && m.size == |content|
    ensures m.createdAt == now && m.tags == tags && m.encryption.None?
  {
    ContentMetadata(contentType, "", |content|, now, tags, None)
  }

  /** `store_did_document`. */
  function StoreDidDocument(codec: Serializers, doc: Did.DidDocument, now: Timestamp, addReply: Result<string, string>)
    : (r: Result<StorageResult, IpfsError>)
    ensures r.Success? <==> addReply.Success?
    ensures r.Failure? ==> r.error == StorageError("IPFS add failed: " + addReply.error)
    ensures r.Success? ==> r.value.hash == addReply.value && r.value.hash == r.value.metadata.hash
    ensures r.Success? ==>
              r.value.metadata == ContentMetadata(DidDocument, addReply.value, |codec.didDocument(doc)|, now,
                                                  ["did", "document"], None)
  {
    var content := codec.didDocument(doc);
    StoreContent(content, InitialMetadata(DidDocument, content, ["did", "document"], now), addReply)
  }

  /** `store_credential`. */
  function StoreCredential(codec: Serializers, credential: Vc.VerifiableCredential, now: Timestamp,
                           addReply: Result<string, string>): (r: Result<StorageResult, IpfsError>)
    ensures r.Success? <==> addReply.Success?
    ensures r.Failure? ==> r.error == StorageError("IPFS add failed: " + addReply.error)
    ensures r.Success? ==> r.value.hash == addReply.value && r.value.hash == r.value.metadata.hash
    ensures r.Success? ==>
              r.value.metadata == ContentMetadata(VerifiableCredential, addReply.value, |codec.credential(credential)|,
                                                  now, ["credential", "verifiable"], None)
  {
    var content := codec.credential(credential);
    StoreContent(content, InitialMetadata(VerifiableCredential, content, ["credential", "verifiable"], now), addReply)
  }

  /** `store_presentation`. */
  function StorePresentation(codec: Serializers, presentation: Vc.VerifiablePresentation, now: Timestamp,
                             addReply: Result<string, string>): (r: Result<StorageResult, IpfsError>)
    ensures r.Success? <==> addReply.Success?
    ensures r.Failure? ==> r.error == StorageError("IPFS add failed: " + addReply.error)
    ensures r.Success? ==> r.value.hash == addReply.value && r.value.hash == r.value.metadata.hash
    ensures r.Success? ==>
              r.value.metadata == ContentMetadata(VerifiablePresentation, addReply.value,
                                                  |codec.presentation(presentation)|, now,
                                                  ["presentation", "verifiable"], None)
  {
    var content := codec.presentation(presentation);
    StoreContent(content, InitialMetadata(VerifiablePresentation, content, ["presentation", "verifiable"], now),
                 addReply)
  }

  /** `store_attestation_proof`. */
  function StoreAttestationProof(codec: Serializers, proof: Json, now: Timestamp, addReply: Result<string, string>)
    : (r: Result<StorageResult, IpfsError>)
    ensures r.Success? <==> addReply.Success?
    ensures r.Failure? ==> r.error == StorageError("IPFS add failed: " + addReply.error)
    ensures r.Success? ==> r.value.hash == addReply.value && r.value.hash == r.value.metadata.hash
    ensures r.Success? ==>
              r.value.metadata == ContentMetadata(AttestationProof, addReply.value, |codec.json(proof)|, now,
                                                  ["attestation", "proof"], None)
  {
    var content := codec.json(proof);
    StoreContent(content, InitialMetadata(AttestationProof, content, ["attestation", "proof"], now), addReply)
  }

  /** `get_content`: the bytes `cat` streamed back, or its error wrapped as a storage error. */
  function GetContent(catReply: Result<Bytes, string>): (r: Result<Bytes, IpfsError>)
    ensures r.Success? <==> catReply.Success?
    ensures r.Success? ==> r.value == catReply.value
    ensures r.Failure? ==> r.error == StorageError("Failed to read content: " + catReply.error)
  {
    match catReply
    case Failure(e) => Failure(StorageError("Failed to read content: " + e))
    case Success(bytes) => Success(bytes)
  }
}
