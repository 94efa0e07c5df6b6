# Decentralized identity management: a Dafny model of the core

This project models the bookkeeping of a decentralized identity system written in Rust and
proves properties of the model. The system has four parts:

- **identity-core**: W3C DIDs and DID documents, Verifiable Credentials and Presentations,
  DID parsing and generation, and the key-type dispatch of the crypto helpers.
- **attestors**: verifiers and their capabilities, the threshold-signature scheme bookkeeping
  (Shamir share generation over the BLS12-381 scalar field, the guards of partial signing,
  combination and verification, Lagrange coefficients), and the attestation coordinator. The
  coordinator collects approvals for a credential until a threshold is met.
- **substrate-node**: the on-chain-style credential registry and DID registry, plus the
  credential-hash comparison.
- **ipfs-client**: the content-type tables and metadata of stored content, the storage
  manager's content and tag indexes, search and batches, and the retrieval manager's TTL
  cache, batch retrieval and content verification.

Values the Rust code copies around are Dafny datatypes, and their `&mut self` mutators are
functions that return the updated record. The services that mutate their HashMaps in place
are classes: `AttestationManager`, `CredentialRegistry`, `DidRegistry`, `StorageManager` and
`RetrievalManager`. Each has map-valued fields and a `Valid()` invariant. Every method states
its whole new state, either directly or as equal to a specification function. For batches,
that function folds the per-item step over the prefix handled so far (`Storage.IndexesAfter`,
`Retrieval.BatchAfter`).

Whatever the code draws from outside becomes a parameter. That covers the clock (`now`),
UUIDs (`uid`), random draws (`draws`), the replies of the IPFS `add` and `cat` calls
(`addReply`, `catReply`, one per call), serde serialisers and parsers, base64, SHA-256 and
the curve encodings. The curve encodings are gathered in the `Primitives` record.
HashMap iteration order is an `order` sequence that enumerates the keys (`Types.Enumerates`).

Module layout:

- Shared modules: `Wrappers` (Option/Result), `Types` (bytes, timestamps, JSON values,
  enumerations), `IdentityErrors`, `AttestorErrors` and `IpfsErrors` (the error enums and
  their messages), and `Strings` (Rust's `split`, `join`, `starts_with`).
- One module per core Rust file: `Crypto`, `Did`, `IdentityUtils`, `Vc`, `Verifiers`,
  `Threshold`, `Attestation`, `CredentialRegistry`, `DidRegistry`, `Verification`,
  `IpfsClient`, `Storage` and `Retrieval`.

## Model

| member | source | states |
|---|---|---|
| Crypto.KeyTypeNameInjective | identity-core/src/crypto.rs:23-32 | The four verification-key type names that `KeyType` displays are pairwise distinct: equal names mean equal key types. |
| Crypto.HashJson | identity-core/src/crypto.rs:50-53 | Hashing a JSON-serialisable value hashes its serialisation: `hash_json(v) == hash_data(serialize(v))`. |
| Crypto.GenerateKeypair | identity-core/src/crypto.rs:91-98 | Key generation fails, with a crypto error, exactly for Secp256k1. Every other key type yields a pair of that type holding the generator's keys. |
| Crypto.PublicKeyToMultibase | identity-core/src/crypto.rs:123-132 | The multibase form is `'z'` followed by the base64 text of the key. |
| Crypto.MultibaseIgnoresKeyType | identity-core/src/crypto.rs:123-132 | The multibase form does not depend on the key type. |
| Crypto.PublicKeyToJwk | identity-core/src/crypto.rs:135-156 | Ed25519 gives exactly `kty = OKP`, `crv = Ed25519` and `x`. Every other type gives exactly `kty = EC` and `x`. In both cases `x` is the base64 of the key. |
| Crypto.JwkHasCurveIffEd25519 | identity-core/src/crypto.rs:135-156 | The JWK has a `crv` member if and only if the key is Ed25519. |
| Did.NewDocument | identity-core/src/did.rs:121-138 | A new document has the two DID contexts, the given id, every optional list absent, `created = now` and no `updated`. |
| Did.AddVerificationMethod | identity-core/src/did.rs:141-147 | Appends one method at the end of the list, creating the list when absent. It sets `updated` and changes nothing else. |
| Did.AddAuthentication | identity-core/src/did.rs:150-156 | Appends one authentication entry at the end, creating the list when absent. It sets `updated` and changes nothing else. |
| Did.AddService | identity-core/src/did.rs:159-165 | Appends one service at the end, creating the list when absent. It sets `updated` and changes nothing else. |
| Did.Validate | identity-core/src/did.rs:168-190 | Succeeds if and only if the id starts with `did:`, the id has at least two `:` (three parts), and every verification-method id starts with `did:`. Failures are InvalidDid. |
| Did.AcceptableMeansDidPrefix | identity-core/src/did.rs:181-187 | Once the document id starts with `did:`, the check "starts with the document id or with `did:`" is the same as "starts with `did:`". |
| Did.GetMethod | identity-core/src/did.rs:193-206 | Fails, with InvalidDid, exactly when the id has no `:`. Otherwise the method's display name is the second `:`-separated part. |
| Did.SplitCountsSeparator | identity-core/src/did.rs:194-197 | Splitting on `:` gives at least two parts if and only if the string contains `:`. |
| Did.OccurrencesPositive | identity-core/src/did.rs:175-178 | A character occurs a positive number of times if and only if it is in the string. |
| Did.GetMethodCanonical | identity-core/src/did.rs:199-205 | `Custom` never carries one of the four named methods `web`, `key`, `ethr` or `ion`. |
| Did.GetMethodDisplayRoundTrip | identity-core/src/did.rs:107-117 | For `did:<name>:<rest>` with a `:`-free name, `get_method` succeeds and its Display is `name`. |
| IdentityUtils.ParseDid | identity-core/src/utils.rs:25-39 | Succeeds if and only if there are at least three `:`-parts and the first is `did`. The result is `did`, a `:`-free method and the re-joined rest. Failures are InvalidDid. |
| IdentityUtils.ParseDidInverse | identity-core/src/utils.rs:25-39 | Regenerating from a successful parse gives back the parsed string. |
| IdentityUtils.ParseGeneratedDid | identity-core/src/utils.rs:20-22 | `parse_did(generate_did_with_id(m, id)) == ("did", m, id)` for every `:`-free `m` and every id, including ids that contain `:`. |
| IdentityUtils.GenerateDidParses | identity-core/src/utils.rs:15-17 | A generated DID parses back to its method, whatever UUID was drawn. |
| IdentityUtils.ValidateTimestamp | identity-core/src/utils.rs:68-73 | Fails, with InvalidCredential, if and only if the timestamp is later than `now`. |
| IdentityUtils.CreateBasicDidDocument | identity-core/src/utils.rs:42-65 | Fails exactly for Secp256k1. Otherwise the document's id is the generated DID, with one multibase verification method `<did>#key-1` controlled by the DID and one authentication reference to it. It has the two standard contexts and no other relationship or service, and it was created and updated at `now`. |
| IdentityUtils.BasicDidDocumentValidates | identity-core/src/utils.rs:42-65 | The basic document always passes `DidDocument::validate`. |
| IdentityUtils.GeneratedDidShape | identity-core/src/utils.rs:14-17 | A generated DID starts with `did:` and holds at least two `:` separators, whatever the method name and UUID. |
| IdentityUtils.ColonsCounted | identity-core/src/utils.rs:21 | Joining two strings with `:` adds exactly one `:` to their counts. |
| Vc.TypeName | identity-core/src/vc.rs:115-126 | A custom type displays as its name, and the base variant displays as the `VerifiableCredential` type that validation requires. |
| Vc.TypeNamesDistinct | identity-core/src/vc.rs:115-126 | Distinct named credential types display differently. |
| Vc.NewCredential | identity-core/src/vc.rs:130-152 | A new credential has the v1 context, id `urn:uuid:<uid>`, types `[VerifiableCredential]`, a DID issuer and `issuanceDate = now`. It has no expiration, status, schema or proof. |
| Vc.AddType | identity-core/src/vc.rs:155-160 | The type is present afterwards, the types are the old ones plus it, no duplicate is created, the old list is a prefix, and nothing else changes. |
| Vc.AddTypeIdempotent | identity-core/src/vc.rs:155-160 | Adding the same type twice equals adding it once. |
| Vc.SetExpiration | identity-core/src/vc.rs:163-165 | Sets the expiration date and nothing else. |
| Vc.SetExpirationExpiry | identity-core/src/vc.rs:163-165 | After setting expiration `e`, the credential is expired at `now` if and only if `e <= now`. |
| Vc.AddProof | identity-core/src/vc.rs:173-178 | Appends one proof, creating the list when absent, and changes nothing else. |
| Vc.GetIssuerDid | identity-core/src/vc.rs:225-230 | Returns the DID string of a DID issuer or the `id` of an object issuer. |
| Vc.ValidateCredential | identity-core/src/vc.rs:181-213 | Succeeds if and only if the types include `VerifiableCredential`, the issuer DID starts with `did:` and the credential is not expired. An empty type list gives its own message. Failures are InvalidCredential. |
| Vc.CheckExpiration | identity-core/src/vc.rs:206-212 | The expiration check fails exactly when the credential is expired. |
| Vc.ExpiredNeverValid | identity-core/src/vc.rs:206-222 | An expired credential never validates. |
| Vc.ExpiryIsPermanent | identity-core/src/vc.rs:216-222 | A credential expired at `now` is expired at every later time. |
| Vc.NewCredentialValidIff | identity-core/src/vc.rs:130-152 | A freshly created credential validates at its issuance time if and only if the issuer DID starts with `did:`. |
| Vc.AddingKeepsValidity | identity-core/src/vc.rs:155-178 | Adding a type or a proof keeps a valid credential valid. |
| Vc.NewPresentation | identity-core/src/vc.rs:235-246 | A new presentation has the v1 context, id `urn:uuid:<uid>`, type `[VerifiablePresentation]`, the given credentials and holder, and no proof. |
| Vc.AddPresentationProof | identity-core/src/vc.rs:249-254 | Appends one proof to the presentation, creating the list when absent, and changes nothing else. |
| Vc.ValidateAll | identity-core/src/vc.rs:257-264 | Succeeds if and only if every credential validates. Otherwise it reports the first failing credential's error. |
| Vc.FirstInvalid | identity-core/src/vc.rs:257-260 | The index where the loop stops: every earlier credential validates, and the credential there, if any, does not. |
| Vc.ValidatePresentation | identity-core/src/vc.rs:257-264 | A presentation is valid if and only if each of its credentials is. Failures are InvalidCredential. |
| Vc.PresentationWithExpiredFails | identity-core/src/vc.rs:257-264 | A presentation holding an expired credential is invalid. |
| Verifiers.NewVerifier | attestors/src/verifier.rs:71-90 | A new verifier holds the given identity and key, has no organisation, methods, capabilities or metadata, and is created and updated at `now`. |
| Verifiers.AddCapability | attestors/src/verifier.rs:93-98 | Afterwards the capability is held, the held capabilities are the old ones plus it, and no duplicate is created. An already held capability leaves the verifier unchanged. |
| Verifiers.AddCapabilityIdempotent | attestors/src/verifier.rs:93-103 | Adding a capability twice equals adding it once. |
| Verifiers.CapabilityForCredentialType | attestors/src/verifier.rs:166-176 | Total and never an error. It gives `Custom(name)` exactly for names outside the six known credential type names. |
| Verifiers.CapabilityForCredentialTypeInjective | attestors/src/verifier.rs:166-176 | Different type names map to different capabilities. |
| Verifiers.CapabilityForVcTypes | attestors/src/verifier.rs:166-176 | The Display names of the KYC, age and degree credential types map to their capabilities. The base and driver-licence types map to Custom. |
| Verifiers.PresentFieldsExactly | attestors/src/verifier.rs:142-147 | The verified claims are exactly the required fields present in the claims, never more than the required fields. |
| Verifiers.PresentFieldsAllClaimed | attestors/src/verifier.rs:142-147 | When every required field is claimed, the verified claims are the required fields in their order. |
| Verifiers.VerifyCredential | attestors/src/verifier.rs:124-163 | Succeeds if and only if the verifier has the required capability and the credential validates. Each failure carries its message. The result copies the ids and the evidence level, and its claims are the present required fields in order. |
| Verifiers.ToNumeric | attestors/src/verifier.rs:243-250 | Every evidence level maps into 1..4. |
| Verifiers.ToNumericOrder | attestors/src/verifier.rs:243-250 | Low < Medium < High < VeryHigh, and the mapping is injective. |
| Verifiers.ValidateDidDocument | attestors/src/verifier.rs:214-223 | Succeeds if and only if the document id equals the verifier's DID and the document validates. It reports "DID mismatch" first, otherwise the document's own error. |
| Threshold.New | attestors/src/threshold.rs:54-66 | Fails, with ThresholdNotMet, if and only if `threshold == 0` or `threshold > total_parties`. |
| Threshold.GenerateKeyShares | attestors/src/threshold.rs:69-111 | Gives exactly `total_parties` shares with party ids `1..n` in order, carrying the scheme id. Each share's private and public parts encode the polynomial's value at its id. The public key encodes coefficient 0 and copies the scheme parameters. |
| Threshold.EvaluateAt | attestors/src/threshold.rs:85-91 | The accumulating loop computes `sum c_k * x^k mod r`. |
| Threshold.PolyAtZeroIsSecret | attestors/src/threshold.rs:71-80 | The polynomial at 0 is coefficient 0, the master secret. |
| Threshold.PolySumAtZero | attestors/src/threshold.rs:85-91 | Every partial sum of the polynomial at 0 is coefficient 0. |
| Threshold.ThresholdOneSharesSecret | attestors/src/threshold.rs:71-80 | With one coefficient, every share is the master secret. |
| Threshold.ModAddMul | attestors/src/threshold.rs:85-91 | Reducing the accumulator and the power modulo `r` inside the loop does not change the result. |
| Threshold.ModShift | attestors/src/threshold.rs:85-91 | Adding a multiple of `r` does not change a residue. |
| Threshold.ModUnique | attestors/src/threshold.rs:85-91 | The residue modulo `r` is the unique remainder in `[0, r)`. |
| Threshold.MulMagnitude | attestors/src/threshold.rs:212 | A non-zero multiple of `r` has magnitude at least `r`. |
| Threshold.MulAtLeast | attestors/src/threshold.rs:212 | A positive multiple of `r` is at least `r`. |
| Threshold.PartialSign | attestors/src/threshold.rs:114-139 | Fails if and only if the share's scheme id differs or the private share is not 32 bytes, with the code's messages. Otherwise the result carries the share's party id, the scheme id and the signed bytes. |
| Threshold.PartyIds | attestors/src/threshold.rs:160 | Lists the party ids of the signatures in order. |
| Threshold.CombineSignatures | attestors/src/threshold.rs:142-175 | Fewer than `threshold` inputs give ThresholdNotMet. A foreign scheme id gives a mismatch, and no inputs at all give an error. On success, `signers` are the first `threshold` party ids and the signature is the first input's bytes. |
| Threshold.VerifySignature | attestors/src/threshold.rs:178-203 | Errors if and only if the signature's or the key's scheme id differs. Otherwise it answers true exactly when both byte strings are non-empty and there are at least `threshold` signers. |
| Threshold.CombinedVerifies | attestors/src/threshold.rs:142-203 | A successful combination of non-empty signatures verifies against a non-empty key of the scheme. |
| Threshold.LagrangeCoefficient | attestors/src/threshold.rs:206-218 | The loop computes the product over signers `j != i` of `x_j * (x_j - x_i)^-1`. |
| Threshold.InvertedDifferenceNonZero | attestors/src/threshold.rs:212 | Distinct party ids have a non-zero difference modulo `r`, so the inverse exists and its `unwrap` cannot panic. |
| Threshold.LagrangeOfSelfOnly | attestors/src/threshold.rs:206-218 | A signer list holding only the party itself gives coefficient 1. |
| Attestation.NewRequest | attestors/src/attestation.rs:79-92 | A new request holds its inputs, is created at `now` and expires 24 hours later. |
| Attestation.NewRequestLifetime | attestors/src/attestation.rs:79-101 | A new request is expired at `now` if and only if more than 24 hours have passed since creation. |
| Attestation.ValidateRequest | attestors/src/attestation.rs:104-120 | Succeeds if and only if `1 <= threshold <= |required_attestors|`, the request is not expired and the credential validates. The checks are made in that order, with the code's errors: a bad threshold gives `Invalid threshold configuration`, an expired request `Request has expired`, and a failing credential `Invalid credential: ` followed by the credential's error. |
| Attestation.NewAttestation | attestors/src/attestation.rs:125-143 | A new attestation is Pending with no signature, no data and no verified claims. |
| Attestation.Approve | attestors/src/attestation.rs:146-150 | Sets Approved with `Some` partial signature and the verified claims. Nothing else changes. |
| Attestation.Reject | attestors/src/attestation.rs:153-156 | Sets Rejected and records `rejection_reason`. Nothing else changes. |
| Attestation.AddMetadata | attestors/src/attestation.rs:159-161 | Sets one data entry and changes nothing else. |
| Attestation.AddAllMetadata | attestors/src/attestation.rs:246-248 | After copying all metadata, the data keys are the union of the old keys and the metadata keys. Metadata values win; other entries keep their old values. |
| Attestation.Response | attestors/src/attestation.rs:227-245 | Fails exactly when approving and partial signing fails, with that error. Otherwise the attestation is signed: Approved with the partial signature if approved, else Rejected. An approved one carries the given verified claims and the base data with the metadata added; a rejected one also gets the `rejection_reason` entry and keeps the base's claims. The ids, DID and creation time are the base's. |
| Attestation.ApprovedOf | attestors/src/attestation.rs:263-265 | The approved attestations are members of the list, all Approved. |
| Attestation.ApprovedCountIsLength | attestors/src/attestation.rs:263-267 | The approved count is the number of approved attestations and at most the list length. |
| Attestation.ApprovedOfAppend | attestors/src/attestation.rs:251 | Appending an attestation appends it to the approved ones exactly when it is Approved. |
| Attestation.ApprovedCountAppend | attestors/src/attestation.rs:251 | Appending an attestation raises the approved count by one exactly when it is Approved. |
| Attestation.ApprovedCountMonotone | attestors/src/attestation.rs:251 | Appending attestations never lowers the approved count. |
| Attestation.PartialSigs | attestors/src/attestation.rs:269-273 | Every gathered signature comes from an attestation of the list, and there are at most as many as attestations. |
| Attestation.GatheredSignaturesMatchApprovals | attestors/src/attestation.rs:267-273 | When every Approved attestation carries a signature, the gathered signatures number exactly the approved count. |
| Attestation.AllSomeGathered | attestors/src/attestation.rs:269-273 | When every attestation carries a signature, one is gathered per attestation. |
| Attestation.CombineFailsOnlyBelowSchemeThreshold | attestors/src/attestation.rs:275-276 | Combining the gathered signatures succeeds if and only if the approved count is positive and reaches the scheme threshold. Below it, the error is ThresholdNotMet. |
| Attestation.ApprovedSignaturesOfScheme | attestors/src/attestation.rs:267-273 | When every attestation is signed under the scheme, one signature is gathered per approval and each carries the scheme's id. |
| Attestation.AttestorIds | attestors/src/attestation.rs:278-280 | The participating attestors are the attestor ids of the approved list, in order. |
| Attestation.VerifierMap | attestors/src/attestation.rs:177-182 | The verifier map's keys are exactly the verifiers' ids. |
| Attestation.KeyShareMap | attestors/src/attestation.rs:177-182 | Key shares are filed under verifier ids. Every verifier gets one when there are enough shares. |
| Attestation.AttestationManager.RegisterVerifiers | attestors/src/attestation.rs:177-182 | The registration loop files every verifier under its id and gives the `i`-th verifier share `i` while shares last. |
| Attestation.AttestationManager.New | attestors/src/attestation.rs:166-192 | Fails if and only if the scheme parameters are invalid, with `ThresholdNotMet`. Otherwise it deals `total_parties` shares: share i has party id i+1, the scheme's id, and the scalar and G1 encodings of the polynomial at i+1. The i-th verifier is registered with share i, and the public key is the G1 encoding of the constant term. Every dealt private share is 32 bytes, since `to_bytes` always yields 32. The primitives and serialiser are kept, and there are no requests or attestations. |
| Attestation.KeyShareMapFromShares | attestors/src/attestation.rs:177-182 | Every share filed under a verifier is one of the dealt shares. |
| Attestation.AttestationManager.SubmitRequest | attestors/src/attestation.rs:195-203 | Succeeds if and only if the request validates. The request is then pending under its id with an empty list. On an error no map changes. |
| Attestation.AttestationManager.ProcessAttestation | attestors/src/attestation.rs:206-254 | Each failure has the code's message and leaves the state unchanged: not pending, expired, unknown verifier, missing key share. Once those four checks pass, it succeeds exactly when building the signed response succeeds, and a failure would carry that response's error (from `partial_sign`). Because every held share belongs to the scheme and is 32 bytes, it always succeeds once those checks pass. On success exactly that response is appended to the request's list, and every other list is unchanged. |
| Attestation.FiledAppend | attestors/src/attestation.rs:249 | Pushing an attestation that names its own request and is signed under the scheme keeps every attestation filed under its request and signed. |
| Attestation.AttestationManager.TryCompleteAttestation | attestors/src/attestation.rs:257-302 | Unknown requests give not-found. Below the threshold it returns `Ok(None)` with no change. A failed combination returns its error and the request stays pending. Otherwise it returns the Completed result and removes only the pending entry. |
| Attestation.AttestationManager.GetAttestationStatus | attestors/src/attestation.rs:305-312 | Known requests report `(approved, total)` with `approved <= total`; unknown ones report None. |
| Attestation.AttestationManager.VerifyAttestationResult | attestors/src/attestation.rs:315-332 | A result without a signature verifies as `Ok(false)`. Otherwise it is the scheme's verification of the serialised credential. |
| CredentialRegistry.NewEntry | substrate-node/src/credential_registry.rs:84-92 | A new entry is Pending if and only if attestations are required, otherwise Active. It has a zero count and no revocation reason. |
| CredentialRegistry.CredentialRegistry.RegisterCredential | substrate-node/src/credential_registry.rs:62-97 | Fails exactly on a known id, leaving the existing entry untouched. Otherwise it inserts the new entry and nothing else. |
| CredentialRegistry.CredentialRegistry.AddAttestation | substrate-node/src/credential_registry.rs:100-116 | Unknown ids and non-Pending entries, including revoked ones, are refused. Otherwise the count rises by exactly one, and the entry becomes Active if and only if the count reaches the requirement. |
| CredentialRegistry.CredentialRegistry.PendingCountBelowRequirement | substrate-node/src/credential_registry.rs:108-113 | A Pending entry's count is below its requirement. |
| CredentialRegistry.CredentialRegistry.RevokeCredential | substrate-node/src/credential_registry.rs:119-145 | Unknown and already revoked ids are refused. Otherwise it sets Revoked, records the reason and files a revocation entry under the id. |
| CredentialRegistry.CredentialRegistry.GetCredentialStatus | substrate-node/src/credential_registry.rs:148-158 | Reports Expired when `now > expires_at`, otherwise the stored status. Unknown ids report None. |
| CredentialRegistry.CredentialRegistry.IsValidIff | substrate-node/src/credential_registry.rs:166-171 | `is_valid` holds if and only if the entry exists, is Active and has not passed its expiry. |
| CredentialRegistry.CredentialRegistry.GetCredential | substrate-node/src/credential_registry.rs:161-163 | Returns the stored entry exactly for known ids. |
| CredentialRegistry.CredentialRegistry.ListCredentialsByIssuer | substrate-node/src/credential_registry.rs:174-178 | Lists exactly the entries with that issuer. |
| CredentialRegistry.CredentialRegistry.ListCredentialsBySubject | substrate-node/src/credential_registry.rs:181-185 | Lists exactly the entries with that subject. |
| CredentialRegistry.CredentialRegistry.RegisterSchema | substrate-node/src/credential_registry.rs:188-195 | Refuses a known schema id. Otherwise it stores the hash, which `get_schema_hash` then returns. |
| CredentialRegistry.CredentialRegistry.GetSchemaHash | substrate-node/src/credential_registry.rs:198-200 | Returns the stored hash exactly for known schema ids. |
| CredentialRegistry.CredentialRegistry.GetRevocationInfo | substrate-node/src/credential_registry.rs:203-205 | Revocation info exists exactly for revoked entries and carries their reason. |
| DidRegistry.DidRegistry.RegisterDid | substrate-node/src/did_registry.rs:42-66 | Fails exactly on a known DID, changing nothing. Otherwise it inserts an Active entry with the given hash, controller and methods. |
| DidRegistry.DidRegistry.UpdateDidDocument | substrate-node/src/did_registry.rs:69-89 | The DID is refused when unknown, when the caller is not the controller, or when it is not Active, in that order. On success only the document hash and the update time change. |
| DidRegistry.DidRegistry.DeactivateDid | substrate-node/src/did_registry.rs:92-103 | Fails on an unknown DID or a wrong controller. Otherwise it sets Deactivated whatever the prior status, after which `is_active` is false. |
| DidRegistry.DidRegistry.GetDid | substrate-node/src/did_registry.rs:106-108 | Returns the stored entry exactly for known DIDs. |
| DidRegistry.DidRegistry.IsActive | substrate-node/src/did_registry.rs:111-115 | An unknown DID is not active; a known one is active if and only if its status is Active. |
| DidRegistry.DidRegistry.ListDidsByController | substrate-node/src/did_registry.rs:118-122 | Lists exactly the entries with that controller. |
| Verification.VerifyCredentialHashElementwise | substrate-node/src/verification.rs:3-5 | Two hashes compare equal if and only if they have the same length and agree byte by byte. |
| Verification.VerifyCredentialHashReflexive | substrate-node/src/verification.rs:3-5 | Every hash matches itself. |
| Verification.VerifyCredentialHashSymmetric | substrate-node/src/verification.rs:3-5 | The comparison is symmetric. |
| Verification.VerifyCredentialHashLength | substrate-node/src/verification.rs:3-5 | Hashes of different lengths never match. |
| IpfsClient.CustomContentOpaque | ipfs-client/src/client.rs:246-286 | Every `Custom(name)` has MIME type `application/octet-stream` and extension `.bin` and displays as `name`, whatever the name. |
| IpfsClient.PlainJsonTypes | ipfs-client/src/client.rs:246-257 | The MIME type is `application/json` if and only if the type is AttestationProof, RevocationList or Metadata. |
| IpfsClient.JsonExtensions | ipfs-client/src/client.rs:260-271 | Every non-Custom extension ends in `.json`, and distinct non-Custom types have distinct extensions. |
| IpfsClient.StoreContent | ipfs-client/src/client.rs:148-162 | A failed `add` gives `IPFS add failed: <e>`. Otherwise the result's hash is the returned hash and equals the metadata's hash, and the rest of the metadata is unchanged. |
| IpfsClient.InitialMetadata | ipfs-client/src/client.rs:84-93 | The metadata before storing has the content's length as size, the given type and tags, no hash yet and no encryption. |
| IpfsClient.StoreDidDocument | ipfs-client/src/client.rs:80-94 | Succeeds exactly when `add` does. The metadata is of type DidDocument with tags `did, document`, the returned hash and the serialised length, and the result's hash is the metadata's. A failed `add` gives `IPFS add failed: ` followed by its error. |
| IpfsClient.StoreCredential | ipfs-client/src/client.rs:97-111 | Succeeds exactly when `add` does. The metadata is of type VerifiableCredential with tags `credential, verifiable`, the returned hash and the serialised length, and the result's hash is the metadata's. A failed `add` gives `IPFS add failed: ` followed by its error. |
| IpfsClient.StorePresentation | ipfs-client/src/client.rs:114-128 | Succeeds exactly when `add` does. The metadata is of type VerifiablePresentation with tags `presentation, verifiable`, the returned hash and the serialised length, and the result's hash is the metadata's. A failed `add` gives `IPFS add failed: ` followed by its error. |
| IpfsClient.StoreAttestationProof | ipfs-client/src/client.rs:131-145 | Succeeds exactly when `add` does. The metadata is of type AttestationProof with tags `attestation, proof`, the returned hash and the serialised length, and the result's hash is the metadata's. A failed `add` gives `IPFS add failed: ` followed by its error. |
| IpfsClient.GetContent | ipfs-client/src/client.rs:165-179 | Returns the fetched bytes exactly when `cat` succeeds; otherwise it reports `Failed to read content: <e>`. |
| Storage.NewBatch | ipfs-client/src/storage.rs:275-279 | A new batch is empty. |
| Storage.AddDidDocument | ipfs-client/src/storage.rs:282-285 | Appends exactly one DID-document operation at the end, so the length grows by one. |
| Storage.AddCredential | ipfs-client/src/storage.rs:288-291 | Appends exactly one credential operation at the end, so the length grows by one. |
| Storage.AddPresentation | ipfs-client/src/storage.rs:294-297 | Appends exactly one presentation operation at the end, so the length grows by one. |
| Storage.AddJson | ipfs-client/src/storage.rs:300-303 | Appends exactly one JSON operation at the end, so the length grows by one. |
| Storage.NewCriteriaMatchesAll | ipfs-client/src/storage.rs:324-333 | Empty criteria match every metadata record. |
| Storage.EmptyDateWindowMatchesNothing | ipfs-client/src/storage.rs:236-246 | Both date bounds are strict, so a window with `before <= after` matches nothing. |
| Storage.MoreTagsNarrow | ipfs-client/src/storage.rs:227-233 | Requiring more tags never widens a match. |
| Storage.StoreOutcome | ipfs-client/src/storage.rs:76-110 | Each operation succeeds exactly when `add` does. The metadata has the operation's content type, the serialised length, the fixed tags followed by the caller's, and the returned hash. |
| Storage.Repeat | ipfs-client/src/storage.rs:207-212 | A repetition has the given length and holds only the given element. |
| Storage.TagsAfterKeys | ipfs-client/src/storage.rs:201-214 | After indexing, the tag index's keys are the old keys plus the content's tags. |
| Storage.TagsAfterAppends | ipfs-client/src/storage.rs:207-212 | After indexing, each tag's list is its old list with the hash appended once per occurrence of the tag. |
| Storage.StorageManager.UpdateIndexes | ipfs-client/src/storage.rs:201-214 | Sets `content_index[hash] := metadata` and appends the hash under each tag occurrence. The index invariant is kept. |
| Storage.StorageManager.StoreWithIndex | ipfs-client/src/storage.rs:76-117 | Returns the store outcome. The indexes change, as `update_indexes` changes them, only when the store succeeded. |
| Storage.Outcomes | ipfs-client/src/storage.rs:121-134 | The batch yields one store outcome per operation, in order. |
| Storage.BatchPartition | ipfs-client/src/storage.rs:120-143 | Successes and failures together number the operations. |
| Storage.FailuresIndexed | ipfs-client/src/storage.rs:120-143 | Failure indices are in range and strictly increasing. Each names a failed operation and carries its error message; every failed operation is listed. |
| Storage.BatchFailsExactlyOnRefusals | ipfs-client/src/storage.rs:120-143 | Operation `i` is listed as failed if and only if its `add` failed. The failure carries `IPFS add failed: <e>`. |
| Storage.StorageManager.ExecuteBatch | ipfs-client/src/storage.rs:120-143 | The successes and failures are those of the per-operation outcomes. `total_size` is the sum of successful sizes, and `total_operations` is the successes plus failures, equal to the operation count. The content and tag indexes afterwards are the old ones with every stored operation's metadata filed in order, as `update_indexes` files it. Successful hashes are indexed. |
| Storage.StorageManager.BatchStep | ipfs-client/src/storage.rs:124-133 | One turn of the batch loop: the successes, failures and total size grow by exactly this operation's outcome. Both indexes become those after filing one more outcome, and successful hashes stay indexed. |
| Storage.IndexesAfterStep | ipfs-client/src/storage.rs:124-133 | The indexes after one more operation are those before it with that operation's outcome filed. |
| Storage.IndexesAfterKeys | ipfs-client/src/storage.rs:201-214 | After a batch the content index holds the old hashes plus exactly the hashes of the stored operations. |
| Storage.FailedBatchKeepsIndexes | ipfs-client/src/storage.rs:124-133 | A batch in which every operation failed leaves both indexes as they were. |
| Storage.OutcomesStep | ipfs-client/src/storage.rs:124-133 | One more outcome extends the successes when it succeeded and otherwise the failures, with its index and error text. |
| Storage.SizeSumAppend | ipfs-client/src/storage.rs:126-127 | Appending a stored result adds its size to the total. |
| Storage.StorageManager.GetMetadata | ipfs-client/src/storage.rs:173-175 | Returns the indexed metadata exactly for indexed hashes. |
| Storage.StorageManager.Search | ipfs-client/src/storage.rs:146-151 | Returns exactly the indexed records that satisfy the criteria. |
| Storage.StorageManager.SearchWithNewCriteriaListsAll | ipfs-client/src/storage.rs:146-151 | Searching with empty criteria lists everything. |
| Storage.StorageManager.TypeFilterNarrowsSearch | ipfs-client/src/storage.rs:217-225 | A content-type filter narrows a search to records of that type. |
| Storage.StorageManager.FindByTags | ipfs-client/src/storage.rs:154-170 | No two results share a hash. Every result is indexed and listed under one of the tags, and every indexed hash listed under one of the tags is found. The results are in order of first visit: tag by tag, each tag's list in order, a repeated hash kept where it first appears. |
| Storage.StorageManager.CollectTag | ipfs-client/src/storage.rs:159-165 | The inner loop over one tag's list: the results afterwards are the records of the first occurrences among the hashes visited so far, this tag's indexed hashes included. |
| Storage.StorageManager.InOrderAppend | ipfs-client/src/storage.rs:161-162 | Collecting a new hash's record extends the order by that hash. |
| Storage.StorageManager.AlreadyCollected | ipfs-client/src/storage.rs:161 | The `any` test holds exactly when the hash was already visited. |
| Storage.StorageManager.InOrderSummary | ipfs-client/src/storage.rs:154-170 | Records in first-visit order have no repeated hash, and are exactly the indexed records listed under the tags. |
| Storage.IndexedStep | ipfs-client/src/storage.rs:159-160 | One more hash of a tag's list is kept exactly when it has a record. |
| Storage.IndexedElements | ipfs-client/src/storage.rs:159-160 | The hashes kept from a list are exactly those with a record. |
| Storage.VisitedStep | ipfs-client/src/storage.rs:157-158 | Visiting one more tag appends its indexed hashes, or nothing for an unknown tag. |
| Storage.VisitedExactly | ipfs-client/src/storage.rs:154-170 | The hashes visited are exactly the indexed hashes listed under one of the tags. |
| Storage.FirstOccurrencesDistinct | ipfs-client/src/storage.rs:161-162 | Keeping first occurrences keeps every element and repeats none. |
| Storage.FirstOccurrencesAppend | ipfs-client/src/storage.rs:161-162 | A new element is appended, and one already kept changes nothing. |
| Storage.TypeCountsExact | ipfs-client/src/storage.rs:188-191 | A type is counted if and only if it occurs, and its count is its number of occurrences. |
| Storage.MapSumRemove | ipfs-client/src/storage.rs:188-191 | The sum of a map's values does not depend on the key picked first. |
| Storage.BumpSum | ipfs-client/src/storage.rs:189-190 | Counting one more item raises the sum of the type counts by one. |
| Storage.TypeCountsSum | ipfs-client/src/storage.rs:188-191 | The type counts sum to the number of records counted. |
| Storage.TypeCountsStep | ipfs-client/src/storage.rs:187-189 | Counting one more record increments the count of its type, starting from 0. |
| Storage.StorageManager.Metadatas | ipfs-client/src/storage.rs:185-190 | Enumerating the content index in a given key order yields each key's metadata in that order. |
| Storage.StorageManager.GetStatistics | ipfs-client/src/storage.rs:183-198 | `total_items` is the index size, `total_tags` is the tag count and `total_size` is the sum of sizes. `type_counts` counts each type, and its values sum to `total_items`. |
| Types.EnumerationSize | ipfs-client/src/storage.rs:183-198 | A duplicate-free enumeration of a key set has as many elements as the set. |
| Retrieval.NewBatchRetrieval | ipfs-client/src/retrieval.rs:342-347 | A new batch retrieval holds the hashes and uses the cache. |
| Retrieval.WithoutCache | ipfs-client/src/retrieval.rs:356-359 | Turns the cache off and keeps the hashes. |
| Retrieval.DetectJsonType | ipfs-client/src/retrieval.rs:289-318 | In priority order: a DID document, then a credential, then a presentation, then Metadata for any other object. Non-objects give None. |
| Retrieval.DetectedTypesAreIdentityOrMetadata | ipfs-client/src/retrieval.rs:289-318 | Detection only ever yields DidDocument, VerifiableCredential, VerifiablePresentation or Metadata. |
| Retrieval.NoContextIsMetadata | ipfs-client/src/retrieval.rs:295-315 | An object without `@context` is Metadata. |
| Retrieval.DetectContentType | ipfs-client/src/retrieval.rs:289-318 | Content that is not JSON has no type. Otherwise the type is the one detected from the parsed JSON. |
| Retrieval.CacheLookup | ipfs-client/src/retrieval.rs:274-286 | A fresh entry (`now - cached_at < ttl`) is returned with its access count raised by one. An expired entry is removed and None returned. An absent hash returns None and leaves the cache unchanged. |
| Retrieval.CacheLookupIsLocal | ipfs-client/src/retrieval.rs:274-286 | A lookup changes no other hash's entry. |
| Retrieval.MissThenMiss | ipfs-client/src/retrieval.rs:280-285 | After a miss, looking up the same hash again misses and changes nothing. |
| Retrieval.FreshHitSkipsFetch | ipfs-client/src/retrieval.rs:250-253 | A fresh hit returns the cached bytes, whatever `cat` would have replied. |
| Retrieval.UncachedLeavesCache | ipfs-client/src/retrieval.rs:257-270 | With `use_cache` off the content is fetched and the cache is not touched. |
| Retrieval.MissCachesFetched | ipfs-client/src/retrieval.rs:257-270 | A miss with the cache on returns the fetched bytes and caches them at `now` with access count 1. |
| Retrieval.CacheAfterFetchKeepsCounts | ipfs-client/src/retrieval.rs:248-286 | Lookups and fetches keep every cached access count at least 1. |
| Retrieval.RetrievalManager.GetFromCache | ipfs-client/src/retrieval.rs:274-286 | The answer and the new cache are the lookup's. The TTL is kept, and so is the access-count invariant. |
| Retrieval.RetrievalManager.GetContentWithCache | ipfs-client/src/retrieval.rs:248-271 | The answer and the new cache are those of a cached fetch. The TTL is kept, and so is the access-count invariant. The public `get_raw_content` (retrieval.rs:108-110) is this call. |
| Retrieval.RetrievalManager.GetDidDocument | ipfs-client/src/retrieval.rs:76-81 | A failed fetch passes its error on. A parse error becomes `Failed to parse DID document: <e>`. |
| Retrieval.RetrievalManager.GetCredential | ipfs-client/src/retrieval.rs:84-89 | A failed fetch passes its error on. A parse error becomes `Failed to parse credential: <e>`. |
| Retrieval.RetrievalManager.GetPresentation | ipfs-client/src/retrieval.rs:92-97 | A failed fetch passes its error on. A parse error becomes `Failed to parse presentation: <e>`. |
| Retrieval.RetrievalManager.GetJson | ipfs-client/src/retrieval.rs:100-105 | A failed fetch passes its error on. A parse error becomes `Failed to parse JSON: <e>`. |
| Retrieval.RetrievalManager.ExecuteBatchRetrieval | ipfs-client/src/retrieval.rs:113-163 | The cache afterwards, the `successful` and `failed` maps and the hit count are those of handling every hash in order (`BatchAfter`). Hits plus misses equal the number of hashes. With the cache off there are no hits and the cache is unchanged. The hashes filed are exactly the batch's. The TTL and the access-count invariant are kept. |
| Retrieval.RetrievalManager.RetrieveAll | ipfs-client/src/retrieval.rs:114-155 | The loop over the hashes: the cache, result maps and hit count after it are `BatchAfter` of all of them, and hits plus misses count the hashes. |
| Retrieval.RetrievalManager.RetrieveAndFile | ipfs-client/src/retrieval.rs:119-155 | One turn of the loop: the new cache, maps and hit count are the old ones with this hash's retrieval filed, and hits plus misses grow by one. |
| Retrieval.RetrievalManager.RetrieveOne | ipfs-client/src/retrieval.rs:119-155 | One hash of the batch: whether it hit, its outcome and the new cache are exactly `RetrieveStep`'s. The TTL and the access-count invariant are kept. |
| Retrieval.Prefixed | ipfs-client/src/retrieval.rs:124-151 | A parse error is reported behind the given prefix, with the parser's message after it. A successful parse is passed through. |
| Retrieval.RetrieveStep | ipfs-client/src/retrieval.rs:119-155 | A hit exactly when the cache is on and holds a live entry for the hash, answered by parsing the cached data. Otherwise the node is asked through `get_content_with_cache`, and a failed fetch is a failed outcome. With the cache off the cache is unchanged. |
| Retrieval.RetrieveStepKeepsCounts | ipfs-client/src/retrieval.rs:119-155 | A retrieval step keeps every cached access count at least 1. |
| Retrieval.FileStep | ipfs-client/src/retrieval.rs:124-152 | Filing an outcome adds its hash to the hashes filed, in one map or the other, and counts a hit. |
| Retrieval.BatchAfter | ipfs-client/src/retrieval.rs:113-163 | After `k` hashes there are at most `k` hits. With the cache off there are none and the cache is the starting one. |
| Retrieval.BatchAfterKeys | ipfs-client/src/retrieval.rs:113-163 | Every hash handled so far is filed as a success or a failure, and nothing else is. |
| Retrieval.HashesSeenElements | ipfs-client/src/retrieval.rs:119 | The hashes seen in a prefix of the batch are exactly the elements of that prefix. |
| Retrieval.UncachedBatchIgnoresCache | ipfs-client/src/retrieval.rs:113-163 | With the cache off, a batch's results do not depend on what the cache held. |
| Retrieval.VerificationErrorsIff | ipfs-client/src/retrieval.rs:166-225 | There are no errors if and only if the content is non-empty, the detected type agrees with the expected one, and the detected identity type parses. |
| Retrieval.EmptyContentNeverVerifies | ipfs-client/src/retrieval.rs:175-177 | Empty content always has the error `Content is empty`. |
| Retrieval.RetrievalManager.VerifyContent | ipfs-client/src/retrieval.rs:166-226 | A failed fetch is an error. Otherwise the result carries the hash, the detected type, the size and the errors, and `is_valid` holds if and only if there are no errors. |
| Retrieval.AccessTotalAtLeastCount | ipfs-client/src/retrieval.rs:234-245 | When every entry was accessed at least once, the total access count is at least the number of entries. |
| Retrieval.DivisionBounds | ipfs-client/src/retrieval.rs:243 | Integer division brackets its dividend, and is at least 1 when the dividend reaches the divisor. |
| Retrieval.AverageAccess | ipfs-client/src/retrieval.rs:243 | The average is 0 for an empty cache, and otherwise the floor of total accesses over items. |
| Retrieval.RetrievalManager.Entries | ipfs-client/src/retrieval.rs:235-237 | Enumerating the cache in a given key order yields each key's entry in that order. |
| Retrieval.RetrievalManager.GetCacheStats | ipfs-client/src/retrieval.rs:234-245 | Gives the item count, the byte total and the access total. The average is their floor quotient, 0 when empty, and at least 1 for a non-empty cache. |
| Retrieval.RetrievalManager.ClearCache | ipfs-client/src/retrieval.rs:229-231 | Empties the cache and keeps the TTL. |
| Retrieval.RetrievalManager.SetCacheTtl | ipfs-client/src/retrieval.rs:71-73 | Sets the TTL and keeps the cache. |

## Left out

- Cryptography is not modelled: BLS12-381 group arithmetic, pairings, `hash_to_g2`,
  schnorrkel signing and verification, key generation bodies, SHA-256 and base64. They
  are uninterpreted function parameters (the `Primitives` record, `sha256`, `base64`,
  the `generated` key material). No cryptographic soundness is claimed.
- The combination and verification of threshold signatures are the placeholders the code
  contains: the first signature's bytes are taken, and verification does shallow checks.
  No Lagrange-weighted aggregation or pairing check is modelled.
- The encodings are uninterpreted except for one fact: `Scalar::to_bytes` yields 32 bytes
  (`Threshold.WellFormed`). `AttestationManager.New` requires it of the primitives it is given.
- `Scalar::from_bytes(..).unwrap()` in `partial_sign`: the byte decoding is part of the
  uninterpreted `signBytes`, so a 32-byte share that is not a canonical scalar is not modelled.
- `OsRng`: the random coefficients are the `draws` parameter.
- serde serialisation is modelled as total functions (`Serializers`, the attestation
  manager's `serialize`), so the `Serialization failed` error paths of `store_*` are not
  modelled. Parsing is a `Parsers` parameter that may fail.
- The IPFS network and async are not modelled. `add` and `cat` are replies passed in, one
  per call. `IpfsClient::new`, `new_local`, `test_connection`, `pin_content`,
  `unpin_content`, `list_pinned` and `get_node_info` only talk to the node and are left
  out. So are the client-level `get_did_document`, `get_credential` and
  `get_presentation`, which are a `cat` followed by a parse.
- The wall clock and UUIDs are parameters. Where one Rust call reads the clock several
  times, the model uses one reading per call (a list of readings for batches).
- Floating point is not modelled: `reputation_score`, `update_reputation` and
  `calculate_confidence_score`.
- Also omitted: `set_organization` and `add_metadata` of `Verifier`, the `description` and
  Display of capabilities and evidence levels, `set_status` of credentials, and the
  `generate_id`, `generate_*_id`, `normalize_json`, hex, url and nonce helpers of
  identity-core. They are thin library shims or unused by the modelled core.
- The mutators of value records (DidDocument, VerifiableCredential, VerifiablePresentation,
  Verifier, Attestation) are functions returning the updated record, not updates in place.
  These records are owned and cloned in the source, so no aliasing is lost.
- Integer widths are unbounded except where stated. `usize` party ids are bounded by 2^64.
  The registry's `attestation_count` and `required_attestations` are `u32`, and the model
  proves that `add_attestation`'s increment never overflows (`PendingCountBelowRequirement`).
  The model does not capture overflow of the `u64` sizes and totals in storage statistics and
  batches, or of the retrieval `access_count`. These would need more than 2^64 bytes or calls.
- HashMap iteration order is not modelled. The listing functions return sets. Statistics
  and batch results take an explicit enumeration of the keys. The item counts
  (`total_items` and each `type_counts` entry, by `TypeCountsExact`) do not depend on the
  enumeration; the size sums and the batch totals are stated per enumeration.
- `Verifiers.CapabilityDebug` and `IpfsClient.ContentTypeDebug` render `Custom(name)`
  without Rust's `{:?}` string escaping.
- `VerificationCriteria.validation_rules`, `RetrievalOptions.timeout` and
  `RetrievalOptions.verify_integrity` are carried but unused, as in the source.
  `EncryptionInfo` is never set by the modelled code.
- Concurrency: the code is single-threaded `&mut self`, so there is nothing to model.
- The CLI is argument parsing and printing and is not part of this model.
