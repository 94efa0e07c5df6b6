/**
  The multiparty attestation coordinator of attestors/src/attestation.rs. Requests wait in
  `pendingRequests`; every processed response appends one `Attestation` to the request's list
  in `attestations`; once enough of them are approved the partial signatures are combined and
  the request leaves `pendingRequests`. Clock readings and UUIDs are parameters; JSON
  serialisation of a credential and the curve primitives are fixed foreign functions the
  manager is built with.
 */
module Attestation {
  import opened Types
  import opened Wrappers
  import opened AttestorErrors
  import opened Threshold
  import Vc
  import Verifiers

  /** `chrono::Duration::hours(24)`, timestamps being seconds. */
  const RequestLifetime: int := 24 * 60 * 60

  datatype AttestationRequest = AttestationRequest(
    id: string,
    credential: Vc.VerifiableCredential,
    requiredAttestors: seq<string>,
    threshold: Usize,
    createdAt: Timestamp,
    expiresAt: Option<Timestamp>)

  datatype AttestationStatus = Pending | Approved | Rejected | Expired

  datatype Attestation = Attestation(
    id: string,
    requestId: string,
    attestorId: string,
    attestorDid: string,
    credentialId: string,
    status: AttestationStatus,
    partialSignature: Option<PartialSignature>,
    attestationData: map<string, Json>,
    createdAt: Timestamp,
    verifiedClaims: seq<string>)

  datatype AttestationResultStatus = InProgress | Completed | Failed | ResultExpired

  datatype AttestationResult = AttestationResult(
    requestId: string,
    credentialId: string,
    thresholdSignature: Option<ThresholdSignature>,
    participatingAttestors: seq<string>,
    status: AttestationResultStatus,
    createdAt: Timestamp,
    metadata: map<string, Json>)

  /** `AttestationRequest::new` at time `now` with `uid` drawn: it expires 24 hours later. */
  function NewRequest(credential: Vc.VerifiableCredential, requiredAttestors: seq<string>, threshold: Usize,
                      uid: string, now: Timestamp): (r: AttestationRequest)
    ensures r.id == uid && r.credential == credential && r.requiredAttestors == requiredAttestors
    ensures r.threshold == threshold && r.createdAt == now && r.expiresAt == Some(now + RequestLifetime)
  {
    AttestationRequest(uid, credential, requiredAttestors, threshold, now, Some(now + RequestLifetime))
  }

  /** `AttestationRequest::is_expired`: strictly past its expiry, never without one. */
  predicate IsExpired(request: AttestationRequest, now: Timestamp) {
    request.expiresAt.Some? && now > request.expiresAt.value
  }

  /** A new request stays unexpired for its whole 24-hour lifetime, and no longer. */
  lemma NewRequestLifetime(credential: Vc.VerifiableCredential, requiredAttestors: seq<string>,
                           threshold: Usize, uid: string, created: Timestamp, now: Timestamp)
    ensures IsExpired(NewRequest(credential, requiredAttestors, threshold, uid, created), now)
            <==> now > created + RequestLifetime
  {
  }

  /** `AttestationRequest::validate` at time `now`: threshold shape, expiry, then the credential. */
  function ValidateRequest(request: AttestationRequest, now: Timestamp): (r: Result<(), AttestorError>)
    ensures r.Success? <==>
              && 1 <= request.threshold <= |request.requiredAttestors|
              && !IsExpired(request, now)
              && Vc.ValidateCredential(request.credential, now).Success?
    ensures (request.threshold == 0 || request.threshold > |request.requiredAttestors|) ==>
              r == Failure(ThresholdNotMet("Invalid threshold configuration"))
    ensures 1 <= request.threshold <= |request.requiredAttestors| && IsExpired(request, now) ==>
              r == Failure(InvalidSignature("Request has expired"))
    ensures 1 <= request.threshold <= |request.requiredAttestors| && !IsExpired(request, now)
            && Vc.ValidateCredential(request.credential, now).Failure? ==>
              r == Failure(InvalidSignature("Invalid credential: " + Vc.ValidateCredential(request.credential, now).error.ToString()))
    ensures r.Failure? ==> r.error.ThresholdNotMet? || r.error.InvalidSignature?
  {
    if request.threshold == 0 || request.threshold > |request.requiredAttestors| then
      Failure(ThresholdNotMet("Invalid threshold configuration"))
    else if IsExpired(request, now) then
      Failure(InvalidSignature("Request has expired"))
    else
      var checked := Vc.ValidateCredential(request.credential, now);
      if checked.Failure? then Failure(InvalidSignature("Invalid credential: " + checked.error.ToString()))
      else Success(())
  }

  /** `Attestation::new` at time `now` with `uid` drawn: pending, unsigned, no data, no claims. */
  function NewAttestation(uid: string, requestId: string, attestorId: string, attestorDid: string,
                          credentialId: string, now: Timestamp): (a: Attestation)
    ensures a.id == uid && a.requestId == requestId && a.attestorId == attestorId
    ensures a.attestorDid == attestorDid && a.credentialId == credentialId && a.createdAt == now
    ensures a.status == Pending && a.partialSignature.None?
    ensures a.attestationData == map[] && a.verifiedClaims == []
  {
    Attestation(uid, requestId, attestorId, attestorDid, credentialId, Pending, None, map[], now, [])
  }

  /** `approve`: approved, carrying the partial signature and the verified claims. */
  function Approve(a: Attestation, sig: PartialSignature, verifiedClaims: seq<string>): (r: Attestation)
    ensures r.status == Approved && r.partialSignature == Some(sig) && r.verifiedClaims == verifiedClaims
    ensures r == a.(status := Approved, partialSignature := Some(sig), verifiedClaims := verifiedClaims)
  {
    a.(status := Approved, partialSignature := Some(sig), verifiedClaims := verifiedClaims)
  }

  const RejectionReasonKey := "rejection_reason"

  /** `reject`: rejected, with the reason recorded under `rejection_reason`. */
  function Reject(a: Attestation, reason: string): (r: Attestation)
    ensures r.status == Rejected && r.partialSignature == a.partialSignature
    ensures r.attestationData == a.attestationData[RejectionReasonKey := Str(reason)]
    ensures r == a.(status := Rejected, attestationData := r.attestationData)
  {
    a.(status := Rejected, attestationData := a.attestationData[RejectionReasonKey := Str(reason)])
  }

  /** `add_metadata`: one key inserted (or overwritten), nothing else touched. */
  function AddMetadata(a: Attestation, key: string, value: Json): (r: Attestation)
    ensures r.attestationData == a.attestationData[key := value]
    ensures r == a.(attestationData := r.attestationData)
  {
    a.(attestationData := a.attestationData[key := value])
  }

  /** Inserting every entry of a map, one `add_metadata` per key: the map overrides earlier data. */
  function AddAllMetadata(a: Attestation, metadata: map<string, Json>): (r: Attestation)
    ensures r.attestationData.Keys == a.attestationData.Keys + metadata.Keys
    ensures forall k :: k in metadata ==> r.attestationData[k] == metadata[k]
    ensures forall k :: k in a.attestationData && k !in metadata ==> r.attestationData[k] == a.attestationData[k]
    ensures r == a.(attestationData := r.attestationData)
  {
    a.(attestationData := a.attestationData + metadata)
  }

  /** An approved attestation carries a partial signature; a rejected one keeps whatever it had. */
  predicate Signed(a: Attestation) {
    a.status == Approved ==> a.partialSignature.Some?
  }

  /** Signed if approved, and any partial signature it carries was made under `scheme`. */
  predicate SignedFor(scheme: ThresholdScheme, a: Attestation) {
    Signed(a) && (a.partialSignature.Some? ==> a.partialSignature.value.schemeId == scheme.schemeId)
  }

  /** The approved attestations of a list, in list order (the `filter` of `try_complete_attestation`). */
  function ApprovedOf(list: seq<Attestation>): (approved: seq<Attestation>)
    ensures forall a :: a in approved ==> a in list && a.status == Approved
    ensures |approved| <= |list|
    decreases |list|
  {
    if |list| == 0 then []
    else (if list[0].status == Approved then [list[0]] else []) + ApprovedOf(list[1..])
  }

  /** `.filter(|a| a.status == Approved).count()`. */
  function ApprovedCount(list: seq<Attestation>): nat
    decreases |list|
  {
    if |list| == 0 then 0
    else (if list[|list| - 1].status == Approved then 1 else 0) + ApprovedCount(list[..|list| - 1])
  }

  /** The collected list and the count agree, and appending moves the count by the newcomer only. */
  lemma {:induction false} ApprovedCountIsLength(list: seq<Attestation>)
    ensures |ApprovedOf(list)| == ApprovedCount(list) <= |list|
    decreases |list|
  {
    if |list| > 0 {
      var init := list[..|list| - 1];
      ApprovedCountIsLength(init);
      ApprovedOfAppend(init, list[|list| - 1]);
      assert init + [list[|list| - 1]] == list;
    }
  }

  /** Concatenation of attestation lists associates. */
  lemma AppendAssociates(x: seq<Attestation>, y: seq<Attestation>, z: seq<Attestation>)
    ensures x + (y + z) == (x + y) + z
  {
  }

  lemma {:induction false} ApprovedOfAppend(list: seq<Attestation>, a: Attestation)
    ensures ApprovedOf(list + [a]) == ApprovedOf(list) + (if a.status == Approved then [a] else [])
    decreases |list|
  {
    if |list| == 0 {
      assert [a][1..] == [];
    } else {
      var head := if list[0].status == Approved then [list[0]] else [];
      var last := if a.status == Approved then [a] else [];
      assert (list + [a])[0] == list[0] && (list + [a])[1..] == list[1..] + [a];
      ApprovedOfAppend(list[1..], a);
      assert ApprovedOf(list + [a]) == head + (ApprovedOf(list[1..]) + last);
      AppendAssociates(head, ApprovedOf(list[1..]), last);
    }
  }

  /** `.filter_map(|a| a.partial_signature.as_ref())` over a list. */
  function PartialSigs(list: seq<Attestation>): (sigs: seq<PartialSignature>)
    ensures |sigs| <= |list|
    ensures forall k :: 0 <= k < |sigs| ==> exists a :: a in list && a.partialSignature == Some(sigs[k])
    decreases |list|
  {
    if |list| == 0 then []
    else
      (if list[0].partialSignature.Some? then [list[0].partialSignature.value] else []) + PartialSigs(list[1..])
  }

  /** When every approved attestation is signed, one partial signature is gathered per approval. */
  lemma {:induction false} GatheredSignaturesMatchApprovals(list: seq<Attestation>)
    requires forall i :: 0 <= i < |list| ==> Signed(list[i])
    ensures |PartialSigs(ApprovedOf(list))| == ApprovedCount(list)
  {
    ApprovedCountIsLength(list);
    AllSomeGathered(ApprovedOf(list));
  }

  lemma {:induction false} AllSomeGathered(list: seq<Attestation>)
    requires forall i :: 0 <= i < |list| ==> list[i].partialSignature.Some?
    ensures |PartialSigs(list)| == |list|
    decreases |list|
  {
    if |list| > 0 {
      AllSomeGathered(list[1..]);
    }
  }

  /**
    Inside a valid manager, combining the gathered signatures fails exactly when the approvals
    fall short of the scheme's own threshold (or there are none): every gathered signature was
    made under the manager's scheme.
   */
  lemma CombineFailsOnlyBelowSchemeThreshold(scheme: ThresholdScheme, list: seq<Attestation>)
    requires forall i :: 0 <= i < |list| ==> SignedFor(scheme, list[i])
    ensures CombineSignatures(scheme, PartialSigs(ApprovedOf(list))).Success?
            <==> ApprovedCount(list) >= scheme.threshold && ApprovedCount(list) > 0
    ensures ApprovedCount(list) < scheme.threshold ==>
              CombineSignatures(scheme, PartialSigs(ApprovedOf(list))).error.ThresholdNotMet?
  {
    ApprovedSignaturesOfScheme(scheme, list);
    var sigs := PartialSigs(ApprovedOf(list));
    var r := CombineSignatures(scheme, sigs);
    assert |sigs| == ApprovedCount(list);
    assert r.Success? <==> |sigs| >= scheme.threshold && |sigs| > 0;
  }

  /** Every partial signature gathered from the approvals was made under `scheme`, one per approval. */
  lemma ApprovedSignaturesOfScheme(scheme: ThresholdScheme, list: seq<Attestation>)
    requires forall i :: 0 <= i < |list| ==> SignedFor(scheme, list[i])
    ensures |PartialSigs(ApprovedOf(list))| == ApprovedCount(list)
    ensures forall k :: 0 <= k < |PartialSigs(ApprovedOf(list))| ==>
              PartialSigs(ApprovedOf(list))[k].schemeId == scheme.schemeId
  {
    assert forall i :: 0 <= i < |list| ==> Signed(list[i]);
    GatheredSignaturesMatchApprovals(list);
    var sigs := PartialSigs(ApprovedOf(list));
    forall k | 0 <= k < |sigs|
      ensures sigs[k].schemeId == scheme.schemeId
    {
      var a :| a in ApprovedOf(list) && a.partialSignature == Some(sigs[k]);
      var i :| 0 <= i < |list| && list[i] == a;
      assert SignedFor(scheme, list[i]);
    }
  }

  /** `.map(|a| a.attestor_id.clone())`. */
  function AttestorIds(list: seq<Attestation>): (ids: seq<string>)
    ensures |ids| == |list|
    ensures forall i :: 0 <= i < |list| ==> ids[i] == list[i].attestorId
  {
    seq(|list|, i requires 0 <= i < |list| => list[i].attestorId)
  }

  /**
    The attestation `process_attestation` appends once its lookups succeeded: new, carrying the
    response's metadata, then approved with a partial signature over the serialised credential
    (which can fail) or rejected.
   */
  function Response(scheme: ThresholdScheme, prim: Primitives, credentialBytes: Bytes, share: KeyShare,
                    base: Attestation, approved: bool, verifiedClaims: seq<string>,
                    metadata: map<string, Json>): (r: Result<Attestation, AttestorError>)
    ensures r.Failure? <==> approved && PartialSign(scheme, prim, credentialBytes, share).Failure?
    ensures r.Failure? ==> r.error == PartialSign(scheme, prim, credentialBytes, share).error
    ensures r.Success? ==> Signed(r.value) && (r.value.status == Approved <==> approved)
    ensures r.Success? ==>
              r.value.partialSignature
              == if approved then Some(PartialSign(scheme, prim, credentialBytes, share).value) else base.partialSignature
    ensures r.Success? && !approved ==>
              r.value.attestationData == (base.attestationData + metadata)[RejectionReasonKey := Str("Attestor rejected the credential")]
    ensures r.Success? && approved ==>
              r.value.verifiedClaims == verifiedClaims && r.value.attestationData == base.attestationData + metadata
    ensures r.Success? && !approved ==> r.value.verifiedClaims == base.verifiedClaims
    ensures r.Success? ==>
              && r.value.id == base.id && r.value.requestId == base.requestId
              && r.value.attestorId == base.attestorId && r.value.attestorDid == base.attestorDid
              && r.value.credentialId == base.credentialId && r.value.createdAt == base.createdAt
  {
    var withData := AddAllMetadata(base, metadata);
    if approved then
      var sig :- PartialSign(scheme, prim, credentialBytes, share);
      Success(Approve(withData, sig, verifiedClaims))
    else
      Success(Reject(withData, "Attestor rejected the credential"))
  }

  /** Maps `verifier.id` to the verifier, later entries overriding earlier ones. */
  function VerifierMap(verifiers: seq<Verifiers.Verifier>): (m: map<string, Verifiers.Verifier>)
    ensures m.Keys == set v | v in verifiers :: v.id
    decreases |verifiers|
  {
    if |verifiers| == 0 then map[]
    else
      var last := verifiers[|verifiers| - 1];
      var m := VerifierMap(verifiers[..|verifiers| - 1]);
      assert forall v :: v in verifiers <==> v in verifiers[..|verifiers| - 1] || v == last;
      m[last.id := last]
  }

  /** Maps the id of the `i`-th verifier to the `i`-th share, for the indices that have a share. */
  function KeyShareMap(verifiers: seq<Verifiers.Verifier>, shares: seq<KeyShare>): (m: map<string, KeyShare>)
    ensures m.Keys <= VerifierMap(verifiers).Keys
    ensures |verifiers| <= |shares| ==> m.Keys == VerifierMap(verifiers).Keys
    decreases |verifiers|
  {
    if |verifiers| == 0 then map[]
    else
      var n := |verifiers| - 1;
      var m := KeyShareMap(verifiers[..n], shares);
      if n < |shares| then m[verifiers[n].id := shares[n]] else m
  }

  /** Every key share belongs to `scheme` and holds the 32 bytes `partial_sign` accepts. */
  ghost predicate SharesFor(scheme: ThresholdScheme, keyShares: map<string, KeyShare>) {
    forall v :: v in keyShares ==> keyShares[v].schemeId == scheme.schemeId && |keyShares[v].privateShare| == 32
  }

  /** Each share registered by `KeyShareMap` is one of the dealt shares. */
  lemma {:induction false} KeyShareMapFromShares(verifiers: seq<Verifiers.Verifier>, shares: seq<KeyShare>)
    ensures forall v :: v in KeyShareMap(verifiers, shares) ==>
              exists i :: 0 <= i < |shares| && KeyShareMap(verifiers, shares)[v] == shares[i]
    decreases |verifiers|
  {
    if |verifiers| > 0 {
      var n := |verifiers| - 1;
      KeyShareMapFromShares(verifiers[..n], shares);
    }
  }

  /** Every attestation is filed under its request and is signed under `scheme` if approved. */
  ghost predicate Filed(scheme: ThresholdScheme, attestations: map<string, seq<Attestation>>) {
    forall id :: id in attestations ==>
      forall i :: 0 <= i < |attestations[id]| ==>
        attestations[id][i].requestId == id && SignedFor(scheme, attestations[id][i])
  }

  /** Appending an attestation filed under its own request, signed under the scheme, keeps the filing. */
  lemma FiledAppend(scheme: ThresholdScheme, attestations: map<string, seq<Attestation>>, id: string, a: Attestation)
    requires Filed(scheme, attestations) && id in attestations
    requires a.requestId == id && SignedFor(scheme, a)
    ensures Filed(scheme, attestations[id := attestations[id] + [a]])
  {
    var list := attestations[id] + [a];
    forall i | 0 <= i < |list|
      ensures list[i].requestId == id && SignedFor(scheme, list[i])
    {
      if i < |attestations[id]| {
        assert list[i] == attestations[id][i];
      }
    }
  }

  class AttestationManager {
    var scheme: ThresholdScheme
    var verifiers: map<string, Verifiers.Verifier>
    var keyShares: map<string, KeyShare>
    var publicKey: ThresholdPublicKey
    var pendingRequests: map<string, AttestationRequest>
    var attestations: map<string, seq<Attestation>>
    /** The curve primitives and `serde_json::to_vec` for credentials. */
    const prim: Primitives
    const serialize: Vc.VerifiableCredential -> Bytes

    /**
      Every pending request has a list of attestations, every attestation is filed under its
      request and is signed if approved, and every key share belongs to a known verifier.
     */
    ghost predicate Valid()
      reads this
    {
      && pendingRequests.Keys <= attestations.Keys
      && keyShares.Keys <= verifiers.Keys
      && SharesFor(scheme, keyShares)
      && Filed(scheme, attestations)
    }

    constructor Init(scheme: ThresholdScheme, verifiers: map<string, Verifiers.Verifier>,
                     keyShares: map<string, KeyShare>, publicKey: ThresholdPublicKey,
                     prim: Primitives, serialize: Vc.VerifiableCredential -> Bytes)
      requires keyShares.Keys <= verifiers.Keys && SharesFor(scheme, keyShares)
      ensures Valid()
      ensures this.scheme == scheme && this.verifiers == verifiers && this.keyShares == keyShares
      ensures this.publicKey == publicKey && this.prim == prim && this.serialize == serialize
      ensures pendingRequests == map[] && attestations == map[]
    {
      this.scheme := scheme;
      this.verifiers := verifiers;
      this.keyShares := keyShares;
      this.publicKey := publicKey;
      this.prim := prim;
      this.serialize := serialize;
      pendingRequests := map[];
      attestations := map[];
    }

    /**
      `AttestationManager::new`: build the scheme (with `uid` as its id), deal the shares from
      the drawn coefficients, then register the verifiers, the `i`-th one receiving share `i`
      while shares last.
     */
    static method New(threshold: Usize, totalParties: Usize, verifierList: seq<Verifiers.Verifier>,
                      uid: string, draws: seq<Scalar>, prim: Primitives,
                      serialize: Vc.VerifiableCredential -> Bytes)
      returns (r: Result<AttestationManager, AttestorError>, ghost shares: seq<KeyShare>)
      requires |draws| == if threshold == 0 then 1 else threshold
      requires WellFormed(prim)
      ensures r.Failure? <==> threshold == 0 || threshold > totalParties
      ensures r.Failure? ==> r.error.ThresholdNotMet?
      ensures r.Success? ==>
                && |shares| == totalParties
                && forall i :: 0 <= i < |shares| ==>
                     && shares[i].partyId == i + 1
                     && shares[i].schemeId == uid
                     && shares[i].privateShare == prim.scalarBytes(PolyEval(draws, ToScalar(i + 1)))
                     && shares[i].publicShare == prim.g1Bytes(PolyEval(draws, ToScalar(i + 1)))
                     && |shares[i].privateShare| == 32
      ensures r.Success? ==>
                && fresh(r.value) && r.value.Valid()
                && r.value.scheme == ThresholdScheme(threshold, totalParties, uid)
                && r.value.verifiers == VerifierMap(verifierList)
                && r.value.keyShares == KeyShareMap(verifierList, shares)
                && r.value.publicKey == ThresholdPublicKey(prim.g1Bytes(draws[0]), uid, threshold, totalParties)
                && r.value.prim == prim && r.value.serialize == serialize
                && r.value.pendingRequests == map[] && r.value.attestations == map[]
                && (|verifierList| <= totalParties ==> r.value.keyShares.Keys == r.value.verifiers.Keys)
    {
      shares := [];
      var scheme :- Threshold.New(threshold, totalParties, uid);
      var dealt, publicKey := GenerateKeyShares(scheme, prim, draws);
      shares := dealt;
      var verifierMap, keyShareMap := RegisterVerifiers(verifierList, dealt);
      KeyShareMapFromShares(verifierList, dealt);
      var manager := new AttestationManager.Init(scheme, verifierMap, keyShareMap, publicKey, prim, serialize);
      r := Success(manager);
    }

    /** The registration loop of `new`: the `i`-th verifier receives share `i` while shares last. */
    static method RegisterVerifiers(verifierList: seq<Verifiers.Verifier>, shares: seq<KeyShare>)
      returns (verifierMap: map<string, Verifiers.Verifier>, keyShareMap: map<string, KeyShare>)
      ensures verifierMap == VerifierMap(verifierList) && keyShareMap == KeyShareMap(verifierList, shares)
    {
      verifierMap := map[];
      keyShareMap := map[];
      var i := 0;
      while i < |verifierList|
        invariant 0 <= i <= |verifierList|
        invariant verifierMap == VerifierMap(verifierList[..i])
        invariant keyShareMap == KeyShareMap(verifierList[..i], shares)
      {
        var verifier := verifierList[i];
        assert verifierList[..i + 1][..i] == verifierList[..i];
        if i < |shares| {
          keyShareMap := keyShareMap[verifier.id := shares[i]];
        }
        verifierMap := verifierMap[verifier.id := verifier];
        i := i + 1;
      }
      assert verifierList[..|verifierList|] == verifierList;
    }

    /**
      `submit_request` at time `now`: a request that validates is filed as pending under its id
      with an empty attestation list (replacing any earlier request with that id).
     */
    method SubmitRequest(request: AttestationRequest, now: Timestamp) returns (r: Result<string, AttestorError>)
      requires Valid()
      modifies this
      ensures Valid()
      ensures r.Success? <==> ValidateRequest(request, now).Success?
      ensures r.Failure? ==> r.error == ValidateRequest(request, now).error
      ensures r.Failure? ==> pendingRequests == old(pendingRequests) && attestations == old(attestations)
      ensures r.Success? ==>
                && r.value == request.id
                && pendingRequests == old(pendingRequests)[request.id := request]
                && attestations == old(attestations)[request.id := []]
      ensures scheme == old(scheme) && verifiers == old(verifiers) && keyShares == old(keyShares)
      ensures publicKey == old(publicKey)
    {
      var checked := ValidateRequest(request, now);
      if checked.Failure? {
        return Failure(checked.error);
      }
      pendingRequests := pendingRequests[request.id := request];
      attestations := attestations[request.id := []];
      return Success(request.id);
    }

    /**
      `process_attestation` at time `now`, with `uid` the new attestation's id: four lookups
      and checks in source order, then one attestation appended to the request's list.
     */
    method ProcessAttestation(requestId: string, attestorId: string, approved: bool,
                              verifiedClaims: seq<string>, metadata: map<string, Json>,
                              uid: string, now: Timestamp) returns (r: Result<(), AttestorError>)
      requires Valid()
      modifies this
      ensures Valid()
      ensures requestId !in old(pendingRequests) ==> r == Failure(InvalidSignature("Request not found"))
      ensures requestId in old(pendingRequests) && IsExpired(old(pendingRequests)[requestId], now) ==>
                r == Failure(InvalidSignature("Request has expired"))
      ensures requestId in old(pendingRequests) && !IsExpired(old(pendingRequests)[requestId], now)
              && attestorId !in verifiers ==>
                r == Failure(InvalidSignature("Verifier not found"))
      ensures requestId in old(pendingRequests) && !IsExpired(old(pendingRequests)[requestId], now)
              && attestorId in verifiers && attestorId !in keyShares ==>
                r == Failure(InvalidSignature("Key share not found"))
      ensures requestId in old(pendingRequests) && !IsExpired(old(pendingRequests)[requestId], now)
              && attestorId in keyShares ==>
                var request := old(pendingRequests)[requestId];
                var response := Response(scheme, prim, serialize(request.credential), keyShares[attestorId],
                                         NewAttestation(uid, requestId, attestorId, verifiers[attestorId].did,
                                                        request.credential.id, now),
                                         approved, verifiedClaims, metadata);
                && (r.Success? <==> response.Success?)
                && (r.Failure? ==> r.error == response.error)
      ensures (requestId in old(pendingRequests) && !IsExpired(old(pendingRequests)[requestId], now)
               && attestorId in keyShares) ==> r.Success?
      ensures r.Failure? ==> attestations == old(attestations)
      ensures r.Success? ==>
                && requestId in old(pendingRequests) && !IsExpired(old(pendingRequests)[requestId], now)
                && attestorId in keyShares
                && var request := old(pendingRequests)[requestId];
                   var response := Response(scheme, prim, serialize(request.credential), keyShares[attestorId],
                                            NewAttestation(uid, requestId, attestorId, verifiers[attestorId].did,
                                                           request.credential.id, now),
                                            approved, verifiedClaims, metadata);
                   && response.Success?
                   && attestations == old(attestations)[requestId := old(attestations)[requestId] + [response.value]]
      ensures r.Failure? && attestorId in keyShares ==>
                (approved || requestId !in old(pendingRequests) || IsExpired(old(pendingRequests)[requestId], now))
      ensures pendingRequests == old(pendingRequests) && scheme == old(scheme) && verifiers == old(verifiers)
      ensures keyShares == old(keyShares) && publicKey == old(publicKey)
    {
      if requestId !in pendingRequests {
        return Failure(InvalidSignature("Request not found"));
      }
      var request := pendingRequests[requestId];
      if IsExpired(request, now) {
        return Failure(InvalidSignature("Request has expired"));
      }
      if attestorId !in verifiers {
        return Failure(InvalidSignature("Verifier not found"));
      }
      var verifier := verifiers[attestorId];
      if attestorId !in keyShares {
        return Failure(InvalidSignature("Key share not found"));
      }
      var share := keyShares[attestorId];
      var base := NewAttestation(uid, requestId, attestorId, verifier.did, request.credential.id, now);
      var response := Response(scheme, prim, serialize(request.credential), share, base,
                               approved, verifiedClaims, metadata);
      if response.Failure? {
        // Every share held under `Valid()` is accepted by `partial_sign`, so its error never propagates.
        assert false;
      }
      var attestation := response.value;
      FiledAppend(scheme, attestations, requestId, attestation);
      attestations := attestations[requestId := attestations[requestId] + [attestation]];
      return Success(());
    }

    /**
      `try_complete_attestation` at time `now`: below the request's threshold nothing happens;
      otherwise the gathered partial signatures are combined and, if that succeeds, the request
      is completed and leaves `pendingRequests` (its attestations are kept).
     */
    method TryCompleteAttestation(requestId: string, now: Timestamp)
      returns (r: Result<Option<AttestationResult>, AttestorError>)
      requires Valid()
      modifies this
      ensures Valid()
      ensures requestId !in old(pendingRequests) ==> r == Failure(InvalidSignature("Request not found"))
      ensures requestId in old(pendingRequests) ==>
                var request := old(pendingRequests)[requestId];
                var list := old(attestations)[requestId];
                var combined := CombineSignatures(scheme, PartialSigs(ApprovedOf(list)));
                && (ApprovedCount(list) < request.threshold ==> r == Success(None))
                && (ApprovedCount(list) >= request.threshold && combined.Failure? ==> r == Failure(combined.error))
                && (ApprovedCount(list) >= request.threshold && combined.Success? ==>
                      r == Success(Some(AttestationResult(
                             requestId, request.credential.id, Some(combined.value), AttestorIds(ApprovedOf(list)),
                             Completed, now,
                             map["threshold_met" := Bool(true), "total_attestations" := Number(|list|)]))))
      ensures r.Success? && r.value.Some? ==>
                && pendingRequests == old(pendingRequests) - {requestId}
                && |r.value.value.participatingAttestors| >= old(pendingRequests)[requestId].threshold
      ensures !(r.Success? && r.value.Some?) ==> pendingRequests == old(pendingRequests)
      ensures attestations == old(attestations) && scheme == old(scheme) && verifiers == old(verifiers)
      ensures keyShares == old(keyShares) && publicKey == old(publicKey)
    {
      if requestId !in pendingRequests {
        return Failure(InvalidSignature("Request not found"));
      }
      var request := pendingRequests[requestId];
      var list := attestations[requestId];
      var approvedList := ApprovedOf(list);
      ApprovedCountIsLength(list);
      if |approvedList| >= request.threshold {
        var combined :- CombineSignatures(scheme, PartialSigs(approvedList));
        var metadata := map["threshold_met" := Bool(true), "total_attestations" := Number(|list|)];
        var result := AttestationResult(requestId, request.credential.id, Some(combined),
                                        AttestorIds(approvedList), Completed, now, metadata);
        pendingRequests := pendingRequests - {requestId};
        return Success(Some(result));
      }
      return Success(None);
    }

    /** `get_attestation_status`: (approved, total) for every request ever submitted. */
    function GetAttestationStatus(requestId: string): (r: Option<(nat, nat)>)
      reads this
      ensures r.None? <==> requestId !in attestations
      ensures r.Some? ==> r.value.0 == ApprovedCount(attestations[requestId]) && r.value.1 == |attestations[requestId]|
      ensures r.Some? ==> r.value.0 <= r.value.1
    {
      if requestId !in attestations then None
      else
        var list := attestations[requestId];
        ApprovedCountIsLength(list);
        Some((ApprovedCount(list), |list|))
    }

    /**
      `verify_attestation_result`: a result without a signature is reported unverified;
      otherwise the scheme's verification runs on the serialised credential.
     */
    function VerifyAttestationResult(result: AttestationResult, credential: Vc.VerifiableCredential)
      : (r: Result<bool, AttestorError>)
      reads this
      ensures result.thresholdSignature.None? ==> r == Success(false)
      ensures result.thresholdSignature.Some? ==>
                r == VerifySignature(scheme, serialize(credential), result.thresholdSignature.value, publicKey)
    {
      match result.thresholdSignature
      case None => Success(false)
      case Some(sig) => VerifySignature(scheme, serialize(credential), sig, publicKey)
    }
  }

  /** Appending one attestation moves the approved count by one exactly when it is approved. */
  lemma ApprovedCountAppend(list: seq<Attestation>, a: Attestation)
    ensures ApprovedCount(list + [a]) == ApprovedCount(list) + (if a.status == Approved then 1 else 0)
  {
    assert (list + [a])[..|list|] == list;
  }

  /** Approvals never go away: the approved count is monotone under appending. */
  lemma {:induction false} ApprovedCountMonotone(list: seq<Attestation>, more: seq<Attestation>)
    ensures ApprovedCount(list) <= ApprovedCount(list + more)
    decreases |more|
  {
    if |more| > 0 {
      var init := more[..|more| - 1];
      ApprovedCountMonotone(list, init);
      assert list + more == (list + init) + [more[|more| - 1]];
      ApprovedCountAppend(list + init, more[|more| - 1]);
    } else {
      assert list + more == list;
    }
  }
}
