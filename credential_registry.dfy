/**
  The on-chain credential registry of substrate-node/src/credential_registry.rs: credential
  entries moving Pending → Active as attestations arrive, or to Revoked, a revocation log and
  a schema table. The clock is the parameter `now`.
 */
module CredentialRegistry {
  import opened Types
  import opened Wrappers

  datatype CredentialStatus = Pending | Active | Revoked | Expired | Suspended

  datatype CredentialRegistryEntry = CredentialRegistryEntry(
    credentialId: string,
    credentialHash: string,
    issuerDid: string,
    subjectDid: Option<string>,
    schemaId: Option<string>,
    issuedAt: Timestamp,
    expiresAt: Option<Timestamp>,
    status: CredentialStatus,
    revocationReason: Option<string>,
    attestationCount: u32,
    requiredAttestations: u32,
    metadata: map<string, string>)

  datatype RevocationEntry = RevocationEntry(
    credentialId: string,
    revokedAt: Timestamp,
    revokedBy: string,
    reason: string,
    revocationListHash: Option<string>)

  /** The entry `register_credential` stores: pending while attestations are still required. */
  function NewEntry(credentialId: string, credentialHash: string, issuerDid: string, subjectDid: Option<string>,
                    schemaId: Option<string>, expiresAt: Option<Timestamp>, requiredAttestations: u32,
                    now: Timestamp): (e: CredentialRegistryEntry)
    ensures e.status == Pending <==> requiredAttestations > 0
    ensures e.status == Active <==> requiredAttestations == 0
    ensures e.attestationCount == 0 && e.revocationReason.None? && e.metadata == map[]
    ensures e.credentialId == credentialId && e.credentialHash == credentialHash && e.issuerDid == issuerDid
    ensures e.subjectDid == subjectDid && e.schemaId == schemaId && e.issuedAt == now
    ensures e.expiresAt == expiresAt && e.requiredAttestations == requiredAttestations
  {
    CredentialRegistryEntry(credentialId, credentialHash, issuerDid, subjectDid, schemaId, now, expiresAt,
                            if requiredAttestations > 0 then Pending else Active,
                            None, 0, requiredAttestations, map[])
  }

  /** What an entry must look like between calls. */
  predicate WellFormed(id: string, e: CredentialRegistryEntry) {
    && e.credentialId == id
    && e.status in {Pending, Active, Revoked}
    && (e.status == Pending ==> e.attestationCount < e.requiredAttestations)
    && (e.status == Revoked <==> e.revocationReason.Some?)
  }

  /** The status reported at time `now`: `Expired` once strictly past the expiry. */
  function ReportedStatus(e: CredentialRegistryEntry, now: Timestamp): CredentialStatus {
    if e.expiresAt.Some? && now > e.expiresAt.value then Expired else e.status
  }

  class CredentialRegistry {
    var entries: map<string, CredentialRegistryEntry>
    var revocations: map<string, RevocationEntry>
    var schemaRegistry: map<string, string>

    /**
      Entries are filed under their own id, never hold a stored Expired or Suspended status,
      stay below their requirement while Pending, and carry a reason exactly when revoked;
      the revocation log holds exactly the revoked ids, with the same reason.
     */
    ghost predicate Valid()
      reads this
    {
      && (forall id :: id in entries ==> WellFormed(id, entries[id]))
      && (forall id :: id in revocations <==> id in entries && entries[id].status == Revoked)
      && (forall id :: id in revocations ==>
            revocations[id].credentialId == id && Some(revocations[id].reason) == entries[id].revocationReason)
    }

    /** `CredentialRegistry::new`. */
    constructor ()
      ensures Valid()
      ensures entries == map[] && revocations == map[] && schemaRegistry == map[]
    {
      entries := map[];
      revocations := map[];
      schemaRegistry := map[];
    }

    /** `register_credential` at time `now`: refused for a known id, which keeps its entry. */
    method RegisterCredential(credentialId: string, credentialHash: string, issuerDid: string,
                              subjectDid: Option<string>, schemaId: Option<string>,
                              expiresAt: Option<Timestamp>, requiredAttestations: u32, now: Timestamp)
      returns (r: Result<(), string>)
      requires Valid()
      modifies this
      ensures Valid()
      ensures r.Failure? <==> credentialId in old(entries)
      ensures r.Failure? ==> r.error == "Credential already exists" && entries == old(entries)
      ensures r.Success? ==>
                entries == old(entries)[credentialId := NewEntry(credentialId, credentialHash, issuerDid, subjectDid,
                                                                 schemaId, expiresAt, requiredAttestations, now)]
      ensures revocations == old(revocations) && schemaRegistry == old(schemaRegistry)
    {
      if credentialId in entries {
        return Failure("Credential already exists");
      }
      entries := entries[credentialId := NewEntry(credentialId, credentialHash, issuerDid, subjectDid,
                                                  schemaId, expiresAt, requiredAttestations, now)];
      return Success(());
    }

    /**
      `add_attestation`: only a Pending entry accepts one; its count goes up by exactly one
      (never overflowing `u32`) and it becomes Active once the count reaches the requirement.
     */
    method AddAttestation(credentialId: string) returns (r: Result<(), string>)
      requires Valid()
      modifies this
      ensures Valid()
      ensures credentialId !in old(entries) ==> r == Failure("Credential not found")
      ensures credentialId in old(entries) && old(entries)[credentialId].status != Pending ==>
                r == Failure("Credential is not pending attestation")
      ensures r.Failure? ==> entries == old(entries)
      ensures r.Success? <==> credentialId in old(entries) && old(entries)[credentialId].status == Pending
      ensures r.Success? ==>
                var e := old(entries)[credentialId];
                var count := e.attestationCount + 1;
                && entries == old(entries)[credentialId := e.(attestationCount := count,
                                                              status := if count >= e.requiredAttestations
                                                                        then Active else Pending)]
      ensures revocations == old(revocations) && schemaRegistry == old(schemaRegistry)
    {
      if credentialId !in entries {
        return Failure("Credential not found");
      }
      var e := entries[credentialId];
      if e.status != Pending {
        return Failure("Credential is not pending attestation");
      }
      e := e.(attestationCount := e.attestationCount + 1);
      if e.attestationCount >= e.requiredAttestations {
        e := e.(status := Active);
      }
      entries := entries[credentialId := e];
      return Success(());
    }

    /**
      `revoke_credential` at time `now`: refused for an unknown or already revoked id;
      otherwise the entry becomes Revoked with the reason, and the revocation is logged.
     */
    method RevokeCredential(credentialId: string, revokedBy: string, reason: string, now: Timestamp)
      returns (r: Result<(), string>)
      requires Valid()
      modifies this
      ensures Valid()
      ensures credentialId !in old(entries) ==> r == Failure("Credential not found")
      ensures credentialId in old(entries) && old(entries)[credentialId].status == Revoked ==>
                r == Failure("Credential already revoked")
      ensures r.Success? <==> credentialId in old(entries) && old(entries)[credentialId].status != Revoked
      ensures r.Failure? ==> entries == old(entries) && revocations == old(revocations)
      ensures r.Success? ==>
                && entries == old(entries)[credentialId := old(entries)[credentialId].(
                                 status := Revoked, revocationReason := Some(reason))]
                && revocations == old(revocations)[credentialId := RevocationEntry(credentialId, now, revokedBy,
                                                                                   reason, None)]
      ensures schemaRegistry == old(schemaRegistry)
    {
      if credentialId !in entries {
        return Failure("Credential not found");
      }
      var e := entries[credentialId];
      if e.status == Revoked {
        return Failure("Credential already revoked");
      }
      entries := entries[credentialId := e.(status := Revoked, revocationReason := Some(reason))];
      revocations := revocations[credentialId := RevocationEntry(credentialId, now, revokedBy, reason, None)];
      return Success(());
    }

    /** `get_credential_status` at time `now`. */
    function GetCredentialStatus(credentialId: string, now: Timestamp): (r: Option<CredentialStatus>)
      reads this
      ensures r.None? <==> credentialId !in entries
      ensures r.Some? ==>
                var e := entries[credentialId];
                (r.value == Expired <==> (e.expiresAt.Some? && now > e.expiresAt.value) || e.status == Expired)
                && (r.value != Expired ==> r.value == e.status)
    {
      if credentialId !in entries then None else Some(ReportedStatus(entries[credentialId], now))
    }

    /** `is_valid` at time `now`: the reported status is Active. */
    predicate IsValid(credentialId: string, now: Timestamp)
      reads this
    {
      GetCredentialStatus(credentialId, now) == Some(Active)
    }

    /**
      Validity in the registry's own terms: known, Active, not past expiry. In particular
      pending, revoked and expired credentials are never valid.
     */
    lemma IsValidIff(credentialId: string, now: Timestamp)
      ensures IsValid(credentialId, now) <==>
                && credentialId in entries
                && entries[credentialId].status == Active
                && !(entries[credentialId].expiresAt.Some? && now > entries[credentialId].expiresAt.value)
    {
    }

    /** Between calls the requirement of a Pending entry is still ahead, so the next attestation fits in `u32`. */
    lemma PendingCountBelowRequirement(credentialId: string)
      requires Valid() && credentialId in entries && entries[credentialId].status == Pending
      ensures entries[credentialId].attestationCount + 1 <= entries[credentialId].requiredAttestations
    {
    }

    /** `get_credential`. */
    function GetCredential(credentialId: string): (r: Option<CredentialRegistryEntry>)
      reads this
      ensures r.Some? <==> credentialId in entries
      ensures r.Some? ==> r.value == entries[credentialId]
    {
      if credentialId in entries then Some(entries[credentialId]) else None
    }

    /** `get_revocation_info`: present exactly for the revoked credentials of a valid registry. */
    function GetRevocationInfo(credentialId: string): (r: Option<RevocationEntry>)
      reads this
      requires Valid()
      ensures r.Some? <==> credentialId in entries && entries[credentialId].status == Revoked
      ensures r.Some? ==> Some(r.value.reason) == entries[credentialId].revocationReason
    {
      if credentialId in revocations then Some(revocations[credentialId]) else None
    }

    /** `list_credentials_by_issuer` (in no particular order). */
    function ListCredentialsByIssuer(issuerDid: string): (r: set<CredentialRegistryEntry>)
      reads this
      ensures forall e :: e in r <==> e in entries.Values && e.issuerDid == issuerDid
    {
      set e | e in entries.Values && e.issuerDid == issuerDid
    }

    /** `list_credentials_by_subject` (in no particular order); entries without a subject never match. */
    function ListCredentialsBySubject(subjectDid: string): (r: set<CredentialRegistryEntry>)
      reads this
      ensures forall e :: e in r <==> e in entries.Values && e.subjectDid == Some(subjectDid)
    {
      set e | e in entries.Values && e.subjectDid == Some(subjectDid)
    }

    /** `register_schema`: refused for a known schema id, whose hash is kept. */
    method RegisterSchema(schemaId: string, schemaHash: string) returns (r: Result<(), string>)
      requires Valid()
      modifies this
      ensures Valid()
      ensures r.Failure? <==> schemaId in old(schemaRegistry)
      ensures r.Failure? ==> r.error == "Schema already exists" && schemaRegistry == old(schemaRegistry)
      ensures r.Success? ==> schemaRegistry == old(schemaRegistry)[schemaId := schemaHash]
      ensures r.Success? ==> GetSchemaHash(schemaId) == Some(schemaHash)
      ensures entries == old(entries) && revocations == old(revocations)
    {
      if schemaId in schemaRegistry {
        return Failure("Schema already exists");
      }
      schemaRegistry := schemaRegistry[schemaId := schemaHash];
      return Success(());
    }

    /** `get_schema_hash`. */
    function GetSchemaHash(schemaId: string): (r: Option<string>)
      reads this
      ensures r.Some? <==> schemaId in schemaRegistry
      ensures r.Some? ==> r.value == schemaRegistry[schemaId]
    {
      if schemaId in schemaRegistry then Some(schemaRegistry[schemaId]) else None
    }
  }
}
