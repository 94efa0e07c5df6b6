/**
  The on-chain DID registry of substrate-node/src/did_registry.rs: entries keyed by DID,
  changed only by their controller while Active, and deactivated for good. The clock is the
  parameter `now`.
 */
module DidRegistry {
  import opened Types
  import opened Wrappers

  datatype DidStatus = Active | Deactivated | Revoked

  datatype DidRegistryEntry = DidRegistryEntry(
    did: string,
    documentHash: string,
    controller: string,
    createdAt: Timestamp,
    updatedAt: Timestamp,
    status: DidStatus,
    verificationMethods: seq<string>,
    metadata: map<string, string>)

  class DidRegistry {
    var entries: map<string, DidRegistryEntry>

    /** Entries are filed under their own DID and are either Active or Deactivated. */
    ghost predicate Valid()
      reads this
    {
      forall did :: did in entries ==> entries[did].did == did && entries[did].status != Revoked
    }

    /** `DidRegistry::new`. */
    constructor ()
      ensures Valid() && entries == map[]
    {
      entries := map[];
    }

    /** `register_did` at time `now`: refused for a known DID; a new entry starts Active. */
    method RegisterDid(did: string, documentHash: string, controller: string,
                       verificationMethods: seq<string>, now: Timestamp) returns (r: Result<(), string>)
      requires Valid()
      modifies this
      ensures Valid()
      ensures r.Failure? <==> did in old(entries)
      ensures r.Failure? ==> r.error == "DID already exists" && entries == old(entries)
      ensures r.Success? ==>
                entries == old(entries)[did := DidRegistryEntry(did, documentHash, controller, now, now, Active,
                                                                verificationMethods, map[])]
      ensures r.Success? ==> IsActive(did)
    {
      if did in entries {
        return Failure("DID already exists");
      }
      entries := entries[did := DidRegistryEntry(did, documentHash, controller, now, now, Active,
                                                 verificationMethods, map[])];
      return Success(());
    }

    /**
      `update_did_document` at time `now`: only the controller of an Active DID may change its
      document hash; nothing but the hash and the update time changes.
     */
    method UpdateDidDocument(did: string, newDocumentHash: string, controller: string, now: Timestamp)
      returns (r: Result<(), string>)
      requires Valid()
      modifies this
      ensures Valid()
      ensures did !in old(entries) ==> r == Failure("DID not found")
      ensures did in old(entries) && old(entries)[did].controller != controller ==>
                r == Failure("Unauthorized: not the controller")
      ensures did in old(entries) && old(entries)[did].controller == controller && old(entries)[did].status != Active ==>
                r == Failure("DID is not active")
      ensures r.Success? <==>
                did in old(entries) && old(entries)[did].controller == controller && old(entries)[did].status == Active
      ensures r.Failure? ==> entries == old(entries)
      ensures r.Success? ==>
                entries == old(entries)[did := old(entries)[did].(documentHash := newDocumentHash, updatedAt := now)]
    {
      if did !in entries {
        return Failure("DID not found");
      }
      var e := entries[did];
      if e.controller != controller {
        return Failure("Unauthorized: not the controller");
      }
      if e.status != Active {
        return Failure("DID is not active");
      }
      entries := entries[did := e.(documentHash := newDocumentHash, updatedAt := now)];
      return Success(());
    }

    /**
      `deactivate_did` at time `now`: the controller may deactivate a DID whatever its status;
      afterwards it is no longer active.
     */
    method DeactivateDid(did: string, controller: string, now: Timestamp) returns (r: Result<(), string>)
      requires Valid()
      modifies this
      ensures Valid()
      ensures did !in old(entries) ==> r == Failure("DID not found")
      ensures did in old(entries) && old(entries)[did].controller != controller ==>
                r == Failure("Unauthorized: not the controller")
      ensures r.Success? <==> did in old(entries) && old(entries)[did].controller == controller
      ensures r.Failure? ==> entries == old(entries)
      ensures r.Success? ==>
                entries == old(entries)[did := old(entries)[did].(status := Deactivated, updatedAt := now)]
      ensures r.Success? ==> !IsActive(did)
    {
      if did !in entries {
        return Failure("DID not found");
      }
      var e := entries[did];
      if e.controller != controller {
        return Failure("Unauthorized: not the controller");
      }
      entries := entries[did := e.(status := Deactivated, updatedAt := now)];
      return Success(());
    }

    /** `get_did`. */
    function GetDid(did: string): (r: Option<DidRegistryEntry>)
      reads this
      ensures r.Some? <==> did in entries
      ensures r.Some? ==> r.value == entries[did]
    {
      if did in entries then Some(entries[did]) else None
    }

    /** `is_active`: unknown DIDs are not active. */
    predicate IsActive(did: string): (active: bool)
      reads this
      ensures did !in entries ==> !active
      ensures did in entries ==> (active <==> entries[did].status == Active)
    {
      did in entries && entries[did].status == Active
    }

    /** `list_dids_by_controller` (in no particular order). */
    function ListDidsByController(controller: string): (r: set<DidRegistryEntry>)
      reads this
      ensures forall e :: e in r <==> e in entries.Values && e.controller == controller
    {
      set e | e in entries.Values && e.controller == controller
    }
  }
}
