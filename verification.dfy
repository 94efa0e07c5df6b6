/** The hash comparison of substrate-node/src/verification.rs. */
module Verification {
  import opened Types

  /** `verify_credential_hash`: slice equality, i.e. same length and the same byte at every index. */
  predicate VerifyCredentialHash(storedHash: Bytes, providedHash: Bytes) {
    storedHash == providedHash
  }

  /** Slice equality compared byte by byte. */
  lemma VerifyCredentialHashElementwise(storedHash: Bytes, providedHash: Bytes)
    ensures VerifyCredentialHash(storedHash, providedHash) <==>
              |storedHash| == |providedHash| && forall i :: 0 <= i < |storedHash| ==> storedHash[i] == providedHash[i]
  {
    if |storedHash| == |providedHash| && forall i :: 0 <= i < |storedHash| ==> storedHash[i] == providedHash[i] {
      assert storedHash == providedHash;
    }
  }

  /** Every hash matches itself. */
  lemma VerifyCredentialHashReflexive(h: Bytes)
    ensures VerifyCredentialHash(h, h)
  {
  }

  /** The order of the arguments does not matter. */
  lemma VerifyCredentialHashSymmetric(a: Bytes, b: Bytes)
    ensures VerifyCredentialHash(a, b) <==> VerifyCredentialHash(b, a)
  {
  }

  /** Hashes of different lengths never match. */
  lemma VerifyCredentialHashLength(a: Bytes, b: Bytes)
    requires |a| != |b|
    ensures !VerifyCredentialHash(a, b)
  {
  }
}
