/**
  Key-type dispatch and public-key encodings of identity-core/src/crypto.rs.
  The key generators (schnorrkel, bls12_381 with `OsRng`), base64 and SHA-256 are
  foreign code: a generator's output is the `KeyMaterial` parameter, and the
  encoders are function parameters about which nothing is assumed.
 */
module Crypto {
  import opened Types
  import opened Wrappers
  import opened IdentityErrors

  datatype KeyType = Ed25519 | Secp256k1 | Bls12381G1 | Bls12381G2

  /** `Display` for `KeyType`: the verification-key type names of the DID spec registries. */
  function KeyTypeName(k: KeyType): string {
    match k
    case Ed25519 => "Ed25519VerificationKey2020"
    case Secp256k1 => "EcdsaSecp256k1VerificationKey2019"
    case Bls12381G1 => "Bls12381G1Key2020"
    case Bls12381G2 => "Bls12381G2Key2020"
  }

  lemma KeyTypeNameInjective(a: KeyType, b: KeyType)
    ensures KeyTypeName(a) == KeyTypeName(b) <==> a == b
  {
  }

  datatype CryptoKeyPair = CryptoKeyPair(keyType: KeyType, privateKey: Bytes, publicKey: Bytes)

  /** What one run of a random key generator produced. */
  datatype KeyMaterial = KeyMaterial(privateKey: Bytes, publicKey: Bytes)

  /** `hash_data`: SHA-256 of the bytes (`sha256` stands for the digest). */
  function HashData(data: Bytes, sha256: Bytes -> Bytes): Bytes {
    sha256(data)
  }

  /** `hash_json`: the digest of the value's JSON serialisation. */
  function HashJson<T>(value: T, serialize: T -> Bytes, sha256: Bytes -> Bytes): (h: Bytes)
    ensures h == HashData(serialize(value), sha256)
  {
    sha256(serialize(value))
  }

  /**
    `generate_keypair`: Secp256k1 is refused; the three other types are delegated to
    their generator, whose output `generated` is tagged with the requested type.
   */
  function GenerateKeypair(keyType: KeyType, generated: KeyMaterial): (r: Result<CryptoKeyPair, IdentityError>)
    ensures r.Failure? <==> keyType == Secp256k1
    ensures r.Failure? ==> r.error.CryptoError?
    ensures r.Success? ==> r.value.keyType == keyType
                           && r.value.privateKey == generated.privateKey
                           && r.value.publicKey == generated.publicKey
  {
    match keyType
    case Ed25519 => Success(CryptoKeyPair(Ed25519, generated.privateKey, generated.publicKey))
    case Bls12381G1 => Success(CryptoKeyPair(Bls12381G1, generated.privateKey, generated.publicKey))
    case Bls12381G2 => Success(CryptoKeyPair(Bls12381G2, generated.privateKey, generated.publicKey))
    case Secp256k1 => Failure(CryptoError("Secp256k1 not implemented yet"))
  }

  /** `public_key_to_multibase`: `'z'` followed by the URL-safe base64 of the key, for every key type. */
  function PublicKeyToMultibase(publicKey: Bytes, keyType: KeyType, base64: Bytes -> string): (r: string)
    ensures |r| >= 1 && r[0] == 'z' && r[1..] == base64(publicKey)
  {
    match keyType
    case Ed25519 => "z" + base64(publicKey)
    case Bls12381G1 => "z" + base64(publicKey)
    case Bls12381G2 => "z" + base64(publicKey)
    case Secp256k1 => "z" + base64(publicKey)
  }

  /** The multibase form does not depend on the key type. */
  lemma MultibaseIgnoresKeyType(publicKey: Bytes, a: KeyType, b: KeyType, base64: Bytes -> string)
    ensures PublicKeyToMultibase(publicKey, a, base64) == PublicKeyToMultibase(publicKey, b, base64)
  {
  }

  /** `public_key_to_jwk`: an OKP/Ed25519 key for Ed25519, an EC key without a curve otherwise. */
  function PublicKeyToJwk(publicKey: Bytes, keyType: KeyType, base64: Bytes -> string): (jwk: map<string, Json>)
    ensures "kty" in jwk && "x" in jwk
    ensures jwk["x"] == Str(base64(publicKey))
    ensures keyType == Ed25519 ==> jwk.Keys == {"kty", "crv", "x"}
                                   && jwk["kty"] == Str("OKP") && jwk["crv"] == Str("Ed25519")
    ensures keyType != Ed25519 ==> jwk.Keys == {"kty", "x"} && jwk["kty"] == Str("EC")
  {
    var empty: map<string, Json> := map[];
    match keyType
    case Ed25519 =>
      empty["kty" := Str("OKP")]["crv" := Str("Ed25519")]["x" := Str(base64(publicKey))]
    case _ =>
      empty["kty" := Str("EC")]["x" := Str(base64(publicKey))]
  }

  /** The JWK carries a curve exactly for Ed25519 keys. */
  lemma JwkHasCurveIffEd25519(publicKey: Bytes, keyType: KeyType, base64: Bytes -> string)
    ensures "crv" in PublicKeyToJwk(publicKey, keyType, base64) <==> keyType == Ed25519
  {
  }
}
