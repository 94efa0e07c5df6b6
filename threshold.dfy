/**
  The threshold scheme bookkeeping of attestors/src/threshold.rs. Scalars are integers modulo
  the BLS12-381 scalar field order; group elements never appear: every curve operation the code
  performs is reached through its byte encoding, which `Primitives` supplies as uninterpreted
  functions. The combination and verification steps are the placeholders the code contains.
 */
module Threshold {
  import opened Types
  import opened Wrappers
  import opened AttestorErrors
  import opened Strings

  /** The order `r` of the BLS12-381 scalar field (the prime modulus of `Scalar`). */
  const ScalarOrder: int := 0x73eda753299d7d483339d80809a1d80553bda402fffe5bfeffffffff00000001

  /** `usize` on a 64-bit target; party ids are converted with `as u64` without loss. */
  const UsizeLimit: int := 0x1_0000_0000_0000_0000
  type Usize = x: int | 0 <= x < UsizeLimit

  /** A field element. */
  type Scalar = x: int | 0 <= x < ScalarOrder

  datatype ThresholdScheme = ThresholdScheme(threshold: Usize, totalParties: Usize, schemeId: string)

  datatype KeyShare = KeyShare(partyId: Usize, privateShare: Bytes, publicShare: Bytes, schemeId: string)

  datatype ThresholdPublicKey = ThresholdPublicKey(
    publicKey: Bytes, schemeId: string, threshold: Usize, totalParties: Usize)

  datatype PartialSignature = PartialSignature(partyId: Usize, signature: Bytes, schemeId: string)

  datatype ThresholdSignature = ThresholdSignature(signature: Bytes, schemeId: string, signers: seq<Usize>)

  /**
    The curve primitives, uninterpreted:
    `scalarBytes(s)` is `s.to_bytes()`; `g1Bytes(s)` encodes `G1::generator() * s`;
    `signBytes(message, schemeId, privateShare)` encodes `hash_to_g2(message) * from_bytes(privateShare)`
    (the hash mixes in the scheme id); `inverse(a)` is the field inverse of a non-zero `a`.
   */
  datatype Primitives = Primitives(
    scalarBytes: Scalar -> Bytes,
    g1Bytes: Scalar -> Bytes,
    signBytes: (Bytes, string, Bytes) -> Bytes,
    inverse: Scalar -> Scalar)

  /** `Scalar::to_bytes` yields a 32-byte array for every scalar. */
  predicate WellFormed(prim: Primitives) {
    forall s: Scalar :: |prim.scalarBytes(s)| == 32
  }

  /** `ThresholdScheme::new`, with `uid` the drawn UUID used as scheme id. */
  function New(threshold: Usize, totalParties: Usize, uid: string): (r: Result<ThresholdScheme, AttestorError>)
    ensures r.Failure? <==> threshold == 0 || threshold > totalParties
    ensures r.Failure? ==> r.error.ThresholdNotMet?
    ensures r.Success? ==> r.value == ThresholdScheme(threshold, totalParties, uid)
  {
    if threshold == 0 || threshold > totalParties then
      Failure(ThresholdNotMet("Threshold must be between 1 and total_parties"))
    else
      Success(ThresholdScheme(threshold, totalParties, uid))
  }

  /** How many coefficients `generate_key_shares` draws: the master secret plus `threshold - 1`. */
  function CoefficientCount(scheme: ThresholdScheme): nat {
    if scheme.threshold == 0 then 1 else scheme.threshold
  }

  /** `x^k` over the integers. */
  function Pow(x: int, k: nat): int {
    if k == 0 then 1 else x * Pow(x, k - 1)
  }

  /** `Σ_{j < k} coeffs[j] · x^j` over the integers. */
  function PolySum(coeffs: seq<int>, x: int, k: nat): int
    requires k <= |coeffs|
  {
    if k == 0 then 0 else PolySum(coeffs, x, k - 1) + coeffs[k - 1] * Pow(x, k - 1)
  }

  /** The polynomial with the given coefficients evaluated at `x` in the scalar field. */
  function PolyEval(coeffs: seq<int>, x: int): Scalar {
    PolySum(coeffs, x, |coeffs|) % ScalarOrder
  }

  /** `Scalar::from(n as u64)`. */
  function ToScalar(n: Usize): Scalar {
    n % ScalarOrder
  }

  /**
    `generate_key_shares`, with `draws` the `OsRng` scalars in the order they are drawn
    (the master secret first, then the other coefficients). Party `i` (1-based) receives the
    polynomial evaluated at `x = i`, computed by the code's accumulating loop.
   */
  method GenerateKeyShares(scheme: ThresholdScheme, prim: Primitives, draws: seq<Scalar>)
    returns (shares: seq<KeyShare>, publicKey: ThresholdPublicKey)
    requires |draws| == CoefficientCount(scheme)
    ensures |shares| == scheme.totalParties
    ensures forall i :: 0 <= i < |shares| ==>
              && shares[i].partyId == i + 1
              && shares[i].schemeId == scheme.schemeId
              && shares[i].privateShare == prim.scalarBytes(PolyEval(draws, ToScalar(i + 1)))
              && shares[i].publicShare == prim.g1Bytes(PolyEval(draws, ToScalar(i + 1)))
    ensures publicKey == ThresholdPublicKey(prim.g1Bytes(draws[0]), scheme.schemeId,
                                            scheme.threshold, scheme.totalParties)
  {
    var masterSecret := draws[0];
    var coefficients: seq<Scalar> := [masterSecret];
    var k := 1;
    while k < scheme.threshold
      invariant 1 <= k <= CoefficientCount(scheme)
      invariant coefficients == draws[..k]
    {
      coefficients := coefficients + [draws[k]];
      k := k + 1;
    }
    assert coefficients == draws;

    shares := [];
    var partyId := 1;
    while partyId <= scheme.totalParties
      invariant 1 <= partyId <= scheme.totalParties + 1
      invariant |shares| == partyId - 1
      invariant forall i :: 0 <= i < |shares| ==>
                  && shares[i].partyId == i + 1
                  && shares[i].schemeId == scheme.schemeId
                  && shares[i].privateShare == prim.scalarBytes(PolyEval(draws, ToScalar(i + 1)))
                  && shares[i].publicShare == prim.g1Bytes(PolyEval(draws, ToScalar(i + 1)))
    {
      var x := ToScalar(partyId);
      var share := EvaluateAt(coefficients, x);
      shares := shares + [KeyShare(partyId, prim.scalarBytes(share), prim.g1Bytes(share), scheme.schemeId)];
      partyId := partyId + 1;
    }
    publicKey := ThresholdPublicKey(prim.g1Bytes(masterSecret), scheme.schemeId,
                                    scheme.threshold, scheme.totalParties);
  }

  /** The inner loop of `generate_key_shares`: Horner-free accumulation of `coeff · x_power`. */
  method EvaluateAt(coefficients: seq<Scalar>, x: Scalar) returns (share: Scalar)
    requires |coefficients| >= 1
    ensures share == PolyEval(coefficients, x)
  {
    share := coefficients[0];
    var xPower: Scalar := x;
    var k := 1;
    while k < |coefficients|
      invariant 1 <= k <= |coefficients|
      invariant share == PolySum(coefficients, x, k) % ScalarOrder
      invariant xPower == Pow(x, k) % ScalarOrder
    {
      ModAddMul(PolySum(coefficients, x, k), Pow(x, k), coefficients[k], ScalarOrder);
      share := (share + coefficients[k] * xPower) % ScalarOrder;
      ModAddMul(0, Pow(x, k), x, ScalarOrder);
      xPower := (xPower * x) % ScalarOrder;
      k := k + 1;
    }
  }

  /** Reducing the operands first does not change a sum of products modulo `p`. */
  lemma ModAddMul(a: int, b: int, c: int, p: int)
    requires p > 0
    ensures (a % p + c * (b % p)) % p == (a + c * b) % p
  {
    var qa, ra := a / p, a % p;
    var qb, rb := b / p, b % p;
    assert a == qa * p + ra;
    assert b == qb * p + rb;
    assert c * b == (c * qb) * p + c * rb;
    assert a + c * b == (qa + c * qb) * p + (ra + c * rb);
    ModShift(ra + c * rb, qa + c * qb, p);
  }

  /** Adding a multiple of `p` does not change the remainder. */
  lemma ModShift(t: int, m: int, p: int)
    requires p > 0
    ensures (m * p + t) % p == t % p
  {
    var q, r := t / p, t % p;
    assert t == q * p + r && 0 <= r < p;
    assert m * p + t == (m + q) * p + r;
    ModUnique(m * p + t, m + q, r, p);
  }

  /** The remainder is the unique `r` in `[0, p)` with `n == q·p + r`. */
  lemma ModUnique(n: int, q: int, r: int, p: int)
    requires p > 0 && 0 <= r < p && n == q * p + r
    ensures n % p == r
  {
    var q0, r0 := n / p, n % p;
    assert n == q0 * p + r0 && 0 <= r0 < p;
    assert (q - q0) * p == r0 - r;
    MulMagnitude(q - q0, p);
  }

  /** A non-zero multiple of `p` is at least `p` away from zero. */
  lemma MulMagnitude(d: int, p: int)
    requires p > 0
    ensures d != 0 ==> d * p >= p || d * p <= -p
  {
    if d > 0 {
      MulAtLeast(d, p);
    } else if d < 0 {
      MulAtLeast(-d, p);
      assert d * p == -((-d) * p);
    }
  }

  lemma {:induction false} MulAtLeast(d: int, p: int)
    requires d >= 1 && p > 0
    ensures d * p >= p
    decreases d
  {
    if d > 1 {
      MulAtLeast(d - 1, p);
      assert d * p == (d - 1) * p + p;
    }
  }

  /** Shamir's invariant: the polynomial at 0 is the master secret, the first coefficient. */
  lemma {:induction false} PolyAtZeroIsSecret(coeffs: seq<Scalar>)
    requires |coeffs| >= 1
    ensures PolyEval(coeffs, 0) == coeffs[0]
  {
    PolySumAtZero(coeffs, |coeffs|);
  }

  lemma {:induction false} PolySumAtZero(coeffs: seq<int>, k: nat)
    requires 1 <= k <= |coeffs|
    ensures PolySum(coeffs, 0, k) == coeffs[0]
  {
    if k > 1 {
      PolySumAtZero(coeffs, k - 1);
      assert Pow(0, k - 1) == 0;
    }
  }

  /** With a single coefficient (threshold 1) every party's share is the master secret itself. */
  lemma ThresholdOneSharesSecret(secret: Scalar, x: Scalar)
    ensures PolyEval([secret], x) == secret
  {
    assert PolySum([secret], x, 1) == secret * Pow(x, 0) == secret;
  }

  /** `partial_sign`: the share must belong to this scheme and hold exactly 32 bytes. */
  function PartialSign(scheme: ThresholdScheme, prim: Primitives, message: Bytes, share: KeyShare)
    : (r: Result<PartialSignature, AttestorError>)
    ensures r.Failure? <==> share.schemeId != scheme.schemeId || |share.privateShare| != 32
    ensures share.schemeId != scheme.schemeId ==> r == Failure(InvalidSignature("Key share scheme ID mismatch"))
    ensures share.schemeId == scheme.schemeId && |share.privateShare| != 32 ==>
              r == Failure(InvalidSignature("Invalid private share format"))
    ensures r.Success? ==>
              r.value == PartialSignature(share.partyId, prim.signBytes(message, scheme.schemeId, share.privateShare),
                                          scheme.schemeId)
  {
    if share.schemeId != scheme.schemeId then
      Failure(InvalidSignature("Key share scheme ID mismatch"))
    else if |share.privateShare| != 32 then
      Failure(InvalidSignature("Invalid private share format"))
    else
      Success(PartialSignature(share.partyId, prim.signBytes(message, scheme.schemeId, share.privateShare),
                               scheme.schemeId))
  }

  /** The party ids of a list of partial signatures, in order (`iter().map(|s| s.party_id)`). */
  function PartyIds(sigs: seq<PartialSignature>): (ids: seq<Usize>)
    ensures |ids| == |sigs|
    ensures forall i :: 0 <= i < |sigs| ==> ids[i] == sigs[i].partyId
  {
    seq(|sigs|, i requires 0 <= i < |sigs| => sigs[i].partyId)
  }

  /**
    `combine_signatures`: too few inputs, then a foreign input, then no input at all are
    refused, in this order; otherwise the first `threshold` inputs are the signers and the
    first input's bytes stand for the combined signature.
   */
  function CombineSignatures(scheme: ThresholdScheme, sigs: seq<PartialSignature>)
    : (r: Result<ThresholdSignature, AttestorError>)
    ensures |sigs| < scheme.threshold ==>
              r == Failure(ThresholdNotMet("Need at least " + NatToString(scheme.threshold)
                                           + " signatures, got " + NatToString(|sigs|)))
    ensures |sigs| >= scheme.threshold && (exists i :: 0 <= i < |sigs| && sigs[i].schemeId != scheme.schemeId) ==>
              r == Failure(InvalidSignature("Signature scheme ID mismatch"))
    ensures |sigs| == 0 && scheme.threshold == 0 ==> r == Failure(InvalidSignature("No signatures to combine"))
    ensures r.Success? <==>
              |sigs| >= scheme.threshold && |sigs| > 0
              && forall i :: 0 <= i < |sigs| ==> sigs[i].schemeId == scheme.schemeId
    ensures r.Success? ==>
              && r.value.signature == sigs[0].signature
              && r.value.schemeId == scheme.schemeId
              && r.value.signers == PartyIds(sigs[..scheme.threshold])
              && |r.value.signers| == scheme.threshold
  {
    if |sigs| < scheme.threshold then
      Failure(ThresholdNotMet("Need at least " + NatToString(scheme.threshold)
                              + " signatures, got " + NatToString(|sigs|)))
    else if exists i :: 0 <= i < |sigs| && sigs[i].schemeId != scheme.schemeId then
      Failure(InvalidSignature("Signature scheme ID mismatch"))
    else if |sigs| == 0 then
      Failure(InvalidSignature("No signatures to combine"))
    else
      Success(ThresholdSignature(sigs[0].signature, scheme.schemeId, PartyIds(sigs[..scheme.threshold])))
  }

  /** `verify_signature`: scheme-id checks raise errors; the remaining checks are shallow. */
  function VerifySignature(scheme: ThresholdScheme, message: Bytes, sig: ThresholdSignature,
                           publicKey: ThresholdPublicKey): (r: Result<bool, AttestorError>)
    ensures r.Failure? <==> sig.schemeId != scheme.schemeId || publicKey.schemeId != scheme.schemeId
    ensures r.Failure? ==> r.error == InvalidSignature("Scheme ID mismatch")
    ensures r.Success? ==>
              (r.value <==> |sig.signature| > 0 && |publicKey.publicKey| > 0 && |sig.signers| >= scheme.threshold)
  {
    if sig.schemeId != scheme.schemeId || publicKey.schemeId != scheme.schemeId then
      Failure(InvalidSignature("Scheme ID mismatch"))
    else if |sig.signature| == 0 || |publicKey.publicKey| == 0 then
      Success(false)
    else if |sig.signers| < scheme.threshold then
      Success(false)
    else
      Success(true)
  }

  /**
    What the placeholder pair promises: a combined signature whose first partial signature was
    non-empty verifies under any non-empty public key of the same scheme, whatever the message.
   */
  lemma CombinedVerifies(scheme: ThresholdScheme, sigs: seq<PartialSignature>, message: Bytes,
                         publicKey: ThresholdPublicKey)
    requires CombineSignatures(scheme, sigs).Success?
    requires |sigs[0].signature| > 0
    requires publicKey.schemeId == scheme.schemeId && |publicKey.publicKey| > 0
    ensures VerifySignature(scheme, message, CombineSignatures(scheme, sigs).value, publicKey) == Success(true)
  {
  }

  /** `coeff *= x_j * (x_j - x_i).invert().unwrap()` for one signer `j`. */
  function LagrangeFactor(prim: Primitives, partyId: Usize, signerId: Usize): Scalar {
    (ToScalar(signerId) * prim.inverse((ToScalar(signerId) - ToScalar(partyId)) % ScalarOrder)) % ScalarOrder
  }

  /** The value `lagrange_coefficient` accumulates over `signers`, in order. */
  function LagrangeProduct(prim: Primitives, partyId: Usize, signers: seq<Usize>): Scalar
    decreases |signers|
  {
    if |signers| == 0 then 1
    else
      var init := LagrangeProduct(prim, partyId, signers[..|signers| - 1]);
      var j := signers[|signers| - 1];
      if j != partyId then (init * LagrangeFactor(prim, partyId, j)) % ScalarOrder else init
  }

  /**
    `lagrange_coefficient`: the product over the signers other than `partyId` of
    `x_j · (x_j − x_i)⁻¹`; the `unwrap` never panics (see `InvertedDifferenceNonZero`).
   */
  method LagrangeCoefficient(prim: Primitives, partyId: Usize, signers: seq<Usize>) returns (coeff: Scalar)
    ensures coeff == LagrangeProduct(prim, partyId, signers)
  {
    coeff := 1;
    var xi := ToScalar(partyId);
    var k := 0;
    while k < |signers|
      invariant 0 <= k <= |signers|
      invariant coeff == LagrangeProduct(prim, partyId, signers[..k])
    {
      var signerId := signers[k];
      assert signers[..k + 1][..k] == signers[..k];
      if signerId != partyId {
        var xj := ToScalar(signerId);
        InvertedDifferenceNonZero(partyId, signerId);
        coeff := (coeff * ((xj * prim.inverse((xj - xi) % ScalarOrder)) % ScalarOrder)) % ScalarOrder;
      }
      k := k + 1;
    }
    assert signers[..|signers|] == signers;
  }

  /** Two different `usize` party ids are different field elements, so their difference is invertible. */
  lemma InvertedDifferenceNonZero(partyId: Usize, signerId: Usize)
    requires partyId != signerId
    ensures (ToScalar(signerId) - ToScalar(partyId)) % ScalarOrder != 0
  {
    assert ToScalar(signerId) == signerId && ToScalar(partyId) == partyId;
  }

  /** Entries equal to the party itself are skipped: such a signer list yields one. */
  lemma {:induction false} LagrangeOfSelfOnly(prim: Primitives, partyId: Usize, signers: seq<Usize>)
    requires forall k :: 0 <= k < |signers| ==> signers[k] == partyId
    ensures LagrangeProduct(prim, partyId, signers) == 1
    decreases |signers|
  {
    if |signers| > 0 {
      LagrangeOfSelfOnly(prim, partyId, signers[..|signers| - 1]);
    }
  }
}
