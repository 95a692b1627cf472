/**
 Everything the crate calls but does not define, as one record of uninterpreted functions.
 Every theorem holds for every such record; what a theorem assumes about it is a named predicate.
 */
module Upstream {
  import opened Wrappers
  import opened Bytes
  import opened Fields
  import opened Blob
  import opened Types

  type Digest = s: seq<Byte> | |s| == 32 witness seq(32, _ => 0)

  /** The arguments of kimchi's `oracles_from_digest`. */
  datatype OracleQuery = OracleQuery(
    domainLog2: nat, maxPolySize: nat, zkRows: nat, gateEndo: StepField,
    linearization: Linearization, powersOfAlpha: Alphas, digest: StepField,
    alpha: StepField, beta: StepField, gamma: StepField, zeta: StepField,
    alphaChal: StepField, zetaChal: StepField,
    prevChallenges: seq<StepChals>, evals: ProofEvaluations, ftEval1: StepField)

  datatype DigestOracles = DigestOracles(
    v: StepField, u: StepField, vChal: StepField, allAlphas: Alphas,
    publicEvals: (seq<StepField>, seq<StepField>), chunkPowers: (StepField, StepField),
    polys: seq<seq<seq<StepField>>>, zeta1: StepField, ftEval0: StepField)

  /** What kimchi's batch check reads of a verifier index and its SRS. */
  datatype KimchiKey = KimchiKey(
    vk: WrapVk, g: seq<Affine>, h: Affine, lagrangeBasis: seq<PolyComm<Affine>>)

  datatype Context = Context(proof: WrapProof, publicInput: seq<WrapField>)

  datatype Primitives = Primitives(
    // endomorphism coefficients and `ScalarChallenge::to_field`
    stepEndo: StepField,
    wrapEndo: WrapField,
    stepGateEndo: StepField,
    wrapGateEndo: WrapField,
    stepToField: (StepField, StepField) -> StepField,
    wrapToField: (WrapField, WrapField) -> WrapField,
    // expr_linearization and the evaluation domain of size 2^k
    stepLinearization: (Linearization, Alphas),
    wrapLinearization: (Linearization, Alphas),
    domainGenerator: nat -> StepField,
    // stage 1
    oracles: OracleQuery -> Option<DigestOracles>,
    collapse: (ProofEvaluations, (StepField, StepField)) -> CollapsedEvals,
    permScalars: (CollapsedEvals, StepField, StepField, Alphas, StepField) -> StepField,
    combinedInnerProduct: (StepField, StepField, seq<seq<seq<StepField>>>) -> StepField,
    // the Vesta group, for the multi-scalar multiplication
    groupZero: Group,
    groupAdd: (Group, Group) -> Group,
    groupScale: (StepField, Affine) -> Group,
    intoAffine: Group -> Option<VestaPoint>,
    // the wrap SRS and the batched opening check
    lagrangeBasis: (seq<Affine>, nat) -> seq<PolyComm<Affine>>,
    batchVerify: (KimchiKey, seq<Context>, Rng) -> bool,
    // hashes
    blake2s: seq<Byte> -> Digest,
    chachaFromSeed: Digest -> Rng,
    poseidonStep: seq<StepField> -> StepField,
    poseidonWrap: seq<WrapField> -> WrapField,
    // postcard
    encodeVk: VkData -> seq<Byte>,
    decodeVk: seq<Byte> -> Option<WrapVk>,
    encodeProof: WrapProof -> seq<Byte>)

  /** postcard decodes this key from its own bytes; the skipped fields come back as anything at all. */
  predicate VkRoundTrips(up: Primitives, vk: VkData) {
    var decoded := up.decodeVk(up.encodeVk(vk));
    decoded.Some? && decoded.value.data == vk
  }

  /** postcard gives different proofs different bytes. */
  ghost predicate ProofCodec(up: Primitives) {
    forall p: WrapProof, p': WrapProof :: up.encodeProof(p) == up.encodeProof(p') ==> p == p'
  }
}
