/** The verifier's record types, and the carriers of everything that comes from upstream crates. */
module Types {
  import opened Wrappers
  import opened Fields
  import opened Blob

  /** Step IPA rounds, also the step SRS size log2. */
  const STEP_IPA_ROUNDS: nat := 16

  /** Wrap IPA rounds. */
  const WRAP_IPA_ROUNDS: nat := 15

  type StepChals = s: seq<StepField> | |s| == STEP_IPA_ROUNDS witness seq(STEP_IPA_ROUNDS, _ => 0)
  type WrapChals = s: seq<WrapField> | |s| == WRAP_IPA_ROUNDS witness seq(WRAP_IPA_ROUNDS, _ => 0)

  /** Finite curve points by their coordinates; the base field of one curve is the scalar field of the other. */
  datatype PallasPoint = PallasPoint(x: StepField, y: StepField)
  datatype VestaPoint = VestaPoint(x: WrapField, y: WrapField)

  /** A polynomial commitment, one point per chunk. */
  datatype PolyComm<+T> = PolyComm(chunks: seq<T>)

  datatype PlonkMinimal = PlonkMinimal(alpha: StepField, beta: StepField, gamma: StepField, zeta: StepField)

  /** `proofs_verified_mask` is `[mask0, mask1]`. */
  datatype BranchData = BranchData(domainLog2: StepField, mask0: bool, mask1: bool)

  datatype PointEvals = PointEvals(zeta: seq<StepField>, zetaOmega: seq<StepField>)

  type Columns15 = s: seq<PointEvals> | |s| == 15 witness seq(15, _ => PointEvals([], []))
  type Columns6 = s: seq<PointEvals> | |s| == 6 witness seq(6, _ => PointEvals([], []))

  datatype ChunkedAllEvals = ChunkedAllEvals(
    ftEval1: StepField, publicEvals: PointEvals, z: PointEvals,
    w: Columns15, coefficients: Columns15, s: Columns6, index: Columns6)

  predicate EqualChunks(p: PointEvals) {
    |p.zeta| == |p.zetaOmega|
  }

  predicate AllEqualChunks(ps: seq<PointEvals>) {
    forall i | 0 <= i < |ps| :: EqualChunks(ps[i])
  }

  /** Every column has as many chunks at zeta as at zeta times omega. */
  predicate EqualChunkCounts(e: ChunkedAllEvals) {
    && EqualChunks(e.publicEvals) && EqualChunks(e.z)
    && AllEqualChunks(e.w) && AllEqualChunks(e.coefficients) && AllEqualChunks(e.s) && AllEqualChunks(e.index)
  }

  // --------------------------------------------------------------------------
  // Upstream carriers: nothing is known about their values
  // --------------------------------------------------------------------------

  /** The wrap kimchi proof. */
  type WrapProof(==, !new)

  /** The serialized parts of a verifier index this crate does not look into. */
  type VkRest(==, !new)

  type Linearization(==, !new)
  type Alphas(==, !new)
  type CollapsedEvals(==, !new)
  type Group(==, !new)
  type Rng(==, !new)

  type Commitments7 = s: seq<PolyComm<PallasPoint>> | |s| == 7 witness seq(7, _ => PolyComm([]))
  type Commitments15 = s: seq<PolyComm<PallasPoint>> | |s| == 15 witness seq(15, _ => PolyComm([]))

  /** The part of the wrap verifier index that serde carries. */
  datatype VkData = VkData(
    domainSize: Word, sigmaComm: Commitments7, coefficientsComm: Commitments15,
    genericComm: PolyComm<PallasPoint>, psmComm: PolyComm<PallasPoint>,
    completeAddComm: PolyComm<PallasPoint>, mulComm: PolyComm<PallasPoint>,
    emulComm: PolyComm<PallasPoint>, endomulScalarComm: PolyComm<PallasPoint>, rest: VkRest)

  /** The wrap verifier index; the last three fields are `#[serde(skip)]` (as is the SRS). */
  datatype WrapVk = WrapVk(data: VkData, linearization: Linearization, powersOfAlpha: Alphas, endo: WrapField)

  // --------------------------------------------------------------------------
  // One proof
  // --------------------------------------------------------------------------

  /** One proof, ready to verify; a commitment of `None` is the point at infinity. */
  datatype VerifiableProof = VerifiableProof(
    wrapProof: WrapProof,
    rawPlonk: PlonkMinimal,
    rawBulletproofChallenges: StepChals,
    branchData: BranchData,
    spongeDigestBeforeEvaluations: StepField,
    prevEvals: ChunkedAllEvals,
    pEval0Chunks: seq<StepField>,
    oldBulletproofChallenges: seq<StepChals>,
    challengePolynomialCommitment: Option<VestaPoint>,
    messagesForNextStepProofDigest: StepField,
    messagesForNextWrapProofDigest: WrapField,
    stepDomainLog2: nat)

  /** kimchi's `ProofEvaluations` with every optional gate and lookup column absent. */
  datatype ProofEvaluations = ProofEvaluations(
    publicEvals: PointEvals, w: Columns15, z: PointEvals, s: Columns6, coefficients: Columns15,
    genericSelector: PointEvals, poseidonSelector: PointEvals, completeAddSelector: PointEvals,
    mulSelector: PointEvals, emulSelector: PointEvals, endomulScalarSelector: PointEvals)
}
