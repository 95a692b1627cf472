/**
 The skeleton as OCaml prints it: parsing undoes printing, and every parsed proof prints to a tree
 that parses back to it exactly when its challenges have their 128 bits.
 */
module Printer {
  import opened Wrappers
  import opened Bytes
  import opened Fields
  import opened Types
  import opened Numbers
  import opened Wire
  import opened Skeleton

  // --------------------------------------------------------------------------
  // Printing
  // --------------------------------------------------------------------------

  function HexJson(x: nat): Json {
    Str(HexOf(x))
  }

  function StepHexJson(x: StepField): Json {
    HexJson(x)
  }

  function RawChallengeJson(x: nat): Json {
    Arr(LimbsJson(x, 2))
  }

  function ScalarChallengeJson(x: nat): Json {
    Obj(map["inner" := RawChallengeJson(x)])
  }

  function PrechallengeJson(x: nat): Json {
    Obj(map["prechallenge" := ScalarChallengeJson(x)])
  }

  function BulletproofsJson(xs: seq<nat>): Json {
    Arr(Map(PrechallengeJson, xs))
  }

  function StepBulletproofsJson(xs: StepChals): Json {
    BulletproofsJson(xs)
  }

  function WrapBulletproofsJson(xs: WrapChals): Json {
    BulletproofsJson(xs)
  }

  function VestaPointJson(p: VestaPoint): Json {
    Arr([HexJson(p.x), HexJson(p.y)])
  }

  function PallasPointJson(p: PallasPoint): Json {
    Arr([HexJson(p.x), HexJson(p.y)])
  }

  function ColumnJson(p: PointEvals): Json {
    Arr([Arr(Map(StepHexJson, p.zeta)), Arr(Map(StepHexJson, p.zetaOmega))])
  }

  function ColumnsJson(ps: seq<PointEvals>): Json {
    Arr(Map(ColumnJson, ps))
  }

  function InnerEvalsJson(e: ChunkedAllEvals): Json {
    Obj(map[
      "w" := ColumnsJson(e.w), "coefficients" := ColumnsJson(e.coefficients),
      "z" := ColumnJson(e.z), "s" := ColumnsJson(e.s),
      "generic_selector" := ColumnJson(e.index[0]),
      "poseidon_selector" := ColumnJson(e.index[1]),
      "complete_add_selector" := ColumnJson(e.index[2]),
      "mul_selector" := ColumnJson(e.index[3]),
      "emul_selector" := ColumnJson(e.index[4]),
      "endomul_scalar_selector" := ColumnJson(e.index[5])])
  }

  function PublicEvalsJson(p: PointEvals): Json
    requires |p.zeta| == |p.zetaOmega| == 1
  {
    Arr([HexJson(p.zeta[0]), HexJson(p.zetaOmega[0])])
  }

  function EvalsJson(e: ChunkedAllEvals): Json
    requires |e.publicEvals.zeta| == |e.publicEvals.zetaOmega| == 1
  {
    Obj(map["public_input" := PublicEvalsJson(e.publicEvals), "evals" := InnerEvalsJson(e)])
  }

  function AllEvalsJson(e: ChunkedAllEvals): Json
    requires |e.publicEvals.zeta| == |e.publicEvals.zetaOmega| == 1
  {
    Obj(map["evals" := EvalsJson(e), "ft_eval1" := HexJson(e.ftEval1)])
  }

  function PlonkJson(p: PlonkMinimal): Json {
    Obj(map[
      "alpha" := ScalarChallengeJson(p.alpha), "beta" := RawChallengeJson(p.beta),
      "gamma" := RawChallengeJson(p.gamma), "zeta" := ScalarChallengeJson(p.zeta)])
  }

  function MaskTag(m0: bool, m1: bool): string {
    if m0 then "N2" else if m1 then "N1" else "N0"
  }

  function BranchDataJson(bd: BranchData): Json
    requires bd.domainLog2 < 256
  {
    Obj(map[
      "proofs_verified" := Arr([Str(MaskTag(bd.mask0, bd.mask1))]),
      "domain_log2" := Str([bd.domainLog2 as char])])
  }

  function DeferredJson(plonk: PlonkMinimal, chals: StepChals, bd: BranchData): Json
    requires bd.domainLog2 < 256
  {
    Obj(map[
      "plonk" := PlonkJson(plonk), "bulletproof_challenges" := BulletproofsJson(chals),
      "branch_data" := BranchDataJson(bd)])
  }

  function MessagesForWrapJson(p: OcamlProof): Json {
    Obj(map[
      "challenge_polynomial_commitment" := VestaPointJson(p.challengePolynomialCommitment),
      "old_bulletproof_challenges" := Arr(Map(WrapBulletproofsJson, p.prevWrapChalsRaw))])
  }

  function MessagesForStepJson(p: OcamlProof): Json {
    Obj(map[
      "challenge_polynomial_commitments" := Arr(Map(PallasPointJson, p.prevStepSgs)),
      "old_bulletproof_challenges" := Arr(Map(StepBulletproofsJson, p.prevStepChalsRaw))])
  }

  function ProofStateJson(p: OcamlProof): Json
    requires WellShaped(p)
  {
    Obj(map[
      "deferred_values" := DeferredJson(p.rawPlonk, p.rawBulletproofChallenges, p.branchData),
      "sponge_digest_before_evaluations" := Arr(LimbsJson(p.spongeDigestBeforeEvaluations, 4)),
      "messages_for_next_wrap_proof" := MessagesForWrapJson(p)])
  }

  function StatementJson(p: OcamlProof): Json
    requires WellShaped(p)
  {
    Obj(map["proof_state" := ProofStateJson(p), "messages_for_next_step_proof" := MessagesForStepJson(p)])
  }

  /** The skeleton of a proof. */
  function Print(p: OcamlProof): Json
    requires WellShaped(p)
  {
    Obj(map["statement" := StatementJson(p), "prev_evals" := AllEvalsJson(p.prevEvals)])
  }

  // --------------------------------------------------------------------------
  // Round trips
  // --------------------------------------------------------------------------

  predicate Below128(xs: seq<nat>) {
    forall i | 0 <= i < |xs| :: xs[i] < U128
  }

  /** The printable proofs: every challenge fits its two limbs. */
  predicate WellFormed(p: OcamlProof) {
    && WellShaped(p)
    && Below128([p.rawPlonk.alpha, p.rawPlonk.beta, p.rawPlonk.gamma, p.rawPlonk.zeta])
    && Below128(p.rawBulletproofChallenges)
    && (forall i | 0 <= i < |p.prevStepChalsRaw| :: Below128(p.prevStepChalsRaw[i]))
    && (forall i | 0 <= i < |p.prevWrapChalsRaw| :: Below128(p.prevWrapChalsRaw[i]))
  }

  lemma {:induction false} HexPrints(m: Modulus, x: nat)
    requires x < m <= U256
    ensures BeHex(m, HexJson(x)) == Ok(x)
  {
    hide FieldOfHex, HexOf;
    HexRoundTrip(m, x);
  }

  lemma {:induction false} ChallengePrints(m: Modulus, x: nat)
    requires x < m <= U256 && x < U128
    ensures Challenge(m, RawChallengeJson(x)) == Ok(x)
    ensures Challenge(m, ScalarChallengeJson(x)) == Ok(x)
    ensures Prechallenge(m, PrechallengeJson(x)) == Ok(x)
  {
    hide FieldOfLimbs, LimbsJson, Pow2;
    assert Pow2(64 * 2) == U128 by { Pow2Of64(); Pow2Add(64, 64); }
    LimbsRoundTrip(m, x, 2);
  }

  lemma {:induction false} BulletproofsPrint(m: Modulus, n: nat, xs: seq<nat>)
    requires m <= U256 && |xs| == n && Below128(xs) && forall i | 0 <= i < n :: xs[i] < m
    ensures BulletproofsOf(m, n, BulletproofsJson(xs)) == Ok(xs)
  {
    hide Prechallenge, PrechallengeJson;
    var a := Map(PrechallengeJson, xs);
    forall i | 0 <= i < n
      ensures Prechallenge(m, a[i]) == Ok(xs[i])
    {
      ChallengePrints(m, xs[i]);
    }
    CollectOk(v => Prechallenge(m, v), a, xs);
  }

  lemma {:induction false} PointsPrint(p: VestaPoint, q: PallasPoint)
    ensures ParseVestaPoint(VestaPointJson(p)) == Ok(p)
    ensures ParsePallasPoint(PallasPointJson(q)) == Ok(q)
  {
    hide BeHex, HexJson;
    HexPrints(Q, p.x);
    HexPrints(Q, p.y);
    HexPrints(P, q.x);
    HexPrints(P, q.y);
  }

  lemma {:induction false} HexListPrints(xs: seq<StepField>)
    ensures Collect(StepHex, Map(StepHexJson, xs)) == Ok(xs)
  {
    hide BeHex, HexJson;
    var a := Map(StepHexJson, xs);
    forall i | 0 <= i < |xs|
      ensures StepHex(a[i]) == Ok(xs[i])
    {
      HexPrints(P, xs[i]);
    }
    CollectOk(StepHex, a, xs);
  }

  lemma {:induction false} ColumnPrints(p: PointEvals)
    requires EqualChunks(p)
    ensures PointEvalChunked(ColumnJson(p)) == Ok(p)
  {
    hide StepHex, StepHexJson;
    HexListPrints(p.zeta);
    HexListPrints(p.zetaOmega);
  }

  lemma {:induction false} ColumnsPrint(n: nat, ps: seq<PointEvals>)
    requires |ps| == n && AllEqualChunks(ps)
    ensures FixedChunked(n, ColumnsJson(ps)) == Ok(ps)
  {
    hide PointEvalChunked, ColumnJson;
    var a := Map(ColumnJson, ps);
    forall i | 0 <= i < n
      ensures PointEvalChunked(a[i]) == Ok(ps[i])
    {
      ColumnPrints(ps[i]);
    }
    CollectOk(PointEvalChunked, a, ps);
  }

  lemma {:induction false} PublicEvalsPrint(p: PointEvals)
    requires |p.zeta| == |p.zetaOmega| == 1
    ensures PointEvalFlat(PublicEvalsJson(p)) == Ok(p)
  {
    hide BeHex, HexJson;
    HexPrints(P, p.zeta[0]);
    HexPrints(P, p.zetaOmega[0]);
    assert p == PointEvals([p.zeta[0]], [p.zetaOmega[0]]);
  }

  lemma {:induction false} InnerKeys(e: ChunkedAllEvals)
    ensures var j := InnerEvalsJson(e);
            && Get(j, "z") == Ok(ColumnJson(e.z)) && Get(j, "w") == Ok(ColumnsJson(e.w))
            && Get(j, "coefficients") == Ok(ColumnsJson(e.coefficients)) && Get(j, "s") == Ok(ColumnsJson(e.s))
  {
  }

  lemma {:induction false} SelectorKeys(e: ChunkedAllEvals)
    ensures var j := InnerEvalsJson(e);
            && Get(j, "generic_selector") == Ok(ColumnJson(e.index[0]))
            && Get(j, "poseidon_selector") == Ok(ColumnJson(e.index[1]))
            && Get(j, "complete_add_selector") == Ok(ColumnJson(e.index[2]))
            && Get(j, "mul_selector") == Ok(ColumnJson(e.index[3]))
            && Get(j, "emul_selector") == Ok(ColumnJson(e.index[4]))
            && Get(j, "endomul_scalar_selector") == Ok(ColumnJson(e.index[5]))
  {
  }

  lemma {:induction false} IndexPrints(e: ChunkedAllEvals)
    requires AllEqualChunks(e.index)
    ensures ParseIndex(InnerEvalsJson(e)) == Ok(e.index)
  {
    hide InnerEvalsJson, Get, PointEvalChunked, ColumnJson;
    SelectorKeys(e);
    var j := InnerEvalsJson(e);
    forall i | 0 <= i < 6
      ensures ColumnAt(j, SELECTOR_KEYS[i]) == Ok(e.index[i])
    {
      ColumnPrints(e.index[i]);
    }
    CollectOk(key => ColumnAt(j, key), SELECTOR_KEYS, e.index);
  }

  lemma {:induction false} ColumnsAtPrint(e: ChunkedAllEvals)
    requires EqualChunkCounts(e)
    ensures var j := InnerEvalsJson(e);
            && ColumnAt(j, "z") == Ok(e.z) && ColumnsAt(j, "w", 15) == Ok(e.w)
            && ColumnsAt(j, "coefficients", 15) == Ok(e.coefficients) && ColumnsAt(j, "s", 6) == Ok(e.s)
  {
    hide InnerEvalsJson, Get, PointEvalChunked, FixedChunked, ColumnJson, ColumnsJson;
    InnerKeys(e);
    ColumnPrints(e.z);
    ColumnsPrint(15, e.w);
    ColumnsPrint(15, e.coefficients);
    ColumnsPrint(6, e.s);
  }

  lemma {:induction false} AllEvalsPrint(e: ChunkedAllEvals)
    requires EqualChunkCounts(e) && |e.publicEvals.zeta| == 1
    ensures ParseAllEvals(AllEvalsJson(e)) == Ok(e)
  {
    hide InnerEvalsJson, PublicEvalsJson, HexJson, BeHex, PointEvalFlat, ColumnAt, ColumnsAt, ParseIndex;
    HexPrints(P, e.ftEval1);
    PublicEvalsPrint(e.publicEvals);
    ColumnsAtPrint(e);
    IndexPrints(e);
  }

  lemma {:induction false} PlonkPrints(p: PlonkMinimal)
    requires p.alpha < U128 && p.beta < U128 && p.gamma < U128 && p.zeta < U128
    ensures ParsePlonk(PlonkJson(p)) == Ok(p)
  {
    hide Challenge, RawChallengeJson, ScalarChallengeJson;
    ChallengePrints(P, p.alpha);
    ChallengePrints(P, p.beta);
    ChallengePrints(P, p.gamma);
    ChallengePrints(P, p.zeta);
  }

  lemma {:induction false} BranchDataPrints(bd: BranchData)
    requires bd.domainLog2 < 256 && !(bd.mask0 && !bd.mask1)
    ensures ParseBranchData(BranchDataJson(bd)) == Ok(bd)
  {
  }

  lemma {:induction false} DeferredPrints(plonk: PlonkMinimal, chals: StepChals, bd: BranchData)
    requires plonk.alpha < U128 && plonk.beta < U128 && plonk.gamma < U128 && plonk.zeta < U128
    requires Below128(chals) && bd.domainLog2 < 256 && !(bd.mask0 && !bd.mask1)
    ensures ParseDeferred(DeferredJson(plonk, chals, bd)) == Ok(DeferredPart(plonk, chals, bd))
  {
    hide ParsePlonk, BulletproofsOf, ParseBranchData, PlonkJson, BulletproofsJson, BranchDataJson;
    PlonkPrints(plonk);
    BulletproofsPrint(P, STEP_IPA_ROUNDS, chals);
    BranchDataPrints(bd);
  }

  lemma {:induction false} ProofStatePrints(p: OcamlProof)
    requires WellFormed(p)
    ensures ParseSpongeDigest(ProofStateJson(p)) == Ok(p.spongeDigestBeforeEvaluations)
    ensures Get(ProofStateJson(p), "deferred_values")
         == Ok(DeferredJson(p.rawPlonk, p.rawBulletproofChallenges, p.branchData))
    ensures Get(ProofStateJson(p), "messages_for_next_wrap_proof") == Ok(MessagesForWrapJson(p))
  {
    hide FieldOfLimbs, LimbsJson, Pow2, DeferredJson, MessagesForWrapJson;
    Pow2Of256();
    LimbsRoundTrip(P, p.spongeDigestBeforeEvaluations, 4);
  }

  lemma {:induction false} CommitmentPrints(p: OcamlProof)
    ensures CommitmentAt(MessagesForWrapJson(p)) == Ok(p.challengePolynomialCommitment)
  {
    hide ParseVestaPoint, VestaPointJson, BulletproofsJson;
    PointsPrint(p.challengePolynomialCommitment, PallasPoint(0, 0));
  }

  lemma {:induction false} WrapListPrints(p: OcamlProof)
    requires WellFormed(p)
    ensures ListAt(MessagesForWrapJson(p), "old_bulletproof_challenges", WrapBulletproofs) == Ok(p.prevWrapChalsRaw)
  {
    hide VestaPointJson, BulletproofsOf, BulletproofsJson, WellShaped, Below128;
    var a := Map(WrapBulletproofsJson, p.prevWrapChalsRaw);
    forall i | 0 <= i < |a|
      ensures WrapBulletproofs(a[i]) == Ok(p.prevWrapChalsRaw[i])
    {
      BulletproofsPrint(Q, WRAP_IPA_ROUNDS, p.prevWrapChalsRaw[i]);
    }
    CollectOk(WrapBulletproofs, a, p.prevWrapChalsRaw);
  }

  lemma {:induction false} SgsPrint(p: OcamlProof)
    ensures ListAt(MessagesForStepJson(p), "challenge_polynomial_commitments", ParsePallasPoint) == Ok(p.prevStepSgs)
  {
    hide ParsePallasPoint, PallasPointJson, BulletproofsJson;
    var a := Map(PallasPointJson, p.prevStepSgs);
    forall i | 0 <= i < |a|
      ensures ParsePallasPoint(a[i]) == Ok(p.prevStepSgs[i])
    {
      PointsPrint(VestaPoint(0, 0), p.prevStepSgs[i]);
    }
    CollectOk(ParsePallasPoint, a, p.prevStepSgs);
  }

  lemma {:induction false} StepListPrints(p: OcamlProof)
    requires WellFormed(p)
    ensures ListAt(MessagesForStepJson(p), "old_bulletproof_challenges", StepBulletproofs) == Ok(p.prevStepChalsRaw)
  {
    hide PallasPointJson, BulletproofsOf, BulletproofsJson, WellShaped, Below128;
    var c := Map(StepBulletproofsJson, p.prevStepChalsRaw);
    forall i | 0 <= i < |c|
      ensures StepBulletproofs(c[i]) == Ok(p.prevStepChalsRaw[i])
    {
      BulletproofsPrint(P, STEP_IPA_ROUNDS, p.prevStepChalsRaw[i]);
    }
    CollectOk(StepBulletproofs, c, p.prevStepChalsRaw);
  }

  lemma {:induction false} TopLevelKeys(p: OcamlProof)
    requires WellShaped(p)
    ensures Get(Print(p), "statement") == Ok(StatementJson(p))
    ensures Get(Print(p), "prev_evals") == Ok(AllEvalsJson(p.prevEvals))
    ensures Get(StatementJson(p), "proof_state") == Ok(ProofStateJson(p))
    ensures Get(StatementJson(p), "messages_for_next_step_proof") == Ok(MessagesForStepJson(p))
  {
    hide AllEvalsJson, ProofStateJson, MessagesForStepJson;
  }

  lemma {:induction false} ParsePrinted(p: OcamlProof)
    requires WellFormed(p)
    ensures Parse(Print(p)) == Ok(p)
  {
    hide Get, Print, StatementJson, ProofStateJson, MessagesForStepJson, MessagesForWrapJson, DeferredJson,
      AllEvalsJson, ParseDeferred, ParseSpongeDigest, CommitmentAt, ListAt, ParseAllEvals;
    TopLevelKeys(p);
    ProofStatePrints(p);
    var four := [p.rawPlonk.alpha, p.rawPlonk.beta, p.rawPlonk.gamma, p.rawPlonk.zeta];
    assert four[0] < U128 && four[1] < U128 && four[2] < U128 && four[3] < U128;
    DeferredPrints(p.rawPlonk, p.rawBulletproofChallenges, p.branchData);
    CommitmentPrints(p);
    WrapListPrints(p);
    SgsPrint(p);
    StepListPrints(p);
    AllEvalsPrint(p.prevEvals);
  }

  /**
   Skeleton round trip: the printed tree of any well-formed proof, with any number of previous
   proofs and chunks and with any extra keys at any depth, parses back to that proof.
   */
  lemma {:induction false} SkeletonRoundTrip(p: OcamlProof, j: Json)
    requires WellFormed(p) && Extends(j, Print(p))
    ensures Parse(j) == Ok(p)
  {
    hide Parse, Print, Extends, WellShaped;
    ParsePrinted(p);
    ParseIgnoresExtraKeys(j, Print(p));
  }

  /** A challenge printed in two limbs can only come back below 2^128. */
  lemma {:induction false} PrintedChallengeFits(m: Modulus, x: nat)
    requires m >= U128
    ensures Challenge(m, RawChallengeJson(x)) == Ok(x) ==> x < U128
    ensures Challenge(m, ScalarChallengeJson(x)) == Ok(x) ==> x < U128
    ensures Prechallenge(m, PrechallengeJson(x)) == Ok(x) ==> x < U128
  {
    hide FieldOfLimbs, LimbsJson, LimbsValue;
    LimbsExact(m, LimbsJson(x, 2));
    if AreInt64(LimbsJson(x, 2)) {
      TwoLimbs(m, LimbsJson(x, 2));
    }
  }

  lemma {:induction false} PrintedBulletproofsFit(m: Modulus, n: nat, xs: seq<nat>)
    requires m >= U128 && BulletproofsOf(m, n, BulletproofsJson(xs)) == Ok(xs)
    ensures Below128(xs)
  {
    hide Prechallenge, PrechallengeJson;
    forall i | 0 <= i < |xs|
      ensures xs[i] < U128
    {
      assert Prechallenge(m, Map(PrechallengeJson, xs)[i]) == Ok(xs[i]);
      PrintedChallengeFits(m, xs[i]);
    }
  }

  lemma {:induction false} PrintedDeferredFits(plonk: PlonkMinimal, chals: StepChals, bd: BranchData)
    requires bd.domainLog2 < 256
    requires ParseDeferred(DeferredJson(plonk, chals, bd)) == Ok(DeferredPart(plonk, chals, bd))
    ensures plonk.alpha < U128 && plonk.beta < U128 && plonk.gamma < U128 && plonk.zeta < U128
    ensures Below128(chals)
  {
    hide Challenge, RawChallengeJson, ScalarChallengeJson, BulletproofsOf, BulletproofsJson, ParseBranchData,
      BranchDataJson;
    PrintedBulletproofsFit(P, STEP_IPA_ROUNDS, chals);
    PrintedChallengeFits(P, plonk.alpha);
    PrintedChallengeFits(P, plonk.beta);
    PrintedChallengeFits(P, plonk.gamma);
    PrintedChallengeFits(P, plonk.zeta);
  }

  lemma {:induction false} PrintedListsFit(p: OcamlProof)
    requires ListAt(MessagesForStepJson(p), "old_bulletproof_challenges", StepBulletproofs) == Ok(p.prevStepChalsRaw)
    requires ListAt(MessagesForWrapJson(p), "old_bulletproof_challenges", WrapBulletproofs) == Ok(p.prevWrapChalsRaw)
    ensures forall i | 0 <= i < |p.prevStepChalsRaw| :: Below128(p.prevStepChalsRaw[i])
    ensures forall i | 0 <= i < |p.prevWrapChalsRaw| :: Below128(p.prevWrapChalsRaw[i])
  {
    hide BulletproofsOf, BulletproofsJson, Below128, VestaPointJson, PallasPointJson;
    forall i | 0 <= i < |p.prevStepChalsRaw|
      ensures Below128(p.prevStepChalsRaw[i])
    {
      assert StepBulletproofs(Map(StepBulletproofsJson, p.prevStepChalsRaw)[i]) == Ok(p.prevStepChalsRaw[i]);
      PrintedBulletproofsFit(P, STEP_IPA_ROUNDS, p.prevStepChalsRaw[i]);
    }
    forall i | 0 <= i < |p.prevWrapChalsRaw|
      ensures Below128(p.prevWrapChalsRaw[i])
    {
      assert WrapBulletproofs(Map(WrapBulletproofsJson, p.prevWrapChalsRaw)[i]) == Ok(p.prevWrapChalsRaw[i]);
      PrintedBulletproofsFit(Q, WRAP_IPA_ROUNDS, p.prevWrapChalsRaw[i]);
    }
  }

  lemma {:induction false} ProofStateKeys(p: OcamlProof)
    requires WellShaped(p)
    ensures Get(ProofStateJson(p), "deferred_values")
         == Ok(DeferredJson(p.rawPlonk, p.rawBulletproofChallenges, p.branchData))
    ensures Get(ProofStateJson(p), "messages_for_next_wrap_proof") == Ok(MessagesForWrapJson(p))
  {
  }

  lemma {:induction false} ReparsedFits(p: OcamlProof)
    requires WellShaped(p) && Parse(Print(p)) == Ok(p)
    ensures WellFormed(p)
  {
    hide Get, Print, StatementJson, ProofStateJson, MessagesForStepJson, MessagesForWrapJson, DeferredJson,
      AllEvalsJson, ParseDeferred, ParseSpongeDigest, CommitmentAt, ListAt, ParseAllEvals, EqualChunkCounts;
    TopLevelKeys(p);
    ProofStateKeys(p);
    PrintedDeferredFits(p.rawPlonk, p.rawBulletproofChallenges, p.branchData);
    PrintedListsFit(p);
  }

  /**
   Normal form: every parsed proof is well shaped, and printing it gives a skeleton that parses
   to the same proof if and only if all its challenges are below 2^128.
   */
  lemma {:induction false} ParsedReprints(j: Json)
    requires Parse(j).Ok?
    ensures WellShaped(Parse(j).value)
    ensures Parse(Print(Parse(j).value)) == Parse(j) <==> WellFormed(Parse(j).value)
  {
    hide Parse, Print, WellShaped;
    ParseShape(j);
    if WellFormed(Parse(j).value) {
      ParsePrinted(Parse(j).value);
    }
    if Parse(Print(Parse(j).value)) == Parse(j) {
      ReparsedFits(Parse(j).value);
    }
  }
}
