/**
 The whole chain: a JSON skeleton is parsed, converted, expanded, flattened into the wrap public
 input and absorbed by the batching transcript, and nothing it carries is confused or lost.
 */
module EndToEnd {
  import opened Wrappers
  import opened Bytes
  import opened Fields
  import opened Types
  import opened Upstream
  import opened VerifierBlob
  import opened Deferred
  import opened Expansion
  import opened Batching
  import opened Numbers
  import opened Wire
  import opened Printer
  import opened Convert

  /** A node of the skeleton by its path of keys. */
  function At(root: Json, path: seq<string>): Parsed<Json>
    decreases |path|
  {
    if path == [] then Ok(root)
    else
      var v :- Get(root, path[0]);
      At(v, path[1..])
  }

  const DEFERRED_PATH := ["statement", "proof_state", "deferred_values"]

  /** The limb array of a challenge, raw or under `inner`. */
  function LimbsAt(v: Json): seq<Json> {
    if v.Arr? then v.items
    else if v.Obj? && "inner" in v.fields && v.fields["inner"].Arr? then v.fields["inner"].items
    else []
  }

  /** `x` is the integer the challenge node spells (its low 256 bits, if it is absurdly long). */
  predicate Spells(v: Json, x: nat) {
    AreInt64(LimbsAt(v)) && x == LimbsValue(LimbsAt(v)) % U256
  }

  /** A challenge node, in one of its two forms. */
  predicate IsChallengeNode(v: Json) {
    v.Arr? || (v.Obj? && "inner" in v.fields && v.fields["inner"].Arr?)
  }

  /** A challenge decodes exactly when its limbs are 64-bit integers with a canonical value, and to that. */
  lemma {:induction false} ChallengeExact(m: Modulus, v: Json)
    ensures Challenge(m, v).Ok?
       <==> IsChallengeNode(v) && AreInt64(LimbsAt(v)) && LimbsValue(LimbsAt(v)) % U256 < m
    ensures Challenge(m, v).Ok? ==> Challenge(m, v).value == LimbsValue(LimbsAt(v)) % U256
  {
    hide FieldOfLimbs, LimbsValue, AreInt64;
    LimbsExact(m, LimbsAt(v));
  }

  lemma {:induction false} ChallengeSpelled(m: Modulus, v: Json)
    requires Challenge(m, v).Ok?
    ensures Spells(v, Challenge(m, v).value)
  {
    hide Challenge, LimbsValue, AreInt64;
    ChallengeExact(m, v);
  }

  /** With two limbs the spelled integer is the limbs' own value, below 2^128. */
  lemma {:induction false} TwoLimbsSpelled(v: Json, x: nat)
    requires Spells(v, x) && |LimbsAt(v)| == 2
    ensures x == LimbsValue(LimbsAt(v)) < U128
  {
    hide LimbsValue, FieldOfLimbs;
    TwoLimbs(P, LimbsAt(v));
  }

  lemma {:induction false} AtStep(root: Json, path: seq<string>)
    requires path != [] && Get(root, path[0]).Ok?
    ensures At(root, path) == At(Get(root, path[0]).value, path[1..])
  {
  }

  /** Where the deferred values were read. */
  lemma {:induction false} ParseDeferredAt(j: Json)
    requires Parse(j).Ok?
    ensures At(j, DEFERRED_PATH).Ok?
    ensures var d := ParseDeferred(At(j, DEFERRED_PATH).value);
            var p := Parse(j).value;
            && d == Ok(DeferredPart(p.rawPlonk, p.rawBulletproofChallenges, p.branchData))
            && p.stepDomainLog2 == p.branchData.domainLog2
  {
    hide Get, ParseDeferred, ParseSpongeDigest, CommitmentAt, ListAt, ParseAllEvals;
    var statement := Get(j, "statement").value;
    var proofState := Get(statement, "proof_state").value;
    AtStep(j, DEFERRED_PATH);
    assert DEFERRED_PATH[1..] == ["proof_state", "deferred_values"];
    AtStep(statement, ["proof_state", "deferred_values"]);
    assert ["proof_state", "deferred_values"][1..] == ["deferred_values"];
    AtStep(proofState, ["deferred_values"]);
    assert ["deferred_values"][1..] == [];
  }

  const SPONGE_PATH := ["statement", "proof_state", "sponge_digest_before_evaluations"]

  /** Where the sponge digest was read, and what its limbs spell. */
  lemma {:induction false} SpongeDigestSpelled(j: Json)
    requires Parse(j).Ok?
    ensures At(j, SPONGE_PATH).Ok?
    ensures Spells(At(j, SPONGE_PATH).value, Parse(j).value.spongeDigestBeforeEvaluations)
  {
    hide Get, ParseDeferred, FieldOfLimbs, CommitmentAt, ListAt, ParseAllEvals, LimbsValue, AreInt64;
    var statement := Get(j, "statement").value;
    var proofState := Get(statement, "proof_state").value;
    AtStep(j, SPONGE_PATH);
    assert SPONGE_PATH[1..] == ["proof_state", "sponge_digest_before_evaluations"];
    AtStep(statement, ["proof_state", "sponge_digest_before_evaluations"]);
    assert ["proof_state", "sponge_digest_before_evaluations"][1..] == ["sponge_digest_before_evaluations"];
    AtStep(proofState, ["sponge_digest_before_evaluations"]);
    assert ["sponge_digest_before_evaluations"][1..] == [];
    LimbsExact(P, Get(proofState, "sponge_digest_before_evaluations").value.items);
  }

  /** The four plonk challenges, in the order of the public input's positions 5 to 8. */
  const PLONK_KEYS := ["beta", "gamma", "alpha", "zeta"]

  function PlonkAt(p: PlonkMinimal, i: nat): StepField
    requires i < 4
  {
    if i == 0 then p.beta else if i == 1 then p.gamma else if i == 2 then p.alpha else p.zeta
  }

  /** The node of a plonk challenge, and of the `i`-th bulletproof prechallenge. */
  function PlonkNode(deferred: Json, i: nat): Parsed<Json>
    requires i < 4
  {
    var plonk :- Get(deferred, "plonk");
    Get(plonk, PLONK_KEYS[i])
  }

  function PrechallengeNode(deferred: Json, i: nat): Parsed<Json> {
    var chals :- Get(deferred, "bulletproof_challenges");
    var a :- AsVec(chals);
    if |a| <= i then Err(WrongCount(i + 1, |a|)) else Get(a[i], "prechallenge")
  }

  lemma {:induction false} PlonkSpelled(deferred: Json, i: nat)
    requires ParseDeferred(deferred).Ok? && i < 4
    ensures PlonkNode(deferred, i).Ok?
    ensures Spells(PlonkNode(deferred, i).value, PlonkAt(ParseDeferred(deferred).value.plonk, i))
  {
    hide Get, Challenge, StepBulletproofs, ParseBranchData, Spells;
    var plonk := Get(deferred, "plonk").value;
    ChallengeSpelled(P, Get(plonk, PLONK_KEYS[i]).value);
  }

  lemma {:induction false} PrechallengeSpelled(deferred: Json, i: nat)
    requires ParseDeferred(deferred).Ok? && i < STEP_IPA_ROUNDS
    ensures PrechallengeNode(deferred, i).Ok?
    ensures Spells(PrechallengeNode(deferred, i).value, ParseDeferred(deferred).value.bulletproofs[i])
  {
    hide Get, Challenge, ParsePlonk, ParseBranchData, Spells;
    var items := Get(deferred, "bulletproof_challenges").value.items;
    assert Prechallenge(P, items[i]) == Ok(ParseDeferred(deferred).value.bulletproofs[i]);
    ChallengeSpelled(P, Get(items[i], "prechallenge").value);
  }

  /** `N0`, `N1`, `N2` pack to 0, 2 and 3. */
  function TagNumber(tag: string): nat {
    if tag == "N2" then 3 else if tag == "N1" then 2 else 0
  }

  lemma {:induction false} BranchSpelled(deferred: Json)
    requires ParseDeferred(deferred).Ok?
    ensures var b := Get(deferred, "branch_data");
            && b.Ok? && Get(b.value, "domain_log2").Ok? && Get(b.value, "proofs_verified").Ok?
            && var log2 := OcamlByte(Get(b.value, "domain_log2").value);
               var tags := Get(b.value, "proofs_verified").value;
               && log2.Ok? && tags.Arr? && tags.items != [] && tags.items[0].Str?
               && tags.items[0].s in {"N0", "N1", "N2"}
               && ParseDeferred(deferred).value.branch.domainLog2 == log2.value
               && BranchNumber(ParseDeferred(deferred).value.branch) == 4 * log2.value + TagNumber(tags.items[0].s)
  {
    hide Get, ParsePlonk, StepBulletproofs;
  }

  // --------------------------------------------------------------------------
  // One proof: from the skeleton to the public input
  // --------------------------------------------------------------------------

  /** What the host turns into one `VerifiableProof`. */
  datatype HostProof = HostProof(skeleton: Json, wrapProof: WrapProof, appState: seq<StepField>)

  /** Parse, then convert; `None` for either error. */
  function Assembled(up: Primitives, vk: VkData, h: HostProof): Option<VerifiableProof> {
    match Parse(h.skeleton)
    case Err(_) => None
    case Ok(p) =>
      match Converted(up, p, h.wrapProof, vk, h.appState)
      case Err(_) => None
      case Ok(vp) => Some(vp)
  }

  /** What assembly carries straight from the skeleton. */
  lemma {:induction false} AssembledCarries(up: Primitives, vk: VkData, h: HostProof)
    requires Assembled(up, vk, h).Some?
    ensures Parse(h.skeleton).Ok?
    ensures var p := Parse(h.skeleton).value;
            var vp := Assembled(up, vk, h).value;
            && vp.wrapProof == h.wrapProof && vp.rawPlonk == p.rawPlonk
            && vp.rawBulletproofChallenges == p.rawBulletproofChallenges
            && vp.branchData == p.branchData && vp.prevEvals == p.prevEvals
            && vp.spongeDigestBeforeEvaluations == p.spongeDigestBeforeEvaluations
            && vp.stepDomainLog2 == p.stepDomainLog2 == p.branchData.domainLog2 < 256
            && vp.oldBulletproofChallenges == ExpandSteps(up, p.prevStepChalsRaw)
            && vp.challengePolynomialCommitment == Some(p.challengePolynomialCommitment)
            && vp.pEval0Chunks == p.prevEvals.publicEvals.zeta && |p.prevWrapChalsRaw| <= PADDED_LENGTH
            && BranchNumber(vp.branchData) < 1027
  {
    hide Parse, WrapVkStepFields, StepPreimageOf, WrapPreimageOf, EqualChunkCounts;
    ParseShape(h.skeleton);
  }

  /** The public-input positions of what a proof carries. */
  lemma {:induction false} PublicInputPositions(
    up: Primitives, bits: nat, v: Verifier<SrsState>, vp: VerifiableProof, i: nat)
    requires bits > 0 && ProofPublicInput(up, bits, v, vp).Some? && BranchNumber(vp.branchData) < Q
    ensures var pi := ProofPublicInput(up, bits, v, vp).value;
            && (i < 4 ==> pi[5 + i] == PlonkAt(vp.rawPlonk, i))
            && (i < STEP_IPA_ROUNDS ==> pi[13 + i] == vp.rawBulletproofChallenges[i])
            && pi[10] == vp.spongeDigestBeforeEvaluations
            && pi[11] == vp.messagesForNextWrapProofDigest && pi[12] == vp.messagesForNextStepProofDigest
            && pi[29] == BranchNumber(vp.branchData)
            && (30 <= i < PUBLIC_INPUT_SIZE ==> pi[i] == 0)
  {
    hide ExpandDeferred, FpToFq, CrossFieldType1, PackBranchData, BranchNumber;
    var dv := ExpandDeferred(up, bits, v, vp).value;
    ExpansionCarries(up, bits, v, vp);
    var stepDigest, wrapDigest := vp.messagesForNextStepProofDigest, vp.messagesForNextWrapProofDigest;
    PublicInputLayout(dv, stepDigest, wrapDigest);
    PackedValue(dv.branchData);
    ReduceUnique(Q, 0, BranchNumber(dv.branchData));
    FpToFqExact(dv.beta);
    FpToFqExact(dv.gamma);
    FpToFqExact(dv.alpha);
    FpToFqExact(dv.zeta);
    FpToFqExact(dv.spongeDigestBeforeEvaluations);
    FpToFqExact(stepDigest);
    if i < STEP_IPA_ROUNDS {
      FpToFqExact(dv.bulletproofPrechallenges[i]);
      assert PublicInputOf(dv, stepDigest, wrapDigest)[13..29][i] == FpToFq(dv.bulletproofPrechallenges[i]);
    }
  }

  /**
   End-to-end carry: in every skeleton that parses, converts and expands, each challenge node
   and the sponge digest spell the very integers found at their positions of the public input, and
   element 29 is four times the `domain_log2` character plus 0, 2 or 3 for `N0`, `N1`, `N2`.
   */
  lemma {:induction false} SkeletonReachesPublicInput(
    up: Primitives, bits: nat, v: Verifier<SrsState>, vk: VkData, h: HostProof, i: nat)
    requires bits > 0 && Assembled(up, vk, h).Some?
    requires ProofPublicInput(up, bits, v, Assembled(up, vk, h).value).Some?
    ensures At(h.skeleton, DEFERRED_PATH).Ok? && At(h.skeleton, SPONGE_PATH).Ok?
    ensures var d := At(h.skeleton, DEFERRED_PATH).value;
            var pi := ProofPublicInput(up, bits, v, Assembled(up, vk, h).value).value;
            && ParseDeferred(d).Ok?
            && (i < 4 ==> PlonkNode(d, i).Ok? && Spells(PlonkNode(d, i).value, pi[5 + i]))
            && (i < STEP_IPA_ROUNDS ==> PrechallengeNode(d, i).Ok? && Spells(PrechallengeNode(d, i).value, pi[13 + i]))
            && Spells(At(h.skeleton, SPONGE_PATH).value, pi[10])
            && pi[29] == BranchNumber(ParseDeferred(d).value.branch)
  {
    hide Assembled, ProofPublicInput, Parse, At, ParseDeferred, Get, Spells, BranchNumber, WellShaped;
    AssembledCarries(up, vk, h);
    ParseDeferredAt(h.skeleton);
    SpongeDigestSpelled(h.skeleton);
    var d := At(h.skeleton, DEFERRED_PATH).value;
    PublicInputPositions(up, bits, v, Assembled(up, vk, h).value, i);
    if i < 4 {
      PlonkSpelled(d, i);
    }
    if i < STEP_IPA_ROUNDS {
      PrechallengeSpelled(d, i);
    }
  }

  /**
   The log2 packed into element 29 is the one that sizes the step domain, exactly when the shift
   by it is not masked; on a 64-bit host any accepted log2 below 64 is.
   */
  lemma {:induction false} PackedLog2SizesDomain(
    up: Primitives, bits: nat, v: Verifier<SrsState>, vk: VkData, h: HostProof)
    requires bits > 0 && Assembled(up, vk, h).Some?
    requires ProofPublicInput(up, bits, v, Assembled(up, vk, h).value).Some?
    ensures var vp := Assembled(up, vk, h).value;
            var pi := ProofPublicInput(up, bits, v, vp).value;
            && DomainLog2(bits, vp.stepDomainLog2).Some?
            && pi[29] / 4 == vp.stepDomainLog2
            && (DomainLog2(bits, vp.stepDomainLog2) == Some(pi[29] / 4) <==> pi[29] / 4 < bits)
  {
    hide Assembled, Parse, FpToFq, CrossFieldType1, PackBranchData, EvaluationRows, ZkPolynomial, Inverse;
    AssembledCarries(up, vk, h);
    PublicInputPositions(up, bits, v, Assembled(up, vk, h).value, 0);
  }

  /** The legal one-character `domain_log2` of `P` is 80, and on a 64-bit host it sizes a domain of 2^16. */
  lemma {:induction false} MaskedLog2()
    ensures OcamlByte(Str("P")) == Ok(80) && DomainLog2(64, 80) == Some(16)
  {
  }

  /** The same proof with its `domain_log2` replaced; it is as printable as before. */
  function WithLog2(p: OcamlProof, log2: nat): (q: OcamlProof)
    requires log2 < 256
    ensures WellFormed(p) ==> WellFormed(q)
  {
    p.(branchData := p.branchData.(domainLog2 := log2), stepDomainLog2 := log2)
  }

  /**
   So every well-formed proof with that character (`WithLog2(p, 80)` for any well-formed `p`) prints to
   a skeleton that assembles, packs 80 into element 29 and is expanded over the domain of 2^16.
   */
  lemma {:induction false} PackedLog2Masked(
    up: Primitives, v: Verifier<SrsState>, vk: VkData, p: OcamlProof, h: HostProof)
    requires WellFormed(p) && p.stepDomainLog2 == 80 && h.skeleton == Print(p)
    requires |p.prevWrapChalsRaw| <= PADDED_LENGTH && WrapVkStepFields(vk).Ok?
    ensures Assembled(up, vk, h).Some? && Assembled(up, vk, h).value.stepDomainLog2 == 80
    ensures DomainLog2(64, 80) == Some(16)
    ensures var pi := ProofPublicInput(up, 64, v, Assembled(up, vk, h).value);
            pi.Some? ==> pi.value[29] / 4 == 80
  {
    hide Parse, Print, ProofPublicInput, WrapVkStepFields, StepPreimageOf, WrapPreimageOf, WellFormed;
    ParsePrinted(p);
    assert Assembled(up, vk, h).Some?;
    if ProofPublicInput(up, 64, v, Assembled(up, vk, h).value).Some? {
      PackedLog2SizesDomain(up, 64, v, vk, h);
    }
  }

  // --------------------------------------------------------------------------
  // The evaluations keep their names and their shape
  // --------------------------------------------------------------------------

  const EVALS_PATH := ["prev_evals", "evals", "evals"]

  lemma {:induction false} ParseEvalsAt(j: Json)
    requires Parse(j).Ok?
    ensures At(j, EVALS_PATH).Ok?
    ensures ParseIndex(At(j, EVALS_PATH).value) == Ok(Parse(j).value.prevEvals.index)
  {
    hide Get, ParseDeferred, ParseSpongeDigest, CommitmentAt, ListAt, ParseIndex, ColumnAt, ColumnsAt, BeHex,
      PointEvalFlat, EqualChunkCounts;
    var prevEvals := Get(j, "prev_evals").value;
    var evals := Get(prevEvals, "evals").value;
    AtStep(j, EVALS_PATH);
    assert EVALS_PATH[1..] == ["evals", "evals"];
    AtStep(prevEvals, ["evals", "evals"]);
    assert ["evals", "evals"][1..] == ["evals"];
    AtStep(evals, ["evals"]);
    assert ["evals"][1..] == [];
  }

  /**
   Each selector's evaluations, read under its JSON key, land in its own row of the table handed
   to the batched inner product.
   */
  lemma {:induction false} SelectorsKeepTheirNames(
    up: Primitives, vk: VkData, h: HostProof, polys: seq<Row>,
    publicEvals: (seq<StepField>, seq<StepField>), ftEval0: StepField, ftEval1: StepField, i: nat)
    requires Assembled(up, vk, h).Some? && i < 6
    ensures At(h.skeleton, EVALS_PATH).Ok? && ColumnAt(At(h.skeleton, EVALS_PATH).value, SELECTOR_KEYS[i]).Ok?
    ensures var es := EvaluationRows(polys, publicEvals, ftEval0, ftEval1,
                        ToProofEvaluations(Assembled(up, vk, h).value.prevEvals));
            var column := ColumnAt(At(h.skeleton, EVALS_PATH).value, SELECTOR_KEYS[i]).value;
            && |es| == |polys| + 45
            && es[|polys| + 3 + i] == [column.zeta, column.zetaOmega]
  {
    hide Assembled, Parse, At, ColumnAt, EvaluationRows, ToProofEvaluations, BranchNumber, SELECTOR_KEYS;
    AssembledCarries(up, vk, h);
    ParseEvalsAt(h.skeleton);
    EvaluationTableLayout(polys, publicEvals, ftEval0, ftEval1, Assembled(up, vk, h).value.prevEvals, i);
  }

  /** And, the parser having checked the chunk counts, every row of the table is rectangular. */
  lemma {:induction false} AssembledTableRectangular(
    up: Primitives, vk: VkData, h: HostProof, polys: seq<Row>,
    publicEvals: (seq<StepField>, seq<StepField>), ftEval0: StepField, ftEval1: StepField, k: nat)
    requires Assembled(up, vk, h).Some? && |publicEvals.0| == |publicEvals.1|
    requires forall r | 0 <= r < |polys| :: Rectangular(polys[r])
    requires k < |polys| + 45
    ensures var es := EvaluationRows(polys, publicEvals, ftEval0, ftEval1,
                        ToProofEvaluations(Assembled(up, vk, h).value.prevEvals));
            |es| == |polys| + 45 && Rectangular(es[k])
  {
    hide Assembled, Parse, EvaluationRows, ToProofEvaluations, EqualChunkCounts, BranchNumber, Rectangular;
    AssembledCarries(up, vk, h);
    ParseShape(h.skeleton);
    EvaluationTableRectangular(polys, publicEvals, ftEval0, ftEval1, Assembled(up, vk, h).value.prevEvals, k);
  }

  // --------------------------------------------------------------------------
  // A batch: from the skeletons to the transcript
  // --------------------------------------------------------------------------

  /** Everything the transcript absorbs of one proof: the wrap proof, the whole statement, the branch data. */
  datatype Content = Content(wrapProof: WrapProof, statement: Statement, branch: BranchData)

  /** `None` if the proof's expansion panics. */
  function ContentOf(up: Primitives, bits: nat, v: Verifier<SrsState>, vp: VerifiableProof): Option<Content>
    requires bits > 0
  {
    match ExpandDeferred(up, bits, v, vp)
    case None => None
    case Some(dv) =>
      var statement := StatementOf(dv, vp.messagesForNextStepProofDigest, vp.messagesForNextWrapProofDigest);
      Some(Content(vp.wrapProof, statement, vp.branchData))
  }

  predicate SameContents(
    up: Primitives, bits: nat, v: Verifier<SrsState>, vps: seq<VerifiableProof>,
    w: Verifier<SrsState>, vps': seq<VerifiableProof>)
    requires bits > 0
  {
    && |vps| == |vps'|
    && forall i | 0 <= i < |vps| :: ContentOf(up, bits, v, vps[i]) == ContentOf(up, bits, w, vps'[i])
  }

  /** What the verifier carries of a proof from the skeleton into the public input. */
  datatype CarriedValues = CarriedValues(
    wrapProof: WrapProof, plonk: PlonkMinimal, prechallenges: StepChals, branch: BranchData,
    spongeDigest: StepField, stepDigest: StepField, wrapDigest: WrapField)

  function CarriedOf(vp: VerifiableProof): CarriedValues {
    CarriedValues(vp.wrapProof, vp.rawPlonk, vp.rawBulletproofChallenges, vp.branchData,
      vp.spongeDigestBeforeEvaluations, vp.messagesForNextStepProofDigest, vp.messagesForNextWrapProofDigest)
  }

  /** The content includes every carried value. */
  lemma {:induction false} ContentCarries(
    up: Primitives, bits: nat, v: Verifier<SrsState>, a: VerifiableProof, w: Verifier<SrsState>, b: VerifiableProof)
    requires bits > 0 && ContentOf(up, bits, v, a).Some?
    requires ContentOf(up, bits, v, a) == ContentOf(up, bits, w, b)
    ensures CarriedOf(a) == CarriedOf(b)
  {
    hide ExpandDeferred;
    ExpansionCarries(up, bits, v, a);
    ExpansionCarries(up, bits, w, b);
  }

  /** The content and the transcript entry determine each other. */
  lemma {:induction false} EntryIsContent(
    up: Primitives, bits: nat, v: Verifier<SrsState>, a: VerifiableProof, w: Verifier<SrsState>, b: VerifiableProof)
    requires bits > 0 && BranchNumber(a.branchData) < Q && BranchNumber(b.branchData) < Q
    requires ProofPublicInput(up, bits, v, a).Some? && ProofPublicInput(up, bits, w, b).Some?
    ensures ContentOf(up, bits, v, a) == ContentOf(up, bits, w, b)
       <==> a.wrapProof == b.wrapProof && ProofPublicInput(up, bits, v, a) == ProofPublicInput(up, bits, w, b)
  {
    hide ExpandDeferred, PublicInputOf, StatementOf, BranchNumber, Reduce;
    ExpansionCarries(up, bits, v, a);
    ExpansionCarries(up, bits, w, b);
    PublicInputInjective(
      ExpandDeferred(up, bits, v, a).value, a.messagesForNextStepProofDigest, a.messagesForNextWrapProofDigest,
      ExpandDeferred(up, bits, w, b).value, b.messagesForNextStepProofDigest, b.messagesForNextWrapProofDigest);
  }

  predicate AllAssembled(up: Primitives, vk: VkData, hs: seq<HostProof>, vps: seq<VerifiableProof>) {
    |hs| == |vps| && forall i | 0 <= i < |hs| :: Assembled(up, vk, hs[i]) == Some(vps[i])
  }

  /** The wrap proofs' encodings fit in memory. */
  predicate ProofsInMemory(up: Primitives, vps: seq<VerifiableProof>) {
    forall i | 0 <= i < |vps| :: |up.encodeProof(vps[i].wrapProof)| < U64
  }

  /**
   The transcript binds the skeletons: two batches assembled from skeletons (of any sizes, for any
   keys and verifiers) have one transcript exactly when they have the same length and agree, proof by
   proof, on the wrap proof, the whole statement (the five shifted scalars, all challenges, xi and
   all three digests) and the branch data; and then on everything carried from the skeleton.
   */
  lemma {:induction false} TranscriptBindsSkeletons(
    up: Primitives, bits: nat,
    v: Verifier<SrsState>, vk: VkData, hs: seq<HostProof>, vps: seq<VerifiableProof>, pis: seq<seq<WrapField>>,
    v': Verifier<SrsState>, vk': VkData, hs': seq<HostProof>, vps': seq<VerifiableProof>, pis': seq<seq<WrapField>>)
    requires bits > 0 && ProofCodec(up) && ProofsInMemory(up, vps) && ProofsInMemory(up, vps')
    requires AllAssembled(up, vk, hs, vps) && AllAssembled(up, vk', hs', vps')
    requires PublicInputs(up, bits, v, vps) == Some(pis) && PublicInputs(up, bits, v', vps') == Some(pis')
    ensures Transcript(up, Paired(vps, pis)) == Transcript(up, Paired(vps', pis'))
       <==> SameContents(up, bits, v, vps, v', vps')
    ensures SameContents(up, bits, v, vps, v', vps')
        ==> |hs| == |hs'| && forall i | 0 <= i < |hs| :: CarriedOf(vps[i]) == CarriedOf(vps'[i])
  {
    hide ProofPublicInput, ContentOf, Assembled, Transcript, PublicInputs, BranchNumber;
    var es, es' := Paired(vps, pis), Paired(vps', pis');
    PublicInputsFit(up, bits, v, vps, pis);
    PublicInputsFit(up, bits, v', vps', pis');
    TranscriptBinds(up, es, es');
    if |vps| == |vps'| {
      forall i | 0 <= i < |vps|
        ensures es[i] == es'[i] <==> ContentOf(up, bits, v, vps[i]) == ContentOf(up, bits, v', vps'[i])
        ensures ContentOf(up, bits, v, vps[i]) == ContentOf(up, bits, v', vps'[i])
            ==> CarriedOf(vps[i]) == CarriedOf(vps'[i])
      {
        assert es[i] == (vps[i].wrapProof, pis[i]) && es'[i] == (vps'[i].wrapProof, pis'[i]);
        AssembledCarries(up, vk, hs[i]);
        AssembledCarries(up, vk', hs'[i]);
        EntryIsContent(up, bits, v, vps[i], v', vps'[i]);
        if ContentOf(up, bits, v, vps[i]) == ContentOf(up, bits, v', vps'[i]) {
          ContentDefined(up, bits, v, vps[i]);
          ContentCarries(up, bits, v, vps[i], v', vps'[i]);
        }
      }
    }
  }

  lemma {:induction false} ContentDefined(up: Primitives, bits: nat, v: Verifier<SrsState>, vp: VerifiableProof)
    requires bits > 0
    ensures ContentOf(up, bits, v, vp).Some? <==> ProofPublicInput(up, bits, v, vp).Some?
  {
  }

  lemma {:induction false} PublicInputsFit(
    up: Primitives, bits: nat, v: Verifier<SrsState>, vps: seq<VerifiableProof>, pis: seq<seq<WrapField>>)
    requires bits > 0 && ProofsInMemory(up, vps) && PublicInputs(up, bits, v, vps) == Some(pis)
    ensures |pis| == |vps| && InMemory(up, Paired(vps, pis))
    ensures forall i | 0 <= i < |vps| :: ProofPublicInput(up, bits, v, vps[i]).Some?
                                      && ProofPublicInput(up, bits, v, vps[i]).value == pis[i]
  {
  }

  // --------------------------------------------------------------------------
  // Behind the digests
  // --------------------------------------------------------------------------

  /** Two different preimages of one digest. */
  ghost predicate Collision<T, U>(hash: seq<T> -> U, x: seq<T>, y: seq<T>) {
    x != y && hash(x) == hash(y)
  }

  /** The digests an assembled proof carries, by their preimages. */
  lemma {:induction false} AssembledDigests(up: Primitives, vk: VkData, h: HostProof)
    requires Assembled(up, vk, h).Some?
    ensures Parse(h.skeleton).Ok? && WrapVkStepFields(vk).Ok?
    ensures var p := Parse(h.skeleton).value;
            var vp := Assembled(up, vk, h).value;
            && |p.prevWrapChalsRaw| <= PADDED_LENGTH
            && vp.messagesForNextStepProofDigest
               == up.poseidonStep(StepPreimageOf(up, p, WrapVkStepFields(vk).value, h.appState))
            && vp.messagesForNextWrapProofDigest == up.poseidonWrap(WrapPreimageOf(up, p))
  {
    hide Parse, WrapVkStepFields, StepPreimageOf, WrapPreimageOf;
  }

  type WrapLists = s: seq<WrapChals> | |s| <= PADDED_LENGTH witness []

  /** What lies behind the two message digests of an assembled proof. */
  datatype Behind = Behind(
    vkFields: seq<StepField>, appState: seq<StepField>, messages: seq<StepMessage>,
    commitment: VestaPoint, wrapChals: WrapLists)

  function BehindOf(up: Primitives, vk: VkData, h: HostProof): Option<Behind> {
    match (Parse(h.skeleton), WrapVkStepFields(vk))
    case (Ok(p), Ok(fields)) =>
      if |p.prevWrapChalsRaw| > PADDED_LENGTH then None
      else
        var messages := StepMessages(p.prevStepSgs, ExpandSteps(up, p.prevStepChalsRaw));
        var wraps := ExpandWraps(up, p.prevWrapChalsRaw);
        Some(Behind(fields, h.appState, messages, p.challengePolynomialCommitment, wraps))
    case _ => None
  }

  function StepPreimageBehind(b: Behind): seq<StepField> {
    StepPreimage(b.vkFields, b.appState, b.messages)
  }

  function WrapPreimageBehind(up: Primitives, b: Behind): seq<WrapField> {
    WrapPreimage(b.commitment, Padded(DummyIpaWrap(up), b.wrapChals))
  }

  lemma {:induction false} AssembledBehind(up: Primitives, vk: VkData, h: HostProof)
    requires Assembled(up, vk, h).Some?
    ensures BehindOf(up, vk, h).Some?
    ensures var vp, b := Assembled(up, vk, h).value, BehindOf(up, vk, h).value;
            && |b.vkFields| == 56
            && vp.messagesForNextStepProofDigest == up.poseidonStep(StepPreimageBehind(b))
            && vp.messagesForNextWrapProofDigest == up.poseidonWrap(WrapPreimageBehind(up, b))
  {
    hide Parse, WrapVkStepFields, StepPreimage, WrapPreimage, Padded, DummyIpaWrap, ExpandSteps, ExpandWraps,
      StepMessages;
    AssembledDigests(up, vk, h);
  }

  /** One reading of the step message: equal VK fields, and one app state regroups the other's messages. */
  predicate SameStepReading(b: Behind, c: Behind) {
    && b.vkFields == c.vkFields
    && (Regrouped(b.appState, b.messages, c.appState, c.messages)
        || Regrouped(c.appState, c.messages, b.appState, b.messages))
  }

  /** One reading of the wrap message: equal commitments, and one list is the other behind dummies. */
  predicate SameWrapReading(up: Primitives, b: Behind, c: Behind) {
    && b.commitment == c.commitment
    && (BehindDummies(DummyIpaWrap(up), b.wrapChals, c.wrapChals)
        || BehindDummies(DummyIpaWrap(up), c.wrapChals, b.wrapChals))
  }

  ghost predicate StepBound(up: Primitives, b: Behind, c: Behind) {
    SameStepReading(b, c) || Collision(up.poseidonStep, StepPreimageBehind(b), StepPreimageBehind(c))
  }

  ghost predicate WrapBound(up: Primitives, b: Behind, c: Behind) {
    SameWrapReading(up, b, c) || Collision(up.poseidonWrap, WrapPreimageBehind(up, b), WrapPreimageBehind(up, c))
  }

  /**
   Exactly when two assembled proofs share their digests, whatever the widths of their app states: the
   step digest, when the preimages collide or the VK fields are equal and one app state with its
   previous messages regroups the other; the wrap digest, when the preimages collide or the
   commitments are equal and one list of expanded challenges is the other behind dummies.
   */
  lemma {:induction false} DigestsBindOrCollide(up: Primitives, vk: VkData, h: HostProof, vk': VkData, h': HostProof)
    requires Assembled(up, vk, h).Some? && Assembled(up, vk', h').Some?
    ensures BehindOf(up, vk, h).Some? && BehindOf(up, vk', h').Some?
    ensures var vp, vp' := Assembled(up, vk, h).value, Assembled(up, vk', h').value;
            var b, c := BehindOf(up, vk, h).value, BehindOf(up, vk', h').value;
            && (vp.messagesForNextStepProofDigest == vp'.messagesForNextStepProofDigest <==> StepBound(up, b, c))
            && (vp.messagesForNextWrapProofDigest == vp'.messagesForNextWrapProofDigest <==> WrapBound(up, b, c))
  {
    hide Assembled, BehindOf, StepPreimage, WrapPreimage, DummyIpaWrap, Padded, Regrouped, BehindDummies;
    AssembledBehind(up, vk, h);
    AssembledBehind(up, vk', h');
    var b, c := BehindOf(up, vk, h).value, BehindOf(up, vk', h').value;
    StepPreimageExact(b.vkFields, b.appState, b.messages, c.vkFields, c.appState, c.messages);
    WrapPreimageExact(DummyIpaWrap(up), b.commitment, b.wrapChals, c.commitment, c.wrapChals);
  }

  /** With app states of one width the step digest determines them and all previous messages. */
  lemma {:induction false} EqualWidthsBind(b: Behind, c: Behind)
    requires |b.appState| == |c.appState|
    ensures SameStepReading(b, c)
       <==> b.vkFields == c.vkFields && b.appState == c.appState && b.messages == c.messages
  {
    assert b.messages[..0] == [] && c.messages[..0] == [];
  }

  /** With widths that do not differ by a multiple of 18, one step digest is a collision. */
  lemma {:induction false} UnrelatedWidthsCollide(up: Primitives, b: Behind, c: Behind)
    requires (|b.appState| - |c.appState|) % 18 != 0
    ensures StepBound(up, b, c) <==> Collision(up.poseidonStep, StepPreimageBehind(b), StepPreimageBehind(c))
  {
    hide StepPreimageBehind, MessagesFields;
    NegatedRemainder(|b.appState| - |c.appState|);
  }

  lemma {:induction false} NegatedRemainder(d: int)
    ensures d % 18 == 0 <==> (-d) % 18 == 0
  {
  }

  /**
   The regrouped case is real: the printed skeleton of any well-formed proof with a previous message,
   and that of the same proof with the message's fields moved into the app state, assemble to proofs
   with both digests equal, without a collision.
   */
  lemma {:induction false} AssembledProofsShareDigests(
    up: Primitives, vk: VkData, p: OcamlProof, h: HostProof, h': HostProof)
    requires WellFormed(p) && Converted(up, p, h.wrapProof, vk, h.appState).Ok?
    requires p.prevStepSgs != [] && p.prevStepChalsRaw != []
    requires h.skeleton == Print(p)
    requires h' == HostProof(Print(WithoutFirst(p)), h.wrapProof, h.appState + FirstMessage(up, p))
    ensures Assembled(up, vk, h).Some? && Assembled(up, vk, h').Some?
    ensures CarriedOf(Assembled(up, vk, h).value) == CarriedOf(Assembled(up, vk, h').value)
    ensures BehindOf(up, vk, h).Some? && BehindOf(up, vk, h').Some?
    ensures var b, c := BehindOf(up, vk, h).value, BehindOf(up, vk, h').value;
            b.messages != c.messages && StepPreimageBehind(b) == StepPreimageBehind(c)
  {
    hide Parse, Print, Converted, WrapVkStepFields, StepPreimage, WrapPreimage, FirstMessage, ExpandSteps,
      ExpandWraps, Below128, EqualChunkCounts;
    ParsePrinted(p);
    assert WellFormed(WithoutFirst(p));
    ParsePrinted(WithoutFirst(p));
    ConversionsShareDigests(up, p, h.wrapProof, vk, h.appState);
    AssembledBehind(up, vk, h);
    AssembledBehind(up, vk, h');
    assert |BehindOf(up, vk, h).value.messages| == |BehindOf(up, vk, h').value.messages| + 1;
  }

  /**
   The whole chain: if two batches assembled from skeletons have one transcript, they have one length
   and, position by position, the same carried values, and each of the two digests either is a hash
   collision or stands for one reading of the VK fields, app state, previous messages, commitment and
   wrap challenges.
   */
  lemma {:induction false} TranscriptBindsOrCollides(
    up: Primitives, bits: nat,
    v: Verifier<SrsState>, vk: VkData, hs: seq<HostProof>, vps: seq<VerifiableProof>, pis: seq<seq<WrapField>>,
    v': Verifier<SrsState>, vk': VkData, hs': seq<HostProof>, vps': seq<VerifiableProof>, pis': seq<seq<WrapField>>)
    requires bits > 0 && ProofCodec(up) && ProofsInMemory(up, vps) && ProofsInMemory(up, vps')
    requires AllAssembled(up, vk, hs, vps) && AllAssembled(up, vk', hs', vps')
    requires PublicInputs(up, bits, v, vps) == Some(pis) && PublicInputs(up, bits, v', vps') == Some(pis')
    requires Transcript(up, Paired(vps, pis)) == Transcript(up, Paired(vps', pis'))
    ensures |hs| == |hs'|
    ensures forall i | 0 <= i < |hs| :: CarriedOf(vps[i]) == CarriedOf(vps'[i])
    ensures forall i | 0 <= i < |hs| :: BothBound(up, vk, hs[i], vk', hs'[i])
  {
    hide Assembled, Transcript, PublicInputs, SameContents, StepBound, WrapBound, BehindOf;
    TranscriptBindsSkeletons(up, bits, v, vk, hs, vps, pis, v', vk', hs', vps', pis');
    forall i | 0 <= i < |hs|
      ensures BothBound(up, vk, hs[i], vk', hs'[i])
    {
      assert CarriedOf(vps[i]) == CarriedOf(vps'[i]);
      DigestsBindOrCollide(up, vk, hs[i], vk', hs'[i]);
    }
  }

  ghost predicate BothBound(up: Primitives, vk: VkData, h: HostProof, vk': VkData, h': HostProof) {
    && BehindOf(up, vk, h).Some? && BehindOf(up, vk', h').Some?
    && StepBound(up, BehindOf(up, vk, h).value, BehindOf(up, vk', h').value)
    && WrapBound(up, BehindOf(up, vk, h).value, BehindOf(up, vk', h').value)
  }
}
