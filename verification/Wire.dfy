/** `OcamlProof::parse`: the decoder of the OCaml-produced skeleton. */
module Wire {
  import opened Wrappers
  import opened Fields
  import opened Types
  import opened Numbers

  /** Typed parse of the skeleton. */
  datatype OcamlProof = OcamlProof(
    rawPlonk: PlonkMinimal,
    rawBulletproofChallenges: StepChals,
    branchData: BranchData,
    spongeDigestBeforeEvaluations: StepField,
    challengePolynomialCommitment: VestaPoint,
    stepDomainLog2: nat,
    prevEvals: ChunkedAllEvals,
    pEval0Chunks: seq<StepField>,
    prevStepSgs: seq<PallasPoint>,
    prevStepChalsRaw: seq<StepChals>,
    prevWrapChalsRaw: seq<WrapChals>)

  // --------------------------------------------------------------------------
  // Leaves
  // --------------------------------------------------------------------------

  function Get(v: Json, key: string): Parsed<Json> {
    if v.Obj? && key in v.fields then Ok(v.fields[key]) else Err(MissingKey(key))
  }

  function AsVec(v: Json): Parsed<seq<Json>> {
    if v.Arr? then Ok(v.items) else Err(ExpectedArray)
  }

  /** A raw challenge `[lo, hi]`, or a scalar challenge `{ "inner": [lo, hi] }`. */
  function Challenge(m: Modulus, v: Json): (r: Parsed<nat>)
    ensures r.Ok? ==> r.value < m
  {
    if v.Arr? then FieldOfLimbs(m, v.items)
    else
      var inner :- Get(v, "inner");
      var limbs :- AsVec(inner);
      FieldOfLimbs(m, limbs)
  }

  function BeHex(m: Modulus, v: Json): (r: Parsed<nat>)
    ensures r.Ok? ==> r.value < m
  {
    if v.Str? then FieldOfHex(m, v.s) else Err(ExpectedString)
  }

  function StepHex(v: Json): Parsed<StepField> {
    BeHex(P, v)
  }

  function ParseVestaPoint(v: Json): Parsed<VestaPoint> {
    var a :- AsVec(v);
    if |a| != 2 then Err(WrongCount(2, |a|))
    else
      var x :- BeHex(Q, a[0]);
      var y :- BeHex(Q, a[1]);
      Ok(VestaPoint(x, y))
  }

  function ParsePallasPoint(v: Json): Parsed<PallasPoint> {
    var a :- AsVec(v);
    if |a| != 2 then Err(WrongCount(2, |a|))
    else
      var x :- BeHex(P, a[0]);
      var y :- BeHex(P, a[1]);
      Ok(PallasPoint(x, y))
  }

  /** `["N0" | "N1" | "N2"]` to the prefix mask; further elements are not looked at. */
  function ProofsVerifiedMask(v: Json): (r: Parsed<(bool, bool)>)
    ensures r.Ok? <==> v.Arr? && v.items != [] && v.items[0].Str? && v.items[0].s in {"N0", "N1", "N2"}
    ensures r.Ok? ==> (r.value.0 <==> v.items[0].s == "N2")
    ensures r.Ok? ==> (r.value.1 <==> v.items[0].s != "N0")
    ensures r.Err? ==> r.error == if v.Arr? then BadTag else ExpectedArray
  {
    var a :- AsVec(v);
    if a == [] || !a[0].Str? then Err(BadTag)
    else if a[0].s == "N0" then Ok((false, false))
    else if a[0].s == "N1" then Ok((false, true))
    else if a[0].s == "N2" then Ok((true, true))
    else Err(BadTag)
  }

  /** The first character of a string, truncated to a byte. */
  function OcamlByte(v: Json): (r: Parsed<nat>)
    ensures r.Ok? ==> r.value < 256
  {
    if !v.Str? then Err(ExpectedString)
    else if v.s == "" then Err(EmptyString)
    else Ok(v.s[0] as int % 256)
  }

  /** The byte is the character exactly when the character is one. */
  lemma {:induction false} OcamlByteExact(s: string)
    requires s != ""
    ensures OcamlByte(Str(s)) == Ok(s[0] as int) <==> s[0] as int < 256
  {
  }

  /** The other bytes: a wide character is cut to its low byte, and anything but a character is an error. */
  lemma {:induction false} OcamlByteOtherwise(v: Json)
    ensures OcamlByte(Str(['\U{0150}'])) == Ok(0x50)
    ensures OcamlByte(v).Ok? <==> v.Str? && v.s != ""
    ensures OcamlByte(v).Err? ==> OcamlByte(v).error == if v.Str? then EmptyString else ExpectedString
  {
  }

  function Prechallenge(m: Modulus, v: Json): (r: Parsed<nat>)
    ensures r.Ok? ==> r.value < m
  {
    var c :- Get(v, "prechallenge");
    Challenge(m, c)
  }

  function Prechallenges(m: Modulus, a: seq<Json>): (r: Parsed<seq<nat>>)
    ensures r.Ok? ==> |r.value| == |a| && forall i | 0 <= i < |a| :: Prechallenge(m, a[i]) == Ok(r.value[i])
  {
    Collect(v => Prechallenge(m, v), a)
  }

  /** `bulletproof_vec::<F, N>`. */
  function BulletproofsOf(m: Modulus, n: nat, v: Json): (r: Parsed<seq<nat>>)
    ensures r.Ok? ==> |r.value| == n && forall i | 0 <= i < n :: r.value[i] < m
  {
    var a :- AsVec(v);
    if |a| != n then Err(WrongCount(n, |a|)) else Prechallenges(m, a)
  }

  method BulletproofVec(m: Modulus, n: nat, v: Json) returns (r: Parsed<seq<nat>>)
    ensures r == BulletproofsOf(m, n, v)
  {
    hide Prechallenge;
    var a :- AsVec(v);
    if |a| != n {
      return Err(WrongCount(n, |a|));
    }
    var out: seq<nat> := [];
    var i := 0;
    while i < |a|
      invariant 0 <= i <= |a| && |out| == i
      invariant forall j | 0 <= j < i :: Prechallenge(m, a[j]) == Ok(out[j])
    {
      var c := Prechallenge(m, a[i]);
      if c.Err? {
        CollectFirstError(u => Prechallenge(m, u), a, i);
        return Err(c.error);
      }
      out := out + [c.value];
      i := i + 1;
    }
    CollectOk(u => Prechallenge(m, u), a, out);
    r := Ok(out);
  }

  lemma {:induction false} CollectFirstError<T, U, E>(f: T -> Result<U, E>, xs: seq<T>, i: nat)
    requires i < |xs| && f(xs[i]).Err?
    requires forall j | 0 <= j < i :: f(xs[j]).Ok?
    ensures Collect(f, xs) == Err(f(xs[i]).error)
  {
    if i > 0 {
      CollectFirstError(f, xs[1..], i - 1);
    }
  }

  function StepBulletproofs(v: Json): Parsed<StepChals> {
    var xs :- BulletproofsOf(P, STEP_IPA_ROUNDS, v);
    Ok(xs)
  }

  function WrapBulletproofs(v: Json): Parsed<WrapChals> {
    var xs :- BulletproofsOf(Q, WRAP_IPA_ROUNDS, v);
    Ok(xs)
  }

  // --------------------------------------------------------------------------
  // Evaluations
  // --------------------------------------------------------------------------

  /** The public-input evaluation, a single chunk: `[zeta, zeta_omega]`. */
  function PointEvalFlat(v: Json): (r: Parsed<PointEvals>)
    ensures r.Ok? ==> |r.value.zeta| == |r.value.zetaOmega| == 1
  {
    var a :- AsVec(v);
    if |a| != 2 then Err(WrongCount(2, |a|))
    else
      var x: StepField :- BeHex(P, a[0]);
      var y: StepField :- BeHex(P, a[1]);
      Ok(PointEvals([x], [y]))
  }

  /** A column: `[[zeta chunks], [zeta_omega chunks]]`. */
  function PointEvalChunked(v: Json): (r: Parsed<PointEvals>)
    ensures r.Ok? ==> EqualChunks(r.value)
  {
    var a :- AsVec(v);
    if |a| != 2 then Err(WrongCount(2, |a|))
    else
      var zs :- AsVec(a[0]);
      var zeta :- Collect(StepHex, zs);
      var os :- AsVec(a[1]);
      var zetaOmega :- Collect(StepHex, os);
      if |zeta| != |zetaOmega| then Err(ChunkMismatch) else Ok(PointEvals(zeta, zetaOmega))
  }

  function FixedChunked(n: nat, v: Json): (r: Parsed<seq<PointEvals>>)
    ensures r.Ok? ==> |r.value| == n && AllEqualChunks(r.value)
  {
    var a :- AsVec(v);
    if |a| != n then Err(WrongCount(n, |a|))
    else
      var out :- Collect(PointEvalChunked, a);
      assert forall i | 0 <= i < |out| :: PointEvalChunked(a[i]) == Ok(out[i]);
      Ok(out)
  }

  function ColumnAt(inner: Json, key: string): (r: Parsed<PointEvals>)
    ensures r.Ok? ==> EqualChunks(r.value)
  {
    var v :- Get(inner, key);
    PointEvalChunked(v)
  }

  function ColumnsAt(inner: Json, key: string, n: nat): (r: Parsed<seq<PointEvals>>)
    ensures r.Ok? ==> |r.value| == n && AllEqualChunks(r.value)
  {
    var v :- Get(inner, key);
    FixedChunked(n, v)
  }

  /** The six index columns, in the order the verifier names them. */
  const SELECTOR_KEYS := ["generic_selector", "poseidon_selector", "complete_add_selector",
                          "mul_selector", "emul_selector", "endomul_scalar_selector"]

  function ParseIndex(inner: Json): (r: Parsed<Columns6>)
    ensures r.Ok? ==> forall i | 0 <= i < 6 :: ColumnAt(inner, SELECTOR_KEYS[i]) == Ok(r.value[i])
    ensures r.Ok? ==> AllEqualChunks(r.value)
  {
    var columns :- Collect(key => ColumnAt(inner, key), SELECTOR_KEYS);
    assert forall i | 0 <= i < 6 :: ColumnAt(inner, SELECTOR_KEYS[i]) == Ok(columns[i]);
    Ok(columns)
  }

  function ParseAllEvals(v: Json): (r: Parsed<ChunkedAllEvals>)
    ensures r.Ok? ==> EqualChunkCounts(r.value) && |r.value.publicEvals.zeta| == 1
  {
    var ftEval1J :- Get(v, "ft_eval1");
    var ftEval1: StepField :- BeHex(P, ftEval1J);
    var evalsObj :- Get(v, "evals");
    var publicJ :- Get(evalsObj, "public_input");
    var publicEvals :- PointEvalFlat(publicJ);
    var inner :- Get(evalsObj, "evals");
    var z :- ColumnAt(inner, "z");
    var w :- ColumnsAt(inner, "w", 15);
    var coefficients :- ColumnsAt(inner, "coefficients", 15);
    var s :- ColumnsAt(inner, "s", 6);
    var index :- ParseIndex(inner);
    Ok(ChunkedAllEvals(ftEval1, publicEvals, z, w, coefficients, s, index))
  }

  // --------------------------------------------------------------------------
  // What the decoders accept
  // --------------------------------------------------------------------------

  /** Exactly `n` prechallenges, each of which decodes, in their order. */
  lemma {:induction false} BulletproofsExact(m: Modulus, n: nat, v: Json)
    ensures var r := BulletproofsOf(m, n, v);
            && (r.Ok? <==> v.Arr? && |v.items| == n && forall i | 0 <= i < n :: Prechallenge(m, v.items[i]).Ok?)
            && (r.Ok? ==> forall i | 0 <= i < n :: Prechallenge(m, v.items[i]) == Ok(r.value[i]))
            && (v.Arr? && |v.items| != n ==> r == Err(WrongCount(n, |v.items|)))
  {
    hide Prechallenge;
    if v.Arr? {
      CollectSucceeds(u => Prechallenge(m, u), v.items);
    }
  }

  /** Exactly two coordinates, `x` first. */
  lemma {:induction false} PointsExact(v: Json)
    ensures var r := ParseVestaPoint(v);
            && (r.Ok? <==> v.Arr? && |v.items| == 2 && BeHex(Q, v.items[0]).Ok? && BeHex(Q, v.items[1]).Ok?)
            && (r.Ok? ==> BeHex(Q, v.items[0]) == Ok(r.value.x) && BeHex(Q, v.items[1]) == Ok(r.value.y))
    ensures var r := ParsePallasPoint(v);
            && (r.Ok? <==> v.Arr? && |v.items| == 2 && BeHex(P, v.items[0]).Ok? && BeHex(P, v.items[1]).Ok?)
            && (r.Ok? ==> BeHex(P, v.items[0]) == Ok(r.value.x) && BeHex(P, v.items[1]) == Ok(r.value.y))
  {
    hide BeHex;
  }

  /** A list of hex elements, and the elements it decodes to. */
  predicate HexList(v: Json, xs: seq<StepField>) {
    v.Arr? && |v.items| == |xs| && forall i | 0 <= i < |xs| :: StepHex(v.items[i]) == Ok(xs[i])
  }

  predicate IsHexList(v: Json) {
    v.Arr? && forall i | 0 <= i < |v.items| :: StepHex(v.items[i]).Ok?
  }

  /** A column: exactly two lists of hex elements, equally long, zeta's first. */
  lemma {:induction false} ColumnExact(v: Json)
    ensures var r := PointEvalChunked(v);
            && (r.Ok? <==> && v.Arr? && |v.items| == 2 && IsHexList(v.items[0]) && IsHexList(v.items[1])
                           && |v.items[0].items| == |v.items[1].items|)
            && (r.Ok? ==> HexList(v.items[0], r.value.zeta) && HexList(v.items[1], r.value.zetaOmega))
  {
    hide StepHex;
    if v.Arr? && |v.items| == 2 && v.items[0].Arr? {
      CollectSucceeds(StepHex, v.items[0].items);
      if v.items[1].Arr? {
        CollectSucceeds(StepHex, v.items[1].items);
      }
    }
  }

  /** A block of columns: exactly `n`, in their order; and the public evaluation: two single chunks. */
  lemma {:induction false} ColumnsExact(n: nat, v: Json)
    ensures var r := FixedChunked(n, v);
            && (r.Ok? <==> v.Arr? && |v.items| == n && forall i | 0 <= i < n :: PointEvalChunked(v.items[i]).Ok?)
            && (r.Ok? ==> forall i | 0 <= i < n :: PointEvalChunked(v.items[i]) == Ok(r.value[i]))
    ensures var r := PointEvalFlat(v);
            && (r.Ok? <==> v.Arr? && |v.items| == 2 && BeHex(P, v.items[0]).Ok? && BeHex(P, v.items[1]).Ok?)
            && (r.Ok? ==> BeHex(P, v.items[0]) == Ok(r.value.zeta[0]))
            && (r.Ok? ==> BeHex(P, v.items[1]) == Ok(r.value.zetaOmega[0]))
  {
    hide PointEvalChunked, BeHex;
    if v.Arr? {
      CollectSucceeds(PointEvalChunked, v.items);
    }
  }

  // --------------------------------------------------------------------------
  // The skeleton
  // --------------------------------------------------------------------------

  function ChallengeAt(plonk: Json, key: string): (r: Parsed<StepField>) {
    var v :- Get(plonk, key);
    var c :- Challenge(P, v);
    Ok(c)
  }

  function ParsePlonk(plonk: Json): Parsed<PlonkMinimal> {
    var alpha :- ChallengeAt(plonk, "alpha");
    var beta :- ChallengeAt(plonk, "beta");
    var gamma :- ChallengeAt(plonk, "gamma");
    var zeta :- ChallengeAt(plonk, "zeta");
    Ok(PlonkMinimal(alpha, beta, gamma, zeta))
  }

  /** The branch data, whose `domain_log2` is also the step domain's. */
  function ParseBranchData(j: Json): (r: Parsed<BranchData>)
    ensures r.Ok? ==> r.value.domainLog2 < 256 && !(r.value.mask0 && !r.value.mask1)
  {
    var log2J :- Get(j, "domain_log2");
    var log2 :- OcamlByte(log2J);
    var maskJ :- Get(j, "proofs_verified");
    var mask :- ProofsVerifiedMask(maskJ);
    Ok(BranchData(log2, mask.0, mask.1))
  }

  datatype DeferredPart = DeferredPart(plonk: PlonkMinimal, bulletproofs: StepChals, branch: BranchData)

  function ParseDeferred(deferred: Json): (r: Parsed<DeferredPart>)
    ensures r.Ok? ==> r.value.branch.domainLog2 < 256 && !(r.value.branch.mask0 && !r.value.branch.mask1)
  {
    var plonkJ :- Get(deferred, "plonk");
    var plonk :- ParsePlonk(plonkJ);
    var chalsJ :- Get(deferred, "bulletproof_challenges");
    var chals :- StepBulletproofs(chalsJ);
    var branchJ :- Get(deferred, "branch_data");
    var branch :- ParseBranchData(branchJ);
    Ok(DeferredPart(plonk, chals, branch))
  }

  function ParseSpongeDigest(proofState: Json): Parsed<StepField> {
    var v :- Get(proofState, "sponge_digest_before_evaluations");
    var limbs :- AsVec(v);
    var x :- FieldOfLimbs(P, limbs);
    Ok(x)
  }

  function ListAt<T>(v: Json, key: string, f: Json -> Parsed<T>): Parsed<seq<T>> {
    var j :- Get(v, key);
    var a :- AsVec(j);
    Collect(f, a)
  }

  function CommitmentAt(msgWrap: Json): Parsed<VestaPoint> {
    var v :- Get(msgWrap, "challenge_polynomial_commitment");
    ParseVestaPoint(v)
  }

  /** `OcamlProof::parse`, after the JSON text has become a tree. */
  function Parse(root: Json): Parsed<OcamlProof> {
    var statement :- Get(root, "statement");
    var proofState :- Get(statement, "proof_state");
    var deferredJ :- Get(proofState, "deferred_values");
    var deferred :- ParseDeferred(deferredJ);
    var spongeDigest :- ParseSpongeDigest(proofState);
    var msgWrap :- Get(proofState, "messages_for_next_wrap_proof");
    var commitment :- CommitmentAt(msgWrap);
    var msgStep :- Get(statement, "messages_for_next_step_proof");
    var sgs :- ListAt(msgStep, "challenge_polynomial_commitments", ParsePallasPoint);
    var stepChals :- ListAt(msgStep, "old_bulletproof_challenges", StepBulletproofs);
    var wrapChals :- ListAt(msgWrap, "old_bulletproof_challenges", WrapBulletproofs);
    var evalsJ :- Get(root, "prev_evals");
    var evals :- ParseAllEvals(evalsJ);
    Ok(OcamlProof(deferred.plonk, deferred.bulletproofs, deferred.branch, spongeDigest, commitment,
      deferred.branch.domainLog2, evals, evals.publicEvals.zeta, sgs, stepChals, wrapChals))
  }

  // --------------------------------------------------------------------------
  // Shape of every successful parse
  // --------------------------------------------------------------------------

  /** The invariants a parse establishes beyond the field and array types. */
  predicate WellShaped(p: OcamlProof) {
    && EqualChunkCounts(p.prevEvals)
    && |p.prevEvals.publicEvals.zeta| == 1
    && p.pEval0Chunks == p.prevEvals.publicEvals.zeta
    && !(p.branchData.mask0 && !p.branchData.mask1)
    && p.branchData.domainLog2 == p.stepDomainLog2 < 256
  }

  lemma {:induction false} ParseShape(root: Json)
    requires Parse(root).Ok?
    ensures WellShaped(Parse(root).value)
  {
    hide ParseSpongeDigest, CommitmentAt, ListAt, Get, ParseDeferred, ParseAllEvals, EqualChunkCounts;
  }
}
