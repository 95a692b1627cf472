/**
 The wrap public input: the expanded deferred values carried from the step field to the wrap field
 and flattened into 40 elements, from which all of them can be recovered.
 */
module Deferred {
  import opened Wrappers
  import opened Bytes
  import opened Fields
  import opened Types

  datatype ExpandedDeferredValues = ExpandedDeferredValues(
    alpha: StepField, beta: StepField, gamma: StepField, zeta: StepField,
    perm: StepField, zetaToDomainSize: StepField, zetaToSrsLength: StepField,
    combinedInnerProduct: StepField, xi: StepField,
    bulletproofPrechallenges: StepChals, b: StepField, newBulletproofChallenges: StepChals,
    branchData: BranchData, spongeDigestBeforeEvaluations: StepField, r: StepField, ftEval0: StepField)

  // --------------------------------------------------------------------------
  // Crossing from the step field to the wrap field
  // --------------------------------------------------------------------------

  /** `fp_to_fq`: the canonical integer's 32 bytes, reduced into the wrap field. */
  function FpToFq(x: StepField): WrapField {
    FromLeBytesModOrder(Q, LeBytes(x, 32))
  }

  /** Exact on the whole step field, because its modulus is the smaller one. */
  lemma {:induction false} FpToFqExact(x: StepField)
    ensures FpToFq(x) == x
  {
    Pow256Constants();
    ValueOfBytes(x, 32);
    ModOrderIsReduction(Q, LeBytes(x, 32));
    ReduceUnique(Q, 0, x);
  }

  /** Two has an inverse modulo any odd modulus. */
  lemma {:induction false} TwoInvertible(m: Modulus)
    requires m % 2 == 1
    ensures Inverse(m, 2).Some?
  {
  }

  const TYPE1_BITS: nat := 255

  /** The Type1 shift constant `2^255 + 1`, computed in the step field. */
  function Type1Shift(): StepField {
    Add(P, Pow(P, 2, TYPE1_BITS), 1)
  }

  function Type1Scale(): StepField {
    TwoInvertible(P);
    Inverse(P, 2).value
  }

  /** `cross_field_type1`: `(raw - (2^255 + 1)) / 2` in the step field, carried to the wrap field. */
  function CrossFieldType1(raw: StepField): WrapField {
    FpToFq(Mul(P, Sub(P, raw, Type1Shift()), Type1Scale()))
  }

  /** The raw scalar a Type1 representative stands for. */
  function RawOfType1(t: nat): StepField {
    Reduce(P, 2 * t + Pow2(255) + 1)
  }

  lemma {:induction false} Type1ShiftValue(x: int)
    ensures Reduce(P, x + Type1Shift()) == Reduce(P, x + Pow2(255) + 1)
  {
    hide Reduce, Pow, Pow2;
    PowOfTwo(P, TYPE1_BITS);
    var two := Pow2(TYPE1_BITS);
    ReduceInAdd(P, Reduce(P, two) + 1, x);
    ReduceInAdd(P, two, 1 + x);
  }

  /** Halving in a field of odd order: doubling the result gives the input back. */
  lemma {:induction false} HalveDouble(m: Modulus, x: nat, half: nat)
    requires Mul(m, 2, half) == 1
    ensures Reduce(m, 2 * Mul(m, x, half)) == Reduce(m, x)
  {
    ReduceInMulRight(m, 2, x * half);
    assert 2 * (x * half) == (2 * half) * x;
    ReduceInMul(m, 2 * half, x);
    assert 1 * x == x;
  }

  lemma {:induction false} HalfCancels(m: Modulus, half: nat, s: nat)
    requires Mul(m, 2, half) == 1 && s < m
    ensures Mul(m, half, Reduce(m, 2 * s)) == s
  {
    hide Reduce;
    ReduceInMulRight(m, half, 2 * s);
    assert half * (2 * s) == (2 * half) * s;
    ReduceInMul(m, 2 * half, s);
    assert 1 * s == s;
    ReduceUnique(m, 0, s);
  }

  /** Doubling and shifting is injective below an odd modulus. */
  lemma {:induction false} DoubleInjective(m: Modulus, s: nat, t: nat, c: int)
    requires m % 2 == 1 && s < m && t < m
    requires Reduce(m, 2 * s + c) == Reduce(m, 2 * t + c)
    ensures s == t
  {
    hide Reduce;
    TwoInvertible(m);
    var half := Inverse(m, 2).value;
    Congruent(m, 2 * s + c, 2 * t + c);
    Congruent(m, 2 * s, 2 * t);
    HalfCancels(m, half, s);
    HalfCancels(m, half, t);
  }

  /**
   `cross_field_type1` is the unique integer `t` below the step modulus with
   `2t + 2^255 + 1` congruent to the raw value, carried into the wrap field without loss.
   */
  lemma {:induction false} Type1Unique(raw: StepField, t: nat)
    requires t < P
    ensures CrossFieldType1(raw) < P && RawOfType1(CrossFieldType1(raw)) == raw
    ensures RawOfType1(t) == raw <==> t == CrossFieldType1(raw)
  {
    hide Reduce, FpToFq, Type1Scale, Type1Shift, Pow2;
    var c := Type1Shift();
    var d := Sub(P, raw, c);
    var u := Mul(P, d, Type1Scale());
    FpToFqExact(u);
    assert Mul(P, 2, Type1Scale()) == 1 by { ScaleIsHalf(); }
    HalveDouble(P, d, Type1Scale());
    assert Reduce(P, 2 * u + c) == raw by {
      ReduceInAdd(P, 2 * u, c);
      ReduceInAdd(P, d, c);
      ReduceInAdd(P, raw - c, c);
      ReduceUnique(P, 0, raw);
    }
    Type1ShiftValue(2 * u);
    if RawOfType1(t) == raw {
      DoubleInjective(P, t, u, Pow2(255) + 1);
    }
  }

  lemma {:induction false} ScaleIsHalf()
    ensures Mul(P, 2, Type1Scale()) == 1
  {
  }

  /** Every integer below the step modulus is the Type1 representative of its raw scalar. */
  lemma {:induction false} Type1Onto(t: nat)
    requires t < P
    ensures CrossFieldType1(RawOfType1(t)) == t
  {
    hide CrossFieldType1, RawOfType1;
    Type1Unique(RawOfType1(t), t);
  }

  // --------------------------------------------------------------------------
  // Branch data
  // --------------------------------------------------------------------------

  function Bit(b: bool): nat {
    if b then 1 else 0
  }

  /** `pack_branch_data`: `4 * domain_log2 + m0 + 2 * m1` in the wrap field. */
  function PackBranchData(bd: BranchData): WrapField {
    Add(Q, Add(Q, Mul(Q, 4, FpToFq(bd.domainLog2)), Bit(bd.mask0)), Mul(Q, 2, Bit(bd.mask1)))
  }

  /** The branch data a packed integer reads as. */
  function UnpackBranchData(v: nat): BranchData {
    BranchData(Reduce(P, v / 4), v % 2 == 1, v / 2 % 2 == 1)
  }

  function BranchNumber(bd: BranchData): nat {
    4 * bd.domainLog2 + Bit(bd.mask0) + 2 * Bit(bd.mask1)
  }

  lemma {:induction false} PackedValue(bd: BranchData)
    ensures PackBranchData(bd) == Reduce(Q, BranchNumber(bd))
  {
    hide Reduce, FpToFq;
    FpToFqExact(bd.domainLog2);
    var l, b0, b1 := 4 * bd.domainLog2, Bit(bd.mask0), 2 * Bit(bd.mask1);
    ReduceInAdd(Q, l, b0);
    ReduceInAdd(Q, l + b0, Reduce(Q, b1));
    ReduceInAdd(Q, b1, l + b0);
  }

  lemma {:induction false} UnpackedNumber(v: nat)
    requires v < Q
    ensures BranchNumber(UnpackBranchData(v)) == v
  {
    assert v / 4 < P;
    ReduceUnique(P, 0, v / 4);
  }

  lemma {:induction false} NumberDigits(l: nat, b0: nat, b1: nat)
    requires b0 < 2 && b1 < 2
    ensures var n := 4 * l + b0 + 2 * b1; n / 4 == l && n % 2 == b0 && n / 2 % 2 == b1
  {
  }

  lemma {:induction false} NumberUnpacked(bd: BranchData)
    ensures UnpackBranchData(BranchNumber(bd)) == bd
  {
    hide Reduce;
    NumberDigits(bd.domainLog2, Bit(bd.mask0), Bit(bd.mask1));
    ReduceUnique(P, 0, bd.domainLog2);
  }

  /** Unpacking recovers the branch data exactly when the packed integer does not wrap. */
  lemma {:induction false} BranchDataExact(bd: BranchData)
    ensures UnpackBranchData(PackBranchData(bd)) == bd <==> BranchNumber(bd) < Q
  {
    hide PackBranchData, UnpackBranchData, BranchNumber;
    PackedValue(bd);
    UnpackedNumber(PackBranchData(bd));
    NumberUnpacked(bd);
    if BranchNumber(bd) < Q {
      ReduceUnique(Q, 0, BranchNumber(bd));
    }
  }

  /** The guard is needed: these two branches pack to the same element. */
  lemma {:induction false} BranchDataCollision()
    ensures var bd := BranchData((Q - 1) / 4, true, false);
            && BranchNumber(bd) == Q
            && PackBranchData(bd) == PackBranchData(BranchData(0, false, false))
  {
    hide PackBranchData, Reduce;
    PackedValue(BranchData((Q - 1) / 4, true, false));
    PackedValue(BranchData(0, false, false));
    ReduceUnique(Q, 1, 0);
    ReduceUnique(Q, 0, 0);
  }

  // --------------------------------------------------------------------------
  // The wrap public input
  // --------------------------------------------------------------------------

  const PUBLIC_INPUT_SIZE: nat := 40

  type PublicInput = s: seq<WrapField> | |s| == PUBLIC_INPUT_SIZE witness seq(PUBLIC_INPUT_SIZE, _ => 0)

  /** The five Type1 scalars. */
  function ScalarFields(dv: ExpandedDeferredValues): (s: seq<WrapField>)
    ensures |s| == 5
  {
    [CrossFieldType1(dv.combinedInnerProduct), CrossFieldType1(dv.b),
     CrossFieldType1(dv.zetaToSrsLength), CrossFieldType1(dv.zetaToDomainSize), CrossFieldType1(dv.perm)]
  }

  /** The five challenges. */
  function ChallengeFields(dv: ExpandedDeferredValues): (s: seq<WrapField>)
    ensures |s| == 5
  {
    [FpToFq(dv.beta), FpToFq(dv.gamma), FpToFq(dv.alpha), FpToFq(dv.zeta), FpToFq(dv.xi)]
  }

  /** The sponge digest, the wrap message digest and the step message digest. */
  function DigestFields(dv: ExpandedDeferredValues, stepDigest: StepField, wrapDigest: WrapField): (s: seq<WrapField>)
    ensures |s| == 3
  {
    [FpToFq(dv.spongeDigestBeforeEvaluations), wrapDigest, FpToFq(stepDigest)]
  }

  /** The feature-flag and lookup slots, all zero. */
  function UnusedFields(): (s: seq<WrapField>)
    ensures |s| == 10 && forall i | 0 <= i < 10 :: s[i] == 0
  {
    seq(10, _ => 0)
  }

  /** `wrap_public_input`, element by element. */
  function PublicInputOf(dv: ExpandedDeferredValues, stepDigest: StepField, wrapDigest: WrapField): PublicInput {
    ScalarFields(dv) + ChallengeFields(dv) + DigestFields(dv, stepDigest, wrapDigest)
    + Map(FpToFq, dv.bulletproofPrechallenges) + [PackBranchData(dv.branchData)] + UnusedFields()
  }

  method WrapPublicInput(dv: ExpandedDeferredValues, stepDigest: StepField, wrapDigest: WrapField)
    returns (pi: seq<WrapField>)
    ensures pi == PublicInputOf(dv, stepDigest, wrapDigest)
  {
    hide FpToFq, CrossFieldType1, PackBranchData;
    pi := [];
    pi := pi + [CrossFieldType1(dv.combinedInnerProduct)];
    pi := pi + [CrossFieldType1(dv.b)];
    pi := pi + [CrossFieldType1(dv.zetaToSrsLength)];
    pi := pi + [CrossFieldType1(dv.zetaToDomainSize)];
    pi := pi + [CrossFieldType1(dv.perm)];
    pi := pi + [FpToFq(dv.beta)];
    pi := pi + [FpToFq(dv.gamma)];
    pi := pi + [FpToFq(dv.alpha)];
    pi := pi + [FpToFq(dv.zeta)];
    pi := pi + [FpToFq(dv.xi)];
    pi := pi + [FpToFq(dv.spongeDigestBeforeEvaluations)];
    pi := pi + [wrapDigest];
    pi := pi + [FpToFq(stepDigest)];
    ghost var front := pi;
    var chals := dv.bulletproofPrechallenges;
    var i := 0;
    while i < |chals|
      invariant 0 <= i <= |chals|
      invariant pi == front + Map(FpToFq, chals[..i])
    {
      pi := pi + [FpToFq(chals[i])];
      assert chals[..i + 1] == chals[..i] + [chals[i]];
      assert Map(FpToFq, chals[..i + 1]) == Map(FpToFq, chals[..i]) + [FpToFq(chals[i])];
      i := i + 1;
    }
    assert chals[..i] == chals;
    pi := pi + [PackBranchData(dv.branchData)];
    pi := pi + UnusedFields();
  }

  /** Everything the public input says, before the crossing. */
  datatype Statement = Statement(
    combinedInnerProduct: StepField, b: StepField, zetaToSrsLength: StepField,
    zetaToDomainSize: StepField, perm: StepField,
    beta: StepField, gamma: StepField, alpha: StepField, zeta: StepField, xi: StepField,
    spongeDigest: StepField, wrapDigest: WrapField, stepDigest: StepField,
    prechallenges: StepChals)

  function StatementOf(dv: ExpandedDeferredValues, stepDigest: StepField, wrapDigest: WrapField): Statement {
    Statement(dv.combinedInnerProduct, dv.b, dv.zetaToSrsLength, dv.zetaToDomainSize, dv.perm,
      dv.beta, dv.gamma, dv.alpha, dv.zeta, dv.xi,
      dv.spongeDigestBeforeEvaluations, wrapDigest, stepDigest, dv.bulletproofPrechallenges)
  }

  /** Reading a wrap element back as a step element. */
  function FqToFp(v: WrapField): StepField {
    Reduce(P, v)
  }

  /** The inverse of the flattening, on any 40 elements. */
  function RecoverStatement(pi: PublicInput): Statement {
    Statement(RawOfType1(pi[0]), RawOfType1(pi[1]), RawOfType1(pi[2]), RawOfType1(pi[3]), RawOfType1(pi[4]),
      FqToFp(pi[5]), FqToFp(pi[6]), FqToFp(pi[7]), FqToFp(pi[8]), FqToFp(pi[9]),
      FqToFp(pi[10]), pi[11], FqToFp(pi[12]), Map(FqToFp, pi[13..29]))
  }

  function RecoverBranch(pi: PublicInput): BranchData {
    UnpackBranchData(pi[29])
  }

  lemma {:induction false} CrossingInverts(x: StepField)
    ensures FqToFp(FpToFq(x)) == x
  {
    FpToFqExact(x);
    ReduceUnique(P, 0, x);
  }

  lemma {:induction false} PrechallengesInvert(chals: StepChals)
    ensures Map(FqToFp, Map(FpToFq, chals)) == chals
  {
    hide FqToFp, FpToFq;
    var out := Map(FqToFp, Map(FpToFq, chals));
    forall i | 0 <= i < |chals|
      ensures out[i] == chals[i]
    {
      CrossingInverts(chals[i]);
    }
  }

  /** Positions of the public input: the 13 leading elements, the prechallenges, branch data, zeros. */
  lemma {:induction false} PublicInputLayout(dv: ExpandedDeferredValues, stepDigest: StepField, wrapDigest: WrapField)
    ensures var pi := PublicInputOf(dv, stepDigest, wrapDigest);
            && pi[13..29] == Map(FpToFq, dv.bulletproofPrechallenges)
            && pi[29] == PackBranchData(dv.branchData)
            && (forall i | 30 <= i < 40 :: pi[i] == 0)
  {
    hide FpToFq, CrossFieldType1, PackBranchData;
  }

  /**
   The flattening loses nothing: every scalar, challenge and digest comes back for every input,
   and the branch data comes back if and only if `4 * domain_log2 + mask` is below the wrap modulus.
   */
  lemma {:induction false} PublicInputInvertible(
    dv: ExpandedDeferredValues, stepDigest: StepField, wrapDigest: WrapField)
    ensures var pi := PublicInputOf(dv, stepDigest, wrapDigest);
            && RecoverStatement(pi) == StatementOf(dv, stepDigest, wrapDigest)
            && (RecoverBranch(pi) == dv.branchData <==> BranchNumber(dv.branchData) < Q)
  {
    hide FpToFq, FqToFp, CrossFieldType1, RawOfType1, PackBranchData, UnpackBranchData, BranchNumber;
    PublicInputLayout(dv, stepDigest, wrapDigest);
    PrechallengesInvert(dv.bulletproofPrechallenges);
    BranchDataExact(dv.branchData);
    Type1Unique(dv.combinedInnerProduct, 0);
    Type1Unique(dv.b, 0);
    Type1Unique(dv.zetaToSrsLength, 0);
    Type1Unique(dv.zetaToDomainSize, 0);
    Type1Unique(dv.perm, 0);
    CrossingInverts(dv.beta);
    CrossingInverts(dv.gamma);
    CrossingInverts(dv.alpha);
    CrossingInverts(dv.zeta);
    CrossingInverts(dv.xi);
    CrossingInverts(dv.spongeDigestBeforeEvaluations);
    CrossingInverts(stepDigest);
  }

  /**
   Hence two inputs have one public input exactly when they agree on the whole statement and pack
   congruent branch numbers, which below the wrap modulus means the same branch data.
   */
  lemma {:induction false} PublicInputInjective(
    dv: ExpandedDeferredValues, stepDigest: StepField, wrapDigest: WrapField,
    dv': ExpandedDeferredValues, stepDigest': StepField, wrapDigest': WrapField)
    ensures var n, n' := BranchNumber(dv.branchData), BranchNumber(dv'.branchData);
            && (PublicInputOf(dv, stepDigest, wrapDigest) == PublicInputOf(dv', stepDigest', wrapDigest')
                <==> && StatementOf(dv, stepDigest, wrapDigest) == StatementOf(dv', stepDigest', wrapDigest')
                     && Reduce(Q, n) == Reduce(Q, n'))
            && (n < Q && n' < Q ==> (Reduce(Q, n) == Reduce(Q, n') <==> dv.branchData == dv'.branchData))
  {
    hide PublicInputOf, RecoverStatement, StatementOf, BranchNumber, UnpackBranchData, Reduce;
    PublicInputInvertible(dv, stepDigest, wrapDigest);
    PublicInputInvertible(dv', stepDigest', wrapDigest');
    BranchElement(dv, stepDigest, wrapDigest);
    BranchElement(dv', stepDigest', wrapDigest');
    NumberUnpacked(dv.branchData);
    NumberUnpacked(dv'.branchData);
    if BranchNumber(dv.branchData) < Q && BranchNumber(dv'.branchData) < Q {
      ReduceUnique(Q, 0, BranchNumber(dv.branchData));
      ReduceUnique(Q, 0, BranchNumber(dv'.branchData));
    }
    if StatementOf(dv, stepDigest, wrapDigest) == StatementOf(dv', stepDigest', wrapDigest') {
      PublicInputDetermined(dv, stepDigest, wrapDigest, dv', stepDigest', wrapDigest');
    }
  }

  lemma {:induction false} BranchElement(dv: ExpandedDeferredValues, stepDigest: StepField, wrapDigest: WrapField)
    ensures PublicInputOf(dv, stepDigest, wrapDigest)[29] == Reduce(Q, BranchNumber(dv.branchData))
  {
    hide FpToFq, CrossFieldType1, PackBranchData, BranchNumber, Reduce;
    PublicInputLayout(dv, stepDigest, wrapDigest);
    PackedValue(dv.branchData);
  }

  /** The public input reads nothing but the statement and the packed branch data. */
  lemma {:induction false} PublicInputDetermined(
    dv: ExpandedDeferredValues, stepDigest: StepField, wrapDigest: WrapField,
    dv': ExpandedDeferredValues, stepDigest': StepField, wrapDigest': WrapField)
    requires StatementOf(dv, stepDigest, wrapDigest) == StatementOf(dv', stepDigest', wrapDigest')
    ensures PublicInputOf(dv, stepDigest, wrapDigest) == PublicInputOf(dv', stepDigest', wrapDigest')
       <==> Reduce(Q, BranchNumber(dv.branchData)) == Reduce(Q, BranchNumber(dv'.branchData))
  {
    BranchElement(dv, stepDigest, wrapDigest);
    BranchElement(dv', stepDigest', wrapDigest');
    hide FpToFq, CrossFieldType1, PackBranchData, BranchNumber, Reduce;
    PackedValue(dv.branchData);
    PackedValue(dv'.branchData);
  }
}
