/**
 `expand_deferred`: from one proof's carried skeleton and the per-tag verifier to the deferred
 values, with the evaluation table and the permutation vanishing factor.
 */
module Expansion {
  import opened Wrappers
  import opened Bytes
  import opened Fields
  import opened Types
  import opened Upstream
  import opened VerifierBlob
  import opened ChallengePolynomial
  import opened Deferred

  type Row = seq<seq<StepField>>

  // --------------------------------------------------------------------------
  // The step proof's evaluations
  // --------------------------------------------------------------------------

  /** `to_proof_evaluations`: the six index columns get their names. */
  function ToProofEvaluations(e: ChunkedAllEvals): ProofEvaluations {
    ProofEvaluations(e.publicEvals, e.w, e.z, e.s, e.coefficients,
      e.index[0], e.index[1], e.index[2], e.index[3], e.index[4], e.index[5])
  }

  function RowOf(p: PointEvals): Row {
    [p.zeta, p.zetaOmega]
  }

  /** The rows in the order the batched inner product folds them. */
  function EvaluationRows(
    polys: seq<Row>, publicEvals: (seq<StepField>, seq<StepField>),
    ftEval0: StepField, ftEval1: StepField, e: ProofEvaluations
  ): seq<Row>
  {
    polys
    + [[publicEvals.0, publicEvals.1], [[ftEval0], [ftEval1]], RowOf(e.z),
       RowOf(e.genericSelector), RowOf(e.poseidonSelector), RowOf(e.completeAddSelector),
       RowOf(e.mulSelector), RowOf(e.emulSelector), RowOf(e.endomulScalarSelector)]
    + Map(RowOf, e.w) + Map(RowOf, e.coefficients) + Map(RowOf, e.s)
  }

  /** `es`, pushed row by row. */
  method BuildEvaluationTable(
    polys: seq<Row>, publicEvals: (seq<StepField>, seq<StepField>),
    ftEval0: StepField, ftEval1: StepField, e: ProofEvaluations
  ) returns (es: seq<Row>)
    ensures es == EvaluationRows(polys, publicEvals, ftEval0, ftEval1, e)
  {
    es := polys;
    es := es + [[publicEvals.0, publicEvals.1]];
    es := es + [[[ftEval0], [ftEval1]]];
    es := es + [RowOf(e.z)];
    es := es + [RowOf(e.genericSelector)];
    es := es + [RowOf(e.poseidonSelector)];
    es := es + [RowOf(e.completeAddSelector)];
    es := es + [RowOf(e.mulSelector)];
    es := es + [RowOf(e.emulSelector)];
    es := es + [RowOf(e.endomulScalarSelector)];
    es := PushColumns(es, e.w);
    es := PushColumns(es, e.coefficients);
    es := PushColumns(es, e.s);
  }

  method PushColumns(es: seq<Row>, columns: seq<PointEvals>) returns (out: seq<Row>)
    ensures out == es + Map(RowOf, columns)
  {
    out := es;
    var i := 0;
    while i < |columns|
      invariant 0 <= i <= |columns|
      invariant out == es + Map(RowOf, columns[..i])
    {
      out := out + [RowOf(columns[i])];
      assert columns[..i + 1] == columns[..i] + [columns[i]];
      assert Map(RowOf, columns[..i + 1]) == Map(RowOf, columns[..i]) + [RowOf(columns[i])];
      i := i + 1;
    }
    assert columns[..i] == columns;
  }

  /** Where each named evaluation lands: 45 rows after the recursion polynomials. */
  lemma {:induction false} EvaluationTableLayout(
    polys: seq<Row>, publicEvals: (seq<StepField>, seq<StepField>),
    ftEval0: StepField, ftEval1: StepField, e: ChunkedAllEvals, i: nat)
    ensures var es := EvaluationRows(polys, publicEvals, ftEval0, ftEval1, ToProofEvaluations(e));
            var n := |polys|;
            && |es| == n + 45
            && es[..n] == polys
            && es[n] == [publicEvals.0, publicEvals.1] && es[n + 1] == [[ftEval0], [ftEval1]]
            && es[n + 2] == [e.z.zeta, e.z.zetaOmega]
            && (i < 6 ==> es[n + 3 + i] == [e.index[i].zeta, e.index[i].zetaOmega])
            && (i < 15 ==> es[n + 9 + i] == [e.w[i].zeta, e.w[i].zetaOmega])
            && (i < 15 ==> es[n + 24 + i] == [e.coefficients[i].zeta, e.coefficients[i].zetaOmega])
            && (i < 6 ==> es[n + 39 + i] == [e.s[i].zeta, e.s[i].zetaOmega])
  {
  }

  predicate Rectangular(r: Row) {
    |r| == 2 && |r[0]| == |r[1]|
  }

  /** Then each row of the table pairs two vectors of one length, if the oracle's own rows do. */
  lemma {:induction false} EvaluationTableRectangular(
    polys: seq<Row>, publicEvals: (seq<StepField>, seq<StepField>),
    ftEval0: StepField, ftEval1: StepField, e: ChunkedAllEvals, j: nat)
    requires EqualChunkCounts(e) && |publicEvals.0| == |publicEvals.1|
    requires forall k | 0 <= k < |polys| :: Rectangular(polys[k])
    requires j < |polys| + 45
    ensures var es := EvaluationRows(polys, publicEvals, ftEval0, ftEval1, ToProofEvaluations(e));
            |es| == |polys| + 45 && Rectangular(es[j])
  {
  }

  // --------------------------------------------------------------------------
  // The permutation vanishing factor
  // --------------------------------------------------------------------------

  /** `zk_rows - 1` in `u64` arithmetic. */
  function PredU64(x: nat): nat {
    if x == 0 then U64 - 1 else x - 1
  }

  /** The three-factor product over the zero-knowledge rows, at `zeta`. */
  function ZkPolynomial(m: Modulus, omegaInv: nat, zkRows: nat, zeta: nat): (r: nat)
    ensures r < m
  {
    Mul(m, Mul(m, Sub(m, zeta, omegaInv), Sub(m, zeta, Pow(m, omegaInv, PredU64(zkRows)))),
      Sub(m, zeta, Pow(m, omegaInv, zkRows)))
  }

  /** In a prime field the factor vanishes exactly at the three inverse powers of omega. */
  lemma {:induction false} ZkPolynomialRoots(m: Modulus, omegaInv: nat, zkRows: nat, zeta: nat)
    requires Prime(m) && omegaInv < m && zeta < m
    ensures ZkPolynomial(m, omegaInv, zkRows, zeta) == 0
       <==> zeta in {omegaInv, Pow(m, omegaInv, PredU64(zkRows)), Pow(m, omegaInv, zkRows)}
  {
    hide Reduce, Mul, Pow, PredU64, Prime;
    var a, b := omegaInv, Pow(m, omegaInv, PredU64(zkRows));
    var c := Pow(m, omegaInv, zkRows);
    SubZero(m, zeta, a);
    SubZero(m, zeta, b);
    SubZero(m, zeta, c);
    var x, y, z := Sub(m, zeta, a), Sub(m, zeta, b), Sub(m, zeta, c);
    NoZeroDivisors(m, x, y);
    NoZeroDivisors(m, Mul(m, x, y), z);
    ReduceUnique(m, 0, x);
    ReduceUnique(m, 0, y);
    ReduceUnique(m, 0, z);
    ReduceUnique(m, 0, Mul(m, x, y));
  }

  lemma {:induction false} SubZero(m: Modulus, x: nat, y: nat)
    requires x < m && y < m
    ensures Sub(m, x, y) == 0 <==> x == y
  {
  }

  /** `omega` has order exactly `n`. */
  ghost predicate HasOrder(m: Modulus, omega: nat, n: nat) {
    && n > 0 && omega < m && Pow(m, omega, n) == 1
    && forall j | 0 < j < n :: Pow(m, omega, j) != 1
  }

  /** Negative powers of omega are the rows counted back from the end of the domain. */
  lemma {:induction false} InversePower(m: Modulus, omega: nat, omegaInv: nat, n: nat, j: nat)
    requires Mul(m, omega, omegaInv) == 1 && Pow(m, omega, n) == 1 && j <= n
    ensures Pow(m, omegaInv, j) == Pow(m, omega, n - j)
  {
    hide Mul;
    if j > 0 {
      InversePower(m, omega, omegaInv, n, j - 1);
      MulAssoc(m, omegaInv, omega, Pow(m, omega, n - j));
      MulComm(m, omegaInv, omega);
      MulOne(m, Pow(m, omega, n - j));
    }
  }

  /** Rows of a domain of order `n` are distinct elements. */
  lemma {:induction false} RowsDistinct(m: Modulus, omega: nat, omegaInv: nat, n: nat, i: nat, j: nat)
    requires Mul(m, omega, omegaInv) == 1 && HasOrder(m, omega, n) && i <= j < n
    requires Pow(m, omega, i) == Pow(m, omega, j)
    ensures i == j
  {
    hide Mul;
    InversePower(m, omega, omegaInv, n, i);
    PowAdd(m, omega, n - i, j);
    PowAdd(m, omega, n, j - i);
    MulOne(m, Pow(m, omega, j - i));
    PowAdd(m, omega, n - i, i);
    assert n - i + j == n + (j - i) && n - i + i == n;
  }

  /**
   The vanishing set in terms of the domain: over a domain of order `n`, and for every zeta in the
   field, the factor is zero exactly when zeta is row `n - 1`, `n - (zk - 1)` or `n - zk`.
   */
  lemma {:induction false} ZkVanishingSet(m: Modulus, omega: nat, omegaInv: nat, n: nat, zkRows: nat, zeta: nat)
    requires Prime(m) && HasOrder(m, omega, n) && omegaInv < m && Mul(m, omega, omegaInv) == 1
    requires 1 <= zkRows <= n && zeta < m
    ensures ZkPolynomial(m, omegaInv, zkRows, zeta) == 0
       <==> zeta in {Pow(m, omega, n - 1), Pow(m, omega, n - (zkRows - 1)), Pow(m, omega, n - zkRows)}
  {
    hide Mul, ZkPolynomial, Prime, HasOrder;
    ZkPolynomialRoots(m, omegaInv, zkRows, zeta);
    OrderPower(m, omega, n);
    assert Pow(m, omegaInv, 1) == omegaInv by {
      assert Pow(m, omegaInv, 1) == Mul(m, omegaInv, Pow(m, omegaInv, 0));
      MulComm(m, omegaInv, 1);
      MulOne(m, omegaInv);
    }
    InversePower(m, omega, omegaInv, n, 1);
    InversePower(m, omega, omegaInv, n, zkRows - 1);
    InversePower(m, omega, omegaInv, n, zkRows);
  }

  /** And its value: the product of the differences between zeta and those rows. */
  lemma {:induction false} ZkPolynomialProduct(m: Modulus, omega: nat, omegaInv: nat, n: nat, zkRows: nat, zeta: nat)
    requires HasOrder(m, omega, n) && omegaInv < m && Mul(m, omega, omegaInv) == 1
    requires 1 <= zkRows <= n
    ensures var row1, row2, row3 := Pow(m, omega, n - 1), Pow(m, omega, n - (zkRows - 1)), Pow(m, omega, n - zkRows);
            ZkPolynomial(m, omegaInv, zkRows, zeta)
            == Mul(m, Mul(m, Sub(m, zeta, row1), Sub(m, zeta, row2)), Sub(m, zeta, row3))
  {
    hide Mul, Sub, HasOrder;
    OrderPower(m, omega, n);
    assert Pow(m, omegaInv, 1) == omegaInv by {
      assert Pow(m, omegaInv, 1) == Mul(m, omegaInv, Pow(m, omegaInv, 0));
      MulComm(m, omegaInv, 1);
      MulOne(m, omegaInv);
    }
    InversePower(m, omega, omegaInv, n, 1);
    InversePower(m, omega, omegaInv, n, zkRows - 1);
    InversePower(m, omega, omegaInv, n, zkRows);
  }

  /** A wrapped row count of zero makes the exponent of the middle root 2^64 - 1, and the last root one. */
  lemma {:induction false} ZkPolynomialWrapped(m: Modulus, omegaInv: nat, zeta: nat)
    ensures ZkPolynomial(m, omegaInv, 0, zeta)
            == Mul(m, Mul(m, Sub(m, zeta, omegaInv), Sub(m, zeta, Pow(m, omegaInv, 0xFFFF_FFFF_FFFF_FFFF))),
                   Sub(m, zeta, 1))
  {
    hide Mul, Sub;
  }

  /** Of the domain's own rows these are three, told apart by their index. */
  lemma {:induction false} ZkPolynomialRows(m: Modulus, omega: nat, omegaInv: nat, n: nat, zkRows: nat, i: nat)
    requires Prime(m) && HasOrder(m, omega, n) && omegaInv < m && Mul(m, omega, omegaInv) == 1
    requires 2 <= zkRows <= n && i < n
    ensures ZkPolynomial(m, omegaInv, zkRows, Pow(m, omega, i)) == 0
       <==> i in {n - 1, n - (zkRows - 1), n - zkRows}
  {
    hide Mul, ZkPolynomial, Prime, HasOrder;
    ZkVanishingSet(m, omega, omegaInv, n, zkRows, Pow(m, omega, i));
    SameRow(m, omega, omegaInv, n, i, n - 1);
    SameRow(m, omega, omegaInv, n, i, n - (zkRows - 1));
    SameRow(m, omega, omegaInv, n, i, n - zkRows);
  }

  lemma {:induction false} OrderPower(m: Modulus, omega: nat, n: nat)
    requires HasOrder(m, omega, n)
    ensures Pow(m, omega, n) == 1
  {
  }

  lemma {:induction false} SameRow(m: Modulus, omega: nat, omegaInv: nat, n: nat, i: nat, j: nat)
    requires Mul(m, omega, omegaInv) == 1 && HasOrder(m, omega, n) && i < n && j < n
    ensures Pow(m, omega, i) == Pow(m, omega, j) <==> i == j
  {
    hide Mul, HasOrder, Pow;
    if Pow(m, omega, i) == Pow(m, omega, j) {
      if i <= j {
        RowsDistinct(m, omega, omegaInv, n, i, j);
      } else {
        RowsDistinct(m, omega, omegaInv, n, j, i);
      }
    }
  }

  /** With one chunk these are exactly the last three rows of the domain. */
  lemma {:induction false} ZkRowsAreLast(m: Modulus, omega: nat, omegaInv: nat, n: nat, bits: nat, i: nat)
    requires Prime(m) && HasOrder(m, omega, n) && omegaInv < m && Mul(m, omega, omegaInv) == 1
    requires n >= 4 && i < n && 21 < Pow2(bits)
    ensures ZkPolynomial(m, omegaInv, ZkRows(bits, 1), Pow(m, omega, i)) == 0 <==> i >= n - 3
  {
    hide Mul, ZkPolynomial, Prime, HasOrder, Pow;
    FewBits(bits);
    ZkRowsFormula(bits, 1);
    ZkPolynomialRows(m, omega, omegaInv, n, 3, i);
  }

  lemma {:induction false} FewBits(bits: nat)
    requires 21 < Pow2(bits)
    ensures bits >= 3
  {
  }

  // --------------------------------------------------------------------------
  // The expansion
  // --------------------------------------------------------------------------

  /** Largest log2 a radix-2 domain of the step field can have. */
  const TWO_ADICITY: nat := 32

  /** The domain `1usize << log2` asks for; a release build masks the shift amount. */
  function ShiftedLog2(bits: nat, log2: nat): (k: nat)
    requires bits > 0
    ensures k == log2 <==> log2 < bits
  {
    log2 % bits
  }

  /**
   The log2 of the domain. It is the carried one exactly when that is below the word size and at most
   32; a log2 below the word size has no other domain.
   */
  function DomainLog2(bits: nat, log2: nat): (k: Option<nat>)
    requires bits > 0
    ensures k == Some(log2) <==> log2 < bits && log2 <= 32
    ensures k.None? ==> log2 > 32
    ensures log2 < bits ==> k in {None, Some(log2)}
  {
    var k := ShiftedLog2(bits, log2);
    if k <= TWO_ADICITY then Some(k) else None
  }

  /** From the word size on the domains repeat, so every log2 has a smaller one with its domain. */
  lemma {:induction false} DomainRepeats(bits: nat, log2: nat)
    requires bits > 0
    ensures DomainLog2(bits, log2 + bits) == DomainLog2(bits, log2)
    ensures DomainLog2(bits, log2) == DomainLog2(bits, log2 % bits)
  {
    AddWord(log2, bits);
  }

  lemma {:induction false} AddWord(x: nat, m: nat)
    requires m > 0
    ensures (x + m) % m == x % m
  {
    if m > 1 {
      ReduceShift(m, x, 1);
    }
  }

  /** The two usual word sizes size the same domain exactly when 64-bit masking leaves less than 32. */
  lemma {:induction false} WidthsAgree(log2: nat)
    ensures DomainLog2(32, log2) == DomainLog2(64, log2) <==> log2 % 64 < 32
  {
    HalfWord(log2);
  }

  lemma {:induction false} HalfWord(x: nat)
    ensures x % 32 == if x % 64 < 32 then x % 64 else x % 64 - 32
  {
    assert x == 64 * (x / 64) + x % 64;
  }

  /** They do differ: for 33 a 64-bit host has no domain, and a 32-bit host takes the one of size 2. */
  lemma {:induction false} WidthsDiffer()
    ensures DomainLog2(64, 33) == None && DomainLog2(32, 33) == Some(1)
  {
  }

  /** `expand_deferred`; `None` stands for its panics (no such domain, or upstream refuses). */
  function ExpandDeferred(
    up: Primitives, bits: nat, v: Verifier<SrsState>, p: VerifiableProof
  ): Option<ExpandedDeferredValues>
    requires bits > 0
  {
    match DomainLog2(bits, p.stepDomainLog2)
    case None => None
    case Some(k) =>
      match (up.oracles(OracleQueryOf(up, k, v, p)), Inverse(P, up.domainGenerator(k)))
      case (Some(o), Some(omegaInv)) => Some(ExpandWith(up, v, p, k, o, omegaInv))
      case _ => None
  }

  function OracleQueryOf(up: Primitives, k: nat, v: Verifier<SrsState>, p: VerifiableProof): OracleQuery {
    OracleQuery(k, Pow2(v.stepSrsLengthLog2), v.stepZkRows, up.stepGateEndo,
      v.linearization, v.powersOfAlpha, p.spongeDigestBeforeEvaluations,
      up.stepToField(p.rawPlonk.alpha, v.stepEndo), p.rawPlonk.beta, p.rawPlonk.gamma,
      up.stepToField(p.rawPlonk.zeta, v.stepEndo), p.rawPlonk.alpha, p.rawPlonk.zeta,
      p.oldBulletproofChallenges, ToProofEvaluations(p.prevEvals), p.prevEvals.ftEval1)
  }

  /** The evaluation points: the expanded zeta, and zeta times the domain generator. */
  function Zeta(up: Primitives, v: Verifier<SrsState>, p: VerifiableProof): StepField {
    up.stepToField(p.rawPlonk.zeta, v.stepEndo)
  }

  function ZetaOmega(up: Primitives, v: Verifier<SrsState>, p: VerifiableProof, k: nat): StepField {
    Mul(P, Zeta(up, v, p), up.domainGenerator(k))
  }

  /** The endo-expanded bulletproof challenges. */
  function NewChallenges(up: Primitives, v: Verifier<SrsState>, p: VerifiableProof): StepChals {
    Map(c => up.stepToField(c, v.stepEndo), p.rawBulletproofChallenges)
  }

  function ExpandWith(
    up: Primitives, v: Verifier<SrsState>, p: VerifiableProof, k: nat, o: DigestOracles, omegaInv: nat
  ): ExpandedDeferredValues
  {
    ExpandOver(up, v, p, k, o, omegaInv,
      EvaluationRows(o.polys, o.publicEvals, o.ftEval0, p.prevEvals.ftEval1, ToProofEvaluations(p.prevEvals)))
  }

  /** The permutation vanishing factor at the proof's zeta. */
  function VanishingFactor(up: Primitives, v: Verifier<SrsState>, p: VerifiableProof, omegaInv: nat): StepField {
    ZkPolynomial(P, omegaInv, v.stepZkRows, Zeta(up, v, p))
  }

  /** The permutation scalar, for a given vanishing factor. */
  function PermScalar(up: Primitives, p: VerifiableProof, o: DigestOracles, factor: StepField): StepField {
    up.permScalars(up.collapse(ToProofEvaluations(p.prevEvals), o.chunkPowers),
      p.rawPlonk.beta, p.rawPlonk.gamma, o.allAlphas, factor)
  }

  /** The deferred values, over a table of evaluations. */
  function ExpandOver(
    up: Primitives, v: Verifier<SrsState>, p: VerifiableProof, k: nat, o: DigestOracles, omegaInv: nat, es: seq<Row>
  ): ExpandedDeferredValues
  {
    var zeta := Zeta(up, v, p);
    var newChals := NewChallenges(up, v, p);
    ExpandedDeferredValues(
      p.rawPlonk.alpha, p.rawPlonk.beta, p.rawPlonk.gamma, p.rawPlonk.zeta,
      PermScalar(up, p, o, VanishingFactor(up, v, p, omegaInv)),
      o.zeta1, o.chunkPowers.0,
      up.combinedInnerProduct(o.v, o.u, es), o.vChal,
      p.rawBulletproofChallenges,
      Add(P, BPoly(P, newChals, zeta), Mul(P, o.u, BPoly(P, newChals, ZetaOmega(up, v, p, k)))),
      newChals, p.branchData, p.spongeDigestBeforeEvaluations, o.u, o.ftEval0)
  }

  /** The expansion as the code runs it, pushing the evaluation table row by row. */
  method Expand(up: Primitives, bits: nat, v: Verifier<SrsState>, p: VerifiableProof)
    returns (r: Option<ExpandedDeferredValues>)
    requires bits > 0
    ensures r == ExpandDeferred(up, bits, v, p)
  {
    hide EvaluationRows, ExpandOver, Inverse, DomainLog2;
    var domain := DomainLog2(bits, p.stepDomainLog2);
    if domain.None? {
      return None;
    }
    var k := domain.value;
    var oracles := up.oracles(OracleQueryOf(up, k, v, p));
    var omegaInv := Inverse(P, up.domainGenerator(k));
    if oracles.None? || omegaInv.None? {
      return None;
    }
    var o := oracles.value;
    var evals := ToProofEvaluations(p.prevEvals);
    var es := BuildEvaluationTable(o.polys, o.publicEvals, o.ftEval0, p.prevEvals.ftEval1, evals);
    r := Some(ExpandOver(up, v, p, k, o, omegaInv.value, es));
  }

  /** The domain generator of size 2^k, and the rows counted back from the end of its domain. */
  function RowFromEnd(up: Primitives, k: nat, j: nat): nat
    requires j <= Pow2(k)
  {
    Pow(P, up.domainGenerator(k), Pow2(k) - j)
  }

  /** The endo-expanded bulletproof challenges, one by one. */
  predicate ExpandedWith(up: Primitives, endo: StepField, raw: StepChals, chals: seq<StepField>) {
    |chals| == 16 && forall j | 0 <= j < 16 :: chals[j] == up.stepToField(raw[j], endo)
  }

  lemma {:induction false} NewChallengesAre(
    up: Primitives, v: Verifier<SrsState>, p: VerifiableProof, chals: seq<StepField>)
    requires ExpandedWith(up, v.stepEndo, p.rawBulletproofChallenges, chals)
    ensures NewChallenges(up, v, p) == chals
  {
  }

  /** Everything the expansion computes, from the oracles' answer and the proof's carried values. */
  lemma {:induction false} ExpansionComputes(
    up: Primitives, bits: nat, v: Verifier<SrsState>, p: VerifiableProof, k: nat, chals: seq<StepField>)
    requires bits > 0 && DomainLog2(bits, p.stepDomainLog2) == Some(k) && ExpandDeferred(up, bits, v, p).Some?
    requires ExpandedWith(up, v.stepEndo, p.rawBulletproofChallenges, chals)
    ensures up.oracles(OracleQueryOf(up, k, v, p)).Some? && Inverse(P, up.domainGenerator(k)).Some?
    ensures var dv := ExpandDeferred(up, bits, v, p).value;
            var o := up.oracles(OracleQueryOf(up, k, v, p)).value;
            var omega := up.domainGenerator(k);
            var zeta := up.stepToField(p.rawPlonk.zeta, v.stepEndo);
            var evals := ToProofEvaluations(p.prevEvals);
            var table := EvaluationRows(o.polys, o.publicEvals, o.ftEval0, p.prevEvals.ftEval1, evals);
            var factor := ZkPolynomial(P, Inverse(P, omega).value, v.stepZkRows, zeta);
            && dv.zetaToDomainSize == o.zeta1 && dv.zetaToSrsLength == o.chunkPowers.0
            && dv.xi == o.vChal && dv.r == o.u && dv.ftEval0 == o.ftEval0
            && dv.newBulletproofChallenges == chals
            && dv.combinedInnerProduct == up.combinedInnerProduct(o.v, o.u, table)
            && dv.perm == up.permScalars(up.collapse(evals, o.chunkPowers), p.rawPlonk.beta, p.rawPlonk.gamma,
                                         o.allAlphas, factor)
            && dv.b == Add(P, BPoly(P, chals, zeta), Mul(P, o.u, BPoly(P, chals, Mul(P, zeta, omega))))
  {
    hide OracleQueryOf, EvaluationRows, ZkPolynomial, BPoly, Inverse, DomainLog2, Add, Mul, NewChallenges,
      ToProofEvaluations;
    NewChallengesAre(up, v, p, chals);
  }

  /** What the oracles are asked by a verifier: the proof's values, with alpha and zeta expanded and raw. */
  lemma {:induction false} OraclesAsked(up: Primitives, k: nat, v: Verifier<SrsState>, p: VerifiableProof)
    ensures var q := OracleQueryOf(up, k, v, p);
            && q.domainLog2 == k && q.maxPolySize == Pow2(v.stepSrsLengthLog2) && q.zkRows == v.stepZkRows
            && q.gateEndo == up.stepGateEndo
            && q.linearization == v.linearization && q.powersOfAlpha == v.powersOfAlpha
            && q.digest == p.spongeDigestBeforeEvaluations
            && q.alpha == up.stepToField(p.rawPlonk.alpha, v.stepEndo) && q.alphaChal == p.rawPlonk.alpha
            && q.zeta == up.stepToField(p.rawPlonk.zeta, v.stepEndo) && q.zetaChal == p.rawPlonk.zeta
            && q.beta == p.rawPlonk.beta && q.gamma == p.rawPlonk.gamma
            && q.prevChallenges == p.oldBulletproofChallenges && q.ftEval1 == p.prevEvals.ftEval1
            && q.evals.publicEvals == p.prevEvals.publicEvals && q.evals.z == p.prevEvals.z
            && q.evals.w == p.prevEvals.w && q.evals.s == p.prevEvals.s
            && q.evals.coefficients == p.prevEvals.coefficients
            && [q.evals.genericSelector, q.evals.poseidonSelector, q.evals.completeAddSelector,
                q.evals.mulSelector, q.evals.emulSelector, q.evals.endomulScalarSelector] == p.prevEvals.index
  {
    hide Pow2;
  }

  /**
   The factor the expansion hands to the permutation scalar: over a domain generator of order 2^k it
   is the product of the differences between the proof's expanded zeta and the rows `n - 1`,
   `n - (zk - 1)` and `n - zk` of the domain, with the verifier's own row count; and it is zero exactly
   when zeta is one of them.
   */
  lemma {:induction false} ExpansionVanishes(
    up: Primitives, bits: nat, v: Verifier<SrsState>, p: VerifiableProof, k: nat)
    requires bits > 0 && DomainLog2(bits, p.stepDomainLog2) == Some(k) && ExpandDeferred(up, bits, v, p).Some?
    requires Prime(P) && HasOrder(P, up.domainGenerator(k), Pow2(k)) && 1 <= v.stepZkRows <= Pow2(k)
    ensures up.oracles(OracleQueryOf(up, k, v, p)).Some?
    ensures var o := up.oracles(OracleQueryOf(up, k, v, p)).value;
            var zeta, zk := up.stepToField(p.rawPlonk.zeta, v.stepEndo), v.stepZkRows;
            var row1, row2, row3 := RowFromEnd(up, k, 1), RowFromEnd(up, k, zk - 1), RowFromEnd(up, k, zk);
            var factor := Mul(P, Mul(P, Sub(P, zeta, row1), Sub(P, zeta, row2)), Sub(P, zeta, row3));
            && ExpandDeferred(up, bits, v, p).value.perm
               == up.permScalars(up.collapse(ToProofEvaluations(p.prevEvals), o.chunkPowers),
                                 p.rawPlonk.beta, p.rawPlonk.gamma, o.allAlphas, factor)
            && (factor == 0 <==> zeta in {row1, row2, row3})
  {
    hide OracleQueryOf, ZkPolynomial, Inverse, DomainLog2, Prime, HasOrder, Pow, Pow2, Mul, Sub,
      NewChallenges, ToProofEvaluations;
    var omega := up.domainGenerator(k);
    var zeta := up.stepToField(p.rawPlonk.zeta, v.stepEndo);
    ExpansionComputes(up, bits, v, p, k, NewChallenges(up, v, p)) by {
      NewChallengesExpanded(up, v, p);
    }
    ZkVanishingSet(P, omega, Inverse(P, omega).value, Pow2(k), v.stepZkRows, zeta);
    ZkPolynomialProduct(P, omega, Inverse(P, omega).value, Pow2(k), v.stepZkRows, zeta);
  }

  lemma {:induction false} NewChallengesExpanded(up: Primitives, v: Verifier<SrsState>, p: VerifiableProof)
    ensures ExpandedWith(up, v.stepEndo, p.rawBulletproofChallenges, NewChallenges(up, v, p))
  {
  }

  /** 32- and 64-bit hosts compute one row count exactly below 2^28 chunks, where the 32-bit sum wraps. */
  lemma {:induction false} UsualRowsAgree(numChunks: nat)
    requires numChunks < 0x1_0000_0000
    ensures ZkRows(32, numChunks) == ZkRows(64, numChunks) <==> numChunks < 0x1000_0000
  {
    hide Pow2;
    Pow2Of32();
    Pow2Of64();
    var x := 16 * numChunks + 5;
    if x >= 0x1_0000_0000 {
      ReduceBelow(x, 0x1_0000_0000);
    }
  }

  /** What the expansion only carries: challenges, prechallenges, branch data and sponge digest. */
  lemma {:induction false} ExpansionCarries(up: Primitives, bits: nat, v: Verifier<SrsState>, p: VerifiableProof)
    requires bits > 0 && ExpandDeferred(up, bits, v, p).Some?
    ensures var dv := ExpandDeferred(up, bits, v, p).value;
            && PlonkMinimal(dv.alpha, dv.beta, dv.gamma, dv.zeta) == p.rawPlonk
            && dv.bulletproofPrechallenges == p.rawBulletproofChallenges
            && dv.branchData == p.branchData
            && dv.spongeDigestBeforeEvaluations == p.spongeDigestBeforeEvaluations
  {
    hide OracleQueryOf, EvaluationRows, ZkPolynomial, BPoly, Inverse, DomainLog2;
  }
}
