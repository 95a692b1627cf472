/**
 The crate root: the Fiat-Shamir transcript of a batch, the accumulator check, and the
 three-stage batch verification.
 */
module Batching {
  import opened Wrappers
  import opened Bytes
  import opened Fields
  import opened Blob
  import opened Types
  import opened Upstream
  import opened VerifierBlob
  import opened ChallengePolynomial
  import opened Deferred
  import opened Expansion

  // --------------------------------------------------------------------------
  // The batching transcript
  // --------------------------------------------------------------------------

  /** One proof with its wrap public input. */
  type Entry = (WrapProof, seq<WrapField>)

  /** An incremental hasher: only the concatenation of what it was fed matters. */
  class Hasher {
    var absorbed: seq<Byte>

    constructor ()
      ensures absorbed == []
    {
      absorbed := [];
    }

    method Update(bs: seq<Byte>)
      modifies this
      ensures absorbed == old(absorbed) + bs
    {
      absorbed := absorbed + bs;
    }

    method Finalize(up: Primitives) returns (digest: Digest)
      ensures digest == up.blake2s(absorbed)
    {
      digest := up.blake2s(absorbed);
    }
  }

  const DOMAIN_TAG := "pickles-verifier/batch-dlog-rng/v1"

  /** `(len as u64).to_le_bytes()` and then the bytes. */
  function LengthPrefixed(bs: seq<Byte>): (r: seq<Byte>)
    ensures |r| == 8 + |bs|
  {
    LeBytes(|bs|, 8) + bs
  }

  function ElementsBytes(xs: seq<WrapField>): (bs: seq<Byte>)
    ensures |bs| == 32 * |xs|
  {
    if xs == [] then [] else LeBytes(xs[0], 32) + ElementsBytes(xs[1..])
  }

  /** `serialize_compressed` of a field vector: its length, then each canonical element. */
  function FieldVecBytes(xs: seq<WrapField>): (bs: seq<Byte>)
    ensures |bs| == 8 + 32 * |xs|
  {
    LeBytes(|xs|, 8) + ElementsBytes(xs)
  }

  function EntryBytes(up: Primitives, e: Entry): seq<Byte> {
    LengthPrefixed(up.encodeProof(e.0)) + LengthPrefixed(FieldVecBytes(e.1))
  }

  function EntriesBytes(up: Primitives, es: seq<Entry>): seq<Byte> {
    if es == [] then [] else EntryBytes(up, es[0]) + EntriesBytes(up, es[1..])
  }

  /** Everything the hasher absorbs for a batch. */
  function Transcript(up: Primitives, es: seq<Entry>): seq<Byte> {
    AsciiBytes(DOMAIN_TAG) + EntriesBytes(up, es)
  }

  /** `proofs.iter().zip(pis.iter())`, keeping what the transcript reads of each proof. */
  function Paired(proofs: seq<VerifiableProof>, pis: seq<seq<WrapField>>): (es: seq<Entry>)
    ensures |es| == if |proofs| <= |pis| then |proofs| else |pis|
    ensures forall i | 0 <= i < |es| :: es[i] == (proofs[i].wrapProof, pis[i])
  {
    if proofs == [] || pis == [] then []
    else [(proofs[0].wrapProof, pis[0])] + Paired(proofs[1..], pis[1..])
  }

  method BatchingRng(up: Primitives, proofs: seq<VerifiableProof>, pis: seq<seq<WrapField>>)
    returns (rng: Rng)
    ensures rng == up.chachaFromSeed(up.blake2s(Transcript(up, Paired(proofs, pis))))
  {
    hide EntryBytes, FieldVecBytes, AsciiBytes, LeBytes, EntriesBytes, Paired;
    ghost var es := Paired(proofs, pis);
    var hasher := new Hasher();
    hasher.Update(AsciiBytes(DOMAIN_TAG));
    EntriesNone(up, es[..0]);
    var i := 0;
    while i < |proofs| && i < |pis|
      invariant 0 <= i <= |es|
      invariant hasher.absorbed == AsciiBytes(DOMAIN_TAG) + EntriesBytes(up, es[..i])
    {
      ghost var before := hasher.absorbed;
      var proofBytes := up.encodeProof(proofs[i].wrapProof);
      hasher.Update(LeBytes(|proofBytes|, 8));
      hasher.Update(proofBytes);
      var piBytes := FieldVecBytes(pis[i]);
      hasher.Update(LeBytes(|piBytes|, 8));
      hasher.Update(piBytes);
      FourUpdates(up, before, es[i], proofBytes, piBytes);
      EntriesAppend(up, es[..i], es[i]);
      assert es[..i + 1] == es[..i] + [es[i]];
      i := i + 1;
    }
    assert es[..i] == es;
    var digest := hasher.Finalize(up);
    rng := up.chachaFromSeed(digest);
  }

  lemma {:induction false} EntriesNone(up: Primitives, es: seq<Entry>)
    requires es == []
    ensures EntriesBytes(up, es) == []
  {
  }

  lemma {:induction false} FourUpdates(up: Primitives, before: seq<Byte>, e: Entry, a: seq<Byte>, b: seq<Byte>)
    requires a == up.encodeProof(e.0) && b == FieldVecBytes(e.1)
    ensures before + LeBytes(|a|, 8) + a + LeBytes(|b|, 8) + b == before + EntryBytes(up, e)
  {
    hide LeBytes, FieldVecBytes;
    Regroup(before, LeBytes(|a|, 8), a, LeBytes(|b|, 8), b);
  }

  lemma {:induction false} Regroup<T>(z: seq<T>, a: seq<T>, b: seq<T>, c: seq<T>, d: seq<T>)
    ensures z + a + b + c + d == z + ((a + b) + (c + d))
  {
  }

  lemma {:induction false} EntriesAppend(up: Primitives, es: seq<Entry>, e: Entry)
    ensures EntriesBytes(up, es + [e]) == EntriesBytes(up, es) + EntryBytes(up, e)
  {
    hide EntryBytes;
    if es == [] {
      assert es + [e] == [e] && [e][1..] == [];
    } else {
      EntriesAppend(up, es[1..], e);
      assert (es + [e])[1..] == es[1..] + [e];
    }
  }

  // --------------------------------------------------------------------------
  // Different batches, different transcripts
  // --------------------------------------------------------------------------

  lemma {:induction false} LengthBytesInjective(m: nat, n: nat)
    requires m < U64 && n < U64 && LeBytes(m, 8) == LeBytes(n, 8)
    ensures m == n
  {
    Pow256Constants();
    ValueOfBytes(m, 8);
    ValueOfBytes(n, 8);
  }

  /** Length prefixing makes a prefix code. */
  lemma {:induction false} PrefixedSplit(a: seq<Byte>, b: seq<Byte>, s: seq<Byte>, t: seq<Byte>)
    requires |a| < U64 && |b| < U64 && LengthPrefixed(a) + s == LengthPrefixed(b) + t
    ensures a == b && s == t
  {
    hide LeBytes;
    assert LengthPrefixed(a) + s == LeBytes(|a|, 8) + (a + s);
    assert LengthPrefixed(b) + t == LeBytes(|b|, 8) + (b + t);
    SplitAlike(LeBytes(|a|, 8), LeBytes(|b|, 8), a + s, b + t);
    LengthBytesInjective(|a|, |b|);
    SplitAlike(a, b, s, t);
  }

  lemma {:induction false} ElementsInjective(xs: seq<WrapField>, ys: seq<WrapField>)
    requires |xs| == |ys| && ElementsBytes(xs) == ElementsBytes(ys)
    ensures xs == ys
  {
    if xs != [] {
      hide LeBytes;
      SplitAlike(LeBytes(xs[0], 32), LeBytes(ys[0], 32), ElementsBytes(xs[1..]), ElementsBytes(ys[1..]));
      ElementsInjective(xs[1..], ys[1..]);
      Pow256Constants();
      ValueOfBytes(xs[0], 32);
      ValueOfBytes(ys[0], 32);
      assert xs == [xs[0]] + xs[1..] && ys == [ys[0]] + ys[1..];
    }
  }

  lemma {:induction false} FieldVecInjective(xs: seq<WrapField>, ys: seq<WrapField>)
    requires |xs| < U64 && |ys| < U64 && FieldVecBytes(xs) == FieldVecBytes(ys)
    ensures xs == ys
  {
    hide LeBytes, ElementsBytes;
    SplitAlike(LeBytes(|xs|, 8), LeBytes(|ys|, 8), ElementsBytes(xs), ElementsBytes(ys));
    LengthBytesInjective(|xs|, |ys|);
    ElementsInjective(xs, ys);
  }

  /** The encodings of the proof and of the public input have `u64` lengths, as every `Vec` has. */
  predicate EntryInMemory(up: Primitives, e: Entry) {
    |up.encodeProof(e.0)| < U64 && 8 + 32 * |e.1| < U64
  }

  predicate InMemory(up: Primitives, es: seq<Entry>) {
    forall i | 0 <= i < |es| :: EntryInMemory(up, es[i])
  }

  lemma {:induction false} EntrySplit(up: Primitives, a: Entry, b: Entry, s: seq<Byte>, t: seq<Byte>)
    requires ProofCodec(up) && EntryInMemory(up, a) && EntryInMemory(up, b)
    requires EntryBytes(up, a) + s == EntryBytes(up, b) + t
    ensures a == b && s == t
  {
    hide LengthPrefixed, FieldVecBytes;
    var pa, pb := LengthPrefixed(FieldVecBytes(a.1)), LengthPrefixed(FieldVecBytes(b.1));
    assert EntryBytes(up, a) + s == LengthPrefixed(up.encodeProof(a.0)) + (pa + s);
    assert EntryBytes(up, b) + t == LengthPrefixed(up.encodeProof(b.0)) + (pb + t);
    PrefixedSplit(up.encodeProof(a.0), up.encodeProof(b.0), pa + s, pb + t);
    PrefixedSplit(FieldVecBytes(a.1), FieldVecBytes(b.1), s, t);
    FieldVecInjective(a.1, b.1);
  }

  lemma {:induction false} EntriesInjective(up: Primitives, batch: seq<Entry>, batch': seq<Entry>)
    requires ProofCodec(up) && InMemory(up, batch) && InMemory(up, batch')
    requires EntriesBytes(up, batch) == EntriesBytes(up, batch')
    ensures batch == batch'
  {
    hide EntryBytes;
    EntryNonEmpty(up, batch);
    EntryNonEmpty(up, batch');
    if batch != [] && batch' != [] {
      EntrySplit(up, batch[0], batch'[0], EntriesBytes(up, batch[1..]), EntriesBytes(up, batch'[1..]));
      EntriesInjective(up, batch[1..], batch'[1..]);
      assert batch == [batch[0]] + batch[1..] && batch' == [batch'[0]] + batch'[1..];
    }
  }

  lemma {:induction false} EntryNonEmpty(up: Primitives, es: seq<Entry>)
    ensures es != [] <==> EntriesBytes(up, es) != []
  {
  }

  /**
   Transcript binding: two batches of any sizes absorb the same bytes only if they are the same
   ordered list of (proof, public input) pairs.
   */
  lemma {:induction false} TranscriptBinds(up: Primitives, batch: seq<Entry>, batch': seq<Entry>)
    requires ProofCodec(up) && InMemory(up, batch) && InMemory(up, batch')
    ensures Transcript(up, batch) == Transcript(up, batch') <==> batch == batch'
  {
    if Transcript(up, batch) == Transcript(up, batch') {
      hide EntriesBytes;
      SplitAlike(AsciiBytes(DOMAIN_TAG), AsciiBytes(DOMAIN_TAG), EntriesBytes(up, batch), EntriesBytes(up, batch'));
      EntriesInjective(up, batch, batch');
    }
  }

  // --------------------------------------------------------------------------
  // Reading a transcript back
  // --------------------------------------------------------------------------

  /** The canonical elements of a byte string. */
  function ReadElements(bs: seq<Byte>): seq<nat>
    requires |bs| % 32 == 0
  {
    if bs == [] then [] else [LeValue(bs[..32])] + ReadElements(bs[32..])
  }

  /** One length-prefixed item, and the bytes after it. */
  function ReadPrefixed(bs: seq<Byte>): (r: Option<(seq<Byte>, seq<Byte>)>)
    ensures r.Some? ==> |r.value.1| < |bs|
  {
    if |bs| < 8 || |bs| - 8 < LeValue(bs[..8]) then None
    else
      var end := 8 + LeValue(bs[..8]);
      Some((bs[8..end], bs[end..]))
  }

  /** A field vector: its count, and that many 32-byte elements. */
  function ReadFieldVec(bs: seq<Byte>): Option<seq<nat>> {
    if |bs| < 8 || |bs| != 8 + 32 * LeValue(bs[..8]) then None else Some(ReadElements(bs[8..]))
  }

  type EntryContent = (seq<Byte>, seq<nat>)

  function ReadEntry(bs: seq<Byte>): (r: Option<(EntryContent, seq<Byte>)>)
    ensures r.Some? ==> |r.value.1| < |bs|
  {
    match ReadPrefixed(bs)
    case None => None
    case Some((proofBytes, bs1)) =>
      match ReadPrefixed(bs1)
      case None => None
      case Some((piBytes, bs2)) =>
        match ReadFieldVec(piBytes)
        case None => None
        case Some(pi) => Some(((proofBytes, pi), bs2))
  }

  /** An independent reader of the transcript after its tag. */
  function ReadEntries(bs: seq<Byte>): Option<seq<EntryContent>>
    decreases |bs|
  {
    if bs == [] then Some([])
    else
      match ReadEntry(bs)
      case None => None
      case Some((e, rest)) =>
        match ReadEntries(rest)
        case None => None
        case Some(es) => Some([e] + es)
  }

  /** What the reader should report for a batch. */
  function EntryContents(up: Primitives, es: seq<Entry>): seq<EntryContent> {
    if es == [] then [] else [(up.encodeProof(es[0].0), es[0].1)] + EntryContents(up, es[1..])
  }

  lemma {:induction false} ElementsRead(xs: seq<WrapField>)
    ensures ReadElements(ElementsBytes(xs)) == xs
  {
    if xs != [] {
      var bs := ElementsBytes(xs);
      assert bs[..32] == LeBytes(xs[0], 32) && bs[32..] == ElementsBytes(xs[1..]);
      Pow256Constants();
      ValueOfBytes(xs[0], 32);
      ElementsRead(xs[1..]);
    }
  }

  lemma {:induction false} FieldVecRead(xs: seq<WrapField>)
    requires |xs| < U64
    ensures ReadFieldVec(FieldVecBytes(xs)) == Some(xs)
  {
    hide LeBytes, LeValue, ElementsBytes, ReadElements;
    var bs := FieldVecBytes(xs);
    assert bs[..8] == LeBytes(|xs|, 8) && bs[8..] == ElementsBytes(xs);
    Pow256Constants();
    ValueOfBytes(|xs|, 8);
    ElementsRead(xs);
  }

  lemma {:induction false} PrefixedRead(bs: seq<Byte>, t: seq<Byte>)
    requires |bs| < U64
    ensures ReadPrefixed(LengthPrefixed(bs) + t) == Some((bs, t))
  {
    hide LeBytes, LeValue;
    var all := LengthPrefixed(bs) + t;
    Pow256Constants();
    ValueOfBytes(|bs|, 8);
    assert all[..8] == LeBytes(|bs|, 8) && all[8..8 + |bs|] == bs && all[8 + |bs|..] == t;
  }

  lemma {:induction false} EntryRead(up: Primitives, e: Entry, t: seq<Byte>)
    requires EntryInMemory(up, e)
    ensures ReadEntry(EntryBytes(up, e) + t) == Some(((up.encodeProof(e.0), e.1), t))
  {
    hide LengthPrefixed, FieldVecBytes, ReadPrefixed, ReadFieldVec;
    var a, b := LengthPrefixed(up.encodeProof(e.0)), LengthPrefixed(FieldVecBytes(e.1));
    assert EntryBytes(up, e) + t == a + (b + t);
    PrefixedRead(up.encodeProof(e.0), b + t);
    PrefixedRead(FieldVecBytes(e.1), t);
    FieldVecRead(e.1);
  }

  /** The reader recovers every batch, in order, from the bytes the hasher absorbed. */
  lemma {:induction false} TranscriptReads(up: Primitives, es: seq<Entry>)
    requires InMemory(up, es)
    ensures ReadEntries(EntriesBytes(up, es)) == Some(EntryContents(up, es))
  {
    hide EntryBytes, ReadEntry;
    EntryNonEmpty(up, es);
    if es != [] {
      EntryRead(up, es[0], EntriesBytes(up, es[1..]));
      TranscriptReads(up, es[1..]);
    }
  }

  // --------------------------------------------------------------------------
  // The accumulator check
  // --------------------------------------------------------------------------

  /** The multi-scalar multiplication: the sum of the scaled generators. */
  function Msm(up: Primitives, g: seq<Affine>, c: seq<StepField>): Group
    requires |g| == |c|
  {
    if g == [] then up.groupZero
    else up.groupAdd(up.groupScale(c[0], g[0]), Msm(up, g[1..], c[1..]))
  }

  function Min(a: nat, b: nat): nat {
    if a <= b then a else b
  }

  /** The coefficients of the proof's challenge polynomial. */
  function AccumulatorCoefficients(up: Primitives, v: Verifier<SrsState>, p: VerifiableProof): seq<StepField> {
    Coefficients(P, NewChallenges(up, v, p))
  }

  /** `accumulator_check`. */
  function AccumulatorCheck(up: Primitives, v: Verifier<SrsState>, p: VerifiableProof): bool {
    var coeffs := AccumulatorCoefficients(up, v, p);
    var g := v.vestaSrs.g;
    var n := Min(|coeffs|, |g|);
    up.intoAffine(Msm(up, g[..n], coeffs[..n])) == p.challengePolynomialCommitment
  }

  /** A sum of group elements. */
  function GroupSum(up: Primitives, terms: seq<Group>): Group {
    if terms == [] then up.groupZero else up.groupAdd(terms[0], GroupSum(up, terms[1..]))
  }

  /** The multiplication sums, term by term, generator `i` scaled by coefficient `i`. */
  lemma {:induction false} MsmTerms(up: Primitives, g: seq<Affine>, c: seq<StepField>, terms: seq<Group>)
    requires |g| == |c| == |terms|
    requires forall i | 0 <= i < |g| :: terms[i] == up.groupScale(c[i], g[i])
    ensures Msm(up, g, c) == GroupSum(up, terms)
  {
    if g != [] {
      MsmTerms(up, g[1..], c[1..], terms[1..]);
    }
  }

  /**
   The polynomial stage 2 commits to is the one stage 1 evaluates: with the raw challenges expanded
   one by one, `b` is the coefficient vector's value at the expanded zeta plus `u` times its value at
   zeta times the domain generator.
   */
  lemma {:induction false} StagesShareThePolynomial(
    up: Primitives, bits: nat, v: Verifier<SrsState>, p: VerifiableProof, k: nat, chals: seq<StepField>)
    requires bits > 0 && DomainLog2(bits, p.stepDomainLog2) == Some(k)
    requires ExpandDeferred(up, bits, v, p).Some?
    requires ExpandedWith(up, v.stepEndo, p.rawBulletproofChallenges, chals)
    ensures up.oracles(OracleQueryOf(up, k, v, p)).Some?
    ensures AccumulatorCoefficients(up, v, p) == Coefficients(P, chals)
    ensures var zeta := up.stepToField(p.rawPlonk.zeta, v.stepEndo);
            var u := up.oracles(OracleQueryOf(up, k, v, p)).value.u;
            var coeffs := Coefficients(P, chals);
            ExpandDeferred(up, bits, v, p).value.b
            == Add(P, Eval(P, coeffs, zeta), Mul(P, u, Eval(P, coeffs, Mul(P, zeta, up.domainGenerator(k)))))
  {
    hide Coefficients, BPoly, Eval, Add, Mul, OracleQueryOf, NewChallenges, ExpandDeferred, DomainLog2;
    var zeta := up.stepToField(p.rawPlonk.zeta, v.stepEndo);
    NewChallengesAre(up, v, p, chals);
    ExpansionComputes(up, bits, v, p, k, chals);
    CoefficientsEvaluateToProduct(P, chals, zeta);
    CoefficientsEvaluateToProduct(P, chals, Mul(P, zeta, up.domainGenerator(k)));
  }

  /** All 2^16 coefficients are committed to exactly when the Vesta SRS is at least that long. */
  lemma {:induction false} CommitsToWholePolynomial(up: Primitives, v: Verifier<SrsState>, p: VerifiableProof)
    ensures var coeffs := AccumulatorCoefficients(up, v, p);
            && |coeffs| == 65536
            && (coeffs[..Min(|coeffs|, |v.vestaSrs.g|)] == coeffs <==> |v.vestaSrs.g| >= 65536)
  {
    hide Coefficients, NewChallenges, Pow2;
    var coeffs := AccumulatorCoefficients(up, v, p);
    SixteenRounds();
    if |v.vestaSrs.g| >= 65536 {
      assert coeffs[..|coeffs|] == coeffs;
    } else {
      assert |coeffs[..Min(|coeffs|, |v.vestaSrs.g|)]| < |coeffs|;
    }
  }

  /**
   What the check says, for an SRS of any length: the proof's commitment is the sum, over all i below
   2^16 for which there is a generator, of generator i scaled by the product of those raw challenges,
   expanded with the verifier's endomorphism, that the bits of i select.
   */
  lemma {:induction false} AccumulatorMeaning(
    up: Primitives, v: Verifier<SrsState>, p: VerifiableProof, chals: seq<StepField>, terms: seq<Group>)
    requires ExpandedWith(up, v.stepEndo, p.rawBulletproofChallenges, chals)
    requires Pow2(16) == 65536 && |terms| == if |v.vestaSrs.g| < 65536 then |v.vestaSrs.g| else 65536
    requires forall i | 0 <= i < |terms| :: terms[i] == up.groupScale(BitProduct(P, chals, i), v.vestaSrs.g[i])
    ensures AccumulatorCheck(up, v, p) <==> up.intoAffine(GroupSum(up, terms)) == p.challengePolynomialCommitment
  {
    hide Coefficients, NewChallenges, Msm, Pow2, BitProduct, GroupSum;
    NewChallengesAre(up, v, p, chals);
    SixteenRounds();
    var coeffs, n := Coefficients(P, chals), |terms|;
    forall i | 0 <= i < n
      ensures terms[i] == up.groupScale(coeffs[..n][i], v.vestaSrs.g[..n][i])
    {
      CoefficientAt(P, chals, i);
    }
    MsmTerms(up, v.vestaSrs.g[..n], coeffs[..n], terms);
  }

  lemma {:induction false} SixteenRounds()
    ensures Pow2(STEP_IPA_ROUNDS) == 65536
  {
    Pow2Add(8, 8);
    assert Pow2(8) == 256;
  }

  // --------------------------------------------------------------------------
  // Batch verification
  // --------------------------------------------------------------------------

  /** One proof's wrap public input; `None` if its expansion panics. */
  function ProofPublicInput(
    up: Primitives, bits: nat, v: Verifier<SrsState>, p: VerifiableProof
  ): Option<PublicInput>
    requires bits > 0
  {
    match ExpandDeferred(up, bits, v, p)
    case None => None
    case Some(dv) =>
      Some(PublicInputOf(dv, p.messagesForNextStepProofDigest, p.messagesForNextWrapProofDigest))
  }

  function PublicInputs(
    up: Primitives, bits: nat, v: Verifier<SrsState>, proofs: seq<VerifiableProof>
  ): (r: Option<seq<seq<WrapField>>>)
    requires bits > 0
    ensures r.Some? ==> |r.value| == |proofs|
    ensures r.Some? ==> forall i | 0 <= i < |proofs| :: ProofPublicInput(up, bits, v, proofs[i]) == Some(r.value[i])
    ensures r.None? ==> exists i | 0 <= i < |proofs| :: ProofPublicInput(up, bits, v, proofs[i]) == None
  {
    if proofs == [] then Some([])
    else
      match (ProofPublicInput(up, bits, v, proofs[0]), PublicInputs(up, bits, v, proofs[1..]))
      case (Some(pi), Some(rest)) => Some([pi] + rest)
      case _ => None
  }

  function KeyOf(up: Primitives, bits: nat, v: Verifier<SrsState>): KimchiKey {
    KimchiKey(v.wrapVk, v.wrapSrs.g, v.wrapSrs.h,
      LookupBasis(up, v.wrapSrs, AsUsize(bits, v.wrapVk.data.domainSize)))
  }

  function ContextOf(e: Entry): Context {
    Context(e.0, e.1)
  }

  /** The kimchi check of a batch with given public inputs, seeded by its own transcript. */
  function KimchiVerdict(up: Primitives, key: KimchiKey, es: seq<Entry>): bool {
    up.batchVerify(key, Map(ContextOf, es), up.chachaFromSeed(up.blake2s(Transcript(up, es))))
  }

  predicate AllAccumulate(up: Primitives, v: Verifier<SrsState>, proofs: seq<VerifiableProof>) {
    forall i | 0 <= i < |proofs| :: AccumulatorCheck(up, v, proofs[i])
  }

  /** `verify_batch`; `None` stands for a panic in the expansion. */
  function BatchVerdict(
    up: Primitives, bits: nat, v: Verifier<SrsState>, proofs: seq<VerifiableProof>
  ): Option<bool>
    requires bits > 0
  {
    if !AllAccumulate(up, v, proofs) then Some(false)
    else
      match PublicInputs(up, bits, v, proofs)
      case None => None
      case Some(pis) => Some(KimchiVerdict(up, KeyOf(up, bits, v), Paired(proofs, pis)))
  }

  /** `verify_batch` as it runs: the SRS may come out with one more basis cached. */
  method VerifyBatch(up: Primitives, bits: nat, v: Verifier<WrapSrs>, proofs: seq<VerifiableProof>)
    returns (r: Option<bool>)
    requires bits > 0
    modifies v.wrapSrs`lagrangeBases
    ensures r == BatchVerdict(up, bits, old(View(v)), proofs)
    ensures var n := AsUsize(bits, v.wrapVk.data.domainSize);
            v.wrapSrs.State() == old(v.wrapSrs.State()) || v.wrapSrs.State() == Warmed(up, old(v.wrapSrs.State()), n)
  {
    hide AccumulatorCheck, ExpandDeferred, PublicInputOf, Transcript;
    var view := View(v);
    var i := 0;
    while i < |proofs|
      invariant 0 <= i <= |proofs|
      invariant forall j | 0 <= j < i :: AccumulatorCheck(up, view, proofs[j])
    {
      if !AccumulatorCheck(up, view, proofs[i]) {
        return Some(false);
      }
      i := i + 1;
    }
    var pis: seq<seq<WrapField>> := [];
    i := 0;
    while i < |proofs|
      invariant 0 <= i <= |proofs| && |pis| == i
      invariant View(v) == view
      invariant forall j | 0 <= j < i :: ProofPublicInput(up, bits, view, proofs[j]) == Some(pis[j])
    {
      var dv := Expand(up, bits, view, proofs[i]);
      if dv.None? {
        PublicInputsFail(up, bits, view, proofs, i);
        return None;
      }
      var pi := WrapPublicInput(dv.value, proofs[i].messagesForNextStepProofDigest,
        proofs[i].messagesForNextWrapProofDigest);
      pis := pis + [pi];
      i := i + 1;
    }
    PublicInputsAre(up, bits, view, proofs, pis);
    assert AllAccumulate(up, view, proofs);
    var rng := BatchingRng(up, proofs, pis);
    var contexts := Map(ContextOf, Paired(proofs, pis));
    var basis := v.wrapSrs.GetLagrangeBasis(up, AsUsize(bits, v.wrapVk.data.domainSize));
    assert KimchiKey(v.wrapVk, v.wrapSrs.g, v.wrapSrs.h, basis) == KeyOf(up, bits, view);
    r := Some(up.batchVerify(KimchiKey(v.wrapVk, v.wrapSrs.g, v.wrapSrs.h, basis), contexts, rng));
  }

  /** `verify`: a batch of one. */
  method Verify(up: Primitives, bits: nat, v: Verifier<WrapSrs>, p: VerifiableProof) returns (r: Option<bool>)
    requires bits > 0
    modifies v.wrapSrs`lagrangeBases
    ensures r == BatchVerdict(up, bits, old(View(v)), [p])
    ensures var n := AsUsize(bits, v.wrapVk.data.domainSize);
            v.wrapSrs.State() == old(v.wrapSrs.State()) || v.wrapSrs.State() == Warmed(up, old(v.wrapSrs.State()), n)
  {
    r := VerifyBatch(up, bits, v, [p]);
  }

  lemma {:induction false} PublicInputsFail(
    up: Primitives, bits: nat, v: Verifier<SrsState>, proofs: seq<VerifiableProof>, i: nat)
    requires bits > 0 && i < |proofs| && ProofPublicInput(up, bits, v, proofs[i]) == None
    ensures PublicInputs(up, bits, v, proofs) == None
  {
  }

  /** A batch has public inputs exactly when each of its proofs does. */
  lemma {:induction false} PublicInputsExist(
    up: Primitives, bits: nat, v: Verifier<SrsState>, proofs: seq<VerifiableProof>)
    requires bits > 0
    ensures PublicInputs(up, bits, v, proofs).Some?
       <==> forall i | 0 <= i < |proofs| :: ProofPublicInput(up, bits, v, proofs[i]).Some?
  {
    hide ProofPublicInput, PublicInputs;
  }

  lemma {:induction false} PublicInputsAre(
    up: Primitives, bits: nat, v: Verifier<SrsState>, proofs: seq<VerifiableProof>, pis: seq<seq<WrapField>>)
    requires bits > 0 && |pis| == |proofs|
    requires forall i | 0 <= i < |proofs| :: ProofPublicInput(up, bits, v, proofs[i]) == Some(pis[i])
    ensures PublicInputs(up, bits, v, proofs) == Some(pis)
  {
    hide ProofPublicInput;
    if proofs != [] {
      PublicInputsAre(up, bits, v, proofs[1..], pis[1..]);
      assert pis == [pis[0]] + pis[1..];
    }
  }

  // --------------------------------------------------------------------------
  // What a verdict says
  // --------------------------------------------------------------------------

  /** One failing accumulator rejects the batch, before any expansion can panic. */
  lemma {:induction false} FailingAccumulatorRejects(
    up: Primitives, bits: nat, v: Verifier<SrsState>, proofs: seq<VerifiableProof>, i: nat)
    requires bits > 0 && i < |proofs| && !AccumulatorCheck(up, v, proofs[i])
    ensures BatchVerdict(up, bits, v, proofs) == Some(false)
  {
    hide AccumulatorCheck, PublicInputs, KimchiVerdict;
  }

  /** Verification panics exactly when every accumulator passes and some proof's expansion panics. */
  lemma {:induction false} PanicsExactly(up: Primitives, bits: nat, v: Verifier<SrsState>, proofs: seq<VerifiableProof>)
    requires bits > 0
    ensures BatchVerdict(up, bits, v, proofs) == None
       <==> && (forall i | 0 <= i < |proofs| :: AccumulatorCheck(up, v, proofs[i]))
            && exists i | 0 <= i < |proofs| :: ExpandDeferred(up, bits, v, proofs[i]).None?
  {
    hide AccumulatorCheck, PublicInputs, KimchiVerdict, ExpandDeferred, PublicInputOf;
    PublicInputsExist(up, bits, v, proofs);
    forall i | 0 <= i < |proofs|
      ensures ProofPublicInput(up, bits, v, proofs[i]).Some? <==> ExpandDeferred(up, bits, v, proofs[i]).Some?
    {
    }
  }

  /**
   Otherwise the verdict is the opening check's, over the whole batch: one context per proof, in order,
   with that proof's own public input; the verifier's key, generators, blinder and the basis at the
   key's domain size; and a generator seeded by the transcript of exactly these proofs and inputs.
   */
  lemma {:induction false} BatchOpensEveryProof(
    up: Primitives, bits: nat, v: Verifier<SrsState>, proofs: seq<VerifiableProof>,
    pis: seq<seq<WrapField>>, cs: seq<Context>, es: seq<Entry>)
    requires bits > 0 && |pis| == |cs| == |es| == |proofs|
    requires forall i | 0 <= i < |proofs| :: AccumulatorCheck(up, v, proofs[i])
    requires forall i | 0 <= i < |proofs| :: ProofPublicInput(up, bits, v, proofs[i]) == Some(pis[i])
    requires forall i | 0 <= i < |proofs| :: cs[i] == Context(proofs[i].wrapProof, pis[i])
    requires forall i | 0 <= i < |proofs| :: es[i] == (proofs[i].wrapProof, pis[i])
    ensures var basis := LookupBasis(up, v.wrapSrs, AsUsize(bits, v.wrapVk.data.domainSize));
            var seed := up.blake2s(AsciiBytes("pickles-verifier/batch-dlog-rng/v1") + EntriesBytes(up, es));
            BatchVerdict(up, bits, v, proofs)
            == Some(up.batchVerify(KimchiKey(v.wrapVk, v.wrapSrs.g, v.wrapSrs.h, basis), cs, up.chachaFromSeed(seed)))
  {
    hide AccumulatorCheck, ProofPublicInput, EntriesBytes, AsciiBytes;
    PublicInputsAre(up, bits, v, proofs, pis);
    assert Paired(proofs, pis) == es;
    assert Map(ContextOf, es) == cs;
  }

  /**
   What the shifted elements and xi of a public input say: un-shifted, they are the batched inner
   product over the evaluation table, the challenge polynomial's combined value, the oracles' powers of
   zeta for the SRS length and the domain size, and the permutation scalar.
   */
  lemma {:induction false} PublicInputScalars(
    up: Primitives, bits: nat, v: Verifier<SrsState>, p: VerifiableProof, k: nat, chals: seq<StepField>)
    requires bits > 0 && DomainLog2(bits, p.stepDomainLog2) == Some(k) && ProofPublicInput(up, bits, v, p).Some?
    requires ExpandedWith(up, v.stepEndo, p.rawBulletproofChallenges, chals)
    ensures up.oracles(OracleQueryOf(up, k, v, p)).Some? && Inverse(P, up.domainGenerator(k)).Some?
    ensures var pi := ProofPublicInput(up, bits, v, p).value;
            var o := up.oracles(OracleQueryOf(up, k, v, p)).value;
            var omega := up.domainGenerator(k);
            var zeta := up.stepToField(p.rawPlonk.zeta, v.stepEndo);
            var evals := ToProofEvaluations(p.prevEvals);
            var table := EvaluationRows(o.polys, o.publicEvals, o.ftEval0, p.prevEvals.ftEval1, evals);
            var factor := ZkPolynomial(P, Inverse(P, omega).value, v.stepZkRows, zeta);
            var coeffs := Coefficients(P, chals);
            && RawOfType1(pi[0]) == up.combinedInnerProduct(o.v, o.u, table)
            && RawOfType1(pi[1]) == Add(P, Eval(P, coeffs, zeta), Mul(P, o.u, Eval(P, coeffs, Mul(P, zeta, omega))))
            && RawOfType1(pi[2]) == o.chunkPowers.0
            && RawOfType1(pi[3]) == o.zeta1
            && RawOfType1(pi[4]) == up.permScalars(up.collapse(evals, o.chunkPowers), p.rawPlonk.beta,
                                                   p.rawPlonk.gamma, o.allAlphas, factor)
            && pi[9] == o.vChal
  {
    hide OracleQueryOf, EvaluationRows, ZkPolynomial, Inverse, DomainLog2, Add, Mul, Eval, Coefficients, BPoly,
      ToProofEvaluations, ExpandDeferred, RawOfType1, CrossFieldType1, FpToFq, PackBranchData, AccumulatorCoefficients;
    ExpansionComputes(up, bits, v, p, k, chals);
    StagesShareThePolynomial(up, bits, v, p, k, chals);
    var dv := ExpandDeferred(up, bits, v, p).value;
    Type1Unique(dv.combinedInnerProduct, 0);
    Type1Unique(dv.b, 0);
    Type1Unique(dv.zetaToSrsLength, 0);
    Type1Unique(dv.zetaToDomainSize, 0);
    Type1Unique(dv.perm, 0);
    FpToFqExact(dv.xi);
  }

  /** How kimchi documents two of its outputs: the powers of the queried zeta. */
  predicate PowersOfZeta(q: OracleQuery, o: DigestOracles) {
    o.zeta1 == Pow(P, q.zeta, Pow2(q.domainLog2)) && o.chunkPowers.0 == Pow(P, q.zeta, q.maxPolySize)
  }

  /** With such oracles, elements 2 and 3 are zeta to the SRS length and zeta to the domain size. */
  lemma {:induction false} PublicInputPowers(
    up: Primitives, bits: nat, v: Verifier<SrsState>, p: VerifiableProof, k: nat)
    requires bits > 0 && DomainLog2(bits, p.stepDomainLog2) == Some(k) && ProofPublicInput(up, bits, v, p).Some?
    requires up.oracles(OracleQueryOf(up, k, v, p)).Some?
         ==> PowersOfZeta(OracleQueryOf(up, k, v, p), up.oracles(OracleQueryOf(up, k, v, p)).value)
    ensures var pi := ProofPublicInput(up, bits, v, p).value;
            var zeta := up.stepToField(p.rawPlonk.zeta, v.stepEndo);
            && RawOfType1(pi[2]) == Pow(P, zeta, Pow2(v.stepSrsLengthLog2))
            && RawOfType1(pi[3]) == Pow(P, zeta, Pow2(k))
  {
    hide OracleQueryOf, DomainLog2, NewChallenges, RawOfType1, Pow, Pow2, ProofPublicInput;
    NewChallengesExpanded(up, v, p);
    PublicInputScalars(up, bits, v, p, k, NewChallenges(up, v, p));
    OraclesAsked(up, k, v, p);
  }

  /** What a configured verifier hands to the code it calls, for every proof. */
  ghost predicate CallsWithConstants(
    up: Primitives, bits: nat, numChunks: nat, v: Verifier<SrsState>, p: VerifiableProof)
  {
    && ExpandedWith(up, up.stepEndo, p.rawBulletproofChallenges, NewChallenges(up, v, p))
    && (forall k: nat {:trigger OracleQueryOf(up, k, v, p)} ::
          var q := OracleQueryOf(up, k, v, p);
          && q.maxPolySize == 65536 && q.zkRows == AsUsize(bits, 16 * numChunks + 5) / 7
          && q.gateEndo == up.stepGateEndo && (q.linearization, q.powersOfAlpha) == up.stepLinearization
          && q.alpha == up.stepToField(p.rawPlonk.alpha, up.stepEndo)
          && q.zeta == up.stepToField(p.rawPlonk.zeta, up.stepEndo))
    && KeyOf(up, bits, v).vk.endo == up.wrapGateEndo
    && (KeyOf(up, bits, v).vk.linearization, KeyOf(up, bits, v).vk.powersOfAlpha) == up.wrapLinearization
  }

  lemma {:induction false} ConfiguredCalls(
    up: Primitives, bits: nat, numChunks: nat, v: Verifier<SrsState>, p: VerifiableProof)
    requires Configured(up, bits, numChunks, v)
    ensures CallsWithConstants(up, bits, numChunks, v, p)
  {
    hide Pow2, NewChallenges;
    NewChallengesExpanded(up, v, p);
    SixteenRounds();
  }
}
