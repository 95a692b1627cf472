/**
 The verifier the guest decodes gives the verdicts of the one `Verifier::new` builds from the
 originals, on the guest's own word size; and those of a host with another word size exactly when
 neither size has the proof's domain, or both give it one domain and one zero-knowledge row count.
 */
module Equivalence {
  import opened Wrappers
  import opened Bytes
  import opened Fields
  import opened Blob
  import opened Types
  import opened Upstream
  import opened BlobLaws
  import opened VerifierBlob
  import opened Deferred
  import opened Expansion
  import opened Batching

  /** Agreement on everything a verification can observe on a host of `bits`-bit words. */
  predicate SameObservations(up: Primitives, bits: nat, v: Verifier<SrsState>, w: Verifier<SrsState>) {
    && v.wrapVk == w.wrapVk && v.vestaSrs.g == w.vestaSrs.g
    && v.stepZkRows == w.stepZkRows && v.stepSrsLengthLog2 == w.stepSrsLengthLog2
    && v.stepEndo == w.stepEndo && v.linearization == w.linearization && v.powersOfAlpha == w.powersOfAlpha
    && KeyOf(up, bits, v) == KeyOf(up, bits, w)
  }

  lemma {:induction false} SameAccumulator(
    up: Primitives, bits: nat, v: Verifier<SrsState>, w: Verifier<SrsState>, p: VerifiableProof)
    requires SameObservations(up, bits, v, w)
    ensures AccumulatorCheck(up, v, p) == AccumulatorCheck(up, w, p)
  {
  }

  lemma {:induction false} SameExpansion(
    up: Primitives, bits: nat, v: Verifier<SrsState>, w: Verifier<SrsState>, p: VerifiableProof)
    requires bits > 0 && SameObservations(up, bits, v, w)
    ensures ExpandDeferred(up, bits, v, p) == ExpandDeferred(up, bits, w, p)
  {
  }

  lemma {:induction false} SamePublicInputs(
    up: Primitives, bits: nat, v: Verifier<SrsState>, w: Verifier<SrsState>, proofs: seq<VerifiableProof>)
    requires bits > 0 && SameObservations(up, bits, v, w)
    ensures PublicInputs(up, bits, v, proofs) == PublicInputs(up, bits, w, proofs)
  {
    hide KeyOf, ExpandDeferred, PublicInputOf, SameObservations;
    if proofs != [] {
      SameExpansion(up, bits, v, w, proofs[0]);
      SamePublicInputs(up, bits, v, w, proofs[1..]);
    }
  }

  lemma {:induction false} SameVerdict(
    up: Primitives, bits: nat, v: Verifier<SrsState>, w: Verifier<SrsState>, proofs: seq<VerifiableProof>)
    requires bits > 0 && SameObservations(up, bits, v, w)
    ensures BatchVerdict(up, bits, v, proofs) == BatchVerdict(up, bits, w, proofs)
  {
    hide PublicInputs, AccumulatorCheck, KimchiVerdict;
    forall i | 0 <= i < |proofs|
      ensures AccumulatorCheck(up, v, proofs[i]) == AccumulatorCheck(up, w, proofs[i])
    {
      SameAccumulator(up, bits, v, w, proofs[i]);
    }
    SamePublicInputs(up, bits, v, w, proofs);
  }

  /**
   What shipping a verifier asks: postcard round-trips this key, the encoder has an SRS pair it can
   write and single-chunk bases, and both hosts can hold the sizes.
   */
  ghost predicate Shippable(
    up: Primitives, encBits: nat, bits: nat, vesta: VestaSrs, srs: SrsState, numChunks: Word, vk: VkData)
  {
    && VkRoundTrips(up, vk) && Encodable(up, encBits, vesta, srs, vk)
    && Encoded(up, encBits, vesta, srs, numChunks, vk).Ok?
    && vk.domainSize < Pow2(encBits)
    && HostFits(bits, Encoded(up, encBits, vesta, srs, numChunks, vk).value, numChunks, vk)
  }

  /** These conditions can be met: with a postcard that carries it, every key and chunk count ships. */
  lemma {:induction false} ShippableExists(up: Primitives, vk: WrapVk, numChunks: Word)
    ensures var postcard := up.(encodeVk := _ => [], decodeVk := _ => Some(vk), lagrangeBasis := (_, _) => []);
            var vesta, srs := VestaSrs([], IDENTITY, map[]), SrsState([], IDENTITY, map[]);
            Shippable(postcard, 64, 64, vesta, srs, numChunks, vk.data)
  {
    hide SectionBytes;
    var postcard := up.(encodeVk := _ => [], decodeVk := _ => Some(vk), lagrangeBasis := (_, _) => []);
    var vesta, srs := VestaSrs([], IDENTITY, map[]), SrsState([], IDENTITY, map[]);
    Pow2Of64();
    BlobSize(EncodedSections(postcard, vesta, srs, [], numChunks, vk.data));
  }

  /** The decoded verifier, from an aligned address and with anything after the blob. */
  ghost function Shipped(
    up: Primitives, encBits: nat, bits: nat, vesta: VestaSrs, srs: SrsState, numChunks: Word,
    vk: WrapVk, addr: nat, trailing: seq<Byte>
  ): Result<Verifier<SrsState>, BlobError>
    requires Shippable(up, encBits, bits, vesta, srs, numChunks, vk.data)
  {
    Decoded(up, bits, Slice(addr, Encoded(up, encBits, vesta, srs, numChunks, vk.data).value + trailing))
  }

  lemma {:induction false} ShippedObserves(
    up: Primitives, encBits: nat, bits: nat, vesta: VestaSrs, srs: SrsState, numChunks: Word,
    vk: WrapVk, addr: nat, trailing: seq<Byte>)
    requires Shippable(up, encBits, bits, vesta, srs, numChunks, vk.data) && addr % 8 == 0
    ensures var decoded := Shipped(up, encBits, bits, vesta, srs, numChunks, vk, addr, trailing);
            decoded.Ok? && SameObservations(up, bits, decoded.value, New(up, bits, vk, srs, vesta, numChunks))
  {
    hide Decoded, Encoded, Encodable, Pow2, VkRoundTrips;
    DecodeEncoded(up, encBits, bits, vesta, srs, numChunks, vk, addr, trailing);
  }

  /**
   Observational equivalence. Take any SRS pair (its cache may even be wrong), verification key and
   chunk count; encode them on one host and decode on another, from any aligned address and with
   anything after the blob. The decoded verifier checks every accumulator and judges every batch
   exactly as the verifier `Verifier::new` builds from the originals on the decoding host, although
   the Vesta blinder and both caches were not shipped.
   */
  lemma {:induction false} ObservationalEquivalence(
    up: Primitives, encBits: nat, bits: nat, vesta: VestaSrs, srs: SrsState, numChunks: Word,
    vk: WrapVk, addr: nat, trailing: seq<Byte>, p: VerifiableProof, proofs: seq<VerifiableProof>)
    requires Shippable(up, encBits, bits, vesta, srs, numChunks, vk.data) && addr % 8 == 0 && bits > 0
    ensures var decoded := Shipped(up, encBits, bits, vesta, srs, numChunks, vk, addr, trailing);
            var direct := New(up, bits, vk, srs, vesta, numChunks);
            && decoded.Ok?
            && AccumulatorCheck(up, decoded.value, p) == AccumulatorCheck(up, direct, p)
            && BatchVerdict(up, bits, decoded.value, proofs) == BatchVerdict(up, bits, direct, proofs)
  {
    hide Shippable, Shipped, New, AccumulatorCheck, BatchVerdict, SameObservations;
    ShippedObserves(up, encBits, bits, vesta, srs, numChunks, vk, addr, trailing);
    var direct := New(up, bits, vk, srs, vesta, numChunks);
    var decoded := Shipped(up, encBits, bits, vesta, srs, numChunks, vk, addr, trailing).value;
    SameAccumulator(up, bits, decoded, direct, p);
    SameVerdict(up, bits, decoded, direct, proofs);
  }

  /**
   What the shipped verifier works with: the accumulator's and stage 1's challenges are expanded with
   the step circuits' scalar endomorphism, the oracles get the step constants, and the opening check
   gets the original key's data with the wrap constants, the original generators and blinder, and the
   basis the encoder looked up. So does the verifier built directly.
   */
  lemma {:induction false} ShippedCalls(
    up: Primitives, encBits: nat, bits: nat, vesta: VestaSrs, srs: SrsState, numChunks: Word,
    vk: WrapVk, addr: nat, trailing: seq<Byte>, p: VerifiableProof)
    requires Shippable(up, encBits, bits, vesta, srs, numChunks, vk.data) && addr % 8 == 0
    ensures var shipped := Shipped(up, encBits, bits, vesta, srs, numChunks, vk, addr, trailing);
            && shipped.Ok? && CallsWithConstants(up, bits, numChunks, shipped.value, p)
            && shipped.value.vestaSrs.g == vesta.g
            && var key := KeyOf(up, bits, shipped.value);
               && key.vk.data == vk.data && key.g == srs.g && key.h == srs.h
               && key.lagrangeBasis == LookupBasis(up, srs, vk.data.domainSize)
    ensures CallsWithConstants(up, bits, numChunks, New(up, bits, vk, srs, vesta, numChunks), p)
  {
    hide Decoded, Encoded, Encodable, Pow2, VkRoundTrips, CallsWithConstants, Configured;
    DecodeEncoded(up, encBits, bits, vesta, srs, numChunks, vk, addr, trailing);
    NewConfigures(up, bits, vk, srs, vesta, numChunks);
    ConfiguredCalls(up, bits, numChunks, New(up, bits, vk, srs, vesta, numChunks), p);
    var oneBasis := OneBasis(up, srs, vk.data.domainSize);
    NewConfigures(up, bits, vk, oneBasis, VestaSrs(vesta.g, IDENTITY, map[]), numChunks);
    ConfiguredCalls(up, bits, numChunks,
      New(up, bits, vk, oneBasis, VestaSrs(vesta.g, IDENTITY, map[]), numChunks), p);
  }

  // --------------------------------------------------------------------------
  // Across word sizes
  // --------------------------------------------------------------------------

  /** The carried domain log2 of each proof. */
  function Logs(proofs: seq<VerifiableProof>): (logs: seq<nat>)
    ensures |logs| == |proofs| && forall i | 0 <= i < |proofs| :: logs[i] == proofs[i].stepDomainLog2
  {
    seq(|proofs|, i requires 0 <= i < |proofs| => proofs[i].stepDomainLog2)
  }

  /** Both word sizes give every carried log2 the same domain, if any. */
  predicate SameDomains(a: nat, b: nat, logs: seq<nat>)
    requires a > 0 && b > 0
  {
    forall i | 0 <= i < |logs| :: DomainLog2(a, logs[i]) == DomainLog2(b, logs[i])
  }

  /** Every carried log2 has a domain, so that the expansion gets to its oracles. */
  predicate HaveDomains(bits: nat, logs: seq<nat>)
    requires bits > 0
  {
    forall i | 0 <= i < |logs| :: DomainLog2(bits, logs[i]).Some?
  }

  /**
   The two word sizes agree on a batch: either both lack some proof's domain, or both give every proof
   one domain and (unless the batch is empty) compute one zero-knowledge row count.
   */
  predicate WidthsMatch(a: nat, b: nat, numChunks: nat, logs: seq<nat>)
    requires a > 0 && b > 0
  {
    || (!HaveDomains(a, logs) && !HaveDomains(b, logs))
    || (&& HaveDomains(a, logs) && HaveDomains(b, logs) && SameDomains(a, b, logs)
        && (logs == [] || ZkRows(a, numChunks) == ZkRows(b, numChunks)))
  }

  lemma {:induction false} WidthPublicInputs(
    up: Primitives, a: nat, b: nat, v: Verifier<SrsState>, proofs: seq<VerifiableProof>)
    requires a > 0 && b > 0 && SameDomains(a, b, Logs(proofs))
    ensures PublicInputs(up, a, v, proofs) == PublicInputs(up, b, v, proofs)
  {
    hide DomainLog2, ExpandWith, OracleQueryOf, Inverse, PublicInputOf;
    if proofs != [] {
      assert Logs(proofs)[0] == proofs[0].stepDomainLog2 && Logs(proofs[1..]) == Logs(proofs)[1..];
      WidthPublicInputs(up, a, b, v, proofs[1..]);
    }
  }

  /** A verifier's verdict depends on the word size only through the domains and the VK's size. */
  lemma {:induction false} WidthVerdict(
    up: Primitives, a: nat, b: nat, v: Verifier<SrsState>, proofs: seq<VerifiableProof>)
    requires a > 0 && b > 0 && SameDomains(a, b, Logs(proofs))
    requires v.wrapVk.data.domainSize < Pow2(a) && v.wrapVk.data.domainSize < Pow2(b)
    ensures BatchVerdict(up, a, v, proofs) == BatchVerdict(up, b, v, proofs)
  {
    hide PublicInputs, AccumulatorCheck, KimchiVerdict, SameDomains;
    WidthPublicInputs(up, a, b, v, proofs);
  }

  /** `Verifier::new` depends on the word size only through the zero-knowledge row count. */
  lemma {:induction false} WidthNew(
    up: Primitives, a: nat, b: nat, vk: WrapVk, srs: SrsState, vesta: VestaSrs, numChunks: nat)
    ensures New(up, a, vk, srs, vesta, numChunks) == New(up, b, vk, srs, vesta, numChunks)
       <==> ZkRows(a, numChunks) == ZkRows(b, numChunks)
  {
    hide ZkRows;
  }

  /** The accumulator checks and the opening key do not see the word size at all. */
  lemma {:induction false} WidthAccumulators(
    up: Primitives, a: nat, b: nat, vk: WrapVk, srs: SrsState, vesta: VestaSrs, numChunks: nat,
    proofs: seq<VerifiableProof>)
    requires vk.data.domainSize < Pow2(a) && vk.data.domainSize < Pow2(b)
    ensures var v, w := New(up, a, vk, srs, vesta, numChunks), New(up, b, vk, srs, vesta, numChunks);
            && AllAccumulate(up, v, proofs) == AllAccumulate(up, w, proofs)
            && KeyOf(up, a, v) == KeyOf(up, b, w)
  {
    hide ZkRows, Msm, Pow2;
    var v, w := New(up, a, vk, srs, vesta, numChunks), New(up, b, vk, srs, vesta, numChunks);
    forall i | 0 <= i < |proofs|
      ensures AccumulatorCheck(up, v, proofs[i]) == AccumulatorCheck(up, w, proofs[i])
    {
    }
  }

  /** A batch with a proof that has no domain has no public inputs. */
  lemma {:induction false} NoDomainNoInputs(
    up: Primitives, bits: nat, v: Verifier<SrsState>, proofs: seq<VerifiableProof>)
    requires bits > 0 && !HaveDomains(bits, Logs(proofs))
    ensures PublicInputs(up, bits, v, proofs) == None
  {
    hide DomainLog2, ExpandWith, OracleQueryOf, Inverse, PublicInputOf;
    var i :| 0 <= i < |proofs| && DomainLog2(bits, Logs(proofs)[i]).None?;
    PublicInputsFail(up, bits, v, proofs, i);
  }

  lemma {:induction false} SameStages(
    up: Primitives, a: nat, b: nat, v: Verifier<SrsState>, w: Verifier<SrsState>, proofs: seq<VerifiableProof>)
    requires a > 0 && b > 0 && AllAccumulate(up, v, proofs) == AllAccumulate(up, w, proofs)
    requires PublicInputs(up, a, v, proofs) == PublicInputs(up, b, w, proofs) && KeyOf(up, a, v) == KeyOf(up, b, w)
    ensures BatchVerdict(up, a, v, proofs) == BatchVerdict(up, b, w, proofs)
  {
    hide AllAccumulate, PublicInputs, KeyOf, KimchiVerdict;
  }

  /** When the word sizes match on a batch, two hosts that build their own verifiers judge it alike. */
  lemma {:induction false} MatchingHostsAgree(
    up: Primitives, a: nat, b: nat, vk: WrapVk, srs: SrsState, vesta: VestaSrs, numChunks: nat,
    proofs: seq<VerifiableProof>)
    requires a > 0 && b > 0 && WidthsMatch(a, b, numChunks, Logs(proofs))
    requires vk.data.domainSize < Pow2(a) && vk.data.domainSize < Pow2(b)
    ensures BatchVerdict(up, a, New(up, a, vk, srs, vesta, numChunks), proofs)
         == BatchVerdict(up, b, New(up, b, vk, srs, vesta, numChunks), proofs)
  {
    var v, w := New(up, a, vk, srs, vesta, numChunks), New(up, b, vk, srs, vesta, numChunks);
    WidthAccumulators(up, a, b, vk, srs, vesta, numChunks, proofs);
    hide HaveDomains, SameDomains, Pow2, AllAccumulate, BatchVerdict, KeyOf, New, ZkRows, Logs;
    if !HaveDomains(a, Logs(proofs)) {
      NoDomainNoInputs(up, a, v, proofs);
      NoDomainNoInputs(up, b, w, proofs);
    } else if proofs == [] {
      assert PublicInputs(up, a, v, []) == PublicInputs(up, b, w, []) == Some([]);
    } else {
      WidthNew(up, a, b, vk, srs, vesta, numChunks);
      WidthPublicInputs(up, a, b, v, proofs);
      assert PublicInputs(up, a, v, proofs) == PublicInputs(up, b, w, proofs);
    }
    SameStages(up, a, b, v, w, proofs);
  }

  /**
   The host's own verdict: whenever the word sizes match on a batch, the decoded verifier on the guest
   returns what the verifier the host builds for itself returns on the host.
   */
  lemma {:induction false} HostAndGuestAgree(
    up: Primitives, encBits: nat, bits: nat, vesta: VestaSrs, srs: SrsState, numChunks: Word,
    vk: WrapVk, addr: nat, trailing: seq<Byte>, proofs: seq<VerifiableProof>)
    requires Shippable(up, encBits, bits, vesta, srs, numChunks, vk.data) && addr % 8 == 0
    requires bits > 0 && encBits > 0 && WidthsMatch(encBits, bits, numChunks, Logs(proofs))
    ensures var decoded := Shipped(up, encBits, bits, vesta, srs, numChunks, vk, addr, trailing);
            var host := New(up, encBits, vk, srs, vesta, numChunks);
            && decoded.Ok?
            && BatchVerdict(up, bits, decoded.value, proofs) == BatchVerdict(up, encBits, host, proofs)
  {
    hide Shippable, Shipped, BatchVerdict, WidthsMatch, Pow2, SameObservations, New;
    ShippableFits(up, encBits, bits, vesta, srs, numChunks, vk.data);
    ShippedObserves(up, encBits, bits, vesta, srs, numChunks, vk, addr, trailing);
    SameVerdict(up, bits, Shipped(up, encBits, bits, vesta, srs, numChunks, vk, addr, trailing).value,
      New(up, bits, vk, srs, vesta, numChunks), proofs);
    MatchingHostsAgree(up, encBits, bits, vk, srs, vesta, numChunks, proofs);
  }

  lemma {:induction false} ShippableFits(
    up: Primitives, encBits: nat, bits: nat, vesta: VestaSrs, srs: SrsState, numChunks: Word, vk: VkData)
    requires Shippable(up, encBits, bits, vesta, srs, numChunks, vk)
    ensures vk.domainSize < Pow2(encBits) && vk.domainSize < Pow2(bits)
  {
    hide Encodable, Encoded, VkRoundTrips, Pow2;
  }

  /** A carried log2 that leaves less than 32 modulo 64 has one domain on 32- and 64-bit hosts. */
  lemma {:induction false} UsualWidthsAgree(logs: seq<nat>)
    ensures SameDomains(32, 64, logs) <==> forall i | 0 <= i < |logs| :: logs[i] % 64 < 32
  {
    hide DomainLog2;
    forall i | 0 <= i < |logs|
      ensures DomainLog2(32, logs[i]) == DomainLog2(64, logs[i]) <==> logs[i] % 64 < 32
    {
      WidthsAgree(logs[i]);
    }
  }

  // --------------------------------------------------------------------------
  // The match is needed
  // --------------------------------------------------------------------------

  /** Upstream functions under which every accumulator check against `c` passes, refusing some queries. */
  function Refusing(
    up: Primitives, o: DigestOracles, c: Option<VestaPoint>, refuse: OracleQuery -> bool
  ): Primitives
  {
    up.(intoAffine := _ => c, domainGenerator := _ => 1,
        oracles := (q: OracleQuery) => if refuse(q) then None else Some(o))
  }

  lemma {:induction false} OneInvertible()
    ensures Inverse(P, 1).Some?
  {
    assert 1 % P == 1 && P % 1 == 0;
    assert ExtGcd(1, 0).0 == 1;
    assert ExtGcd(P, 1).0 == 1;
  }

  /** Under them a proof has a public input exactly when it has a domain and its query is not refused. */
  predicate Answered(
    up: Primitives, refuse: OracleQuery -> bool, bits: nat, v: Verifier<SrsState>, p: VerifiableProof)
    requires bits > 0
  {
    var k := DomainLog2(bits, p.stepDomainLog2);
    k.Some? && !refuse(OracleQueryOf(up, k.value, v, p))
  }

  lemma {:induction false} RefusingInput(
    up: Primitives, o: DigestOracles, c: Option<VestaPoint>, refuse: OracleQuery -> bool, bits: nat,
    v: Verifier<SrsState>, p: VerifiableProof)
    requires bits > 0
    ensures var up' := Refusing(up, o, c, refuse);
            ProofPublicInput(up', bits, v, p).Some? <==> Answered(up', refuse, bits, v, p)
  {
    hide Inverse, DomainLog2, ExpandWith, PublicInputOf, OracleQueryOf;
    OneInvertible();
  }

  lemma {:induction false} RefusingAccumulates(
    up: Primitives, o: DigestOracles, c: Option<VestaPoint>, refuse: OracleQuery -> bool,
    v: Verifier<SrsState>, proofs: seq<VerifiableProof>)
    requires forall i | 0 <= i < |proofs| :: proofs[i].challengePolynomialCommitment == c
    ensures AllAccumulate(Refusing(up, o, c, refuse), v, proofs)
  {
    hide Msm, AccumulatorCoefficients;
  }

  lemma {:induction false} RefusingVerdict(
    up: Primitives, o: DigestOracles, c: Option<VestaPoint>, refuse: OracleQuery -> bool, bits: nat,
    v: Verifier<SrsState>, proofs: seq<VerifiableProof>)
    requires bits > 0 && forall i | 0 <= i < |proofs| :: proofs[i].challengePolynomialCommitment == c
    ensures var up' := Refusing(up, o, c, refuse);
            BatchVerdict(up', bits, v, proofs).Some?
            <==> forall i | 0 <= i < |proofs| :: Answered(up', refuse, bits, v, proofs[i])
  {
    var up' := Refusing(up, o, c, refuse);
    RefusingAccumulates(up, o, c, refuse, v, proofs);
    PublicInputsExist(up', bits, v, proofs);
    hide Refusing, Answered, ProofPublicInput, KimchiVerdict, AllAccumulate, PublicInputs, KeyOf;
    forall i | 0 <= i < |proofs|
      ensures ProofPublicInput(up', bits, v, proofs[i]).Some? <==> Answered(up', refuse, bits, v, proofs[i])
    {
      RefusingInput(up, o, c, refuse, bits, v, proofs[i]);
    }
  }

  /**
   For one verifier the domains decide: two word sizes judge a proof alike, whatever the upstream
   functions do, if and only if they give it the same domain.
   */
  lemma {:induction false} WidthsJudgeAlike(
    up: Primitives, o: DigestOracles, a: nat, b: nat, v: Verifier<SrsState>, p: VerifiableProof)
    requires a > 0 && b > 0 && v.wrapVk.data.domainSize < Pow2(a) && v.wrapVk.data.domainSize < Pow2(b)
    ensures (forall up': Primitives :: BatchVerdict(up', a, v, [p]) == BatchVerdict(up', b, v, [p]))
       <==> DomainLog2(a, p.stepDomainLog2) == DomainLog2(b, p.stepDomainLog2)
  {
    hide BatchVerdict, DomainLog2, Pow2, Refusing;
    var ka, kb := DomainLog2(a, p.stepDomainLog2), DomainLog2(b, p.stepDomainLog2);
    assert Logs([p]) == [p.stepDomainLog2];
    if ka == kb {
      forall up': Primitives
        ensures BatchVerdict(up', a, v, [p]) == BatchVerdict(up', b, v, [p])
      {
        WidthVerdict(up', a, b, v, [p]);
      }
    } else {
      var refuse := (q: OracleQuery) => Some(q.domainLog2) == (if ka.Some? then kb else ka);
      RefusingVerdict(up, o, p.challengePolynomialCommitment, refuse, a, v, [p]);
      RefusingVerdict(up, o, p.challengePolynomialCommitment, refuse, b, v, [p]);
      var up' := Refusing(up, o, p.challengePolynomialCommitment, refuse);
      assert Answered(up', refuse, a, v, p) != Answered(up', refuse, b, v, p);
      assert [p][0] == p;
      assert BatchVerdict(up', a, v, [p]) != BatchVerdict(up', b, v, [p]);
    }
  }

  /** Refusing exactly one side's queries makes the two hosts' verdicts differ. */
  lemma {:induction false} RefusalTells(
    up: Primitives, o: DigestOracles, c: Option<VestaPoint>, refuse: OracleQuery -> bool, a: nat, b: nat,
    vk: WrapVk, srs: SrsState, vesta: VestaSrs, numChunks: nat, proofs: seq<VerifiableProof>, i: nat)
    requires a > 0 && b > 0 && i < |proofs|
    requires forall j | 0 <= j < |proofs| :: proofs[j].challengePolynomialCommitment == c
    requires var up' := Refusing(up, o, c, refuse);
             && !Answered(up', refuse, b, New(up', b, vk, srs, vesta, numChunks), proofs[i])
             && forall j | 0 <= j < |proofs| ::
                  Answered(up', refuse, a, New(up', a, vk, srs, vesta, numChunks), proofs[j])
    ensures var up' := Refusing(up, o, c, refuse);
            BatchVerdict(up', a, New(up', a, vk, srs, vesta, numChunks), proofs)
            != BatchVerdict(up', b, New(up', b, vk, srs, vesta, numChunks), proofs)
  {
    var up' := Refusing(up, o, c, refuse);
    hide Refusing, Answered, BatchVerdict, New;
    RefusingVerdict(up, o, c, refuse, a, New(up', a, vk, srs, vesta, numChunks), proofs);
    RefusingVerdict(up, o, c, refuse, b, New(up', b, vk, srs, vesta, numChunks), proofs);
  }

  /** Proofs with the given logs, told apart from each other by a digest of 1 at position `i`. */
  function Marked(p: VerifiableProof, logs: seq<nat>, i: nat): (proofs: seq<VerifiableProof>)
    ensures |proofs| == |logs| && Logs(proofs) == logs
    ensures forall j | 0 <= j < |logs| ::
              && proofs[j].challengePolynomialCommitment == p.challengePolynomialCommitment
              && proofs[j].spongeDigestBeforeEvaluations == (if j == i then 1 else 0)
  {
    seq(|logs|, j requires 0 <= j < |logs| =>
      p.(stepDomainLog2 := logs[j], spongeDigestBeforeEvaluations := if j == i then 1 else 0))
  }

  /** The refusal that tells the two hosts apart at a position: of the second host's domain, or of its rows. */
  function Refusal(a: nat, b: nat, numChunks: nat, log2: nat, digest: StepField): OracleQuery -> bool
    requires a > 0 && b > 0
  {
    (q: OracleQuery) =>
      if DomainLog2(a, log2) != DomainLog2(b, log2) then Some(q.domainLog2) == DomainLog2(b, log2) && q.digest == digest
      else q.zkRows == ZkRows(b, numChunks)
  }

  /** A batch on which the second host lacks a domain, or differs at position `i` in domain or rows. */
  lemma {:induction false} MismatchTells(
    up: Primitives, o: DigestOracles, a: nat, b: nat, vk: WrapVk, srs: SrsState, vesta: VestaSrs, numChunks: nat,
    proofs: seq<VerifiableProof>, i: nat, c: Option<VestaPoint>)
    requires a > 0 && b > 0 && i < |proofs| && HaveDomains(a, Logs(proofs))
    requires forall j | 0 <= j < |proofs| :: proofs[j].challengePolynomialCommitment == c
    requires forall j | 0 <= j < |proofs| && j != i ::
               proofs[j].spongeDigestBeforeEvaluations != proofs[i].spongeDigestBeforeEvaluations
    requires var l := proofs[i].stepDomainLog2;
             DomainLog2(a, l) != DomainLog2(b, l) || ZkRows(a, numChunks) != ZkRows(b, numChunks)
    ensures var refuse := Refusal(a, b, numChunks, proofs[i].stepDomainLog2, proofs[i].spongeDigestBeforeEvaluations);
            var up' := Refusing(up, o, c, refuse);
            BatchVerdict(up', a, New(up', a, vk, srs, vesta, numChunks), proofs)
            != BatchVerdict(up', b, New(up', b, vk, srs, vesta, numChunks), proofs)
  {
    hide DomainLog2, ZkRows, BatchVerdict, Refusing;
    var refuse := Refusal(a, b, numChunks, proofs[i].stepDomainLog2, proofs[i].spongeDigestBeforeEvaluations);
    var up' := Refusing(up, o, c, refuse);
    forall j | 0 <= j < |proofs|
      ensures Answered(up', refuse, a, New(up', a, vk, srs, vesta, numChunks), proofs[j])
    {
      assert DomainLog2(a, Logs(proofs)[j]).Some?;
    }
    RefusalTells(up, o, c, refuse, a, b, vk, srs, vesta, numChunks, proofs, i);
  }

  /** Both word sizes lack the domain of a log2, or give it one domain and one row count. */
  lemma {:induction false} SingleMatch(a: nat, b: nat, numChunks: nat, log2: nat)
    requires a > 0 && b > 0
    ensures WidthsMatch(a, b, numChunks, [log2])
       <==> && DomainLog2(a, log2) == DomainLog2(b, log2)
            && (DomainLog2(a, log2).None? || ZkRows(a, numChunks) == ZkRows(b, numChunks))
  {
    hide DomainLog2, ZkRows;
    assert [log2][0] == log2;
  }

  /** A proof the word sizes do not match on is judged differently under some upstream functions. */
  lemma {:induction false} ProofTells(
    up: Primitives, o: DigestOracles, a: nat, b: nat, vk: WrapVk, srs: SrsState, vesta: VestaSrs, numChunks: nat,
    p: VerifiableProof)
    returns (up': Primitives)
    requires a > 0 && b > 0 && !WidthsMatch(a, b, numChunks, [p.stepDomainLog2])
    ensures BatchVerdict(up', a, New(up', a, vk, srs, vesta, numChunks), [p])
         != BatchVerdict(up', b, New(up', b, vk, srs, vesta, numChunks), [p])
    ensures SameCodecs(up, up')
  {
    hide DomainLog2, ZkRows, BatchVerdict, New, WidthsMatch;
    var l, c := p.stepDomainLog2, p.challengePolynomialCommitment;
    SingleMatch(a, b, numChunks, l);
    assert Logs([p]) == [l];
    if DomainLog2(a, l).Some? {
      MismatchTells(up, o, a, b, vk, srs, vesta, numChunks, [p], 0, c);
      up' := Refusing(up, o, c, Refusal(a, b, numChunks, l, p.spongeDigestBeforeEvaluations));
    } else {
      MismatchTells(up, o, b, a, vk, srs, vesta, numChunks, [p], 0, c);
      up' := Refusing(up, o, c, Refusal(b, a, numChunks, l, p.spongeDigestBeforeEvaluations));
    }
  }

  /** The primitives the blob passes through are the same. */
  ghost predicate SameCodecs(up: Primitives, up': Primitives) {
    up.encodeVk == up'.encodeVk && up.decodeVk == up'.decodeVk && up.lagrangeBasis == up'.lagrangeBasis
  }

  lemma {:induction false} BatchTells(
    up: Primitives, o: DigestOracles, a: nat, b: nat, vk: WrapVk, srs: SrsState, vesta: VestaSrs, numChunks: nat,
    p: VerifiableProof, logs: seq<nat>)
    returns (up': Primitives, proofs: seq<VerifiableProof>)
    requires a > 0 && b > 0 && !WidthsMatch(a, b, numChunks, logs)
    ensures Logs(proofs) == logs
    ensures BatchVerdict(up', a, New(up', a, vk, srs, vesta, numChunks), proofs)
         != BatchVerdict(up', b, New(up', b, vk, srs, vesta, numChunks), proofs)
  {
    hide DomainLog2, ZkRows, BatchVerdict, New, Refusal;
    var c := p.challengePolynomialCommitment;
    var i: nat :| i < |logs| && (|| DomainLog2(a, logs[i]) != DomainLog2(b, logs[i])
                                 || ZkRows(a, numChunks) != ZkRows(b, numChunks));
    proofs := Marked(p, logs, i);
    assert proofs[i].stepDomainLog2 == Logs(proofs)[i];
    if HaveDomains(a, logs) {
      MismatchTells(up, o, a, b, vk, srs, vesta, numChunks, proofs, i, c);
      up' := Refusing(up, o, c,
        Refusal(a, b, numChunks, proofs[i].stepDomainLog2, proofs[i].spongeDigestBeforeEvaluations));
    } else {
      MismatchTells(up, o, b, a, vk, srs, vesta, numChunks, proofs, i, c);
      up' := Refusing(up, o, c,
        Refusal(b, a, numChunks, proofs[i].stepDomainLog2, proofs[i].spongeDigestBeforeEvaluations));
    }
  }

  /**
   Exactly when two hosts that build their own verifiers judge a proof alike, whatever the upstream
   functions do: neither word size has its domain, or both give it one domain and one row count.
   */
  lemma {:induction false} HostsJudgeAlike(
    up: Primitives, o: DigestOracles, a: nat, b: nat, vk: WrapVk, srs: SrsState, vesta: VestaSrs, numChunks: nat,
    p: VerifiableProof)
    requires a > 0 && b > 0 && vk.data.domainSize < Pow2(a) && vk.data.domainSize < Pow2(b)
    ensures (forall up': Primitives ::
               BatchVerdict(up', a, New(up', a, vk, srs, vesta, numChunks), [p])
               == BatchVerdict(up', b, New(up', b, vk, srs, vesta, numChunks), [p]))
       <==> && DomainLog2(a, p.stepDomainLog2) == DomainLog2(b, p.stepDomainLog2)
            && (DomainLog2(a, p.stepDomainLog2).None? || ZkRows(a, numChunks) == ZkRows(b, numChunks))
  {
    hide BatchVerdict, New, DomainLog2, ZkRows, Pow2, WidthsMatch;
    SingleMatch(a, b, numChunks, p.stepDomainLog2);
    assert Logs([p]) == [p.stepDomainLog2];
    if WidthsMatch(a, b, numChunks, [p.stepDomainLog2]) {
      forall up': Primitives
        ensures BatchVerdict(up', a, New(up', a, vk, srs, vesta, numChunks), [p])
             == BatchVerdict(up', b, New(up', b, vk, srs, vesta, numChunks), [p])
      {
        MatchingHostsAgree(up', a, b, vk, srs, vesta, numChunks, [p]);
      }
    } else {
      var up' := ProofTells(up, o, a, b, vk, srs, vesta, numChunks, p);
    }
  }

  /** The same for batches: the word sizes match on their logs exactly when no batch with them tells. */
  lemma {:induction false} HostsJudgeBatchesAlike(
    up: Primitives, o: DigestOracles, a: nat, b: nat, vk: WrapVk, srs: SrsState, vesta: VestaSrs, numChunks: nat,
    p: VerifiableProof, logs: seq<nat>)
    requires a > 0 && b > 0 && vk.data.domainSize < Pow2(a) && vk.data.domainSize < Pow2(b)
    ensures (forall up': Primitives, proofs: seq<VerifiableProof> :: Logs(proofs) == logs ==>
               BatchVerdict(up', a, New(up', a, vk, srs, vesta, numChunks), proofs)
               == BatchVerdict(up', b, New(up', b, vk, srs, vesta, numChunks), proofs))
       <==> WidthsMatch(a, b, numChunks, logs)
  {
    hide BatchVerdict, New, Pow2, WidthsMatch;
    if WidthsMatch(a, b, numChunks, logs) {
      forall up': Primitives, proofs: seq<VerifiableProof> | Logs(proofs) == logs
        ensures BatchVerdict(up', a, New(up', a, vk, srs, vesta, numChunks), proofs)
             == BatchVerdict(up', b, New(up', b, vk, srs, vesta, numChunks), proofs)
      {
        MatchingHostsAgree(up', a, b, vk, srs, vesta, numChunks, proofs);
      }
    } else {
      var up', proofs := BatchTells(up, o, a, b, vk, srs, vesta, numChunks, p, logs);
    }
  }

  lemma {:induction false} ShippableCodecs(
    up: Primitives, up': Primitives, encBits: nat, bits: nat, vesta: VestaSrs, srs: SrsState, numChunks: Word,
    vk: VkData)
    requires Shippable(up, encBits, bits, vesta, srs, numChunks, vk) && SameCodecs(up, up')
    ensures Shippable(up', encBits, bits, vesta, srs, numChunks, vk)
  {
    hide SectionBytes, Pow2;
  }

  /** The guest returns the host's verdict on a proof. */
  ghost predicate GuestFollowsHost(
    up: Primitives, encBits: nat, bits: nat, vesta: VestaSrs, srs: SrsState, numChunks: Word,
    vk: WrapVk, addr: nat, trailing: seq<Byte>, p: VerifiableProof)
    requires encBits > 0 && bits > 0
    requires Shippable(up, encBits, bits, vesta, srs, numChunks, vk.data)
  {
    var decoded := Shipped(up, encBits, bits, vesta, srs, numChunks, vk, addr, trailing);
    && decoded.Ok?
    && BatchVerdict(up, bits, decoded.value, [p])
       == BatchVerdict(up, encBits, New(up, encBits, vk, srs, vesta, numChunks), [p])
  }

  /**
   Exactly when the guest's verdict is the host's: for every upstream under which the verifier ships,
   the decoded verifier on the guest follows the host's own verifier on a proof, if and only if the
   word sizes match on it.
   */
  lemma {:induction false} HostAndGuestExact(
    up: Primitives, o: DigestOracles, encBits: nat, bits: nat, vesta: VestaSrs, srs: SrsState, numChunks: Word,
    vk: WrapVk, addr: nat, trailing: seq<Byte>, p: VerifiableProof)
    requires encBits > 0 && bits > 0 && addr % 8 == 0
    requires Shippable(up, encBits, bits, vesta, srs, numChunks, vk.data)
    ensures (forall up': Primitives :: Shippable(up', encBits, bits, vesta, srs, numChunks, vk.data) ==>
               GuestFollowsHost(up', encBits, bits, vesta, srs, numChunks, vk, addr, trailing, p))
       <==> WidthsMatch(encBits, bits, numChunks, [p.stepDomainLog2])
  {
    hide Shippable, Shipped, BatchVerdict, New, Pow2, WidthsMatch;
    assert Logs([p]) == [p.stepDomainLog2];
    if WidthsMatch(encBits, bits, numChunks, [p.stepDomainLog2]) {
      forall up': Primitives | Shippable(up', encBits, bits, vesta, srs, numChunks, vk.data)
        ensures GuestFollowsHost(up', encBits, bits, vesta, srs, numChunks, vk, addr, trailing, p)
      {
        HostAndGuestAgree(up', encBits, bits, vesta, srs, numChunks, vk, addr, trailing, [p]);
      }
    } else {
      var up' := ProofTells(up, o, encBits, bits, vk, srs, vesta, numChunks, p);
      ShippableCodecs(up, up', encBits, bits, vesta, srs, numChunks, vk.data);
      ObservationalEquivalence(up', encBits, bits, vesta, srs, numChunks, vk, addr, trailing, p, [p]);
      assert !GuestFollowsHost(up', encBits, bits, vesta, srs, numChunks, vk, addr, trailing, p);
    }
  }

  /**
   For instance, with a carried log2 of 33 (the character `!`) a 64-bit host always
   panics once the accumulator check passes, while a 32-bit host gives a verdict whenever upstream
   answers for the domain of size 2.
   */
  lemma {:induction false} WidthMatters(up: Primitives, v: Verifier<SrsState>, p: VerifiableProof)
    requires p.stepDomainLog2 == 33 && AccumulatorCheck(up, v, p)
    ensures BatchVerdict(up, 64, v, [p]) == None
    ensures BatchVerdict(up, 32, v, [p]).Some?
       <==> up.oracles(OracleQueryOf(up, 1, v, p)).Some? && Inverse(P, up.domainGenerator(1)).Some?
  {
    hide AccumulatorCheck, OracleQueryOf, Inverse, DomainLog2, ExpandWith, PublicInputOf, KimchiVerdict;
    WidthsDiffer();
    assert [p][1..] == [];
  }

  // --------------------------------------------------------------------------
  // On objects
  // --------------------------------------------------------------------------

  /**
   The guest's path on real objects: encode on the host, decode into a fresh verifier, verify. The
   verdict is that of the verifier built directly from the SRS as it was before encoding, on the
   guest's word size, and whenever the word sizes match on the proof, on the host's; a truthful cache stays truthful.
   */
  method ShipAndVerify(
    up: Primitives, encBits: nat, bits: nat, vesta: VestaSrs, srs: WrapSrs, numChunks: Word,
    vk: WrapVk, addr: nat, p: VerifiableProof
  ) returns (r: Option<bool>)
    requires Shippable(up, encBits, bits, vesta, srs.State(), numChunks, vk.data)
    requires addr % 8 == 0 && bits > 0 && encBits > 0
    modifies srs`lagrangeBases
    ensures r == BatchVerdict(up, bits, New(up, bits, vk, old(srs.State()), vesta, numChunks), [p])
    ensures WidthsMatch(encBits, bits, numChunks, [p.stepDomainLog2])
        ==> r == BatchVerdict(up, encBits, New(up, encBits, vk, old(srs.State()), vesta, numChunks), [p])
    ensures srs.State() == Warmed(up, old(srs.State()), AsUsize(encBits, vk.data.domainSize))
    ensures old(Coherent(up, srs.State())) ==> Coherent(up, srs.State())
  {
    hide Decoded, Encoded, Encodable, BatchVerdict, Pow2, VkRoundTrips, HostFits, New, WidthsMatch;
    ghost var before := srs.State();
    CoherentLookup(up, before, AsUsize(encBits, vk.data.domainSize), AsUsize(encBits, vk.data.domainSize));
    ObservationalEquivalence(up, encBits, bits, vesta, before, numChunks, vk, addr, [], p, [p]);
    assert Logs([p]) == [p.stepDomainLog2];
    if WidthsMatch(encBits, bits, numChunks, [p.stepDomainLog2]) {
      HostAndGuestAgree(up, encBits, bits, vesta, before, numChunks, vk, addr, [], [p]);
    }
    var blob := EncodeVerifierBlob(up, encBits, vesta, srs, numChunks, vk);
    assert blob.value + [] == blob.value;
    var decoded := DecodeVerifierBlob(up, bits, Slice(addr, blob.value));
    r := Verify(up, bits, decoded.value, p);
  }

  /**
   Verifying leaves every later verdict unchanged, whatever the cache held: the entry it may fill is
   transparent. A truthful cache stays truthful.
   */
  lemma {:induction false} VerificationRepeatable(
    up: Primitives, bits: nat, v: Verifier<SrsState>, n: nat, proofs: seq<VerifiableProof>)
    requires bits > 0
    ensures BatchVerdict(up, bits, v.(wrapSrs := Warmed(up, v.wrapSrs, n)), proofs)
         == BatchVerdict(up, bits, v, proofs)
    ensures Coherent(up, v.wrapSrs) ==> Coherent(up, Warmed(up, v.wrapSrs, n))
  {
    hide BatchVerdict, Coherent;
    CoherentLookup(up, v.wrapSrs, n, AsUsize(bits, v.wrapVk.data.domainSize));
    CoherentLookup(up, v.wrapSrs, n, n);
    SameVerdict(up, bits, v.(wrapSrs := Warmed(up, v.wrapSrs, n)), v, proofs);
  }

  /**
   What a decoded verifier opens against is the basis in the blob, whatever its length or contents:
   the cache key comes from the VK, so the lookup at the proof's domain size is always a hit. It is
   the generator's basis if and only if the blob's section is; nothing falls back to the generator.
   */
  lemma {:induction false} DecodedBasisIsTrusted(up: Primitives, bits: nat, blob: Slice)
    requires Decoded(up, bits, blob).Ok?
    ensures ParseSections(bits, blob).Ok?
    ensures var v := Decoded(up, bits, blob).value;
            var shipped := Map(SingleChunk, Map(FromPod, ParseSections(bits, blob).value.0.wrapBasis));
            var n := AsUsize(bits, v.wrapVk.data.domainSize);
            && n in v.wrapSrs.lagrangeBases
            && KeyOf(up, bits, v).lagrangeBasis == shipped
            && (Coherent(up, v.wrapSrs) <==> shipped == up.lagrangeBasis(v.wrapSrs.g, n))
  {
    hide ParseSections, Pow2;
  }

  /**
   And such blobs exist: any layout whose basis section is empty, with a decodable key for which the
   generator's basis is not, decodes without error into a verifier that opens against no basis at all.
   */
  lemma {:induction false} WrongBasisDecodes(up: Primitives, bits: nat, addr: nat, x: Sections, vk: WrapVk)
    requires addr % 8 == 0 && LengthsFit(x) && |SectionBytes(x)| < Pow2(bits)
    requires x.wrapBasis == [] && up.decodeVk(x.vkBytes) == Some(vk)
    requires up.lagrangeBasis(Map(FromPod, x.wrapG), AsUsize(bits, vk.data.domainSize)) != []
    ensures var v := Decoded(up, bits, Slice(addr, SectionBytes(x)));
            v.Ok? && !Coherent(up, v.value.wrapSrs) && KeyOf(up, bits, v.value).lagrangeBasis == []
  {
    hide ParseSections, SectionBytes, Pow2;
    ParseWritten(bits, addr, x, []);
    assert SectionBytes(x) + [] == SectionBytes(x);
    DecodedBasisIsTrusted(up, bits, Slice(addr, SectionBytes(x)));
  }
}
