/**
 The wrap SRS with its Lagrange-basis cache, the per-tag `Verifier`, and the public
 encode / decode pair of the verifier blob.
 */
module VerifierBlob {
  import opened Wrappers
  import opened Bytes
  import opened Fields
  import opened Blob
  import opened BlobLaws
  import opened Types
  import opened Upstream

  type Basis = seq<PolyComm<Affine>>

  const IDENTITY: Affine := Affine([0, 0, 0, 0], [0, 0, 0, 0], true)

  // --------------------------------------------------------------------------
  // The SRS and its cache
  // --------------------------------------------------------------------------

  datatype SrsState = SrsState(g: seq<Affine>, h: Affine, lagrangeBases: map<nat, Basis>)

  /** `get_lagrange_basis_from_domain_size`: the cached basis, or a generated one. */
  function LookupBasis(up: Primitives, s: SrsState, n: nat): Basis {
    if n in s.lagrangeBases then s.lagrangeBases[n] else up.lagrangeBasis(s.g, n)
  }

  /** The SRS after a lookup: the answer is cached. */
  function Warmed(up: Primitives, s: SrsState, n: nat): SrsState {
    s.(lagrangeBases := s.lagrangeBases[n := LookupBasis(up, s, n)])
  }

  /** Every cached basis is the one the generator would compute. */
  predicate Coherent(up: Primitives, s: SrsState) {
    forall n | n in s.lagrangeBases :: s.lagrangeBases[n] == up.lagrangeBasis(s.g, n)
  }

  class WrapSrs {
    var g: seq<Affine>
    var h: Affine
    var lagrangeBases: map<nat, Basis>

    /** `WrapSrs::default()`. */
    constructor Default()
      ensures State() == SrsState([], IDENTITY, map[])
    {
      g, h, lagrangeBases := [], IDENTITY, map[];
    }

    function State(): SrsState
      reads this
    {
      SrsState(g, h, lagrangeBases)
    }

    method GetLagrangeBasis(up: Primitives, n: nat) returns (basis: Basis)
      modifies this`lagrangeBases
      ensures basis == LookupBasis(up, old(State()), n)
      ensures State() == Warmed(up, old(State()), n)
    {
      if n !in lagrangeBases {
        lagrangeBases := lagrangeBases[n := up.lagrangeBasis(g, n)];
      }
      basis := lagrangeBases[n];
      assert lagrangeBases == old(lagrangeBases)[n := basis];
    }

    /** `seed_wrap_lagrange_basis`: always inserts, overwriting. */
    method SeedLagrangeBasis(n: nat, basis: Basis)
      modifies this`lagrangeBases
      ensures State() == old(State()).(lagrangeBases := old(lagrangeBases)[n := basis])
    {
      lagrangeBases := lagrangeBases[n := basis];
    }
  }

  /**
   A lookup caches its answer, and never changes what later lookups answer. The cache it leaves is coherent exactly when
   the one before was and the answer is the generator's; with a coherent cache it always is, so hits
   and misses cannot be told apart.
   */
  lemma {:induction false} CoherentLookup(up: Primitives, s: SrsState, n: nat, k: nat)
    ensures n in Warmed(up, s, n).lagrangeBases && Warmed(up, s, n).g == s.g && Warmed(up, s, n).h == s.h
    ensures LookupBasis(up, Warmed(up, s, n), k) == LookupBasis(up, s, k)
    ensures Coherent(up, Warmed(up, s, n)) <==> Coherent(up, s) && LookupBasis(up, s, n) == up.lagrangeBasis(s.g, n)
    ensures Coherent(up, s) ==> LookupBasis(up, s, k) == up.lagrangeBasis(s.g, k)
  {
    var w := Warmed(up, s, n);
    if Coherent(up, w) {
      forall j | j in s.lagrangeBases
        ensures s.lagrangeBases[j] == up.lagrangeBasis(s.g, j)
      {
        assert j in w.lagrangeBases;
      }
      assert n in w.lagrangeBases;
    }
  }

  // --------------------------------------------------------------------------
  // The verifier
  // --------------------------------------------------------------------------

  /** The step (Vesta) SRS. */
  datatype VestaSrs = VestaSrs(g: seq<Affine>, h: Affine, lagrangeBases: map<nat, Basis>)

  /** `Verifier`, with the SRS handle (shared object, or its state) as a parameter. */
  datatype Verifier<+S> = Verifier(
    wrapVk: WrapVk, wrapSrs: S, vestaSrs: VestaSrs, stepZkRows: nat, stepSrsLengthLog2: nat,
    stepEndo: StepField, linearization: Linearization, powersOfAlpha: Alphas)

  /** kimchi's `zkRows`, in `usize` arithmetic of `bits` bits. */
  function ZkRows(bits: nat, numChunks: nat): nat {
    AsUsize(bits, 16 * numChunks + 5) / 7
  }

  /** `Verifier::new`: refills everything serde skipped, and derives the step constants. */
  function New<S>(
    up: Primitives, bits: nat, vk: WrapVk, srs: S, vesta: VestaSrs, numChunks: nat
  ): Verifier<S>
  {
    Verifier(
      vk.(linearization := up.wrapLinearization.0, powersOfAlpha := up.wrapLinearization.1,
          endo := up.wrapGateEndo),
      srs, vesta, ZkRows(bits, numChunks), STEP_IPA_ROUNDS,
      up.stepEndo, up.stepLinearization.0, up.stepLinearization.1)
  }

  /**
   The constants of a usable verifier: the step circuits' scalar endomorphism and linearization, their
   row count and SRS size, and the wrap linearization and base endomorphism put back into the key.
   */
  predicate Configured<S>(up: Primitives, bits: nat, numChunks: nat, v: Verifier<S>) {
    && v.stepEndo == up.stepEndo && v.stepSrsLengthLog2 == 16
    && v.stepZkRows == AsUsize(bits, 16 * numChunks + 5) / 7
    && (v.linearization, v.powersOfAlpha) == up.stepLinearization
    && (v.wrapVk.linearization, v.wrapVk.powersOfAlpha) == up.wrapLinearization
    && v.wrapVk.endo == up.wrapGateEndo
  }

  /** `Verifier::new` gives these to any key, and keeps the key's data and both SRSs. */
  lemma {:induction false} NewConfigures<S>(
    up: Primitives, bits: nat, vk: WrapVk, srs: S, vesta: VestaSrs, numChunks: nat)
    ensures var v := New(up, bits, vk, srs, vesta, numChunks);
            Configured(up, bits, numChunks, v) && v.wrapVk.data == vk.data && v.wrapSrs == srs && v.vestaSrs == vesta
  {
  }

  /**
   The row count is kimchi's formula exactly when `16 * nc + 5` does not wrap; then every chunk
   count gives at least three rows, so `zk_rows - 1` cannot underflow.
   */
  lemma {:induction false} ZkRowsFormula(bits: nat, numChunks: nat)
    requires bits >= 3
    ensures ZkRows(bits, numChunks) == (16 * numChunks + 5) / 7 <==> 16 * numChunks + 5 < Pow2(bits)
    ensures numChunks >= 1 && 16 * numChunks + 5 < Pow2(bits) ==> ZkRows(bits, numChunks) >= 3
    ensures numChunks == 1 && 21 < Pow2(bits) ==> ZkRows(bits, numChunks) == 3
  {
    var x, m := 16 * numChunks + 5, Pow2(bits);
    EightAtMost(bits);
    if x >= m {
      ReduceBelow(x, m);
    }
  }

  lemma {:induction false} EightAtMost(bits: nat)
    requires bits >= 3
    ensures Pow2(bits) >= 8
  {
    if bits > 3 {
      EightAtMost(bits - 1);
    }
  }

  lemma {:induction false} ReduceBelow(x: nat, m: nat)
    requires 0 < m <= x
    ensures x % m <= x - m
  {
  }

  /** The wrap is reachable: with 2^60 chunks a 64-bit host computes no zero-knowledge rows at all. */
  lemma {:induction false} ZkRowsWrap()
    ensures ZkRows(64, 0x1000_0000_0000_0000) == 0
  {
    Pow2Of64();
  }

  function View(v: Verifier<WrapSrs>): Verifier<SrsState>
    reads v.wrapSrs
  {
    Verifier(v.wrapVk, v.wrapSrs.State(), v.vestaSrs, v.stepZkRows, v.stepSrsLengthLog2,
      v.stepEndo, v.linearization, v.powersOfAlpha)
  }

  // --------------------------------------------------------------------------
  // Encoding
  // --------------------------------------------------------------------------

  /** The first basis element from `i` on that is not single-chunk. */
  function FirstMultiChunk(basis: Basis, i: nat): (r: Option<nat>)
    ensures r.None? <==> forall j | i <= j < |basis| :: |basis[j].chunks| == 1
    ensures r.Some? ==> i <= r.value < |basis| && |basis[r.value].chunks| != 1
    ensures r.Some? ==> forall j | i <= j < r.value :: |basis[j].chunks| == 1
    decreases |basis| - i
  {
    if i >= |basis| then None
    else if |basis[i].chunks| != 1 then Some(i)
    else FirstMultiChunk(basis, i + 1)
  }

  function FirstChunk(pc: PolyComm<Affine>): Affine {
    if pc.chunks == [] then IDENTITY else pc.chunks[0]
  }

  function SingleChunk(p: Affine): PolyComm<Affine> {
    PolyComm([p])
  }

  /** What the encoder writes, section by section. */
  function EncodedSections(
    up: Primitives, vesta: VestaSrs, srs: SrsState, basis: Basis, numChunks: Word, vk: VkData
  ): (x: Sections)
    ensures |x.vestaG| == |vesta.g| && |x.wrapG| == |srs.g| && |x.wrapBasis| == |basis|
  {
    Sections(Map(ToPod, vesta.g), Map(ToPod, srs.g), ToPod(srs.h),
      Map(ToPod, Map(FirstChunk, basis)), numChunks, up.encodeVk(vk))
  }

  /** Vector lengths are `u64`s. */
  ghost predicate Encodable(up: Primitives, bits: nat, vesta: VestaSrs, srs: SrsState, vk: VkData) {
    && |vesta.g| < U64 && |srs.g| < U64 && |up.encodeVk(vk)| < U64
    && |LookupBasis(up, srs, AsUsize(bits, vk.domainSize))| < U64
  }

  /** `encode_verifier_blob`; the error is the index its single-chunk assertion names. */
  ghost function Encoded(
    up: Primitives, bits: nat, vesta: VestaSrs, srs: SrsState, numChunks: Word, vk: VkData
  ): Result<seq<Byte>, nat>
    requires Encodable(up, bits, vesta, srs, vk)
  {
    var basis := LookupBasis(up, srs, AsUsize(bits, vk.domainSize));
    match FirstMultiChunk(basis, 0)
    case Some(i) => Err(i)
    case None => Ok(SectionBytes(EncodedSections(up, vesta, srs, basis, numChunks, vk)))
  }

  method EncodeVerifierBlob(
    up: Primitives, bits: nat, vesta: VestaSrs, srs: WrapSrs, numChunks: Word, vk: WrapVk
  ) returns (r: Result<seq<Byte>, nat>)
    requires Encodable(up, bits, vesta, srs.State(), vk.data)
    modifies srs`lagrangeBases
    ensures r == Encoded(up, bits, vesta, old(srs.State()), numChunks, vk.data)
    ensures srs.State() == Warmed(up, old(srs.State()), AsUsize(bits, vk.data.domainSize))
  {
    hide WordBytes, PodBytes, PointsSection, BytesSection, SectionBytes;
    var out := new ByteVec();
    out.WritePoints(vesta.g);
    out.WritePoints(srs.g);
    out.WriteOnePallas(srs.h);
    var domainSize := AsUsize(bits, vk.data.domainSize);
    var basis := srs.GetLagrangeBasis(up, domainSize);
    var basisPoints: seq<Affine> := [];
    var i := 0;
    while i < |basis|
      invariant 0 <= i <= |basis|
      invariant FirstMultiChunk(basis, 0) == FirstMultiChunk(basis, i)
      invariant basisPoints == Map(FirstChunk, basis[..i])
    {
      if |basis[i].chunks| != 1 {
        return Err(i);
      }
      basisPoints := basisPoints + [basis[i].chunks[0]];
      assert basis[..i + 1] == basis[..i] + [basis[i]];
      i := i + 1;
    }
    assert basis[..i] == basis;
    out.WritePoints(basisPoints);
    out.WriteU64Le(numChunks);
    var vkBytes := up.encodeVk(vk.data);
    out.WriteBytes(vkBytes);
    WrittenSections(up, vesta, old(srs.State()), basis, numChunks, vk.data);
    r := Ok(out.data);
  }

  /** The writers' calls, in order, make up the layout. */
  lemma {:induction false} WrittenSections(
    up: Primitives, vesta: VestaSrs, srs: SrsState, basis: Basis, numChunks: Word, vk: VkData)
    requires |vesta.g| < U64 && |srs.g| < U64 && |basis| < U64 && |up.encodeVk(vk)| < U64
    ensures [] + PointsSection(vesta.g) + PointsSection(srs.g) + PodBytes(ToPod(srs.h))
              + PointsSection(Map(FirstChunk, basis)) + WordBytes(numChunks) + BytesSection(up.encodeVk(vk))
         == SectionBytes(EncodedSections(up, vesta, srs, basis, numChunks, vk))
  {
    hide PodsSection, PodBytes, WordBytes, BytesSection;
    assert [] + PointsSection(vesta.g) == PointsSection(vesta.g);
  }

  /**
   What an encoded blob holds, in order: the Vesta generators, the wrap generators and blinder, the
   single points of the wrap basis at the key's domain size, the chunk count, and the key's bytes.
   */
  lemma {:induction false} EncodedLayout(
    up: Primitives, bits: nat, vesta: VestaSrs, srs: SrsState, numChunks: Word, vk: VkData, points: seq<Affine>)
    requires Encodable(up, bits, vesta, srs, vk) && |points| < U64
    requires Map(SingleChunk, points) == LookupBasis(up, srs, AsUsize(bits, vk.domainSize))
    ensures Encoded(up, bits, vesta, srs, numChunks, vk)
         == Ok(PointsSection(vesta.g) + PointsSection(srs.g) + PodBytes(ToPod(srs.h)) + PointsSection(points)
               + LeBytes(numChunks, 8) + (LeBytes(|up.encodeVk(vk)|, 8) + up.encodeVk(vk)))
  {
    hide PodsSection, PodBytes, LeBytes, AsUsize, Pow2;
    var basis := LookupBasis(up, srs, AsUsize(bits, vk.domainSize));
    forall i | 0 <= i < |basis|
      ensures basis[i] == PolyComm([points[i]])
    {
      assert basis[i] == SingleChunk(points[i]);
    }
    assert Map(FirstChunk, basis) == points;
    WrittenSections(up, vesta, srs, basis, numChunks, vk);
    assert [] + PointsSection(vesta.g) == PointsSection(vesta.g);
  }

  // --------------------------------------------------------------------------
  // Decoding
  // --------------------------------------------------------------------------

  /** The SRS the decoder assembles: generators, blinder, and a cache of one basis. */
  function DecodedSrs(x: Sections, domainSize: nat): SrsState {
    SrsState(Map(FromPod, x.wrapG), FromPod(x.wrapH),
      map[domainSize := Map(SingleChunk, Map(FromPod, x.wrapBasis))])
  }

  /** `decode_verifier_blob`. */
  function Decoded(up: Primitives, bits: nat, blob: Slice): Result<Verifier<SrsState>, BlobError> {
    var (x, _) :- ParseSections(bits, blob);
    match up.decodeVk(x.vkBytes)
    case None => Err(BadVk)
    case Some(vk) =>
      Ok(New(up, bits, vk, DecodedSrs(x, AsUsize(bits, vk.data.domainSize)),
        VestaSrs(Map(FromPod, x.vestaG), IDENTITY, map[]), AsUsize(bits, x.stepNumChunks)))
  }

  /** What a decoded verifier holds of the blob, section by section, beside the constants. */
  predicate DecodedAs(up: Primitives, bits: nat, blob: Slice, v: Verifier<SrsState>) {
    && ParseSections(bits, blob).Ok?
    && var x := ParseSections(bits, blob).value.0;
       && up.decodeVk(x.vkBytes).Some? && v.wrapVk.data == up.decodeVk(x.vkBytes).value.data
       && v.vestaSrs.g == Map(FromPod, x.vestaG) && v.wrapSrs.g == Map(FromPod, x.wrapG)
       && v.wrapSrs.h == FromPod(x.wrapH)
       && Configured(up, bits, AsUsize(bits, x.stepNumChunks), v)
  }

  lemma {:induction false} DecodingConfigures(up: Primitives, bits: nat, blob: Slice)
    requires Decoded(up, bits, blob).Ok?
    ensures DecodedAs(up, bits, blob, Decoded(up, bits, blob).value)
  {
    hide ParseSections, Pow2;
  }

  method DecodeVerifierBlob(up: Primitives, bits: nat, blob: Slice)
    returns (r: Result<Verifier<WrapSrs>, BlobError>)
    ensures r.Err? ==> Decoded(up, bits, blob) == Err(r.error)
    ensures r.Ok? ==> fresh(r.value.wrapSrs) && Decoded(up, bits, blob) == Ok(View(r.value))
    ensures r.Ok? ==> DecodedAs(up, bits, blob, View(r.value))
  {
    hide ReadPods, ReadOnePod, ReadU64, ReadBytes;
    var vestaG :- ReadPods(bits, blob);
    var wrapG :- ReadPods(bits, vestaG.1);
    var wrapH :- ReadOnePod(wrapG.1);
    var wrapBasisPts :- ReadPods(bits, wrapH.1);
    var stepNumChunks :- ReadU64(wrapBasisPts.1);
    var vkBytes :- ReadBytes(bits, stepNumChunks.1);

    var vestaSrs := VestaSrs([], IDENTITY, map[]);
    vestaSrs := vestaSrs.(g := Map(FromPod, vestaG.0));
    var wrapSrs := new WrapSrs.Default();
    wrapSrs.g := Map(FromPod, wrapG.0);
    wrapSrs.h := FromPod(wrapH.0);
    var vk := up.decodeVk(vkBytes.0);
    if vk.None? {
      return Err(BadVk);
    }
    var basis := Map(SingleChunk, Map(FromPod, wrapBasisPts.0));
    var domainSize := AsUsize(bits, vk.value.data.domainSize);
    wrapSrs.SeedLagrangeBasis(domainSize, basis);
    r := Ok(New(up, bits, vk.value, wrapSrs, vestaSrs, AsUsize(bits, stepNumChunks.0)));
    DecodingConfigures(up, bits, blob);
  }

  // --------------------------------------------------------------------------
  // Decoding an encoded blob
  // --------------------------------------------------------------------------

  lemma {:induction false} PointsSurvive(ps: seq<Affine>)
    ensures Map(FromPod, Map(ToPod, ps)) == ps
  {
  }

  lemma {:induction false} BasisSurvives(basis: Basis)
    requires FirstMultiChunk(basis, 0).None?
    ensures Map(SingleChunk, Map(FromPod, Map(ToPod, Map(FirstChunk, basis)))) == basis
  {
    PointsSurvive(Map(FirstChunk, basis));
    var out := Map(SingleChunk, Map(FirstChunk, basis));
    forall i | 0 <= i < |basis|
      ensures out[i] == basis[i]
    {
      assert out[i] == PolyComm([basis[i].chunks[0]]);
      assert basis[i].chunks == [basis[i].chunks[0]];
    }
  }

  /** The same generators and blinder, with a cache of exactly the basis at `n`. */
  function OneBasis(up: Primitives, srs: SrsState, n: nat): SrsState {
    SrsState(srs.g, srs.h, map[n := LookupBasis(up, srs, n)])
  }

  /** The decoding host can address the blob and hold its chunk count and domain size. */
  predicate HostFits(bits: nat, blob: seq<Byte>, numChunks: nat, vk: VkData) {
    |blob| < Pow2(bits) && numChunks < Pow2(bits) && vk.domainSize < Pow2(bits)
  }

  /**
   Decoding an encoded blob, from any aligned address, whatever follows it: exactly the verifier
   `Verifier::new` builds, except that the wrap cache holds one basis (keyed by the VK's own
   domain size) and the Vesta `h` and cache are the defaults.
   */
  lemma {:induction false} DecodeEncoded(
    up: Primitives, encBits: nat, bits: nat, vesta: VestaSrs, srs: SrsState,
    numChunks: Word, vk: WrapVk, addr: nat, trailing: seq<Byte>)
    requires VkRoundTrips(up, vk.data) && Encodable(up, encBits, vesta, srs, vk.data)
    requires Encoded(up, encBits, vesta, srs, numChunks, vk.data).Ok?
    requires addr % 8 == 0 && vk.data.domainSize < Pow2(encBits)
    requires HostFits(bits, Encoded(up, encBits, vesta, srs, numChunks, vk.data).value, numChunks, vk.data)
    ensures Decoded(up, bits, Slice(addr, Encoded(up, encBits, vesta, srs, numChunks, vk.data).value + trailing))
         == Ok(New(up, bits, vk, OneBasis(up, srs, vk.data.domainSize),
               VestaSrs(vesta.g, IDENTITY, map[]), numChunks))
  {
    hide ParseSections, SectionBytes, Pow2;
    var n := vk.data.domainSize;
    var basis := LookupBasis(up, srs, n);
    var x := EncodedSections(up, vesta, srs, basis, numChunks, vk.data);
    ParseWritten(bits, addr, x, trailing);
    PointsSurvive(vesta.g);
    PointsSurvive(srs.g);
    BasisSurvives(basis);
  }

  /**
   Cache agreement: after decoding, a lookup at the VK's domain size is the encoder's own, a lookup
   at any other size is what the generator computes from the decoded wrap SRS, and the decoded cache
   is coherent exactly when the encoder's answer was the generator's, as it is from a coherent cache.
   */
  lemma {:induction false} DecodedCacheAgrees(
    up: Primitives, encBits: nat, bits: nat, vesta: VestaSrs, srs: SrsState,
    numChunks: Word, vk: WrapVk, addr: nat, trailing: seq<Byte>, k: nat)
    requires VkRoundTrips(up, vk.data) && Encodable(up, encBits, vesta, srs, vk.data)
    requires Encoded(up, encBits, vesta, srs, numChunks, vk.data).Ok?
    requires addr % 8 == 0 && vk.data.domainSize < Pow2(encBits)
    requires HostFits(bits, Encoded(up, encBits, vesta, srs, numChunks, vk.data).value, numChunks, vk.data)
    ensures var blob := Encoded(up, encBits, vesta, srs, numChunks, vk.data).value;
            var decoded := Decoded(up, bits, Slice(addr, blob + trailing));
            var n := vk.data.domainSize;
            var honest := LookupBasis(up, srs, n) == up.lagrangeBasis(srs.g, n);
            && decoded.Ok? && decoded.value.wrapSrs.g == srs.g
            && LookupBasis(up, decoded.value.wrapSrs, n) == LookupBasis(up, srs, n)
            && (k != n ==> LookupBasis(up, decoded.value.wrapSrs, k) == up.lagrangeBasis(srs.g, k))
            && (Coherent(up, decoded.value.wrapSrs) <==> honest)
            && (Coherent(up, srs) ==> honest)
  {
    hide Decoded, Encoded, Pow2;
    DecodeEncoded(up, encBits, bits, vesta, srs, numChunks, vk, addr, trailing);
  }
}
