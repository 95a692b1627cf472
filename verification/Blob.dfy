/**
 The section primitives of the verifier blob: 72-byte point records, length-prefixed
 sections, cursor-style readers, and the whole six-section layout.
 */
module Blob {
  import opened Wrappers
  import opened Bytes

  // --------------------------------------------------------------------------
  // Points and their 72-byte records
  // --------------------------------------------------------------------------

  type Word = x: nat | x < U64
  type Limbs = s: seq<Word> | |s| == 4 witness [0, 0, 0, 0]
  type Padding = s: seq<Byte> | |s| == 7 witness [0, 0, 0, 0, 0, 0, 0]

  /** An affine curve point as it lies in memory: two coordinates of four limbs, and a flag. */
  datatype Affine = Affine(x: Limbs, y: Limbs, infinity: bool)

  /** `PodVesta` / `PodPallas`: the same memory with the flag as a byte and the padding visible. */
  datatype Pod = Pod(x: Limbs, y: Limbs, infinity: Byte, pad: Padding)

  const POD_SIZE: nat := 72

  const ZERO_PAD: Padding := [0, 0, 0, 0, 0, 0, 0]

  function ToPod(p: Affine): Pod {
    Pod(p.x, p.y, if p.infinity then 1 else 0, ZERO_PAD)
  }

  /** The reinterpreting cast back: padding is invisible, any nonzero flag byte reads as true. */
  function FromPod(p: Pod): Affine {
    Affine(p.x, p.y, p.infinity != 0)
  }

  /** The records an affine point can have produced. */
  predicate CanonicalPod(p: Pod) {
    p.infinity <= 1 && p.pad == ZERO_PAD
  }

  function WordBytes(w: Word): (bs: seq<Byte>)
    ensures |bs| == 8
  {
    LeBytes(w, 8)
  }

  function WordOf(bs: seq<Byte>): Word
    requires |bs| == 8
  {
    ValueBelow(bs);
    Pow256Constants();
    LeValue(bs)
  }

  function LimbsBytes(l: Limbs): (bs: seq<Byte>)
    ensures |bs| == 32
  {
    WordBytes(l[0]) + WordBytes(l[1]) + WordBytes(l[2]) + WordBytes(l[3])
  }

  function LimbsOf(bs: seq<Byte>): Limbs
    requires |bs| == 32
  {
    [WordOf(bs[..8]), WordOf(bs[8..16]), WordOf(bs[16..24]), WordOf(bs[24..])]
  }

  function PodBytes(p: Pod): (bs: seq<Byte>)
    ensures |bs| == POD_SIZE
  {
    LimbsBytes(p.x) + LimbsBytes(p.y) + [p.infinity] + p.pad
  }

  function PodOf(bs: seq<Byte>): Pod
    requires |bs| == POD_SIZE
  {
    Pod(LimbsOf(bs[..32]), LimbsOf(bs[32..64]), bs[64], bs[65..])
  }

  /** `bytemuck::cast_slice` from records to bytes. */
  function PodsBytes(ps: seq<Pod>): (bs: seq<Byte>)
    ensures |bs| == POD_SIZE * |ps|
  {
    if ps == [] then [] else PodBytes(ps[0]) + PodsBytes(ps[1..])
  }

  /** `bytemuck::cast_slice` from bytes to records. */
  function PodsOf(bs: seq<Byte>): (ps: seq<Pod>)
    requires |bs| % POD_SIZE == 0
    ensures POD_SIZE * |ps| == |bs|
  {
    if bs == [] then [] else [PodOf(bs[..POD_SIZE])] + PodsOf(bs[POD_SIZE..])
  }

  lemma {:induction false} WordRoundTrip(w: Word)
    ensures WordOf(WordBytes(w)) == w
  {
    Pow256Constants();
    ValueOfBytes(w, 8);
  }

  lemma {:induction false} WordBytesOf(bs: seq<Byte>)
    requires |bs| == 8
    ensures WordBytes(WordOf(bs)) == bs
  {
    BytesOfValue(bs);
  }

  lemma {:induction false} LimbsRoundTrip(l: Limbs)
    ensures LimbsOf(LimbsBytes(l)) == l
  {
    var bs := LimbsBytes(l);
    assert bs[..8] == WordBytes(l[0]) && bs[8..16] == WordBytes(l[1]);
    assert bs[16..24] == WordBytes(l[2]) && bs[24..] == WordBytes(l[3]);
    forall i | 0 <= i < 4 { WordRoundTrip(l[i]); }
  }

  lemma {:induction false} LimbsBytesOf(bs: seq<Byte>)
    requires |bs| == 32
    ensures LimbsBytes(LimbsOf(bs)) == bs
  {
    hide WordBytes, WordOf;
    WordBytesOf(bs[..8]);
    WordBytesOf(bs[8..16]);
    WordBytesOf(bs[16..24]);
    WordBytesOf(bs[24..]);
  }

  lemma {:induction false} PodRoundTrip(p: Pod)
    ensures PodOf(PodBytes(p)) == p
  {
    var bs := PodBytes(p);
    assert bs[..32] == LimbsBytes(p.x) && bs[32..64] == LimbsBytes(p.y) && bs[65..] == p.pad;
    LimbsRoundTrip(p.x);
    LimbsRoundTrip(p.y);
  }

  lemma {:induction false} PodBytesOf(bs: seq<Byte>)
    requires |bs| == POD_SIZE
    ensures PodBytes(PodOf(bs)) == bs
  {
    hide LimbsBytes, LimbsOf;
    LimbsBytesOf(bs[..32]);
    LimbsBytesOf(bs[32..64]);
    assert bs == bs[..32] + bs[32..64] + [bs[64]] + bs[65..];
  }

  /** Casting records to bytes and back is the identity, in both directions. */
  lemma {:induction false} PodsRoundTrip(ps: seq<Pod>)
    ensures PodsOf(PodsBytes(ps)) == ps
  {
    if ps != [] {
      var bs := PodsBytes(ps);
      assert bs[..POD_SIZE] == PodBytes(ps[0]) && bs[POD_SIZE..] == PodsBytes(ps[1..]);
      PodRoundTrip(ps[0]);
      PodsRoundTrip(ps[1..]);
    }
  }

  lemma {:induction false} PodsBytesOf(bs: seq<Byte>)
    requires |bs| % POD_SIZE == 0
    ensures PodsBytes(PodsOf(bs)) == bs
  {
    if bs != [] {
      PodBytesOf(bs[..POD_SIZE]);
      PodsBytesOf(bs[POD_SIZE..]);
      assert PodsOf(bs)[1..] == PodsOf(bs[POD_SIZE..]);
    }
  }

  // --------------------------------------------------------------------------
  // Writers: appending to a growing byte vector
  // --------------------------------------------------------------------------

  /** The writers' `&mut Vec<u8>`. */
  class ByteVec {
    var data: seq<Byte>

    constructor ()
      ensures data == []
    {
      data := [];
    }

    method Extend(bs: seq<Byte>)
      modifies this
      ensures data == old(data) + bs
    {
      data := data + bs;
    }

    method WriteU64Le(x: Word)
      modifies this
      ensures data == old(data) + WordBytes(x)
    {
      Extend(LeBytes(x, 8));
    }

    method WritePoints(points: seq<Affine>)
      requires |points| < U64
      modifies this
      ensures data == old(data) + PointsSection(points)
    {
      var pods := Map(ToPod, points);
      WriteU64Le(|pods|);
      Extend(PodsBytes(pods));
      assert data == old(data) + PointsSection(points);
    }

    method WriteOnePallas(p: Affine)
      modifies this
      ensures data == old(data) + PodBytes(ToPod(p))
    {
      var pod := ToPod(p);
      Extend(PodBytes(pod));
    }

    method WriteBytes(bs: seq<Byte>)
      requires |bs| < U64
      modifies this
      ensures data == old(data) + BytesSection(bs)
    {
      WriteU64Le(|bs|);
      Extend(bs);
      assert data == old(data) + BytesSection(bs);
    }
  }

  function PodsSection(ps: seq<Pod>): (bs: seq<Byte>)
    requires |ps| < U64
    ensures |bs| == 8 + POD_SIZE * |ps|
  {
    WordBytes(|ps|) + PodsBytes(ps)
  }

  function PointsSection(points: seq<Affine>): (bs: seq<Byte>)
    requires |points| < U64
    ensures |bs| == 8 + POD_SIZE * |points|
  {
    PodsSection(Map(ToPod, points))
  }

  function BytesSection(bs: seq<Byte>): (r: seq<Byte>)
    requires |bs| < U64
    ensures |r| == 8 + |bs|
  {
    WordBytes(|bs|) + bs
  }

  // --------------------------------------------------------------------------
  // Readers: a slice has an address, because the casts demand alignment
  // --------------------------------------------------------------------------

  datatype Slice = Slice(addr: nat, bytes: seq<Byte>) {
    /** The second half of `split_at(n)`. */
    function Drop(n: nat): Slice
      requires n <= |bytes|
    {
      Slice(addr + n, bytes[n..])
    }
  }

  /** The ways a decode panics. */
  datatype BlobError = Truncated | SectionOverflow | Misaligned | BadVk

  type Read<+T> = Result<(T, Slice), BlobError>

  function ReadU64(s: Slice): Read<Word> {
    if |s.bytes| < 8 then Err(Truncated) else Ok((WordOf(s.bytes[..8]), s.Drop(8)))
  }

  /** `len as usize` on a host whose `usize` has `bits` bits. */
  function AsUsize(bits: nat, x: nat): (n: nat)
    ensures n < Pow2(bits)
    ensures n == x <==> x < Pow2(bits)
  {
    if x < Pow2(bits) then x else x % Pow2(bits)
  }

  function ReadPods(bits: nat, s: Slice): Read<seq<Pod>> {
    var (word, rest) :- ReadU64(s);
    var len := AsUsize(bits, word);
    if POD_SIZE * len >= Pow2(bits) then Err(SectionOverflow)
    else if |rest.bytes| < POD_SIZE * len then Err(Truncated)
    else if rest.addr % 8 != 0 then Err(Misaligned)
    else Ok((PodsOf(rest.bytes[..POD_SIZE * len]), rest.Drop(POD_SIZE * len)))
  }

  function ReadOnePod(s: Slice): Read<Pod> {
    if |s.bytes| < POD_SIZE then Err(Truncated)
    else if s.addr % 8 != 0 then Err(Misaligned)
    else Ok((PodOf(s.bytes[..POD_SIZE]), s.Drop(POD_SIZE)))
  }

  function ReadBytes(bits: nat, s: Slice): Read<seq<Byte>> {
    var (word, rest) :- ReadU64(s);
    var len := AsUsize(bits, word);
    if |rest.bytes| < len then Err(Truncated)
    else Ok((rest.bytes[..len], rest.Drop(len)))
  }

  // --------------------------------------------------------------------------
  // The whole layout
  // --------------------------------------------------------------------------

  datatype Sections = Sections(
    vestaG: seq<Pod>, wrapG: seq<Pod>, wrapH: Pod, wrapBasis: seq<Pod>,
    stepNumChunks: Word, vkBytes: seq<Byte>)

  /** Section lengths are `u64`s. */
  predicate LengthsFit(x: Sections) {
    |x.vestaG| < U64 && |x.wrapG| < U64 && |x.wrapBasis| < U64 && |x.vkBytes| < U64
  }

  function SectionBytes(x: Sections): seq<Byte>
    requires LengthsFit(x)
  {
    PodsSection(x.vestaG) + PodsSection(x.wrapG) + PodBytes(x.wrapH) + PodsSection(x.wrapBasis)
    + WordBytes(x.stepNumChunks) + BytesSection(x.vkBytes)
  }

  function ParseSections(bits: nat, s: Slice): Read<Sections> {
    var (vestaG, s1) :- ReadPods(bits, s);
    var (wrapG, s2) :- ReadPods(bits, s1);
    var (wrapH, s3) :- ReadOnePod(s2);
    var (wrapBasis, s4) :- ReadPods(bits, s3);
    var (stepNumChunks, s5) :- ReadU64(s4);
    var (vkBytes, s6) :- ReadBytes(bits, s5);
    Ok((Sections(vestaG, wrapG, wrapH, wrapBasis, stepNumChunks, vkBytes), s6))
  }

  /** A record's bytes: the limbs of `x`, the limbs of `y`, the flag at 64 and the padding. */
  lemma {:induction false} PodLayout(p: Pod, i: nat)
    ensures var bs := PodBytes(p);
            && bs[64] == p.infinity && bs[65..] == p.pad
            && (i < 4 ==> bs[8 * i..8 * i + 8] == LeBytes(p.x[i], 8))
            && (i < 4 ==> bs[32 + 8 * i..40 + 8 * i] == LeBytes(p.y[i], 8))
  {
    hide LeBytes;
    var bs := PodBytes(p);
    assert bs[..32] == LimbsBytes(p.x) && bs[32..64] == LimbsBytes(p.y);
    if i < 4 {
      LimbsLayout(p.x, i);
      LimbsLayout(p.y, i);
      assert bs[8 * i..8 * i + 8] == bs[..32][8 * i..8 * i + 8];
      assert bs[32 + 8 * i..40 + 8 * i] == bs[32..64][8 * i..8 * i + 8];
    }
  }

  /** A point in the blob: its coordinates' limbs in order, one flag byte, seven zero bytes. */
  lemma {:induction false} PointLayout(p: Affine, i: nat)
    ensures var bs := PodBytes(ToPod(p));
            && |bs| == 72 && bs[64] == (if p.infinity then 1 else 0) && bs[65..] == [0, 0, 0, 0, 0, 0, 0]
            && (i < 4 ==> bs[8 * i..8 * i + 8] == LeBytes(p.x[i], 8))
            && (i < 4 ==> bs[32 + 8 * i..40 + 8 * i] == LeBytes(p.y[i], 8))
  {
    hide PodBytes, LeBytes;
    PodLayout(ToPod(p), i);
  }

  lemma {:induction false} LimbsLayout(l: Limbs, i: nat)
    requires i < 4
    ensures LimbsBytes(l)[8 * i..8 * i + 8] == LeBytes(l[i], 8)
  {
    hide LeBytes;
    var bs := LimbsBytes(l);
    assert bs[0..8] == WordBytes(l[0]) && bs[8..16] == WordBytes(l[1]);
    assert bs[16..24] == WordBytes(l[2]) && bs[24..] == WordBytes(l[3]) && bs[24..32] == bs[24..];
  }

  lemma {:induction false} PodsLayout(ps: seq<Pod>, i: nat)
    requires i < |ps|
    ensures PodsBytes(ps)[POD_SIZE * i..POD_SIZE * i + POD_SIZE] == PodBytes(ps[i])
  {
    hide PodBytes;
    if i > 0 {
      PodsLayout(ps[1..], i - 1);
      var rest, at := PodsBytes(ps[1..]), POD_SIZE * (i - 1);
      assert PodsBytes(ps)[POD_SIZE * i..POD_SIZE * i + POD_SIZE] == rest[at..at + POD_SIZE];
    }
  }

  /** A record section: its count in eight bytes, and record `i` at `8 + 72 * i`. */
  lemma {:induction false} PodsSectionLayout(ps: seq<Pod>, i: nat)
    requires |ps| < U64
    ensures var bs := PodsSection(ps);
            && |bs| == 8 + 72 * |ps| && bs[..8] == LeBytes(|ps|, 8)
            && (i < |ps| ==> bs[8 + 72 * i..80 + 72 * i] == PodBytes(ps[i]))
  {
    hide LeBytes, PodBytes, PodsBytes;
    if i < |ps| {
      PodsLayout(ps, i);
      assert PodsSection(ps)[8 + 72 * i..80 + 72 * i] == PodsBytes(ps)[72 * i..72 * i + 72];
    }
  }

  /**
   The blob, section by section: Vesta generators, wrap generators, the wrap blinder, the wrap basis,
   the chunk count in eight bytes, and the key behind its length.
   */
  lemma {:induction false} BlobLayout(x: Sections)
    requires LengthsFit(x)
    ensures var bs := SectionBytes(x);
            var wrapG := 8 + 72 * |x.vestaG|;
            var wrapH := wrapG + 8 + 72 * |x.wrapG|;
            var basis := wrapH + 72;
            var chunks := basis + 8 + 72 * |x.wrapBasis|;
            && |bs| == chunks + 16 + |x.vkBytes|
            && bs[..wrapG] == PodsSection(x.vestaG) && bs[wrapG..wrapH] == PodsSection(x.wrapG)
            && bs[wrapH..basis] == PodBytes(x.wrapH) && bs[basis..chunks] == PodsSection(x.wrapBasis)
            && bs[chunks..chunks + 8] == LeBytes(x.stepNumChunks, 8)
            && bs[chunks + 8..chunks + 16] == LeBytes(|x.vkBytes|, 8) && bs[chunks + 16..] == x.vkBytes
  {
    hide LeBytes, PodBytes, PodsSection;
    var vesta, wrap, basis := PodsSection(x.vestaG), PodsSection(x.wrapG), PodsSection(x.wrapBasis);
    SixParts(vesta, wrap, PodBytes(x.wrapH), basis, WordBytes(x.stepNumChunks), WordBytes(|x.vkBytes|), x.vkBytes);
    assert SectionBytes(x) == vesta + wrap + PodBytes(x.wrapH) + basis + WordBytes(x.stepNumChunks)
                              + WordBytes(|x.vkBytes|) + x.vkBytes;
  }

  lemma {:induction false} SixParts<T>(a: seq<T>, b: seq<T>, c: seq<T>, d: seq<T>, e: seq<T>, f: seq<T>, g: seq<T>)
    ensures var s := a + b + c + d + e + f + g;
            var ab := |a| + |b|;
            var abc := ab + |c|;
            var abcd := abc + |d|;
            && s[..|a|] == a && s[|a|..ab] == b && s[ab..abc] == c && s[abc..abcd] == d
            && s[abcd..abcd + |e|] == e && s[abcd + |e|..abcd + |e| + |f|] == f && s[abcd + |e| + |f|..] == g
  {
  }

  /** Every outcome of a record-section read: which check fails first, or what is read. */
  lemma {:induction false} ReadPodsOutcome(bits: nat, s: Slice)
    ensures |s.bytes| < 8 ==> ReadPods(bits, s) == Err(Truncated)
    ensures |s.bytes| >= 8 ==>
              var size := 72 * AsUsize(bits, LeValue(s.bytes[..8]));
              var left := |s.bytes| - 8;
              && (ReadPods(bits, s) == Err(SectionOverflow) <==> size >= Pow2(bits))
              && (ReadPods(bits, s) == Err(Truncated) <==> left < size < Pow2(bits))
              && (ReadPods(bits, s) == Err(Misaligned) <==> size < Pow2(bits) && size <= left && s.addr % 8 != 0)
              && (ReadPods(bits, s).Ok? <==> size < Pow2(bits) && size <= left && s.addr % 8 == 0)
  {
    hide PodsOf, LeValue, Pow2, AsUsize;
  }

  /** The single record and the byte section likewise. */
  lemma {:induction false} ReadRestOutcome(bits: nat, s: Slice)
    ensures ReadOnePod(s) == Err(Truncated) <==> |s.bytes| < 72
    ensures ReadOnePod(s) == Err(Misaligned) <==> |s.bytes| >= 72 && s.addr % 8 != 0
    ensures ReadOnePod(s).Ok? <==> |s.bytes| >= 72 && s.addr % 8 == 0
    ensures ReadBytes(bits, s).Err? ==> ReadBytes(bits, s).error == Truncated
    ensures ReadBytes(bits, s).Ok?
       <==> |s.bytes| >= 8 && AsUsize(bits, LeValue(s.bytes[..8])) <= |s.bytes| - 8
  {
    hide PodOf, LeValue, Pow2, AsUsize;
  }

  /** The cast to `usize` drops a multiple of the word limit. */
  lemma {:induction false} AsUsizeDrops(bits: nat, x: nat)
    ensures AsUsize(bits, x) == x - Pow2(bits) * (x / Pow2(bits))
  {
    hide Pow2;
    DivideMod(x, Pow2(bits));
  }

  lemma {:induction false} DivideMod(x: nat, p: nat)
    requires p > 0
    ensures x % p == x - p * (x / p)
    ensures x < p ==> x / p == 0
  {
  }

  /** The size table of the layout: five length words, one blinder, and the payloads. */
  lemma {:induction false} BlobSize(x: Sections)
    requires LengthsFit(x)
    ensures |SectionBytes(x)|
         == 40 + POD_SIZE * (|x.vestaG| + |x.wrapG| + 1 + |x.wrapBasis|) + |x.vkBytes|
  {
  }
}
