/**
 What the blob format promises: reading undoes writing, writing undoes reading exactly when
 the bytes were canonical, every strict prefix is rejected, trailing bytes are ignored, and
 alignment of the base address is all the alignment there is to ask for.
 */
module BlobLaws {
  import opened Wrappers
  import opened Bytes
  import opened Blob

  // --------------------------------------------------------------------------
  // Reading undoes writing
  // --------------------------------------------------------------------------

  lemma {:induction false} ReadU64Written(a: nat, w: Word, t: seq<Byte>)
    ensures ReadU64(Slice(a, WordBytes(w) + t)) == Ok((w, Slice(a + 8, t)))
  {
    WordRoundTrip(w);
    var bs := WordBytes(w) + t;
    assert bs[..8] == WordBytes(w) && bs[8..] == t;
  }

  /** A section read whose length word fits. */
  lemma {:induction false} ReadPodsAt(bits: nat, s: Slice, len: Word, rest: Slice)
    requires ReadU64(s) == Ok((len, rest)) && rest.addr % 8 == 0
    requires POD_SIZE * len < Pow2(bits) && POD_SIZE * len <= |rest.bytes|
    ensures ReadPods(bits, s) == Ok((PodsOf(rest.bytes[..POD_SIZE * len]), rest.Drop(POD_SIZE * len)))
  {
  }

  lemma {:induction false} ReadPodsWritten(bits: nat, a: nat, ps: seq<Pod>, t: seq<Byte>)
    requires a % 8 == 0 && |ps| < U64 && POD_SIZE * |ps| < Pow2(bits)
    ensures ReadPods(bits, Slice(a, PodsSection(ps) + t))
         == Ok((ps, Slice(a + |PodsSection(ps)|, t)))
  {
    hide ReadPods, ReadU64, WordBytes, PodsBytes, PodsOf, Pow2;
    var body := PodsBytes(ps) + t;
    assert PodsSection(ps) + t == WordBytes(|ps|) + body;
    ReadU64Written(a, |ps|, body);
    ReadPodsAt(bits, Slice(a, PodsSection(ps) + t), |ps|, Slice(a + 8, body));
    assert body[..POD_SIZE * |ps|] == PodsBytes(ps) && body[POD_SIZE * |ps|..] == t;
    PodsRoundTrip(ps);
  }

  lemma {:induction false} ReadOnePodWritten(a: nat, p: Pod, t: seq<Byte>)
    requires a % 8 == 0
    ensures ReadOnePod(Slice(a, PodBytes(p) + t)) == Ok((p, Slice(a + POD_SIZE, t)))
  {
    var bs := PodBytes(p) + t;
    assert bs[..POD_SIZE] == PodBytes(p) && bs[POD_SIZE..] == t;
    PodRoundTrip(p);
  }

  lemma {:induction false} ReadBytesWritten(bits: nat, a: nat, bs: seq<Byte>, t: seq<Byte>)
    requires |bs| < U64 && |bs| < Pow2(bits)
    ensures ReadBytes(bits, Slice(a, BytesSection(bs) + t))
         == Ok((bs, Slice(a + |BytesSection(bs)|, t)))
  {
    assert BytesSection(bs) + t == WordBytes(|bs|) + (bs + t);
    ReadU64Written(a, |bs|, bs + t);
    assert (bs + t)[..|bs|] == bs && (bs + t)[|bs|..] == t;
  }

  /** The six reads of a layout and the slices between them. */
  predicate Trace(bits: nat, s: Slice, x: Sections, at: seq<Slice>) {
    && |at| == 6
    && ReadPods(bits, s) == Ok((x.vestaG, at[0]))
    && ReadPods(bits, at[0]) == Ok((x.wrapG, at[1]))
    && ReadOnePod(at[1]) == Ok((x.wrapH, at[2]))
    && ReadPods(bits, at[2]) == Ok((x.wrapBasis, at[3]))
    && ReadU64(at[3]) == Ok((x.stepNumChunks, at[4]))
    && ReadBytes(bits, at[4]) == Ok((x.vkBytes, at[5]))
  }

  lemma {:induction false} TraceParses(bits: nat, s: Slice, x: Sections, at: seq<Slice>)
    requires Trace(bits, s, x, at)
    ensures ParseSections(bits, s) == Ok((x, at[5]))
  {
  }

  lemma {:induction false} ParseTrace(bits: nat, s: Slice) returns (at: seq<Slice>)
    requires ParseSections(bits, s).Ok?
    ensures Trace(bits, s, ParseSections(bits, s).value.0, at)
    ensures at[5] == ParseSections(bits, s).value.1
  {
    hide ReadPods, ReadOnePod, ReadU64, ReadBytes;
    var s1 := ReadPods(bits, s).value.1;
    var s2 := ReadPods(bits, s1).value.1;
    var s3 := ReadOnePod(s2).value.1;
    var s4 := ReadPods(bits, s3).value.1;
    var s5 := ReadU64(s4).value.1;
    at := [s1, s2, s3, s4, s5, ReadBytes(bits, s5).value.1];
  }

  // What is left to read after each of the first five sections.
  function AfterVesta(x: Sections, t: seq<Byte>): seq<Byte>
    requires LengthsFit(x)
  {
    PodsSection(x.wrapG) + AfterWrapG(x, t)
  }

  function AfterWrapG(x: Sections, t: seq<Byte>): seq<Byte>
    requires LengthsFit(x)
  {
    PodBytes(x.wrapH) + AfterWrapH(x, t)
  }

  function AfterWrapH(x: Sections, t: seq<Byte>): seq<Byte>
    requires LengthsFit(x)
  {
    PodsSection(x.wrapBasis) + AfterBasis(x, t)
  }

  function AfterBasis(x: Sections, t: seq<Byte>): seq<Byte>
    requires LengthsFit(x)
  {
    WordBytes(x.stepNumChunks) + AfterChunks(x, t)
  }

  function AfterChunks(x: Sections, t: seq<Byte>): seq<Byte>
    requires LengthsFit(x)
  {
    BytesSection(x.vkBytes) + t
  }

  lemma {:induction false} SectionsNested(x: Sections, t: seq<Byte>)
    requires LengthsFit(x)
    ensures SectionBytes(x) + t == PodsSection(x.vestaG) + AfterVesta(x, t)
  {
    hide PodsSection, PodBytes, WordBytes, BytesSection;
    Nested(PodsSection(x.vestaG), PodsSection(x.wrapG), PodBytes(x.wrapH),
      PodsSection(x.wrapBasis), WordBytes(x.stepNumChunks), BytesSection(x.vkBytes), t);
  }

  lemma {:induction false} Nested<T>(a: seq<T>, b: seq<T>, c: seq<T>, d: seq<T>, e: seq<T>, f: seq<T>, g: seq<T>)
    ensures a + b + c + d + e + f + g == a + (b + (c + (d + (e + (f + g)))))
  {
  }

  /**
   Round trip: from any aligned address, on a host of any `usize` width the blob fits, all six
   sections come back unchanged and the reader stops exactly at the end, whatever follows.
   */
  lemma {:induction false} ParseWritten(bits: nat, a: nat, x: Sections, t: seq<Byte>)
    requires a % 8 == 0 && LengthsFit(x) && |SectionBytes(x)| < Pow2(bits)
    ensures ParseSections(bits, Slice(a, SectionBytes(x) + t))
         == Ok((x, Slice(a + |SectionBytes(x)|, t)))
  {
    hide ParseSections, SectionBytes, PodsSection, AfterVesta, LengthsFit, Pow2;
    SectionsNested(x, t);
    BlobSize(x);
    WrittenTrace(bits, a, x, t);
  }

  /** Where each part of the layout after the first begins. */
  function WrapGAt(x: Sections): nat {
    8 + POD_SIZE * |x.vestaG|
  }

  function WrapHAt(x: Sections): nat {
    WrapGAt(x) + 8 + POD_SIZE * |x.wrapG|
  }

  function BasisAt(x: Sections): nat {
    WrapHAt(x) + POD_SIZE
  }

  function ChunksAt(x: Sections): nat {
    BasisAt(x) + 8 + POD_SIZE * |x.wrapBasis|
  }

  function VkAt(x: Sections): nat {
    ChunksAt(x) + 8
  }

  function EndAt(x: Sections): nat {
    VkAt(x) + 8 + |x.vkBytes|
  }

  /** Every part but the trailing bytes starts on an 8-byte boundary. */
  lemma {:induction false} OffsetsAligned(a: nat, x: Sections)
    requires a % 8 == 0
    ensures (a + WrapGAt(x)) % 8 == 0 && (a + WrapHAt(x)) % 8 == 0 && (a + BasisAt(x)) % 8 == 0
  {
    EightsAligned(a, 1 + 9 * |x.vestaG|);
    EightsAligned(a, 2 + 9 * |x.vestaG| + 9 * |x.wrapG|);
    EightsAligned(a, 11 + 9 * |x.vestaG| + 9 * |x.wrapG|);
  }

  lemma {:induction false} EightsAligned(a: nat, n: nat)
    requires a % 8 == 0
    ensures (a + 8 * n) % 8 == 0
  {
    assert a + 8 * n == 8 * (a / 8 + n);
  }

  /** The first three reads, from an aligned address. */
  lemma {:induction false} WrittenFront(bits: nat, a: nat, x: Sections, t: seq<Byte>)
    requires a % 8 == 0 && LengthsFit(x)
    requires POD_SIZE * |x.vestaG| < Pow2(bits) && POD_SIZE * |x.wrapG| < Pow2(bits)
    ensures ReadPods(bits, Slice(a, PodsSection(x.vestaG) + AfterVesta(x, t)))
         == Ok((x.vestaG, Slice(a + WrapGAt(x), AfterVesta(x, t))))
    ensures ReadPods(bits, Slice(a + WrapGAt(x), AfterVesta(x, t)))
         == Ok((x.wrapG, Slice(a + WrapHAt(x), AfterWrapG(x, t))))
    ensures ReadOnePod(Slice(a + WrapHAt(x), AfterWrapG(x, t)))
         == Ok((x.wrapH, Slice(a + BasisAt(x), AfterWrapH(x, t))))
  {
    hide ReadPods, ReadOnePod, PodsSection, PodBytes, Pow2, AfterWrapH;
    OffsetsAligned(a, x);
    ReadPodsWritten(bits, a, x.vestaG, AfterVesta(x, t));
    ReadPodsWritten(bits, a + WrapGAt(x), x.wrapG, AfterWrapG(x, t));
    ReadOnePodWritten(a + WrapHAt(x), x.wrapH, AfterWrapH(x, t));
  }

  /** The last three. */
  lemma {:induction false} WrittenBack(bits: nat, a: nat, x: Sections, t: seq<Byte>)
    requires a % 8 == 0 && LengthsFit(x)
    requires POD_SIZE * |x.wrapBasis| < Pow2(bits) && |x.vkBytes| < Pow2(bits)
    ensures ReadPods(bits, Slice(a + BasisAt(x), AfterWrapH(x, t)))
         == Ok((x.wrapBasis, Slice(a + ChunksAt(x), AfterBasis(x, t))))
    ensures ReadU64(Slice(a + ChunksAt(x), AfterBasis(x, t)))
         == Ok((x.stepNumChunks, Slice(a + VkAt(x), AfterChunks(x, t))))
    ensures ReadBytes(bits, Slice(a + VkAt(x), AfterChunks(x, t))) == Ok((x.vkBytes, Slice(a + EndAt(x), t)))
  {
    hide ReadPods, ReadU64, ReadBytes, PodsSection, BytesSection, WordBytes, Pow2;
    OffsetsAligned(a, x);
    ReadPodsWritten(bits, a + BasisAt(x), x.wrapBasis, AfterBasis(x, t));
    ReadU64Written(a + ChunksAt(x), x.stepNumChunks, AfterChunks(x, t));
    ReadBytesWritten(bits, a + VkAt(x), x.vkBytes, t);
  }

  lemma {:induction false} WrittenTrace(bits: nat, a: nat, x: Sections, t: seq<Byte>)
    requires a % 8 == 0 && LengthsFit(x) && EndAt(x) < Pow2(bits)
    ensures ParseSections(bits, Slice(a, PodsSection(x.vestaG) + AfterVesta(x, t)))
         == Ok((x, Slice(a + EndAt(x), t)))
  {
    hide ReadPods, ReadOnePod, ReadU64, ReadBytes, PodsSection, ParseSections, AfterVesta, AfterWrapG,
      AfterWrapH, AfterBasis, AfterChunks, Pow2;
    WrittenFront(bits, a, x, t);
    WrittenBack(bits, a, x, t);
    TraceParses(bits, Slice(a, PodsSection(x.vestaG) + AfterVesta(x, t)), x, [
      Slice(a + WrapGAt(x), AfterVesta(x, t)), Slice(a + WrapHAt(x), AfterWrapG(x, t)),
      Slice(a + BasisAt(x), AfterWrapH(x, t)), Slice(a + ChunksAt(x), AfterBasis(x, t)),
      Slice(a + VkAt(x), AfterChunks(x, t)), Slice(a + EndAt(x), t)]);
  }

  // --------------------------------------------------------------------------
  // Growing the input: truncation is the only verdict more bytes can change
  // --------------------------------------------------------------------------

  function Grow(s: Slice, t: seq<Byte>): Slice {
    Slice(s.addr, s.bytes + t)
  }

  function GrowRead<T>(r: Read<T>, t: seq<Byte>): Read<T> {
    match r
    case Ok((v, rest)) => Ok((v, Grow(rest, t)))
    case Err(e) => Err(e)
  }

  lemma {:induction false} DropGrow(s: Slice, n: nat, t: seq<Byte>)
    requires n <= |s.bytes|
    ensures Grow(s, t).Drop(n) == Grow(s.Drop(n), t)
    ensures Grow(s, t).bytes[..n] == s.bytes[..n]
  {
  }

  lemma {:induction false} ReadU64Grow(s: Slice, t: seq<Byte>)
    ensures ReadU64(s) == Err(Truncated) || ReadU64(Grow(s, t)) == GrowRead(ReadU64(s), t)
  {
    if |s.bytes| >= 8 {
      DropGrow(s, 8, t);
    }
  }

  lemma {:induction false} ReadPodsGrow(bits: nat, s: Slice, t: seq<Byte>)
    ensures ReadPods(bits, s) == Err(Truncated)
         || ReadPods(bits, Grow(s, t)) == GrowRead(ReadPods(bits, s), t)
  {
    ReadU64Grow(s, t);
    if |s.bytes| >= 8 {
      var len := AsUsize(bits, WordOf(s.bytes[..8]));
      if POD_SIZE * len <= |s.bytes| - 8 {
        DropGrow(s.Drop(8), POD_SIZE * len, t);
      }
    }
  }

  lemma {:induction false} ReadOnePodGrow(s: Slice, t: seq<Byte>)
    ensures ReadOnePod(s) == Err(Truncated) || ReadOnePod(Grow(s, t)) == GrowRead(ReadOnePod(s), t)
  {
    if |s.bytes| >= POD_SIZE {
      DropGrow(s, POD_SIZE, t);
    }
  }

  lemma {:induction false} ReadBytesGrow(bits: nat, s: Slice, t: seq<Byte>)
    ensures ReadBytes(bits, s) == Err(Truncated)
         || ReadBytes(bits, Grow(s, t)) == GrowRead(ReadBytes(bits, s), t)
  {
    ReadU64Grow(s, t);
    if |s.bytes| >= 8 {
      var len := AsUsize(bits, WordOf(s.bytes[..8]));
      if len <= |s.bytes| - 8 {
        DropGrow(s.Drop(8), len, t);
      }
    }
  }

  /**
   Appending bytes to any input, well formed or not, changes the outcome only if the shorter
   input was found truncated; otherwise the same sections, or the same panic, come back.
   */
  lemma {:induction false} ParseGrow(bits: nat, s: Slice, t: seq<Byte>)
    ensures ParseSections(bits, s) == Err(Truncated)
         || ParseSections(bits, Grow(s, t)) == GrowRead(ParseSections(bits, s), t)
  {
    ReadPodsGrow(bits, s, t);
    if ReadPods(bits, s).Ok? {
      var s1 := ReadPods(bits, s).value.1;
      ReadPodsGrow(bits, s1, t);
      if ReadPods(bits, s1).Ok? {
        var s2 := ReadPods(bits, s1).value.1;
        ReadOnePodGrow(s2, t);
        if ReadOnePod(s2).Ok? {
          var s3 := ReadOnePod(s2).value.1;
          ReadPodsGrow(bits, s3, t);
          if ReadPods(bits, s3).Ok? {
            var s4 := ReadPods(bits, s3).value.1;
            ReadU64Grow(s4, t);
            if ReadU64(s4).Ok? {
              ReadBytesGrow(bits, ReadU64(s4).value.1, t);
            }
          }
        }
      }
    }
  }

  /** Every strict prefix of a blob, wherever it is cut, fails a truncation check. */
  lemma {:induction false} PrefixRejected(bits: nat, a: nat, x: Sections, k: nat)
    requires a % 8 == 0 && LengthsFit(x) && |SectionBytes(x)| < Pow2(bits)
    requires k < |SectionBytes(x)|
    ensures ParseSections(bits, Slice(a, SectionBytes(x)[..k])) == Err(Truncated)
  {
    hide ParseSections, SectionBytes;
    var blob := SectionBytes(x);
    var s := Slice(a, blob[..k]);
    ParseGrow(bits, s, blob[k..]);
    ParseWritten(bits, a, x, []);
    assert blob[..k] + blob[k..] == blob && blob + [] == blob;
  }

  // --------------------------------------------------------------------------
  // Writing undoes reading
  // --------------------------------------------------------------------------

  predicate WordFits(bits: nat, bs: seq<Byte>, at: nat)
    requires at + 8 <= |bs|
  {
    WordOf(bs[at..at + 8]) < Pow2(bits)
  }

  /** The four section-length words lie below the host's `usize` limit. */
  predicate HeadersFit(bits: nat, bs: seq<Byte>, x: Sections)
    requires EndAt(x) <= |bs|
  {
    && WordFits(bits, bs, 0)
    && WordFits(bits, bs, WrapGAt(x))
    && WordFits(bits, bs, BasisAt(x))
    && WordFits(bits, bs, VkAt(x))
  }

  lemma {:induction false} ReadPodsExact(bits: nat, s: Slice)
    requires ReadPods(bits, s).Ok?
    ensures var (ps, rest) := ReadPods(bits, s).value;
            && |s.bytes| >= 8 + POD_SIZE * |ps|
            && rest == s.Drop(8 + POD_SIZE * |ps|)
            && |ps| == AsUsize(bits, WordOf(s.bytes[..8])) <= WordOf(s.bytes[..8])
            && s.bytes[8..8 + POD_SIZE * |ps|] == PodsBytes(ps)
  {
    hide WordOf, PodsOf, PodsBytes, Pow2;
    var word := WordOf(s.bytes[..8]);
    var len := AsUsize(bits, word);
    assert len <= word by { ModAtMost(word, Pow2(bits)); }
    var body := s.Drop(8).bytes[..POD_SIZE * len];
    assert body == s.bytes[8..8 + POD_SIZE * len];
    PodsBytesOf(body);
  }

  lemma {:induction false} ModAtMost(x: nat, m: nat)
    requires m > 0
    ensures x % m <= x
  {
  }

  lemma {:induction false} ReadBytesExact(bits: nat, s: Slice)
    requires ReadBytes(bits, s).Ok?
    ensures var (bs, rest) := ReadBytes(bits, s).value;
            && |s.bytes| >= 8 + |bs|
            && rest == s.Drop(8 + |bs|)
            && |bs| == AsUsize(bits, WordOf(s.bytes[..8])) <= WordOf(s.bytes[..8])
            && s.bytes[8..8 + |bs|] == bs
  {
  }

  /** A section's bytes are reproduced exactly when its length word fits. */
  lemma {:induction false} PodsSectionExact(bits: nat, s: Slice)
    requires ReadPods(bits, s).Ok?
    ensures var ps := ReadPods(bits, s).value.0;
            && |ps| < U64 && |s.bytes| >= |PodsSection(ps)|
            && (s.bytes[..|PodsSection(ps)|] == PodsSection(ps) <==> WordFits(bits, s.bytes, 0))
  {
    ReadPodsExact(bits, s);
    var ps := ReadPods(bits, s).value.0;
    HeaderExact(bits, s.bytes, |ps|);
    assert s.bytes[..8 + POD_SIZE * |ps|] == s.bytes[..8] + s.bytes[8..8 + POD_SIZE * |ps|];
    assert PodsSection(ps)[..8] == WordBytes(|ps|);
    assert s.bytes[..8 + POD_SIZE * |ps|][..8] == s.bytes[..8];
  }

  lemma {:induction false} BytesSectionExact(bits: nat, s: Slice)
    requires ReadBytes(bits, s).Ok?
    ensures var bs := ReadBytes(bits, s).value.0;
            && |bs| < U64 && |s.bytes| >= |BytesSection(bs)|
            && (s.bytes[..|BytesSection(bs)|] == BytesSection(bs) <==> WordFits(bits, s.bytes, 0))
  {
    ReadBytesExact(bits, s);
    var bs := ReadBytes(bits, s).value.0;
    HeaderExact(bits, s.bytes, |bs|);
    assert s.bytes[..8 + |bs|] == s.bytes[..8] + s.bytes[8..8 + |bs|];
    assert BytesSection(bs)[..8] == WordBytes(|bs|);
    assert s.bytes[..8 + |bs|][..8] == s.bytes[..8];
  }

  lemma {:induction false} HeaderExact(bits: nat, bs: seq<Byte>, n: nat)
    requires |bs| >= 8 && n < U64 && n == AsUsize(bits, WordOf(bs[..8]))
    ensures bs[..8] == WordBytes(n) <==> WordFits(bits, bs, 0)
  {
    WordBytesOf(bs[..8]);
    WordRoundTrip(n);
    assert bs[0..0 + 8] == bs[..8];
  }

  /** A slice starts with `a + b` when it starts with `a` and the slice after that with `b`. */
  lemma {:induction false} StageExact(s: Slice, rest: Slice, a: seq<Byte>, b: seq<Byte>)
    requires |s.bytes| >= |a| + |b| && rest == s.Drop(|a|)
    ensures s.bytes[..|a| + |b|] == a + b <==> s.bytes[..|a|] == a && rest.bytes[..|b|] == b
  {
  }

  lemma {:induction false} WordFitsAt(bits: nat, s: Slice, at: nat)
    requires at + 8 <= |s.bytes|
    ensures WordFits(bits, s.Drop(at).bytes, 0) <==> WordFits(bits, s.bytes, at)
  {
    assert s.bytes[at..][0..0 + 8] == s.bytes[at..at + 8];
  }

  lemma {:induction false} ReadPodsStep(bits: nat, s: Slice)
    requires ReadPods(bits, s).Ok?
    ensures var (ps, rest) := ReadPods(bits, s).value;
            |ps| < U64 && 8 + POD_SIZE * |ps| <= |s.bytes| && rest == s.Drop(8 + POD_SIZE * |ps|) && s.addr % 8 == 0
  {
    hide ReadPods, WordOf, PodsBytes;
    ReadPodsExact(bits, s);
    PodsAligned(bits, s);
  }

  lemma {:induction false} ReadOnePodStep(s: Slice)
    requires ReadOnePod(s).Ok?
    ensures POD_SIZE <= |s.bytes| && ReadOnePod(s).value.1 == s.Drop(POD_SIZE)
  {
  }

  lemma {:induction false} ReadU64Step(s: Slice)
    requires ReadU64(s).Ok?
    ensures 8 <= |s.bytes| && ReadU64(s).value.1 == s.Drop(8)
  {
  }

  lemma {:induction false} ReadBytesStep(bits: nat, s: Slice)
    requires ReadBytes(bits, s).Ok?
    ensures var (bs, rest) := ReadBytes(bits, s).value;
            |bs| < U64 && 8 + |bs| <= |s.bytes| && rest == s.Drop(8 + |bs|)
  {
  }

  /** Two consecutive steps of known width. */
  lemma {:induction false} StepFrom(s: Slice, at: nat, mid: Slice, n: nat, rest: Slice)
    requires at <= |s.bytes| && mid == s.Drop(at)
    requires n <= |mid.bytes| && rest == mid.Drop(n)
    ensures at + n <= |s.bytes| && rest == s.Drop(at + n)
  {
  }

  lemma {:induction false} FrontOffsets(bits: nat, s: Slice, x: Sections, s1: Slice, s2: Slice, s3: Slice)
    requires ReadPods(bits, s) == Ok((x.vestaG, s1)) && ReadPods(bits, s1) == Ok((x.wrapG, s2))
    requires ReadOnePod(s2) == Ok((x.wrapH, s3))
    ensures |x.vestaG| < U64 && |x.wrapG| < U64 && s.addr % 8 == 0 && BasisAt(x) <= |s.bytes|
    ensures s1 == s.Drop(WrapGAt(x)) && s2 == s.Drop(WrapHAt(x)) && s3 == s.Drop(BasisAt(x))
  {
    hide ReadPods, ReadOnePod, Slice.Drop;
    ReadPodsStep(bits, s);
    ReadPodsStep(bits, s1);
    StepFrom(s, WrapGAt(x), s1, 8 + POD_SIZE * |x.wrapG|, s2);
    ReadOnePodStep(s2);
    StepFrom(s, WrapHAt(x), s2, POD_SIZE, s3);
  }

  lemma {:induction false} BackOffsets(bits: nat, s: Slice, x: Sections, s3: Slice, s4: Slice, s5: Slice, s6: Slice)
    requires ReadPods(bits, s3) == Ok((x.wrapBasis, s4)) && ReadU64(s4) == Ok((x.stepNumChunks, s5))
    requires ReadBytes(bits, s5) == Ok((x.vkBytes, s6))
    requires BasisAt(x) <= |s.bytes| && s3 == s.Drop(BasisAt(x))
    ensures |x.wrapBasis| < U64 && |x.vkBytes| < U64 && EndAt(x) <= |s.bytes|
    ensures s4 == s.Drop(ChunksAt(x)) && s5 == s.Drop(VkAt(x)) && s6 == s.Drop(EndAt(x))
  {
    hide ReadPods, ReadBytes, ReadU64, BasisAt, Slice.Drop;
    ReadPodsStep(bits, s3);
    StepFrom(s, BasisAt(x), s3, 8 + POD_SIZE * |x.wrapBasis|, s4);
    ReadU64Step(s4);
    StepFrom(s, ChunksAt(x), s4, 8, s5);
    ReadBytesStep(bits, s5);
    StepFrom(s, VkAt(x), s5, 8 + |x.vkBytes|, s6);
  }

  /** The readers step through the layout offsets, and stay within the input. */
  lemma {:induction false} TraceOffsets(bits: nat, s: Slice, x: Sections, at: seq<Slice>)
    requires Trace(bits, s, x, at)
    ensures EndAt(x) <= |s.bytes| && LengthsFit(x) && s.addr % 8 == 0
    ensures at[0] == s.Drop(WrapGAt(x)) && at[1] == s.Drop(WrapHAt(x))
    ensures at[2] == s.Drop(BasisAt(x)) && at[3] == s.Drop(ChunksAt(x))
    ensures at[4] == s.Drop(VkAt(x)) && at[5] == s.Drop(EndAt(x))
  {
    hide ReadPods, ReadBytes, ReadOnePod, ReadU64, WrapGAt, WrapHAt, BasisAt, ChunksAt, VkAt, EndAt;
    FrontOffsets(bits, s, x, at[0], at[1], at[2]);
    BackOffsets(bits, s, x, at[2], at[3], at[4], at[5]);
  }

  lemma {:induction false} TailExact(bits: nat, s: Slice, x: Sections, at: seq<Slice>)
    requires Trace(bits, s, x, at) && LengthsFit(x) && EndAt(x) <= |s.bytes|
    requires at[3] == s.Drop(ChunksAt(x)) && at[4] == s.Drop(VkAt(x))
    ensures at[3].bytes[..EndAt(x) - ChunksAt(x)] == AfterBasis(x, [])
       <==> WordFits(bits, s.bytes, VkAt(x))
  {
    hide BytesSection, WordFits, ReadBytes, WordBytes, WordOf;
    BytesSectionExact(bits, at[4]);
    WordFitsAt(bits, s, VkAt(x));
    assert AfterChunks(x, []) == BytesSection(x.vkBytes);
    StageExact(at[3], at[4], WordBytes(x.stepNumChunks), AfterChunks(x, []));
    WordBytesOf(at[3].bytes[..8]);
  }

  lemma {:induction false} BasisExact(bits: nat, s: Slice, x: Sections, at: seq<Slice>)
    requires Trace(bits, s, x, at) && LengthsFit(x) && EndAt(x) <= |s.bytes|
    requires at[1] == s.Drop(WrapHAt(x)) && at[2] == s.Drop(BasisAt(x))
    requires at[3] == s.Drop(ChunksAt(x)) && at[4] == s.Drop(VkAt(x))
    ensures at[1].bytes[..EndAt(x) - WrapHAt(x)] == AfterWrapG(x, [])
       <==> WordFits(bits, s.bytes, BasisAt(x)) && WordFits(bits, s.bytes, VkAt(x))
  {
    hide PodsSection, WordFits, ReadPods, PodBytes, AfterBasis, PodOf;
    TailExact(bits, s, x, at);
    PodsSectionExact(bits, at[2]);
    WordFitsAt(bits, s, BasisAt(x));
    AfterBasisLength(x);
    StageExact(at[2], at[3], PodsSection(x.wrapBasis), AfterBasis(x, []));
    StageExact(at[1], at[2], PodBytes(x.wrapH), AfterWrapH(x, []));
    PodBytesOf(at[1].bytes[..POD_SIZE]);
  }

  lemma {:induction false} AfterBasisLength(x: Sections)
    requires LengthsFit(x)
    ensures |AfterBasis(x, [])| == EndAt(x) - ChunksAt(x)
  {
  }

  /**
   Canonicality of the raw layout: whatever bytes parsed, the sections account for exactly the
   consumed prefix, and writing them again reproduces that prefix if and only if the four
   section-length words were below the `usize` limit (always so on a 64-bit host).
   */
  lemma {:induction false} ParseExact(bits: nat, s: Slice)
    requires ParseSections(bits, s).Ok?
    ensures var (x, tail) := ParseSections(bits, s).value;
            && LengthsFit(x) && EndAt(x) == |SectionBytes(x)| <= |s.bytes| && tail == s.Drop(EndAt(x))
            && s.addr % 8 == 0
            && (SectionBytes(x) == s.bytes[..EndAt(x)] <==> HeadersFit(bits, s.bytes, x))
  {
    hide ParseSections, SectionBytes, PodsSection, WordFits, ReadPods, ReadBytes, AfterWrapG;
    var x := ParseSections(bits, s).value.0;
    var at := ParseTrace(bits, s);
    TraceOffsets(bits, s, x, at);
    BlobSize(x);
    SectionsNested(x, []);
    BasisExact(bits, s, x, at);
    PodsSectionExact(bits, at[0]);
    PodsSectionExact(bits, s);
    WordFitsAt(bits, s, WrapGAt(x));
    assert |AfterWrapG(x, [])| == EndAt(x) - WrapHAt(x) by { AfterWrapGLength(x); }
    StageExact(at[0], at[1], PodsSection(x.wrapG), AfterWrapG(x, []));
    StageExact(s, at[0], PodsSection(x.vestaG), AfterVesta(x, []));
    assert SectionBytes(x) + [] == SectionBytes(x);
  }

  lemma {:induction false} AfterWrapGLength(x: Sections)
    requires LengthsFit(x)
    ensures |AfterWrapG(x, [])| == EndAt(x) - WrapHAt(x)
  {
  }

  /** On a 64-bit host every length word fits. */
  lemma {:induction false} HeadersFit64(bs: seq<Byte>, x: Sections)
    requires EndAt(x) <= |bs|
    ensures HeadersFit(64, bs, x)
  {
    Pow2Of64();
  }

  /** The sections as the encoder would write the points that were read. */
  function Rewritten(x: Sections): (r: Sections)
    ensures |r.vestaG| == |x.vestaG| && |r.wrapG| == |x.wrapG| && |r.wrapBasis| == |x.wrapBasis|
    ensures r.vkBytes == x.vkBytes
  {
    Sections(RewrittenPods(x.vestaG), RewrittenPods(x.wrapG), ToPod(FromPod(x.wrapH)),
      RewrittenPods(x.wrapBasis), x.stepNumChunks, x.vkBytes)
  }

  function RewrittenPods(ps: seq<Pod>): seq<Pod> {
    Map(ToPod, Map(FromPod, ps))
  }

  predicate AllCanonical(ps: seq<Pod>) {
    forall i | 0 <= i < |ps| :: CanonicalPod(ps[i])
  }

  predicate CanonicalSections(x: Sections) {
    AllCanonical(x.vestaG) && AllCanonical(x.wrapG) && CanonicalPod(x.wrapH) && AllCanonical(x.wrapBasis)
  }

  lemma {:induction false} RewrittenSame(x: Sections)
    ensures Rewritten(x) == x <==> CanonicalSections(x)
  {
  }

  /**
   Canonicality of the decoded points: for every byte slice that parses, re-encoding the affine
   points that were read reproduces the consumed prefix if and only if the length words fit, all
   padding was zero and all infinity bytes were 0 or 1.
   */
  lemma {:induction false} ReencodeExact(bits: nat, s: Slice)
    requires ParseSections(bits, s).Ok? && |s.bytes| < Pow2(bits)
    ensures var x := ParseSections(bits, s).value.0;
            && EndAt(x) <= |s.bytes| && LengthsFit(x)
            && (SectionBytes(Rewritten(x)) == s.bytes[..EndAt(x)]
                <==> HeadersFit(bits, s.bytes, x) && CanonicalSections(x))
  {
    hide ParseSections, SectionBytes, HeadersFit, CanonicalSections, Rewritten;
    var x := ParseSections(bits, s).value.0;
    ParseExact(bits, s);
    RewrittenSame(x);
    var r := Rewritten(x);
    if SectionBytes(r) == s.bytes[..EndAt(x)] {
      ParseWritten(bits, s.addr, r, []);
      assert SectionBytes(r) + [] == SectionBytes(r);
      assert Grow(Slice(s.addr, s.bytes[..EndAt(x)]), s.bytes[EndAt(x)..]) == s by {
        assert s.bytes[..EndAt(x)] + s.bytes[EndAt(x)..] == s.bytes;
      }
      ParseGrow(bits, Slice(s.addr, s.bytes[..EndAt(x)]), s.bytes[EndAt(x)..]);
      assert r == x;
    }
  }

  /**
   On a 32-bit host canonicality does fail: a length word of 2^32 is cut to 0 by the cast to
   `usize`, the blob parses, and re-encoding writes 0 instead.
   */
  lemma {:induction false} HighLengthWordLost(h: Affine)
    ensures var bs := WordBytes(0x1_0000_0000) + WordBytes(0) + PodBytes(ToPod(h))
                      + WordBytes(0) + WordBytes(0) + WordBytes(0);
            var x := Sections([], [], ToPod(h), [], 0, []);
            && ParseSections(32, Slice(0, bs)) == Ok((x, Slice(|bs|, [])))
            && CanonicalSections(x) && SectionBytes(x) != bs
  {
    hide PodBytes, PodOf, ReadOnePod, ReadPods, ReadU64, ReadBytes, SectionBytes, WordBytes, ParseSections;
    var x := Sections([], [], ToPod(h), [], 0, []);
    var t1 := AfterVesta(x, []);
    var bs := WordBytes(0x1_0000_0000) + t1;
    assert AfterVesta(x, [])
        == WordBytes(0) + (PodBytes(ToPod(h)) + (WordBytes(0) + (WordBytes(0) + WordBytes(0)))) by {
      EmptySections(x);
    }
    assert bs == WordBytes(0x1_0000_0000) + WordBytes(0) + PodBytes(ToPod(h))
                 + WordBytes(0) + WordBytes(0) + WordBytes(0);
    HighWordReadsEmpty(t1);
    Pow2Of32();
    ReadPodsWritten(32, 8, [], AfterWrapG(x, []));
    ReadOnePodWritten(16, ToPod(h), AfterWrapH(x, []));
    ReadPodsWritten(32, 88, [], AfterBasis(x, []));
    ReadU64Written(96, 0, AfterChunks(x, []));
    ReadBytesWritten(32, 104, [], []);
    TraceParses(32, Slice(0, bs), x, [Slice(8, t1), Slice(16, AfterWrapG(x, [])), Slice(88, AfterWrapH(x, [])),
      Slice(96, AfterBasis(x, [])), Slice(104, AfterChunks(x, [])), Slice(112, [])]);
    HighWordDiffers(x, bs, t1);
  }

  lemma {:induction false} HighWordDiffers(x: Sections, bs: seq<Byte>, t: seq<Byte>)
    requires LengthsFit(x) && x.vestaG == [] && bs == WordBytes(0x1_0000_0000) + t
    ensures SectionBytes(x) != bs
  {
    hide WordOf, WordBytes;
    WordRoundTrip(0);
    WordRoundTrip(0x1_0000_0000);
    assert SectionBytes(x)[..8] == WordBytes(0) && bs[..8] == WordBytes(0x1_0000_0000);
  }

  lemma {:induction false} EmptySections(x: Sections)
    requires LengthsFit(x) && x.wrapG == x.wrapBasis == [] && x.vkBytes == [] && x.stepNumChunks == 0
    ensures AfterVesta(x, [])
         == WordBytes(0) + (PodBytes(x.wrapH) + (WordBytes(0) + (WordBytes(0) + WordBytes(0))))
  {
  }

  lemma {:induction false} HighWordReadsEmpty(t: seq<Byte>)
    ensures ReadPods(32, Slice(0, WordBytes(0x1_0000_0000) + t)) == Ok(([], Slice(8, t)))
  {
    hide WordBytes, ReadU64;
    var s := Slice(0, WordBytes(0x1_0000_0000) + t);
    ReadU64Written(0, 0x1_0000_0000, t);
    Pow2Of32();
    assert AsUsize(32, 0x1_0000_0000) == 0;
    ReadEmptyPods(32, s, 0x1_0000_0000, Slice(8, t));
  }

  lemma {:induction false} ReadEmptyPods(bits: nat, s: Slice, word: Word, rest: Slice)
    requires ReadU64(s) == Ok((word, rest)) && AsUsize(bits, word) == 0 && rest.addr % 8 == 0
    ensures ReadPods(bits, s) == Ok(([], rest))
  {
  }

  // --------------------------------------------------------------------------
  // Alignment
  // --------------------------------------------------------------------------

  /**
   From an 8-aligned base no cast is ever misaligned, whatever the bytes; from any other base
   the first cast already is, so nothing parses.
   */
  lemma {:induction false} AlignmentOfBase(bits: nat, s: Slice)
    ensures s.addr % 8 == 0 ==> ParseSections(bits, s) != Err(Misaligned)
    ensures s.addr % 8 != 0 ==> ParseSections(bits, s).Err?
  {
    hide ReadPods, ReadOnePod, ReadU64, ReadBytes;
    PodsAligned(bits, s);
    if ReadPods(bits, s).Ok? {
      var s1 := ReadPods(bits, s).value.1;
      PodsAligned(bits, s1);
      if ReadPods(bits, s1).Ok? {
        var s2 := ReadPods(bits, s1).value.1;
        OnePodAligned(s2);
        if ReadOnePod(s2).Ok? {
          var s3 := ReadOnePod(s2).value.1;
          PodsAligned(bits, s3);
          if ReadPods(bits, s3).Ok? {
            UnalignedReads(bits, ReadPods(bits, s3).value.1);
          }
        }
      }
    }
  }

  lemma {:induction false} PodsAligned(bits: nat, s: Slice)
    ensures s.addr % 8 != 0 ==> ReadPods(bits, s).Err?
    ensures s.addr % 8 == 0 ==> ReadPods(bits, s) != Err(Misaligned)
    ensures ReadPods(bits, s).Ok? ==> ReadPods(bits, s).value.1.addr % 8 == 0
  {
    hide AsUsize, PodsOf, WordOf;
  }

  lemma {:induction false} OnePodAligned(s: Slice)
    ensures s.addr % 8 == 0 ==> ReadOnePod(s) != Err(Misaligned)
    ensures ReadOnePod(s).Ok? ==> ReadOnePod(s).value.1.addr % 8 == 0
  {
  }

  /** Reading words and bytes needs no alignment. */
  lemma {:induction false} UnalignedReads(bits: nat, s: Slice)
    ensures ReadU64(s) != Err(Misaligned)
    ensures ReadU64(s).Ok? ==> ReadBytes(bits, ReadU64(s).value.1) != Err(Misaligned)
  {
  }
}
