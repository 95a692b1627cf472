# Verification of the Pickles verifier glue

A Dafny model of the out-of-circuit Pickles verifier crate, with proofs that its chain of
encodings loses nothing and that its arithmetic between the two Pasta fields is exact.

The model follows one value from end to end. A JSON skeleton is decoded (`Numbers`, `Wire`),
converted into a `VerifiableProof` (`Convert`), expanded into deferred values (`Expansion`),
flattened across the fields into the 40-element wrap public input (`Deferred`) and absorbed by the
batching transcript (`Batching`); `EndToEnd` states what survives the whole chain. Beside it, the
verifier itself travels to the guest as a binary blob (`Blob`, `BlobLaws`, `VerifierBlob`), and
`Equivalence` states that the guest's verifier gives the verdicts of one built directly from the
originals on the guest, and exactly when these are also the verdicts of a host with another word
size (`HostAndGuestExact`). `Skeleton` and `Printer` hold the decoder's laws, `ChallengePolynomial` the IPA polynomial
b(X), and `Bytes`, `Fields`, `Types`, `Upstream`, `Wrappers` the common ground.

How the source's forms appear:

* Code that appends, pushes, resizes or reverses is a method (with the classes `ByteVec`, `WrapSrs`
  and `Hasher` for the objects it mutates), proved against a specification function; the laws are
  lemmas about those functions. Expressions and `Result` chains are functions.
* Panics and errors are `Result` or `Option` values. Arithmetic is that of a release build, as every
  Makefile target makes: casts to `usize` and shift amounts wrap. The word size is a parameter
  (`bits`), so the results cover 32- and 64-bit hosts.
* Upstream code (kimchi, Poseidon, Blake2s, ChaCha20, curve arithmetic, postcard) is the record
  `Upstream.Primitives` of uninterpreted functions. Theorems hold for every such record;
  `VkRoundTrips` (postcard decodes the one key at hand), `ProofCodec` (postcard is injective on
  proofs) and `PowersOfZeta` (kimchi returns the two powers of zeta it documents) are the only
  assumptions made about it, and each theorem that uses one names it.
  `Equivalence.ShippableExists` shows that everything shipping asks can be met. Primality of a
  modulus is likewise a named hypothesis where roots are counted.

Every lemma carries `{:induction false}`: its induction, if any, is written out, and none rests on a
hypothesis the verifier adds on its own (in Dafny 4.11 that hypothesis does not guard the element
types of sequences, and can prove too much).

Where the code and its comments differ, the code is modelled:

* `serialize.rs:283-287` says a basis that does not match the VK "surfaces as a cache miss". The code
  keys the cache by the VK's domain size and stores whatever the blob holds, so the lookup is a hit
  (`Equivalence.DecodedBasisIsTrusted`, `Equivalence.WrongBasisDecodes`).
* `wire.rs:41-46` speaks of zero padding; the resize also truncates, so over-long numerals lose
  their high digits silently (`Numbers.HexValueKept`, `Numbers.HighDigitsDropped`).

## Model

The first 81 rows, down to `Numbers.FormatsAgree`, are the main results, by subject; then, from
`VerifierBlob.CoherentLookup`, come the laws they rest on; last, from
`VerifierBlob.EncodeVerifierBlob`, the code as it runs, method by method.

| member | source | states |
|---|---|---|
| Equivalence.ObservationalEquivalence | crates/pickles-verifier/src/serialize.rs:220-305 | for every SRS pair (even with a wrong cache), VK and chunk count, on any encoder and decoder word size the values fit, the decoded verifier gives, for every proof and every batch, the accumulator and verification verdicts of the one built directly on the decoder's word size, whatever follows the blob |
| Equivalence.ShippedCalls | crates/pickles-verifier/src/serialize.rs:262-305 | what a shipped verifier works with: challenges expanded with the step scalar endomorphism, the step constants and row count in the oracle query, and an opening key with the original data, generators, blinder and encoder's basis and the wrap linearization and base endomorphism; so does the one built directly |
| Equivalence.HostAndGuestExact | crates/pickles-verifier/src/serialize.rs:220-305 | the exact condition: for every upstream under which the verifier ships, the guest gives the host's verdict on a proof, iff both word sizes lack its domain or both give it one domain and one row count |
| Equivalence.HostAndGuestAgree | crates/pickles-verifier/src/serialize.rs:220-305 | across word sizes: whenever the two sizes match on a batch, the decoded verifier's verdict on the guest is that of the host's own verifier on the host |
| Equivalence.HostsJudgeAlike | crates/pickles-verifier/src/deferred.rs:147-152 | two hosts that build their own verifiers judge a proof alike, whatever the upstream functions do, iff neither word size has its domain or both give it one domain and one row count |
| Equivalence.HostsJudgeBatchesAlike | crates/pickles-verifier/src/lib.rs:57-109 | the same for batches of any length: no batch with the given log2s tells the hosts apart iff some domain is missing on both, or all domains and (unless the batch is empty) the row counts are equal |
| Equivalence.WidthsJudgeAlike | crates/pickles-verifier/src/deferred.rs:147-149 | for one verifier, two word sizes judge a proof alike, whatever the upstream functions do, iff they give it the same domain |
| Equivalence.UsualWidthsAgree | crates/pickles-verifier/src/deferred.rs:147-149 | 32- and 64-bit hosts give a batch the same domains iff every carried log2 is below 32 modulo 64 |
| Equivalence.WidthMatters | crates/pickles-verifier/src/deferred.rs:147-149 | the failing input: with log2 33 a 64-bit host panics where a 32-bit host gives a verdict over the domain of size 2 |
| Equivalence.DecodedBasisIsTrusted | crates/pickles-verifier/src/serialize.rs:283-297 | the decoded verifier always opens against the basis section of the blob (never a cache miss at the VK domain size); it is the generator's basis iff the section is |
| Equivalence.WrongBasisDecodes | crates/pickles-verifier/src/serialize.rs:283-297 | the failing input: a layout with an empty basis section decodes without error into a verifier whose cache is untruthful and whose opening basis is empty |
| Equivalence.VerificationRepeatable | crates/pickles-verifier/src/lib.rs:57-109 | the cache entry a verification may fill leaves every later verdict unchanged, whatever the cache held, and keeps a truthful cache truthful |
| Equivalence.ShipAndVerify | crates/pickles-verifier/src/lib.rs:227-264 | on real objects: encoding, decoding into a fresh verifier and verifying gives the verdict of the verifier built directly, on the guest's word size and, under the cross-width condition, on the host's; the host's SRS gains one cache entry |
| Batching.BatchOpensEveryProof | crates/pickles-verifier/src/lib.rs:75-108 | when every accumulator passes and every expansion succeeds, the verdict is the opening check's over one context per proof, in order, with its own public input, under the verifier's key, generators, blinder and basis, seeded by the transcript of exactly these proofs and inputs |
| Batching.FailingAccumulatorRejects | crates/pickles-verifier/src/lib.rs:70-72 | one failing accumulator rejects the whole batch, before any expansion can panic |
| Batching.PanicsExactly | crates/pickles-verifier/src/lib.rs:57-86 | verification panics iff every accumulator passes and some expansion panics |
| VerifierBlob.DecodeEncoded | crates/pickles-verifier/src/serialize.rs:220-305 | decoding an encoded blob is exactly `Verifier::new` of the originals with a one-basis cache and default Vesta `h` and cache |
| VerifierBlob.DecodedCacheAgrees | crates/pickles-verifier/src/serialize.rs:197-208 | after decoding, a lookup at the VK's domain size is the encoder's own and at any other size the generator's; the decoded cache is truthful iff the encoder's answer was the generator's, as from a truthful cache it is |
| BlobLaws.ParseWritten | crates/pickles-verifier/src/serialize.rs:102-181 | from any aligned address and on any word size the blob fits, all six sections come back unchanged and the reader stops at the end |
| BlobLaws.ReencodeExact | crates/pickles-verifier/src/serialize.rs:80-96 | re-encoding the affine points read reproduces the consumed prefix iff the length words fit, padding is zero and infinity bytes are 0 or 1 |
| BlobLaws.ParseExact | crates/pickles-verifier/src/serialize.rs:134-181 | whatever parses accounts for exactly the consumed prefix, and rewriting the records reproduces it iff the four length words are below the `usize` limit |
| BlobLaws.ParseGrow | crates/pickles-verifier/src/serialize.rs:128-181 | for arbitrary bytes, appending more changes the outcome only if the shorter input was truncated |
| BlobLaws.PrefixRejected | crates/pickles-verifier/src/serialize.rs:128-181 | every strict prefix of a blob fails a truncation check |
| BlobLaws.HighLengthWordLost | crates/pickles-verifier/src/serialize.rs:135-139 | on 32 bits a length word of 2^32 parses as an empty section, so canonicality fails there |
| BlobLaws.AlignmentOfBase | crates/pickles-verifier/src/serialize.rs:142-172 | from an 8-aligned base no cast is misaligned for any bytes; from any other base nothing parses |
| Blob.BlobLayout | crates/pickles-verifier/src/serialize.rs:18-31 | the six sections at their offsets: Vesta generators, wrap generators, blinder, basis, chunk count, key bytes |
| VerifierBlob.EncodedLayout | crates/pickles-verifier/src/serialize.rs:220-253 | an encoded blob is the sections of the Vesta generators, wrap generators, blinder, basis points, chunk count and postcard bytes, in that order |
| Blob.PointLayout | crates/pickles-verifier/src/serialize.rs:62-78 | a point's 72 bytes: four limbs of x, four of y, a flag byte of 0 or 1, seven zeros |
| Deferred.PublicInputInvertible | crates/pickles-verifier/src/deferred.rs:350-392 | from the 40 elements one recovers all five Type1 scalars, all challenges, the three digests and the prechallenges for every input, and the branch data iff 4 log2 + mask is below q |
| Deferred.PublicInputInjective | crates/pickles-verifier/src/deferred.rs:350-392 | two inputs have one public input iff they agree on the whole statement and their branch numbers are congruent modulo q, which below q means equal branch data |
| Batching.PublicInputScalars | crates/pickles-verifier/src/deferred.rs:350-378 | un-shifted, the five Type1 elements are the batched inner product over the table, b, the oracles' chunk power and zeta1, and the permutation scalar; element 9 is the oracles' raw v |
| Batching.PublicInputPowers | crates/pickles-verifier/src/deferred.rs:265-266 | with oracles that return the powers they document, elements 2 and 3 stand for zeta to the SRS length and zeta to the size of the proof's domain |
| Deferred.FpToFqExact | crates/pickles-verifier/src/deferred.rs:307-313 | byte split and byte-wise reduction modulo q preserve the canonical integer of every step element |
| Deferred.Type1Unique | crates/pickles-verifier/src/deferred.rs:315-327 | the result is the unique t below p with 2t + 2^255 + 1 congruent to the raw value, carried exactly |
| Deferred.Type1Onto | crates/pickles-verifier/src/deferred.rs:315-327 | every integer below p is the representative of its raw scalar, so the map is a bijection onto [0, p) |
| Deferred.BranchDataExact | crates/pickles-verifier/src/deferred.rs:329-342 | unpacking recovers the branch data iff 4 log2 + mask is below q |
| Deferred.BranchDataCollision | crates/pickles-verifier/src/deferred.rs:329-342 | the guard is needed: two branches that pack to one element |
| Skeleton.ParseIgnoresExtraKeys | crates/pickles-verifier/src/wire.rs:269-340 | extra object keys at any depth never change a successful parse |
| Printer.SkeletonRoundTrip | crates/pickles-verifier/src/wire.rs:269-340 | the OCaml-shaped tree of any well-formed proof, with any extra keys, parses back to it |
| Printer.ParsedReprints | crates/pickles-verifier/src/wire.rs:269-340 | a parsed proof prints to a tree that parses to it iff its challenges are below 2^128 |
| EndToEnd.TranscriptBindsOrCollides | crates/pickles-verifier/src/lib.rs:121-142 | the whole chain: batches of skeletons with one transcript have one length and, position by position, equal carried values, and each digest is a collision or stands for one reading of VK fields, app state, previous messages, commitment and wrap challenges |
| EndToEnd.TranscriptBindsSkeletons | crates/pickles-verifier/src/lib.rs:121-142 | two batches of skeletons have one transcript iff they have one length and agree, proof by proof, on the wrap proof, the whole statement (five Type1 scalars, all challenges, xi, all three digests) and the branch data; and then on every carried value |
| EndToEnd.DigestsBindOrCollide | crates/pickles-verifier/src/convert.rs:198-222 | for app states of any widths, two assembled proofs share the step digest iff the preimages collide or the VK fields are equal and one app state regroups the other's messages, and share the wrap digest iff the preimages collide or the commitments are equal and one challenge list is the other behind dummies |
| EndToEnd.AssembledProofsShareDigests | crates/pickles-verifier/src/convert.rs:198-239 | the regrouped case is real: two printed skeletons with different previous messages assemble to proofs with equal carried values and equal step preimages |
| EndToEnd.EqualWidthsBind | crates/pickles-verifier/src/convert.rs:119-128 | with app states of one width, one reading means equal VK fields, app states and previous messages |
| EndToEnd.UnrelatedWidthsCollide | crates/pickles-verifier/src/convert.rs:119-128 | with widths that do not differ by a multiple of 18, one step digest is a collision |
| EndToEnd.SkeletonReachesPublicInput | crates/pickles-verifier/src/wire.rs:269-340 | each challenge node of the JSON, and the sponge digest, spells the integer at its public-input position, and element 29 is the branch number of the parsed branch data |
| EndToEnd.PackedLog2SizesDomain | crates/pickles-verifier/src/deferred.rs:147-149 | the packed log2 is the one that sizes the step domain iff it is below the word size |
| EndToEnd.PackedLog2Masked | crates/pickles-verifier/src/deferred.rs:147-149 | the failing inputs: every well-formed proof with log2 80 (the character P) prints to a skeleton that assembles, packs 80 into element 29 and on 64 bits is expanded over the domain of 2^16 |
| EndToEnd.SelectorsKeepTheirNames | crates/pickles-verifier/src/deferred.rs:95-107 | each selector read under its JSON key lands in its own table row |
| EndToEnd.AssembledTableRectangular | crates/pickles-verifier/src/deferred.rs:223-246 | every table row of an assembled proof is rectangular |
| Convert.StepPreimageExact | crates/pickles-verifier/src/convert.rs:114-133 | for app states of any widths, two step preimages coincide iff the VK fields are equal and one app state is the other with that one's leading messages behind it |
| Convert.StepPreimageInjective | crates/pickles-verifier/src/convert.rs:114-133 | for app states of one width the preimage determines all its parts for any number of previous proofs |
| Convert.StepPreimageAmbiguous | crates/pickles-verifier/src/convert.rs:114-133 | any number of leading messages read the same as more app state, 18 fields each |
| Convert.ConversionsShareDigests | crates/pickles-verifier/src/convert.rs:198-239 | moving one previous message into the app state leaves both digests, and all but the old challenges of the converted proof, unchanged, with equal preimages |
| Convert.PaddedPreimageInjective | crates/pickles-verifier/src/convert.rs:209-222 | two padded preimages coincide iff the commitments do and the longer list is the shorter behind dummies |
| Convert.WrapPreimageExact | crates/pickles-verifier/src/convert.rs:209-222 | padded wrap preimages coincide iff the commitments do and one challenge list is the other behind dummies |
| Convert.WrapDigestHashes | crates/pickles-verifier/src/convert.rs:205-222 | the wrap digest hashes two blocks and the commitment: dummies from chal_15 down to chal_1 for each missing proof, then each proof's raw challenges expanded with the wrap endomorphism |
| Convert.StepDigestHashes | crates/pickles-verifier/src/convert.rs:198-204 | the step digest hashes the VK fields, the app state and, per previous proof, its commitment and its raw challenges expanded with the step endomorphism |
| Convert.ConversionErrors | crates/pickles-verifier/src/convert.rs:196-213 | conversion succeeds iff all 28 commitments have chunks and there are at most two previous wrap proofs; otherwise the first failing condition names the error |
| Convert.ConversionCarries | crates/pickles-verifier/src/convert.rs:181-237 | every carried value, and each old challenge as the raw one expanded with the step endomorphism |
| Expansion.ExpansionVanishes | crates/pickles-verifier/src/deferred.rs:251-263 | the factor handed to the permutation scalar is the product of the differences between the proof's expanded zeta and the three rows counted from the end of its own domain, by the verifier's own row count, and is zero iff zeta is one of them |
| Expansion.ZkVanishingSet | crates/pickles-verifier/src/deferred.rs:251-257 | over a domain of order n the factor vanishes, on the whole field, exactly at rows n-1, n-(zk-1) and n-zk |
| Expansion.ZkPolynomialProduct | crates/pickles-verifier/src/deferred.rs:251-257 | over a domain of order n the factor equals the product of the differences from rows n-1, n-(zk-1) and n-zk |
| Expansion.ZkPolynomialRows | crates/pickles-verifier/src/deferred.rs:251-257 | a row of the domain is a root iff its index is n-1, n-(zk-1) or n-zk |
| Expansion.ZkRowsAreLast | crates/pickles-verifier/src/deferred.rs:251-257 | for one chunk and n >= 4 these are exactly the last three rows |
| Expansion.ZkPolynomialWrapped | crates/pickles-verifier/src/deferred.rs:251-257 | with a row count wrapped to 0 the exponents are 2^64 - 1 and 0 |
| Expansion.ExpansionComputes | crates/pickles-verifier/src/deferred.rs:196-299 | every value the expansion computes, from the oracles' answer, the proof's carried values and the individually expanded challenges |
| Expansion.OraclesAsked | crates/pickles-verifier/src/deferred.rs:160-194 | every argument of the oracle query: alpha and zeta expanded and raw, beta and gamma raw, the gate endomorphism, the old challenges and the named evaluations |
| Batching.TranscriptBinds | crates/pickles-verifier/src/lib.rs:121-142 | two batches of any sizes absorb the same bytes iff they are the same ordered list of (proof, public input) pairs |
| Batching.TranscriptReads | crates/pickles-verifier/src/lib.rs:132-141 | an independent reader recovers every batch, in order, from the absorbed bytes |
| Batching.StagesShareThePolynomial | crates/pickles-verifier/src/deferred.rs:268-274 | stage 1's b is, at zeta and zeta omega, the value of the coefficient vector of the same individually expanded challenges that stage 2 commits to |
| Batching.MsmTerms | crates/pickles-verifier/src/lib.rs:158-161 | the multiplication is the sum of the terms, generator i scaled by coefficient i |
| Batching.AccumulatorMeaning | crates/pickles-verifier/src/lib.rs:150-163 | for an SRS of any length, the check holds iff the commitment (possibly the identity) is the sum of generator i scaled by the product of the raw challenges, each expanded with the verifier's endomorphism, that the bits of i select |
| Batching.CommitsToWholePolynomial | crates/pickles-verifier/src/lib.rs:156-159 | all 2^16 coefficients are used iff the Vesta SRS has at least that many generators |
| ChallengePolynomial.CoefficientsEvaluateToProduct | crates/pickles-verifier/src/lib.rs:151-156 | for any challenges, modulus and point, the coefficient vector evaluates to the product form |
| Numbers.HexExact | crates/pickles-verifier/src/wire.rs:48-55 | hex decoding succeeds exactly on an even number of hex digits whose value modulo 2^256 is below the modulus, and yields it |
| Numbers.HexValueKept | crates/pickles-verifier/src/wire.rs:43-46 | the decoded element is the numeral's value iff that value is below 2^256 |
| Numbers.HighDigitsDropped | crates/pickles-verifier/src/wire.rs:43-46 | a 66-digit numeral for 2^256 decodes, without error, to 0 |
| Numbers.LimbsExact | crates/pickles-verifier/src/wire.rs:103-113 | limb decoding succeeds exactly on 64-bit integers whose combined value modulo 2^256 is below the modulus, and yields it |
| Numbers.FormatsAgree | crates/pickles-verifier/src/wire.rs:43-55 | 64 hex digits and four signed limbs decode to the same element |
| VerifierBlob.CoherentLookup | crates/pickles-verifier/src/serialize.rs:187-208 | a lookup never changes later answers; the cache it leaves is truthful iff the one before was and the answer is the generator's, and with a truthful cache hits and misses are indistinguishable |
| VerifierBlob.DecodingConfigures | crates/pickles-verifier/src/serialize.rs:262-305 | whatever blob decodes, the verifier holds its sections and key data and the constants of Verifier::new |
| VerifierBlob.NewConfigures | crates/pickles-verifier/src/types.rs:146-169 | Verifier::new sets the step scalar endomorphism, linearization, row count and SRS size, puts the wrap linearization and base endomorphism into the key, and keeps the key's data and both SRSs |
| VerifierBlob.ZkRowsFormula | crates/pickles-verifier/src/types.rs:164 | the row count is `(16 nc + 5) / 7` iff the sum does not wrap, and then at least 3 for every nc >= 1 (3 for nc = 1) |
| VerifierBlob.ZkRowsWrap | crates/pickles-verifier/src/types.rs:164 | the wrap is reachable on 64 bits: 2^60 chunks give 0 rows |
| BlobLaws.HeadersFit64 | crates/pickles-verifier/src/serialize.rs:135-139 | on 64 bits every length word fits |
| Blob.PodsRoundTrip | crates/pickles-verifier/src/serialize.rs:62-78 | casting records to bytes and back is the identity |
| Blob.PodsBytesOf | crates/pickles-verifier/src/serialize.rs:62-78 | casting bytes to records and back is the identity |
| Blob.ReadPodsOutcome | crates/pickles-verifier/src/serialize.rs:134-172 | which check of a record section fails first, and exactly when it is read |
| Blob.ReadRestOutcome | crates/pickles-verifier/src/serialize.rs:164-181 | the same for the blinder and the byte section |
| Blob.AsUsizeDrops | crates/pickles-verifier/src/serialize.rs:135-136 | the cast to usize drops a multiple of the word limit |
| Expansion.EvaluationTableRectangular | crates/pickles-verifier/src/deferred.rs:223-246 | with equal chunk counts every row pairs two vectors of one length |
| Expansion.EvaluationTableLayout | crates/pickles-verifier/src/deferred.rs:223-246 | where the zeta and zeta omega chunks of each named evaluation land among the 45 rows after the recursion polynomials |
| Expansion.ZkPolynomialRoots | crates/pickles-verifier/src/deferred.rs:251-257 | in a prime field the factor vanishes exactly at the three inverse powers of omega |
| Expansion.DomainLog2 | crates/pickles-verifier/src/deferred.rs:147-149 | the domain asked for is the carried log2 iff that is below the word size and at most 32, on every word size |
| Expansion.DomainRepeats | crates/pickles-verifier/src/deferred.rs:147-149 | from the word size on the domains repeat with the word size as period |
| ChallengePolynomial.CoefficientAt | crates/pickles-verifier/src/lib.rs:151-156 | coefficient i is the product of the challenges selected by the bits of i |
| ChallengePolynomial.CoefficientAtPower | crates/pickles-verifier/src/lib.rs:151-156 | coefficient 2^j is the challenge j places from the last, coefficient 0 is one |
| Numbers.TwoLimbs | crates/pickles-verifier/src/wire.rs:115-126 | two limbs always decode, to their own value below 2^128 |
| Numbers.HexDigitTable | crates/pickles-verifier/src/wire.rs:50-55 | a character is a hex digit of value d iff it stands at d among the lower- or upper-case digits |
| Wire.ProofsVerifiedMask | crates/pickles-verifier/src/wire.rs:144-159 | the mask exists iff the first item is N0, N1 or N2; its first flag is set for N2 only, its second for N1 and N2; other values fail by their kind |
| Wire.OcamlByteExact | crates/pickles-verifier/src/wire.rs:161-170 | the byte is the first character iff that character is below 256 |
| Wire.OcamlByteOtherwise | crates/pickles-verifier/src/wire.rs:161-170 | a wide character is cut to its low byte, and the two errors |
| Wire.BulletproofsExact | crates/pickles-verifier/src/wire.rs:172-186 | exactly n prechallenges, each decoding, in order; another count is an error |
| Wire.PointsExact | crates/pickles-verifier/src/wire.rs:135-142 | exactly two coordinates, x first |
| Wire.ColumnExact | crates/pickles-verifier/src/wire.rs:200-221 | exactly two equally long lists of hex elements, zeta's first |
| Wire.ColumnsExact | crates/pickles-verifier/src/wire.rs:188-242 | exactly n columns in order, and exactly two single public evaluations |
| Wire.ParseShape | crates/pickles-verifier/src/wire.rs:269-340 | every successful parse has equal chunk counts, single-chunk public evaluations repeated in `p_eval0_chunks`, a legal mask and a one-byte log2 |
| Convert.VkFieldsLayout | crates/pickles-verifier/src/convert.rs:53-83 | the VK fields exist iff each of the 28 commitments has a chunk, and are 56 in the stated absorption order |
| Convert.DummyChallengeLow128 | crates/pickles-verifier/src/convert.rs:89-100 | each dummy is the endo-expanded low 128 bits, little-endian, of the hash of its label chal_1 to chal_15 |
| Convert.DummyOrder | crates/pickles-verifier/src/convert.rs:94-106 | chal_15 is stored first and chal_1 last |
| Convert.StepPreimageLayout | crates/pickles-verifier/src/convert.rs:119-128 | VK fields, app state, then 18 fields per previous proof |
| Convert.PaddedPreimageLayout | crates/pickles-verifier/src/convert.rs:209-222 | dummies first, then the challenges, then the commitment: 32 fields |
| EndToEnd.AssembledCarries | crates/pickles-verifier/src/convert.rs:224-237 | assembly carries the parsed values unchanged and keeps the branch number below 1027 |
| EndToEnd.ChallengeExact | crates/pickles-verifier/src/wire.rs:115-126 | a challenge node decodes iff it has one of its two forms and 64-bit limbs of canonical value, and to that value |
| EndToEnd.PublicInputPositions | crates/pickles-verifier/src/deferred.rs:350-392 | the exact public-input position of every carried value |
| EndToEnd.TwoLimbsSpelled | crates/pickles-verifier/src/wire.rs:106-126 | with two limbs the spelled integer is the limbs' own value, below 2^128 |
| EndToEnd.BranchSpelled | crates/pickles-verifier/src/wire.rs:291-296 | the branch number is four times the domain character plus 0, 2 or 3 for N0, N1, N2 |
| Expansion.UsualRowsAgree | crates/pickles-verifier/src/types.rs:164 | on chunk counts a 32-bit host can hold, 32- and 64-bit hosts compute one row count iff there are fewer than 2^28 chunks |
| VerifierBlob.EncodeVerifierBlob | crates/pickles-verifier/src/serialize.rs:220-253 | the bytes produced, or the index of the first multi-chunk basis element, and the one cache entry it leaves |
| VerifierBlob.DecodeVerifierBlob | crates/pickles-verifier/src/serialize.rs:262-305 | a fresh SRS and a verifier whose state is the specified one, with every section, the key data and the constants in place, or the specified panic |
| VerifierBlob.WrapSrs.GetLagrangeBasis | crates/pickles-verifier/src/serialize.rs:235-236 | a lookup returns the cached or generated basis and caches it |
| VerifierBlob.WrapSrs.SeedLagrangeBasis | crates/pickles-verifier/src/serialize.rs:197-208 | seeding inserts, overwriting, and touches nothing else |
| Blob.ByteVec.WritePoints | crates/pickles-verifier/src/serialize.rs:106-116 | appends the length-prefixed records of the points |
| Blob.ByteVec.WriteOnePallas | crates/pickles-verifier/src/serialize.rs:118-121 | appends one record |
| Blob.ByteVec.WriteBytes | crates/pickles-verifier/src/serialize.rs:123-126 | appends length-prefixed bytes |
| Blob.ByteVec.WriteU64Le | crates/pickles-verifier/src/serialize.rs:102-104 | appends eight little-endian bytes |
| Deferred.WrapPublicInput | crates/pickles-verifier/src/deferred.rs:350-392 | the pushes build the specified 40 elements |
| Expansion.BuildEvaluationTable | crates/pickles-verifier/src/deferred.rs:223-246 | the pushes build the specified table |
| Batching.BatchingRng | crates/pickles-verifier/src/lib.rs:121-143 | the seed is the hash of the specified transcript of the zipped pairs |
| Batching.VerifyBatch | crates/pickles-verifier/src/lib.rs:57-109 | the three stages as run give the specified verdict and cache at most one basis |
| Batching.Verify | crates/pickles-verifier/src/lib.rs:43-45 | a single proof is a batch of one, and caches at most one basis |
| Numbers.FieldFromLe | crates/pickles-verifier/src/wire.rs:43-46 | bytes of any length read as their little-endian value modulo 2^256, if that is below the modulus, and fail otherwise |
| Numbers.ParseFieldBeHex | crates/pickles-verifier/src/wire.rs:50-55 | decoding, reversing an array in place and reading yields the numeral's value modulo 2^256, or the first error that applies |
| Numbers.CombineLimbsLe | crates/pickles-verifier/src/wire.rs:106-113 | the limb loop yields the limbs' combined value modulo 2^256, or the error of a limb that is no 64-bit integer |
| Wire.BulletproofVec | crates/pickles-verifier/src/wire.rs:172-186 | the loop yields the specified challenges or the first error |
| Convert.DummyIpaWrapExpanded | crates/pickles-verifier/src/convert.rs:94-106 | draws chal_1 to chal_15 and reverses an array in place: challenge i ends at place 15 - i |
| Convert.HashMessagesForNextStep | crates/pickles-verifier/src/convert.rs:114-133 | hashes the specified step preimage |
| Convert.HashMessagesForNextWrap | crates/pickles-verifier/src/convert.rs:137-152 | hashes the specified wrap preimage |
| Convert.IntoVerifiable | crates/pickles-verifier/src/convert.rs:169-239 | the conversion as run is the specified one, errors included |

## Left out

- Curve arithmetic, multi-scalar multiplication beyond "a sum in some group", Poseidon, Blake2s, ChaCha20 and endomorphism expansion: uninterpreted; no collision resistance or soundness is claimed.
- kimchi's `oracles_from_digest`, `batch_verify_with_rng`, `perm_scalars`, `combined_inner_product` and evaluation collapsing: uninterpreted functions of the arguments the crate passes; the permutation shifts and group map are functions of those arguments.
- The value of ExpandedDeferredValues' `x_hat_eval`: computed upstream and not read on the way to the public input.
- JSON text, postcard and serde: a skeleton is a tree with unique keys; integers outside 64 bits and fractions are opaque leaves.
- Blob.FromPod: reads an infinity byte above 1 as true; in the source such a byte is undefined behaviour of the pointer cast.
- Points of the JSON skeleton and of the wrap VK are finite (the challenge polynomial commitment of a `VerifiableProof` may be the identity); the arkworks memory layout (four plus four limbs, a flag byte, seven padding bytes) is taken as stated by the source's own layout tests.
- Expansion.ExpandDeferred: a panic is `None`, without its message; debug-build overflow panics are not modelled.
- VerifierBlob.WrapSrs.SeedLagrangeBasis: inserts like the `no_std` branch; the `std` cache's `set_once` is upstream, and the two agree on the empty cache the decoder seeds.
- VerifierBlob.EncodeVerifierBlob: vector lengths below 2^64 are a precondition, as for any vector in memory.
- Numbers.Json: hex strings with characters outside ASCII fail as they do in the source, but the two hex errors (odd length, bad digit) are one error here.
- Batching.ReadEntries reads the transcript after its fixed tag; the tag's bytes are part of the model but nothing is stated about other tags.
- Primality of the two Pasta moduli: a hypothesis of the theorems on roots, for any modulus.
- The accumulator's group laws, and so the folding identities of the IPA: upstream.
- The command-line host, the guest entry point, build scripts and fixtures: input and output only.
