/**
 Host-side conversion: the message-digest preimages and `OcamlProof::into_verifiable`.
 */
module Convert {
  import opened Wrappers
  import opened Bytes
  import opened Fields
  import opened Types
  import opened Upstream
  import opened Wire

  const PADDED_LENGTH: nat := 2

  datatype ConvertError = NoChunks | TooManyProofs(count: nat)

  // --------------------------------------------------------------------------
  // The wrap VK's coordinates
  // --------------------------------------------------------------------------

  /** The 28 commitments in absorption order: sigma, coefficients, then the six index selectors. */
  function VkCommitments(vk: VkData): (r: seq<PolyComm<PallasPoint>>)
    ensures |r| == 28
  {
    vk.sigmaComm + vk.coefficientsComm
    + [vk.genericComm, vk.psmComm, vk.completeAddComm, vk.mulComm, vk.emulComm, vk.endomulScalarComm]
  }

  /** Chunk-0 coordinates, `x` then `y`, of each commitment. */
  function Coordinates(pcs: seq<PolyComm<PallasPoint>>): (r: Result<seq<StepField>, ConvertError>)
    ensures r.Ok? ==> |r.value| == 2 * |pcs|
    ensures r.Ok? <==> forall i | 0 <= i < |pcs| :: pcs[i].chunks != []
  {
    if pcs == [] then Ok([])
    else if pcs[0].chunks == [] then Err(NoChunks)
    else
      var rest :- Coordinates(pcs[1..]);
      Ok([pcs[0].chunks[0].x, pcs[0].chunks[0].y] + rest)
  }

  /** `wrap_vk_step_fields`. */
  function WrapVkStepFields(vk: VkData): (r: Result<seq<StepField>, ConvertError>)
    ensures r.Ok? ==> |r.value| == 56
    ensures r.Ok? <==> forall pc | pc in VkCommitments(vk) :: pc.chunks != []
  {
    Coordinates(VkCommitments(vk))
  }

  lemma {:induction false} CoordinatesAt(pcs: seq<PolyComm<PallasPoint>>, i: nat)
    requires Coordinates(pcs).Ok? && i < |pcs|
    ensures pcs[i].chunks != []
    ensures var out := Coordinates(pcs).value;
            out[2 * i] == pcs[i].chunks[0].x && out[2 * i + 1] == pcs[i].chunks[0].y
  {
    if i > 0 {
      CoordinatesAt(pcs[1..], i - 1);
    }
  }

  /**
   The absorption order: seven sigma commitments, fifteen coefficient commitments, then generic,
   poseidon, complete-add, mul, emul and endomul-scalar, each as its chunk-0 `x` and `y`.
   */
  lemma {:induction false} VkFieldsLayout(vk: VkData, i: nat)
    ensures WrapVkStepFields(vk).Ok? <==> forall pc | pc in VkCommitments(vk) :: pc.chunks != []
    ensures WrapVkStepFields(vk).Ok? ==>
            var out := WrapVkStepFields(vk).value;
            && |out| == 56
            && (i < 7 ==> HoldsPoint(out, i, vk.sigmaComm[i]))
            && (i < 15 ==> HoldsPoint(out, 7 + i, vk.coefficientsComm[i]))
            && HoldsPoint(out, 22, vk.genericComm) && HoldsPoint(out, 23, vk.psmComm)
            && HoldsPoint(out, 24, vk.completeAddComm) && HoldsPoint(out, 25, vk.mulComm)
            && HoldsPoint(out, 26, vk.emulComm) && HoldsPoint(out, 27, vk.endomulScalarComm)
  {
    hide Coordinates;
    var pcs := VkCommitments(vk);
    if WrapVkStepFields(vk).Ok? {
      forall j | 0 <= j < 28
        ensures HoldsPoint(WrapVkStepFields(vk).value, j, pcs[j])
      {
        CoordinatesAt(pcs, j);
      }
      assert i < 7 ==> pcs[i] == vk.sigmaComm[i];
      assert i < 15 ==> pcs[7 + i] == vk.coefficientsComm[i];
      assert pcs[22] == vk.genericComm && pcs[23] == vk.psmComm && pcs[24] == vk.completeAddComm;
      assert pcs[25] == vk.mulComm && pcs[26] == vk.emulComm && pcs[27] == vk.endomulScalarComm;
    }
  }

  /** Fields `2j` and `2j + 1` are the commitment's chunk-0 coordinates. */
  predicate HoldsPoint(out: seq<StepField>, j: nat, pc: PolyComm<PallasPoint>) {
    && pc.chunks != [] && 2 * j + 1 < |out|
    && out[2 * j] == pc.chunks[0].x && out[2 * j + 1] == pc.chunks[0].y
  }

  // --------------------------------------------------------------------------
  // Dummy challenges
  // --------------------------------------------------------------------------

  /** The decimal numeral of a number below 100. */
  function Decimal(i: nat): string
    requires i < 100
  {
    if i < 10 then ['0' + i as char] else ['0' + (i / 10) as char, '0' + (i % 10) as char]
  }

  /** `format!("chal_{i}")`. */
  function ChalLabel(i: nat): seq<Byte>
    requires i < 100
  {
    AsciiBytes("chal_" + Decimal(i))
  }

  /** `chal_i`: two 64-bit halves of its hash, joined and endo-expanded. */
  function DummyChallenge(up: Primitives, i: nat): WrapField
    requires i < 100
  {
    var digest := up.blake2s(ChalLabel(i));
    var lo, hi := LeValue(digest[0..8]), LeValue(digest[8..16]);
    LimbPairBelow(digest[0..8], digest[8..16]);
    up.wrapToField(lo + U64 * hi, up.wrapEndo)
  }

  lemma {:induction false} LimbPairBelow(lo: seq<Byte>, hi: seq<Byte>)
    requires |lo| == |hi| == 8
    ensures LeValue(lo) + U64 * LeValue(hi) < U64 * U64
  {
    hide LeValue;
    ValueBelow(lo);
    ValueBelow(hi);
    Pow256Constants();
  }

  const CHAL_LABELS := ["chal_1", "chal_2", "chal_3", "chal_4", "chal_5", "chal_6", "chal_7", "chal_8",
                        "chal_9", "chal_10", "chal_11", "chal_12", "chal_13", "chal_14", "chal_15"]

  lemma {:induction false} LabelSpelled(i: nat)
    requires 1 <= i <= 15
    ensures ChalLabel(i) == AsciiBytes(CHAL_LABELS[i - 1])
  {
  }

  /** The joined halves are the low 128 bits of the label's hash, read little-endian. */
  lemma {:induction false} DummyChallengeLow128(up: Primitives, i: nat)
    requires 1 <= i <= 15
    ensures var low := LeValue(up.blake2s(AsciiBytes(CHAL_LABELS[i - 1]))[..16]);
            low < Q && DummyChallenge(up, i) == up.wrapToField(low, up.wrapEndo)
  {
    hide LeValue, ChalLabel, AsciiBytes;
    LabelSpelled(i);
    var digest := up.blake2s(ChalLabel(i));
    Pow256Constants();
    ValueOfConcat(digest[0..8], digest[8..16]);
    assert digest[0..8] + digest[8..16] == digest[..16];
    LimbPairBelow(digest[0..8], digest[8..16]);
  }

  /** `dummy_ipa_wrap_expanded`: `[chal_15, ..., chal_1]`. */
  function DummyIpaWrap(up: Primitives): WrapChals {
    seq(WRAP_IPA_ROUNDS, i requires 0 <= i < WRAP_IPA_ROUNDS => DummyChallenge(up, WRAP_IPA_ROUNDS - i))
  }

  /** The stored order: `chal_15` first, `chal_1` last. */
  lemma {:induction false} DummyOrder(up: Primitives, i: nat)
    requires 1 <= i <= 15
    ensures DummyIpaWrap(up)[15 - i] == DummyChallenge(up, i)
  {
    hide DummyChallenge;
  }

  /** As the code draws them: in counter order, then reversed in place. */
  method DummyIpaWrapExpanded(up: Primitives) returns (r: WrapChals)
    ensures r == DummyIpaWrap(up)
    ensures forall i | 1 <= i <= 15 :: r[15 - i] == DummyChallenge(up, i)
  {
    hide DummyChallenge, Reversed;
    var v: seq<WrapField> := [];
    var i := 1;
    while i <= WRAP_IPA_ROUNDS
      invariant 1 <= i <= WRAP_IPA_ROUNDS + 1 && |v| == i - 1
      invariant forall j | 0 <= j < |v| :: v[j] == DummyChallenge(up, j + 1)
    {
      v := v + [DummyChallenge(up, i)];
      i := i + 1;
    }
    var a := new WrapField[WRAP_IPA_ROUNDS](j requires 0 <= j < |v| => v[j]);
    ReverseInPlace(a);
    r := a[..];
  }

  // --------------------------------------------------------------------------
  // Digest preimages
  // --------------------------------------------------------------------------

  type StepMessage = (PallasPoint, StepChals)

  function MessageFields(msg: StepMessage): (r: seq<StepField>)
    ensures |r| == 18
  {
    [msg.0.x, msg.0.y] + msg.1
  }

  function MessagesFields(msgs: seq<StepMessage>): (r: seq<StepField>)
    ensures |r| == 18 * |msgs|
  {
    if msgs == [] then [] else MessageFields(msgs[0]) + MessagesFields(msgs[1..])
  }

  /** What `hash_messages_for_next_step` absorbs. */
  function StepPreimage(vkFields: seq<StepField>, appState: seq<StepField>, msgs: seq<StepMessage>): seq<StepField> {
    vkFields + appState + MessagesFields(msgs)
  }

  method HashMessagesForNextStep(
    up: Primitives, vkFields: seq<StepField>, appState: seq<StepField>, msgs: seq<StepMessage>
  ) returns (digest: StepField)
    ensures digest == up.poseidonStep(StepPreimage(vkFields, appState, msgs))
  {
    var inputs: seq<StepField> := vkFields;
    inputs := inputs + appState;
    var i := 0;
    while i < |msgs|
      invariant 0 <= i <= |msgs|
      invariant inputs == vkFields + appState + MessagesFields(msgs[..i])
    {
      ghost var before := inputs;
      inputs := inputs + [msgs[i].0.x];
      inputs := inputs + [msgs[i].0.y];
      inputs := inputs + msgs[i].1;
      assert inputs == before + MessageFields(msgs[i]);
      MessagesAppend(msgs[..i], msgs[i]);
      assert msgs[..i + 1] == msgs[..i] + [msgs[i]];
      i := i + 1;
    }
    assert msgs[..i] == msgs;
    digest := up.poseidonStep(inputs);
  }

  lemma {:induction false} MessagesAppend(msgs: seq<StepMessage>, msg: StepMessage)
    ensures MessagesFields(msgs + [msg]) == MessagesFields(msgs) + MessageFields(msg)
  {
    hide MessageFields;
    if msgs == [] {
      assert msgs + [msg] == [msg] && [msg][1..] == [];
    } else {
      MessagesAppend(msgs[1..], msg);
      assert (msgs + [msg])[1..] == msgs[1..] + [msg];
    }
  }

  function ChalsFields(chals: seq<WrapChals>): (r: seq<WrapField>)
    ensures |r| == WRAP_IPA_ROUNDS * |chals|
  {
    if chals == [] then [] else chals[0] + ChalsFields(chals[1..])
  }

  /** What `hash_messages_for_next_wrap` absorbs. */
  function WrapPreimage(cpc: VestaPoint, padded: seq<WrapChals>): (r: seq<WrapField>)
    ensures |r| == WRAP_IPA_ROUNDS * |padded| + 2
  {
    ChalsFields(padded) + [cpc.x, cpc.y]
  }

  method HashMessagesForNextWrap(up: Primitives, cpc: VestaPoint, padded: seq<WrapChals>)
    returns (digest: WrapField)
    ensures digest == up.poseidonWrap(WrapPreimage(cpc, padded))
  {
    var inputs: seq<WrapField> := [];
    var i := 0;
    while i < |padded|
      invariant 0 <= i <= |padded|
      invariant inputs == ChalsFields(padded[..i])
    {
      inputs := inputs + padded[i];
      ChalsAppend(padded[..i], padded[i]);
      assert padded[..i + 1] == padded[..i] + [padded[i]];
      i := i + 1;
    }
    assert padded[..i] == padded;
    inputs := inputs + [cpc.x];
    inputs := inputs + [cpc.y];
    assert inputs == WrapPreimage(cpc, padded);
    digest := up.poseidonWrap(inputs);
  }

  lemma {:induction false} ChalsAppend(chals: seq<WrapChals>, c: WrapChals)
    ensures ChalsFields(chals + [c]) == ChalsFields(chals) + c
  {
    if chals == [] {
      assert chals + [c] == [c] && [c][1..] == [];
    } else {
      ChalsAppend(chals[1..], c);
      assert (chals + [c])[1..] == chals[1..] + [c];
    }
  }

  function Dummies(dummy: WrapChals, n: nat): (r: seq<WrapChals>)
    ensures |r| == n && forall i | 0 <= i < n :: r[i] == dummy
  {
    seq(n, _ => dummy)
  }

  /** `Wrap_hack.pad_challenges`: dummies in front, up to the padded length. */
  function Padded(dummy: WrapChals, chals: seq<WrapChals>): (r: seq<WrapChals>)
    requires |chals| <= PADDED_LENGTH
    ensures |r| == PADDED_LENGTH
    ensures forall i | 0 <= i < PADDED_LENGTH - |chals| :: r[i] == dummy
    ensures forall i | 0 <= i < |chals| :: r[PADDED_LENGTH - |chals| + i] == chals[i]
  {
    Dummies(dummy, PADDED_LENGTH - |chals|) + chals
  }

  // --------------------------------------------------------------------------
  // Where things sit in the preimages
  // --------------------------------------------------------------------------

  lemma {:induction false} MessagesLayout(msgs: seq<StepMessage>, i: nat, j: nat)
    requires i < |msgs| && j < STEP_IPA_ROUNDS
    ensures var out := MessagesFields(msgs);
            && out[18 * i] == msgs[i].0.x && out[18 * i + 1] == msgs[i].0.y
            && out[18 * i + 2 + j] == msgs[i].1[j]
  {
    if i > 0 {
      MessagesLayout(msgs[1..], i - 1, j);
    }
  }

  /** VK fields, then the app state, then for each previous proof `x`, `y` and its 16 challenges. */
  lemma {:induction false} StepPreimageLayout(
    vk: seq<StepField>, app: seq<StepField>, msgs: seq<StepMessage>, i: nat, j: nat)
    ensures var out := StepPreimage(vk, app, msgs);
            var at := |vk| + |app| + 18 * i;
            && |out| == |vk| + |app| + 18 * |msgs|
            && out[..|vk|] == vk && out[|vk|..|vk| + |app|] == app
            && (i < |msgs| && j < STEP_IPA_ROUNDS ==>
                 out[at] == msgs[i].0.x && out[at + 1] == msgs[i].0.y && out[at + 2 + j] == msgs[i].1[j])
  {
    hide MessagesFields;
    if i < |msgs| && j < STEP_IPA_ROUNDS {
      MessagesLayout(msgs, i, j);
    }
  }

  lemma {:induction false} ChalsLayout(chals: seq<WrapChals>, i: nat, j: nat)
    requires i < |chals| && j < WRAP_IPA_ROUNDS
    ensures WRAP_IPA_ROUNDS * i + j < |ChalsFields(chals)|
    ensures ChalsFields(chals)[WRAP_IPA_ROUNDS * i + j] == chals[i][j]
  {
    if i > 0 {
      ChalsLayout(chals[1..], i - 1, j);
    }
  }

  /** Two padded vectors of 15 challenges, dummies first, then the commitment's `x` and `y`. */
  lemma {:induction false} PaddedPreimageLayout(
    dummy: WrapChals, cpc: VestaPoint, chals: seq<WrapChals>, i: nat, j: nat)
    requires |chals| <= PADDED_LENGTH && i < PADDED_LENGTH && j < WRAP_IPA_ROUNDS
    ensures var out := WrapPreimage(cpc, Padded(dummy, chals));
            var front := PADDED_LENGTH - |chals|;
            && |out| == 32 && out[30] == cpc.x && out[31] == cpc.y
            && out[15 * i + j] == (if i < front then dummy[j] else chals[i - front][j])
  {
    hide ChalsFields;
    var padded := Padded(dummy, chals);
    ChalsLayout(padded, i, j);
    if i >= PADDED_LENGTH - |chals| {
      assert padded[PADDED_LENGTH - |chals| + (i - (PADDED_LENGTH - |chals|))] == chals[i - (PADDED_LENGTH - |chals|)];
    }
  }

  // --------------------------------------------------------------------------
  // The preimages are uniquely decodable
  // --------------------------------------------------------------------------

  lemma {:induction false} MessageInjective(m: StepMessage, n: StepMessage)
    requires MessageFields(m) == MessageFields(n)
    ensures m == n
  {
    SplitAlike([m.0.x, m.0.y], [n.0.x, n.0.y], m.1, n.1);
    assert [m.0.x, m.0.y][0] == [n.0.x, n.0.y][0] && [m.0.x, m.0.y][1] == [n.0.x, n.0.y][1];
  }

  lemma {:induction false} MessagesInjective(ms: seq<StepMessage>, ns: seq<StepMessage>)
    requires MessagesFields(ms) == MessagesFields(ns)
    ensures ms == ns
  {
    hide MessageFields;
    if ms != [] && ns != [] {
      SplitAlike(MessageFields(ms[0]), MessageFields(ns[0]), MessagesFields(ms[1..]), MessagesFields(ns[1..]));
      MessageInjective(ms[0], ns[0]);
      MessagesInjective(ms[1..], ns[1..]);
      assert ms == [ms[0]] + ms[1..] && ns == [ns[0]] + ns[1..];
    }
  }

  /**
   For one app-state width the step preimage determines the VK fields, the app state and every
   previous proof's commitment and challenges, whatever the number of previous proofs.
   */
  lemma {:induction false} StepPreimageInjective(
    vk: seq<StepField>, app: seq<StepField>, ms: seq<StepMessage>,
    vk': seq<StepField>, app': seq<StepField>, ms': seq<StepMessage>)
    requires |vk| == |vk'| && |app| == |app'|
    ensures StepPreimage(vk, app, ms) == StepPreimage(vk', app', ms') <==> vk == vk' && app == app' && ms == ms'
  {
    hide MessagesFields;
    if StepPreimage(vk, app, ms) == StepPreimage(vk', app', ms') {
      SplitAlike(vk + app, vk' + app', MessagesFields(ms), MessagesFields(ms'));
      SplitAlike(vk, vk', app, app');
      MessagesInjective(ms, ms');
    }
  }

  lemma {:induction false} MessagesConcat(ms: seq<StepMessage>, ns: seq<StepMessage>)
    ensures MessagesFields(ms + ns) == MessagesFields(ms) + MessagesFields(ns)
  {
    hide MessageFields;
    if ms == [] {
      assert ms + ns == ns;
    } else {
      MessagesConcat(ms[1..], ns);
      assert (ms + ns)[0] == ms[0] && (ms + ns)[1..] == ms[1..] + ns;
      ConcatAssociates(MessageFields(ms[0]), MessagesFields(ms[1..]), MessagesFields(ns));
    }
  }

  lemma {:induction false} ConcatAssociates<T>(a: seq<T>, b: seq<T>, c: seq<T>)
    ensures (a + b) + c == a + (b + c)
  {
  }

  /** Without the width it does not: leading messages read the same as more app state, 18 fields each. */
  lemma {:induction false} StepPreimageAmbiguous(
    vk: seq<StepField>, app: seq<StepField>, ms: seq<StepMessage>, ns: seq<StepMessage>)
    ensures StepPreimage(vk, app, ms + ns) == StepPreimage(vk, app + MessagesFields(ms), ns)
    ensures |app + MessagesFields(ms)| == |app| + 18 * |ms|
  {
    hide MessagesFields;
    MessagesConcat(ms, ns);
  }

  /** The second reading's app state is the first's with the first's leading messages behind it. */
  predicate Regrouped(app: seq<StepField>, ms: seq<StepMessage>, app': seq<StepField>, ms': seq<StepMessage>) {
    && |app| <= |app'| && (|app'| - |app|) % 18 == 0
    && var j := (|app'| - |app|) / 18;
       j <= |ms| && app' == app + MessagesFields(ms[..j]) && ms' == ms[j..]
  }

  lemma {:induction false} WiderReading(
    vk: seq<StepField>, app: seq<StepField>, ms: seq<StepMessage>,
    vk': seq<StepField>, app': seq<StepField>, ms': seq<StepMessage>)
    requires |vk| == |vk'| && |app| <= |app'|
    ensures StepPreimage(vk, app, ms) == StepPreimage(vk', app', ms') <==> vk == vk' && Regrouped(app, ms, app', ms')
  {
    hide MessagesFields;
    var d := |app'| - |app|;
    if StepPreimage(vk, app, ms) == StepPreimage(vk', app', ms') {
      assert |StepPreimage(vk, app, ms)| == |StepPreimage(vk', app', ms')|;
      assert d == 18 * (|ms| - |ms'|);
    }
    var j := d / 18;
    if d % 18 == 0 && j <= |ms| {
      assert ms[..j] + ms[j..] == ms;
      StepPreimageAmbiguous(vk, app, ms[..j], ms[j..]);
      StepPreimageInjective(vk, app + MessagesFields(ms[..j]), ms[j..], vk', app', ms');
    }
  }

  /**
   Exactly when two step preimages coincide, for app states of any widths: the VK fields are equal and
   one reading regroups the other. App states whose widths do not differ by a multiple of 18 never do.
   */
  lemma {:induction false} StepPreimageExact(
    vk: seq<StepField>, app: seq<StepField>, ms: seq<StepMessage>,
    vk': seq<StepField>, app': seq<StepField>, ms': seq<StepMessage>)
    requires |vk| == |vk'|
    ensures StepPreimage(vk, app, ms) == StepPreimage(vk', app', ms')
       <==> vk == vk' && (Regrouped(app, ms, app', ms') || Regrouped(app', ms', app, ms))
  {
    hide StepPreimage, MessagesFields;
    if |app| <= |app'| {
      WiderReading(vk, app, ms, vk', app', ms');
    }
    if |app'| <= |app| {
      WiderReading(vk', app', ms', vk, app, ms);
    }
  }

  lemma {:induction false} ChalsInjective(cs: seq<WrapChals>, ds: seq<WrapChals>)
    requires |cs| == |ds| && ChalsFields(cs) == ChalsFields(ds)
    ensures cs == ds
  {
    if cs != [] {
      SplitAlike(cs[0], ds[0], ChalsFields(cs[1..]), ChalsFields(ds[1..]));
      ChalsInjective(cs[1..], ds[1..]);
      assert cs == [cs[0]] + cs[1..] && ds == [ds[0]] + ds[1..];
    }
  }

  lemma {:induction false} WrapPreimageDetermines(c: VestaPoint, cs: seq<WrapChals>, d: VestaPoint, ds: seq<WrapChals>)
    requires |cs| == |ds|
    ensures WrapPreimage(c, cs) == WrapPreimage(d, ds) <==> c == d && cs == ds
  {
    hide ChalsFields;
    if WrapPreimage(c, cs) == WrapPreimage(d, ds) {
      SplitAlike(ChalsFields(cs), ChalsFields(ds), [c.x, c.y], [d.x, d.y]);
      assert [c.x, c.y][0] == [d.x, d.y][0] && [c.x, c.y][1] == [d.x, d.y][1];
      ChalsInjective(cs, ds);
    }
  }

  /**
   The padded wrap preimage always has 32 fields; two of them coincide exactly when the commitments
   do and the longer challenge list is the shorter one behind dummies. For one number of previous
   proofs it therefore determines the challenges.
   */
  lemma {:induction false} PaddedPreimageInjective(
    dummy: WrapChals, c: VestaPoint, cs: seq<WrapChals>, d: VestaPoint, ds: seq<WrapChals>)
    requires |cs| <= |ds| <= PADDED_LENGTH
    ensures |WrapPreimage(c, Padded(dummy, cs))| == 32
    ensures WrapPreimage(c, Padded(dummy, cs)) == WrapPreimage(d, Padded(dummy, ds))
       <==> c == d && ds == Dummies(dummy, |ds| - |cs|) + cs
    ensures |cs| == |ds| ==> (ds == Dummies(dummy, |ds| - |cs|) + cs <==> ds == cs)
  {
    hide WrapPreimage;
    WrapPreimageDetermines(c, Padded(dummy, cs), d, Padded(dummy, ds));
    PaddedEqual(dummy, cs, ds);
    if |cs| == |ds| {
      assert Dummies(dummy, |ds| - |cs|) + cs == cs;
    }
  }

  lemma {:induction false} PaddedEqual(dummy: WrapChals, cs: seq<WrapChals>, ds: seq<WrapChals>)
    requires |cs| <= |ds| <= PADDED_LENGTH
    ensures Padded(dummy, cs) == Padded(dummy, ds) <==> ds == Dummies(dummy, |ds| - |cs|) + cs
  {
    hide Padded, Dummies;
    var k := |ds| - |cs|;
    var longer := Dummies(dummy, k) + cs;
    var pc, pd := Padded(dummy, cs), Padded(dummy, ds);
    if pc == pd {
      forall i | 0 <= i < |ds|
        ensures ds[i] == longer[i]
      {
        assert ds[i] == pc[PADDED_LENGTH - |ds| + i];
        if i >= k {
          assert cs[i - k] == pc[PADDED_LENGTH - |cs| + (i - k)];
        }
      }
    }
    if ds == longer {
      forall i | 0 <= i < PADDED_LENGTH
        ensures pc[i] == pd[i]
      {
        if i >= PADDED_LENGTH - |ds| {
          assert pd[i] == ds[i - (PADDED_LENGTH - |ds|)];
        }
        if i >= PADDED_LENGTH - |cs| {
          assert pc[i] == cs[i - (PADDED_LENGTH - |cs|)];
        }
      }
    }
  }

  /** One list of challenges is the other behind dummies. */
  predicate BehindDummies(dummy: WrapChals, cs: seq<WrapChals>, ds: seq<WrapChals>) {
    |cs| <= |ds| && ds == Dummies(dummy, |ds| - |cs|) + cs
  }

  /** The same exact condition for lists in either order. */
  lemma {:induction false} WrapPreimageExact(
    dummy: WrapChals, c: VestaPoint, cs: seq<WrapChals>, d: VestaPoint, ds: seq<WrapChals>)
    requires |cs| <= PADDED_LENGTH && |ds| <= PADDED_LENGTH
    ensures WrapPreimage(c, Padded(dummy, cs)) == WrapPreimage(d, Padded(dummy, ds))
       <==> c == d && (BehindDummies(dummy, cs, ds) || BehindDummies(dummy, ds, cs))
  {
    hide WrapPreimage, Padded, Dummies;
    if |cs| <= |ds| {
      PaddedPreimageInjective(dummy, c, cs, d, ds);
    }
    if |ds| <= |cs| {
      PaddedPreimageInjective(dummy, d, ds, c, cs);
    }
  }

  // --------------------------------------------------------------------------
  // into_verifiable
  // --------------------------------------------------------------------------

  function ExpandStep(up: Primitives, chals: StepChals): StepChals {
    Map(c => up.stepToField(c, up.stepEndo), chals)
  }

  function ExpandWrap(up: Primitives, chals: WrapChals): WrapChals {
    Map(c => up.wrapToField(c, up.wrapEndo), chals)
  }

  function ExpandSteps(up: Primitives, all: seq<StepChals>): (r: seq<StepChals>)
    ensures |r| == |all|
  {
    seq(|all|, i requires 0 <= i < |all| => ExpandStep(up, all[i]))
  }

  function ExpandWraps(up: Primitives, all: seq<WrapChals>): (r: seq<WrapChals>)
    ensures |r| == |all|
  {
    seq(|all|, i requires 0 <= i < |all| => ExpandWrap(up, all[i]))
  }

  /** `zip`: as many messages as the shorter list has entries. */
  function StepMessages(sgs: seq<PallasPoint>, chals: seq<StepChals>): (r: seq<StepMessage>)
    ensures |r| == if |sgs| <= |chals| then |sgs| else |chals|
    ensures forall i | 0 <= i < |r| :: r[i] == (sgs[i], chals[i])
  {
    if sgs == [] || chals == [] then [] else [(sgs[0], chals[0])] + StepMessages(sgs[1..], chals[1..])
  }

  /** The conversion's result, given the two digests. */
  function Carried(
    p: OcamlProof, wrapProof: WrapProof, oldChals: seq<StepChals>, stepDigest: StepField, wrapDigest: WrapField
  ): VerifiableProof
  {
    VerifiableProof(wrapProof, p.rawPlonk, p.rawBulletproofChallenges, p.branchData,
      p.spongeDigestBeforeEvaluations, p.prevEvals, p.pEval0Chunks, oldChals,
      Some(p.challengePolynomialCommitment), stepDigest, wrapDigest, p.stepDomainLog2)
  }

  function StepPreimageOf(
    up: Primitives, p: OcamlProof, vkFields: seq<StepField>, appState: seq<StepField>
  ): seq<StepField>
  {
    StepPreimage(vkFields, appState, StepMessages(p.prevStepSgs, ExpandSteps(up, p.prevStepChalsRaw)))
  }

  function WrapPreimageOf(up: Primitives, p: OcamlProof): seq<WrapField>
    requires |p.prevWrapChalsRaw| <= PADDED_LENGTH
  {
    WrapPreimage(p.challengePolynomialCommitment,
      Padded(DummyIpaWrap(up), ExpandWraps(up, p.prevWrapChalsRaw)))
  }

  /** `OcamlProof::into_verifiable`. */
  function Converted(
    up: Primitives, p: OcamlProof, wrapProof: WrapProof, vk: VkData, appState: seq<StepField>
  ): Result<VerifiableProof, ConvertError>
  {
    var vkFields :- WrapVkStepFields(vk);
    if |p.prevWrapChalsRaw| > PADDED_LENGTH then Err(TooManyProofs(|p.prevWrapChalsRaw|))
    else
      Ok(Carried(p, wrapProof, ExpandSteps(up, p.prevStepChalsRaw),
        up.poseidonStep(StepPreimageOf(up, p, vkFields, appState)),
        up.poseidonWrap(WrapPreimageOf(up, p))))
  }

  method IntoVerifiable(
    up: Primitives, p: OcamlProof, wrapProof: WrapProof, vk: VkData, appState: seq<StepField>
  ) returns (r: Result<VerifiableProof, ConvertError>)
    ensures r == Converted(up, p, wrapProof, vk, appState)
  {
    hide WrapVkStepFields, DummyIpaWrap, WrapPreimage, StepPreimage, ExpandSteps, ExpandWraps, Carried, StepMessages,
      Dummies;
    var oldBulletproofChallenges := ExpandSteps(up, p.prevStepChalsRaw);
    var prevWrapExpanded := ExpandWraps(up, p.prevWrapChalsRaw);
    var vkFields :- WrapVkStepFields(vk);
    var stepProofs := StepMessages(p.prevStepSgs, oldBulletproofChallenges);
    var stepDigest := HashMessagesForNextStep(up, vkFields, appState, stepProofs);
    var mpv := |prevWrapExpanded|;
    if mpv > PADDED_LENGTH {
      return Err(TooManyProofs(mpv));
    }
    var dummy := DummyIpaWrapExpanded(up);
    var padded := Dummies(dummy, PADDED_LENGTH - mpv);
    padded := padded + prevWrapExpanded;
    assert padded == Padded(dummy, prevWrapExpanded);
    var wrapDigest := HashMessagesForNextWrap(up, p.challengePolynomialCommitment, padded);
    r := Ok(Carried(p, wrapProof, oldBulletproofChallenges, stepDigest, wrapDigest));
  }

  /** The same proof, its first previous message moved into the app state. */
  function WithoutFirst(p: OcamlProof): OcamlProof
    requires p.prevStepSgs != [] && p.prevStepChalsRaw != []
  {
    p.(prevStepSgs := p.prevStepSgs[1..], prevStepChalsRaw := p.prevStepChalsRaw[1..])
  }

  function FirstMessage(up: Primitives, p: OcamlProof): seq<StepField>
    requires p.prevStepSgs != [] && p.prevStepChalsRaw != []
  {
    MessageFields((p.prevStepSgs[0], ExpandStep(up, p.prevStepChalsRaw[0])))
  }

  /**
   So two conversions can share both digests with no hash collision: take one previous message away
   and append its fields to the app state, and only the old challenges of the result change.
   */
  lemma {:induction false} ConversionsShareDigests(
    up: Primitives, p: OcamlProof, wrapProof: WrapProof, vk: VkData, appState: seq<StepField>)
    requires Converted(up, p, wrapProof, vk, appState).Ok?
    requires p.prevStepSgs != [] && p.prevStepChalsRaw != []
    ensures var vp := Converted(up, p, wrapProof, vk, appState).value;
            var wider := appState + FirstMessage(up, p);
            && Converted(up, WithoutFirst(p), wrapProof, vk, wider)
               == Ok(vp.(oldBulletproofChallenges := vp.oldBulletproofChallenges[1..]))
            && StepPreimageOf(up, p, WrapVkStepFields(vk).value, appState)
               == StepPreimageOf(up, WithoutFirst(p), WrapVkStepFields(vk).value, wider)
  {
    hide WrapVkStepFields, ExpandStep, DummyIpaWrap, WrapPreimage, Padded, MessageFields;
    var fields := WrapVkStepFields(vk).value;
    var chals := ExpandSteps(up, p.prevStepChalsRaw);
    assert ExpandSteps(up, WithoutFirst(p).prevStepChalsRaw) == chals[1..];
    var first := (p.prevStepSgs[0], chals[0]);
    var rest := StepMessages(p.prevStepSgs[1..], chals[1..]);
    StepPreimageAmbiguous(fields, appState, [first], rest);
    assert MessagesFields([first]) == MessageFields(first);
    assert StepMessages(p.prevStepSgs, chals) == [first] + rest;
  }

  // --------------------------------------------------------------------------
  // What a conversion computes
  // --------------------------------------------------------------------------

  /** The two errors, in the order the code finds them. */
  lemma {:induction false} ConversionErrors(
    up: Primitives, p: OcamlProof, wrapProof: WrapProof, vk: VkData, appState: seq<StepField>)
    ensures var r := Converted(up, p, wrapProof, vk, appState);
            var chunked := forall pc | pc in VkCommitments(vk) :: pc.chunks != [];
            && (r.Ok? <==> chunked && |p.prevWrapChalsRaw| <= 2)
            && (!chunked ==> r == Err(NoChunks))
            && (chunked && |p.prevWrapChalsRaw| > 2 ==> r == Err(TooManyProofs(|p.prevWrapChalsRaw|)))
  {
    hide StepPreimageOf, WrapPreimageOf, ExpandSteps;
    CoordinatesError(VkCommitments(vk));
  }

  lemma {:induction false} CoordinatesError(pcs: seq<PolyComm<PallasPoint>>)
    ensures Coordinates(pcs).Err? ==> Coordinates(pcs).error == NoChunks
  {
    if pcs != [] {
      CoordinatesError(pcs[1..]);
    }
  }

  /** Every carried value, and every old challenge: the raw one expanded with the step endomorphism. */
  lemma {:induction false} ConversionCarries(
    up: Primitives, p: OcamlProof, wrapProof: WrapProof, vk: VkData, appState: seq<StepField>, i: nat, j: nat)
    requires Converted(up, p, wrapProof, vk, appState).Ok?
    ensures var vp := Converted(up, p, wrapProof, vk, appState).value;
            && vp.wrapProof == wrapProof && vp.rawPlonk == p.rawPlonk && vp.branchData == p.branchData
            && vp.rawBulletproofChallenges == p.rawBulletproofChallenges
            && vp.spongeDigestBeforeEvaluations == p.spongeDigestBeforeEvaluations
            && vp.prevEvals == p.prevEvals && vp.pEval0Chunks == p.pEval0Chunks
            && vp.challengePolynomialCommitment == Some(p.challengePolynomialCommitment)
            && vp.stepDomainLog2 == p.stepDomainLog2
            && |vp.oldBulletproofChallenges| == |p.prevStepChalsRaw|
            && (i < |p.prevStepChalsRaw| && j < 16 ==>
                 vp.oldBulletproofChallenges[i][j] == up.stepToField(p.prevStepChalsRaw[i][j], up.stepEndo))
  {
    hide WrapVkStepFields, StepPreimageOf, WrapPreimageOf;
  }

  /** A message for a previous proof: its commitment, and its raw challenges expanded one by one. */
  predicate IsMessage(up: Primitives, sg: PallasPoint, raw: StepChals, msg: StepMessage) {
    msg.0 == sg && forall j | 0 <= j < 16 :: msg.1[j] == up.stepToField(raw[j], up.stepEndo)
  }

  /**
   The step digest hashes the VK fields, the app state, and a message for each previous proof that has
   both a commitment and challenges.
   */
  lemma {:induction false} StepDigestHashes(
    up: Primitives, p: OcamlProof, wrapProof: WrapProof, vk: VkData, appState: seq<StepField>, msgs: seq<StepMessage>)
    requires Converted(up, p, wrapProof, vk, appState).Ok?
    requires |msgs| == if |p.prevStepSgs| <= |p.prevStepChalsRaw| then |p.prevStepSgs| else |p.prevStepChalsRaw|
    requires forall i | 0 <= i < |msgs| :: IsMessage(up, p.prevStepSgs[i], p.prevStepChalsRaw[i], msgs[i])
    ensures Converted(up, p, wrapProof, vk, appState).value.messagesForNextStepProofDigest
         == up.poseidonStep(WrapVkStepFields(vk).value + appState + MessagesFields(msgs))
  {
    hide WrapVkStepFields, WrapPreimageOf, MessagesFields;
    var chals := ExpandSteps(up, p.prevStepChalsRaw);
    var all := StepMessages(p.prevStepSgs, chals);
    forall i | 0 <= i < |msgs|
      ensures msgs[i] == all[i]
    {
      assert IsMessage(up, p.prevStepSgs[i], p.prevStepChalsRaw[i], msgs[i]);
      assert msgs[i].1 == chals[i];
    }
    assert msgs == all;
  }

  /** The dummies in their stored order, and the raw challenges of a previous proof expanded one by one. */
  predicate IsDummyBlock(up: Primitives, block: WrapChals) {
    forall i | 1 <= i <= 15 :: block[15 - i] == DummyChallenge(up, i)
  }

  predicate IsExpanded(up: Primitives, raw: WrapChals, block: WrapChals) {
    forall j | 0 <= j < 15 :: block[j] == up.wrapToField(raw[j], up.wrapEndo)
  }

  /**
   The wrap digest hashes two blocks and the commitment: dummies, from `chal_15` down to `chal_1`, for
   each missing previous proof, then each proof's challenges expanded with the wrap endomorphism.
   */
  lemma {:induction false} WrapDigestHashes(
    up: Primitives, p: OcamlProof, wrapProof: WrapProof, vk: VkData, appState: seq<StepField>,
    first: WrapChals, second: WrapChals)
    requires Converted(up, p, wrapProof, vk, appState).Ok?
    requires var raw := p.prevWrapChalsRaw;
             && (if |raw| < 2 then IsDummyBlock(up, first) else IsExpanded(up, raw[0], first))
             && (if |raw| < 1 then IsDummyBlock(up, second) else IsExpanded(up, raw[|raw| - 1], second))
    ensures var cpc := p.challengePolynomialCommitment;
            Converted(up, p, wrapProof, vk, appState).value.messagesForNextWrapProofDigest
            == up.poseidonWrap(first + second + [cpc.x, cpc.y])
  {
    hide WrapVkStepFields, StepPreimageOf, DummyIpaWrap, DummyChallenge, IsExpanded;
    var raw, dummy := p.prevWrapChalsRaw, DummyIpaWrap(up);
    var padded := Padded(dummy, ExpandWraps(up, raw));
    if |raw| < 2 {
      OneDummyBlock(up, first);
    } else {
      ExpandedIs(up, raw[0], first);
    }
    if |raw| < 1 {
      OneDummyBlock(up, second);
    } else {
      ExpandedIs(up, raw[|raw| - 1], second);
    }
    assert padded[0] == first && padded[1] == second;
    assert padded == [first, second];
    assert ChalsFields(padded) == first + second by {
      assert padded[1..] == [second] && padded[1..][1..] == [];
    }
  }

  lemma {:induction false} OneDummyBlock(up: Primitives, block: WrapChals)
    requires IsDummyBlock(up, block)
    ensures block == DummyIpaWrap(up)
  {
    hide DummyChallenge, DummyIpaWrap;
    forall k | 0 <= k < 15
      ensures block[k] == DummyIpaWrap(up)[k]
    {
      DummyOrder(up, 15 - k);
      assert block[15 - (15 - k)] == DummyChallenge(up, 15 - k);
    }
  }

  lemma {:induction false} ExpandedIs(up: Primitives, raw: WrapChals, block: WrapChals)
    requires IsExpanded(up, raw, block)
    ensures block == ExpandWrap(up, raw)
  {
  }
}
