/** Extending a skeleton: extra object keys, at any depth, never change a successful parse. */
module Skeleton {
  import opened Wrappers
  import opened Fields
  import opened Types
  import opened Numbers
  import opened Wire

  // --------------------------------------------------------------------------
  // Extra keys
  // --------------------------------------------------------------------------

  /** `big` is `small` with possibly more keys in its objects, at any depth. */
  predicate Extends(big: Json, small: Json)
    decreases small
  {
    match small
    case Obj(m) => big.Obj? && forall k | k in m :: k in big.fields && Extends(big.fields[k], m[k])
    case Arr(s) => big.Arr? && |big.items| == |s| && forall i | 0 <= i < |s| :: Extends(big.items[i], s[i])
    case _ => big == small
  }

  predicate AllExtend(bigs: seq<Json>, smalls: seq<Json>) {
    |bigs| == |smalls| && forall i | 0 <= i < |smalls| :: Extends(bigs[i], smalls[i])
  }

  lemma {:induction false} GetExtends(big: Json, small: Json, key: string)
    requires Extends(big, small) && Get(small, key).Ok?
    ensures Get(big, key).Ok? && Extends(Get(big, key).value, Get(small, key).value)
  {
  }

  lemma {:induction false} AsVecExtends(big: Json, small: Json)
    requires Extends(big, small) && AsVec(small).Ok?
    ensures AsVec(big).Ok? && AllExtend(AsVec(big).value, AsVec(small).value)
  {
  }

  lemma {:induction false} LimbsExtend(m: Modulus, bigs: seq<Json>, smalls: seq<Json>)
    requires AllExtend(bigs, smalls) && FieldOfLimbs(m, smalls).Ok?
    ensures FieldOfLimbs(m, bigs) == FieldOfLimbs(m, smalls)
  {
    hide FieldOfLimbs, LimbsValue;
    LimbsExact(m, smalls);
    forall i | 0 <= i < |smalls|
      ensures bigs[i] == smalls[i]
    {
      assert LimbWord(smalls[i]).Some? && Extends(bigs[i], smalls[i]);
    }
    assert bigs == smalls;
  }

  lemma {:induction false} HexExtends(m: Modulus, big: Json, small: Json)
    requires Extends(big, small) && BeHex(m, small).Ok?
    ensures BeHex(m, big) == BeHex(m, small)
  {
  }

  lemma {:induction false} ChallengeExtends(m: Modulus, big: Json, small: Json)
    requires Extends(big, small) && Challenge(m, small).Ok?
    ensures Challenge(m, big) == Challenge(m, small)
  {
    hide FieldOfLimbs;
    if small.Arr? {
      LimbsExtend(m, big.items, small.items);
    } else {
      GetExtends(big, small, "inner");
      var b, s := Get(big, "inner").value, Get(small, "inner").value;
      AsVecExtends(b, s);
      LimbsExtend(m, b.items, s.items);
    }
  }

  /** Decoding a list elementwise inherits the property from its element decoder. */
  lemma {:induction false} CollectExtends<T>(f: Json -> Parsed<T>, bigs: seq<Json>, smalls: seq<Json>)
    requires AllExtend(bigs, smalls) && Collect(f, smalls).Ok?
    requires forall i | 0 <= i < |smalls| && f(smalls[i]).Ok? :: f(bigs[i]) == f(smalls[i])
    ensures Collect(f, bigs) == Collect(f, smalls)
  {
    CollectOk(f, bigs, Collect(f, smalls).value);
  }

  lemma {:induction false} PrechallengeExtends(m: Modulus, big: Json, small: Json)
    requires Extends(big, small) && Prechallenge(m, small).Ok?
    ensures Prechallenge(m, big) == Prechallenge(m, small)
  {
    hide Challenge;
    GetExtends(big, small, "prechallenge");
    ChallengeExtends(m, Get(big, "prechallenge").value, Get(small, "prechallenge").value);
  }

  lemma {:induction false} BulletproofsExtend(m: Modulus, n: nat, big: Json, small: Json)
    requires Extends(big, small) && BulletproofsOf(m, n, small).Ok?
    ensures BulletproofsOf(m, n, big) == BulletproofsOf(m, n, small)
  {
    hide Prechallenge;
    AsVecExtends(big, small);
    var bs, ss := big.items, small.items;
    forall i | 0 <= i < |ss| && Prechallenge(m, ss[i]).Ok?
      ensures Prechallenge(m, bs[i]) == Prechallenge(m, ss[i])
    {
      PrechallengeExtends(m, bs[i], ss[i]);
    }
    CollectExtends(v => Prechallenge(m, v), bs, ss);
  }

  lemma {:induction false} VestaPointExtends(big: Json, small: Json)
    requires Extends(big, small) && ParseVestaPoint(small).Ok?
    ensures ParseVestaPoint(big) == ParseVestaPoint(small)
  {
  }

  lemma {:induction false} PallasPointExtends(big: Json, small: Json)
    requires Extends(big, small) && ParsePallasPoint(small).Ok?
    ensures ParsePallasPoint(big) == ParsePallasPoint(small)
  {
  }

  lemma {:induction false} PointEvalFlatExtends(big: Json, small: Json)
    requires Extends(big, small) && PointEvalFlat(small).Ok?
    ensures PointEvalFlat(big) == PointEvalFlat(small)
  {
  }

  lemma {:induction false} HexListExtends(big: Json, small: Json)
    requires Extends(big, small) && small.Arr? && Collect(StepHex, small.items).Ok?
    ensures big.Arr? && Collect(StepHex, big.items) == Collect(StepHex, small.items)
  {
    hide BeHex;
    AsVecExtends(big, small);
    forall i | 0 <= i < |small.items| && StepHex(small.items[i]).Ok?
      ensures StepHex(big.items[i]) == StepHex(small.items[i])
    {
      HexExtends(P, big.items[i], small.items[i]);
    }
    CollectExtends(StepHex, big.items, small.items);
  }

  lemma {:induction false} PointEvalChunkedExtends(big: Json, small: Json)
    requires Extends(big, small) && PointEvalChunked(small).Ok?
    ensures PointEvalChunked(big) == PointEvalChunked(small)
  {
    hide StepHex;
    AsVecExtends(big, small);
    HexListExtends(big.items[0], small.items[0]);
    HexListExtends(big.items[1], small.items[1]);
  }

  lemma {:induction false} FixedChunkedExtends(n: nat, big: Json, small: Json)
    requires Extends(big, small) && FixedChunked(n, small).Ok?
    ensures FixedChunked(n, big) == FixedChunked(n, small)
  {
    hide PointEvalChunked;
    AsVecExtends(big, small);
    forall i | 0 <= i < |small.items| && PointEvalChunked(small.items[i]).Ok?
      ensures PointEvalChunked(big.items[i]) == PointEvalChunked(small.items[i])
    {
      PointEvalChunkedExtends(big.items[i], small.items[i]);
    }
    CollectExtends(PointEvalChunked, big.items, small.items);
  }

  lemma {:induction false} ColumnAtExtends(big: Json, small: Json, key: string)
    requires Extends(big, small) && ColumnAt(small, key).Ok?
    ensures ColumnAt(big, key) == ColumnAt(small, key)
  {
    hide PointEvalChunked, Get;
    GetExtends(big, small, key);
    PointEvalChunkedExtends(Get(big, key).value, Get(small, key).value);
  }

  lemma {:induction false} ColumnsAtExtends(big: Json, small: Json, key: string, n: nat)
    requires Extends(big, small) && ColumnsAt(small, key, n).Ok?
    ensures ColumnsAt(big, key, n) == ColumnsAt(small, key, n)
  {
    hide FixedChunked, Get;
    GetExtends(big, small, key);
    FixedChunkedExtends(n, Get(big, key).value, Get(small, key).value);
  }

  lemma {:induction false} ParseIndexExtends(big: Json, small: Json)
    requires Extends(big, small) && ParseIndex(small).Ok?
    ensures ParseIndex(big) == ParseIndex(small)
  {
    hide ColumnAt, SELECTOR_KEYS;
    var columns := ParseIndex(small).value;
    forall i | 0 <= i < 6
      ensures ColumnAt(big, SELECTOR_KEYS[i]) == Ok(columns[i])
    {
      ColumnAtExtends(big, small, SELECTOR_KEYS[i]);
    }
    CollectOk(key => ColumnAt(big, key), SELECTOR_KEYS, columns);
  }

  lemma {:induction false} ParseAllEvalsExtends(big: Json, small: Json)
    requires Extends(big, small) && ParseAllEvals(small).Ok?
    ensures ParseAllEvals(big) == ParseAllEvals(small)
  {
    hide BeHex, Get, PointEvalFlat, ColumnAt, ColumnsAt, ParseIndex, Extends;
    GetExtends(big, small, "ft_eval1");
    HexExtends(P, Get(big, "ft_eval1").value, Get(small, "ft_eval1").value);
    GetExtends(big, small, "evals");
    var be, se := Get(big, "evals").value, Get(small, "evals").value;
    GetExtends(be, se, "public_input");
    PointEvalFlatExtends(Get(be, "public_input").value, Get(se, "public_input").value);
    GetExtends(be, se, "evals");
    var bi, si := Get(be, "evals").value, Get(se, "evals").value;
    ColumnAtExtends(bi, si, "z");
    ColumnsAtExtends(bi, si, "w", 15);
    ColumnsAtExtends(bi, si, "coefficients", 15);
    ColumnsAtExtends(bi, si, "s", 6);
    ParseIndexExtends(bi, si);
  }

  lemma {:induction false} ChallengeAtExtends(big: Json, small: Json, key: string)
    requires Extends(big, small) && ChallengeAt(small, key).Ok?
    ensures ChallengeAt(big, key) == ChallengeAt(small, key)
  {
    hide Challenge, Get;
    GetExtends(big, small, key);
    ChallengeExtends(P, Get(big, key).value, Get(small, key).value);
  }

  lemma {:induction false} ParsePlonkExtends(big: Json, small: Json)
    requires Extends(big, small) && ParsePlonk(small).Ok?
    ensures ParsePlonk(big) == ParsePlonk(small)
  {
    hide ChallengeAt;
    ChallengeAtExtends(big, small, "alpha");
    ChallengeAtExtends(big, small, "beta");
    ChallengeAtExtends(big, small, "gamma");
    ChallengeAtExtends(big, small, "zeta");
  }

  lemma {:induction false} ParseBranchDataExtends(big: Json, small: Json)
    requires Extends(big, small) && ParseBranchData(small).Ok?
    ensures ParseBranchData(big) == ParseBranchData(small)
  {
    hide Get;
    GetExtends(big, small, "domain_log2");
    GetExtends(big, small, "proofs_verified");
    AsVecExtends(Get(big, "proofs_verified").value, Get(small, "proofs_verified").value);
  }

  lemma {:induction false} ParseDeferredExtends(big: Json, small: Json)
    requires Extends(big, small) && ParseDeferred(small).Ok?
    ensures ParseDeferred(big) == ParseDeferred(small)
  {
    hide Get, ParsePlonk, BulletproofsOf, ParseBranchData, Extends;
    GetExtends(big, small, "plonk");
    ParsePlonkExtends(Get(big, "plonk").value, Get(small, "plonk").value);
    GetExtends(big, small, "bulletproof_challenges");
    BulletproofsExtend(P, STEP_IPA_ROUNDS,
      Get(big, "bulletproof_challenges").value, Get(small, "bulletproof_challenges").value);
    GetExtends(big, small, "branch_data");
    ParseBranchDataExtends(Get(big, "branch_data").value, Get(small, "branch_data").value);
  }

  lemma {:induction false} ParseSpongeDigestExtends(big: Json, small: Json)
    requires Extends(big, small) && ParseSpongeDigest(small).Ok?
    ensures ParseSpongeDigest(big) == ParseSpongeDigest(small)
  {
    hide Get, FieldOfLimbs;
    var key := "sponge_digest_before_evaluations";
    GetExtends(big, small, key);
    AsVecExtends(Get(big, key).value, Get(small, key).value);
    LimbsExtend(P, Get(big, key).value.items, Get(small, key).value.items);
  }

  lemma {:induction false} CommitmentAtExtends(big: Json, small: Json)
    requires Extends(big, small) && CommitmentAt(small).Ok?
    ensures CommitmentAt(big) == CommitmentAt(small)
  {
    hide Get, ParseVestaPoint;
    var key := "challenge_polynomial_commitment";
    GetExtends(big, small, key);
    VestaPointExtends(Get(big, key).value, Get(small, key).value);
  }

  lemma {:induction false} ListAtExtends<T>(big: Json, small: Json, key: string, f: Json -> Parsed<T>)
    requires Extends(big, small) && ListAt(small, key, f).Ok?
    requires forall b, s | Extends(b, s) && f(s).Ok? :: f(b) == f(s)
    ensures ListAt(big, key, f) == ListAt(small, key, f)
  {
    hide Get;
    GetExtends(big, small, key);
    AsVecExtends(Get(big, key).value, Get(small, key).value);
    CollectExtends(f, Get(big, key).value.items, Get(small, key).value.items);
  }

  lemma {:induction false} SgsExtend(big: Json, small: Json, key: string)
    requires Extends(big, small) && ListAt(small, key, ParsePallasPoint).Ok?
    ensures ListAt(big, key, ParsePallasPoint) == ListAt(small, key, ParsePallasPoint)
  {
    hide ListAt, ParsePallasPoint, Extends;
    forall b, s | Extends(b, s) && ParsePallasPoint(s).Ok?
      ensures ParsePallasPoint(b) == ParsePallasPoint(s)
    {
      PallasPointExtends(b, s);
    }
    ListAtExtends(big, small, key, ParsePallasPoint);
  }

  lemma {:induction false} StepListExtends(big: Json, small: Json, key: string)
    requires Extends(big, small) && ListAt(small, key, StepBulletproofs).Ok?
    ensures ListAt(big, key, StepBulletproofs) == ListAt(small, key, StepBulletproofs)
  {
    hide ListAt, BulletproofsOf, Extends;
    forall b, s | Extends(b, s) && StepBulletproofs(s).Ok?
      ensures StepBulletproofs(b) == StepBulletproofs(s)
    {
      BulletproofsExtend(P, STEP_IPA_ROUNDS, b, s);
    }
    ListAtExtends(big, small, key, StepBulletproofs);
  }

  lemma {:induction false} WrapListExtends(big: Json, small: Json, key: string)
    requires Extends(big, small) && ListAt(small, key, WrapBulletproofs).Ok?
    ensures ListAt(big, key, WrapBulletproofs) == ListAt(small, key, WrapBulletproofs)
  {
    hide ListAt, BulletproofsOf, Extends;
    forall b, s | Extends(b, s) && WrapBulletproofs(s).Ok?
      ensures WrapBulletproofs(b) == WrapBulletproofs(s)
    {
      BulletproofsExtend(Q, WRAP_IPA_ROUNDS, b, s);
    }
    ListAtExtends(big, small, key, WrapBulletproofs);
  }

  /** Extra object keys, anywhere, never change the result of a successful parse. */
  lemma {:induction false} ParseIgnoresExtraKeys(big: Json, small: Json)
    requires Extends(big, small) && Parse(small).Ok?
    ensures Parse(big) == Parse(small)
  {
    hide Get, ParseDeferred, ParseSpongeDigest, CommitmentAt, ListAt, ParseAllEvals, Extends;
    GetExtends(big, small, "statement");
    var bs, ss := Get(big, "statement").value, Get(small, "statement").value;
    GetExtends(bs, ss, "proof_state");
    var bp, sp := Get(bs, "proof_state").value, Get(ss, "proof_state").value;
    GetExtends(bp, sp, "deferred_values");
    ParseDeferredExtends(Get(bp, "deferred_values").value, Get(sp, "deferred_values").value);
    ParseSpongeDigestExtends(bp, sp);
    GetExtends(bp, sp, "messages_for_next_wrap_proof");
    var bw, sw := Get(bp, "messages_for_next_wrap_proof").value, Get(sp, "messages_for_next_wrap_proof").value;
    CommitmentAtExtends(bw, sw);
    GetExtends(bs, ss, "messages_for_next_step_proof");
    var bm, sm := Get(bs, "messages_for_next_step_proof").value, Get(ss, "messages_for_next_step_proof").value;
    SgsExtend(bm, sm, "challenge_polynomial_commitments");
    StepListExtends(bm, sm, "old_bulletproof_challenges");
    WrapListExtends(bw, sw, "old_bulletproof_challenges");
    GetExtends(big, small, "prev_evals");
    ParseAllEvalsExtends(Get(big, "prev_evals").value, Get(small, "prev_evals").value);
  }
}
