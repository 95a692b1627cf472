/**
 The IPA challenge polynomial `b(X)`: the product form stage 1 evaluates, the coefficient
 vector stage 2 commits to, and why they are the same polynomial.
 */
module ChallengePolynomial {
  import opened Bytes
  import opened Fields

  /** `b_poly`: the product of `1 + c_i * x^(2^(k-1-i))` over the challenges `c_0 .. c_(k-1)`. */
  function BPoly(m: Modulus, chals: seq<nat>, x: nat): (r: nat)
    ensures r < m
  {
    if chals == [] then 1
    else Mul(m, Add(m, 1, Mul(m, chals[0], Pow(m, x, Pow2(|chals| - 1)))), BPoly(m, chals[1..], x))
  }

  function Scale(m: Modulus, c: nat, v: seq<nat>): (r: seq<nat>)
    ensures |r| == |v| && forall i | 0 <= i < |v| :: r[i] == Mul(m, c, v[i])
  {
    seq(|v|, i requires 0 <= i < |v| => Mul(m, c, v[i]))
  }

  /**
   `b_poly_coefficients`, lowest degree first: coefficient `i` is the product of the challenges
   whose place is set in the binary expansion of `i`, the first challenge in the highest place.
   */
  function Coefficients(m: Modulus, chals: seq<nat>): (v: seq<nat>)
    ensures |v| == Pow2(|chals|)
    ensures forall i | 0 <= i < |v| :: v[i] < m
  {
    if chals == [] then [1]
    else
      var low := Coefficients(m, chals[1..]);
      low + Scale(m, chals[0], low)
  }

  /** The product of the challenges selected by the bits of `i`, with no recursion on vectors. */
  function BitProduct(m: Modulus, chals: seq<nat>, i: nat): (r: nat)
    requires i < Pow2(|chals|)
    ensures r < m
  {
    if chals == [] then 1
    else
      var half := Pow2(|chals| - 1);
      if i < half then BitProduct(m, chals[1..], i)
      else Mul(m, chals[0], BitProduct(m, chals[1..], i - half))
  }

  lemma {:induction false} CoefficientAt(m: Modulus, chals: seq<nat>, i: nat)
    requires i < Pow2(|chals|)
    ensures Coefficients(m, chals)[i] == BitProduct(m, chals, i)
  {
    if chals != [] {
      var half := Pow2(|chals| - 1);
      if i < half {
        CoefficientAt(m, chals[1..], i);
      } else {
        CoefficientAt(m, chals[1..], i - half);
      }
    }
  }

  /** The places: coefficient `2^j` is the challenge `j` places from the last, and coefficient 0 is one. */
  lemma {:induction false} CoefficientAtPower(m: Modulus, chals: seq<nat>, j: nat)
    requires j < |chals|
    ensures Pow2(j) < Pow2(|chals|)
    ensures Coefficients(m, chals)[0] == 1
    ensures Coefficients(m, chals)[Pow2(j)] == Reduce(m, chals[|chals| - 1 - j])
  {
    FirstIsOne(m, chals);
    FirstIsOne(m, chals[1..]);
    if j < |chals| - 1 {
      CoefficientAtPower(m, chals[1..], j);
    }
  }

  lemma {:induction false} FirstIsOne(m: Modulus, chals: seq<nat>)
    ensures Coefficients(m, chals)[0] == 1
  {
    if chals != [] {
      FirstIsOne(m, chals[1..]);
    }
  }

  /** Evaluation of a coefficient vector at `x`. */
  function Eval(m: Modulus, v: seq<nat>, x: nat): (r: nat)
    ensures r < m
  {
    if v == [] then 0 else Add(m, v[0], Mul(m, x, Eval(m, v[1..], x)))
  }

  lemma {:induction false} EvalScale(m: Modulus, c: nat, v: seq<nat>, x: nat)
    ensures Eval(m, Scale(m, c, v), x) == Mul(m, c, Eval(m, v, x))
  {
    hide Add, Mul;
    if v == [] {
      MulZero(m, c);
    } else {
      var rest := Eval(m, v[1..], x);
      EvalScale(m, c, v[1..], x);
      assert Scale(m, c, v)[1..] == Scale(m, c, v[1..]);
      MulAdd(m, c, v[0], Mul(m, x, rest));
      MulAssoc(m, x, c, rest);
      MulComm(m, x, c);
      MulAssoc(m, c, x, rest);
    }
  }

  lemma {:induction false} MulZero(m: Modulus, c: nat)
    ensures Mul(m, c, 0) == 0 && Mul(m, 0, c) == 0
  {
  }

  lemma {:induction false} MulOne(m: Modulus, a: nat)
    requires a < m
    ensures Mul(m, 1, a) == a && Add(m, 0, a) == a
  {
  }

  lemma {:induction false} EvalConcat(m: Modulus, a: seq<nat>, b: seq<nat>, x: nat)
    ensures Eval(m, a + b, x) == Add(m, Eval(m, a, x), Mul(m, Pow(m, x, |a|), Eval(m, b, x)))
  {
    hide Add, Mul;
    var eb := Eval(m, b, x);
    if a == [] {
      assert a + b == b;
      MulOne(m, eb);
    } else {
      var ea, p := Eval(m, a[1..], x), Pow(m, x, |a| - 1);
      EvalConcat(m, a[1..], b, x);
      assert (a + b)[1..] == a[1..] + b;
      MulAdd(m, x, ea, Mul(m, p, eb));
      MulAssoc(m, x, p, eb);
      AddAssoc(m, a[0], Mul(m, x, ea), Mul(m, Mul(m, x, p), eb));
    }
  }

  /** Committing and evaluating agree: the coefficient vector evaluates everywhere to the product. */
  lemma {:induction false} CoefficientsEvaluateToProduct(m: Modulus, chals: seq<nat>, x: nat)
    ensures Eval(m, Coefficients(m, chals), x) == BPoly(m, chals, x)
  {
    hide Add, Mul;
    if chals == [] {
      MulZero(m, x);
      ConstantEval(m);
    } else {
      var low := Coefficients(m, chals[1..]);
      var e, p := Eval(m, low, x), Pow(m, x, |low|);
      CoefficientsEvaluateToProduct(m, chals[1..], x);
      EvalConcat(m, low, Scale(m, chals[0], low), x);
      EvalScale(m, chals[0], low, x);
      Factor(m, chals[0], p, e);
    }
  }

  lemma {:induction false} ConstantEval(m: Modulus)
    ensures Add(m, 1, 0) == 1
  {
  }

  lemma {:induction false} Factor(m: Modulus, c: nat, p: nat, e: nat)
    requires e < m
    ensures Add(m, e, Mul(m, p, Mul(m, c, e))) == Mul(m, Add(m, 1, Mul(m, c, p)), e)
  {
    hide Add, Mul;
    var cp := Mul(m, c, p);
    MulComm(m, Add(m, 1, cp), e);
    MulAdd(m, e, 1, cp);
    MulComm(m, e, 1);
    MulOne(m, e);
    MulComm(m, e, cp);
    MulComm(m, c, p);
    MulAssoc(m, p, c, e);
  }
}
