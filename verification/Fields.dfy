/**
 The two Pasta prime fields, as canonical integers below their modulus, with the
 field operations written out as arithmetic modulo `m`.
 */
module Fields {
  import opened Wrappers
  import opened Bytes

  /** Order of `Fp`: the Vesta scalar field and Pallas base field. */
  const P: nat := 0x40000000000000000000000000000000224698fc094cf91b992d30ed00000001

  /** Order of `Fq`: the Pallas scalar field and Vesta base field. */
  const Q: nat := 0x40000000000000000000000000000000224698fc0994a8dd8c46eb2100000001

  type StepField = x: nat | x < P
  type WrapField = x: nat | x < Q

  type Modulus = m: nat | m > 1 witness 2

  function Reduce(m: Modulus, x: int): (r: nat)
    ensures r < m
  {
    x % m
  }

  function Add(m: Modulus, a: nat, b: nat): (r: nat)
    ensures r < m
  {
    Reduce(m, a + b)
  }

  function Sub(m: Modulus, a: nat, b: nat): (r: nat)
    ensures r < m
  {
    Reduce(m, a - b)
  }

  function Mul(m: Modulus, a: nat, b: nat): (r: nat)
    ensures r < m
  {
    Reduce(m, a * b)
  }

  function Pow(m: Modulus, b: nat, e: nat): (r: nat)
    ensures r < m
  {
    if e == 0 then 1 else Mul(m, b, Pow(m, b, e - 1))
  }

  // --------------------------------------------------------------------------
  // Congruences
  // --------------------------------------------------------------------------

  lemma {:induction false} SmallMultiple(m: nat, d: int, x: int)
    requires m * d == x && 0 - m < x < m
    ensures d == 0
  {
  }

  lemma {:induction false} RemainderUnique(m: nat, q: int, s: int, k: int, r: int)
    requires 0 <= s < m && 0 <= r < m
    requires m * q + s == m * k + r
    ensures s == r
  {
    MulSub(m, q, k);
    SmallMultiple(m, q - k, r - s);
  }

  lemma {:induction false} ReduceUnique(m: Modulus, k: int, r: int)
    requires 0 <= r < m
    ensures Reduce(m, m * k + r) == r
  {
    var x := m * k + r;
    RemainderUnique(m, x / m, x % m, k, r);
  }

  /** Adding a multiple of the modulus changes nothing. */
  lemma {:induction false} ReduceShift(m: Modulus, x: int, k: int)
    ensures Reduce(m, x + m * k) == Reduce(m, x)
  {
    var q, r := x / m, x % m;
    assert x + m * k == m * (q + k) + r;
    ReduceUnique(m, q + k, r);
  }

  lemma {:induction false} Multiple(m: Modulus, x: int) returns (k: int)
    ensures x == Reduce(m, x) + m * k
  {
    k := x / m;
  }

  /** Equal residues differ by a multiple, and conversely. */
  lemma {:induction false} Congruent(m: Modulus, x: int, y: int)
    ensures Reduce(m, x) == Reduce(m, y) <==> Reduce(m, x - y) == 0
  {
    var kx := Multiple(m, x);
    var ky := Multiple(m, y);
    if Reduce(m, x) == Reduce(m, y) {
      assert x - y == 0 + m * (kx - ky) by { MulSub(m, kx, ky); }
      ReduceShift(m, 0, kx - ky);
    } else if Reduce(m, x - y) == 0 {
      var k := Multiple(m, x - y);
      assert x == y + m * k;
      ReduceShift(m, y, k);
    }
  }

  lemma {:induction false} MulSub(m: int, a: int, b: int)
    ensures m * a - m * b == m * (a - b)
  {
  }

  lemma {:induction false} ReduceInAdd(m: Modulus, a: int, b: int)
    ensures Reduce(m, Reduce(m, a) + b) == Reduce(m, a + b)
  {
    var k := Multiple(m, a);
    assert a + b == (Reduce(m, a) + b) + m * k;
    ReduceShift(m, Reduce(m, a) + b, k);
  }

  lemma {:induction false} ReduceInMul(m: Modulus, a: int, b: int)
    ensures Reduce(m, Reduce(m, a) * b) == Reduce(m, a * b)
  {
    var k := Multiple(m, a);
    assert a * b == Reduce(m, a) * b + m * (k * b) by {
      assert (Reduce(m, a) + m * k) * b == Reduce(m, a) * b + (m * k) * b;
    }
    ReduceShift(m, Reduce(m, a) * b, k * b);
  }

  lemma {:induction false} ReduceInMulRight(m: Modulus, a: int, b: int)
    ensures Reduce(m, a * Reduce(m, b)) == Reduce(m, a * b)
  {
    ReduceInMul(m, b, a);
    assert a * b == b * a && a * Reduce(m, b) == Reduce(m, b) * a;
  }

  // --------------------------------------------------------------------------
  // The ring laws
  // --------------------------------------------------------------------------

  lemma {:induction false} MulAssoc(m: Modulus, a: nat, b: nat, c: nat)
    ensures Mul(m, Mul(m, a, b), c) == Mul(m, a, Mul(m, b, c))
  {
    ReduceInMul(m, a * b, c);
    ReduceInMulRight(m, a, b * c);
    assert (a * b) * c == a * (b * c);
  }

  lemma {:induction false} MulComm(m: Modulus, a: nat, b: nat)
    ensures Mul(m, a, b) == Mul(m, b, a)
  {
  }

  lemma {:induction false} MulAdd(m: Modulus, a: nat, b: nat, c: nat)
    ensures Mul(m, a, Add(m, b, c)) == Add(m, Mul(m, a, b), Mul(m, a, c))
  {
    ReduceInMulRight(m, a, b + c);
    assert a * (b + c) == a * b + a * c;
    ReduceInAdd(m, a * b, a * c);
    ReduceInAdd(m, a * c, Reduce(m, a * b));
  }

  lemma {:induction false} AddAssoc(m: Modulus, a: nat, b: nat, c: nat)
    ensures Add(m, Add(m, a, b), c) == Add(m, a, Add(m, b, c))
  {
    hide Reduce;
    ReduceInAdd(m, a + b, c);
    ReduceInAdd(m, b + c, a);
  }

  lemma {:induction false} PowAdd(m: Modulus, b: nat, i: nat, j: nat)
    ensures Pow(m, b, i + j) == Mul(m, Pow(m, b, i), Pow(m, b, j))
  {
    if i == 0 {
      assert 1 * Pow(m, b, j) == Pow(m, b, j);
      ReduceUnique(m, 0, Pow(m, b, j));
    } else {
      PowAdd(m, b, i - 1, j);
      MulAssoc(m, b, Pow(m, b, i - 1), Pow(m, b, j));
    }
  }

  /** Powers of two in the field are the integer powers of two, reduced. */
  lemma {:induction false} PowOfTwo(m: Modulus, e: nat)
    ensures Pow(m, 2, e) == Reduce(m, Pow2(e))
  {
    if e == 0 {
      ReduceUnique(m, 0, 1);
    } else {
      PowOfTwo(m, e - 1);
      ReduceInMulRight(m, 2, Pow2(e - 1));
    }
  }

  // --------------------------------------------------------------------------
  // Inverses and primality
  // --------------------------------------------------------------------------

  predicate Divides(d: nat, x: int)
    requires d > 0
  {
    x % d == 0
  }

  lemma {:induction false} DividesSum(d: nat, x: int, y: int, k: int)
    requires d > 0 && Divides(d, x) && Divides(d, y)
    ensures Divides(d, x * k + y)
  {
    if d > 1 {
      assert x == d * (x / d) && y == d * (y / d);
      assert x * k + y == d * ((x / d) * k + y / d) + 0 by {
        assert (d * (x / d)) * k == d * ((x / d) * k);
      }
      ReduceUnique(d, (x / d) * k + y / d, 0);
    }
  }

  /** Extended Euclid: the greatest common divisor with its Bezout coefficients. */
  function ExtGcd(a: nat, b: nat): (r: (nat, int, int))
    requires a > 0 || b > 0
    ensures r.0 > 0 && r.1 * a + r.2 * b == r.0
    ensures Divides(r.0, a) && Divides(r.0, b)
    decreases b
  {
    if b == 0 then (a, 1, 0)
    else
      var (g, s, t) := ExtGcd(b, a % b);
      assert t * a + (s - t * (a / b)) * b == g by { BezoutStep(a, b, s, t, g); }
      assert Divides(g, a) by {
        DividesSum(g, b, a % b, a / b);
        assert a == b * (a / b) + a % b;
      }
      (g, t, s - t * (a / b))
  }

  lemma {:induction false} BezoutStep(a: nat, b: nat, s: int, t: int, g: int)
    requires b > 0
    requires s * b + t * (a % b) == g
    ensures t * a + (s - t * (a / b)) * b == g
  {
  }

  /** `Field::inverse`: none for zero (or for a zero divisor of a composite modulus). */
  function Inverse(m: Modulus, a: nat): (r: Option<nat>)
    ensures r.Some? ==> r.value < m && Mul(m, a, r.value) == 1
  {
    var (g, s, t) := ExtGcd(a, m);
    if g != 1 then None
    else
      BezoutInverse(m, a, s, t);
      Some(Reduce(m, s))
  }

  lemma {:induction false} BezoutInverse(m: Modulus, a: nat, s: int, t: int)
    requires s * a + t * m == 1
    ensures Mul(m, a, Reduce(m, s)) == 1
  {
    ReduceInMulRight(m, a, s);
    assert a * s == m * (-t) + 1;
    ReduceUnique(m, -t, 1);
  }

  ghost predicate Prime(m: nat) {
    m > 1 && forall d | 1 < d < m :: !Divides(d, m)
  }

  /** In a prime field exactly the nonzero elements have an inverse. */
  lemma {:induction false} InverseExists(m: Modulus, a: nat)
    requires Prime(m)
    ensures Inverse(m, a).Some? <==> Reduce(m, a) != 0
  {
    var g := ExtGcd(a, m).0;
    DivisorBelow(g, m);
    if Reduce(m, a) == 0 && g == 1 {
      ReduceInMul(m, a, Inverse(m, a).value);
    }
  }

  lemma {:induction false} DivisorBelow(d: nat, m: nat)
    requires d > 0 && m > 0 && Divides(d, m)
    ensures d <= m
  {
  }

  /** A prime field has no zero divisors. */
  lemma {:induction false} NoZeroDivisors(m: Modulus, a: nat, b: nat)
    requires Prime(m)
    ensures Mul(m, a, b) == 0 <==> Reduce(m, a) == 0 || Reduce(m, b) == 0
  {
    if Reduce(m, a) == 0 {
      ReduceInMul(m, a, b);
    } else if Reduce(m, b) == 0 {
      ReduceInMulRight(m, a, b);
    } else {
      InverseExists(m, a);
      if Mul(m, a, b) == 0 {
        CancelFactor(m, a, Inverse(m, a).value, b);
      }
    }
  }

  lemma {:induction false} CancelFactor(m: Modulus, a: nat, i: nat, b: nat)
    requires Mul(m, a, i) == 1 && Mul(m, a, b) == 0
    ensures Reduce(m, b) == 0
  {
    hide Reduce;
    MulComm(m, i, a);
    MulAssoc(m, i, a, b);
    assert Mul(m, 1, b) == Mul(m, i, 0);
    assert 1 * b == b && i * 0 == 0;
    ReduceUnique(m, 0, 0);
  }

  // --------------------------------------------------------------------------
  // Bytes to field elements
  // --------------------------------------------------------------------------

  /** `PrimeField::from_le_bytes_mod_order`: Horner from the top byte, reducing at each. */
  function FromLeBytesModOrder(m: Modulus, bs: seq<Byte>): (r: nat)
    ensures r < m
  {
    if bs == [] then 0
    else Reduce(m, bs[0] + 256 * FromLeBytesModOrder(m, bs[1..]))
  }

  lemma {:induction false} ModOrderIsReduction(m: Modulus, bs: seq<Byte>)
    ensures FromLeBytesModOrder(m, bs) == Reduce(m, LeValue(bs))
  {
    if bs == [] {
      ReduceUnique(m, 0, 0);
    } else {
      ModOrderIsReduction(m, bs[1..]);
      ReduceInMulRight(m, 256, LeValue(bs[1..]));
      HornerStep(m, bs[0], LeValue(bs[1..]));
    }
  }

  lemma {:induction false} HornerStep(m: Modulus, b: nat, v: nat)
    ensures Reduce(m, b + 256 * Reduce(m, v)) == Reduce(m, b + 256 * v)
  {
    ReduceInMulRight(m, 256, v);
    ReduceInAdd(m, 256 * Reduce(m, v), b);
    ReduceInAdd(m, 256 * v, b);
  }
}
