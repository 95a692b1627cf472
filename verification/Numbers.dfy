/**
 The two number formats of the skeleton: big-endian hex strings and little-endian arrays of
 signed 64-bit limbs, each decoded through a checked 32-byte field deserializer.
 */
module Numbers {
  import opened Wrappers
  import opened Bytes
  import opened Fields

  /** A parsed JSON document; integers beyond 64 bits and fractions are kept as text. */
  datatype Json =
    | Null
    | Bool(b: bool)
    | Int(n: int)
    | Float(text: string)
    | Str(s: string)
    | Arr(items: seq<Json>)
    | Obj(fields: map<string, Json>)

  datatype WireError =
    | MissingKey(key: string)
    | ExpectedArray
    | ExpectedString
    | NotInt64
    | BadHex
    | NotCanonical
    | WrongCount(expected: nat, got: nat)
    | BadTag
    | EmptyString
    | ChunkMismatch

  type Parsed<+T> = Result<T, WireError>

  const FIELD_BYTES: nat := 32

  // --------------------------------------------------------------------------
  // Little-endian bytes
  // --------------------------------------------------------------------------

  /** `Vec::resize(n, 0)`: truncates as well as extends. */
  function Resized(bs: seq<Byte>, n: nat): (r: seq<Byte>)
    ensures |r| == n
  {
    if |bs| >= n then bs[..n] else bs + seq(n - |bs|, _ => 0)
  }

  /** The checked deserializer: canonical elements only. */
  function FieldOfLe(m: Modulus, le: seq<Byte>): (r: Parsed<nat>)
    ensures r.Ok? ==> r.value < m
  {
    var v := LeValue(Resized(le, FIELD_BYTES));
    if v < m then Ok(v) else Err(NotCanonical)
  }

  lemma {:induction false} ResizedValue(bs: seq<Byte>)
    ensures LeValue(Resized(bs, FIELD_BYTES)) == LeValue(bs) % U256
  {
    hide LeValue, Pow256;
    Pow256Constants();
    ValueBelow(Resized(bs, FIELD_BYTES));
    if |bs| >= FIELD_BYTES {
      ValueOfConcat(bs[..FIELD_BYTES], bs[FIELD_BYTES..]);
      assert bs[..FIELD_BYTES] + bs[FIELD_BYTES..] == bs;
      LowPart(LeValue(bs[..FIELD_BYTES]), LeValue(bs[FIELD_BYTES..]));
    } else {
      ValueOfConcat(bs, seq(FIELD_BYTES - |bs|, _ => 0));
      ValueOfZeros(FIELD_BYTES - |bs|);
    }
  }

  lemma {:induction false} LowPart(v: nat, w: nat)
    requires v < U256
    ensures (v + U256 * w) % U256 == v
  {
  }

  /** The element a number of any size is read as: its residue modulo 2^256, if that is canonical. */
  function Canonical(m: Modulus, x: nat): Parsed<nat> {
    if x % U256 < m then Ok(x % U256) else Err(NotCanonical)
  }

  /** `field_from_le`: from bytes of any length to the element their value is read as. */
  method FieldFromLe(m: Modulus, bytes: seq<Byte>) returns (r: Parsed<nat>)
    ensures r == Canonical(m, LeValue(bytes))
    ensures r == FieldOfLe(m, bytes)
  {
    hide LeValue, Resized;
    var le := bytes;
    le := Resized(le, FIELD_BYTES);
    ResizedValue(bytes);
    var v := LeValue(le);
    r := if v < m then Ok(v) else Err(NotCanonical);
  }

  // --------------------------------------------------------------------------
  // Big-endian hex
  // --------------------------------------------------------------------------

  /** The digits in both cases. */
  const LOWER_DIGITS := "0123456789abcdef"
  const UPPER_DIGITS := "0123456789ABCDEF"

  function HexDigit(c: char): (d: Option<nat>)
    ensures d.Some? ==> d.value < 16
  {
    if '0' <= c <= '9' then Some(c as int - '0' as int)
    else if 'a' <= c <= 'f' then Some(c as int - 'a' as int + 10)
    else if 'A' <= c <= 'F' then Some(c as int - 'A' as int + 10)
    else None
  }

  /** A character is a hex digit of value `d` exactly when it stands at `d` in one of the two tables. */
  lemma {:induction false} HexDigitTable(c: char, d: nat)
    ensures HexDigit(c) == Some(d) <==> d < 16 && (c == LOWER_DIGITS[d] || c == UPPER_DIGITS[d])
  {
  }

  predicate IsHex(s: string) {
    forall i | 0 <= i < |s| :: HexDigit(s[i]).Some?
  }

  /** The number a hex numeral denotes, most significant digit first. */
  function HexValue(s: string): nat
    requires IsHex(s)
  {
    if s == "" then 0 else 16 * HexValue(s[..|s| - 1]) + HexDigit(s[|s| - 1]).value
  }

  /** `hex::decode`. */
  function HexDecode(s: string): (r: Parsed<seq<Byte>>)
    ensures r.Ok? <==> IsHex(s) && |s| % 2 == 0
  {
    if s == "" then Ok([])
    else if |s| == 1 then Err(BadHex)
    else
      match (HexDecode(s[..|s| - 2]), HexDigit(s[|s| - 2]), HexDigit(s[|s| - 1]))
      case (Ok(bs), Some(hi), Some(lo)) => Ok(bs + [16 * hi + lo])
      case _ => Err(BadHex)
  }

  function StripPrefix(s: string): (t: string)
    ensures "0x" <= s ==> s == "0x" + t
    ensures !("0x" <= s) ==> t == s
  {
    if |s| >= 2 && s[0] == '0' && s[1] == 'x' then s[2..] else s
  }

  function FieldOfHex(m: Modulus, s: string): (r: Parsed<nat>)
    ensures r.Ok? ==> r.value < m
  {
    var bytes :- HexDecode(StripPrefix(s));
    FieldOfLe(m, Reversed(bytes))
  }

  lemma {:induction false} HexDecodeValue(s: string)
    requires IsHex(s) && |s| % 2 == 0
    ensures LeValue(Reversed(HexDecode(s).value)) == HexValue(s)
  {
    if s != "" {
      var front := s[..|s| - 2];
      HexDecodeValue(front);
      var bs, last := HexDecode(front).value, HexDecode(s).value;
      var b := last[|last| - 1];
      assert Reversed(last)[0] == b;
      assert Reversed(last)[1..] == Reversed(bs);
      var most := s[..|s| - 1];
      assert most[..|most| - 1] == front && most[|most| - 1] == s[|s| - 2];
      assert HexValue(s) == 16 * (16 * HexValue(front) + HexDigit(s[|s| - 2]).value) + HexDigit(s[|s| - 1]).value;
    }
  }

  /** `parse_field_be_hex`: the element the numeral's value is read as, unless it is no numeral. */
  method ParseFieldBeHex(m: Modulus, s: string) returns (r: Parsed<nat>)
    ensures var t := StripPrefix(s);
            r == if IsHex(t) && |t| % 2 == 0 then Canonical(m, HexValue(t)) else Err(BadHex)
    ensures r == FieldOfHex(m, s)
  {
    hide HexDecode, HexValue, LeValue, Canonical, FieldOfLe, Reversed;
    HexErrors(StripPrefix(s));
    var decoded :- HexDecode(StripPrefix(s));
    var bytes := new Byte[|decoded|](i requires 0 <= i < |decoded| => decoded[i]);
    assert bytes[..] == decoded;
    ReverseInPlace(bytes);
    HexDecodeValue(StripPrefix(s));
    r := FieldFromLe(m, bytes[..]);
  }

  lemma {:induction false} HexErrors(s: string)
    ensures HexDecode(s).Err? ==> HexDecode(s).error == BadHex
  {
  }

  /**
   Hex decoding, completely: it succeeds exactly on an even number of hex digits whose value modulo
   2^256 is below the modulus, and yields that residue.
   */
  lemma {:induction false} HexExact(m: Modulus, s: string)
    ensures var t := StripPrefix(s);
            var r := FieldOfHex(m, s);
            && (r.Ok? <==> IsHex(t) && |t| % 2 == 0 && HexValue(t) % U256 < m)
            && (r.Ok? ==> r.value == HexValue(t) % U256)
  {
    hide HexValue, LeValue, Resized, HexDecode, Reversed;
    var t := StripPrefix(s);
    if IsHex(t) && |t| % 2 == 0 {
      HexDecodeValue(t);
      ResizedValue(Reversed(HexDecode(t).value));
    }
  }

  /**
   So an over-long numeral is accepted with its high digits dropped: the element decoded is the
   numeral's value if and only if that value is below 2^256.
   */
  lemma {:induction false} HexValueKept(m: Modulus, s: string)
    requires FieldOfHex(m, s).Ok?
    ensures IsHex(StripPrefix(s))
    ensures FieldOfHex(m, s).value == HexValue(StripPrefix(s)) <==> HexValue(StripPrefix(s)) < U256
  {
    hide HexValue, FieldOfHex;
    HexExact(m, s);
  }

  function Zeros(n: nat): (s: string)
    ensures |s| == n
  {
    seq(n, _ => '0')
  }

  lemma {:induction false} ZerosValue(s: string, n: nat)
    requires IsHex(s)
    ensures IsHex(s + Zeros(n)) && HexValue(s + Zeros(n)) == Pow2(4 * n) * HexValue(s)
  {
    if n == 0 {
      assert s + Zeros(0) == s;
    } else {
      hide Pow2;
      ZerosValue(s, n - 1);
      var t := s + Zeros(n);
      assert t[..|t| - 1] == s + Zeros(n - 1);
      NibbleStep(n);
      Regroup(Pow2(4 * (n - 1)), HexValue(s));
    }
  }

  lemma {:induction false} NibbleStep(n: nat)
    requires n > 0
    ensures Pow2(4 * n) == 16 * Pow2(4 * (n - 1))
  {
    hide Pow2;
    Pow2Of4();
    Pow2Add(4, 4 * (n - 1));
    assert 4 + 4 * (n - 1) == 4 * n;
  }

  lemma {:induction false} Pow2Of4()
    ensures Pow2(4) == 16
  {
  }

  lemma {:induction false} Regroup(p: nat, v: nat)
    ensures 16 * (p * v) == (16 * p) * v
  {
  }

  /** Concretely: `0x01` followed by 64 zeros denotes 2^256 and decodes, without error, to 0. */
  lemma {:induction false} HighDigitsDropped(m: Modulus)
    ensures var s := "0x01" + Zeros(64);
            IsHex(StripPrefix(s)) && HexValue(StripPrefix(s)) == U256 && FieldOfHex(m, s) == Ok(0)
  {
    hide FieldOfHex;
    var s := "0x01" + Zeros(64);
    assert StripPrefix(s) == "01" + Zeros(64);
    assert HexValue("01") == 1 by {
      assert "01"[..1] == "0" && "0"[..0] == "";
    }
    ZerosValue("01", 64);
    Pow2Of256();
    HexExact(m, s);
  }

  lemma {:induction false} Pow2Of256()
    ensures Pow2(256) == U256
  {
    hide Pow2;
    Pow2Of64();
    Pow2Add(64, 64);
    assert Pow2(128) == 0x1_0000_0000_0000_0000_0000_0000_0000_0000;
    Pow2Add(128, 128);
  }

  // --------------------------------------------------------------------------
  // Signed little-endian limbs
  // --------------------------------------------------------------------------

  const I64_END: int := 0x8000_0000_0000_0000

  /** `as_i64`, then the two's-complement cast to `u64`. */
  function LimbWord(l: Json): (w: Option<nat>)
    ensures w.Some? ==> w.value < U64
  {
    if l.Int? && -I64_END <= l.n < I64_END then Some(if l.n < 0 then l.n + U64 else l.n) else None
  }

  function LimbsLe(limbs: seq<Json>): (r: Parsed<seq<Byte>>) {
    if limbs == [] then Ok([])
    else
      match LimbWord(limbs[0])
      case None => Err(NotInt64)
      case Some(w) =>
        var rest :- LimbsLe(limbs[1..]);
        Ok(LeBytes(w, 8) + rest)
  }

  function FieldOfLimbs(m: Modulus, limbs: seq<Json>): (r: Parsed<nat>)
    ensures r.Ok? ==> r.value < m
  {
    var le :- LimbsLe(limbs);
    FieldOfLe(m, le)
  }

  method CombineLimbsLe(m: Modulus, limbs: seq<Json>) returns (r: Parsed<nat>)
    ensures r == if AreInt64(limbs) then Canonical(m, LimbsValue(limbs)) else Err(NotInt64)
    ensures r == FieldOfLimbs(m, limbs)
  {
    hide LeBytes, FieldOfLe, LeValue, LimbsValue, AreInt64, Canonical;
    LimbsLeValue(limbs);
    var le: seq<Byte> := [];
    var i := 0;
    assert limbs[0..] == limbs;
    PrependedNone(LimbsLe(limbs));
    while i < |limbs|
      invariant 0 <= i <= |limbs|
      invariant LimbsLe(limbs) == Prepended(le, LimbsLe(limbs[i..]))
    {
      var w := LimbWord(limbs[i]);
      if w.None? {
        return Err(NotInt64);
      }
      assert limbs[i..][1..] == limbs[i + 1..];
      PrependedTwice(le, LeBytes(w.value, 8), LimbsLe(limbs[i + 1..]));
      le := le + LeBytes(w.value, 8);
      i := i + 1;
    }
    assert le + [] == le;
    r := FieldFromLe(m, le);
  }

  function Prepended(bs: seq<Byte>, r: Parsed<seq<Byte>>): Parsed<seq<Byte>> {
    match r
    case Ok(rest) => Ok(bs + rest)
    case Err(e) => Err(e)
  }

  lemma {:induction false} PrependedNone(r: Parsed<seq<Byte>>)
    ensures Prepended([], r) == r
  {
    if r.Ok? {
      assert [] + r.value == r.value;
    }
  }

  lemma {:induction false} PrependedTwice(a: seq<Byte>, b: seq<Byte>, r: Parsed<seq<Byte>>)
    ensures Prepended(a, Prepended(b, r)) == Prepended(a + b, r)
  {
    if r.Ok? {
      assert a + (b + r.value) == a + b + r.value;
    }
  }

  predicate AreInt64(limbs: seq<Json>) {
    forall i | 0 <= i < |limbs| :: LimbWord(limbs[i]).Some?
  }

  /** The number an array of limbs denotes, least significant first, each read as unsigned. */
  function LimbsValue(limbs: seq<Json>): nat
    requires AreInt64(limbs)
  {
    if limbs == [] then 0 else LimbWord(limbs[0]).value + U64 * LimbsValue(limbs[1..])
  }

  lemma {:induction false} LimbsLeValue(limbs: seq<Json>)
    ensures LimbsLe(limbs).Ok? <==> AreInt64(limbs)
    ensures LimbsLe(limbs).Ok? ==> LeValue(LimbsLe(limbs).value) == LimbsValue(limbs)
  {
    if limbs != [] {
      hide LimbWord;
      LimbsLeValue(limbs[1..]);
      if LimbWord(limbs[0]).Some? && LimbsLe(limbs[1..]).Ok? {
        var w := LimbWord(limbs[0]).value;
        Pow256Constants();
        ValueOfBytes(w, 8);
        ValueOfConcat(LeBytes(w, 8), LimbsLe(limbs[1..]).value);
        assert forall i | 0 <= i < |limbs| :: i > 0 ==> limbs[i] == limbs[1..][i - 1];
      }
    }
  }

  /** Limb decoding, completely: the counterpart of `HexExact`. */
  lemma {:induction false} LimbsExact(m: Modulus, limbs: seq<Json>)
    ensures var r := FieldOfLimbs(m, limbs);
            && (r.Ok? <==> AreInt64(limbs) && LimbsValue(limbs) % U256 < m)
            && (r.Ok? ==> r.value == LimbsValue(limbs) % U256)
  {
    hide LimbsLe, LimbsValue, LeValue, Resized, AreInt64;
    LimbsLeValue(limbs);
    if AreInt64(limbs) {
      ResizedValue(LimbsLe(limbs).value);
    }
  }

  /** One past the largest 128-bit challenge. */
  const U128: nat := 0x1_0000_0000_0000_0000_0000_0000_0000_0000

  /** Two limbs always decode, in either field, to a value below 2^128. */
  lemma {:induction false} TwoLimbs(m: Modulus, limbs: seq<Json>)
    requires |limbs| == 2 && AreInt64(limbs) && m >= U128
    ensures FieldOfLimbs(m, limbs) == Ok(LimbsValue(limbs)) && LimbsValue(limbs) < U128
  {
    hide FieldOfLimbs;
    LimbsExact(m, limbs);
    assert LimbsValue(limbs) == LimbWord(limbs[0]).value + U64 * LimbWord(limbs[1]).value by {
      assert LimbsValue(limbs[1..]) == LimbWord(limbs[1]).value + U64 * LimbsValue(limbs[1..][1..]);
    }
  }

  // --------------------------------------------------------------------------
  // Printing
  // --------------------------------------------------------------------------

  function DigitChar(d: nat): (c: char)
    requires d < 16
    ensures HexDigit(c) == Some(d)
  {
    if d < 10 then '0' + d as char else 'A' + (d - 10) as char
  }

  /** The low `n` hex digits of `x`. */
  function HexDigits(x: nat, n: nat): (s: string)
    ensures |s| == n && IsHex(s)
  {
    if n == 0 then "" else HexDigits(x / 16, n - 1) + [DigitChar(x % 16)]
  }

  /** OCaml's `Field.to_yojson`: `0x` and 64 digits. */
  function HexOf(x: nat): string {
    "0x" + HexDigits(x, 64)
  }

  lemma {:induction false} HexDigitsValue(x: nat, n: nat)
    requires x < Pow2(4 * n)
    ensures HexValue(HexDigits(x, n)) == x
  {
    if n != 0 {
      NibbleStep(n);
      HexDigitsValue(x / 16, n - 1);
      var s := HexDigits(x, n);
      assert s[..|s| - 1] == HexDigits(x / 16, n - 1);
    }
  }

  /** One signed limb. */
  function LimbJson(w: nat): Json {
    Int(if w < I64_END then w else w - U64)
  }

  /** The low `n` limbs of `x`. */
  function LimbsJson(x: nat, n: nat): (l: seq<Json>)
    ensures |l| == n
  {
    if n == 0 then [] else [LimbJson(x % U64)] + LimbsJson(x / U64, n - 1)
  }

  lemma {:induction false} LimbsJsonValue(x: nat, n: nat)
    requires x < Pow2(64 * n)
    ensures AreInt64(LimbsJson(x, n)) && LimbsValue(LimbsJson(x, n)) == x
  {
    if n != 0 {
      Pow2Of64();
      Pow2Add(64, 64 * (n - 1));
      hide Pow2;
      SplitWord(x, Pow2(64 * (n - 1)));
      LimbsJsonValue(x / U64, n - 1);
      assert LimbsJson(x, n)[1..] == LimbsJson(x / U64, n - 1);
    }
  }

  lemma {:induction false} SplitWord(x: nat, p: nat)
    requires x < U64 * p
    ensures x / U64 < p && x == x % U64 + U64 * (x / U64)
  {
  }

  lemma {:induction false} HexRoundTrip(m: Modulus, x: nat)
    requires x < m <= U256
    ensures FieldOfHex(m, HexOf(x)) == Ok(x)
  {
    hide HexDigits, HexValue, Pow2, FieldOfHex;
    Pow2Of256();
    assert StripPrefix(HexOf(x)) == HexDigits(x, 64);
    HexDigitsValue(x, 64);
    HexExact(m, HexOf(x));
  }

  lemma {:induction false} LimbsRoundTrip(m: Modulus, x: nat, n: nat)
    requires x < m <= U256 && x < Pow2(64 * n)
    ensures FieldOfLimbs(m, LimbsJson(x, n)) == Ok(x)
  {
    hide LimbsJson, LimbsValue, Pow2, FieldOfLimbs, AreInt64;
    LimbsJsonValue(x, n);
    LimbsExact(m, LimbsJson(x, n));
  }

  /** The two formats agree: 64 hex digits and four signed limbs both decode to the element. */
  lemma {:induction false} FormatsAgree(m: Modulus, x: nat)
    requires x < m <= U256
    ensures FieldOfHex(m, HexOf(x)) == FieldOfLimbs(m, LimbsJson(x, 4)) == Ok(x)
  {
    hide FieldOfHex, FieldOfLimbs, HexOf, LimbsJson;
    Pow2Of256();
    HexRoundTrip(m, x);
    LimbsRoundTrip(m, x, 4);
  }
}
