/** Bit sequences, most significant bit first, and the numbers they spell. */
module BitSeq {
  function Pow2(n: nat): (p: nat)
    ensures p >= 1
  {
    if n == 0 then 1 else 2 * Pow2(n - 1)
  }

  /** `v >> k`. */
  function Shr(v: nat, k: nat): nat {
    if k == 0 then v else Shr(v, k - 1) / 2
  }

  /** The low `len` bits of `v`. */
  function UintBits(v: nat, len: nat): (b: seq<bool>)
    ensures |b| == len
  {
    if len == 0 then [] else UintBits(v / 2, len - 1) + [v % 2 == 1]
  }

  function FromBits(b: seq<bool>): nat {
    if b == [] then 0 else 2 * FromBits(b[..|b| - 1]) + (if b[|b| - 1] then 1 else 0)
  }

  lemma HalfMod(v: nat, p: nat)
    requires p >= 1
    ensures v % (2 * p) == 2 * (v / 2 % p) + v % 2
  {
    var h, q := v / 2, v / 2 / p;
    var m := h % p;
    assert h == p * q + m;
    assert v == (2 * p) * q + (2 * m + v % 2) by {
      assert v == 2 * h + v % 2;
      assert 2 * (p * q) == (2 * p) * q;
    }
    ModUnique(2 * p, q, 2 * m + v % 2);
  }

  lemma MulBound(p: nat, d: int)
    ensures d >= 1 ==> p * d >= p
    ensures d <= -1 ==> p * d <= 0 - p
  {}

  lemma ModUnique(p: nat, q: nat, m: nat)
    requires m < p
    ensures (p * q + m) % p == m
  {
    var x := p * q + m;
    assert x == p * (x / p) + x % p;
    var d := x / p - q;
    assert p * d == m - x % p by { assert p * (x / p) - p * q == p * d; }
    MulBound(p, d);
  }

  /** Writing keeps the value modulo 2^len. */
  lemma {:induction false} FromUintBits(v: nat, len: nat)
    ensures FromBits(UintBits(v, len)) == Low(v, len)
  {
    if len > 0 {
      FromUintBits(v / 2, len - 1);
      HalfMod(v, Pow2(len - 1));
      assert UintBits(v, len)[..len - 1] == UintBits(v / 2, len - 1);
    }
  }

  lemma {:induction false} UintFromBits(b: seq<bool>)
    ensures FromBits(b) < Pow2(|b|) && UintBits(FromBits(b), |b|) == b
  {
    if b != [] {
      UintFromBits(b[..|b| - 1]);
      assert FromBits(b) / 2 == FromBits(b[..|b| - 1]);
    }
  }

  /** The value of the low `len` bits of `v`. */
  function Low(v: int, len: nat): (r: nat)
    ensures r < Pow2(len)
  {
    v % Pow2(len)
  }

  // --------------------------------------------------------- signed numbers

  /** `v` reduced modulo 2^len: its two's complement bits. */
  function IntBits(v: int, len: nat): (b: seq<bool>)
    ensures |b| == len
  {
    UintBits(Low(v, len), len)
  }

  /** The two's complement reading of `len` bits spelling `u`. */
  function Signed(u: nat, len: nat): int {
    if len > 0 && u >= Pow2(len - 1) then u - Pow2(len) else u
  }

  predicate FitsSigned(v: int, len: nat) {
    len > 0 && 0 <= v + Pow2(len - 1) < Pow2(len)
  }

  /** What `v` becomes when written in `len` bits and read back. */
  function WrapSigned(v: int, len: nat): int {
    Signed(Low(v, len), len)
  }

  lemma WrapSignedIdentity(v: int, len: nat)
    requires FitsSigned(v, len)
    ensures WrapSigned(v, len) == v
  {
    var p := Pow2(len);
    if v >= 0 {
      ModUnique(p, 0, v);
    } else {
      ModShift(v, p);
      ModUnique(p, 0, v + p);
    }
  }

  lemma ModShift(v: int, p: nat)
    requires p >= 1
    ensures (v + p) % p == v % p
  {
    var q, r := v / p, v % p;
    var q', r' := (v + p) / p, (v + p) % p;
    assert v == p * q + r && v + p == p * q' + r';
    var d := q' - q - 1;
    assert p * d == r - r' by { assert p * q' - p * q - p == p * d; }
    MulBound(p, d);
  }

  lemma SignedFits(u: nat, len: nat)
    requires 0 < len && u < Pow2(len)
    ensures FitsSigned(Signed(u, len), len) && WrapSigned(Signed(u, len), len) == Signed(u, len)
  {
    assert Pow2(len) == 2 * Pow2(len - 1);
    WrapSignedIdentity(Signed(u, len), len);
  }

  // ------------------------------------------------------------------ fields

  /** An unsigned field of a bit stream; reads outside it give 0. */
  function UInt(b: seq<bool>, start: nat, len: nat): nat {
    if len == 0 || len > 64 || start + len > |b| then 0 else FromBits(b[start..start + len])
  }

  /** A two's complement field. */
  function Int(b: seq<bool>, start: nat, len: nat): int {
    Signed(UInt(b, start, len), len)
  }

  function Bit(b: seq<bool>, pos: nat): bool {
    UInt(b, pos, 1) == 1
  }

  lemma UIntBound(b: seq<bool>, start: nat, len: nat)
    ensures UInt(b, start, len) < Pow2(len)
  {
    if 0 < len <= 64 && start + len <= |b| { UintFromBits(b[start..start + len]); }
  }

  lemma UIntZero(b: seq<bool>, start: nat, len: nat)
    requires len == 0 || len > 64 || start + len > |b|
    ensures UInt(b, start, len) == 0
  {}

  // ---------------------------------------------------------- sign extension

  lemma {:induction false} Pow2Monotone(m: nat, n: nat)
    requires m <= n
    ensures Pow2(m) <= Pow2(n)
    decreases n
  {
    if m < n { Pow2Monotone(m, n - 1); }
  }

  lemma {:induction false} ShrHalf(v: nat, k: nat)
    ensures Shr(v, k + 1) == Shr(v / 2, k)
  {
    if k > 0 { ShrHalf(v, k - 1); }
  }

  /** The top bit of a field tells whether it is negative. */
  lemma {:induction false} SignBit(u: nat, len: nat)
    requires 0 < len && u < Pow2(len)
    ensures Shr(u, len - 1) % 2 == 1 <==> u >= Pow2(len - 1)
  {
    if len == 1 {
      assert Pow2(0) == 1 && Pow2(1) == 2;
    } else {
      ShrHalf(u, len - 2);
      SignBit(u / 2, len - 1);
    }
  }

  /** The bitwise OR of two words. */
  function OrBits(x: seq<bool>, y: seq<bool>): (r: seq<bool>)
    requires |x| == |y|
    ensures |r| == |x|
  {
    seq(|x|, i requires 0 <= i < |x| => x[i] || y[i])
  }

  lemma {:induction false} ZeroExtended(u: nat, len: nat, k: nat)
    requires u < Pow2(len)
    ensures UintBits(u, k + len) == seq(k, _ => false) + UintBits(u, len)
    decreases len, k
  {
    if len > 0 {
      ZeroExtended(u / 2, len - 1, k);
    } else if k > 0 {
      ZeroExtended(0, 0, k - 1);
      assert seq(k, _ => false) == seq(k - 1, _ => false) + [false];
    }
  }

  lemma {:induction false} OnesAbove(u: nat, len: nat, k: nat)
    requires u < Pow2(len)
    ensures FromBits(seq(k, _ => true) + UintBits(u, len)) == Pow2(k + len) - Pow2(len) + u
    decreases len, k
  {
    var ones := seq(k, _ => true);
    var b := ones + UintBits(u, len);
    if len > 0 {
      OnesAbove(u / 2, len - 1, k);
      assert b[..|b| - 1] == ones + UintBits(u / 2, len - 1);
    } else if k > 0 {
      OnesAbove(0, 0, k - 1);
      assert b[..|b| - 1] == seq(k - 1, _ => true) + UintBits(0, 0);
    }
  }

  /** OR-ing ones above a negative field of `len` bits and reading the word as signed gives its value. */
  lemma SignExtended(u: nat, len: nat, width: nat)
    requires 0 < len < width && Pow2(len - 1) <= u < Pow2(len)
    ensures var word := OrBits(UintBits(u, width), seq(width, i => i < width - len));
            Signed(FromBits(word), width) == Signed(u, len)
  {
    var k := width - len;
    ZeroExtended(u, len, k);
    OnesAbove(u, len, k);
    var word := OrBits(UintBits(u, width), seq(width, i => i < k));
    assert word == seq(k, _ => true) + UintBits(u, len);
    Pow2Monotone(len, width - 1);
    assert Pow2(width) == 2 * Pow2(width - 1);
  }

  lemma Pow2Positive(len: nat)
    ensures len > 0 ==> Pow2(len - 1) > 0 && Pow2(len) == 2 * Pow2(len - 1)
  {}
}
