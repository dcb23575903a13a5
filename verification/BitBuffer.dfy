/** The byte buffers behind the codec: the accumulator that armors a message and the stream that
    reads an armored one. Both are refined to bit sequences. */
module BitBuffer {
  import opened Prelude
  import opened BitSeq

  // ------------------------------------------------------------ bits in bytes

  function Mask(k: nat): bv8
    requires k < 8
  {
    match k
    case 0 => 0x80 case 1 => 0x40 case 2 => 0x20 case 3 => 0x10
    case 4 => 0x08 case 5 => 0x04 case 6 => 0x02 case _ => 0x01
  }

  /** Bit `pos` of a buffer, the most significant bit of each byte first. */
  predicate TestBit(b: seq<bv8>, pos: nat)
    requires pos / 8 < |b|
  {
    b[pos / 8] & Mask(pos % 8) != 0
  }

  function SetBit(b: seq<bv8>, pos: nat): seq<bv8>
    requires pos / 8 < |b|
  {
    b[pos / 8 := b[pos / 8] | Mask(pos % 8)]
  }

  lemma MaskOr(x: bv8, j: nat, k: nat)
    requires j < 8 && k < 8
    ensures (x | Mask(k)) & Mask(j) != 0 <==> j == k || x & Mask(j) != 0
  {}

  lemma SetBitTests(b: seq<bv8>, pos: nat, q: nat)
    requires pos / 8 < |b| && q / 8 < |b|
    ensures TestBit(SetBit(b, pos), q) <==> q == pos || TestBit(b, q)
  {
    if q / 8 == pos / 8 { MaskOr(b[pos / 8], q % 8, pos % 8); }
  }

  /** The first `n` bits of a buffer. */
  function BitsOf(b: seq<bv8>, n: nat): (s: seq<bool>)
    requires n <= 8 * |b|
    ensures |s| == n && forall i | 0 <= i < n :: s[i] == TestBit(b, i)
  {
    if n == 0 then [] else BitsOf(b, n - 1) + [TestBit(b, n - 1)]
  }

  lemma {:induction false} BitsOfFrame(b: seq<bv8>, c: seq<bv8>, n: nat)
    requires n <= 8 * |b| && n <= 8 * |c| && forall i: nat | i < n :: TestBit(b, i) == TestBit(c, i)
    ensures BitsOf(b, n) == BitsOf(c, n)
  {}

  // ---------------------------------------------------------------- armoring

  function ArmorChar(v: nat): char
    requires v < 64
  {
    (v + if v < 40 then 48 else 56) as char
  }

  /** The sextet a payload character stands for: the decoder's rule, aliases included. */
  function Sextet(c: char): Option<nat> {
    var v := c as int - 48;
    var w := if v > 40 then v - 8 else v;
    if 0 <= w <= 63 then Some(w) else None
  }

  /** The characters `ArmorChar` produces, and the parser admits. */
  predicate IsArmor(c: char) {
    48 <= c as int <= 119 && !(88 <= c as int <= 95)
  }

  predicate AllArmor(payload: string) {
    forall i | 0 <= i < |payload| :: IsArmor(payload[i])
  }

  lemma ArmorCharSextet(v: nat)
    requires v < 64
    ensures IsArmor(ArmorChar(v)) && Sextet(ArmorChar(v)) == Some(v)
  {}

  /** The parser admits just the characters that are written. */
  lemma ArmorIsWhatIsWritten(c: char)
    ensures IsArmor(c) <==> exists v: nat :: v < 64 && c == ArmorChar(v)
  {
    if IsArmor(c) {
      var v := if c as int < 88 then c as int - 48 else c as int - 56;
      assert v < 64 && c == ArmorChar(v);
    }
  }

  /** Two characters share a sextet exactly when one is an alias from the gap 88..95. */
  lemma SextetCollisions(c: char, d: char)
    requires Sextet(c).Some? && c < d
    ensures Sextet(c) == Sextet(d) <==>
            (88 < d as int <= 95 && c as int == d as int - 8) || (c as int == 88 && d as int == 96)
  {}

  datatype DecodeError = Armoring | TooShort(bits: nat, need: nat)

  function Zeros(k: nat): seq<bool> { seq(k, _ => false) }

  function Fill(n: nat): nat { (6 - n % 6) % 6 }

  function Padded(b: seq<bool>): (p: seq<bool>)
    ensures |p| % 6 == 0
  {
    b + Zeros(Fill(|b|))
  }

  lemma SixBitsFit(b: seq<bool>)
    requires |b| <= 6
    ensures FromBits(b) < 64
  {
    UintFromBits(b);
    assert Pow2(6) == 64;
    Pow2Monotone(|b|, 6);
  }

  function ArmorAll(p: seq<bool>): string
    requires |p| % 6 == 0
  {
    if p == [] then "" else
      SixBitsFit(p[|p| - 6..]);
      ArmorAll(p[..|p| - 6]) + [ArmorChar(FromBits(p[|p| - 6..]))]
  }

  /** The payload and fill count of a bit sequence. */
  function Armored(b: seq<bool>): (string, nat) {
    (ArmorAll(Padded(b)), Fill(|b|))
  }

  /** All the bits of a payload, if every character stands for a sextet. */
  function Sextets(payload: string): (r: Option<seq<bool>>)
    ensures r.Some? ==> |r.value| == 6 * |payload|
  {
    if payload == "" then Some([]) else
      match (Sextets(payload[..|payload| - 1]), Sextet(payload[|payload| - 1]))
      case (Some(b), Some(v)) => Some(b + UintBits(v, 6))
      case _ => None
  }

  function Dearmored(payload: string, fill: nat): Result<seq<bool>, DecodeError> {
    if fill > 5 || Sextets(payload) == None || fill > 6 * |payload| then Err(Armoring)
    else Ok(Sextets(payload).value[..6 * |payload| - fill])
  }

  // -------------------------------------------------------------- properties

  lemma EmptyArmor()
    ensures ArmorAll([]) == ""
  {}

  lemma PaddedLength(b: seq<bool>)
    ensures |Padded(b)| == |b| + Fill(|b|)
  {}

  lemma PaddedBit(b: seq<bool>, k: nat)
    requires k < |Padded(b)|
    ensures Padded(b)[k] == (k < |b| && b[k])
  {}

  lemma NoBits(p: seq<bool>, i: nat)
    requires i <= |p|
    ensures FromBits(p[i..i]) == 0
  {}

  lemma OneMoreBit(p: seq<bool>, i: nat, j: nat)
    requires i + j < |p|
    ensures FromBits(p[i..i + j + 1]) == 2 * FromBits(p[i..i + j]) + (if p[i + j] then 1 else 0)
  {
    assert p[i..i + j + 1][..j] == p[i..i + j];
  }

  lemma ArmorStep(p: seq<bool>, six: seq<bool>)
    requires |p| % 6 == 0 && |six| == 6
    ensures FromBits(six) < 64 && ArmorAll(p + six) == ArmorAll(p) + [ArmorChar(FromBits(six))]
  {
    SixBitsFit(six);
    assert (p + six)[..|p|] == p && (p + six)[|p|..] == six;
  }

  lemma NextSextet(i: nat, total: nat)
    requires i % 6 == 0 && total % 6 == 0 && i < total
    ensures i + 6 <= total && (i + 6) % 6 == 0
  {}

  lemma ArmorNext(p: seq<bool>, i: nat)
    requires i % 6 == 0 && i + 6 <= |p|
    ensures var v := FromBits(p[i..i + 6]); v < 64 && ArmorAll(p[..i + 6]) == ArmorAll(p[..i]) + [ArmorChar(v)]
  {
    hide FromBits, ArmorAll;
    ArmorStep(p[..i], p[i..i + 6]);
    assert p[..i + 6] == p[..i] + p[i..i + 6];
  }

  lemma SextetsStep(payload: string, c: char)
    ensures Sextets(payload + [c]) ==
            if Sextets(payload).Some? && Sextet(c).Some?
            then Some(Sextets(payload).value + UintBits(Sextet(c).value, 6)) else None
  {
    assert (payload + [c])[..|payload|] == payload;
  }

  lemma SextetBits(v: nat)
    requires v < 64
    ensures FromBits(UintBits(v, 6)) == v
  {
    hide FromBits, UintBits;
    FromUintBits(v, 6);
    assert Pow2(6) == 64;
    ModUnique(64, 0, v);
  }

  lemma {:induction false} SextetsArmorAll(p: seq<bool>)
    requires |p| % 6 == 0
    ensures Sextets(ArmorAll(p)) == Some(p) && 6 * |ArmorAll(p)| == |p|
    ensures AllArmor(ArmorAll(p))
  {
    if p != [] {
      var init, last := p[..|p| - 6], p[|p| - 6..];
      assert p == init + last;
      SextetsArmorAll(init);
      ArmorStep(init, last);
      ArmorCharSextet(FromBits(last));
      UintFromBits(last);
      SextetsStep(ArmorAll(init), ArmorChar(FromBits(last)));
    }
  }

  /** De-armoring what the accumulator armored restores every bit and the length. */
  lemma DearmorArmored(b: seq<bool>)
    ensures var (payload, fill) := Armored(b);
            && Dearmored(payload, fill) == Ok(b) && fill <= 5 && 6 * |payload| == |b| + fill
            && AllArmor(payload)
  {
    SextetsArmorAll(Padded(b));
    assert Padded(b)[..|b|] == b;
  }

  lemma LastEqual(a: string, c: char, b: string, d: char)
    requires |a| == |b|
    ensures a + [c] == b + [d] <==> a == b && c == d
  {
    assert (a + [c])[|a|] == c && (b + [d])[|b|] == d;
    assert (a + [c])[..|a|] == a && (b + [d])[..|b|] == b;
  }

  lemma {:induction false} ArmorAllLength(p: seq<bool>)
    requires |p| % 6 == 0
    ensures 6 * |ArmorAll(p)| == |p|
  {
    if p != [] { ArmorAllLength(p[..|p| - 6]); }
  }

  /** One more character keeps the payload canonical exactly when it is canonical itself. */
  lemma ArmorSextetStep(init: string, c: char)
    requires Sextets(init).Some? && Sextets(init + [c]).Some?
    requires ArmorAll(Sextets(init).value) == init <==> AllArmor(init)
    ensures ArmorAll(Sextets(init + [c]).value) == init + [c] <==> AllArmor(init) && IsArmor(c)
  {
    hide ArmorAll;
    hide Sextets;
    hide UintBits;
    hide FromBits;
    SextetsStep(init, c);
    var bits, v := Sextets(init).value, Sextet(c).value;
    SextetBits(v);
    ArmorStep(bits, UintBits(v, 6));
    ArmorAllLength(bits);
    LastEqual(ArmorAll(bits), ArmorChar(v), init, c);
  }

  lemma {:induction false} ArmorAllSextets(payload: string)
    requires Sextets(payload).Some?
    ensures ArmorAll(Sextets(payload).value) == payload <==> AllArmor(payload)
  {
    if payload != "" {
      var init, c := payload[..|payload| - 1], payload[|payload| - 1];
      assert payload == init + [c];
      SextetsStep(init, c);
      ArmorAllSextets(init);
      ArmorSextetStep(init, c);
    }
  }

  /** Armoring is the inverse on exactly the payloads that use no alias and whose fill bits are 0. */
  lemma ArmoredDearmor(payload: string, fill: nat, b: seq<bool>)
    requires Dearmored(payload, fill) == Ok(b)
    ensures Armored(b) == (payload, fill) <==>
            AllArmor(payload) && Sextets(payload).value[|b|..] == Zeros(fill)
  {
    var all := Sextets(payload).value;
    assert Fill(|b|) == fill;
    ArmorAllSextets(payload);
    if Armored(b) == (payload, fill) {
      SextetsArmorAll(Padded(b));
      assert Padded(b)[|b|..] == Zeros(fill);
    }
    if all[|b|..] == Zeros(fill) {
      assert Padded(b) == all;
    }
  }

  // ------------------------------------------------------------- accumulator

  /** Every bit from `n` on is 0. */
  ghost predicate ZeroFrom(b: seq<bv8>, n: nat) {
    forall pos: nat | n <= pos < 8 * |b| :: !TestBit(b, pos)
  }

  /** A buffer of exactly the bytes `n` bits need, whose unused bits are 0. */
  ghost predicate CleanTail(b: seq<bv8>, n: nat) {
    |b| == (n + 7) / 8 && ZeroFrom(b, n)
  }

  function Grown(b: seq<bv8>, n: nat): seq<bv8> {
    if n % 8 == 0 then b + [0] else b
  }

  lemma GrownIsClean(b: seq<bv8>, n: nat)
    requires CleanTail(b, n)
    ensures |Grown(b, n)| == n / 8 + 1
    ensures ZeroFrom(Grown(b, n), n)
    ensures BitsOf(Grown(b, n), n) == BitsOf(b, n)
  {
    forall pos: nat | pos < 8 * |Grown(b, n)|
      ensures if pos < 8 * |b| then TestBit(Grown(b, n), pos) == TestBit(b, pos) else !TestBit(Grown(b, n), pos)
    {
      assert pos < 8 * |b| <==> pos / 8 < |b|;
    }
    BitsOfFrame(b, Grown(b, n), n);
  }

  lemma SetBitPushes(g: seq<bv8>, n: nat)
    requires n < 8 * |g| && ZeroFrom(g, n)
    ensures ZeroFrom(SetBit(g, n), n + 1) && BitsOf(SetBit(g, n), n + 1) == BitsOf(g, n) + [true]
    ensures ZeroFrom(g, n + 1) && BitsOf(g, n + 1) == BitsOf(g, n) + [false]
  {
    forall pos: nat | pos < 8 * |g|
      ensures TestBit(SetBit(g, n), pos) <==> pos == n || TestBit(g, pos)
    {
      SetBitTests(g, n, pos);
    }
    BitsOfFrame(g, SetBit(g, n), n);
  }

  class BitsMut {
    var b: seq<bv8>
    var n: nat

    ghost predicate Valid()
      reads this
    {
      CleanTail(b, n)
    }

    ghost function Contents(): seq<bool>
      requires Valid()
      reads this
    {
      BitsOf(b, n)
    }

    constructor ()
      ensures Valid() && Contents() == []
    {
      b, n := [], 0;
    }

    method PushBit(bit: bool)
      requires Valid()
      modifies this
      ensures Valid() && Contents() == old(Contents()) + [bit]
    {
      GrownIsClean(b, n);
      SetBitPushes(Grown(b, n), n);
      if n % 8 == 0 {
        b := b + [0];
      }
      if bit {
        b := SetBit(b, n);
      }
      n := n + 1;
    }

    method PushUint(v: nat, len: nat)
      requires Valid() && len <= 64
      modifies this
      ensures Valid() && Contents() == old(Contents()) + UintBits(v, len)
    {
      var i := len;
      assert UintBits(Shr(v, len), 0) == [];
      while i > 0
        invariant 0 <= i <= len && Valid()
        invariant Contents() == old(Contents()) + UintBits(Shr(v, i), len - i)
      {
        i := i - 1;
        PushBit(Shr(v, i) % 2 == 1);
      }
    }

    /** `v as u64` masked to `len` bits is `v` modulo 2^len. */
    method PushInt(v: int, len: nat)
      requires Valid() && len < 64
      modifies this
      ensures Valid() && Contents() == old(Contents()) + IntBits(v, len)
    {
      PushUint(v % Pow2(len), len);
    }

    method PushBool(v: bool)
      requires Valid()
      modifies this
      ensures Valid() && Contents() == old(Contents()) + [v]
    {
      PushUint(if v then 1 else 0, 1);
      assert UintBits(if v then 1 else 0, 1) == [v];
    }

    /** Six bits from `i` on as a number, reading 0 past the end. */
    method ReadSix(i: nat) returns (v: nat)
      requires Valid() && i + 6 <= |Padded(Contents())|
      ensures v == FromBits(Padded(Contents())[i..i + 6])
    {
      ghost var p := Padded(Contents());
      hide FromBits, Padded;
      NoBits(p, i);
      v := 0;
      for j := 0 to 6
        invariant v == FromBits(p[i..i + j])
      {
        OneMoreBit(p, i, j);
        PaddedBit(Contents(), i + j);
        v := 2 * v;
        if i + j < n && TestBit(b, i + j) {
          v := v + 1;
        }
      }
    }

    method ToPayload() returns (payload: string, fill: nat)
      requires Valid()
      ensures (payload, fill) == Armored(Contents())
    {
      hide BitsOf, FromBits, ArmorAll, Padded, ArmorChar, Fill;
      fill := Fill(n);
      ghost var p := Padded(Contents());
      PaddedLength(Contents());
      payload := "";
      EmptyArmor();
      assert p[..0] == [];
      var i := 0;
      while i < n + fill
        invariant 0 <= i <= |p| && i % 6 == 0 && payload == ArmorAll(p[..i])
      {
        NextSextet(i, |p|);
        var v := ReadSix(i);
        ArmorNext(p, i);
        payload := payload + [ArmorChar(v)];
        i := i + 6;
      }
      assert p[..i] == p;
    }
  }

  // ------------------------------------------------------------------ stream

  /** A de-armored bit stream of `n` valid bits. */
  datatype Bits = Bits(b: seq<bv8>, n: nat) {
    ghost predicate Valid() {
      n <= 8 * |b|
    }

    ghost function Contents(): seq<bool>
      requires Valid()
    {
      BitsOf(b, n)
    }
  }

  lemma {:induction false} SextetsNeedsEach(payload: string, i: nat)
    requires i < |payload| && Sextet(payload[i]) == None
    ensures Sextets(payload) == None
  {
    if i < |payload| - 1 { SextetsNeedsEach(payload[..|payload| - 1], i); }
  }

  lemma {:induction false} SextetsIff(payload: string)
    ensures Sextets(payload).Some? <==> forall i | 0 <= i < |payload| :: 48 <= payload[i] as int <= 119
  {
    if payload != "" {
      var init := payload[..|payload| - 1];
      SextetsIff(init);
      assert forall i | 0 <= i < |init| :: init[i] == payload[i];
    }
  }

  /** The payloads that are accepted: characters from 48 to 119, the gap included, and at most 5 fill bits,
      none for an empty payload. */
  lemma DearmoredIff(payload: string, fill: nat)
    ensures Dearmored(payload, fill).Ok? <==>
            && (forall i | 0 <= i < |payload| :: 48 <= payload[i] as int <= 119)
            && fill <= (if payload == "" then 0 else 5)
    ensures Dearmored(payload, fill).Ok? ==> |Dearmored(payload, fill).value| == 6 * |payload| - fill
  {
    SextetsIff(payload);
  }

  lemma UintBitsShift(v: nat, j: nat)
    requires j < 6
    ensures UintBits(Shr(v, 6 - (j + 1)), j + 1) == UintBits(Shr(v, 6 - j), j) + [Shr(v, 5 - j) % 2 == 1]
  {}

  /** OR the six bits of `v` into a buffer that is 0 from `off` on. */
  method OrSextet(b0: seq<bv8>, off: nat, v: nat) returns (b: seq<bv8>)
    requires off + 6 <= 8 * |b0| && ZeroFrom(b0, off) && v < 64
    ensures |b| == |b0| && ZeroFrom(b, off + 6)
    ensures BitsOf(b, off + 6) == BitsOf(b0, off) + UintBits(v, 6)
  {
    hide BitsOf;
    hide ZeroFrom;
    b := b0;
    assert UintBits(Shr(v, 6), 0) == [];
    for j := 0 to 6
      invariant |b| == |b0| && ZeroFrom(b, off + j)
      invariant BitsOf(b, off + j) == BitsOf(b0, off) + UintBits(Shr(v, 6 - j), j)
    {
      SetBitPushes(b, off + j);
      UintBitsShift(v, j);
      if Shr(v, 5 - j) % 2 == 1 {
        b := SetBit(b, off + j);
      }
    }
  }

  lemma BitsOfPrefix(b: seq<bv8>, m: nat, n: nat)
    requires m <= n <= 8 * |b|
    ensures BitsOf(b, m) == BitsOf(b, n)[..m]
  {}

  lemma ZeroBytes(k: nat)
    ensures ZeroFrom(seq(k, _ => 0), 0)
  {}

  lemma NoSextets(payload: string)
    ensures Sextets(payload[..0]) == Some([])
  {}

  method FromPayload(payload: string, fill: nat) returns (r: Result<Bits, DecodeError>)
    ensures r.Ok? ==> r.value.Valid() && Dearmored(payload, fill) == Ok(r.value.Contents())
    ensures r.Err? ==> Dearmored(payload, fill) == Err(r.error)
  {
    hide BitsOf, ZeroFrom, Sextets, UintBits;
    if fill > 5 {
      return Err(Armoring);
    }
    var b: seq<bv8> := seq((|payload| * 6 + 7) / 8, _ => 0);
    ZeroBytes(|b|);
    NoSextets(payload);
    for i := 0 to |payload|
      invariant |b| == (|payload| * 6 + 7) / 8 && ZeroFrom(b, 6 * i)
      invariant Sextets(payload[..i]) == Some(BitsOf(b, 6 * i))
    {
      var v := payload[i] as int - 48;
      if v > 40 {
        v := v - 8;
      }
      if !(0 <= v <= 63) {
        SextetsNeedsEach(payload, i);
        return Err(Armoring);
      }
      assert payload[..i + 1] == payload[..i] + [payload[i]];
      SextetsStep(payload[..i], payload[i]);
      b := OrSextet(b, 6 * i, v);
    }
    assert payload[..|payload|] == payload;
    var total := |payload| * 6;
    if fill > total {
      return Err(Armoring);
    }
    BitsOfPrefix(b, total - fill, total);
    return Ok(Bits(b, total - fill));
  }

  method ReadUint(bs: Bits, start: nat, len: nat) returns (v: nat)
    requires bs.Valid()
    ensures v == UInt(bs.Contents(), start, len)
  {
    hide FromBits, BitsOf, TestBit;
    if len == 0 || len > 64 || start + len > bs.n {
      return 0;
    }
    ghost var s := bs.Contents();
    NoBits(s, start);
    v := 0;
    for i := start to start + len
      invariant v == FromBits(s[start..i])
    {
      OneMoreBit(s, start, i - start);
      v := 2 * v;
      if TestBit(bs.b, i) {
        v := v + 1;
      }
    }
  }

  method ReadInt(bs: Bits, start: nat, len: nat) returns (v: int)
    requires bs.Valid()
    ensures v == Int(bs.Contents(), start, len)
  {
    hide UInt, Pow2, Shr, UintBits, FromBits, OrBits;
    var u := ReadUint(bs, start, len);
    UIntBound(bs.Contents(), start, len);
    if 0 < len < 64 { SignBit(u, len); }
    if 0 < len < 64 && Shr(u, len - 1) % 2 == 1 {
      var word := OrBits(UintBits(u, 64), seq(64, i => i < 64 - len));
      SignExtended(u, len, 64);
      v := Signed(FromBits(word), 64);
    } else {
      v := Signed(u, 64);
      if len < 64 { Pow2Monotone(len, 63); }
      if len > 64 { UIntZero(bs.Contents(), start, len); }
      Pow2Positive(len);
    }
  }
}
