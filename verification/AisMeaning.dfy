/** What a decoded message says, told from its bits, and how close an encoded quantity comes to the one
    it was made from. */
module AisMeaning {
  import opened Prelude
  import opened BitSeq
  import opened SixBit
  import opened AisTypes
  import opened AisCodec
  import opened AisRoundTrip
  import AisFixpoint

  // ------------------------------------------------------- acceptance and identity

  /** The layout a message id stands for. */
  predicate LayoutOf(p: Packet, id: nat) {
    && (p.PositionReport? <==> id == 1 || id == 2 || id == 3)
    && (p.BaseStationReport? <==> id == 4 || id == 11)
    && (p.ShipStaticData? <==> id == 5)
    && (p.SarAircraft? <==> id == 9)
    && (p.StandardClassB? <==> id == 18)
    && (p.ExtendedClassB? <==> id == 19)
    && (p.AidsToNavigation? <==> id == 21)
    && (p.StaticData? <==> id == 24)
    && (p.LongRange? <==> id == 27)
  }

  /** The bits after which a message of each type holds all its fixed fields; a type 5 may lack its last
      four, and part B of a type 24 is longer than part A. */
  function Length(id: nat, part: nat): nat {
    match id
    case 1 => 168
    case 2 => 168
    case 3 => 168
    case 4 => 168
    case 5 => 420
    case 9 => 168
    case 11 => 168
    case 18 => 168
    case 19 => 312
    case 21 => 272
    case 24 => if part == 1 then 168 else 160
    case 27 => 96
    case _ => 38
  }

  /** A stream is accepted exactly when it is long enough for its type, whatever the type. The message
      has the id, the MMSI and the repeat indicator of the first 38 bits and the layout of its type; a type
      without a layout keeps its header and its length. */
  lemma AcceptedMessages(b: seq<bool>)
    ensures DecodeBits(b).Ok? <==> |b| >= 38 && |b| >= Length(UInt(b, 0, 6), UInt(b, 38, 2))
    ensures DecodeBits(b).Ok? ==>
              var m := DecodeBits(b).value;
              && m.id == UInt(b, 0, 6) && m.mmsi == UInt(b, 8, 30)
              && m.packet.header == Header(UInt(b, 0, 6), UInt(b, 6, 2), UInt(b, 8, 30), true)
              && LayoutOf(m.packet, m.id)
              && (m.packet.Unknown? ==> m.packet.numBits == |b|)
  {
    hide UInt, Int, Bit, Str, Tenths, FromFine, FromCoarse, ReadDimension;
  }

  /** A refusal names the stream's length and the first length it fell short of. */
  lemma RefusedMessages(b: seq<bool>)
    ensures DecodeBits(b).Err? ==>
              var (id, e) := (UInt(b, 0, 6), DecodeBits(b).error);
              e.TooShort? && e.bits == |b| &&
              if |b| < 38 then e.need == 38
              else e.need == if |b| < Length(id, 0) then Length(id, 0) else Length(id, 1)
  {
    hide UInt, Describe, ReadPacket;
  }

  // ---------------------------------------------------------------- routing facts

  /** Where the longitude starts, of the types that carry a position; the latitude follows it. */
  function LongitudeAt(id: nat): Option<nat> {
    match id
    case 1 => Some(61)
    case 2 => Some(61)
    case 3 => Some(61)
    case 9 => Some(61)
    case 4 => Some(79)
    case 11 => Some(79)
    case 18 => Some(57)
    case 19 => Some(57)
    case 21 => Some(164)
    case 27 => Some(44)
    case _ => None
  }

  lemma FinePosition(lat: int, lon: int)
    ensures ValidPosition(FromFine(lat), FromFine(lon)) ==
            if -54_000_000 <= lat <= 54_000_000 && -108_000_000 <= lon <= 108_000_000
            then Some((lat as real / 600_000.0, lon as real / 600_000.0)) else None
  {}

  lemma CoarsePosition(lat: int, lon: int)
    ensures ValidPosition(FromCoarse(lat), FromCoarse(lon)) ==
            if -54_000 <= lat <= 54_000 && -108_000 <= lon <= 108_000
            then Some((lat as real / 600.0, lon as real / 600.0)) else None
  {}

  /** A message's position is the one its bits give in 1/10000 minutes, in 1/10 minutes for type 27, when
      that lies on the earth. */
  lemma PositionOfTheBits(b: seq<bool>)
    requires DecodeBits(b).Ok?
    ensures DecodeBits(b).value.position ==
            match LongitudeAt(UInt(b, 0, 6))
            case None => None
            case Some(at) =>
              if UInt(b, 0, 6) == 27 then
                var (lon, lat) := (Int(b, at, 18), Int(b, at + 18, 17));
                if -54_000 <= lat <= 54_000 && -108_000 <= lon <= 108_000
                then Some((lat as real / 600.0, lon as real / 600.0)) else None
              else
                var (lon, lat) := (Int(b, at, 28), Int(b, at + 28, 27));
                if -54_000_000 <= lat <= 54_000_000 && -108_000_000 <= lon <= 108_000_000
                then Some((lat as real / 600_000.0, lon as real / 600_000.0)) else None
  {
    hide UInt, Int, Bit, Str, Tenths, FromFine, FromCoarse, ReadDimension, ReadHeader, ValidPosition;
    var id := UInt(b, 0, 6);
    if id == 27 {
      CoarsePosition(Int(b, 62, 17), Int(b, 44, 18));
    } else if at :| LongitudeAt(id) == Some(at) {
      FinePosition(Int(b, at + 28, 27), Int(b, at, 28));
    }
  }

  /** Ship types come with types 5, 19 and part B of 24, a nonzero IMO number with type 5, and a name that
      is not blank with types 5, 19, 21 and part A of 24. */
  lemma ParticularsOfTheBits(b: seq<bool>)
    requires DecodeBits(b).Ok?
    ensures var (m, id, part) := (DecodeBits(b).value, UInt(b, 0, 6), UInt(b, 38, 2));
            && m.shipType == (if id == 5 then Some(UInt(b, 232, 8)) else if id == 19 then Some(UInt(b, 263, 8))
                              else if id == 24 && part == 1 then Some(UInt(b, 40, 8)) else None)
            && m.imo == (if id == 5 && UInt(b, 40, 30) != 0 then Some(UInt(b, 40, 30)) else None)
            && m.name == NonEmpty(if id == 5 then Str(b, 112, 120) else if id == 19 then Str(b, 143, 120)
                                  else if id == 21 then Str(b, 43, 120)
                                  else if id == 24 && part == 0 then Str(b, 40, 120) else "")
  {
    hide UInt, Int, Bit, Str, Tenths, FromFine, FromCoarse, ReadDimension, ReadHeader, ValidPosition;
  }

  // ------------------------------------------------------------------- rounding

  /** The nearest whole number, and of two equally near the one further from zero. */
  lemma RoundIsNearest(x: real)
    ensures -0.5 <= Round(x) as real - x <= 0.5
    ensures Round(x) as real - x == 0.5 ==> x > 0.0
    ensures Round(x) as real - x == -0.5 ==> x < 0.0
  {}

  /** A quantity whose tenths fit the field is sent to the nearest tenth. */
  lemma TenthsAreClose(x: real, w: nat)
    requires 0.0 <= x && 0 < w <= 12 && Round(x * 10.0) < Pow2(w)
    ensures -0.05 <= CleanTenths(x, w) - x <= 0.05
  {
    hide Pow2, Low;
    AisFixpoint.WidestField(w);
    RoundIsNearest(x * 10.0);
    LowFits(Round(x * 10.0), w);
  }

  lemma UnitsAreClose(x: real, w: nat)
    requires 0.0 <= x && 0 < w <= 12 && Round(x) < Pow2(w)
    ensures -0.5 <= Low(RoundU64(x), w) as real - x <= 0.5
  {
    hide Pow2, Low;
    AisFixpoint.WidestField(w);
    RoundIsNearest(x);
    LowFits(Round(x), w);
  }

  /** A coordinate that fits its field is sent to the nearest 1/10000 minute, or 1/10 minute. */
  lemma FineIsClose(x: real, w: nat)
    requires 0 < w <= 28 && FitsSigned(Round(x * 600_000.0), w)
    ensures -1.0 <= 1_200_000.0 * (CleanFine(x, w) - x) <= 1.0
    ensures CleanFine(x, w) == Round(x * 600_000.0) as real / 600_000.0
  {
    hide Pow2, Low;
    AisFixpoint.WidestField(w);
    RoundIsNearest(x * 600_000.0);
    assert x * 60.0 * 10000.0 == x * 600_000.0;
    WrapSignedIdentity(Round(x * 600_000.0), w);
  }

  lemma CoarseIsClose(x: real, w: nat)
    requires 0 < w <= 28 && FitsSigned(Round(x * 600.0), w)
    ensures -1.0 <= 1_200.0 * (CleanCoarse(x, w) - x) <= 1.0
    ensures CleanCoarse(x, w) == Round(x * 600.0) as real / 600.0
  {
    hide Pow2, Low;
    AisFixpoint.WidestField(w);
    RoundIsNearest(x * 600.0);
    assert x * 60.0 * 10.0 == x * 600.0;
    WrapSignedIdentity(Round(x * 600.0), w);
  }

  lemma Powers()
    ensures Pow2(6) == 64 && Pow2(9) == 512 && Pow2(10) == 1024 && Pow2(12) == 4096
    ensures Pow2(16) == 65_536 && Pow2(17) == 131_072 && Pow2(18) == 262_144
    ensures Pow2(26) == 67_108_864 && Pow2(27) == 134_217_728 && Pow2(28) == 268_435_456
  {
    hide Pow2;
    AisFixpoint.Pow2Zero();
    AisFixpoint.Pow2Four(0); AisFixpoint.Pow2Four(4); AisFixpoint.Pow2Four(8); AisFixpoint.Pow2Four(12);
    AisFixpoint.Pow2Four(16); AisFixpoint.Pow2Four(20); AisFixpoint.Pow2Four(24);
    OneMore();
  }

  lemma OneMore()
    ensures Pow2(6) == 4 * Pow2(4) && Pow2(9) == 2 * Pow2(8) && Pow2(10) == 4 * Pow2(8)
    ensures Pow2(17) == 2 * Pow2(16) && Pow2(18) == 4 * Pow2(16)
    ensures Pow2(26) == 4 * Pow2(24) && Pow2(27) == 8 * Pow2(24)
  {
    assert Pow2(5) == 2 * Pow2(4) && Pow2(25) == 2 * Pow2(24);
  }

  /** A place on the earth is sent as a place on the earth, no further off than half a step. */
  lemma FinePlace(lat: real, lon: real)
    requires ValidPosition(lat, lon).Some?
    ensures var (y, x) := (CleanFine(lat, 27), CleanFine(lon, 28));
            && ValidPosition(y, x) == Some((y, x))
            && -1.0 <= 1_200_000.0 * (y - lat) <= 1.0 && -1.0 <= 1_200_000.0 * (x - lon) <= 1.0
  {
    hide Pow2, CleanFine;
    Powers();
    assert -54_000_000 <= Round(lat * 600_000.0) <= 54_000_000;
    assert -108_000_000 <= Round(lon * 600_000.0) <= 108_000_000;
    FineIsClose(lat, 27);
    FineIsClose(lon, 28);
  }

  lemma CoarsePlace(lat: real, lon: real)
    requires ValidPosition(lat, lon).Some?
    ensures var (y, x) := (CleanCoarse(lat, 17), CleanCoarse(lon, 18));
            && ValidPosition(y, x) == Some((y, x))
            && -1.0 <= 1_200.0 * (y - lat) <= 1.0 && -1.0 <= 1_200.0 * (x - lon) <= 1.0
  {
    hide Pow2, CleanCoarse;
    Powers();
    assert -54_000 <= Round(lat * 600.0) <= 54_000;
    assert -108_000 <= Round(lon * 600.0) <= 108_000;
    CoarseIsClose(lat, 17);
    CoarseIsClose(lon, 18);
  }

  /** Every packet with a position keeps one: the decoded message lies within half of 1/10000 minute of
      it, or of 1/10 minute for type 27. */
  lemma PositionSurvives(p: Packet)
    requires WellTagged(p) && Describe(p).position.Some?
    ensures var (payload, fill) := Encoded(p).value;
            var (sent, got) := (Describe(p).position.value, Decode(payload, fill));
            && got.Ok? && got.value.position.Some?
            && (var at, k := got.value.position.value, if p.LongRange? then 1_200.0 else 1_200_000.0;
                -1.0 <= k * (at.0 - sent.0) <= 1.0 && -1.0 <= k * (at.1 - sent.1) <= 1.0)
  {
    PayloadRoundTrip(p);
    hide Encoded, Decode, CleanFine, CleanCoarse, CleanTenths, CleanHeader, Clean, Low, ValidPosition, RoundU64;
    if p.LongRange? {
      CoarsePlace(p.latitude, p.longitude);
    } else {
      FinePlace(p.latitude, p.longitude);
    }
  }

  /** Speeds and courses within their scale come back to the nearest tenth, to the nearest whole one for
      type 27. */
  lemma MotionSurvives(p: Packet)
    ensures p.PositionReport? || p.StandardClassB? || p.ExtendedClassB? ==>
              && (0.0 <= p.sog <= 102.3 ==> -0.05 <= Normalize(p).sog - p.sog <= 0.05)
              && (0.0 <= p.cog <= 409.5 ==> -0.05 <= Normalize(p).cog - p.cog <= 0.05)
    ensures p.SarAircraft? && 0.0 <= p.cog <= 409.5 ==> -0.05 <= Normalize(p).cog - p.cog <= 0.05
    ensures p.LongRange? ==>
              && (0.0 <= p.sog <= 63.0 ==> -0.5 <= Normalize(p).sog - p.sog <= 0.5)
              && (0.0 <= p.cog <= 511.0 ==> -0.5 <= Normalize(p).cog - p.cog <= 0.5)
  {
    Powers();
    if p.PositionReport? || p.StandardClassB? || p.ExtendedClassB? || p.SarAircraft? {
      hide Pow2, Low, Clean, CleanTenths, CleanFine, CleanHeader;
      if !p.SarAircraft? && 0.0 <= p.sog <= 102.3 { TenthsAreClose(p.sog, 10); }
      if 0.0 <= p.cog <= 409.5 { TenthsAreClose(p.cog, 12); }
    } else if p.LongRange? {
      hide Pow2, Low, Clean, CleanCoarse, CleanHeader, RoundU64;
      if 0.0 <= p.sog <= 63.0 { UnitsAreClose(p.sog, 6); }
      if 0.0 <= p.cog <= 511.0 { UnitsAreClose(p.cog, 9); }
    }
  }

  lemma U64IsNearest(x: real, n: nat)
    requires n <= 0xFFFF_FFFF_FFFF_FFFF
    ensures RoundU64(x) <= 0xFFFF_FFFF_FFFF_FFFF && Gap(RoundU64(x), x) <= Gap(n, x)
  {
    RoundIsNearest(x);
    hide Round;
    Apart(n, Round(x));
  }

  /** Both conversions give a nearest value of the integer type, saturating at its ends. */
  lemma I64IsNearest(x: real, n: int)
    requires -0x8000_0000_0000_0000 <= n <= 0x7FFF_FFFF_FFFF_FFFF
    ensures -0x8000_0000_0000_0000 <= RoundI64(x) <= 0x7FFF_FFFF_FFFF_FFFF && Gap(RoundI64(x), x) <= Gap(n, x)
  {
    RoundIsNearest(x);
    hide Round;
    Apart(n, Round(x));
  }

  lemma Apart(m: int, n: int)
    ensures m < n ==> m as real + 1.0 <= n as real
    ensures m > n ==> m as real - 1.0 >= n as real
  {}

  function Gap(n: int, x: real): real {
    if n as real >= x then n as real - x else x - n as real
  }
}
