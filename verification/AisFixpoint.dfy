/** Which packets survive the air unchanged, and when re-encoding a decoded message is a fixpoint. */
module AisFixpoint {
  import opened Prelude
  import opened BitSeq
  import opened BitBuffer
  import opened SixBit
  import opened Layout
  import opened AisTypes
  import opened AisCodec
  import opened AisRoundTrip

  // ---------------------------------------------------------- representable values

  predicate Fits(v: nat, w: nat) { v < Pow2(w) }

  /** A whole number of tenths that fits `w` bits. */
  predicate OnTenths(x: real, w: nat) {
    Whole(x * 10.0) && 0.0 <= x && (x * 10.0).Floor < Pow2(w)
  }

  predicate OnUnits(x: real, w: nat) {
    Whole(x) && 0.0 <= x && x.Floor < Pow2(w)
  }

  /** A whole number of 1/10000 minutes that fits `w` bits. */
  predicate OnFine(x: real, w: nat) {
    Whole(x * 600000.0) && FitsSigned((x * 600000.0).Floor, w)
  }

  predicate OnCoarse(x: real, w: nat) {
    Whole(x * 600.0) && FitsSigned((x * 600.0).Floor, w)
  }

  predicate HeaderFits(h: Header) {
    Fits(h.messageId, 6) && Fits(h.repeatIndicator, 2) && Fits(h.userId, 30) && h.valid
  }

  predicate DimensionFits(d: Dimension) {
    Fits(d.a, 9) && Fits(d.b, 9) && Fits(d.c, 6) && Fits(d.d, 6)
  }

  predicate ReportBFits(b: StaticReportB) {
    && b.valid && Fits(b.shipType, 8) && Canonical(b.vendorIdName, 3) && Fits(b.venderIdModel, 4)
    && Fits(b.venderIdSerial, 20) && Canonical(b.callSign, 7) && DimensionFits(b.dimension) && b.fixType == 0
    && Fits(b.spare, 6)
  }

  /** Every number within its width, every quantity on its grid, every string canonical, and
      nothing present that the message does not carry. */
  predicate InRange(p: Packet) {
    HeaderFits(p.header) &&
    match p
    case PositionReport(_, ns, rot, sog, _, lon, lat, cog, hdg, ts, man, spare, _, cs) =>
      && Fits(ns, 4) && FitsSigned(rot, 8) && OnTenths(sog, 10) && OnFine(lon, 28) && OnFine(lat, 27)
      && OnTenths(cog, 12) && Fits(hdg, 9) && Fits(ts, 6) && Fits(man, 2) && Fits(spare, 3) && Fits(cs, 19)
    case BaseStationReport(_, yy, mo, dd, hh, mi, ss, _, lon, lat, fix, spare, _, cs) =>
      && Fits(yy, 14) && Fits(mo, 4) && Fits(dd, 5) && Fits(hh, 5) && Fits(mi, 6) && Fits(ss, 6)
      && OnFine(lon, 28) && OnFine(lat, 27) && Fits(fix, 4) && Fits(spare, 10) && Fits(cs, 19)
    case ShipStaticData(_, ver, imo, call, name, ty, dim, fix, eta, draught, dest, _, _) =>
      && Fits(ver, 2) && Fits(imo, 30) && Canonical(call, 7) && Canonical(name, 20) && Fits(ty, 8)
      && DimensionFits(dim) && Fits(fix, 4) && Fits(eta.month, 4) && Fits(eta.day, 5) && Fits(eta.hour, 5)
      && Fits(eta.minute, 6) && OnTenths(draught, 8) && Canonical(dest, 20)
    case SarAircraft(_, alt, speed, _, lon, lat, cog, ts, _, _, _, _, cs) =>
      && Fits(alt, 12) && Fits(speed, 10) && OnFine(lon, 28) && OnFine(lat, 27) && OnTenths(cog, 12)
      && Fits(ts, 6) && Fits(cs, 20)
    case StandardClassB(_, sog, _, lon, lat, cog, hdg, ts, _, _, _, _, _, _, _, _, cs) =>
      && OnTenths(sog, 10) && OnFine(lon, 28) && OnFine(lat, 27) && OnTenths(cog, 12) && Fits(hdg, 9)
      && Fits(ts, 6) && Fits(cs, 19)
    case ExtendedClassB(_, sog, _, lon, lat, cog, hdg, ts, name, ty, dim, fix, _, _, _) =>
      && OnTenths(sog, 10) && OnFine(lon, 28) && OnFine(lat, 27) && OnTenths(cog, 12) && Fits(hdg, 9)
      && Fits(ts, 6) && Canonical(name, 20) && Fits(ty, 8) && DimensionFits(dim) && Fits(fix, 4)
    case AidsToNavigation(_, ty, name, _, lon, lat, dim, fix, ts, _, st, _, _, _, ext) =>
      && Fits(ty, 5) && Canonical(name, 20) && OnFine(lon, 28) && OnFine(lat, 27) && DimensionFits(dim)
      && Fits(fix, 4) && Fits(ts, 6) && Fits(st, 8) && ext == ""
    case StaticData(_, part, reserved, a, b) =>
      && reserved == 0
      && (if part then a == NO_REPORT_A && ReportBFits(b)
          else a.valid && Canonical(a.name, 20) && b == NO_REPORT_B)
    case LongRange(_, _, _, ns, lon, lat, sog, cog, _, _) =>
      && Fits(ns, 4) && OnCoarse(lon, 18) && OnCoarse(lat, 17) && OnUnits(sog, 6) && OnUnits(cog, 9)
    case Unknown(_, _) => true
  }

  // ------------------------------------------------------ fixed points of cleaning

  lemma LowFixed(v: nat, w: nat)
    ensures Low(v, w) == v <==> Fits(v, w)
  {
    if Fits(v, w) { LowFits(v, w); }
  }

  lemma WrapFixed(i: int, w: nat)
    requires w > 0
    ensures WrapSigned(i, w) == i <==> FitsSigned(i, w)
  {
    if FitsSigned(i, w) { WrapSignedIdentity(i, w); }
    SignedFits(Low(i, w), w);
  }

  lemma RoundWhole(x: real)
    requires Whole(x)
    ensures Round(x) == x.Floor
  {}

  lemma RoundU64Fixed(x: real, w: nat)
    requires w <= 12
    ensures Low(RoundU64(x), w) as real == x <==> OnUnits(x, w)
  {
    Pow2Monotone(w, 12);
    assert Pow2(12) == 4096;
    if OnUnits(x, w) {
      RoundWhole(x);
      LowFits(x.Floor, w);
    }
  }

  lemma TenthsFixed(x: real, w: nat)
    requires w <= 12
    ensures CleanTenths(x, w) == x <==> OnTenths(x, w)
  {
    RoundU64Fixed(x * 10.0, w);
  }

  lemma Pow2Four(n: nat)
    ensures Pow2(n + 4) == 16 * Pow2(n)
  {
    assert Pow2(n + 4) == 2 * Pow2(n + 3) && Pow2(n + 3) == 2 * Pow2(n + 2) && Pow2(n + 2) == 2 * Pow2(n + 1);
  }

  lemma Pow2Zero()
    ensures Pow2(0) == 1
  {}

  lemma WidestField(w: nat)
    requires w <= 28
    ensures Pow2(w) <= 0x1000_0000
  {
    hide Pow2;
    Pow2Zero();
    Pow2Four(0); Pow2Four(4); Pow2Four(8); Pow2Four(12); Pow2Four(16); Pow2Four(20); Pow2Four(24);
    Pow2Monotone(w, 28);
  }

  lemma RoundI64Fixed(x: real, w: nat)
    requires 0 < w <= 28
    ensures WrapSigned(RoundI64(x), w) as real == x <==> Whole(x) && FitsSigned(x.Floor, w)
  {
    hide Pow2, Low;
    WidestField(w);
    SignedFits(Low(RoundI64(x), w), w);
    if Whole(x) && FitsSigned(x.Floor, w) {
      RoundWhole(x);
      WrapSignedIdentity(x.Floor, w);
    }
  }

  lemma FineFixed(x: real, w: nat)
    requires 0 < w <= 28
    ensures CleanFine(x, w) == x <==> OnFine(x, w)
  {
    RoundI64Fixed(x * 600000.0, w);
    assert x * 60.0 * 10000.0 == x * 600000.0;
  }

  lemma CoarseFixed(x: real, w: nat)
    requires 0 < w <= 28
    ensures CleanCoarse(x, w) == x <==> OnCoarse(x, w)
  {
    RoundI64Fixed(x * 600.0, w);
    assert x * 60.0 * 10.0 == x * 600.0;
  }

  lemma HeaderFixed(h: Header)
    ensures CleanHeader(h) == h <==> HeaderFits(h)
  {
    LowFixed(h.messageId, 6);
    LowFixed(h.repeatIndicator, 2);
    LowFixed(h.userId, 30);
  }

  lemma DimensionFixed(d: Dimension)
    ensures CleanDimension(d) == d <==> DimensionFits(d)
  {
    LowFixed(d.a, 9);
    LowFixed(d.b, 9);
    LowFixed(d.c, 6);
    LowFixed(d.d, 6);
  }

  lemma ReportBFixed(b: StaticReportB)
    ensures CleanReportB(b) == b <==> ReportBFits(b)
  {
    hide Low, Pow2, Clean, Canonical, Fits;
    LowFixed(b.shipType, 8);
    CleanCanonical(b.vendorIdName, 3);
    LowFixed(b.venderIdModel, 4);
    LowFixed(b.venderIdSerial, 20);
    CleanCanonical(b.callSign, 7);
    DimensionFixed(b.dimension);
    LowFixed(b.spare, 6);
  }

  /** A packet comes back unchanged exactly when it is in range. */
  lemma NormalizeFixed(p: Packet)
    ensures !p.Unknown? ==> (Normalize(p) == p <==> InRange(p))
  {
    hide Low, Pow2, Clean, Canonical, Fits, CleanTenths, CleanFine, CleanCoarse, OnTenths, OnFine, OnCoarse, OnUnits,
      WrapSigned, FitsSigned, CleanHeader, HeaderFits, CleanDimension, DimensionFits, CleanReportB, ReportBFits,
      RoundU64;
    HeaderFixed(p.header);
    match p {
      case PositionReport(_, ns, rot, sog, _, lon, lat, cog, hdg, ts, man, spare, _, cs) =>
        LowFixed(ns, 4); WrapFixed(rot, 8); TenthsFixed(sog, 10); FineFixed(lon, 28); FineFixed(lat, 27);
        TenthsFixed(cog, 12); LowFixed(hdg, 9); LowFixed(ts, 6); LowFixed(man, 2); LowFixed(spare, 3); LowFixed(cs, 19);
      case BaseStationReport(_, yy, mo, dd, hh, mi, ss, _, lon, lat, fix, spare, _, cs) =>
        LowFixed(yy, 14); LowFixed(mo, 4); LowFixed(dd, 5); LowFixed(hh, 5); LowFixed(mi, 6); LowFixed(ss, 6);
        FineFixed(lon, 28); FineFixed(lat, 27); LowFixed(fix, 4); LowFixed(spare, 10); LowFixed(cs, 19);
      case ShipStaticData(_, ver, imo, call, name, ty, dim, fix, eta, draught, dest, _, _) =>
        LowFixed(ver, 2); LowFixed(imo, 30); CleanCanonical(call, 7); CleanCanonical(name, 20); LowFixed(ty, 8);
        DimensionFixed(dim); LowFixed(fix, 4); LowFixed(eta.month, 4); LowFixed(eta.day, 5); LowFixed(eta.hour, 5);
        LowFixed(eta.minute, 6); TenthsFixed(draught, 8); CleanCanonical(dest, 20);
      case SarAircraft(_, alt, speed, _, lon, lat, cog, ts, _, _, _, _, cs) =>
        LowFixed(alt, 12); LowFixed(speed, 10); FineFixed(lon, 28); FineFixed(lat, 27); TenthsFixed(cog, 12);
        LowFixed(ts, 6); LowFixed(cs, 20);
      case StandardClassB(_, sog, _, lon, lat, cog, hdg, ts, _, _, _, _, _, _, _, _, cs) =>
        TenthsFixed(sog, 10); FineFixed(lon, 28); FineFixed(lat, 27); TenthsFixed(cog, 12); LowFixed(hdg, 9);
        LowFixed(ts, 6); LowFixed(cs, 19);
      case ExtendedClassB(_, sog, _, lon, lat, cog, hdg, ts, name, ty, dim, fix, _, _, _) =>
        TenthsFixed(sog, 10); FineFixed(lon, 28); FineFixed(lat, 27); TenthsFixed(cog, 12); LowFixed(hdg, 9);
        LowFixed(ts, 6); CleanCanonical(name, 20); LowFixed(ty, 8); DimensionFixed(dim); LowFixed(fix, 4);
      case AidsToNavigation(_, ty, name, _, lon, lat, dim, fix, ts, _, st, _, _, _, _) =>
        LowFixed(ty, 5); CleanCanonical(name, 20); FineFixed(lon, 28); FineFixed(lat, 27); DimensionFixed(dim);
        LowFixed(fix, 4); LowFixed(ts, 6); LowFixed(st, 8);
      case StaticData(_, _, _, a, b) =>
        CleanCanonical(a.name, 20); ReportBFixed(b);
      case LongRange(_, _, _, ns, lon, lat, sog, cog, _, _) =>
        LowFixed(ns, 4); CoarseFixed(lon, 18); CoarseFixed(lat, 17); RoundU64Fixed(sog, 6); RoundU64Fixed(cog, 9);
      case Unknown(_, _) =>
    }
  }

  // ----------------------------------------------------------- decoded packets

  /** The packets that change when re-encoded: a type 21 with a name extension, and a type 24 whose
      reserved part number left both halves unsent. */
  predicate LosesOnReencode(p: Packet) {
    || (p.AidsToNavigation? && p.nameExtension != "")
    || (p.StaticData? && !p.reportA.valid && !p.reportB.valid)
  }

  /** What a decoded packet comes back as: the extension is dropped, and a type 24 with neither half
      becomes a valid part A with an empty name. */
  function Reencoded(p: Packet): Packet {
    if !LosesOnReencode(p) then p
    else if p.AidsToNavigation? then p.(nameExtension := "")
    else p.(reportA := StaticReportA(true, ""))
  }

  lemma UIntFits(b: seq<bool>, start: nat, w: nat)
    ensures Fits(UInt(b, start, w), w)
  {
    if 0 < w <= 64 && start + w <= |b| { UintFromBits(b[start..start + w]); }
  }

  lemma IntFits(b: seq<bool>, start: nat, w: nat)
    requires w > 0
    ensures FitsSigned(Int(b, start, w), w)
  {
    UIntFits(b, start, w);
    SignedFits(UInt(b, start, w), w);
  }

  lemma TenthsRead(v: nat, w: nat)
    ensures OnTenths(Tenths(v), w) <==> Fits(v, w)
  {
    assert Tenths(v) * 10.0 == v as real;
  }

  lemma UnitsRead(v: nat, w: nat)
    ensures OnUnits(v as real, w) <==> Fits(v, w)
  {}

  lemma FineRead(i: int, w: nat)
    ensures OnFine(FromFine(i), w) <==> FitsSigned(i, w)
  {
    assert FromFine(i) * 600000.0 == i as real;
  }

  lemma CoarseRead(i: int, w: nat)
    ensures OnCoarse(FromCoarse(i), w) <==> FitsSigned(i, w)
  {
    assert FromCoarse(i) * 600.0 == i as real;
  }

  lemma TenthsAt(b: seq<bool>, start: nat, w: nat)
    ensures OnTenths(Tenths(UInt(b, start, w)), w)
  {
    UIntFits(b, start, w);
    TenthsRead(UInt(b, start, w), w);
  }

  lemma FineAt(b: seq<bool>, start: nat, w: nat)
    requires w > 0
    ensures OnFine(FromFine(Int(b, start, w)), w)
  {
    IntFits(b, start, w);
    FineRead(Int(b, start, w), w);
  }

  lemma HeaderInRange(b: seq<bool>)
    ensures HeaderFits(ReadHeader(b))
  {
    UIntFits(b, 0, 6);
    UIntFits(b, 6, 2);
    UIntFits(b, 8, 30);
  }

  lemma DimensionInRange(b: seq<bool>, start: nat)
    ensures DimensionFits(ReadDimension(b, start))
  {
    UIntFits(b, start, 9);
    UIntFits(b, start + 9, 9);
    UIntFits(b, start + 18, 6);
    UIntFits(b, start + 24, 6);
  }

  lemma PositionReportInRange(b: seq<bool>)
    ensures InRange(Reencoded(ReadPositionReport(b)))
  {
    hide UInt, Int, Bit, Fits, FitsSigned, OnTenths, OnFine, HeaderFits, ReadHeader, Tenths, FromFine;
    HeaderInRange(b);
    UIntFits(b, 38, 4); IntFits(b, 42, 8); TenthsAt(b, 50, 10); FineAt(b, 61, 28); FineAt(b, 89, 27);
    TenthsAt(b, 116, 12); UIntFits(b, 128, 9); UIntFits(b, 137, 6); UIntFits(b, 143, 2); UIntFits(b, 145, 3);
    UIntFits(b, 149, 19);
  }

  lemma BaseStationReportInRange(b: seq<bool>)
    ensures InRange(Reencoded(ReadBaseStationReport(b)))
  {
    hide UInt, Int, Bit, Fits, FitsSigned, OnTenths, OnFine, HeaderFits, ReadHeader, Tenths, FromFine;
    HeaderInRange(b);
    UIntFits(b, 38, 14); UIntFits(b, 52, 4); UIntFits(b, 56, 5); UIntFits(b, 61, 5); UIntFits(b, 66, 6);
    UIntFits(b, 72, 6); FineAt(b, 79, 28); FineAt(b, 107, 27); UIntFits(b, 134, 4); UIntFits(b, 138, 10);
    UIntFits(b, 149, 19);
  }

  lemma ShipStaticDataInRange(b: seq<bool>)
    ensures InRange(Reencoded(ReadShipStaticData(b)))
  {
    hide UInt, Int, Bit, Str, Canonical, Fits, FitsSigned, OnTenths, DimensionFits, ReadDimension, HeaderFits,
      ReadHeader, Tenths;
    HeaderInRange(b);
    UIntFits(b, 38, 2); UIntFits(b, 40, 30); StrCanonical(b, 70, 7); StrCanonical(b, 112, 20); UIntFits(b, 232, 8);
    DimensionInRange(b, 240); UIntFits(b, 270, 4); UIntFits(b, 274, 4); UIntFits(b, 278, 5); UIntFits(b, 283, 5);
    UIntFits(b, 288, 6); TenthsAt(b, 294, 8); StrCanonical(b, 302, 20);
  }

  lemma SarAircraftInRange(b: seq<bool>)
    ensures InRange(Reencoded(ReadSarAircraft(b)))
  {
    hide UInt, Int, Bit, Fits, FitsSigned, OnTenths, OnFine, HeaderFits, ReadHeader, Tenths, FromFine;
    HeaderInRange(b);
    UIntFits(b, 38, 12); UIntFits(b, 50, 10); FineAt(b, 61, 28); FineAt(b, 89, 27); TenthsAt(b, 116, 12);
    UIntFits(b, 128, 6); UIntFits(b, 148, 20);
  }

  lemma StandardClassBInRange(b: seq<bool>)
    ensures InRange(Reencoded(ReadStandardClassB(b)))
  {
    hide UInt, Int, Bit, Fits, FitsSigned, OnTenths, OnFine, HeaderFits, ReadHeader, Tenths, FromFine;
    HeaderInRange(b);
    TenthsAt(b, 46, 10); FineAt(b, 57, 28); FineAt(b, 85, 27); TenthsAt(b, 112, 12); UIntFits(b, 124, 9);
    UIntFits(b, 133, 6); UIntFits(b, 149, 19);
  }

  lemma ExtendedClassBInRange(b: seq<bool>)
    ensures InRange(Reencoded(ReadExtendedClassB(b)))
  {
    hide UInt, Int, Bit, Str, Canonical, Fits, FitsSigned, OnTenths, OnFine, DimensionFits, ReadDimension, HeaderFits,
      ReadHeader, Tenths, FromFine;
    HeaderInRange(b);
    TenthsAt(b, 46, 10); FineAt(b, 57, 28); FineAt(b, 85, 27); TenthsAt(b, 112, 12); UIntFits(b, 124, 9);
    UIntFits(b, 133, 6); StrCanonical(b, 143, 20); UIntFits(b, 263, 8); DimensionInRange(b, 271); UIntFits(b, 301, 4);
  }

  lemma AidsToNavigationInRange(b: seq<bool>)
    ensures InRange(Reencoded(ReadAidsToNavigation(b)))
  {
    hide UInt, Int, Bit, Str, Canonical, Fits, FitsSigned, OnTenths, OnFine, DimensionFits, ReadDimension, HeaderFits,
      ReadHeader, Tenths, FromFine;
    HeaderInRange(b);
    UIntFits(b, 38, 5); StrCanonical(b, 43, 20); FineAt(b, 164, 28); FineAt(b, 192, 27); DimensionInRange(b, 219);
    UIntFits(b, 249, 4); UIntFits(b, 253, 6); UIntFits(b, 260, 8);
  }

  lemma EmptyIsCanonical()
    ensures Canonical("", 20)
  {}

  lemma StaticDataInRange(b: seq<bool>)
    ensures InRange(Reencoded(ReadStaticData(b)))
  {
    EmptyIsCanonical();
    hide UInt, Str, Canonical, Fits, DimensionFits, ReadDimension, HeaderFits, ReadHeader;
    HeaderInRange(b);
    StrCanonical(b, 40, 20);
    UIntFits(b, 40, 8); StrCanonical(b, 48, 3); UIntFits(b, 66, 4); UIntFits(b, 70, 20); StrCanonical(b, 90, 7);
    DimensionInRange(b, 132); UIntFits(b, 162, 6);
  }

  lemma LongRangeInRange(b: seq<bool>)
    ensures InRange(Reencoded(ReadLongRange(b)))
  {
    hide UInt, Int, Bit, Fits, FitsSigned, OnCoarse, OnUnits, HeaderFits, ReadHeader, FromCoarse;
    HeaderInRange(b);
    UIntFits(b, 40, 4);
    IntFits(b, 44, 18); CoarseRead(Int(b, 44, 18), 18); IntFits(b, 62, 17); CoarseRead(Int(b, 62, 17), 17);
    UIntFits(b, 79, 6); UnitsRead(UInt(b, 79, 6), 6); UIntFits(b, 85, 9); UnitsRead(UInt(b, 85, 9), 9);
  }

  /** Re-encoding cannot tell a packet from the one it comes back as. */
  lemma ReencodedNormalizesAlike(p: Packet)
    requires p.StaticData? && LosesOnReencode(p) ==> !p.partNumber && p.reportA.name == ""
    ensures Normalize(p) == Normalize(Reencoded(p))
  {}

  lemma ReadPacketTagged(b: seq<bool>, id: nat)
    requires id == UInt(b, 0, 6)
    ensures ReadPacket(b, id).Unknown? || WellTagged(ReadPacket(b, id))
  {
    hide UInt, Int, Bit, Str, ReadDimension, Tenths, FromFine, FromCoarse;
  }

  lemma ReservedPartReads(b: seq<bool>)
    requires LosesOnReencode(ReadStaticData(b))
    ensures !ReadStaticData(b).partNumber && ReadStaticData(b).reportA.name == ""
  {
    hide UInt, Str, ReadDimension, ReadHeader;
  }

  lemma ReadPacketNormalizes(b: seq<bool>, id: nat)
    ensures var p := ReadPacket(b, id); Normalize(p) == Normalize(Reencoded(p))
  {
    hide UInt, Int, Bit, Str, ReadDimension, ReadHeader, Tenths, FromFine, FromCoarse, Normalize, Reencoded,
      LosesOnReencode;
    var p := ReadPacket(b, id);
    if LosesOnReencode(p) && p.StaticData? { ReservedPartReads(b); }
    ReencodedNormalizesAlike(p);
  }

  lemma ReadPacketInRange(b: seq<bool>, id: nat)
    requires id == UInt(b, 0, 6)
    ensures var p := ReadPacket(b, id);
            !p.Unknown? ==> WellTagged(p) && InRange(Reencoded(p)) && Normalize(p) == Normalize(Reencoded(p))
  {
    ReadPacketTagged(b, id);
    ReadPacketNormalizes(b, id);
    hide UInt, InRange, Normalize, Reencoded, WellTagged, ReadPositionReport, ReadBaseStationReport,
      ReadShipStaticData, ReadSarAircraft, ReadStandardClassB, ReadExtendedClassB, ReadAidsToNavigation, ReadStaticData,
      ReadLongRange;
    if 1 <= id <= 3 { PositionReportInRange(b); }
    else if id == 4 || id == 11 { BaseStationReportInRange(b); }
    else if id == 5 { ShipStaticDataInRange(b); }
    else if id == 9 { SarAircraftInRange(b); }
    else if id == 18 { StandardClassBInRange(b); }
    else if id == 19 { ExtendedClassBInRange(b); }
    else if id == 21 { AidsToNavigationInRange(b); }
    else if id == 24 { StaticDataInRange(b); }
    else if id == 27 { LongRangeInRange(b); }
  }

  /** Decoding, re-encoding and decoding again gives the packet that `Reencoded` describes, so the
      same message for exactly the decoded packets that lose nothing. */
  lemma ReencodeFixpoint(payload: string, fill: nat, m: Message)
    requires Decode(payload, fill) == Ok(m) && !m.packet.Unknown?
    ensures WellTagged(m.packet)
    ensures var (payload', fill') := Encoded(m.packet).value;
            Decode(payload', fill') == Ok(Describe(Reencoded(m.packet)))
    ensures var (payload', fill') := Encoded(m.packet).value;
            Decode(payload', fill') == Ok(m) <==> !LosesOnReencode(m.packet)
  {
    var b := Dearmored(payload, fill).value;
    ReadPacketInRange(b, UInt(b, 0, 6));
    hide UInt, InRange, Normalize, ReadPacket, Encoded, WellTagged;
    PayloadRoundTrip(m.packet);
    NormalizeFixed(Reencoded(m.packet));
    assert Describe(Reencoded(m.packet)).packet == Reencoded(m.packet);
  }

  /** A packet survives encoding and decoding unchanged exactly when its header names its layout and it
      is in range. */
  lemma SurvivesExactlyInRange(p: Packet)
    requires !p.Unknown?
    ensures var (payload, fill) := Encoded(p).value;
            Decode(payload, fill) == Ok(Describe(p)) <==> WellTagged(p) && InRange(p)
  {
    hide InRange, Normalize, Encoded, Fields, WellTagged, ReadPacket, UInt;
    var (payload, fill) := Encoded(p).value;
    assert Describe(Normalize(p)).packet == Normalize(p) && Describe(p).packet == p;
    if WellTagged(p) {
      PayloadRoundTrip(p);
      NormalizeFixed(p);
    } else if Decode(payload, fill) == Ok(Describe(p)) {
      var b := Dearmored(payload, fill).value;
      ReadPacketTagged(b, UInt(b, 0, 6));
      assert false;
    }
  }

  const BARE_AID := AidsToNavigation(Header(21, 0, 1, true), 0, "", false, 0.0, 0.0, NO_DIMENSION, 0, 0, false, 0,
                                     false, false, false, "")

  lemma AppendText(fs: seq<Field>, t: string)
    requires Canonical(t, 1)
    ensures var a, b := FieldBits(fs), FieldBits(fs + [S(t, 1)]);
            a <= b && |b| == |a| + 6 && Str(b, |a|, 6) == t
  {
    hide FieldBits, Str, Clean, Canonical, StrBits;
    var a, b := FieldBits(fs), FieldBits(fs + [S(t, 1)]);
    FieldBitsJoin(fs, S(t, 1));
    assert b == a + StrBits(t, 1);
    assert b[|a|..|a| + 6] == StrBits(t, 1);
    StrRoundTrip(b, |a|, t, 1);
    CleanCanonical(t, 1);
  }

  lemma AidDecodes(b: seq<bool>)
    requires |b| > 272 && UInt(b, 0, 6) == 21
    ensures DecodeBits(b).Ok? && DecodeBits(b).value.packet == ReadAidsToNavigation(b)
    ensures ReadAidsToNavigation(b).AidsToNavigation?
    ensures ReadAidsToNavigation(b).nameExtension == Str(b, 272, |b| - 272)
  {
    hide UInt, Str, ReadHeader, ReadDimension, Int, Bit;
  }

  /** A type 21 message carrying the name extension "A" decodes to a packet that loses it. */
  lemma NameExtensionIsLost() returns (b: seq<bool>)
    ensures DecodeBits(b).Ok? && DecodeBits(b).value.packet.AidsToNavigation?
    ensures DecodeBits(b).value.packet.nameExtension == "A" && LosesOnReencode(DecodeBits(b).value.packet)
  {
    hide FieldBits, UInt, Str, Canonical, ReadAidsToNavigation, DecodeBits, AidsToNavigationFields, Normalize,
      HeaderFields;
    var fs := AidsToNavigationFields(BARE_AID);
    b := FieldBits(fs + [S("A", 1)]);
    CanonicalLetter();
    AppendText(fs, "A");
    HeaderIdRead(BARE_AID);
    AidsToNavigationRoundTrip(BARE_AID);
    SamePrefix(FieldBits(fs), b, 0, 6);
    AidDecodes(b);
  }

  lemma CanonicalLetter()
    ensures Canonical("A", 1)
  {}

  lemma SamePrefix(a: seq<bool>, b: seq<bool>, start: nat, w: nat)
    requires a <= b && start + w <= |a|
    ensures UInt(b, start, w) == UInt(a, start, w)
  {
    assert w <= 64 ==> b[start..start + w] == a[start..start + w];
  }

  lemma ReservedPartDecodes(b: seq<bool>)
    requires |b| >= 160 && UInt(b, 0, 6) == 24 && UInt(b, 38, 2) == 2
    ensures DecodeBits(b).Ok? && DecodeBits(b).value.packet == ReadStaticData(b) && ReadStaticData(b).StaticData?
    ensures LosesOnReencode(ReadStaticData(b))
  {
    hide UInt, Str, ReadHeader, ReadDimension;
  }

  /** A type 24 message with part number 2 decodes to a packet with neither half. */
  lemma ReservedPartHasNoHalf() returns (b: seq<bool>)
    ensures DecodeBits(b).Ok? && DecodeBits(b).value.packet.StaticData?
    ensures LosesOnReencode(DecodeBits(b).value.packet)
  {
    var h := Header(24, 0, 1, true);
    var fs := HeaderFields(h) + [U(2, 2), S("", 20)];
    b := FieldBits(fs);
    AtStart(fs);
    hide FieldBits, At, UInt, Str, Low, Pow2, Clean, DecodeBits, ReadStaticData, LosesOnReencode, UintBits, StrBits;
    HeaderAt(b, fs, h);
    UintAt(b, fs, 3, 38, 2, 2);
    TextAt(b, fs, 4, 40, "", 20);
    AtEnd(b, fs, 160);
    Pow2Small();
    LowFits(2, 2);
    LowFits(24, 6);
    ReservedPartDecodes(b);
  }

  // ------------------------------------------------- no read beyond the message

  function WithoutExtension(p: Packet): Packet {
    if p.AidsToNavigation? then p.(nameExtension := "") else p
  }

  /** Reads that fit the shorter stream give the same on the longer one. */
  ghost predicate Agree(a: seq<bool>, b: seq<bool>) {
    && (forall start: nat, w: nat | start + w <= |a| :: UInt(b, start, w) == UInt(a, start, w))
    && (forall start: nat, w: nat | start + w <= |a| :: Str(b, start, w) == Str(a, start, w))
  }

  lemma PrefixAgrees(a: seq<bool>, b: seq<bool>)
    requires a <= b
    ensures Agree(a, b)
  {
    forall start: nat, w: nat | start + w <= |a|
      ensures UInt(b, start, w) == UInt(a, start, w) && Str(b, start, w) == Str(a, start, w)
    {
      SamePrefix(a, b, start, w);
      assert b[start..start + w] == a[start..start + w];
    }
  }

  lemma PositionReportAgrees(a: seq<bool>, b: seq<bool>)
    requires Agree(a, b) && |a| >= 168
    ensures ReadPositionReport(b) == ReadPositionReport(a)
  {
    hide UInt, Str;
  }

  lemma BaseStationReportAgrees(a: seq<bool>, b: seq<bool>)
    requires Agree(a, b) && |a| >= 168
    ensures ReadBaseStationReport(b) == ReadBaseStationReport(a)
  {
    hide UInt, Str;
  }

  /** What a type 5 cut to `n` of the bits `b` shows of the packet `q` read from all of them: below 422
      bits the destination is read without its last character, below 423 and 424 the flags are false. */
  function Curtailed(q: Packet, n: nat, b: seq<bool>): Packet
    requires q.ShipStaticData?
  {
    q.(destination := if n < 422 then Str(b, 302, 114) else q.destination,
       dte := q.dte && n >= 423,
       spareBit := q.spareBit && n >= 424)
  }

  lemma DestinationAgrees(a: seq<bool>, b: seq<bool>)
    requires a <= b && |a| >= 420
    ensures Str(a, 302, 120) == if |a| < 422 then Str(b, 302, 114) else Str(b, 302, 120)
  {
    PrefixAgrees(a, b);
    if |a| < 422 { ShortDestination(a); }
    hide Str;
  }

  lemma ShipStaticDataAgrees(a: seq<bool>, b: seq<bool>)
    requires a <= b && |a| >= 420
    ensures ReadShipStaticData(a) == Curtailed(ReadShipStaticData(b), |a|, b)
  {
    DestinationAgrees(a, b);
    PrefixAgrees(a, b);
    PastTheEnd(a);
    hide UInt, Str;
  }

  lemma SarAircraftAgrees(a: seq<bool>, b: seq<bool>)
    requires Agree(a, b) && |a| >= 168
    ensures ReadSarAircraft(b) == ReadSarAircraft(a)
  {
    hide UInt, Str;
  }

  lemma StandardClassBAgrees(a: seq<bool>, b: seq<bool>)
    requires Agree(a, b) && |a| >= 168
    ensures ReadStandardClassB(b) == ReadStandardClassB(a)
  {
    hide UInt, Str;
  }

  lemma ExtendedClassBAgrees(a: seq<bool>, b: seq<bool>)
    requires Agree(a, b) && |a| >= 312
    ensures ReadExtendedClassB(b) == ReadExtendedClassB(a)
  {
    hide UInt, Str;
  }

  lemma LongRangeAgrees(a: seq<bool>, b: seq<bool>)
    requires Agree(a, b) && |a| >= 96
    ensures ReadLongRange(b) == ReadLongRange(a)
  {
    hide UInt, Str;
  }

  lemma AidsToNavigationAgrees(a: seq<bool>, b: seq<bool>)
    requires Agree(a, b) && |a| >= 272
    ensures WithoutExtension(ReadAidsToNavigation(b)) == WithoutExtension(ReadAidsToNavigation(a))
  {
    hide UInt, Str;
  }

  lemma StaticDataAgrees(a: seq<bool>, b: seq<bool>)
    requires Agree(a, b) && |a| >= 160 && (UInt(a, 38, 2) == 1 ==> |a| >= 168)
    ensures ReadStaticData(b) == ReadStaticData(a)
  {
    hide UInt, Str;
  }

  lemma HeaderAgrees(a: seq<bool>, b: seq<bool>)
    requires Agree(a, b) && |a| >= 38
    ensures ReadHeader(b) == ReadHeader(a) && UInt(b, 0, 6) == UInt(a, 0, 6)
  {
    hide UInt, Str;
  }

  lemma PacketAgrees(a: seq<bool>, b: seq<bool>, id: nat)
    requires Agree(a, b) && a <= b && |a| >= 38 && |a| >= Need(id)
    requires id == 24 && UInt(a, 38, 2) == 1 ==> |a| >= 168
    ensures UInt(b, 0, 6) == UInt(a, 0, 6)
    ensures var (p, q) := (ReadPacket(a, id), ReadPacket(b, id));
            if p.Unknown? then q.Unknown? && q.header == p.header
            else if id == 5 then q.ShipStaticData? && p == Curtailed(q, |a|, b)
            else WithoutExtension(q) == WithoutExtension(p)
  {
    hide UInt, Str, Agree, ReadHeader, ReadPositionReport, ReadBaseStationReport, ReadSarAircraft, ReadStandardClassB,
      ReadExtendedClassB, ReadStaticData, ReadLongRange, ReadDimension, Curtailed;
    HeaderAgrees(a, b);
    if 1 <= id <= 3 { PositionReportAgrees(a, b); }
    else if id == 4 || id == 11 { BaseStationReportAgrees(a, b); }
    else if id == 5 { ShipStaticDataAgrees(a, b); }
    else if id == 9 { SarAircraftAgrees(a, b); }
    else if id == 18 { StandardClassBAgrees(a, b); }
    else if id == 19 { ExtendedClassBAgrees(a, b); }
    else if id == 21 { AidsToNavigationAgrees(a, b); }
    else if id == 24 { StaticDataAgrees(a, b); }
    else if id == 27 { LongRangeAgrees(a, b); }
  }

  /** Every fixed-width read of an accepted message lies within its bits: appending more bits changes
      nothing but the type 21 extension and, in a type 5 shorter than 424 bits, what `Curtailed` says. */
  lemma AcceptedReadsAreComplete(a: seq<bool>, b: seq<bool>)
    requires a <= b
    ensures DecodeBits(a).Ok? ==>
            var (p, q) := (ReadPacket(a, UInt(a, 0, 6)), ReadPacket(b, UInt(b, 0, 6)));
            if p.Unknown? then q.Unknown? && q.header == p.header
            else if UInt(a, 0, 6) == 5 then q.ShipStaticData? && p == Curtailed(q, |a|, b)
            else WithoutExtension(q) == WithoutExtension(p)
  {
    hide ReadPacket, Describe, Curtailed;
    PrefixAgrees(a, b);
    hide UInt, Str;
    if DecodeBits(a).Ok? { PacketAgrees(a, b, UInt(a, 0, 6)); }
  }

  lemma ShortDestination(b: seq<bool>)
    requires 420 <= |b| < 422
    ensures Str(b, 302, 120) == Str(b, 302, 114)
  {
    hide Chars, TrimEnd;
    CharsClip(b[302..]);
    assert b[302..][..114] == b[302..416];
  }

  /** A type 5 of 420 bits or more is accepted. Whatever full message it is the start of, every field is
      that message's but these: dte reads false below 423 bits, the spare flag below 424, and below 422
      the destination is its first 19 characters. */
  lemma ShortShipStaticData(a: seq<bool>, b: seq<bool>)
    requires a <= b && 420 <= |a| <= |b| && UInt(a, 0, 6) == 5
    ensures DecodeBits(a) == Ok(Describe(Curtailed(ReadShipStaticData(b), |a|, b)))
    ensures |a| >= 424 ==> DecodeBits(a) == DecodeBits(b)
  {
    ShipStaticDataAgrees(a, b);
    SamePrefix(a, b, 0, 6);
    hide Str, UInt, Bit, ReadHeader, ReadDimension, Tenths, Describe;
  }

  lemma {:induction false} CharsJoin(x: seq<bool>, y: seq<bool>)
    requires |x| % 6 == 0
    ensures Chars(x + y) == if |Chars(x)| == |x| / 6 then Chars(x) + Chars(y) else Chars(x)
    decreases |x|
  {
    if x == [] {
      assert x + y == y;
    } else {
      CharsJoin(x[6..], y);
      assert (x + y)[..6] == x[..6] && (x + y)[6..] == x[6..] + y;
    }
  }

  lemma SixBitsSpell(six: seq<bool>)
    requires |six| == 6
    ensures var v := FromBits(six);
            && v < 64 && Chars(six) == (if v == 0 then "" else [CodeChar(v)])
            && (v != 0 ==> (CodeChar(v) == ' ' <==> v == 32))
  {
    SixBitsFit(six);
    hide FromBits;
    assert six[..6] == six && six[6..] == [];
  }

  lemma TrimLast(s: string, c: char)
    ensures TrimEnd(s + [c]) == if c == ' ' then TrimEnd(s) else s + [c]
  {
    assert (s + [c])[..|s|] == s;
  }

  /** The twentieth character of a destination is lost with its bits exactly when the first nineteen run
      on to it and it is neither the end mark nor a space. */
  lemma LastCharacterLostIff(b: seq<bool>)
    requires |b| >= 422
    ensures Str(b, 302, 120) != Str(b, 302, 114) <==>
            |Chars(b[302..416])| == 19 && UInt(b, 416, 6) != 0 && UInt(b, 416, 6) != 32
  {
    var x, y := b[302..416], b[416..422];
    assert b[302..422] == x + y;
    CharsJoin(x, y);
    SixBitsSpell(y);
    if |Chars(x)| == 19 && FromBits(y) != 0 {
      TrimLast(Chars(x), CodeChar(FromBits(y)));
    } else {
      assert Chars(x) + "" == Chars(x);
    }
    hide Chars, TrimEnd, FromBits;
  }

  /** The flags are really lost: some continuation of a shorter message sets them. */
  lemma ShortFlagsAreLost(a: seq<bool>)
    requires 420 <= |a| < 424
    ensures var b := a + seq(424 - |a|, _ => true);
            && ReadShipStaticData(b).spareBit && !ReadShipStaticData(a).spareBit
            && (|a| < 423 ==> ReadShipStaticData(b).dte && !ReadShipStaticData(a).dte)
  {
    hide Str, ReadHeader, ReadDimension, Tenths;
    var b := a + seq(424 - |a|, _ => true);
    PastTheEnd(a);
    assert b[423..424] == [true] && (|a| < 423 ==> b[422..423] == [true]);
    FlagValue(true);
  }

  lemma PastTheEnd(b: seq<bool>)
    ensures forall pos: nat | pos >= |b| :: !Bit(b, pos)
  {}

  /** A trailing partial sextet is never read. */
  lemma {:induction false} CharsClip(b: seq<bool>)
    ensures Chars(b) == Chars(b[..|b| / 6 * 6])
  {
    var n := |b| / 6 * 6;
    if |b| >= 6 {
      CharsClip(b[6..]);
      assert b[6..][..|b[6..]| / 6 * 6] == b[..n][6..] && b[..n][..6] == b[..6];
    } else {
      assert n == 0;
    }
  }
}
