/** Encoding a packet and decoding the bits: what survives, for every packet of every type. */
module AisRoundTrip {
  import opened Prelude
  import opened BitSeq
  import opened BitBuffer
  import opened SixBit
  import opened Layout
  import opened AisTypes
  import opened AisCodec

  // ------------------------------------------------------------- normal form

  /** A quantity sent in tenths in `w` bits. */
  function CleanTenths(x: real, w: nat): real { Tenths(Low(ToTenths(x), w)) }

  /** A coordinate sent in 1/10000 minutes in `w` bits. */
  function CleanFine(x: real, w: nat): real { FromFine(WrapSigned(ToFine(x), w)) }

  /** A coordinate sent in 1/10 minutes in `w` bits. */
  function CleanCoarse(x: real, w: nat): real { FromCoarse(WrapSigned(ToCoarse(x), w)) }

  function CleanHeader(h: Header): Header {
    Header(Low(h.messageId, 6), Low(h.repeatIndicator, 2), Low(h.userId, 30), true)
  }

  function CleanDimension(d: Dimension): Dimension {
    Dimension(Low(d.a, 9), Low(d.b, 9), Low(d.c, 6), Low(d.d, 6))
  }

  function CleanReportB(b: StaticReportB): StaticReportB {
    StaticReportB(true, Low(b.shipType, 8), Clean(b.vendorIdName, 3), Low(b.venderIdModel, 4),
                  Low(b.venderIdSerial, 20), Clean(b.callSign, 7), CleanDimension(b.dimension), 0, Low(b.spare, 6))
  }

  /** What is left of a packet after one trip over the air: numbers modulo their width, reals on
      their grid, strings cleaned, the type 21 extension gone, and only the type 24 half that was sent. */
  function Normalize(p: Packet): Packet {
    match p
    case PositionReport(h, ns, rot, sog, acc, lon, lat, cog, hdg, ts, man, spare, raim, cs) =>
      PositionReport(CleanHeader(h), Low(ns, 4), WrapSigned(rot, 8), CleanTenths(sog, 10), acc,
                     CleanFine(lon, 28), CleanFine(lat, 27), CleanTenths(cog, 12), Low(hdg, 9),
                     Low(ts, 6), Low(man, 2), Low(spare, 3), raim, Low(cs, 19))
    case BaseStationReport(h, yy, mo, dd, hh, mi, ss, acc, lon, lat, fix, spare, raim, cs) =>
      BaseStationReport(CleanHeader(h), Low(yy, 14), Low(mo, 4), Low(dd, 5), Low(hh, 5), Low(mi, 6),
                        Low(ss, 6), acc, CleanFine(lon, 28), CleanFine(lat, 27), Low(fix, 4),
                        Low(spare, 10), raim, Low(cs, 19))
    case ShipStaticData(h, ver, imo, call, name, ty, dim, fix, eta, draught, dest, dte, spare) =>
      ShipStaticData(CleanHeader(h), Low(ver, 2), Low(imo, 30), Clean(call, 7), Clean(name, 20), Low(ty, 8),
                     CleanDimension(dim), Low(fix, 4),
                     Eta(Low(eta.month, 4), Low(eta.day, 5), Low(eta.hour, 5), Low(eta.minute, 6)),
                     CleanTenths(draught, 8), Clean(dest, 20), dte, spare)
    case SarAircraft(h, alt, speed, acc, lon, lat, cog, ts, baro, dte, asg, raim, cs) =>
      SarAircraft(CleanHeader(h), Low(alt, 12), Low(speed, 10), acc, CleanFine(lon, 28),
                  CleanFine(lat, 27), CleanTenths(cog, 12), Low(ts, 6), baro, dte, asg, raim, Low(cs, 20))
    case StandardClassB(h, sog, acc, lon, lat, cog, hdg, ts, unit, disp, dsc, band, m22, asg, raim, itdma, cs) =>
      StandardClassB(CleanHeader(h), CleanTenths(sog, 10), acc, CleanFine(lon, 28), CleanFine(lat, 27),
                     CleanTenths(cog, 12), Low(hdg, 9), Low(ts, 6), unit, disp, dsc, band, m22, asg, raim,
                     itdma, Low(cs, 19))
    case ExtendedClassB(h, sog, acc, lon, lat, cog, hdg, ts, name, ty, dim, fix, raim, dte, asg) =>
      ExtendedClassB(CleanHeader(h), CleanTenths(sog, 10), acc, CleanFine(lon, 28), CleanFine(lat, 27),
                     CleanTenths(cog, 12), Low(hdg, 9), Low(ts, 6), Clean(name, 20), Low(ty, 8),
                     CleanDimension(dim), Low(fix, 4), raim, dte, asg)
    case AidsToNavigation(h, ty, name, acc, lon, lat, dim, fix, ts, off, st, raim, virt, asg, _) =>
      AidsToNavigation(CleanHeader(h), Low(ty, 5), Clean(name, 20), acc, CleanFine(lon, 28),
                       CleanFine(lat, 27), CleanDimension(dim), Low(fix, 4), Low(ts, 6), off,
                       Low(st, 8), raim, virt, asg, "")
    case StaticData(h, part, _, a, b) =>
      StaticData(CleanHeader(h), part, 0, if part then NO_REPORT_A else StaticReportA(true, Clean(a.name, 20)),
                 if part then CleanReportB(b) else NO_REPORT_B)
    case LongRange(h, acc, raim, ns, lon, lat, sog, cog, latency, spare) =>
      LongRange(CleanHeader(h), acc, raim, Low(ns, 4), CleanCoarse(lon, 18), CleanCoarse(lat, 17),
                Low(RoundU64(sog), 6) as real, Low(RoundU64(cog), 9) as real, latency, spare)
    case Unknown(_, _) => p
  }

  // -------------------------------------------- every field lands on its offset

  lemma HeaderAt(b: seq<bool>, fs: seq<Field>, h: Header)
    requires |fs| >= 3 && At(b, fs, 0, 0)
    requires fs[0] == U(h.messageId, 6) && fs[1] == U(h.repeatIndicator, 2) && fs[2] == U(h.userId, 30)
    ensures ReadHeader(b) == CleanHeader(h) && At(b, fs, 3, 38)
  {
    hide At, FieldBits, UInt, Int, Bit, Str, Clean, WrapSigned, Low, Pow2, UintBits, IntBits, StrBits,
      RoundU64, ToTenths, ToFine, ToCoarse, Tenths, FromFine, FromCoarse;
    UintAt(b, fs, 0, 0, h.messageId, 6);
    UintAt(b, fs, 1, 6, h.repeatIndicator, 2);
    UintAt(b, fs, 2, 8, h.userId, 30);
  }

  lemma DimensionAt(b: seq<bool>, fs: seq<Field>, k: nat, at: nat, d: Dimension)
    requires k + 4 <= |fs| && At(b, fs, k, at)
    requires fs[k] == U(d.a, 9) && fs[k + 1] == U(d.b, 9) && fs[k + 2] == U(d.c, 6) && fs[k + 3] == U(d.d, 6)
    ensures ReadDimension(b, at) == CleanDimension(d) && At(b, fs, k + 4, at + 30)
  {
    hide At, FieldBits, UInt, Int, Bit, Str, Clean, WrapSigned, Low, Pow2, UintBits, IntBits, StrBits,
      RoundU64, ToTenths, ToFine, ToCoarse, Tenths, FromFine, FromCoarse;
    UintAt(b, fs, k, at, d.a, 9);
    UintAt(b, fs, k + 1, at + 9, d.b, 9);
    UintAt(b, fs, k + 2, at + 18, d.c, 6);
    UintAt(b, fs, k + 3, at + 24, d.d, 6);
  }

  /** Accuracy flag, longitude and latitude. */
  lemma PositionAt(b: seq<bool>, fs: seq<Field>, k: nat, at: nat, acc: bool, lon: real, lat: real)
    requires k + 3 <= |fs| && At(b, fs, k, at)
    requires fs[k] == B(acc) && fs[k + 1] == I(ToFine(lon), 28) && fs[k + 2] == I(ToFine(lat), 27)
    ensures Bit(b, at) == acc && FromFine(Int(b, at + 1, 28)) == CleanFine(lon, 28)
    ensures FromFine(Int(b, at + 29, 27)) == CleanFine(lat, 27) && At(b, fs, k + 3, at + 56)
  {
    hide At, FieldBits, UInt, Int, Bit, Str, Clean, WrapSigned, Low, Pow2, UintBits, IntBits, StrBits,
      RoundU64, ToTenths, ToFine, ToCoarse, Tenths, FromFine, FromCoarse;
    FlagAt(b, fs, k, at, acc);
    IntAt(b, fs, k + 1, at + 1, ToFine(lon), 28);
    IntAt(b, fs, k + 2, at + 29, ToFine(lat), 27);
  }

  /** Speed, position and course. */
  lemma MotionAt(b: seq<bool>, fs: seq<Field>, k: nat, at: nat, speed: nat, acc: bool, lon: real, lat: real, cog: real)
    requires k + 5 <= |fs| && At(b, fs, k, at)
    requires fs[k] == U(speed, 10) && fs[k + 1] == B(acc) && fs[k + 2] == I(ToFine(lon), 28)
    requires fs[k + 3] == I(ToFine(lat), 27) && fs[k + 4] == U(ToTenths(cog), 12)
    ensures UInt(b, at, 10) == Low(speed, 10) && Bit(b, at + 10) == acc
    ensures FromFine(Int(b, at + 11, 28)) == CleanFine(lon, 28) && FromFine(Int(b, at + 39, 27)) == CleanFine(lat, 27)
    ensures Tenths(UInt(b, at + 66, 12)) == CleanTenths(cog, 12) && At(b, fs, k + 5, at + 78)
  {
    hide At, FieldBits, UInt, Int, Bit, Str, Clean, WrapSigned, Low, Pow2, UintBits, IntBits, StrBits,
      RoundU64, ToTenths, ToFine, ToCoarse, Tenths, FromFine, FromCoarse;
    UintAt(b, fs, k, at, speed, 10);
    PositionAt(b, fs, k + 1, at + 10, acc, lon, lat);
    UintAt(b, fs, k + 4, at + 66, ToTenths(cog), 12);
  }

  lemma FourFlagsAt(b: seq<bool>, fs: seq<Field>, k: nat, at: nat, f: bool, g: bool, h: bool, i: bool)
    requires k + 4 <= |fs| && At(b, fs, k, at)
    requires fs[k] == B(f) && fs[k + 1] == B(g) && fs[k + 2] == B(h) && fs[k + 3] == B(i)
    ensures Bit(b, at) == f && Bit(b, at + 1) == g && Bit(b, at + 2) == h && Bit(b, at + 3) == i
    ensures At(b, fs, k + 4, at + 4)
  {
    hide At, FieldBits, UInt, Int, Bit, Str, Clean, WrapSigned, Low, Pow2, UintBits, IntBits, StrBits,
      RoundU64, ToTenths, ToFine, ToCoarse, Tenths, FromFine, FromCoarse;
    FlagAt(b, fs, k, at, f);
    FlagAt(b, fs, k + 1, at + 1, g);
    FlagAt(b, fs, k + 2, at + 2, h);
    FlagAt(b, fs, k + 3, at + 3, i);
  }

  lemma PositionReportRoundTrip(p: Packet)
    requires p.PositionReport?
    ensures var b := FieldBits(PositionReportFields(p));
            |b| == 168 && ReadPositionReport(b) == Normalize(p)
  {
    hide At, FieldBits, UInt, Int, Bit, Str, Clean, WrapSigned, Low, Pow2, UintBits, IntBits, StrBits,
      RoundU64, ToTenths, ToFine, ToCoarse, Tenths, FromFine, FromCoarse;
    var fs := PositionReportFields(p);
    var b := FieldBits(fs);
    AtStart(fs);
    HeaderAt(b, fs, p.header);
    UintAt(b, fs, 3, 38, p.navigationalStatus, 4);
    IntAt(b, fs, 4, 42, p.rateOfTurn, 8);
    MotionAt(b, fs, 5, 50, ToTenths(p.sog), p.positionAccuracy, p.longitude, p.latitude, p.cog);
    UintAt(b, fs, 10, 128, p.trueHeading, 9);
    UintAt(b, fs, 11, 137, p.timestamp, 6);
    UintAt(b, fs, 12, 143, p.specialManoeuvreIndicator, 2);
    UintAt(b, fs, 13, 145, p.spare, 3);
    FlagAt(b, fs, 14, 148, p.raim);
    UintAt(b, fs, 15, 149, p.communicationState, 19);
    AtEnd(b, fs, 168);
  }

  lemma BaseStationReportRoundTrip(p: Packet)
    requires p.BaseStationReport?
    ensures var b := FieldBits(BaseStationReportFields(p));
            |b| == 168 && ReadBaseStationReport(b) == Normalize(p)
  {
    hide At, FieldBits, UInt, Int, Bit, Str, Clean, WrapSigned, Low, Pow2, UintBits, IntBits, StrBits,
      RoundU64, ToTenths, ToFine, ToCoarse, Tenths, FromFine, FromCoarse;
    var fs := BaseStationReportFields(p);
    var b := FieldBits(fs);
    AtStart(fs);
    HeaderAt(b, fs, p.header);
    UintAt(b, fs, 3, 38, p.utcYear, 14);
    UintAt(b, fs, 4, 52, p.utcMonth, 4);
    UintAt(b, fs, 5, 56, p.utcDay, 5);
    UintAt(b, fs, 6, 61, p.utcHour, 5);
    UintAt(b, fs, 7, 66, p.utcMinute, 6);
    UintAt(b, fs, 8, 72, p.utcSecond, 6);
    PositionAt(b, fs, 9, 78, p.positionAccuracy, p.longitude, p.latitude);
    UintAt(b, fs, 12, 134, p.fixType, 4);
    UintAt(b, fs, 13, 138, p.spare, 10);
    FlagAt(b, fs, 14, 148, p.raim);
    UintAt(b, fs, 15, 149, p.communicationState, 19);
    AtEnd(b, fs, 168);
  }

  lemma ShipStaticDataRoundTrip(p: Packet)
    requires p.ShipStaticData?
    ensures var b := FieldBits(ShipStaticDataFields(p));
            |b| == 424 && ReadShipStaticData(b) == Normalize(p)
  {
    hide At, FieldBits, UInt, Int, Bit, Str, Clean, WrapSigned, Low, Pow2, UintBits, IntBits, StrBits,
      RoundU64, ToTenths, ToFine, ToCoarse, Tenths, FromFine, FromCoarse;
    var fs := ShipStaticDataFields(p);
    var b := FieldBits(fs);
    AtStart(fs);
    HeaderAt(b, fs, p.header);
    UintAt(b, fs, 3, 38, p.aisVersion, 2);
    UintAt(b, fs, 4, 40, p.imoNumber, 30);
    TextAt(b, fs, 5, 70, p.callSign, 7);
    TextAt(b, fs, 6, 112, p.name, 20);
    UintAt(b, fs, 7, 232, p.shipType, 8);
    DimensionAt(b, fs, 8, 240, p.dimension);
    UintAt(b, fs, 12, 270, p.fixType, 4);
    UintAt(b, fs, 13, 274, p.eta.month, 4);
    UintAt(b, fs, 14, 278, p.eta.day, 5);
    UintAt(b, fs, 15, 283, p.eta.hour, 5);
    UintAt(b, fs, 16, 288, p.eta.minute, 6);
    UintAt(b, fs, 17, 294, ToTenths(p.maximumStaticDraught), 8);
    TextAt(b, fs, 18, 302, p.destination, 20);
    FlagAt(b, fs, 19, 422, p.dte);
    FlagAt(b, fs, 20, 423, p.spareBit);
    AtEnd(b, fs, 424);
  }

  lemma SarAircraftTailRead(p: Packet, b: seq<bool>)
    requires p.SarAircraft? && At(b, SarAircraftTail(p), 0, 128)
    ensures |b| == 168 && UInt(b, 128, 6) == Low(p.timestamp, 6) && Bit(b, 134) == p.altFromBaro
    ensures Bit(b, 142) == p.dte && Bit(b, 146) == p.assignedMode && Bit(b, 147) == p.raim
    ensures UInt(b, 148, 20) == Low(p.communicationState, 20)
  {
    hide At, FieldBits, UInt, Int, Bit, Str, Clean, WrapSigned, Low, Pow2, UintBits, IntBits, StrBits,
      RoundU64, ToTenths, ToFine, ToCoarse, Tenths, FromFine, FromCoarse;
    var fs := SarAircraftTail(p);
    UintAt(b, fs, 0, 128, p.timestamp, 6);
    FlagAt(b, fs, 1, 134, p.altFromBaro);
    UintAt(b, fs, 2, 135, 0, 7);
    FlagAt(b, fs, 3, 142, p.dte);
    UintAt(b, fs, 4, 143, 0, 3);
    FlagAt(b, fs, 5, 146, p.assignedMode);
    FlagAt(b, fs, 6, 147, p.raim);
    UintAt(b, fs, 7, 148, p.communicationState, 20);
    AtEnd(b, fs, 168);
  }

  lemma SarAircraftRoundTrip(p: Packet)
    requires p.SarAircraft?
    ensures var b := FieldBits(SarAircraftFields(p));
            |b| == 168 && ReadSarAircraft(b) == Normalize(p)
  {
    hide SarAircraftTail, At, FieldBits, UInt, Int, Bit, Str, Clean, WrapSigned, Low, Pow2, UintBits, IntBits, StrBits,
      RoundU64, ToTenths, ToFine, ToCoarse, Tenths, FromFine, FromCoarse;
    var fs := SarAircraftFields(p);
    var b := FieldBits(fs);
    AtStart(fs);
    HeaderAt(b, fs, p.header);
    UintAt(b, fs, 3, 38, p.altitude, 12);
    MotionAt(b, fs, 4, 50, p.speed, p.positionAccuracy, p.longitude, p.latitude, p.cog);
    Rebase(b, fs[..9], SarAircraftTail(p), 128);
    SarAircraftTailRead(p, b);
  }

  lemma StandardClassBTailShape(p: Packet)
    requires p.StandardClassB?
    ensures var fs := StandardClassBTail(p);
            && |fs| == 12 && fs[0] == U(p.trueHeading, 9) && fs[1] == U(p.timestamp, 6) && fs[2] == U(0, 2)
            && fs[3] == B(p.classBUnit) && fs[4] == B(p.classBDisplay) && fs[5] == B(p.classBDsc)
            && fs[6] == B(p.classBBand) && fs[7] == B(p.classBMsg22) && fs[8] == B(p.assignedMode)
            && fs[9] == B(p.raim) && fs[10] == B(p.communicationStateIsItdma) && fs[11] == U(p.communicationState, 19)
  {}

  lemma StandardClassBTailRead(p: Packet, b: seq<bool>)
    requires p.StandardClassB? && At(b, StandardClassBTail(p), 0, 124)
    ensures |b| == 168 && UInt(b, 124, 9) == Low(p.trueHeading, 9) && UInt(b, 133, 6) == Low(p.timestamp, 6)
    ensures Bit(b, 141) == p.classBUnit && Bit(b, 142) == p.classBDisplay && Bit(b, 143) == p.classBDsc
    ensures Bit(b, 144) == p.classBBand && Bit(b, 145) == p.classBMsg22 && Bit(b, 146) == p.assignedMode
    ensures Bit(b, 147) == p.raim && Bit(b, 148) == p.communicationStateIsItdma
    ensures UInt(b, 149, 19) == Low(p.communicationState, 19)
  {
    hide StandardClassBTail, At, FieldBits, UInt, Int, Bit, Str, Clean, WrapSigned, Low, Pow2, UintBits, IntBits,
      StrBits, RoundU64, ToTenths, ToFine, ToCoarse, Tenths, FromFine, FromCoarse;
    StandardClassBTailShape(p);
    var fs := StandardClassBTail(p);
    UintAt(b, fs, 0, 124, p.trueHeading, 9);
    UintAt(b, fs, 1, 133, p.timestamp, 6);
    UintAt(b, fs, 2, 139, 0, 2);
    FourFlagsAt(b, fs, 3, 141, p.classBUnit, p.classBDisplay, p.classBDsc, p.classBBand);
    FourFlagsAt(b, fs, 7, 145, p.classBMsg22, p.assignedMode, p.raim, p.communicationStateIsItdma);
    UintAt(b, fs, 11, 149, p.communicationState, 19);
    AtEnd(b, fs, 168);
  }

  lemma StandardClassBRoundTrip(p: Packet)
    requires p.StandardClassB?
    ensures var b := FieldBits(StandardClassBFields(p));
            |b| == 168 && ReadStandardClassB(b) == Normalize(p)
  {
    hide StandardClassBTail, At, FieldBits, UInt, Int, Bit, Str, Clean, WrapSigned, Low, Pow2, UintBits, IntBits,
      StrBits, RoundU64, ToTenths, ToFine, ToCoarse, Tenths, FromFine, FromCoarse;
    var fs := StandardClassBFields(p);
    var b := FieldBits(fs);
    AtStart(fs);
    HeaderAt(b, fs, p.header);
    UintAt(b, fs, 3, 38, 0, 8);
    MotionAt(b, fs, 4, 46, ToTenths(p.sog), p.positionAccuracy, p.longitude, p.latitude, p.cog);
    Rebase(b, fs[..9], StandardClassBTail(p), 124);
    StandardClassBTailRead(p, b);
  }

  lemma ExtendedClassBTailRead(p: Packet, b: seq<bool>)
    requires p.ExtendedClassB? && At(b, ExtendedClassBTail(p), 0, 124)
    ensures |b| == 312 && UInt(b, 124, 9) == Low(p.trueHeading, 9) && UInt(b, 133, 6) == Low(p.timestamp, 6)
    ensures Str(b, 143, 120) == Clean(p.name, 20) && UInt(b, 263, 8) == Low(p.shipType, 8)
    ensures ReadDimension(b, 271) == CleanDimension(p.dimension) && UInt(b, 301, 4) == Low(p.fixType, 4)
    ensures Bit(b, 305) == p.raim && Bit(b, 306) == p.dte && Bit(b, 307) == p.assignedMode
  {
    hide At, FieldBits, UInt, Int, Bit, Str, Clean, WrapSigned, Low, Pow2, UintBits, IntBits, StrBits,
      RoundU64, ToTenths, ToFine, ToCoarse, Tenths, FromFine, FromCoarse;
    var fs := ExtendedClassBTail(p);
    UintAt(b, fs, 0, 124, p.trueHeading, 9);
    UintAt(b, fs, 1, 133, p.timestamp, 6);
    UintAt(b, fs, 2, 139, 0, 4);
    TextAt(b, fs, 3, 143, p.name, 20);
    UintAt(b, fs, 4, 263, p.shipType, 8);
    DimensionAt(b, fs, 5, 271, p.dimension);
    UintAt(b, fs, 9, 301, p.fixType, 4);
    FlagAt(b, fs, 10, 305, p.raim);
    FlagAt(b, fs, 11, 306, p.dte);
    FlagAt(b, fs, 12, 307, p.assignedMode);
    UintAt(b, fs, 13, 308, 0, 4);
    AtEnd(b, fs, 312);
  }

  lemma ExtendedClassBRoundTrip(p: Packet)
    requires p.ExtendedClassB?
    ensures var b := FieldBits(ExtendedClassBFields(p));
            |b| == 312 && ReadExtendedClassB(b) == Normalize(p)
  {
    hide ExtendedClassBTail, ReadDimension, CleanDimension, At, FieldBits, UInt, Int, Bit, Str, Clean, WrapSigned,
      Low, Pow2, UintBits, IntBits, StrBits, RoundU64, ToTenths, ToFine, ToCoarse, Tenths, FromFine, FromCoarse;
    var fs := ExtendedClassBFields(p);
    var b := FieldBits(fs);
    AtStart(fs);
    HeaderAt(b, fs, p.header);
    UintAt(b, fs, 3, 38, 0, 8);
    MotionAt(b, fs, 4, 46, ToTenths(p.sog), p.positionAccuracy, p.longitude, p.latitude, p.cog);
    Rebase(b, fs[..9], ExtendedClassBTail(p), 124);
    ExtendedClassBTailRead(p, b);
  }

  lemma AidsToNavigationTailRead(p: Packet, b: seq<bool>)
    requires p.AidsToNavigation? && At(b, AidsToNavigationTail(p), 0, 219)
    ensures |b| == 272 && ReadDimension(b, 219) == CleanDimension(p.dimension)
    ensures UInt(b, 249, 4) == Low(p.fixType, 4) && UInt(b, 253, 6) == Low(p.timestamp, 6)
    ensures Bit(b, 259) == p.offPosition && UInt(b, 260, 8) == Low(p.atonStatus, 8) && Bit(b, 268) == p.raim
    ensures Bit(b, 269) == p.virtualAton && Bit(b, 270) == p.assignedMode
  {
    hide At, FieldBits, UInt, Int, Bit, Str, Clean, WrapSigned, Low, Pow2, UintBits, IntBits, StrBits,
      RoundU64, ToTenths, ToFine, ToCoarse, Tenths, FromFine, FromCoarse;
    var fs := AidsToNavigationTail(p);
    DimensionAt(b, fs, 0, 219, p.dimension);
    UintAt(b, fs, 4, 249, p.fixType, 4);
    UintAt(b, fs, 5, 253, p.timestamp, 6);
    FlagAt(b, fs, 6, 259, p.offPosition);
    UintAt(b, fs, 7, 260, p.atonStatus, 8);
    FourFlagsAt(b, fs, 8, 268, p.raim, p.virtualAton, p.assignedMode, false);
    AtEnd(b, fs, 272);
  }

  lemma AidsToNavigationRoundTrip(p: Packet)
    requires p.AidsToNavigation?
    ensures var b := FieldBits(AidsToNavigationFields(p));
            |b| == 272 && ReadAidsToNavigation(b) == Normalize(p)
  {
    hide AidsToNavigationTail, ReadDimension, CleanDimension, At, FieldBits, UInt, Int, Bit, Str, Clean, WrapSigned,
      Low, Pow2, UintBits, IntBits, StrBits, RoundU64, ToTenths, ToFine, ToCoarse, Tenths, FromFine, FromCoarse;
    var fs := AidsToNavigationFields(p);
    var b := FieldBits(fs);
    AtStart(fs);
    HeaderAt(b, fs, p.header);
    UintAt(b, fs, 3, 38, p.aidType, 5);
    TextAt(b, fs, 4, 43, p.name, 20);
    PositionAt(b, fs, 5, 163, p.positionAccuracy, p.longitude, p.latitude);
    Rebase(b, fs[..8], AidsToNavigationTail(p), 219);
    AidsToNavigationTailRead(p, b);
  }

  lemma LongRangeRoundTrip(p: Packet)
    requires p.LongRange?
    ensures var b := FieldBits(LongRangeFields(p));
            |b| == 96 && ReadLongRange(b) == Normalize(p)
  {
    hide At, FieldBits, UInt, Int, Bit, Str, Clean, WrapSigned, Low, Pow2, UintBits, IntBits, StrBits,
      RoundU64, ToTenths, ToFine, ToCoarse, Tenths, FromFine, FromCoarse;
    var fs := LongRangeFields(p);
    var b := FieldBits(fs);
    AtStart(fs);
    HeaderAt(b, fs, p.header);
    FlagAt(b, fs, 3, 38, p.positionAccuracy);
    FlagAt(b, fs, 4, 39, p.raim);
    UintAt(b, fs, 5, 40, p.navigationalStatus, 4);
    IntAt(b, fs, 6, 44, ToCoarse(p.longitude), 18);
    IntAt(b, fs, 7, 62, ToCoarse(p.latitude), 17);
    UintAt(b, fs, 8, 79, RoundU64(p.sog), 6);
    UintAt(b, fs, 9, 85, RoundU64(p.cog), 9);
    FlagAt(b, fs, 10, 94, p.positionLatency);
    FlagAt(b, fs, 11, 95, p.spareBit);
    AtEnd(b, fs, 96);
  }

  lemma PartARoundTrip(p: Packet)
    requires p.StaticData? && !p.partNumber
    ensures var b := FieldBits(StaticDataFields(p));
            |b| == 160 && UInt(b, 38, 2) == 0 && ReadStaticData(b) == Normalize(p)
  {
    hide At, FieldBits, UInt, Int, Bit, Str, Clean, WrapSigned, Low, Pow2, UintBits, IntBits, StrBits,
      RoundU64, ToTenths, ToFine, ToCoarse, Tenths, FromFine, FromCoarse;
    var fs := StaticDataFields(p);
    var b := FieldBits(fs);
    AtStart(fs);
    HeaderAt(b, fs, p.header);
    UintAt(b, fs, 3, 38, 0, 2);
    LowFits(0, 2);
    TextAt(b, fs, 4, 40, p.reportA.name, 20);
    AtEnd(b, fs, 160);
  }

  lemma PartBRoundTrip(p: Packet)
    requires p.StaticData? && p.partNumber
    ensures var b := FieldBits(StaticDataFields(p));
            |b| == 168 && UInt(b, 38, 2) == 1 && ReadStaticData(b) == Normalize(p)
  {
    hide At, FieldBits, UInt, Int, Bit, Str, Clean, WrapSigned, Low, Pow2, UintBits, IntBits, StrBits,
      RoundU64, ToTenths, ToFine, ToCoarse, Tenths, FromFine, FromCoarse;
    var fs := StaticDataFields(p);
    var b := FieldBits(fs);
    AtStart(fs);
    HeaderAt(b, fs, p.header);
    UintAt(b, fs, 3, 38, 1, 2);
    Pow2Small();
    LowFits(1, 2);
    UintAt(b, fs, 4, 40, p.reportB.shipType, 8);
    TextAt(b, fs, 5, 48, p.reportB.vendorIdName, 3);
    UintAt(b, fs, 6, 66, p.reportB.venderIdModel, 4);
    UintAt(b, fs, 7, 70, p.reportB.venderIdSerial, 20);
    TextAt(b, fs, 8, 90, p.reportB.callSign, 7);
    DimensionAt(b, fs, 9, 132, p.reportB.dimension);
    UintAt(b, fs, 13, 162, p.reportB.spare, 6);
    AtEnd(b, fs, 168);
  }

  lemma Pow2Small()
    ensures Pow2(2) == 4 && Pow2(6) == 64
  {}

  lemma LowFits(v: nat, w: nat)
    requires v < Pow2(w)
    ensures Low(v, w) == v
  {
    ModUnique(Pow2(w), 0, v);
  }

  /** The header names the layout the packet is in. */
  predicate WellTagged(p: Packet) {
    var id := p.header.messageId;
    match p
    case PositionReport(_, _, _, _, _, _, _, _, _, _, _, _, _, _) => 1 <= id <= 3
    case BaseStationReport(_, _, _, _, _, _, _, _, _, _, _, _, _, _) => id == 4 || id == 11
    case ShipStaticData(_, _, _, _, _, _, _, _, _, _, _, _, _) => id == 5
    case SarAircraft(_, _, _, _, _, _, _, _, _, _, _, _, _) => id == 9
    case StandardClassB(_, _, _, _, _, _, _, _, _, _, _, _, _, _, _, _, _) => id == 18
    case ExtendedClassB(_, _, _, _, _, _, _, _, _, _, _, _, _, _, _) => id == 19
    case AidsToNavigation(_, _, _, _, _, _, _, _, _, _, _, _, _, _, _) => id == 21
    case StaticData(_, _, _, _, _) => id == 24
    case LongRange(_, _, _, _, _, _, _, _, _, _) => id == 27
    case Unknown(_, _) => false
  }

  lemma HeaderIdRead(p: Packet)
    requires WellTagged(p)
    ensures UInt(FieldBits(Fields(p)), 0, 6) == p.header.messageId
  {
    var fs := Fields(p);
    AtStart(fs);
    hide At, FieldBits, UInt, Low, Pow2;
    UintAt(FieldBits(fs), fs, 0, 0, p.header.messageId, 6);
    Pow2Small();
    LowFits(p.header.messageId, 6);
  }

  /** The layout named by the header is long enough, and reads back as the normal form. */
  lemma LayoutRead(p: Packet)
    requires WellTagged(p)
    ensures var (b, id) := (FieldBits(Fields(p)), p.header.messageId);
            && 38 <= |b| <= 424 && |b| >= Need(id) && (id == 24 && UInt(b, 38, 2) == 1 ==> |b| >= 168)
            && ReadPacket(b, id) == Normalize(p)
  {
    hide FieldBits, UInt, Normalize, ReadPositionReport, ReadBaseStationReport, ReadShipStaticData, ReadSarAircraft,
      ReadStandardClassB, ReadExtendedClassB, ReadAidsToNavigation, ReadStaticData, ReadLongRange, PositionReportFields,
      BaseStationReportFields, ShipStaticDataFields, SarAircraftFields, StandardClassBFields, ExtendedClassBFields,
      AidsToNavigationFields, StaticDataFields, LongRangeFields;
    match p
    case PositionReport(_, _, _, _, _, _, _, _, _, _, _, _, _, _) => PositionReportRoundTrip(p);
    case BaseStationReport(_, _, _, _, _, _, _, _, _, _, _, _, _, _) => BaseStationReportRoundTrip(p);
    case ShipStaticData(_, _, _, _, _, _, _, _, _, _, _, _, _) => ShipStaticDataRoundTrip(p);
    case SarAircraft(_, _, _, _, _, _, _, _, _, _, _, _, _) => SarAircraftRoundTrip(p);
    case StandardClassB(_, _, _, _, _, _, _, _, _, _, _, _, _, _, _, _, _) => StandardClassBRoundTrip(p);
    case ExtendedClassB(_, _, _, _, _, _, _, _, _, _, _, _, _, _, _) => ExtendedClassBRoundTrip(p);
    case AidsToNavigation(_, _, _, _, _, _, _, _, _, _, _, _, _, _, _) => AidsToNavigationRoundTrip(p);
    case StaticData(_, part, _, _, _) => if part { PartBRoundTrip(p); } else { PartARoundTrip(p); }
    case LongRange(_, _, _, _, _, _, _, _, _, _) => LongRangeRoundTrip(p);
  }

  /** Encoding any packet whose header names its layout and decoding the bits gives the message of
      its normal form. */
  lemma EncodeDecode(p: Packet)
    requires WellTagged(p)
    ensures DecodeBits(FieldBits(Fields(p))) == Ok(Describe(Normalize(p)))
  {
    hide FieldBits, UInt, Describe, Normalize, Fields, ReadPacket, Need;
    HeaderIdRead(p);
    LayoutRead(p);
  }

  /** The same through the armored payload. */
  lemma PayloadRoundTrip(p: Packet)
    requires WellTagged(p)
    ensures var (payload, fill) := Encoded(p).value;
            Decode(payload, fill) == Ok(Describe(Normalize(p)))
  {
    EncodeDecode(p);
    DearmorArmored(FieldBits(Fields(p)));
  }
}
