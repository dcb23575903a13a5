/** The AIS message layouts: what each packet is encoded as and how a bit stream is decoded. */
module AisCodec {
  import opened Prelude
  import opened BitSeq
  import opened BitBuffer
  import opened SixBit
  import opened Layout
  import opened AisTypes

  // ---------------------------------------------------------- numeric scaling

  const U64_MAX := 0xFFFF_FFFF_FFFF_FFFF
  const I64_MAX := 0x7FFF_FFFF_FFFF_FFFF

  /** Nearest integer, halves away from zero. */
  function Round(x: real): int {
    if x >= 0.0 then (x + 0.5).Floor else -((0.5 - x).Floor)
  }

  /** `x.round() as u64`: saturating at both ends. */
  function RoundU64(x: real): nat {
    if Round(x) < 0 then 0 else if Round(x) > U64_MAX then U64_MAX else Round(x)
  }

  /** `x.round() as i64`: saturating at both ends. */
  function RoundI64(x: real): int {
    if Round(x) > I64_MAX then I64_MAX else if Round(x) < -I64_MAX - 1 then -I64_MAX - 1 else Round(x)
  }

  /** A quantity in tenths, as the encoders compute it. */
  function ToTenths(x: real): nat {
    RoundU64(x * 10.0)
  }

  /** Degrees in 1/10000 minutes, or in 1/10 minutes for long-range broadcasts. */
  function ToFine(deg: real): int {
    RoundI64(deg * 60.0 * 10000.0)
  }

  function ToCoarse(deg: real): int {
    RoundI64(deg * 60.0 * 10.0)
  }

  function FromFine(raw: int): real {
    raw as real / (60.0 * 10000.0)
  }

  function FromCoarse(raw: int): real {
    raw as real / (60.0 * 10.0)
  }

  // ---------------------------------------------------------------- encoding

  function HeaderFields(h: Header): seq<Field> {
    [U(h.messageId, 6), U(h.repeatIndicator, 2), U(h.userId, 30)]
  }

  function DimensionFields(d: Dimension): seq<Field> {
    [U(d.a, 9), U(d.b, 9), U(d.c, 6), U(d.d, 6)]
  }

  function PositionFields(acc: bool, lon: real, lat: real): seq<Field> {
    [B(acc), I(ToFine(lon), 28), I(ToFine(lat), 27)]
  }

  /** Speed, position and course, as most position reports carry them. */
  function MotionFields(speed: nat, acc: bool, lon: real, lat: real, cog: real): seq<Field> {
    [U(speed, 10)] + PositionFields(acc, lon, lat) + [U(ToTenths(cog), 12)]
  }

  /** Types 1 to 3 take 168 bits. */
  function PositionReportFields(p: Packet): seq<Field>
    requires p.PositionReport?
  {
    HeaderFields(p.header) + [U(p.navigationalStatus, 4), I(p.rateOfTurn, 8)] +
    MotionFields(ToTenths(p.sog), p.positionAccuracy, p.longitude, p.latitude, p.cog) +
    [U(p.trueHeading, 9), U(p.timestamp, 6), U(p.specialManoeuvreIndicator, 2), U(p.spare, 3), B(p.raim),
    U(p.communicationState, 19)]
  }

  /** Types 4 and 11 take 168 bits. */
  function BaseStationReportFields(p: Packet): seq<Field>
    requires p.BaseStationReport?
  {
    HeaderFields(p.header) +
    [U(p.utcYear, 14), U(p.utcMonth, 4), U(p.utcDay, 5), U(p.utcHour, 5), U(p.utcMinute, 6), U(p.utcSecond, 6)] +
    PositionFields(p.positionAccuracy, p.longitude, p.latitude) +
    [U(p.fixType, 4), U(p.spare, 10), B(p.raim), U(p.communicationState, 19)]
  }

  /** Type 5 takes 424 bits. */
  function ShipStaticDataFields(p: Packet): seq<Field>
    requires p.ShipStaticData?
  {
    HeaderFields(p.header) +
    [U(p.aisVersion, 2), U(p.imoNumber, 30), S(p.callSign, 7), S(p.name, 20), U(p.shipType, 8)] +
    DimensionFields(p.dimension) +
    [U(p.fixType, 4), U(p.eta.month, 4), U(p.eta.day, 5), U(p.eta.hour, 5), U(p.eta.minute, 6),
    U(ToTenths(p.maximumStaticDraught), 8), S(p.destination, 20), B(p.dte), B(p.spareBit)]
  }

  /** Type 9 takes 168 bits. */
  function SarAircraftFields(p: Packet): seq<Field>
    requires p.SarAircraft?
  {
    HeaderFields(p.header) + [U(p.altitude, 12)] +
    MotionFields(p.speed, p.positionAccuracy, p.longitude, p.latitude, p.cog) + SarAircraftTail(p)
  }

  function SarAircraftTail(p: Packet): seq<Field>
    requires p.SarAircraft?
  {
    [U(p.timestamp, 6), B(p.altFromBaro), U(0, 7), B(p.dte)] +
    [U(0, 3), B(p.assignedMode), B(p.raim), U(p.communicationState, 20)]
  }

  /** Type 18 takes 168 bits. */
  function StandardClassBFields(p: Packet): seq<Field>
    requires p.StandardClassB?
  {
    HeaderFields(p.header) + [U(0, 8)] +
    MotionFields(ToTenths(p.sog), p.positionAccuracy, p.longitude, p.latitude, p.cog) + StandardClassBTail(p)
  }

  function StandardClassBTail(p: Packet): seq<Field>
    requires p.StandardClassB?
  {
    [U(p.trueHeading, 9), U(p.timestamp, 6), U(0, 2)] +
    [B(p.classBUnit), B(p.classBDisplay), B(p.classBDsc), B(p.classBBand)] +
    [B(p.classBMsg22), B(p.assignedMode), B(p.raim), B(p.communicationStateIsItdma)] +
    [U(p.communicationState, 19)]
  }

  /** Type 19 takes 312 bits. */
  function ExtendedClassBFields(p: Packet): seq<Field>
    requires p.ExtendedClassB?
  {
    HeaderFields(p.header) + [U(0, 8)] +
    MotionFields(ToTenths(p.sog), p.positionAccuracy, p.longitude, p.latitude, p.cog) + ExtendedClassBTail(p)
  }

  function ExtendedClassBTail(p: Packet): seq<Field>
    requires p.ExtendedClassB?
  {
    [U(p.trueHeading, 9), U(p.timestamp, 6), U(0, 4), S(p.name, 20), U(p.shipType, 8)] +
    DimensionFields(p.dimension) +
    [U(p.fixType, 4), B(p.raim), B(p.dte), B(p.assignedMode), U(0, 4)]
  }

  /** Type 21 takes 272 bits, none of them for the name extension. */
  function AidsToNavigationFields(p: Packet): seq<Field>
    requires p.AidsToNavigation?
  {
    HeaderFields(p.header) + [U(p.aidType, 5), S(p.name, 20)] +
    PositionFields(p.positionAccuracy, p.longitude, p.latitude) + AidsToNavigationTail(p)
  }

  function AidsToNavigationTail(p: Packet): seq<Field>
    requires p.AidsToNavigation?
  {
    DimensionFields(p.dimension) +
    [U(p.fixType, 4), U(p.timestamp, 6), B(p.offPosition), U(p.atonStatus, 8)] +
    [B(p.raim), B(p.virtualAton), B(p.assignedMode), B(false)]
  }

  /** Type 24 takes 160 bits as part A and 168 as part B. */
  function StaticDataFields(p: Packet): seq<Field>
    requires p.StaticData?
  {
    if p.partNumber then
      HeaderFields(p.header) +
      [U(1, 2), U(p.reportB.shipType, 8), S(p.reportB.vendorIdName, 3), U(p.reportB.venderIdModel, 4),
      U(p.reportB.venderIdSerial, 20), S(p.reportB.callSign, 7)] + DimensionFields(p.reportB.dimension) +
      [U(p.reportB.spare, 6)]
    else
      HeaderFields(p.header) + [U(0, 2), S(p.reportA.name, 20)]
  }

  /** Type 27 takes 96 bits. */
  function LongRangeFields(p: Packet): seq<Field>
    requires p.LongRange?
  {
    HeaderFields(p.header) +
    [B(p.positionAccuracy), B(p.raim), U(p.navigationalStatus, 4), I(ToCoarse(p.longitude), 18),
    I(ToCoarse(p.latitude), 17), U(RoundU64(p.sog), 6), U(RoundU64(p.cog), 9), B(p.positionLatency),
    B(p.spareBit)]
  }

  /** The fields of a packet, in transmission order. */
  function Fields(p: Packet): seq<Field>
    requires !p.Unknown?
  {
    match p
    case PositionReport(_, _, _, _, _, _, _, _, _, _, _, _, _, _) => PositionReportFields(p)
    case BaseStationReport(_, _, _, _, _, _, _, _, _, _, _, _, _, _) => BaseStationReportFields(p)
    case ShipStaticData(_, _, _, _, _, _, _, _, _, _, _, _, _) => ShipStaticDataFields(p)
    case SarAircraft(_, _, _, _, _, _, _, _, _, _, _, _, _) => SarAircraftFields(p)
    case StandardClassB(_, _, _, _, _, _, _, _, _, _, _, _, _, _, _, _, _) => StandardClassBFields(p)
    case ExtendedClassB(_, _, _, _, _, _, _, _, _, _, _, _, _, _, _) => ExtendedClassBFields(p)
    case AidsToNavigation(_, _, _, _, _, _, _, _, _, _, _, _, _, _, _) => AidsToNavigationFields(p)
    case StaticData(_, _, _, _, _) => StaticDataFields(p)
    case LongRange(_, _, _, _, _, _, _, _, _, _) => LongRangeFields(p)
  }

  /** The armored payload and fill bits of a packet; none for an unknown one. */
  function Encoded(p: Packet): (r: Option<(string, nat)>)
    ensures r.Some? <==> !p.Unknown?
  {
    if p.Unknown? then None else Some(Armored(FieldBits(Fields(p))))
  }

  method Encode(p: Packet) returns (r: Option<(string, nat)>)
    ensures r == Encoded(p)
  {
    if p.Unknown? {
      return None;
    }
    var payload, fill := EncodeFields(Fields(p));
    r := Some((payload, fill));
  }

  // ---------------------------------------------------------------- decoding

  function ReadHeader(b: seq<bool>): Header {
    Header(UInt(b, 0, 6), UInt(b, 6, 2), UInt(b, 8, 30), true)
  }

  function ReadDimension(b: seq<bool>, start: nat): Dimension {
    Dimension(UInt(b, start, 9), UInt(b, start + 9, 9), UInt(b, start + 18, 6), UInt(b, start + 24, 6))
  }

  function Tenths(v: nat): real { v as real / 10.0 }

  function ReadPositionReport(b: seq<bool>): Packet {
    PositionReport(
      ReadHeader(b), UInt(b, 38, 4), Int(b, 42, 8), Tenths(UInt(b, 50, 10)), Bit(b, 60),
      FromFine(Int(b, 61, 28)), FromFine(Int(b, 89, 27)), Tenths(UInt(b, 116, 12)),
      UInt(b, 128, 9), UInt(b, 137, 6), UInt(b, 143, 2), UInt(b, 145, 3), Bit(b, 148), UInt(b, 149, 19))
  }

  function ReadBaseStationReport(b: seq<bool>): Packet {
    BaseStationReport(
      ReadHeader(b), UInt(b, 38, 14), UInt(b, 52, 4), UInt(b, 56, 5), UInt(b, 61, 5), UInt(b, 66, 6),
      UInt(b, 72, 6), Bit(b, 78), FromFine(Int(b, 79, 28)), FromFine(Int(b, 107, 27)),
      UInt(b, 134, 4), UInt(b, 138, 10), Bit(b, 148), UInt(b, 149, 19))
  }

  function ReadShipStaticData(b: seq<bool>): Packet {
    ShipStaticData(
      ReadHeader(b), UInt(b, 38, 2), UInt(b, 40, 30), Str(b, 70, 42), Str(b, 112, 120), UInt(b, 232, 8),
      ReadDimension(b, 240), UInt(b, 270, 4),
      Eta(UInt(b, 274, 4), UInt(b, 278, 5), UInt(b, 283, 5), UInt(b, 288, 6)),
      Tenths(UInt(b, 294, 8)), Str(b, 302, 120), Bit(b, 422), Bit(b, 423))
  }

  function ReadSarAircraft(b: seq<bool>): Packet {
    SarAircraft(
      ReadHeader(b), UInt(b, 38, 12), UInt(b, 50, 10), Bit(b, 60), FromFine(Int(b, 61, 28)),
      FromFine(Int(b, 89, 27)), Tenths(UInt(b, 116, 12)), UInt(b, 128, 6), Bit(b, 134),
      Bit(b, 142), Bit(b, 146), Bit(b, 147), UInt(b, 148, 20))
  }

  function ReadStandardClassB(b: seq<bool>): Packet {
    StandardClassB(
      ReadHeader(b), Tenths(UInt(b, 46, 10)), Bit(b, 56), FromFine(Int(b, 57, 28)),
      FromFine(Int(b, 85, 27)), Tenths(UInt(b, 112, 12)), UInt(b, 124, 9), UInt(b, 133, 6),
      Bit(b, 141), Bit(b, 142), Bit(b, 143), Bit(b, 144), Bit(b, 145), Bit(b, 146), Bit(b, 147),
      Bit(b, 148), UInt(b, 149, 19))
  }

  function ReadExtendedClassB(b: seq<bool>): Packet {
    ExtendedClassB(
      ReadHeader(b), Tenths(UInt(b, 46, 10)), Bit(b, 56), FromFine(Int(b, 57, 28)),
      FromFine(Int(b, 85, 27)), Tenths(UInt(b, 112, 12)), UInt(b, 124, 9), UInt(b, 133, 6),
      Str(b, 143, 120), UInt(b, 263, 8), ReadDimension(b, 271), UInt(b, 301, 4), Bit(b, 305),
      Bit(b, 306), Bit(b, 307))
  }

  function ReadAidsToNavigation(b: seq<bool>): Packet {
    AidsToNavigation(
      ReadHeader(b), UInt(b, 38, 5), Str(b, 43, 120), Bit(b, 163), FromFine(Int(b, 164, 28)),
      FromFine(Int(b, 192, 27)), ReadDimension(b, 219), UInt(b, 249, 4), UInt(b, 253, 6),
      Bit(b, 259), UInt(b, 260, 8), Bit(b, 268), Bit(b, 269), Bit(b, 270),
      if |b| > 272 then Str(b, 272, |b| - 272) else "")
  }

  /** Only part number 0 fills the first half and only 1 the second. */
  function ReadStaticData(b: seq<bool>): Packet {
    var part := UInt(b, 38, 2);
    StaticData(
      ReadHeader(b), part == 1, 0,
      if part == 0 then StaticReportA(true, Str(b, 40, 120)) else NO_REPORT_A,
      if part == 1 then
        StaticReportB(true, UInt(b, 40, 8), Str(b, 48, 18), UInt(b, 66, 4), UInt(b, 70, 20), Str(b, 90, 42),
                      ReadDimension(b, 132), 0, UInt(b, 162, 6))
      else NO_REPORT_B)
  }

  function ReadLongRange(b: seq<bool>): Packet {
    LongRange(
      ReadHeader(b), Bit(b, 38), Bit(b, 39), UInt(b, 40, 4), FromCoarse(Int(b, 44, 18)),
      FromCoarse(Int(b, 62, 17)), UInt(b, 79, 6) as real, UInt(b, 85, 9) as real, Bit(b, 94), Bit(b, 95))
  }

  /** The routing facts of a decoded packet. */
  function Describe(p: Packet): Message {
    var position := match p
      case PositionReport(_, _, _, _, _, lon, lat, _, _, _, _, _, _, _) => ValidPosition(lat, lon)
      case BaseStationReport(_, _, _, _, _, _, _, _, lon, lat, _, _, _, _) => ValidPosition(lat, lon)
      case SarAircraft(_, _, _, _, lon, lat, _, _, _, _, _, _, _) => ValidPosition(lat, lon)
      case StandardClassB(_, _, _, lon, lat, _, _, _, _, _, _, _, _, _, _, _, _) => ValidPosition(lat, lon)
      case ExtendedClassB(_, _, _, lon, lat, _, _, _, _, _, _, _, _, _, _) => ValidPosition(lat, lon)
      case AidsToNavigation(_, _, _, _, lon, lat, _, _, _, _, _, _, _, _, _) => ValidPosition(lat, lon)
      case LongRange(_, _, _, _, lon, lat, _, _, _, _) => ValidPosition(lat, lon)
      case _ => None;
    var name := match p
      case ShipStaticData(_, _, _, _, n, _, _, _, _, _, _, _, _) => NonEmpty(n)
      case ExtendedClassB(_, _, _, _, _, _, _, _, n, _, _, _, _, _, _) => NonEmpty(n)
      case AidsToNavigation(_, _, n, _, _, _, _, _, _, _, _, _, _, _, _) => NonEmpty(n)
      case StaticData(_, part, _, a, _) => if part then None else NonEmpty(a.name)
      case _ => None;
    var shipType := match p
      case ShipStaticData(_, _, _, _, _, t, _, _, _, _, _, _, _) => Some(t)
      case ExtendedClassB(_, _, _, _, _, _, _, _, _, t, _, _, _, _, _) => Some(t)
      case StaticData(_, part, _, _, b) => if part then Some(b.shipType) else None
      case _ => None;
    var imo := match p
      case ShipStaticData(_, _, i, _, _, _, _, _, _, _, _, _, _) => if i != 0 then Some(i) else None
      case _ => None;
    Message(p.header.messageId, p.header.userId, p, position, name, shipType, imo)
  }

  /** The bits a message of type `id` must have at least. */
  function Need(id: nat): nat {
    if 1 <= id <= 4 || id == 9 || id == 11 || id == 18 then 168
    else if id == 5 then 420
    else if id == 19 then 312
    else if id == 21 then 272
    else if id == 24 then 160
    else if id == 27 then 96
    else 0
  }

  function ReadPacket(b: seq<bool>, id: nat): Packet {
    if 1 <= id <= 3 then ReadPositionReport(b)
    else if id == 4 || id == 11 then ReadBaseStationReport(b)
    else if id == 5 then ReadShipStaticData(b)
    else if id == 9 then ReadSarAircraft(b)
    else if id == 18 then ReadStandardClassB(b)
    else if id == 19 then ReadExtendedClassB(b)
    else if id == 21 then ReadAidsToNavigation(b)
    else if id == 24 then ReadStaticData(b)
    else if id == 27 then ReadLongRange(b)
    else Unknown(ReadHeader(b), |b|)
  }

  function DecodeBits(b: seq<bool>): Result<Message, DecodeError> {
    if |b| < 38 then Err(TooShort(|b|, 38))
    else
      var id := UInt(b, 0, 6);
      if |b| < Need(id) then Err(TooShort(|b|, Need(id)))
      else if id == 24 && UInt(b, 38, 2) == 1 && |b| < 168 then Err(TooShort(|b|, 168))
      else Ok(Describe(ReadPacket(b, id)))
  }

  function Decode(payload: string, fill: nat): Result<Message, DecodeError> {
    var bits :- Dearmored(payload, fill);
    DecodeBits(bits)
  }
}
