/** Decoded AIS packets. Degrees, knots and metres are exact reals. */
module AisTypes {
  import opened Prelude

  datatype Header = Header(messageId: nat, repeatIndicator: nat, userId: nat, valid: bool)

  datatype Dimension = Dimension(a: nat, b: nat, c: nat, d: nat)

  datatype Eta = Eta(month: nat, day: nat, hour: nat, minute: nat)

  /** Type 24 part A. */
  datatype StaticReportA = StaticReportA(valid: bool, name: string)

  /** Type 24 part B. */
  datatype StaticReportB = StaticReportB(
    valid: bool, shipType: nat, vendorIdName: string, venderIdModel: nat, venderIdSerial: nat,
    callSign: string, dimension: Dimension, fixType: nat, spare: nat)

  const NO_DIMENSION := Dimension(0, 0, 0, 0)
  const NO_REPORT_A := StaticReportA(false, "")
  const NO_REPORT_B := StaticReportB(false, 0, "", 0, 0, "", NO_DIMENSION, 0, 0)

  datatype Packet =
    | PositionReport(
        header: Header, navigationalStatus: nat, rateOfTurn: int, sog: real, positionAccuracy: bool,
        longitude: real, latitude: real, cog: real, trueHeading: nat, timestamp: nat,
        specialManoeuvreIndicator: nat, spare: nat, raim: bool, communicationState: nat)
    | BaseStationReport(
        header: Header, utcYear: nat, utcMonth: nat, utcDay: nat, utcHour: nat, utcMinute: nat,
        utcSecond: nat, positionAccuracy: bool, longitude: real, latitude: real, fixType: nat,
        spare: nat, raim: bool, communicationState: nat)
    | ShipStaticData(
        header: Header, aisVersion: nat, imoNumber: nat, callSign: string, name: string, shipType: nat,
        dimension: Dimension, fixType: nat, eta: Eta, maximumStaticDraught: real, destination: string,
        dte: bool, spareBit: bool)
    | SarAircraft(
        header: Header, altitude: nat, speed: nat, positionAccuracy: bool, longitude: real, latitude: real,
        cog: real, timestamp: nat, altFromBaro: bool, dte: bool, assignedMode: bool, raim: bool,
        communicationState: nat)
    | StandardClassB(
        header: Header, sog: real, positionAccuracy: bool, longitude: real, latitude: real, cog: real,
        trueHeading: nat, timestamp: nat, classBUnit: bool, classBDisplay: bool, classBDsc: bool,
        classBBand: bool, classBMsg22: bool, assignedMode: bool, raim: bool,
        communicationStateIsItdma: bool, communicationState: nat)
    | ExtendedClassB(
        header: Header, sog: real, positionAccuracy: bool, longitude: real, latitude: real, cog: real,
        trueHeading: nat, timestamp: nat, name: string, shipType: nat, dimension: Dimension,
        fixType: nat, raim: bool, dte: bool, assignedMode: bool)
    | AidsToNavigation(
        header: Header, aidType: nat, name: string, positionAccuracy: bool, longitude: real,
        latitude: real, dimension: Dimension, fixType: nat, timestamp: nat, offPosition: bool,
        atonStatus: nat, raim: bool, virtualAton: bool, assignedMode: bool, nameExtension: string)
    | StaticData(
        header: Header, partNumber: bool, reserved: nat, reportA: StaticReportA, reportB: StaticReportB)
    | LongRange(
        header: Header, positionAccuracy: bool, raim: bool, navigationalStatus: nat, longitude: real,
        latitude: real, sog: real, cog: real, positionLatency: bool, spareBit: bool)
    | Unknown(header: Header, numBits: nat)

  /** A packet with the routing facts derived from it. */
  datatype Message = Message(
    id: nat, mmsi: nat, packet: Packet, position: Option<(real, real)>, name: Option<string>,
    shipType: Option<nat>, imo: Option<nat>)

  function NonEmpty(s: string): Option<string> {
    if s == "" then None else Some(s)
  }

  function ValidPosition(lat: real, lon: real): Option<(real, real)> {
    if lat == 91.0 || lon == 181.0 || !(-90.0 <= lat <= 90.0) || !(-180.0 <= lon <= 180.0) then None
    else Some((lat, lon))
  }
}
