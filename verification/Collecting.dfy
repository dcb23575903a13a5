/** Which rows the archiver makes of a published message. */
module Collecting {
  import opened Prelude
  import opened AisTypes
  import opened StaticsTable
  import AisCodec
  import AisMeaning
  import BitSeq
  import PipelineRuns
  import SixBit
  import Archiver
  import Pipeline

  datatype PositionRow = PositionRow(
    ts: nat, mmsi: nat, msgType: string, lat: real, lon: real, sog: Option<real>, cog: Option<real>,
    heading: Option<nat>, navStatus: Option<nat>, station: string)

  // -------------------------------------- the published fields, by their names

  /** Latitude and longitude, of the kinds whose positions are archived. */
  function Coordinates(p: Packet): Option<(real, real)> {
    match p
    case PositionReport(_, _, _, _, _, lon, lat, _, _, _, _, _, _, _) => Some((lat, lon))
    case BaseStationReport(_, _, _, _, _, _, _, _, lon, lat, _, _, _, _) => Some((lat, lon))
    case SarAircraft(_, _, _, _, lon, lat, _, _, _, _, _, _, _) => Some((lat, lon))
    case StandardClassB(_, _, _, lon, lat, _, _, _, _, _, _, _, _, _, _, _, _) => Some((lat, lon))
    case ExtendedClassB(_, _, _, lon, lat, _, _, _, _, _, _, _, _, _, _) => Some((lat, lon))
    case AidsToNavigation(_, _, _, _, lon, lat, _, _, _, _, _, _, _, _, _) => Some((lat, lon))
    case LongRange(_, _, _, _, lon, lat, _, _, _, _) => Some((lat, lon))
    case _ => None
  }

  /** Speed and course over ground. */
  function Motion(p: Packet): Option<(real, real)> {
    match p
    case PositionReport(_, _, _, sog, _, _, _, cog, _, _, _, _, _, _) => Some((sog, cog))
    case SarAircraft(_, _, speed, _, _, _, cog, _, _, _, _, _, _) => Some((speed as real, cog))
    case StandardClassB(_, sog, _, _, _, cog, _, _, _, _, _, _, _, _, _, _, _) => Some((sog, cog))
    case ExtendedClassB(_, sog, _, _, _, cog, _, _, _, _, _, _, _, _, _) => Some((sog, cog))
    case LongRange(_, _, _, _, _, _, sog, cog, _, _) => Some((sog, cog))
    case _ => None
  }

  function TrueHeading(p: Packet): Option<nat> {
    match p
    case PositionReport(_, _, _, _, _, _, _, _, hdg, _, _, _, _, _) => Some(hdg)
    case StandardClassB(_, _, _, _, _, _, hdg, _, _, _, _, _, _, _, _, _, _) => Some(hdg)
    case ExtendedClassB(_, _, _, _, _, _, hdg, _, _, _, _, _, _, _, _) => Some(hdg)
    case _ => None
  }

  function NavigationalStatus(p: Packet): Option<nat> {
    match p
    case PositionReport(_, ns, _, _, _, _, _, _, _, _, _, _, _, _) => Some(ns)
    case LongRange(_, _, _, ns, _, _, _, _, _, _) => Some(ns)
    case _ => None
  }

  function Below(x: Option<real>, limit: real): Option<real> {
    if x.Some? && x.value < limit then x else None
  }

  // ------------------------------------------------------------------- rows

  function PositionRows(p: Packet, ts: nat, station: string): seq<PositionRow> {
    match Coordinates(p)
    case None => []
    case Some(at) =>
      if !(-90.0 <= at.0 <= 90.0 && -180.0 <= at.1 <= 180.0) then [] else
        var sog := match Motion(p) case Some(m) => Below(Some(m.0), 102.3) case None => None;
        var cog := match Motion(p) case Some(m) => Below(Some(m.1), 360.0) case None => None;
        var heading := match TrueHeading(p) case Some(h) => (if h < 511 then Some(h) else None) case None => None;
        [PositionRow(ts, p.header.userId, Pipeline.TypeName(p), at.0, at.1, sog, cog, heading,
                     NavigationalStatus(p), station)]
  }

  /** A type 24 gives the fields of the halves that were sent, the other fields being empty. */
  function StaticRows(p: Packet, ts: nat): seq<Static> {
    match p
    case ShipStaticData(h, _, imo, call, name, ty, dim, _, _, draught, dest, _, _) =>
      [Static(ts, h.userId, Columns(name, call, imo, ty, dest, draught, dim))]
    case StaticData(h, _, _, a, b) =>
      [Static(ts, h.userId,
              Columns(if a.valid then a.name else "", if b.valid then b.callSign else "", 0,
                      if b.valid then b.shipType else 0, "", 0.0, if b.valid then b.dimension else NO_DIMENSION))]
    case _ => []
  }

  /** One message through the archiver's buffer. */
  method Archive(w: Archiver.Writer<PositionRow, Static>, p: Packet, ts: nat, station: string,
                 first: Archiver.Answer, second: Archiver.Answer)
    requires w.Valid()
    modifies w
    ensures w.Valid() && w.Conserved() && |w.positions| + |w.statics| <= Archiver.MAX_BUFFER
    ensures w.history == Archiver.Next(old(w.history),
                                       Archiver.Message(PositionRows(p, ts, station), StaticRows(p, ts), first, second))
  {
    w.Collect(PositionRows(p, ts, station), StaticRows(p, ts), first, second);
  }

  /** The archive agrees with the routing: a message yields a position row exactly when the pipeline
      took it to have a position, at that position; at most one row in all. */
  lemma ArchivedWhereRouted(p: Packet, ts: nat, station: string)
    ensures var (ps, ss, m) := (PositionRows(p, ts, station), StaticRows(p, ts), AisCodec.Describe(p));
            && |ps| + |ss| <= 1
            && (ps != [] <==> m.position.Some?)
            && (ps != [] ==> m.position.value == (ps[0].lat, ps[0].lon) && ps[0].mmsi == m.mmsi)
            && (ss != [] <==> p.ShipStaticData? || p.StaticData?)
            && (ss != [] ==> ss[0].mmsi == m.mmsi)
  {
    if at :| Coordinates(p) == Some(at) {
      assert AisCodec.Describe(p).position == ValidPosition(at.0, at.1);
    }
  }

  /** An aircraft reports whole knots, 1023 meaning none, but the limit is that of a ship's tenths: of the
      speeds it can report, those from 103 on are lost. */
  lemma AircraftSpeedKeptIff(p: Packet, ts: nat, station: string)
    requires p.SarAircraft? && p.speed < 1023 && PositionRows(p, ts, station) != []
    ensures PositionRows(p, ts, station)[0].sog == Some(p.speed as real) <==> p.speed <= 102
    ensures PositionRows(p, ts, station)[0].sog == None <==> p.speed >= 103
  {}

  /** For a decoded message the row's name is the one the pipeline caches, or empty. */
  lemma ArchivedName(b: seq<bool>, id: nat, ts: nat)
    ensures var p := AisCodec.ReadPacket(b, id);
            StaticRows(p, ts) != [] ==>
              StaticRows(p, ts)[0].columns.name == match AisCodec.Describe(p).name case Some(n) => n case None => ""
  {
    hide AisCodec.ReadHeader, AisCodec.ReadDimension;
  }

  // ------------------------------------------------------ columns from the bits

  /** A reading in tenths, absent from `limit` on. */
  function TenthsUnder(v: nat, limit: nat): Option<real> {
    if v < limit then Some(v as real / 10.0) else None
  }

  /** What the optional columns of a decoded message's position row hold. */
  predicate MotionOfTheBits(row: PositionRow, b: seq<bool>) {
    match BitSeq.UInt(b, 0, 6)
    case 9 =>
      && row.sog == (if BitSeq.UInt(b, 50, 10) <= 102 then Some(BitSeq.UInt(b, 50, 10) as real) else None)
      && row.cog == TenthsUnder(BitSeq.UInt(b, 116, 12), 3600) && row.heading == None && row.navStatus == None
    case 27 =>
      && row.sog == Some(BitSeq.UInt(b, 79, 6) as real)
      && row.cog == (if BitSeq.UInt(b, 85, 9) < 360 then Some(BitSeq.UInt(b, 85, 9) as real) else None)
      && row.heading == None && row.navStatus == Some(BitSeq.UInt(b, 40, 4))
    case id =>
      if id == 18 || id == 19 then
        && row.sog == TenthsUnder(BitSeq.UInt(b, 46, 10), 1023)
        && row.cog == TenthsUnder(BitSeq.UInt(b, 112, 12), 3600)
        && row.heading == HeadingOf(BitSeq.UInt(b, 124, 9)) && row.navStatus == None
      else if 1 <= id <= 3 then
        && row.sog == TenthsUnder(BitSeq.UInt(b, 50, 10), 1023)
        && row.cog == TenthsUnder(BitSeq.UInt(b, 116, 12), 3600)
        && row.heading == HeadingOf(BitSeq.UInt(b, 128, 9)) && row.navStatus == Some(BitSeq.UInt(b, 38, 4))
      else
        row.sog == None && row.cog == None && row.heading == None && row.navStatus == None
  }

  function HeadingOf(v: nat): Option<nat> {
    if v == 511 then None else Some(v)
  }

  lemma LimitsInTenths(v: nat)
    ensures Below(Some(AisCodec.Tenths(v)), 102.3) == TenthsUnder(v, 1023)
    ensures Below(Some(AisCodec.Tenths(v)), 360.0) == TenthsUnder(v, 3600)
  {}

  lemma LimitsInUnits(v: nat)
    ensures Below(Some(v as real), 102.3) == if v <= 102 then Some(v as real) else None
    ensures Below(Some(v as real), 360.0) == if v < 360 then Some(v as real) else None
  {}

  lemma FieldWidths(b: seq<bool>)
    ensures BitSeq.UInt(b, 79, 6) < 64 && BitSeq.UInt(b, 128, 9) < 512 && BitSeq.UInt(b, 124, 9) < 512
  {
    hide BitSeq.Pow2, BitSeq.UInt;
    BitSeq.UIntBound(b, 79, 6);
    BitSeq.UIntBound(b, 128, 9);
    BitSeq.UIntBound(b, 124, 9);
    AisMeaning.Powers();
  }

  lemma MotionRead(b: seq<bool>, ts: nat, station: string)
    ensures var rows := PositionRows(AisCodec.ReadPacket(b, BitSeq.UInt(b, 0, 6)), ts, station);
            rows != [] ==> MotionOfTheBits(rows[0], b)
  {
    hide BitSeq.UInt, BitSeq.Int, BitSeq.Bit, SixBit.Str, AisCodec.FromFine, AisCodec.FromCoarse,
      AisCodec.ReadDimension, AisCodec.ReadHeader, Pipeline.TypeName, AisCodec.Tenths, Below, TenthsUnder;
    FieldWidths(b);
    LimitsInTenths(BitSeq.UInt(b, 46, 10));
    LimitsInTenths(BitSeq.UInt(b, 50, 10));
    LimitsInTenths(BitSeq.UInt(b, 112, 12));
    LimitsInTenths(BitSeq.UInt(b, 116, 12));
    LimitsInUnits(BitSeq.UInt(b, 50, 10));
    LimitsInUnits(BitSeq.UInt(b, 79, 6));
    LimitsInUnits(BitSeq.UInt(b, 85, 9));
  }

  /** A decoded message's position row is stamped with its time, MMSI, type and station, and each optional
      column holds the field of its layout, or nothing when that says it is not available. */
  lemma PositionRowOfTheBits(b: seq<bool>, ts: nat, station: string)
    requires AisCodec.DecodeBits(b).Ok?
    ensures var p := AisCodec.DecodeBits(b).value.packet;
            PositionRows(p, ts, station) != [] ==>
              var row := PositionRows(p, ts, station)[0];
              && row.ts == ts && row.station == station && row.mmsi == BitSeq.UInt(b, 8, 30)
              && PipelineRuns.TypeNameTells(row.msgType, p)
              && MotionOfTheBits(row, b)
  {
    var id := BitSeq.UInt(b, 0, 6);
    AisMeaning.AcceptedMessages(b);
    PipelineRuns.TypeNamesTell(AisCodec.ReadPacket(b, id));
    hide Motion, TrueHeading, NavigationalStatus, MotionOfTheBits, AisCodec.ReadPacket, Pipeline.TypeName,
      PipelineRuns.TypeNameTells, Below, AisMeaning.LayoutOf;
    assert AisCodec.DecodeBits(b).value.packet == AisCodec.ReadPacket(b, id);
    MotionRead(b, ts, station);
  }

  /** A decoded message's static row holds what its layout carries, and otherwise empty columns: all of
      type 5, the name of a part A of type 24, and call sign, ship type and dimension of a part B. */
  lemma StaticRowOfTheBits(b: seq<bool>, ts: nat)
    requires AisCodec.DecodeBits(b).Ok?
    ensures var (rows, id, part) := (StaticRows(AisCodec.DecodeBits(b).value.packet, ts), BitSeq.UInt(b, 0, 6),
                                     BitSeq.UInt(b, 38, 2));
            if id == 5 then
              rows == [Static(ts, BitSeq.UInt(b, 8, 30),
                              Columns(SixBit.Str(b, 112, 120), SixBit.Str(b, 70, 42), BitSeq.UInt(b, 40, 30),
                                      BitSeq.UInt(b, 232, 8), SixBit.Str(b, 302, 120),
                                      BitSeq.UInt(b, 294, 8) as real / 10.0, AisCodec.ReadDimension(b, 240)))]
            else if id == 24 then
              rows == [Static(ts, BitSeq.UInt(b, 8, 30),
                              Columns(if part == 0 then SixBit.Str(b, 40, 120) else "",
                                      if part == 1 then SixBit.Str(b, 90, 42) else "", 0,
                                      if part == 1 then BitSeq.UInt(b, 40, 8) else 0, "", 0.0,
                                      if part == 1 then AisCodec.ReadDimension(b, 132) else NO_DIMENSION))]
            else rows == []
  {
    hide BitSeq.UInt, BitSeq.Int, BitSeq.Bit, SixBit.Str, AisCodec.FromFine, AisCodec.FromCoarse,
      AisCodec.ReadDimension;
  }

  // ------------------------------------------------------- names over a history

  /** A published packet and the timestamp it is archived under. */
  datatype Heard = Heard(p: Packet, ts: nat)

  /** The static rows of a history, in the order they are inserted. */
  function StaticLog(hs: seq<Heard>): seq<Static> {
    if hs == [] then [] else StaticLog(hs[..|hs| - 1]) + StaticRows(hs[|hs| - 1].p, hs[|hs| - 1].ts)
  }

  /** A static message of the vessel. */
  predicate Tells(h: Heard, mmsi: nat) {
    (h.p.ShipStaticData? || h.p.StaticData?) && h.p.header.userId == mmsi
  }

  /** It carries the vessel's name: a type 5 with one, or part A of a type 24. */
  predicate Names(h: Heard, mmsi: nat) {
    && Tells(h, mmsi)
    && (h.p.ShipStaticData? ==> h.p.name != "")
    && (h.p.StaticData? ==> h.p.reportA.valid && h.p.reportA.name != "")
  }

  /** Message `i` is a newest static one of the vessel, and the last of those. */
  ghost predicate NewestTold(hs: seq<Heard>, mmsi: nat, i: nat) {
    && i < |hs| && Tells(hs[i], mmsi)
    && (forall j | 0 <= j < i && Tells(hs[j], mmsi) :: hs[j].ts <= hs[i].ts)
    && (forall j | i < j < |hs| && Tells(hs[j], mmsi) :: hs[j].ts < hs[i].ts)
  }

  lemma RowsTell(h: Heard, mmsi: nat)
    ensures var rows := StaticRows(h.p, h.ts);
            && |rows| <= 1
            && (Tells(h, mmsi) <==> rows != [] && rows[0].mmsi == mmsi)
            && (rows != [] ==> rows[0].ts == h.ts)
            && (Names(h, mmsi) <==> rows != [] && rows[0].mmsi == mmsi && rows[0].columns.name != "")
  {}

  /** A vessel shows the row of its newest static message. */
  lemma {:induction false} ShownIsNewestTold(hs: seq<Heard>, mmsi: nat) returns (i: nat)
    ensures mmsi in Visible(StaticLog(hs)) ==>
              NewestTold(hs, mmsi, i) && StaticRows(hs[i].p, hs[i].ts) == [Visible(StaticLog(hs))[mmsi]]
    ensures mmsi !in Visible(StaticLog(hs)) ==> forall j | 0 <= j < |hs| :: !Tells(hs[j], mmsi)
  {
    i := 0;
    if hs != [] {
      var init, last := hs[..|hs| - 1], hs[|hs| - 1];
      i := ShownIsNewestTold(init, mmsi);
      RowsTell(last, mmsi);
      var log, rows := StaticLog(init), StaticRows(last.p, last.ts);
      assert StaticLog(hs) == log + rows;
      assert hs == init + [last];
      hide Visible, StaticRows, StaticLog;
      if mmsi in Visible(log) { RowsTell(init[i], mmsi); }
      if rows == [] {
        assert log + rows == log;
      } else {
        assert rows == [rows[0]];
        VisibleGrows(log, rows[0]);
      }
      if Tells(last, mmsi) && (mmsi !in Visible(log) || last.ts >= Visible(log)[mmsi].ts) {
        i := |init|;
      }
      NewestStep(init, last, mmsi);
    }
  }

  /** A message takes over as the newest unless it says nothing of the vessel or is older. */
  lemma NewestStep(hs: seq<Heard>, last: Heard, mmsi: nat)
    ensures (forall j | 0 <= j < |hs| :: !Tells(hs[j], mmsi)) && Tells(last, mmsi) ==>
              NewestTold(hs + [last], mmsi, |hs|)
    ensures forall i: nat | NewestTold(hs, mmsi, i) ::
              if Tells(last, mmsi) && last.ts >= hs[i].ts then NewestTold(hs + [last], mmsi, |hs|)
              else NewestTold(hs + [last], mmsi, i)
  {
    hide Tells;
  }

  lemma {:induction false} SomeoneNamedIt(hs: seq<Heard>, mmsi: nat)
    ensures mmsi in Visible(NamedRows(StaticLog(hs))) <==> exists j :: 0 <= j < |hs| && Names(hs[j], mmsi)
  {
    if hs != [] {
      var init, last := hs[..|hs| - 1], hs[|hs| - 1];
      SomeoneNamedIt(init, mmsi);
      RowsTell(last, mmsi);
      var log, rows := StaticLog(init), StaticRows(last.p, last.ts);
      assert StaticLog(hs) == log + rows;
      assert forall j | 0 <= j < |init| :: hs[j] == init[j];
      hide Visible, StaticRows, StaticLog, NamedRows, Names;
      if rows == [] {
        assert log + rows == log;
      } else {
        assert rows == [rows[0]];
        NamedRowsGrow(log, rows[0]);
      }
      if j :| 0 <= j < |init| && Names(init[j], mmsi) { assert Names(hs[j], mmsi); }
    }
  }

  lemma NamedRowsGrow(log: seq<Static>, r: Static)
    ensures forall mmsi ::
              mmsi in Visible(NamedRows(log + [r])) <==>
              mmsi in Visible(NamedRows(log)) || (r.mmsi == mmsi && r.columns.name != "")
  {
    assert (log + [r])[..|log|] == log;
    if r.columns.name != "" {
      VisibleGrows(NamedRows(log), r);
    } else {
      assert NamedRows(log) + [] == NamedRows(log);
    }
  }

  /** The archive shows the latest name a vessel has reported exactly when its newest static message is
      one that names it, or none ever did. */
  lemma ArchiveShowsLatestNameIff(hs: seq<Heard>, mmsi: nat)
    ensures ShownName(StaticLog(hs), mmsi) == LatestName(StaticLog(hs), mmsi) <==>
            (exists i: nat :: NewestTold(hs, mmsi, i) && Names(hs[i], mmsi)) ||
            (forall j | 0 <= j < |hs| :: !Names(hs[j], mmsi))
  {
    LatestNameShowsIff(StaticLog(hs), mmsi);
    SomeoneNamedIt(hs, mmsi);
    var i := ShownIsNewestTold(hs, mmsi);
    if mmsi in Visible(StaticLog(hs)) {
      RowsTell(hs[i], mmsi);
      forall k: nat | NewestTold(hs, mmsi, k) ensures k == i {}
    }
  }

  /** So part B of a type 24 hides the name of every vessel that ever gave one, until it gives it again. */
  lemma {:induction false} PartBHidesTheName(hs: seq<Heard>, h: Heard)
    requires h.p.StaticData? && !h.p.reportA.valid
    requires forall j | 0 <= j < |hs| && Tells(hs[j], h.p.header.userId) :: hs[j].ts <= h.ts
    ensures var mmsi := h.p.header.userId;
            && ShownName(StaticLog(hs + [h]), mmsi) == ""
            && LatestName(StaticLog(hs + [h]), mmsi) == LatestName(StaticLog(hs), mmsi)
  {
    var mmsi := h.p.header.userId;
    var log, rows := StaticLog(hs), StaticRows(h.p, h.ts);
    assert (hs + [h])[..|hs|] == hs;
    var i := ShownIsNewestTold(hs, mmsi);
    RowsTell(h, mmsi);
    if mmsi in Visible(log) { RowsTell(hs[i], mmsi); }
    assert rows == [rows[0]];
    hide Visible, ShownName, LatestName;
    UnnamedRowHides(log, rows[0]);
  }
}
