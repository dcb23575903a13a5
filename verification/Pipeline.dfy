/** The pipeline service: deduplicate, decode, remember each vessel's position, and publish every
    message on the subject of the cell it belongs to. */
module Pipeline {
  import opened Prelude
  import opened Geo
  import opened Cover
  import opened AisTypes
  import opened Dedupe
  import opened Fanout
  import AisCodec
  import AisFixpoint
  import AisRoundTrip
  import BitSeq
  import Nmea
  import Subjects

  const CACHE_CAP := 1_000_000

  /** A raw envelope: the payload, the hash the window keys it by, and when it is handled. */
  datatype Raw = Raw(payload: string, fillBits: nat, key: nat, at: nat)

  /** What `last_pos` keeps for a vessel. */
  datatype Fix = Fix(cell: Hash, lat: real, lon: real)

  datatype Published = Published(subject: string, headers: Headers)

  datatype Outcome = Duplicate | Rejected | PublishFailed | Sent(out: Published)

  datatype Stats = Stats(received: nat, decoded: nat, duplicates: nat, decodeErrors: nat, published: nat)

  function TypeName(p: Packet): string {
    match p
    case PositionReport(_, _, _, _, _, _, _, _, _, _, _, _, _, _) => "PositionReport"
    case BaseStationReport(_, _, _, _, _, _, _, _, _, _, _, _, _, _) => "BaseStationReport"
    case ShipStaticData(_, _, _, _, _, _, _, _, _, _, _, _, _) => "ShipStaticData"
    case SarAircraft(_, _, _, _, _, _, _, _, _, _, _, _, _) => "StandardSearchAndRescueAircraftReport"
    case StandardClassB(_, _, _, _, _, _, _, _, _, _, _, _, _, _, _, _, _) => "StandardClassBPositionReport"
    case ExtendedClassB(_, _, _, _, _, _, _, _, _, _, _, _, _, _, _) => "ExtendedClassBPositionReport"
    case AidsToNavigation(_, _, _, _, _, _, _, _, _, _, _, _, _, _, _) => "AidsToNavigationReport"
    case StaticData(_, _, _, _, _) => "StaticDataReport"
    case LongRange(_, _, _, _, _, _, _, _, _, _) => "LongRangeAisBroadcastMessage"
    case Unknown(_, _) => "Unknown"
  }

  // ------------------------------------------------------------ specification

  /** One step of the service: an envelope (`None` when its JSON does not parse) with the outcome of
      its publication, or the periodic trim. */
  datatype Event = Receive(raw: Option<Raw>, publishOk: bool) | Trim

  /** What the history of one run has that bears on routing. */
  datatype Entry = Heeded(msg: Message) | Cleared

  datatype State = State(calls: seq<Call>, lastPos: map<nat, Fix>, stats: Stats, log: seq<Entry>)

  const START := State([], map[], Stats(0, 0, 0, 0, 0), [])

  predicate IsDuplicate(calls: seq<Call>, raw: Raw, ttl: nat) {
    Heard(Remembered(calls, ttl), Call(raw.key, raw.at), ttl)
  }

  /** The decoded message, unless it does not decode or carries no identity. */
  function Understood(raw: Raw): Option<Message> {
    match AisCodec.Decode(raw.payload, raw.fillBits)
    case Err(_) => None
    case Ok(msg) => if msg.mmsi == 0 then None else Some(msg)
  }

  function FixOf(position: (real, real)): Fix {
    Fix(Geohash(position.0, position.1, GEOHASH_PRECISION), position.0, position.1)
  }

  function RouteOf(lastPos: map<nat, Fix>, msg: Message): Option<Fix> {
    match msg.position
    case Some(p) => Some(FixOf(p))
    case None => if msg.mmsi in lastPos then Some(lastPos[msg.mmsi]) else None
  }

  function Learn(lastPos: map<nat, Fix>, msg: Message): map<nat, Fix> {
    match msg.position
    case Some(p) => lastPos[msg.mmsi := FixOf(p)]
    case None => lastPos
  }

  function Publication(lastPos: map<nat, Fix>, msg: Message): Published {
    var mmsi, kind := Some(Nmea.Decimal(msg.mmsi)), Some(TypeName(msg.packet));
    match RouteOf(lastPos, msg)
    case Some(fix) =>
      Published(Subjects.Decoded(fix.cell), Headers(Some(Round6(fix.lat)), Some(Round6(fix.lon)), mmsi, kind))
    case None => Published(Subjects.NO_POSITION, Headers(None, None, mmsi, kind))
  }

  function OutcomeOf(s: State, raw: Option<Raw>, publishOk: bool, ttl: nat): Outcome {
    match raw
    case None => Rejected
    case Some(r) =>
      if IsDuplicate(s.calls, r, ttl) then Duplicate else
        match Understood(r)
        case None => Rejected
        case Some(msg) => if publishOk then Sent(Publication(s.lastPos, msg)) else PublishFailed
  }

  function Count(stats: Stats, outcome: Outcome): Stats {
    var s := stats.(received := stats.received + 1);
    match outcome
    case Duplicate => s.(duplicates := s.duplicates + 1)
    case Rejected => s.(decodeErrors := s.decodeErrors + 1)
    case PublishFailed => s.(decoded := s.decoded + 1, decodeErrors := s.decodeErrors + 1)
    case Sent(_) => s.(decoded := s.decoded + 1, published := s.published + 1)
  }

  /** The message an event makes the service heed: not a duplicate, and understood. */
  function HeededBy(s: State, raw: Option<Raw>, ttl: nat): Option<Message> {
    match raw
    case None => None
    case Some(r) => if IsDuplicate(s.calls, r, ttl) then None else Understood(r)
  }

  function Next(s: State, e: Event, ttl: nat): State {
    match e
    case Receive(raw, ok) =>
      var calls := match raw case None => s.calls case Some(r) => s.calls + [Call(r.key, r.at)];
      var stats := Count(s.stats, OutcomeOf(s, raw, ok, ttl));
      (match HeededBy(s, raw, ttl)
       case None => State(calls, s.lastPos, stats, s.log)
       case Some(msg) => State(calls, Learn(s.lastPos, msg), stats, s.log + [Heeded(msg)]))
    case Trim =>
      if |s.lastPos| > CACHE_CAP then s.(lastPos := map[], log := s.log + [Cleared]) else s
  }

  // ------------------------------------------------------------- the service

  class Service {
    const window: Window
    var lastPos: map<nat, Fix>
    var stats: Stats
    ghost var log: seq<Entry>

    ghost predicate Valid()
      reads this, window
    {
      window.Valid()
    }

    ghost function Abstract(): State
      reads this, window
    {
      State(window.calls, lastPos, stats, log)
    }

    constructor (ttl: nat, now: nat)
      ensures Valid() && fresh(window) && Abstract() == START && window.ttl == ttl && window.start == now
    {
      window := new Window(ttl, now);
      lastPos, stats, log := map[], Stats(0, 0, 0, 0, 0), [];
    }

    /** Remember a position, or recall the vessel's last one. */
    method Route(msg: Message) returns (route: Option<Fix>)
      modifies `lastPos
      ensures route == RouteOf(old(lastPos), msg) && lastPos == Learn(old(lastPos), msg)
    {
      hide Geohash;
      if msg.position.Some? {
        var (lat, lon) := msg.position.value;
        var cell := Geohash(lat, lon, GEOHASH_PRECISION);
        lastPos := lastPos[msg.mmsi := Fix(cell, lat, lon)];
        route := Some(Fix(cell, lat, lon));
      } else if msg.mmsi in lastPos {
        route := Some(lastPos[msg.mmsi]);
      } else {
        route := None;
      }
    }

    /** One pass of the service loop over a received envelope. */
    method Handle(raw: Option<Raw>, publishOk: bool) returns (outcome: Outcome)
      requires Valid() && (raw.Some? ==> raw.value.at >= Latest(window.start, window.calls))
      modifies this, window
      ensures Valid()
      ensures Abstract() == Next(old(Abstract()), Receive(raw, publishOk), window.ttl)
      ensures outcome == OutcomeOf(old(Abstract()), raw, publishOk, window.ttl)
    {
      hide Round6, AisCodec.Decode, Remembered, Nmea.Decimal, Subjects.Decoded, TypeName, RouteOf, Learn, Heard;
      stats := stats.(received := stats.received + 1);
      if raw.None? {
        stats := stats.(decodeErrors := stats.decodeErrors + 1);
        return Rejected;
      }
      var r := raw.value;
      var duplicate := window.Seen(r.key, r.at);
      if duplicate {
        stats := stats.(duplicates := stats.duplicates + 1);
        return Duplicate;
      }
      var decoded := AisCodec.Decode(r.payload, r.fillBits);
      if decoded.Err? || decoded.value.mmsi == 0 {
        stats := stats.(decodeErrors := stats.decodeErrors + 1);
        return Rejected;
      }
      var msg := decoded.value;
      stats := stats.(decoded := stats.decoded + 1);
      log := log + [Heeded(msg)];
      var route := Route(msg);
      if !publishOk {
        stats := stats.(decodeErrors := stats.decodeErrors + 1);
        return PublishFailed;
      }
      var subject := Subjects.NO_POSITION;
      var headers := Headers(None, None, Some(Nmea.Decimal(msg.mmsi)), Some(TypeName(msg.packet)));
      if route.Some? {
        subject := Subjects.Decoded(route.value.cell);
        headers := headers.(lat := Some(Round6(route.value.lat)), lon := Some(Round6(route.value.lon)));
      }
      stats := stats.(published := stats.published + 1);
      outcome := Sent(Published(subject, headers));
    }

    method DoTrim()
      requires Valid()
      modifies this
      ensures Valid() && Abstract() == Next(old(Abstract()), Trim, window.ttl)
      ensures |lastPos| <= CACHE_CAP && (lastPos == old(lastPos) || |old(lastPos)| > CACHE_CAP)
      ensures old(Inv(Abstract())) ==> Inv(Abstract())
    {
      ghost var before := Abstract();
      if Inv(before) { StepKeepsInv(before, Trim, window.ttl); }
      if |lastPos| > CACHE_CAP {
        lastPos := map[];
        log := log + [Cleared];
      }
    }
  }

  // --------------------------------------------------------------- properties

  /** The vessel's latest heeded position since the cache was last cleared, read off the history. */
  function LatestPosition(log: seq<Entry>, mmsi: nat): Option<(real, real)> {
    if log == [] then None else
      match log[|log| - 1]
      case Cleared => None
      case Heeded(msg) =>
        if msg.mmsi == mmsi && msg.position.Some? then msg.position else LatestPosition(log[..|log| - 1], mmsi)
  }

  /** The cache holds exactly the latest positions, each beside the cell it lies in. */
  ghost predicate Faithful(lastPos: map<nat, Fix>, log: seq<Entry>) {
    forall mmsi: nat ::
      match LatestPosition(log, mmsi)
      case Some(p) => mmsi in lastPos && lastPos[mmsi] == FixOf(p) && WORLD.Contains(p.0, p.1)
      case None => mmsi !in lastPos
  }

  ghost predicate Inv(s: State) {
    && Faithful(s.lastPos, s.log)
    && s.stats.received == s.stats.duplicates + s.stats.decodeErrors + s.stats.published
    && s.stats.published <= s.stats.decoded <= s.stats.published + s.stats.decodeErrors
  }

  lemma PositionIsOnEarth(raw: Raw)
    ensures Understood(raw).Some? && Understood(raw).value.position.Some? ==>
              var p := Understood(raw).value.position.value; WORLD.Contains(p.0, p.1)
  {
    hide AisCodec.ReadPacket;
  }

  lemma LearningStaysFaithful(lastPos: map<nat, Fix>, log: seq<Entry>, msg: Message)
    requires Faithful(lastPos, log)
    requires msg.position.Some? ==> WORLD.Contains(msg.position.value.0, msg.position.value.1)
    ensures Faithful(Learn(lastPos, msg), log + [Heeded(msg)])
  {
    assert (log + [Heeded(msg)])[..|log|] == log;
  }

  lemma StepKeepsInv(s: State, e: Event, ttl: nat)
    requires Inv(s)
    ensures Inv(Next(s, e, ttl))
  {
    hide Understood, IsDuplicate, FixOf;
    match e {
      case Receive(raw, _) =>
        var msg := HeededBy(s, raw, ttl);
        if msg.Some? {
          PositionIsOnEarth(raw.value);
          LearningStaysFaithful(s.lastPos, s.log, msg.value);
        }
      case Trim =>
    }
  }

  function Run(es: seq<Event>, ttl: nat): State {
    if es == [] then START else Next(Run(es[..|es| - 1], ttl), es[|es| - 1], ttl)
  }

  lemma {:induction false} EveryRunKeepsInv(es: seq<Event>, ttl: nat)
    ensures Inv(Run(es, ttl))
  {
    if es != [] {
      EveryRunKeepsInv(es[..|es| - 1], ttl);
      StepKeepsInv(Run(es[..|es| - 1], ttl), es[|es| - 1], ttl);
    }
  }

  /** Where a heeded message belongs: its own position, or the vessel's latest one. */
  function Whereabouts(s: State, msg: Message): Option<(real, real)> {
    if msg.position.Some? then msg.position else LatestPosition(s.log, msg.mmsi)
  }

  /** In every reachable state a message goes out on the subject of the cell of its unrounded
      whereabouts, or on the subject for no position, with the rounded position in the headers. */
  lemma PublishedWhereItBelongs(es: seq<Event>, raw: Raw, ttl: nat)
    ensures var s := Run(es, ttl);
            var outcome := OutcomeOf(s, Some(raw), true, ttl);
            outcome.Sent? ==>
              match Whereabouts(s, Understood(raw).value)
              case Some(p) =>
                && WORLD.Contains(p.0, p.1)
                && outcome.out.subject == Subjects.Decoded(Geohash(p.0, p.1, GEOHASH_PRECISION))
                && outcome.out.headers.lat == Some(Round6(p.0)) && outcome.out.headers.lon == Some(Round6(p.1))
              case None => outcome.out.subject == Subjects.NO_POSITION && outcome.out.headers.lat == None
  {
    hide Run, Understood, IsDuplicate, Geohash, Round6, Subjects.Decoded, TypeName, Nmea.Decimal;
    EveryRunKeepsInv(es, ttl);
    PositionIsOnEarth(raw);
  }

  /** Every message the pipeline publishes, in any reachable state, reaches each client exactly once
      if the client's filter accepts it, and otherwise not at all. */
  lemma DeliveredExactlyOnce(es: seq<Event>, raw: Raw, ttl: nat, filter: ClientFilter, prefixes: seq<string>)
    requires ShadowFree(CoverUnion(filter.boxes), prefixes)
    ensures var outcome := OutcomeOf(Run(es, ttl), Some(raw), true, ttl);
            outcome.Sent? ==>
              Copies(filter, prefixes, outcome.out.subject, outcome.out.headers) ==
              if filter.Matches(outcome.out.headers) then 1 else 0
  {
    hide Run, Understood, IsDuplicate, Publication, Geohash, Round6, Subjects.Decoded, CoverUnion, ShadowFree;
    PublishedWhereItBelongs(es, raw, ttl);
    var s, outcome := Run(es, ttl), OutcomeOf(Run(es, ttl), Some(raw), true, ttl);
    if outcome.Sent? {
      var subject, headers := outcome.out.subject, outcome.out.headers;
      match Whereabouts(s, Understood(raw).value) {
        case Some(p) => ExactlyOnce(filter, prefixes, p.0, p.1, headers);
        case None => NoPositionNeverSent(filter, prefixes, subject, headers);
      }
    }
  }

  /** A class A report from the position that rounding carries out of its box. */
  const HAIR_REPORT := PositionReport(
    Header(1, 0, 1, true), 0, 0, 0.0, false, HAIR_LON, HAIR_LAT, 0.0, 0, 0, 0, 0, false, 0)

  /** Such a position is received: the report's payload decodes to it. */
  lemma HairPositionIsReported(key: nat, at: nat)
    ensures AisCodec.Encoded(HAIR_REPORT).Some?
    ensures var (payload, fill) := AisCodec.Encoded(HAIR_REPORT).value;
            var msg := Understood(Raw(payload, fill, key, at));
            msg.Some? && msg.value.position == Some((HAIR_LAT, HAIR_LON))
  {
    hide AisCodec.Encoded, AisCodec.Decode;
    HairReportInRange();
    AisFixpoint.SurvivesExactlyInRange(HAIR_REPORT);
    HairRounds();
  }

  lemma HairReportInRange()
    ensures AisRoundTrip.WellTagged(HAIR_REPORT) && AisFixpoint.InRange(HAIR_REPORT)
  {
    AisFixpoint.FineRead(1, 27);
    AisFixpoint.FineRead(300000, 28);
    FineFits();
    AisFixpoint.TenthsRead(0, 10);
    AisFixpoint.TenthsRead(0, 12);
    hide AisFixpoint.OnFine, AisFixpoint.OnTenths, AisCodec.FromFine;
  }

  lemma FineFits()
    ensures BitSeq.FitsSigned(1, 27) && BitSeq.FitsSigned(300000, 28)
  {
    hide BitSeq.Pow2;
    AisFixpoint.Pow2Zero();
    AisFixpoint.Pow2Four(0);
    AisFixpoint.Pow2Four(4);
    AisFixpoint.Pow2Four(8);
    AisFixpoint.Pow2Four(12);
    AisFixpoint.Pow2Four(16);
    BitSeq.Pow2Monotone(20, 26);
    BitSeq.Pow2Positive(27);
    BitSeq.Pow2Positive(28);
  }
}
