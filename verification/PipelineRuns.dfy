/** What the service answers each envelope of a run, told from the envelopes received before it. */
module PipelineRuns {
  import opened Prelude
  import opened AisTypes
  import opened Dedupe
  import opened Fanout
  import opened Pipeline
  import AisCodec
  import Nmea

  /** The payload keys of a run's readable envelopes and when each came. */
  function CallsReceived(es: seq<Event>): seq<Call> {
    if es == [] then [] else
      var calls := CallsReceived(es[..|es| - 1]);
      match es[|es| - 1]
      case Receive(Some(r), _) => calls + [Call(r.key, r.at)]
      case _ => calls
  }

  lemma {:induction false} CallsAreReceived(es: seq<Event>, ttl: nat)
    ensures Run(es, ttl).calls == CallsReceived(es)
  {
    hide HeededBy, OutcomeOf, Count, Learn;
    if es != [] { CallsAreReceived(es[..|es| - 1], ttl); }
  }

  /** An accepted copy of the payload came at most `ttl` before the envelope. */
  ghost predicate CameRecently(calls: seq<Call>, r: Raw, ttl: nat) {
    exists i: nat ::
      i < |calls| && calls[i].key == r.key && Accepted(calls, ttl, i) && r.at - calls[i].at <= ttl
  }

  lemma DuplicateIffCameRecently(start: nat, calls: seq<Call>, r: Raw, ttl: nat)
    requires Monotone(start, calls + [Call(r.key, r.at)])
    ensures IsDuplicate(calls, r, ttl) <==> CameRecently(calls, r, ttl)
  {
    hide Remembered, Heard;
    var all, n := calls + [Call(r.key, r.at)], |calls|;
    assert all[..n] == calls;
    forall i: nat | i < n ensures Accepted(all, ttl, i) <==> Accepted(calls, ttl, i) {
      assert all[..i] == calls[..i];
    }
    RejectedIffRecentlyAccepted(start, all, ttl, n);
  }

  /** The payload names a vessel: it decodes, and not to MMSI 0. */
  predicate NamesAVessel(r: Raw) {
    var decoded := AisCodec.Decode(r.payload, r.fillBits);
    decoded.Ok? && decoded.value.mmsi > 0
  }

  /** On monotone time an envelope of any run is dropped as a duplicate exactly when an accepted copy
      came within the preceding `ttl`; of the others those that name a vessel go out, if publishing
      succeeds, and the rest are rejected. */
  lemma AnswersFollowTheRun(es: seq<Event>, r: Raw, publishOk: bool, start: nat, ttl: nat)
    requires Monotone(start, CallsReceived(es) + [Call(r.key, r.at)])
    ensures var outcome := OutcomeOf(Run(es, ttl), Some(r), publishOk, ttl);
            if CameRecently(CallsReceived(es), r, ttl) then outcome == Duplicate
            else if !NamesAVessel(r) then outcome == Rejected
            else if publishOk then outcome.Sent?
            else outcome == PublishFailed
    ensures OutcomeOf(Run(es, ttl), None, publishOk, ttl) == Rejected
  {
    hide IsDuplicate, CameRecently, Run, Publication, AisCodec.Decode;
    CallsAreReceived(es, ttl);
    DuplicateIffCameRecently(start, CallsReceived(es), r, ttl);
  }

  // ------------------------------------------------------------------ counters

  /** What the service answered to each envelope of a run, readable or not. */
  function Outcomes(es: seq<Event>, ttl: nat): seq<Outcome> {
    if es == [] then [] else
      var init, last := es[..|es| - 1], es[|es| - 1];
      Outcomes(init, ttl) +
      if last.Trim? then [] else [OutcomeOf(Run(init, ttl), last.raw, last.publishOk, ttl)]
  }

  function Tally(outcomes: seq<Outcome>, kind: Outcome -> bool): nat {
    if outcomes == [] then 0 else
      Tally(outcomes[..|outcomes| - 1], kind) + if kind(outcomes[|outcomes| - 1]) then 1 else 0
  }

  predicate Repeated(o: Outcome) { o.Duplicate? }
  predicate Refused(o: Outcome) { o.Rejected? }
  predicate Unsent(o: Outcome) { o.PublishFailed? }
  predicate Published(o: Outcome) { o.Sent? }

  lemma TallyGrows(outcomes: seq<Outcome>, o: Outcome, kind: Outcome -> bool)
    ensures Tally(outcomes + [o], kind) == Tally(outcomes, kind) + if kind(o) then 1 else 0
  {
    assert (outcomes + [o])[..|outcomes|] == outcomes;
  }

  /** Each counter counts the answers of its kind; a message that could not be published counts both as
      decoded and as an error. */
  lemma {:induction false} CountersTally(es: seq<Event>, ttl: nat)
    ensures var (stats, all) := (Run(es, ttl).stats, Outcomes(es, ttl));
            && stats.received == |all|
            && stats.duplicates == Tally(all, Repeated)
            && stats.decodeErrors == Tally(all, Refused) + Tally(all, Unsent)
            && stats.decoded == Tally(all, Published) + Tally(all, Unsent)
            && stats.published == Tally(all, Published)
  {
    hide OutcomeOf, HeededBy, Learn;
    if es != [] {
      var init, last := es[..|es| - 1], es[|es| - 1];
      CountersTally(init, ttl);
      var all := Outcomes(init, ttl);
      if last.Trim? {
        assert all + [] == all;
      } else {
        var o := OutcomeOf(Run(init, ttl), last.raw, last.publishOk, ttl);
        TallyGrows(all, o, Repeated);
        TallyGrows(all, o, Refused);
        TallyGrows(all, o, Unsent);
        TallyGrows(all, o, Published);
      }
    }
  }

  // ------------------------------------------------------------------- history

  /** The history the cache is faithful to: a message is heeded exactly when the answer is to publish it,
      whether or not that succeeds, and the cache is cleared only when a trim finds it too large. */
  lemma HistoryFollowsTheAnswers(es: seq<Event>, e: Event, ttl: nat)
    ensures var (s, t) := (Run(es, ttl), Run(es + [e], ttl));
            match e
            case Receive(raw, ok) =>
              var outcome := OutcomeOf(s, raw, ok, ttl);
              if outcome.Sent? || outcome.PublishFailed?
              then raw.Some? && NamesAVessel(raw.value) &&
                   t.log == s.log + [Heeded(AisCodec.Decode(raw.value.payload, raw.value.fillBits).value)]
              else t.log == s.log && t.lastPos == s.lastPos
            case Trim =>
              if |s.lastPos| > 1_000_000 then t.lastPos == map[] && t.log == s.log + [Cleared]
              else t == s
  {
    hide IsDuplicate, Publication, AisCodec.Decode, Count, Learn;
    assert (es + [e])[..|es|] == es;
  }

  // ------------------------------------------------------------------- headers

  /** The layout each type name stands for. */
  predicate TypeNameTells(kind: string, p: Packet) {
    && (kind == "PositionReport" <==> p.PositionReport?)
    && (kind == "BaseStationReport" <==> p.BaseStationReport?)
    && (kind == "ShipStaticData" <==> p.ShipStaticData?)
    && (kind == "StandardSearchAndRescueAircraftReport" <==> p.SarAircraft?)
    && (kind == "StandardClassBPositionReport" <==> p.StandardClassB?)
    && (kind == "ExtendedClassBPositionReport" <==> p.ExtendedClassB?)
    && (kind == "AidsToNavigationReport" <==> p.AidsToNavigation?)
    && (kind == "StaticDataReport" <==> p.StaticData?)
    && (kind == "LongRangeAisBroadcastMessage" <==> p.LongRange?)
    && (kind == "Unknown" <==> p.Unknown?)
  }

  lemma SarNameTells(p: Packet)
    ensures TypeName(p) == "StandardSearchAndRescueAircraftReport" <==> p.SarAircraft?
  {}

  lemma ClassBNamesTell(p: Packet)
    ensures TypeName(p) == "StandardClassBPositionReport" <==> p.StandardClassB?
    ensures TypeName(p) == "ExtendedClassBPositionReport" <==> p.ExtendedClassB?
  {}

  lemma LongNamesTell(p: Packet)
    ensures TypeName(p) == "LongRangeAisBroadcastMessage" <==> p.LongRange?
    ensures TypeName(p) == "AidsToNavigationReport" <==> p.AidsToNavigation?
  {}

  lemma ShortNamesTell(p: Packet)
    ensures TypeName(p) == "PositionReport" <==> p.PositionReport?
    ensures TypeName(p) == "BaseStationReport" <==> p.BaseStationReport?
    ensures TypeName(p) == "ShipStaticData" <==> p.ShipStaticData?
    ensures TypeName(p) == "StaticDataReport" <==> p.StaticData?
    ensures TypeName(p) == "Unknown" <==> p.Unknown?
  {}

  lemma TypeNamesTell(p: Packet)
    ensures TypeNameTells(TypeName(p), p)
  {
    hide TypeName;
    SarNameTells(p);
    ClassBNamesTell(p);
    LongNamesTell(p);
    ShortNamesTell(p);
  }

  /** Whatever is published carries the vessel's MMSI, readable as a number, and a type that tells the
      packet's layout. */
  lemma HeadersIdentify(es: seq<Event>, r: Raw, ttl: nat)
    ensures var outcome := OutcomeOf(Run(es, ttl), Some(r), true, ttl);
            outcome.Sent? ==>
              var (headers, decoded) := (outcome.out.headers, AisCodec.Decode(r.payload, r.fillBits));
              && NamesAVessel(r) && headers.mmsi.Some? && headers.msgType.Some?
              && Nmea.DigitsValue(headers.mmsi.value, 10) == Some(decoded.value.mmsi)
              && TypeNameTells(headers.msgType.value, decoded.value.packet)
  {
    hide IsDuplicate, Run, RouteOf, AisCodec.Decode, TypeName, TypeNameTells, Nmea.Decimal, Nmea.DigitsValue;
    var decoded := AisCodec.Decode(r.payload, r.fillBits);
    if decoded.Ok? {
      Nmea.DecimalDigits(decoded.value.mmsi);
      TypeNamesTell(decoded.value.packet);
    }
  }
}
