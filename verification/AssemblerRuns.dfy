/** What the assembler guarantees over whole runs. */
module AssemblerRuns {
  import opened Prelude
  import opened Nmea
  import opened Assembling

  datatype Event = Event(s: Sentence, now: nat)

  predicate WellFormed(evs: seq<Event>) {
    forall i | 0 <= i < |evs| :: WellNumbered(evs[i].s)
  }

  /** The table after a run that starts from `start`. */
  function After(start: Table, ttl: nat, evs: seq<Event>): Table
    requires WellFormed(evs)
  {
    if evs == [] then start else
      var e := evs[|evs| - 1];
      Step(After(start, ttl, evs[..|evs| - 1]), ttl, e.s, e.now).0
  }

  /** What the last event of a nonempty run emits. */
  function LastOutput(start: Table, ttl: nat, evs: seq<Event>): Option<Group>
    requires WellFormed(evs) && evs != []
  {
    var e := evs[|evs| - 1];
    Step(After(start, ttl, evs[..|evs| - 1]), ttl, e.s, e.now).1
  }

  /** The event is a fragment of a multi-fragment group filed under `key`. */
  predicate Concerns(e: Event, key: string) {
    e.s.fragments != 1 && KeyOf(e.s) == key
  }

  /** The most recent copy of fragment `n` of `key` among events from `t` on. */
  function Latest(evs: seq<Event>, t: nat, key: string, n: nat): Option<Sentence> {
    if |evs| <= t then None
    else
      var e := evs[|evs| - 1];
      if Concerns(e, key) && e.s.fragment == n then Some(e.s) else Latest(evs[..|evs| - 1], t, key, n)
  }

  // ----------------------------------------------------------- counting parts

  function Filled(parts: seq<Option<Sentence>>): (n: nat)
    ensures n <= |parts|
  {
    if parts == [] then 0 else Filled(parts[..|parts| - 1]) + (if parts[|parts| - 1] == None then 0 else 1)
  }

  lemma {:induction false} FilledUpdate(parts: seq<Option<Sentence>>, i: nat, s: Sentence)
    requires i < |parts|
    ensures Filled(parts[i := Some(s)]) == Filled(parts) + (if parts[i] == None then 1 else 0)
  {
    var n := |parts| - 1;
    if i < n {
      FilledUpdate(parts[..n], i, s);
      assert parts[i := Some(s)][..n] == parts[..n][i := Some(s)];
    } else {
      assert parts[i := Some(s)][..n] == parts[..n];
    }
  }

  lemma {:induction false} FilledAll(parts: seq<Option<Sentence>>)
    ensures Filled(parts) == |parts| <==> forall i | 0 <= i < |parts| :: parts[i] != None
    ensures Filled(parts) == 0 <==> forall i | 0 <= i < |parts| :: parts[i] == None
  {
    if parts != [] { FilledAll(parts[..|parts| - 1]); }
  }

  // ------------------------------------------------------------------ safety

  /** The entry holds, slot by slot, the latest copies since event `t` opened it; every fragment
      filed since then had the same count and came no later than `ttl` after the first. */
  ghost predicate Gathered(evs: seq<Event>, ttl: nat, t: nat, key: string, p: Pending) {
    && t < |evs| && Concerns(evs[t], key) && p.firstSeen == evs[t].now
    && (forall j | t <= j < |evs| && Concerns(evs[j], key) ::
          evs[j].s.fragments == |p.parts| && evs[j].now <= p.firstSeen + ttl)
    && (forall i | 0 <= i < |p.parts| :: p.parts[i] == Latest(evs, t, key, i + 1))
    && p.have == Filled(p.parts)
  }

  ghost predicate Entry(evs: seq<Event>, ttl: nat, t: nat, key: string, p: Pending) {
    Gathered(evs, ttl, t, key, p) && 1 <= p.have < |p.parts|
  }

  lemma LatestStep(evs: seq<Event>, e: Event, t: nat, key: string, n: nat)
    requires t <= |evs|
    ensures Latest(evs + [e], t, key, n) ==
            if Concerns(e, key) && e.s.fragment == n then Some(e.s) else Latest(evs, t, key, n)
  {
    assert (evs + [e])[..|evs|] == evs;
  }

  lemma LatestBefore(evs: seq<Event>, key: string, n: nat)
    ensures Latest(evs, |evs|, key, n) == None
  {}

  /** An untouched entry stays gathered. */
  lemma OtherEvent(evs: seq<Event>, e: Event, ttl: nat, t: nat, key: string, p: Pending)
    requires Gathered(evs, ttl, t, key, p) && !Concerns(e, key)
    ensures Gathered(evs + [e], ttl, t, key, p)
  {
    forall i | 0 <= i < |p.parts|
      ensures p.parts[i] == Latest(evs + [e], t, key, i + 1)
    {
      LatestStep(evs, e, t, key, i + 1);
    }
  }

  /** Filing a fragment keeps the entry gathered. */
  lemma FileKeeps(evs: seq<Event>, e: Event, ttl: nat, t: nat, p: Pending)
    requires WellNumbered(e.s) && e.s.fragments != 1 && |p.parts| == e.s.fragments
    requires Gathered(evs, ttl, t, KeyOf(e.s), p) && e.now <= p.firstSeen + ttl
    ensures Gathered(evs + [e], ttl, t, KeyOf(e.s), File(p, e.s)) && File(p, e.s).have >= 1
  {
    var q := File(p, e.s);
    FilledUpdate(p.parts, e.s.fragment - 1, e.s);
    FilledAll(q.parts);
    assert q.parts[e.s.fragment - 1] != None;
    forall i | 0 <= i < |q.parts|
      ensures q.parts[i] == Latest(evs + [e], t, KeyOf(e.s), i + 1)
    {
      LatestStep(evs, e, t, KeyOf(e.s), i + 1);
    }
  }

  /** A fragment that opens an entry gathers itself. */
  lemma FileOpens(evs: seq<Event>, e: Event, ttl: nat)
    requires WellNumbered(e.s) && e.s.fragments != 1
    ensures var q := File(Fresh(e.s.fragments, e.now), e.s);
            Gathered(evs + [e], ttl, |evs|, KeyOf(e.s), q) && q.have >= 1
  {
    var p := Fresh(e.s.fragments, e.now);
    var q := File(p, e.s);
    FilledAll(p.parts);
    FilledUpdate(p.parts, e.s.fragment - 1, e.s);
    FilledAll(q.parts);
    forall i | 0 <= i < |q.parts|
      ensures q.parts[i] == Latest(evs + [e], |evs|, KeyOf(e.s), i + 1)
    {
      LatestStep(evs, e, |evs|, KeyOf(e.s), i + 1);
      LatestBefore(evs, KeyOf(e.s), i + 1);
    }
  }

  /** Over every run from the empty table, every pending entry is gathered, partial and nonempty. */
  lemma {:induction false} EntriesAreGathered(ttl: nat, evs: seq<Event>, key: string) returns (t: nat)
    requires WellFormed(evs) && key in After(map[], ttl, evs)
    ensures Entry(evs, ttl, t, key, After(map[], ttl, evs)[key])
    decreases |evs|, 0
  {
    var prior, e := evs[..|evs| - 1], evs[|evs| - 1];
    assert evs == prior + [e];
    var table := After(map[], ttl, prior);
    if Concerns(e, key) {
      t := FiledEntry(ttl, prior, e);
    } else {
      t := EntriesAreGathered(ttl, prior, key);
      OtherEvent(prior, e, ttl, t, key, table[key]);
    }
  }

  /** The entry a fragment is filed in, before it is decided whether the group is complete. */
  lemma {:induction false} FiledEntry(ttl: nat, prior: seq<Event>, e: Event) returns (t: nat)
    requires WellFormed(prior) && WellNumbered(e.s) && e.s.fragments != 1
    ensures var live := Evicted(After(map[], ttl, prior), ttl, e.now);
            var p := File(EntryFor(live, e.s, e.now), e.s);
            Gathered(prior + [e], ttl, t, KeyOf(e.s), p) && p.have >= 1
    decreases |prior|, 1
  {
    var key := KeyOf(e.s);
    var table := After(map[], ttl, prior);
    var live := Evicted(table, ttl, e.now);
    if key in live && |live[key].parts| == e.s.fragments {
      t := EntriesAreGathered(ttl, prior, key);
      FileKeeps(prior, e, ttl, t, table[key]);
    } else {
      t := |prior|;
      FileOpens(prior, e, ttl);
    }
  }

  /** Every emitted multi-fragment group consists, in order, of the latest copy of each of its
      fragments since the entry was opened, all under one key and within one `ttl`. */
  lemma EmittedGroupsAreComplete(ttl: nat, evs: seq<Event>) returns (t: nat, parts: seq<Option<Sentence>>)
    requires WellFormed(evs) && evs != [] && evs[|evs| - 1].s.fragments != 1
    requires LastOutput(map[], ttl, evs).Some?
    ensures var e := evs[|evs| - 1];
            && t < |evs| && LastOutput(map[], ttl, evs) == Some(Join(parts))
            && Gathered(evs, ttl, t, KeyOf(e.s), Pending(parts, |parts|, evs[t].now)) && |parts| == e.s.fragments
            && (forall i | 0 <= i < |parts| :: parts[i].Some? && parts[i].value.fragment == i + 1)
  {
    var prior, e := evs[..|evs| - 1], evs[|evs| - 1];
    assert evs == prior + [e];
    t := FiledEntry(ttl, prior, e);
    var p := File(EntryFor(Evicted(After(map[], ttl, prior), ttl, e.now), e.s, e.now), e.s);
    parts := p.parts;
    FilledAll(parts);
    forall i | 0 <= i < |parts|
      ensures parts[i].Some? && parts[i].value.fragment == i + 1
    {
      LatestIsNumbered(evs, t, KeyOf(e.s), i + 1);
    }
  }

  lemma {:induction false} LatestIsNumbered(evs: seq<Event>, t: nat, key: string, n: nat)
    ensures Latest(evs, t, key, n).Some? ==> Latest(evs, t, key, n).value.fragment == n
    decreases |evs|
  {
    if |evs| > t { LatestIsNumbered(evs[..|evs| - 1], t, key, n); }
  }

  // ------------------------------------------- completeness and non-interference

  /** The fragments of one group: numbered 1 to n, all under one key. */
  predicate IsGroup(fs: seq<Sentence>, key: string) {
    && |fs| >= 2
    && forall i | 0 <= i < |fs| :: fs[i].fragments == |fs| && fs[i].fragment == i + 1 && KeyOf(fs[i]) == key
  }

  /** Some fragment filed under the key has arrived. */
  predicate Begun(evs: seq<Event>, key: string) {
    evs != [] && (Begun(evs[..|evs| - 1], key) || Concerns(evs[|evs| - 1], key))
  }

  /** Fragment `n` of the key has arrived. */
  predicate Arrived(evs: seq<Event>, key: string, n: nat) {
    evs != [] &&
    (Arrived(evs[..|evs| - 1], key, n) || (Concerns(evs[|evs| - 1], key) && evs[|evs| - 1].s.fragment == n))
  }

  predicate AllArrived(evs: seq<Event>, key: string, total: nat) {
    forall n | 1 <= n <= total :: Arrived(evs, key, n)
  }

  /** Everything filed under the key is a fragment of the group; the first of them comes at
      `openedAt`, and no event from then on is later than `ttl` after it. */
  predicate Carries(evs: seq<Event>, fs: seq<Sentence>, key: string, ttl: nat, openedAt: nat) {
    evs == [] ||
    var prior, e := evs[..|evs| - 1], evs[|evs| - 1];
    && Carries(prior, fs, key, ttl, openedAt)
    && WellNumbered(e.s)
    && (Concerns(e, key) ==> e.s.fragment <= |fs| && e.s == fs[e.s.fragment - 1])
    && (Concerns(e, key) && !Begun(prior, key) ==> e.now == openedAt)
    && (Begun(evs, key) ==> e.now <= openedAt + ttl)
  }

  lemma {:induction false} CarriesWellFormed(evs: seq<Event>, fs: seq<Sentence>, key: string, ttl: nat, openedAt: nat)
    requires Carries(evs, fs, key, ttl, openedAt)
    ensures WellFormed(evs)
    decreases |evs|
  {
    if evs != [] {
      CarriesWellFormed(evs[..|evs| - 1], fs, key, ttl, openedAt);
    }
  }

  function Slots(fs: seq<Sentence>, evs: seq<Event>, key: string): (p: seq<Option<Sentence>>)
    ensures |p| == |fs|
  {
    seq(|fs|, i requires 0 <= i < |fs| => if Arrived(evs, key, i + 1) then Some(fs[i]) else None)
  }

  /** Where the key's entry stands after a run that carries the group but not yet all of it. */
  ghost predicate Partial(table: Table, fs: seq<Sentence>, evs: seq<Event>, key: string, openedAt: nat) {
    if Begun(evs, key)
    then key in table && table[key] == Pending(Slots(fs, evs, key), Filled(Slots(fs, evs, key)), openedAt)
    else key !in table
  }

  lemma SlotsStep(fs: seq<Sentence>, prior: seq<Event>, e: Event, key: string)
    requires Concerns(e, key) ==> 1 <= e.s.fragment <= |fs| && e.s == fs[e.s.fragment - 1]
    ensures Slots(fs, prior + [e], key) ==
            if Concerns(e, key) then Slots(fs, prior, key)[e.s.fragment - 1 := Some(e.s)] else Slots(fs, prior, key)
  {
    assert (prior + [e])[..|prior|] == prior;
  }

  lemma {:induction false} NotBegun(fs: seq<Sentence>, evs: seq<Event>, key: string)
    requires !Begun(evs, key)
    ensures Slots(fs, evs, key) == Fresh(|fs|, 0).parts
    decreases |evs|
  {
    if evs != [] {
      NotBegun(fs, evs[..|evs| - 1], key);
      assert evs == evs[..|evs| - 1] + [evs[|evs| - 1]];
      SlotsStep(fs, evs[..|evs| - 1], evs[|evs| - 1], key);
    }
  }

  /** A fragment of the group goes to the group's own entry. */
  lemma FragmentIsFiled(table: Table, ttl: nat, fs: seq<Sentence>, key: string, openedAt: nat,
                        prior: seq<Event>, e: Event)
    requires IsGroup(fs, key) && Concerns(e, key) && WellNumbered(e.s)
    requires e.s.fragment <= |fs| && e.s == fs[e.s.fragment - 1]
    requires e.now <= openedAt + ttl && (!Begun(prior, key) ==> e.now == openedAt)
    requires Partial(table, fs, prior, key, openedAt)
    ensures var live := Evicted(table, ttl, e.now);
            var slots := Slots(fs, prior + [e], key);
            File(EntryFor(live, e.s, e.now), e.s) == Pending(slots, Filled(slots), openedAt)
  {
    hide Slots, Arrived;
    SlotsStep(fs, prior, e, key);
    FilledUpdate(Slots(fs, prior, key), e.s.fragment - 1, e.s);
    if !Begun(prior, key) {
      NotBegun(fs, prior, key);
      FilledAll(Slots(fs, prior, key));
    }
  }

  lemma AllArrivedFills(fs: seq<Sentence>, evs: seq<Event>, key: string)
    ensures Filled(Slots(fs, evs, key)) == |fs| <==> AllArrived(evs, key, |fs|)
    ensures AllArrived(evs, key, |fs|) ==> forall i | 0 <= i < |fs| :: Slots(fs, evs, key)[i] == Some(fs[i])
  {
    FilledAll(Slots(fs, evs, key));
    if !AllArrived(evs, key, |fs|) {
      var n :| 1 <= n <= |fs| && !Arrived(evs, key, n);
      assert Slots(fs, evs, key)[n - 1] == None;
    }
  }

  lemma AllArrivedLater(prior: seq<Event>, e: Event, key: string, total: nat)
    requires AllArrived(prior, key, total)
    ensures AllArrived(prior + [e], key, total)
  {
    assert (prior + [e])[..|prior|] == prior;
  }

  /** Until the last missing fragment arrives the entry holds exactly the arrived ones, and no
      fragment of the group makes the assembler emit, whatever else is going on. */
  lemma {:induction false} PartialUntilComplete(
    start: Table, ttl: nat, fs: seq<Sentence>, key: string, openedAt: nat, evs: seq<Event>)
    requires IsGroup(fs, key) && key !in start && Carries(evs, fs, key, ttl, openedAt)
    requires !AllArrived(evs, key, |fs|)
    ensures WellFormed(evs) && Partial(After(start, ttl, evs), fs, evs, key, openedAt)
    ensures evs != [] && Concerns(evs[|evs| - 1], key) ==> LastOutput(start, ttl, evs) == None
    decreases |evs|
  {
    CarriesWellFormed(evs, fs, key, ttl, openedAt);
    if evs != [] {
      var prior, e := evs[..|evs| - 1], evs[|evs| - 1];
      assert evs == prior + [e];
      if AllArrived(prior, key, |fs|) { AllArrivedLater(prior, e, key, |fs|); }
      PartialUntilComplete(start, ttl, fs, key, openedAt, prior);
      hide AllArrived, Slots, Arrived, File, EntryFor;
      if Concerns(e, key) {
        FragmentIsFiled(After(start, ttl, prior), ttl, fs, key, openedAt, prior, e);
        AllArrivedFills(fs, evs, key);
      } else {
        SlotsStep(fs, prior, e, key);
      }
    }
  }

  function Raws(fs: seq<Sentence>): seq<string> {
    if fs == [] then [] else Raws(fs[..|fs| - 1]) + [fs[|fs| - 1].raw]
  }

  function Payloads(fs: seq<Sentence>): string {
    if fs == [] then "" else Payloads(fs[..|fs| - 1]) + fs[|fs| - 1].payload
  }

  /** The group in fragment order, with the fill bits and channel of the last fragment. */
  function GroupOf(fs: seq<Sentence>): Group
    requires fs != []
  {
    Group(Raws(fs), Payloads(fs), fs[|fs| - 1].fillBits, fs[|fs| - 1].channel)
  }

  lemma {:induction false} JoinAll(fs: seq<Sentence>, parts: seq<Option<Sentence>>)
    requires fs != [] && |parts| == |fs| && forall i | 0 <= i < |fs| :: parts[i] == Some(fs[i])
    ensures Join(parts) == GroupOf(fs)
  {
    var n := |fs| - 1;
    if n == 0 {
      assert parts[..0] == [] && fs[..0] == [];
      assert Raws(fs[..0]) == [] && Payloads(fs[..0]) == "";
    } else {
      JoinAll(fs[..n], parts[..n]);
    }
  }

  /** The fragments of a group, in any order, repeated and mixed with any other traffic, are joined
      when the last missing one arrives within `ttl` of the first, and the entry is then gone. */
  lemma LastMissingFragmentEmits(
    start: Table, ttl: nat, fs: seq<Sentence>, key: string, openedAt: nat, prior: seq<Event>, e: Event)
    requires IsGroup(fs, key) && key !in start && Carries(prior + [e], fs, key, ttl, openedAt)
    requires !AllArrived(prior, key, |fs|) && AllArrived(prior + [e], key, |fs|)
    ensures WellFormed(prior + [e]) && LastOutput(start, ttl, prior + [e]) == Some(GroupOf(fs))
    ensures key !in After(start, ttl, prior + [e])
  {
    var evs := prior + [e];
    assert evs[..|evs| - 1] == prior && evs[|evs| - 1] == e;
    CarriesWellFormed(evs, fs, key, ttl, openedAt);
    PartialUntilComplete(start, ttl, fs, key, openedAt, prior);
    NewlyComplete(prior, e, key, |fs|);
    FragmentIsFiled(After(start, ttl, prior), ttl, fs, key, openedAt, prior, e);
    AllArrivedFills(fs, evs, key);
    hide AllArrived, Slots, Arrived, File, EntryFor;
    JoinAll(fs, Slots(fs, evs, key));
  }

  lemma NewlyComplete(prior: seq<Event>, e: Event, key: string, total: nat)
    requires !AllArrived(prior, key, total) && AllArrived(prior + [e], key, total)
    ensures Concerns(e, key)
  {
    assert (prior + [e])[..|prior|] == prior;
    var n :| 1 <= n <= total && !Arrived(prior, key, n);
    assert Arrived(prior + [e], key, n);
  }

  // ------------------------------------------------------------------- keys

  /** Parsed sentences have two-character talkers, so without a bar in a channel the key determines
      talker, channel and sequence number. */
  lemma KeysAreInjective(a: Sentence, b: Sentence)
    requires |a.talker| == |b.talker| && '|' !in a.channel && '|' !in b.channel
    ensures KeyOf(a) == KeyOf(b) <==> a.talker == b.talker && a.channel == b.channel && a.seqId == b.seqId
  {
    if KeyOf(a) == KeyOf(b) {
      var n := |a.talker|;
      assert KeyOf(a)[..n] == a.talker && KeyOf(b)[..n] == b.talker;
      assert KeyOf(a)[n + 1..] == a.channel + "|" + a.seqId && KeyOf(b)[n + 1..] == b.channel + "|" + b.seqId;
      BarsAlign(a.channel, a.seqId, b.channel, b.seqId);
    }
  }

  lemma {:induction false} BarsAlign(a: string, x: string, b: string, y: string)
    requires '|' !in a && '|' !in b && a + "|" + x == b + "|" + y
    ensures a == b && x == y
  {
    var s, t := a + "|" + x, b + "|" + y;
    assert s[0] == (if a == "" then '|' else a[0]) && t[0] == (if b == "" then '|' else b[0]);
    assert s[1..] == (if a == "" then x else a[1..] + "|" + x) && t[1..] == (if b == "" then y else b[1..] + "|" + y);
    if a != "" && b != "" {
      BarsAlign(a[1..], x, b[1..], y);
      assert a == [s[0]] + a[1..] && b == [t[0]] + b[1..];
    }
  }

  /** A bar in the channel moves the rest of the channel into the sequence number. */
  function ShiftedRight(a: Sentence, i: nat): Sentence
    requires i < |a.channel|
  {
    a.(channel := a.channel[..i], seqId := a.channel[i + 1..] + "|" + a.seqId)
  }

  /** A bar in the sequence number moves its start into the channel. */
  function ShiftedLeft(a: Sentence, i: nat): Sentence
    requires i < |a.seqId|
  {
    a.(channel := a.channel + "|" + a.seqId[..i], seqId := a.seqId[i + 1..])
  }

  lemma ShiftsCollide(a: Sentence, i: nat)
    ensures i < |a.channel| && a.channel[i] == '|' ==>
              KeyOf(ShiftedRight(a, i)) == KeyOf(a) && ShiftedRight(a, i).channel != a.channel
    ensures i < |a.seqId| && a.seqId[i] == '|' ==>
              KeyOf(ShiftedLeft(a, i)) == KeyOf(a) && ShiftedLeft(a, i).channel != a.channel
  {
    if i < |a.channel| && a.channel[i] == '|' {
      var c := ShiftedRight(a, i);
      assert a.channel == c.channel + "|" + a.channel[i + 1..];
      assert KeyOf(c) == KeyOf(a);
    }
    if i < |a.seqId| && a.seqId[i] == '|' {
      var c := ShiftedLeft(a, i);
      assert a.seqId == a.seqId[..i] + "|" + c.seqId;
      assert KeyOf(c) == KeyOf(a);
    }
  }

  /** Some other channel or sequence number of a talker as long gives the same key. */
  ghost predicate Collides(a: Sentence) {
    exists b: Sentence ::
      |b.talker| == |a.talker| && KeyOf(b) == KeyOf(a) && !(b.channel == a.channel && b.seqId == a.seqId)
  }

  /** A sentence's key is its own exactly when neither its channel nor its sequence number has a bar. */
  lemma KeyIsSharedIff(a: Sentence)
    ensures Collides(a) <==> '|' in a.channel || '|' in a.seqId
  {
    if '|' in a.channel {
      var i :| 0 <= i < |a.channel| && a.channel[i] == '|';
      ShiftsCollide(a, i);
      assert |ShiftedRight(a, i).talker| == |a.talker|;
    } else if '|' in a.seqId {
      var i :| 0 <= i < |a.seqId| && a.seqId[i] == '|';
      ShiftsCollide(a, i);
      assert |ShiftedLeft(a, i).talker| == |a.talker|;
    } else {
      forall b: Sentence | |b.talker| == |a.talker| && KeyOf(b) == KeyOf(a)
        ensures b.channel == a.channel && b.seqId == a.seqId
      {
        var n := |a.talker|;
        assert KeyOf(a)[n + 1..] == a.channel + "|" + a.seqId && KeyOf(b)[n + 1..] == b.channel + "|" + b.seqId;
        OnlyBarAligns(a.channel, a.seqId, b.channel, b.seqId);
      }
    }
  }

  lemma OnlyBarAligns(a: string, x: string, b: string, y: string)
    requires '|' !in a && '|' !in x && a + "|" + x == b + "|" + y
    ensures a == b && x == y
  {
    var s := a + "|" + x;
    assert s[|b|] == '|' by { assert (b + "|" + y)[|b|] == '|'; }
    assert forall j | 0 <= j < |s| && s[j] == '|' :: j == |a|;
    assert s[..|a|] == a && (b + "|" + y)[..|b|] == b;
    assert s[|a| + 1..] == x && (b + "|" + y)[|b| + 1..] == y;
  }

  /** Two sentences that share a key are joined into one group, whatever their channels. */
  lemma SharedKeyMixes(a: Sentence, b: Sentence, ttl: nat, now: nat)
    requires KeyOf(a) == KeyOf(b) && a.fragments == b.fragments == 2 && a.fragment == 1 && b.fragment == 2
    ensures var table := Step(map[], ttl, a, now).0;
            Step(table, ttl, b, now).1 ==
              Some(Group([a.raw, b.raw], a.payload + b.payload, b.fillBits, b.channel))
  {
    var key := KeyOf(a);
    var p := Pending([Some(a), None], 1, now);
    var parts := [Some(a), Some(b)];
    assert Evicted(map[], ttl, now) == map[];
    assert File(Fresh(2, now), a) == p by { assert Fresh(2, now).parts[0 := Some(a)] == [Some(a), None]; }
    assert Evicted(map[key := p], ttl, now) == map[key := p];
    assert File(p, b) == Pending(parts, 2, now);
    JoinsTwo(a, b);
    hide KeyOf, Join, File, Evicted, Fresh;
    assert Step(map[], ttl, a, now).0 == map[key := p];
  }

  lemma JoinsTwo(a: Sentence, b: Sentence)
    ensures Join([Some(a), Some(b)]) == Group([a.raw, b.raw], a.payload + b.payload, b.fillBits, b.channel)
  {
    var parts := [Some(a), Some(b)];
    assert parts[..1] == [Some(a)] && [Some(a)][..0] == [];
    assert Join([Some(a)]) == Group([] + [a.raw], "" + a.payload, a.fillBits, a.channel);
  }
}
