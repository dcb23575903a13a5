/** Reassembly of multi-fragment sentence groups, with lazy eviction of stale partial groups. */
module Assembling {
  import opened Prelude
  import opened Nmea

  datatype Group = Group(sentences: seq<string>, payload: string, fillBits: nat, channel: string)

  /** A partial group: `have` slots of `parts` are filled. */
  datatype Pending = Pending(parts: seq<Option<Sentence>>, have: nat, firstSeen: nat)

  type Table = map<string, Pending>

  /** What `parse` guarantees of the numbering. */
  predicate WellNumbered(s: Sentence) {
    1 <= s.fragment <= s.fragments
  }

  function KeyOf(s: Sentence): string {
    s.talker + "|" + s.channel + "|" + s.seqId
  }

  function Evicted(table: Table, ttl: nat, now: nat): Table {
    map k | k in table && Since(now, table[k].firstSeen) <= ttl :: table[k]
  }

  function Fresh(total: nat, now: nat): (p: Pending)
    ensures |p.parts| == total
  {
    Pending(seq(total, _ => None), 0, now)
  }

  /** The entry a fragment goes to: the pending one, or a new one if there is none of its size. */
  function EntryFor(table: Table, s: Sentence, now: nat): (p: Pending)
    ensures |p.parts| == s.fragments
  {
    var key := KeyOf(s);
    if key in table && |table[key].parts| == s.fragments then table[key] else Fresh(s.fragments, now)
  }

  function File(p: Pending, s: Sentence): Pending
    requires WellNumbered(s) && |p.parts| == s.fragments
  {
    var i := s.fragment - 1;
    Pending(p.parts[i := Some(s)], p.have + (if p.parts[i] == None then 1 else 0), p.firstSeen)
  }

  /** The group spelled by the filled parts, in order. */
  function Join(parts: seq<Option<Sentence>>): Group {
    if parts == [] then Group([], "", 0, "") else
      var g := Join(parts[..|parts| - 1]);
      match parts[|parts| - 1]
      case None => g
      case Some(s) => Group(g.sentences + [s.raw], g.payload + s.payload, s.fillBits, s.channel)
  }

  /** One call of `add`. */
  function Step(table: Table, ttl: nat, s: Sentence, now: nat): (Table, Option<Group>)
    requires WellNumbered(s)
  {
    if s.fragments == 1 then (table, Some(Group([s.raw], s.payload, s.fillBits, s.channel)))
    else
      var live := Evicted(table, ttl, now);
      var p := File(EntryFor(live, s, now), s);
      if p.have < s.fragments then (live[KeyOf(s) := p], None)
      else (live - {KeyOf(s)}, Some(Join(p.parts)))
  }

  class Assembler {
    const ttl: nat
    var pending: Table

    constructor (ttl: nat)
      ensures this.ttl == ttl && pending == map[]
    {
      this.ttl := ttl;
      pending := map[];
    }

    method Evict(now: nat)
      modifies this
      ensures pending == Evicted(old(pending), ttl, now)
      ensures forall k :: k in pending <==> k in old(pending) && now <= old(pending)[k].firstSeen + ttl
      ensures forall k | k in pending :: pending[k] == old(pending)[k]
    {
      pending := map k | k in pending && Since(now, pending[k].firstSeen) <= ttl :: pending[k];
    }

    method Add(s: Sentence, now: nat) returns (r: Option<Group>)
      requires WellNumbered(s)
      modifies this
      ensures (pending, r) == Step(old(pending), ttl, s, now)
    {
      if s.fragments == 1 {
        return Some(Group([s.raw], s.payload, s.fillBits, s.channel));
      }
      Evict(now);
      ghost var live := pending;
      var key := KeyOf(s);
      var total := s.fragments;
      if key !in pending {
        pending := pending[key := Fresh(total, now)];
      }
      if |pending[key].parts| != total {
        pending := pending[key := Fresh(total, now)];
      }
      var p := pending[key];
      var idx := s.fragment - 1;
      if p.parts[idx] == None {
        p := p.(have := p.have + 1);
      }
      p := p.(parts := p.parts[idx := Some(s)]);
      pending := pending[key := p];
      assert p == File(EntryFor(live, s, now), s);
      assert pending == live[key := p];
      if p.have < total {
        return None;
      }
      pending := pending - {key};
      assert pending == live - {key};
      var g := JoinParts(p.parts);
      r := Some(g);
    }
  }

  method JoinParts(parts: seq<Option<Sentence>>) returns (g: Group)
    ensures g == Join(parts)
  {
    g := Group([], "", 0, "");
    for i := 0 to |parts|
      invariant g == Join(parts[..i])
    {
      assert parts[..i + 1][..i] == parts[..i];
      match parts[i] {
        case None =>
        case Some(s) =>
          g := Group(g.sentences + [s.raw], g.payload + s.payload, s.fillBits, s.channel);
      }
    }
    assert parts[..|parts|] == parts;
  }
}
