/** From a packet to sentences, over any interleaving, through reassembly and back to a message. */
module EndToEnd {
  import opened Prelude
  import opened BitSeq
  import opened BitBuffer
  import opened Layout
  import opened AisTypes
  import opened AisCodec
  import opened AisRoundTrip
  import opened Nmea
  import opened NmeaRoundTrip
  import opened Assembling
  import opened AssemblerRuns

  /** No encoded message is longer than the 424 bits of type 5. */
  lemma EncodedIsShort(p: Packet)
    requires WellTagged(p)
    ensures |FieldBits(Fields(p))| <= 424
  {
    hide FieldBits, Fields, Normalize, ReadPacket, Need, UInt;
    LayoutRead(p);
  }

  /** The sentences a packet is printed as, parsed. */
  function Fragments(p: Packet, channel: string, seqNo: nat): (fs: seq<Sentence>)
    requires WellTagged(p)
    ensures |fs| == |ChunksOf(Encoded(p).value.0)|
  {
    var (payload, fill) := Encoded(p).value;
    seq(|ChunksOf(payload)|, i requires 0 <= i < |ChunksOf(payload)| =>
      ExpectedSentence(payload, fill, channel, seqNo, i))
  }

  lemma EncodedIsPrintable(p: Packet, channel: string)
    requires WellTagged(p) && ',' !in channel
    ensures var (payload, fill) := Encoded(p).value;
            Printable(payload, fill, channel) && |ChunksOf(payload)| <= 2
  {
    EncodedIsShort(p);
    hide FieldBits, Armored, Dearmored, Fields, ChunksOf, AllArmor;
    DearmorArmored(FieldBits(Fields(p)));
    FewChunks(Encoded(p).value.0);
  }

  lemma FewChunks(payload: string)
    requires |payload| <= 2 * MAX_PAYLOAD_CHARS
    ensures |ChunksOf(payload)| <= 2
  {
    if |payload| > MAX_PAYLOAD_CHARS {
      assert |payload[MAX_PAYLOAD_CHARS..]| <= MAX_PAYLOAD_CHARS;
    }
  }

  /** No printed line of an encoded packet is rejected, and each parses to its fragment. */
  lemma LinesParse(p: Packet, channel: string, seqNo: nat, i: nat)
    requires WellTagged(p) && ',' !in channel && i < |Fragments(p, channel, seqNo)|
    ensures var (payload, fill) := Encoded(p).value;
            Parse(ToSentences(payload, fill, channel, seqNo)[i]) == Ok(Fragments(p, channel, seqNo)[i])
  {
    hide Encoded, Parse;
    EncodedIsPrintable(p, channel);
    var (payload, fill) := Encoded(p).value;
    PrintedGroupParses(payload, fill, channel, seqNo, i);
  }

  lemma {:induction false} PayloadsFlatten(fs: seq<Sentence>, chunks: seq<string>)
    requires |fs| == |chunks| && forall i | 0 <= i < |fs| :: fs[i].payload == chunks[i]
    ensures Payloads(fs) == Flatten(chunks)
  {
    if fs != [] {
      var n := |fs| - 1;
      PayloadsFlatten(fs[..n], chunks[..n]);
      FlattenAppend(chunks[..n], [chunks[n]]);
      assert chunks == chunks[..n] + [chunks[n]];
      assert Flatten([chunks[n]]) == chunks[n] by { assert [chunks[n]][1..] == []; }
    }
  }

  /** The parsed fragments are numbered 1 to n and share one key. */
  lemma FragmentsAreOneGroup(p: Packet, channel: string, seqNo: nat)
    requires WellTagged(p)
    ensures var fs := Fragments(p, channel, seqNo);
            |fs| >= 1 && (|fs| >= 2 ==> IsGroup(fs, KeyOf(fs[0])))
  {
    hide Encoded, ToSentences;
    ChunksJoin(Encoded(p).value.0);
  }

  /** Their joined payload and final fill bits are the encoded ones. */
  lemma FragmentsFormTheGroup(p: Packet, channel: string, seqNo: nat)
    requires WellTagged(p)
    ensures var fs := Fragments(p, channel, seqNo);
            |fs| >= 1 && (GroupOf(fs).payload, GroupOf(fs).fillBits) == Encoded(p).value
  {
    hide Encoded, ToSentences, Payloads, Flatten, ChunksOf, SeqField;
    var (payload, fill) := Encoded(p).value;
    var fs := Fragments(p, channel, seqNo);
    ChunksJoin(payload);
    PayloadsFlatten(fs, ChunksOf(payload));
  }

  /** A single-sentence packet goes straight through to its message. */
  lemma SingleSentenceDecodes(p: Packet, channel: string, seqNo: nat, table: Table, ttl: nat, now: nat)
    requires WellTagged(p) && ',' !in channel && |Fragments(p, channel, seqNo)| == 1
    ensures var s := Fragments(p, channel, seqNo)[0];
            && WellNumbered(s)
            && Step(table, ttl, s, now).0 == table && Step(table, ttl, s, now).1.Some?
            && var g := Step(table, ttl, s, now).1.value;
               Decode(g.payload, g.fillBits) == Ok(Describe(Normalize(p)))
  {
    hide Encoded, Decode, Describe, Normalize;
    FragmentsFormTheGroup(p, channel, seqNo);
    PayloadRoundTrip(p);
    var fs := Fragments(p, channel, seqNo);
    assert Payloads(fs[..0]) == "" && Payloads(fs) == "" + fs[0].payload;
  }

  /** The fragments of a longer packet, in any order, repeated and interleaved with any other
      traffic, yield the packet's message when the last missing one arrives within `ttl`. */
  lemma FragmentsDecode(p: Packet, channel: string, seqNo: nat, start: Table, ttl: nat, openedAt: nat,
                        prior: seq<Event>, e: Event)
    requires WellTagged(p) && ',' !in channel && |Fragments(p, channel, seqNo)| >= 2
    requires var fs := Fragments(p, channel, seqNo);
             var key := KeyOf(fs[0]);
             && key !in start && Carries(prior + [e], fs, key, ttl, openedAt)
             && !AllArrived(prior, key, |fs|) && AllArrived(prior + [e], key, |fs|)
    ensures WellFormed(prior + [e]) && LastOutput(start, ttl, prior + [e]).Some?
    ensures var g := LastOutput(start, ttl, prior + [e]).value;
            && Decode(g.payload, g.fillBits) == Ok(Describe(Normalize(p)))
            && g.sentences == Raws(Fragments(p, channel, seqNo))
  {
    hide Encoded, Decode, Describe, Normalize, Carries, AllArrived, After, Fragments;
    FragmentsAreOneGroup(p, channel, seqNo);
    FragmentsFormTheGroup(p, channel, seqNo);
    var fs := Fragments(p, channel, seqNo);
    LastMissingFragmentEmits(start, ttl, fs, KeyOf(fs[0]), openedAt, prior, e);
    PayloadRoundTrip(p);
  }

  // --------------------------------------------------------------- shared keys

  /** The parser lets bars through, so keys are shared on real input: for every channel with a bar and
      no comma, and every sequence number without a comma, the first fragment of a two-fragment group
      and the second fragment of one on another channel both parse, and are joined into one group. */
  lemma BarsMixGroups(channel: string, i: nat, seqField: string, chunk: string, other: string, fill: nat,
                      ttl: nat, now: nat)
    requires i < |channel| && channel[i] == '|' && ',' !in channel && ',' !in seqField
    requires AllArmor(chunk) && AllArmor(other) && fill <= 5
    ensures var moved := channel[i + 1..] + "|" + seqField;
            var first := Parse(Line(Body(2, 1, seqField, channel, chunk, 0)));
            var second := Parse(Line(Body(2, 2, moved, channel[..i], other, fill)));
            && first.Ok? && second.Ok? && first.value.channel != second.value.channel
            && WellNumbered(first.value) && WellNumbered(second.value)
            && var table := Step(map[], ttl, first.value, now).0;
               Step(table, ttl, second.value, now).1.Some? &&
               Step(table, ttl, second.value, now).1.value.payload == chunk + other
  {
    hide Parse, Line, Body, Step, AllArmor;
    var moved := channel[i + 1..] + "|" + seqField;
    ArmorHasNoComma(chunk);
    ArmorHasNoComma(other);
    assert ',' !in moved && ',' !in channel[..i];
    PrintedLineParses(2, 1, seqField, channel, chunk, 0);
    PrintedLineParses(2, 2, moved, channel[..i], other, fill);
    var a := Parse(Line(Body(2, 1, seqField, channel, chunk, 0))).value;
    var b := Parse(Line(Body(2, 2, moved, channel[..i], other, fill))).value;
    ShiftsCollide(a, i);
    assert KeyOf(b) == KeyOf(ShiftedRight(a, i));
    SharedKeyMixes(a, b, ttl, now);
  }
}
