# OpenSeaFeed, verified

A Dafny model of OpenSeaFeed, a pipeline for AIS (ship transponder) traffic. A receiver's NMEA lines are
parsed, reassembled, deduplicated, decoded, geohashed onto a NATS subject and fanned out to clients that
subscribe to bounding boxes; an archiver stores what passes, an importer backfills daily dumps, and a worker
process feeds lines in. The model follows the program component by component and proves what the components
promise, alone and chained together:

* **Exactly-once delivery.** For every list of boxes, the budgeted prefix search, the shadow removal and the
  wildcard subscriptions together deliver every positioned message exactly once to each client whose filter
  accepts its headers, and never to another (`Fanout.ExactlyOnce`), in every reachable state of the pipeline
  (`Pipeline.DeliveredExactlyOnce`). The subject is made from the exact position and the filter reads
  coordinates rounded to six decimals; the cells subscribed to have edges at multiples of 10^-6 degrees, so
  every message the filter would accept is received. The converse fails at a box's edge, where rounding can
  carry a position out (`Fanout.RoundingCanLeaveABox`).
* **The AIS codec.** Byte buffers refine bit sequences; armoring, two's complement, six-bit text and all nine
  message layouts round-trip up to an explicit normal form. A packet survives exactly when it is in range, and
  re-encoding a decoded message is a fixpoint for exactly the packets `LosesOnReencode` does not name.
* **NMEA.** The parser inverts the printer on exactly the printable inputs, the reassembler emits exactly the
  complete groups, and a packet printed, parsed, reassembled in any order amid any traffic, and decoded is the
  packet sent.
* **Concurrency and crashes.** The worker's queue keeps its deque and its semaphore in step under every
  interleaving of any number of threads, the worker conserves lines over every pattern of failures, the
  archiver conserves rows and stores each of them as often as is exactly characterised, and the importer
  imports every recorded file exactly once although any statement may fail or be the last before a restart.
  Nor do they stall: while no line comes in and nothing fails, the worker's writer goes on until every valid
  line is sent or dropped, and a cycle of the importer that meets no failure imports its whole plan.

## Layout

| file | module | models |
|---|---|---|
| Prelude, Text, Sorting, BitSeq | same names | results, splitting and string order, sort/dedup, bits and numbers |
| Geo, Cover | `Geo`, `Cover` | geohashes and the covering search of `crates/geo`, and the decoder of the live map |
| Subjects, Fanout | `Subjects`, `Fanout` | NATS subjects and patterns; client filters and what a subscription receives |
| BitBuffer, SixBit, Layout | same names | the accumulator and the stream of `crates/ais`, text fields, field lists |
| AisTypes, AisCodec, AisRoundTrip, AisFixpoint, AisMeaning | same names | the nine message layouts, what they preserve, and what decoded bits say |
| Nmea, NmeaLines, NmeaRoundTrip | same names | the parser and the printer, the verdict on every kind of line, and that the one inverts the other |
| Assembler, AssemblerRuns | `Assembling`, `AssemblerRuns` | fragment reassembly, and its guarantees over runs |
| EndToEnd | `EndToEnd` | packet to sentences to packet |
| LineQueue, Worker | `Queueing`, `Worker` | the worker's queue protocol, and the whole worker |
| Dedupe, Pipeline, PipelineRuns | same names | the duplicate window, the pipeline service with its delivery theorem, and its answers over runs |
| Archiver, Collecting | same names | the bounded retry buffer, and the rows a message yields |
| DmaImport, StaticsTable, ImportProtocol, ImportProgress | same names | the importer's plan and batching, the table of statics, the crash-safe protocol, and what a cycle achieves |

An algorithm that the source runs in place is a method proved against a function; the laws are lemmas about
that function. Objects with mutable fields (`BitsMut`, `Assembler`, `LineQueue`, `Window`, the pipeline's and
the archiver's state) are classes. Protocols are step functions over a state value, with an invariant, a
lemma that every step keeps it, and a lemma about every run.

Where code and its own comments differ, the model follows the code: an empty prefix is documented to subscribe
to everything positioned, but its pattern also matches `ais.decoded.none`
(`Subjects.OnlyTheWorldPatternSelectsNoPosition`), which the filter then drops; `cover` is documented never to
exceed its budget. The importer is documented to be idempotent: that holds for positions, and, as long as a
file's contents do not change between downloads, for what the table of statics shows
(`ImportProtocol.CompleteFilesShowAsIfInsertedOnce`).

Some properties one would expect fail. The model gives an input and says exactly when they hold:

* `cover` keeps within its budget except for a budget of 0 (`Cover.CoverIsFinestThatFits`,
  `Cover.ZeroBudgetStillCoversWithTheWorld`).
* A message from inside a client's box is sent exactly when its rounded position matches too
  (`Fanout.ExactlyOnce`, `Fanout.RoundingCanLeaveABox`).
* A packet survives re-encoding except for a type 21 with a name extension and a type 24 with neither half
  (`AisFixpoint.ReencodeFixpoint`).
* A fragment's key is its own unless its channel or sequence id has a bar (`AssemblerRuns.KeyIsSharedIff`).
* An archived row is stored once unless an attempt during its stay stored it and still failed, in the other
  table or by a timeout (`Archiver.StoredOnceIff`).
* The archive shows the latest name a vessel gave exactly when its newest static message names it, which part B
  of a type 24 never does (`Collecting.ArchiveShowsLatestNameIff`).
* An aircraft's speed is archived up to 102 knots (`Collecting.AircraftSpeedKeptIff`).
* A second import of the same rows changes nothing that shows unless one of them is tied with another row of its
  vessel and timestamp (`ImportProtocol.ReimportChangesNothingIff`).

## Model

| member | source | states |
|---|---|---|
| Geo.FromCorners | crates/geo/src/lib.rs:62-69 | corners given in any order are clamped to the world and give the smallest proper box holding both |
| Geo.BoxEdgesAreNearest | crates/geo/src/lib.rs:62-69 | each edge of the box lies in the world and is the value there nearest to the lower or upper of the two corner coordinates |
| Geo.BoxOfWorldlyCorners | crates/geo/src/lib.rs:62-69 | corners in the world lie in their box, and it lies inside every box that holds both |
| Geo.AlphabetTable | crates/geo/src/lib.rs:8 | indexing and searching the base-32 literal is the arithmetic digit mapping used in the model |
| Geo.Encode | crates/geo/src/lib.rs:11-49 | the bit-by-bit encoder computes the digit-by-digit geohash of the point |
| Geo.GeohashBounds | web/live.html:257-274 | the map page's decoder gives the bounds of the hash, for any string: a character outside the alphabet reads as z |
| Geo.GeohashNamesTheOwner | crates/geo/src/lib.rs:11-49 | a point lies in a hash's half-open cell exactly when the hash is the point's geohash: the cells of one length partition the plane |
| Geo.GeohashPrefix | crates/geo/src/lib.rs:11-49 | the hash at precision p is a prefix of the hash at every q >= p |
| Geo.HashSpans | web/live.html:257-274 | a hash of p characters measures 360/2^ceil(5p/2) by 180/2^floor(5p/2) degrees |
| Geo.CentreEncodesBack | web/live.html:257-274 | decoding any hash and encoding the centre of its bounds gives the hash back |
| Geo.BoundsContainPoint | web/live.html:257-274 | the decoded cell of a valid position contains the position, at every precision |
| Geo.PrefixContains | crates/geo/src/lib.rs:122-156 | the cell of a longer hash lies within the cell of each of its prefixes |
| Geo.CoarseCellsOnGrid | crates/geo/src/lib.rs:122-156 | all cells of at most three characters have edges on the 1.40625-degree grid |
| Cover.Children | crates/geo/src/lib.rs:122-156 | the 32 children, in alphabet order, have the bounds and parity the map's decoder gives their hashes |
| Cover.ChildrenCoverParent | crates/geo/src/lib.rs:122-156 | every point of a cell lies in one of its 32 children's closed cells |
| Cover.CoverBox | crates/geo/src/lib.rs:163-192 | the search loop returns the refinement level at which it stops |
| Cover.LevelMembers | crates/geo/src/lib.rs:163-192 | a level holds exactly the cells that meet the box, lie inside it unless at full depth, and have no ancestor inside it |
| Cover.LevelAntichain | crates/geo/src/lib.rs:163-192 | no prefix of a level extends or repeats another |
| Cover.LevelCovers | crates/geo/src/lib.rs:163-192 | a hash whose ancestors all meet the box has a prefix in the level |
| Cover.LevelsGrow | crates/geo/src/lib.rs:163-192 | for a valid box successive levels never shrink: each kept cell has a child that meets the box |
| Cover.CoverIsFinestThatFits | crates/geo/src/lib.rs:158-192 | stopping at the first overflow is optimal: within a nonzero budget, and every finer level overflows or is the same |
| Cover.ZeroBudgetStillCoversWithTheWorld | crates/geo/src/lib.rs:158-192 | with budget 0 the result is the whole world, one cell over budget |
| Subjects.BuildDecoded | crates/feed/src/lib.rs:110-120 | the loop builds the one-token-per-character subject, or the no-position subject for an empty hash |
| Subjects.BuildDecodedPattern | crates/feed/src/lib.rs:124-137 | the loop builds the pattern for a prefix, open-ended below four characters |
| Subjects.PatternSelectsPrefix | crates/feed/src/lib.rs:110-137 | under NATS wildcard rules the pattern for p matches a four-character cell's subject exactly when p is a prefix of the cell |
| Subjects.OnlyTheWorldPatternSelectsNoPosition | crates/feed/src/lib.rs:122-139 | the pattern for p matches the no-position subject exactly when p is empty |
| Fanout.FromSubscription | services/fanout/src/main.rs:86-106 | no boxes and not-two-corners are refused in that precedence; otherwise one box per pair, and the sets of MMSIs and types |
| Fanout.DropShadowed | services/fanout/src/main.rs:122-129 | from sorted input the loop keeps members of which none extends another and of which each input extends one |
| Fanout.CoverBoxes | services/fanout/src/main.rs:113-130 | sort, dedup and shadow removal over all boxes give the shortest members of the union of their covers |
| Fanout.RoundingStaysInCoarseCell | services/pipeline/src/main.rs:329-331 | six-decimal rounding of a position stays in the closed cell of at most three characters that holds the position |
| Fanout.PositionIsCovered | services/fanout/src/main.rs:113-130 | if the position, exact or rounded, is in some box, some subscribed prefix starts the geohash of the exact position |
| Fanout.ReceiptsOfAntichain | services/fanout/src/main.rs:286-295 | prefix-free subscriptions receive a cell's subject once if one of them is a prefix of it, else never |
| Fanout.ReceivedOnce | services/fanout/src/main.rs:286-295 | for any list of boxes exactly one subscription receives the subject of a position in one of them, exact or rounded, and never more than one |
| Fanout.RoundingCanLeaveABox | services/fanout/src/main.rs:146-153 | a reportable position inside a box that rounding carries out of it: its message is received once and held back, so the condition for delivery is on the rounded position |
| Fanout.ExactlyOnce | services/fanout/src/main.rs:364-380 | a positioned message gives a client exactly one copy if the filter accepts its headers, otherwise none |
| Fanout.NoPositionNeverSent | services/fanout/src/main.rs:146-153 | a message without coordinates is never sent, although a whole-world subscription receives it |
| Fanout.SentOnlyWhatIsAskedFor | services/fanout/src/main.rs:146-170 | a positioned message is sent exactly when a box holds the header coordinates, and its MMSI and its type are among those listed, where any are |
| Fanout.RoundedIsNearest | services/pipeline/src/main.rs:330-331 | six-decimal rounding moves by at most half a unit, and a tie goes to the even neighbour |
| BitSeq.FromUintBits | crates/ais/src/encode.rs:28-42 | the low bits written for a number spell it modulo 2^len |
| BitSeq.UintFromBits | crates/ais/src/bits.rs:52-66 | reading bits as a number and writing it gives the bits back |
| BitSeq.WrapSignedIdentity | crates/ais/src/encode.rs:44-46 | an in-range signed value survives two's complement in its width |
| BitSeq.SignedFits | crates/ais/src/bits.rs:68-76 | every two's complement reading is in range and is its own wrap |
| BitBuffer.BitsMut.PushUint | crates/ais/src/encode.rs:30-42 | the byte buffer's bits grow by the big-endian residue of the value |
| BitBuffer.BitsMut.PushInt | crates/ais/src/encode.rs:44-46 | the same for signed values: the residue modulo 2^len |
| BitBuffer.BitsMut.PushBool | crates/ais/src/encode.rs:48-50 | one flag bit is appended |
| BitBuffer.BitsMut.ToPayload | crates/ais/src/encode.rs:76-96 | the loop armors the bits, padded with zeros to whole sextets, and reports the fill |
| BitBuffer.FromPayload | crates/ais/src/bits.rs:12-41 | OR-ing sextets into bytes de-armors exactly as the bit-level definition, with the same refusals |
| BitBuffer.ReadUint | crates/ais/src/bits.rs:54-66 | the byte-wise loop reads the unsigned field of the bit sequence, 0 outside it |
| BitBuffer.ReadInt | crates/ais/src/bits.rs:69-76 | testing the sign bit, OR-ing ones above the field and reading the 64-bit word as signed gives the field's two's complement value |
| BitBuffer.DearmorArmored | crates/ais/src/encode.rs:74-96 | de-armoring an armored buffer restores every bit and the length, with fill at most 5 and parseable characters only |
| BitBuffer.ArmoredDearmor | crates/ais/src/bits.rs:12-41 | armoring a de-armored payload gives it back exactly when it uses no alias character and its fill bits are zero |
| BitBuffer.SextetCollisions | crates/ais/src/bits.rs:12-41 | two characters mean the same sextet exactly when one is an alias from the gap 88..95 or they are 88 and 96 |
| BitBuffer.ArmorIsWhatIsWritten | crates/nmea/src/lib.rs:94-99 | the characters the parser admits are just those the encoder writes |
| BitBuffer.DearmoredIff | crates/ais/src/bits.rs:12-41 | exactly the payloads of characters 48 to 119 with at most 5 fill bits, none if empty, are accepted, and give six bits a character less the fill |
| SixBit.PushStr | crates/ais/src/encode.rs:54-73 | text is upper-cased, mapped, truncated and padded into six-bit codes |
| SixBit.CaseIsLost | crates/ais/src/encode.rs:54-73 | texts that differ only in letter case are written alike |
| SixBit.ReadString | crates/ais/src/bits.rs:86-107 | text is read up to code 0 or the end of the stream and right-trimmed |
| SixBit.StrRoundTrip | crates/ais/src/encode.rs:52-73 | writing text and reading the field back computes its normal form |
| SixBit.CleanCanonical | crates/ais/src/encode.rs:485-512 | the normal form is canonical, and canonical strings are exactly its fixed points |
| SixBit.StrCanonical | crates/ais/src/bits.rs:86-107 | whatever a text field reads is canonical |
| Layout.EncodeFields | crates/ais/src/encode.rs:110-127 | pushing fields in order and armoring gives the armored concatenation of their bits |
| AisCodec.Encode | crates/ais/src/encode.rs:309-325 | dispatch to the layout of the packet; unknown packets have no encoding |
| AisRoundTrip.PositionReportRoundTrip | crates/ais/src/encode.rs:110-127 | types 1-3: 168 bits that read back, at the decoder's offsets, as the normal form |
| AisRoundTrip.BaseStationReportRoundTrip | crates/ais/src/encode.rs:180-197 | types 4 and 11: 168 bits that read back as the normal form |
| AisRoundTrip.ShipStaticDataRoundTrip | crates/ais/src/encode.rs:130-152 | type 5: 424 bits that read back as the normal form |
| AisRoundTrip.SarAircraftRoundTrip | crates/ais/src/encode.rs:200-218 | type 9: 168 bits that read back as the normal form |
| AisRoundTrip.StandardClassBRoundTrip | crates/ais/src/encode.rs:155-177 | type 18: 168 bits that read back as the normal form |
| AisRoundTrip.ExtendedClassBRoundTrip | crates/ais/src/encode.rs:221-242 | type 19: 312 bits that read back as the normal form |
| AisRoundTrip.AidsToNavigationRoundTrip | crates/ais/src/encode.rs:244-264 | type 21: 272 bits that read back as the normal form, without the name extension |
| AisRoundTrip.PartARoundTrip | crates/ais/src/encode.rs:266-284 | type 24 part A: 160 bits that read back as the normal form |
| AisRoundTrip.PartBRoundTrip | crates/ais/src/encode.rs:266-284 | type 24 part B: 168 bits that read back as the normal form |
| AisRoundTrip.LongRangeRoundTrip | crates/ais/src/encode.rs:287-300 | type 27: 96 bits that read back as the normal form |
| AisRoundTrip.EncodeDecode | crates/ais/src/decode.rs:14-277 | for every packet whose header names its layout, decoding the encoded bits gives the message of its normal form |
| AisRoundTrip.PayloadRoundTrip | crates/ais/src/encode.rs:309-325 | the same through the armored payload |
| AisMeaning.RoundIsNearest | crates/ais/src/encode.rs:99-101 | rounding gives a nearest whole number, and of two the one further from zero |
| AisMeaning.U64IsNearest | crates/ais/src/encode.rs:115 | the unsigned conversion gives the nearest value of its type, saturating at both ends |
| AisMeaning.I64IsNearest | crates/ais/src/encode.rs:99-101 | the same for the signed conversion |
| AisMeaning.TenthsAreClose | crates/ais/src/encode.rs:115 | a quantity whose tenths fit the field is sent within 0.05 of itself |
| AisMeaning.FineIsClose | crates/ais/src/encode.rs:117-118 | a coordinate that fits the field is sent within 1/1200000 degree of itself |
| AisMeaning.CoarseIsClose | crates/ais/src/encode.rs:286-305 | in a type 27, within 1/1200 degree |
| AisMeaning.PositionSurvives | crates/ais/src/encode.rs:99-127 | every packet with a position decodes to one with a position, that close to it |
| AisMeaning.MotionSurvives | crates/ais/src/encode.rs:110-127 | speeds and courses within their scale come back within 0.05, within 0.5 in a type 27 |
| AisFixpoint.NormalizeFixed | crates/ais/src/encode.rs:309-325 | normalisation leaves a packet alone exactly when every number fits, every quantity is on its grid and every string is canonical |
| AisFixpoint.SurvivesExactlyInRange | crates/ais/src/encode.rs:309-325 | a packet survives encoding and decoding unchanged exactly when its header names its layout and it is in range |
| AisFixpoint.ReencodeFixpoint | crates/ais/src/encode.rs:458-483 | re-encoding any decoded message gives the packet `Reencoded` describes, hence the same message exactly when it is not a type 21 with an extension or a type 24 with neither half |
| AisFixpoint.NameExtensionIsLost | crates/ais/src/encode.rs:244-264 | a type 21 input whose name extension does not survive |
| AisFixpoint.ReservedPartHasNoHalf | crates/ais/src/decode.rs:213-244 | a type 24 input with a reserved part number, which carries neither half |
| AisFixpoint.AcceptedReadsAreComplete | crates/ais/src/decode.rs:29-38 | every fixed-width read of an accepted message lies within its bits: more bits change nothing but the type 21 extension and, in a type 5 under 424 bits, the destination's last character and the last two flags |
| AisMeaning.AcceptedMessages | crates/ais/src/decode.rs:14-38 | a stream of any type is accepted exactly when it is long enough for it, with the id, MMSI and repeat indicator of its first 38 bits and the layout of its type; a type without one keeps its header and length |
| AisMeaning.RefusedMessages | crates/ais/src/decode.rs:29-38 | a refusal gives the length of the stream and the first requirement it misses |
| AisMeaning.PositionOfTheBits | crates/ais/src/decode.rs:281-299 | the position is the one the bits give in 1/10000 minutes, 1/10 in type 27, exactly when that lies on the earth |
| AisMeaning.ParticularsOfTheBits | crates/ais/src/decode.rs:88-243 | ship type, IMO number and name are the fields of types 5, 19, 21 and 24 that carry them, and otherwise absent |
| AisFixpoint.ShortShipStaticData | crates/ais/src/decode.rs:88-117 | a type 5 of 420 bits or more is accepted and equals any longer message it starts, but for dte below 423 bits, the spare flag below 424, and the destination's last character below 422 |
| AisFixpoint.ShortFlagsAreLost | crates/ais/src/decode.rs:88-117 | every shorter type 5 has a continuation that sets the flags it reads as false |
| AisFixpoint.LastCharacterLostIff | crates/ais/src/bits.rs:86-107 | reading 114 instead of 120 bits of a destination differs exactly when its first 19 characters run on and the 20th is neither the end mark nor a space |
| Nmea.ChunksJoin | crates/nmea/src/encode.rs:10-18 | the chunks join to the payload; all but the last have 60 characters; there is at least one |
| Nmea.ParseDecimal | crates/nmea/src/encode.rs:30-38 | a printed number is read back as a byte exactly when it is at most 255 |
| Nmea.ParseHexByte | crates/nmea/src/encode.rs:39-40 | the two-digit hexadecimal checksum is read back |
| Nmea.ChecksumJoins | crates/nmea/src/lib.rs:69 | the checksum of a text is the exclusive or of the checksums of its parts |
| Nmea.ChecksumOfOne | crates/nmea/src/lib.rs:69 | the checksum of one byte is the byte |
| NmeaLines.WhitespaceIsIgnored | crates/nmea/src/lib.rs:54 | whitespace around a line changes nothing |
| NmeaLines.TagBlockOnlyLabels | crates/nmea/src/lib.rs:55-60 | a TAG block before a line changes the verdict only by labelling the sentence with its content |
| NmeaLines.OpenTagBlockIsMalformed | crates/nmea/src/lib.rs:56-57 | a TAG block that is never closed makes the line malformed |
| NmeaLines.OnlyTheTrueChecksum | crates/nmea/src/lib.rs:69-72 | any two-digit checksum but the true one is refused, naming both |
| NmeaLines.DigitsIff | crates/nmea/src/lib.rs:67-84 | a number field has a value exactly when all its characters are digits of the radix |
| NmeaLines.PlusIsAllowed | crates/nmea/src/lib.rs:67-84 | one plus sign may precede the digits |
| NmeaLines.SentenceIsTakenAsSent | crates/nmea/src/lib.rs:74-115 | a line of seven fields with a true checksum and either start is refused for its kind, numbering, fill or payload, in that precedence, else taken with every field as sent; a missing fill is 0 |
| NmeaLines.ParsedPayloadDearmors | crates/ais/src/bits.rs:12-41 | every parsed sentence has a payload that de-armors, unless it is empty and announces fill bits |
| NmeaRoundTrip.LineReachesFields | crates/nmea/src/lib.rs:51-115 | a printed line passes trimming, the TAG block, length, star and XOR checksum checks, so its fields decide |
| NmeaRoundTrip.PrintedLineParses | crates/nmea/src/lib.rs:51-115 | a printed line parses to its fields if channel and chunk have no comma, at most 255 fragments, fill at most 5 and armor characters only; otherwise it is refused |
| NmeaRoundTrip.PrintedGroupParses | crates/nmea/src/encode.rs:9-43 | every line of a printable group parses to its own fragment, fill 0 except on the last, and the chunks join to the payload |
| NmeaRoundTrip.GroupIsMarked | crates/nmea/src/encode.rs:19-38 | the lines of a group carry the last digit of its number as sequence id; a line alone carries none |
| NmeaRoundTrip.AllLinesParseIffPrintable | crates/nmea/src/lib.rs:51-115 | no line of a group is rejected exactly when the group is printable |
| Assembling.Assembler.Add | crates/nmea/src/assembler.rs:44-93 | one call in place is the step function on the table of pending groups |
| Assembling.Assembler.Evict | crates/nmea/src/assembler.rs:95-99 | a pending group survives exactly when it was first seen at most `ttl` ago, and survivors are untouched |
| Assembling.JoinParts | crates/nmea/src/assembler.rs:80-92 | the loop joins the filled parts in order, with the last part's fill bits and channel |
| AssemblerRuns.EntriesAreGathered | crates/nmea/src/assembler.rs:53-77 | after every run each pending entry has 1 <= have < parts, `have` counts its filled slots, and each slot holds the latest copy of its fragment for that key since the entry was opened, within `ttl` |
| AssemblerRuns.EmittedGroupsAreComplete | crates/nmea/src/assembler.rs:75-92 | every emitted multi-fragment group is complete, in order and of one key, from latest copies that all arrived within one `ttl` |
| AssemblerRuns.PartialUntilComplete | crates/nmea/src/assembler.rs:44-93 | while a group is incomplete its entry holds exactly the arrived fragments and its fragments emit nothing, amid any other traffic |
| AssemblerRuns.LastMissingFragmentEmits | crates/nmea/src/assembler.rs:44-93 | fragments in any order, repeated and interleaved with other keys, emit the whole group at the last missing one |
| AssemblerRuns.KeysAreInjective | crates/nmea/src/assembler.rs:55 | without a bar in the channel the key determines talker, channel and sequence id |
| AssemblerRuns.KeyIsSharedIff | crates/nmea/src/assembler.rs:55 | a sentence shares its key with another channel or sequence id exactly when its own channel or sequence id has a bar |
| AssemblerRuns.SharedKeyMixes | crates/nmea/src/assembler.rs:55-93 | fragments 1 and 2 that share a key are joined into one group whatever their channels |
| EndToEnd.LinesParse | worker/src/aisstream.rs:78-82 | no line printed for an encoded packet is rejected, and each parses to its fragment |
| EndToEnd.SingleSentenceDecodes | crates/nmea/src/assembler.rs:45-52 | a one-sentence packet goes straight through to the message of its normal form |
| EndToEnd.FragmentsDecode | crates/nmea/src/assembler.rs:44-93 | a longer packet's fragments, in any order amid any traffic, decode to the message of its normal form |
| EndToEnd.BarsMixGroups | crates/nmea/src/lib.rs:51-115 | the parser accepts such input: for every comma-free channel with a bar, a fragment on it and one on a shorter channel parse, share a key and are joined |
| Queueing.LineQueue.Push | worker/src/queue.rs:36-48 | a full queue drops its oldest line and reports it; otherwise the line is appended |
| Queueing.LineQueue.TryPop | worker/src/queue.rs:66-80 | the oldest line, or none when the queue is empty |
| Queueing.LineQueue.RecvBatch | worker/src/queue.rs:84-99 | a nonempty prefix of the queue, maximal within the limits, whose last line alone may cross the byte limit |
| Queueing.StepKeepsInv | worker/src/queue.rs:36-80 | every atomic step of every thread keeps: length = free permits + claimed + uncredited, length <= capacity, removed lines then queue = pushed lines |
| Queueing.EveryScheduleIsSafe | worker/src/queue.rs:26-80 | in every interleaving the `expect` never fires, the capacity holds, `len` never overstates, nothing is lost, duplicated or reordered |
| Queueing.NoLostWakeup | worker/src/queue.rs:50-63 | queued lines without a free permit are in the hands of a thread in mid-operation; when all are idle permits equal lines |
| Queueing.QueuedLinesMove | worker/src/queue.rs:36-80 | while a line is queued any idle thread can claim one, or another thread can finish its operation; an idle thread can always push |
| Queueing.ZeroCapacityStrandsALine | worker/src/queue.rs:36-48 | with capacity 0 the first line stays queued with no permit and no thread to add one |
| Worker.StepKeeps | worker/src/ingest.rs:31-68 | every event of reader and writer keeps the worker's accounts and the queue protocol |
| Worker.NothingIsLost | worker/src/upstream.rs:154-164 | at every step lines in = invalid + dropped + forwarded + queued + in flight + in the reader's hands, over any failures and reconnects |
| Worker.OnlyValidLinesAreQueued | worker/src/upstream.rs:154-164 | the queue is offered exactly the lines that parse, each once, in order |
| Worker.SentInOrder | worker/src/ingest.rs:49-63 | lines sent successfully are an in-order subsequence of the valid lines received, in batches within the limits |
| Worker.ReaderGoesOn | worker/src/upstream.rs:154-164 | the reader can always go on with its line, or take the next |
| Worker.WriterGoesOn | worker/src/ingest.rs:31-68 | the writer can always go on, unless it waits for a line with nothing in hand and no permit to take |
| Worker.StoppedMeansDelivered | worker/src/ingest.rs:31-68 | while the reader pauses the writer stops only when every line in was invalid, dropped or forwarded |
| Worker.WriterAdvances | worker/src/ingest.rs:31-68 | each step of the writer that does not fail sends a batch, takes a line or is one of at most four before the next such step |
| Worker.BatchesAreFull | worker/src/queue.rs:84-100 | a batch is closed only at 32 lines, at 1200 bytes or when no further line can be had |
| Dedupe.Window.Seen | services/pipeline/src/dedupe.rs:25-37 | on monotone time the swept window answers as a map that is never swept, and keeps no entry of age 2 ttl or more |
| Dedupe.Window.Sweep | services/pipeline/src/dedupe.rs:39-47 | within ttl of the last sweep nothing happens; otherwise exactly the expired entries go |
| Dedupe.RejectedIffRecentlyAccepted | services/pipeline/src/dedupe.rs:30-36 | a call is a duplicate exactly when an accepted call with its key lies within the preceding ttl |
| Dedupe.AcceptedCopiesAreFarApart | services/pipeline/src/dedupe.rs:24-37 | accepted copies of one key are more than ttl apart |
| Pipeline.Service.Route | services/pipeline/src/main.rs:285-293 | a position is remembered with its cell and used; without one the vessel's last one is used |
| Pipeline.Service.Handle | services/pipeline/src/main.rs:223-339 | one envelope: counters, dedupe, decode, refusal of MMSI 0, routing, headers and outcome are the step function's |
| PipelineRuns.CallsAreReceived | services/pipeline/src/main.rs:234-239 | the window is asked once for each readable envelope of a run, in order |
| PipelineRuns.AnswersFollowTheRun | services/pipeline/src/main.rs:234-245 | in every run an envelope is a duplicate exactly when an accepted copy came within the preceding ttl; otherwise rejected exactly when it does not decode or has MMSI 0; otherwise sent exactly when publishing succeeds |
| PipelineRuns.CountersTally | services/pipeline/src/main.rs:137-153 | each counter counts the answers of its kind over the run; an unsent message is both decoded and an error |
| PipelineRuns.HistoryFollowsTheAnswers | services/pipeline/src/main.rs:241-293 | a message is heeded exactly when the answer is to publish it, even if that fails; nothing else touches the cache but a trim above its cap |
| PipelineRuns.HeadersIdentify | services/pipeline/src/main.rs:325-328 | the MMSI header reads back as the decoded MMSI and the type header tells the layout of the decoded packet |
| Pipeline.Service.DoTrim | services/pipeline/src/main.rs:59-73 | afterwards the position cache is within its cap and still faithful to the history; a cache within its cap is left alone |
| Pipeline.EveryRunKeepsInv | services/pipeline/src/main.rs:129-165 | in every reachable state, trims included, the cache holds exactly each vessel's latest heeded position beside its geohash, and received = duplicates + errors + published |
| Pipeline.PublishedWhereItBelongs | services/pipeline/src/main.rs:285-332 | a message goes out on the cell of its own or its vessel's latest unrounded position with the rounded one in the headers, or on the no-position subject |
| Pipeline.DeliveredExactlyOnce | services/pipeline/src/main.rs:320-337 | whatever the pipeline publishes in any reachable state reaches each client once if its filter accepts it, else not at all |
| Pipeline.HairPositionIsReported | services/pipeline/src/main.rs:241-245 | the position that rounding carries out of its box is one the pipeline receives: a report's payload decodes to it |
| Archiver.Writer.Flush | services/archiver/src/main.rs:235-271 | two attempts, then the cap: the vectors and counters end as the history function says, rows are conserved and the cap holds |
| Archiver.Writer.DropExcess | services/archiver/src/main.rs:260-270 | the two-vector drain in place is the cap function |
| Archiver.Writer.Collect | services/archiver/src/main.rs:116-132 | rows are appended, a flush follows at the row threshold, and the buffer stays within the cap |
| Archiver.AttemptCounts | services/archiver/src/main.rs:243-251 | an attempt that succeeds as a whole counts and clears every row; any other changes no buffer |
| Archiver.CapCounts | services/archiver/src/main.rs:260-270 | exactly the excess is dropped: oldest positions first, statics only once no position is left |
| Archiver.FlushBounds | services/archiver/src/main.rs:235-271 | a flush ends within the cap, and empty if either attempt succeeded |
| Archiver.FlushesHappen | services/archiver/src/main.rs:116-141 | after a tick one of whose attempts succeeds nothing is buffered; a message leaves 5000 rows or more only if both attempts failed |
| Archiver.EveryRunIsSafe | services/archiver/src/main.rs:116-141 | over any pattern of failures the buffer is within the cap and every row counted as written was stored |
| Archiver.FlushStores | services/archiver/src/main.rs:242-258 | a flush stores each buffered row once per attempt that stores it, acknowledged or not, the second being made only if the first failed as a whole |
| Archiver.StoredTwiceIff | services/archiver/src/main.rs:242-258 | one flush stores a row twice exactly when the first attempt stores it although it fails as a whole, and the second stores it too |
| Archiver.EachRowsCopies | services/archiver/src/main.rs:116-141 | in every run each row was stored once per split attempt during its stay (it was stored, the attempt failed as a whole), plus once if written |
| Archiver.StoredOnceIff | services/archiver/src/main.rs:116-141 | a written row is stored exactly once if and only if no attempt during its stay was split; a dropped row is stored nevertheless if and only if one was |
| Archiver.StoredThenDropped | services/archiver/src/main.rs:260-270 | from any full buffer holding a position, one more position and two failed attempts count a stored row as dropped |
| Archiver.RetryDuplicates | services/archiver/src/main.rs:242-258 | a first input: only the statics fail at first, and the position is stored twice |
| Archiver.TimeoutDuplicates | services/archiver/src/ch.rs:41 | a second: the insert is stored but its call times out, and the position is stored twice with no statics about |
| Collecting.Archive | services/archiver/src/main.rs:116-132 | a published message goes through the buffer as the rows it yields, conserving rows and keeping the cap |
| Collecting.ArchivedWhereRouted | services/archiver/src/main.rs:154-233 | a message yields at most one row; a position row exactly when the pipeline took it as positioned, at that position; a static row exactly for types 5 and 24 |
| Collecting.PositionRowOfTheBits | services/archiver/src/main.rs:182-207 | a position row has the message's MMSI, type, time and station, and speed, course, heading and status of its layout's bits unless these say not available |
| Collecting.StaticRowOfTheBits | services/archiver/src/main.rs:209-230 | a static row has every column a type 5 carries, or those of the half of a type 24 that was sent |
| Collecting.AircraftSpeedKeptIff | services/archiver/src/main.rs:202 | of the speeds an aircraft can report, exactly those from 103 knots on are lost |
| Collecting.ArchivedName | services/archiver/src/main.rs:173-219 | a decoded message's archived name is the one the pipeline caches, or empty |
| Collecting.ShownIsNewestTold | services/archiver/src/main.rs:209-230 | over any history the table shows for a vessel the row of its newest static message |
| Collecting.ArchiveShowsLatestNameIff | services/archiver/src/main.rs:209-230 | the archive shows the latest name a vessel reported exactly when its newest static message names it, or none ever did |
| Collecting.PartBHidesTheName | services/archiver/src/main.rs:209-230 | after any history, a newest type 24 without part A leaves the vessel shown without a name, whatever it reported before |
| Sorting.SortDedup | services/archiver/src/dma.rs:173-174 | sort then dedup gives the distinct elements in strictly ascending order |
| DmaImport.PlanTakesTheNewest | services/archiver/src/dma.rs:167-186 | the plan is newest first, without repeats, eligible files only; an eligible file is left out only if the limit is used up on newer ones |
| DmaImport.PlannedDatesDescend | services/archiver/src/dma.rs:164-186 | for files named after their dates the planned dates strictly descend |
| DmaImport.NamesAreDistinct | services/archiver/src/dma.rs:146-162 | two dates never share a file name |
| DmaImport.BatchesJoin | services/archiver/src/dma.rs:342-355 | the batches joined are the rows: none lost, repeated or reordered |
| DmaImport.BatchesAreFull | services/archiver/src/dma.rs:342-355 | every batch but the last has 10000 rows and the last has fewer |
| DmaImport.RowsJoin | services/archiver/src/dma.rs:293-322 | the rows of a file are those of its records, in order |
| DmaImport.StaticsComeFirst | services/archiver/src/dma.rs:324-340 | a vessel's static row comes from the first record of the file that names it |
| DmaImport.ImportCsv | services/archiver/src/dma.rs:288-358 | the batching loop inserts exactly the batches of the parsed rows, returns their number, keeps the first named record per vessel, and stops at the first refused insert |
| StaticsTable.VisibleIsNewest | services/archiver/src/schema.rs:54-73 | the table shows for a vessel its newest row, the last inserted of equal timestamps |
| StaticsTable.InsertChangesNothingIff | services/archiver/src/schema.rs:54-73 | inserting rows of different vessels changes nothing that shows exactly when each shows already or is older than what does |
| StaticsTable.UnsettledMeansTied | services/archiver/src/schema.rs:54-73 | a row inserted before can change something only through a tie with another row of its vessel and timestamp |
| StaticsTable.TieIsOverwritten | services/archiver/src/schema.rs:54-73 | the witness of such a tie |
| StaticsTable.RetriedImportLeavesNoTrace | services/archiver/src/schema.rs:54-73 | rows that are inserted again later leave no trace, whatever comes in between |
| StaticsTable.LatestNameShowsIff | services/archiver/src/schema.rs:54-73 | the table shows a vessel's latest name exactly when the row that shows has one, or no row ever had |
| ImportProtocol.StepKeepsInv | services/archiver/src/dma.rs:118-140 | every step, failure or crash keeps each recorded day's rows exact and never touches a recorded file again |
| ImportProtocol.EveryRunKeepsInv | services/archiver/src/dma.rs:75-140 | the same over every run of poll cycles |
| ImportProtocol.RecordedFilesAreImportedOnce | services/archiver/src/dma.rs:118-140 | in every run each recorded file is recorded once, with its row count, and its rows and no others are in `positions` for its day |
| ImportProtocol.RecordedStaticsShow | services/archiver/src/dma.rs:356-357 | in every run each vessel named in a recorded file shows static data at least as new as the file's |
| ImportProtocol.RetryShowsNoTrace | services/archiver/src/dma.rs:120-130 | after a retry that downloaded the same contents the statics show what they would had the failed attempt stored none, whatever the archiver inserted meanwhile |
| ImportProtocol.CompleteFilesShowAsIfInsertedOnce | services/archiver/src/dma.rs:75-140 | in every run in which a file's contents do not change, once the file is complete the statics show what they would had only its last complete insert been made |
| ImportProtocol.ReimportChangesNothingIff | services/archiver/src/dma.rs:356-357 | importing a file's statics a second time changes nothing that shows exactly when none of them is tied |
| ImportProgress.SmoothCycleImportsThePlan | services/archiver/src/dma.rs:87-140 | a cycle without a failure or crash ends with exactly the planned files newly recorded, in the order of the plan |
| ImportProgress.CycleNeverStalls | services/archiver/src/dma.rs:87-140 | in every reachable state of a cycle the next statement can succeed, or the cycle can finish |
| ImportProgress.EveryStepAdvances | services/archiver/src/dma.rs:87-140 | every statement that succeeds starts a file, moves it on a stage or inserts one of the batches left, so cycles end |
| ImportProgress.AnyStatementMayFail | services/archiver/src/dma.rs:118-140 | the runs considered include a stop at any point, a delete of any part of the day, an insert of any part of a batch, and a record written although its write fails |

## Left out

- Floating point: degrees, speeds and headers are exact reals. Cell edges at the depths used are dyadic multiples of 45 and exact in binary; NaN and rounding inside `f64` are not modelled, and printing six decimals is rounding half to even.
- Text is ASCII; slicing of non-ASCII lines and Unicode case rules are not modelled.
- The encoders' straight-line pushes are ordered field lists run by one loop; the decoder's field reads are the functions of the same module with the source's offsets.
- `Vec::sort`, `dedup` and `reverse` are functions on sequences, not in-place algorithms.
- Maps that code iterates or retains are value maps in a field; iteration order plays no part.
- The hash behind the duplicate window is a parameter: claims are per hash key, so two payloads that collide count as one.
- Clocks are parameters. The window assumes monotone readings, as its clock type guarantees.
- NATS, WebSocket, JSON, ClickHouse and HTTP: a published field is the packet's field of that name, and a publish or an insert is a step that succeeds or fails. A `>` wildcard stands for one or more tokens.
- The importer assumes one importer, a listing whose names come from its dates, dump rows that carry their file's date, and that a timed-out insert is not applied after the next delete. What the statics show after a retry is claimed for files whose contents do not change between downloads; otherwise a row of the older contents can stay visible. CSV parsing is abstract; a record is parsed or skipped.
- Retention: positions are deleted by age after the configured time, so what holds of a recorded day in every run holds until then. The archive's other rows are not part of the importer's table.
- The table of statics is what shows once its parts are merged; a query before a merge may see several rows.
- Name, ship-type and IMO caches and their key-value buckets, initial-state replay, tier and area checks, resubscription.
- The aisstream and Finland connectors, which count an invalid frame without counting a line in: conservation is for line-based upstreams.
- Cancelled waits, back-off delays, statistics printing, shutdown.
- The control plane, the snapshotter, the history API, the coverage cache and the map page beyond its geohash decoder.
- Archiver.Writer.Collect: which rows a message yields is a parameter; `Collecting` gives it for published packets. Timestamps are passed through, without the fallback to the current time.
- Pipeline.Service.DoTrim: covers the position cache only; the three other caches do not route.
