/** The parser inverts the printer, on exactly the inputs whose lines are well-formed. */
module NmeaRoundTrip {
  import opened Prelude
  import opened Text
  import opened BitBuffer
  import opened Nmea
  import opened NmeaLines

  // -------------------------------------------------- the envelope of a line

  /** A printed line passes the envelope checks, so its fate is that of its fields. */
  lemma LineReachesFields(body: string)
    requires |body| >= 6
    ensures Parse(Line(body)) == ParseFields(Split(body, ','), Line(body), None)
  {
    hide Checksum, Split, ParseFields, Parse, HexByte, ParseU8;
    ParseHexByte(Checksum(body) as int);
    HexByteLength(Checksum(body) as int);
    EnvelopeDecides('!', body, HexByte(Checksum(body) as int));
  }

  // ------------------------------------------------------ the fields of a body

  lemma CountNone(s: string)
    requires ',' !in s
    ensures Count(s, ',') == 0
  {
    CountZero(s, ',');
  }

  lemma CountTail(a: string, b: string)
    requires ',' !in a
    ensures Count(a + ("," + b), ',') == 1 + Count(b, ',')
  {
    CountJoin(a, "," + b, ',');
    CountNone(a);
    assert ("," + b)[1..] == b;
  }

  lemma CountPart(a: string, b: string)
    ensures Count(a + ("," + b), ',') == Count(a, ',') + 1 + Count(b, ',')
  {
    CountJoin(a, "," + b, ',');
    assert ("," + b)[1..] == b;
  }

  /** Besides the six separators, the commas of a body are those of its channel and chunk. */
  lemma BodyCommas(total: nat, number: nat, seqField: string, channel: string, chunk: string, fill: nat)
    requires ',' !in seqField
    ensures Count(Body(total, number, seqField, channel, chunk, fill), ',') ==
            6 + Count(channel, ',') + Count(chunk, ',')
  {
    hide Count, Decimal;
    ParseDecimal(total);
    ParseDecimal(number);
    ParseDecimal(fill);
    var t6 := Decimal(fill);
    var t5 := chunk + ("," + t6);
    var t4 := channel + ("," + t5);
    var t3 := seqField + ("," + t4);
    var t2 := Decimal(number) + ("," + t3);
    var t1 := Decimal(total) + ("," + t2);
    CountNone(t6);
    CountPart(chunk, t6);
    CountPart(channel, t5);
    CountTail(seqField, t4);
    CountTail(Decimal(number), t3);
    CountTail(Decimal(total), t2);
    CountTail("AIVDM", t1);
    assert Body(total, number, seqField, channel, chunk, fill) == "AIVDM" + ("," + t1);
  }

  // ----------------------------------------------------------- one printed line

  /** What parsing one printed line gives, for every numbering, channel, chunk and fill. */
  lemma PrintedLineParses(total: nat, number: nat, seqField: string, channel: string, chunk: string, fill: nat)
    requires ',' !in seqField
    ensures var line := Line(Body(total, number, seqField, channel, chunk, fill));
            if ',' !in channel && ',' !in chunk && 1 <= number <= total <= 255 && fill <= 5 && AllArmor(chunk)
            then Parse(line) == Ok(Sentence(line, None, "AI", "VDM", total, number, seqField, channel, chunk, fill))
            else Parse(line).Err?
  {
    var body := Body(total, number, seqField, channel, chunk, fill);
    assert "AI" + "VDM" == "AIVDM";
    if ',' in channel || ',' in chunk {
      BodyLong(total, number, seqField, channel, chunk, fill);
      LineReachesFields(body);
      BodyCommas(total, number, seqField, channel, chunk, fill);
      CountZero(channel, ',');
      CountZero(chunk, ',');
      SplitCount(body, ',');
    } else {
      hide Parse, Checksum, HexByte, AllArmor, Decimal;
      assert body == AnyBody("AI" + "VDM", total, number, seqField, channel, chunk, Some(fill));
      SentenceIsTakenAsSent('!', "AI", "VDM", total, number, seqField, channel, chunk, Some(fill));
    }
  }

  lemma BodyLong(total: nat, number: nat, seqField: string, channel: string, chunk: string, fill: nat)
    ensures |Body(total, number, seqField, channel, chunk, fill)| >= 6
  {}

  // ---------------------------------------------------------- the whole group

  /** The inputs whose every line can be read back. */
  predicate Printable(payload: string, fill: nat, channel: string) {
    AllArmor(payload) && |ChunksOf(payload)| <= 255 && ',' !in channel && fill <= 5
  }

  /** The sentence `parse` should return for chunk `i`. */
  function ExpectedSentence(payload: string, fill: nat, channel: string, seqNo: nat, i: nat): Sentence
    requires i < |ChunksOf(payload)|
  {
    var chunks := ChunksOf(payload);
    Sentence(ToSentences(payload, fill, channel, seqNo)[i], None, "AI", "VDM", |chunks|, i + 1,
             SeqField(|chunks|, seqNo), channel, chunks[i], if i + 1 == |chunks| then fill else 0)
  }

  lemma ArmorHasNoComma(s: string)
    requires AllArmor(s)
    ensures ',' !in s
  {}

  lemma SeqFieldPlain(total: nat, seqNo: nat)
    ensures ',' !in SeqField(total, seqNo)
  {
    ParseDecimal(seqNo % 10);
  }

  /** Every line of a printable group parses to its own fragment; the chunks join to the payload. */
  lemma PrintedGroupParses(payload: string, fill: nat, channel: string, seqNo: nat, i: nat)
    requires Printable(payload, fill, channel) && i < |ChunksOf(payload)|
    ensures Parse(ToSentences(payload, fill, channel, seqNo)[i]) ==
            Ok(ExpectedSentence(payload, fill, channel, seqNo, i))
    ensures Flatten(ChunksOf(payload)) == payload
  {
    hide Parse, Line, Body, SeqField;
    var chunks := ChunksOf(payload);
    ChunksJoin(payload);
    FlattenArmor(chunks);
    ArmorHasNoComma(chunks[i]);
    SeqFieldPlain(|chunks|, seqNo);
    PrintedLineParses(|chunks|, i + 1, SeqField(|chunks|, seqNo), channel, chunks[i],
                      if i + 1 == |chunks| then fill else 0);
  }

  /** The lines of a group carry the last digit of its number; a line alone carries none. */
  lemma GroupIsMarked(payload: string, fill: nat, channel: string, seqNo: nat, i: nat)
    requires Printable(payload, fill, channel) && i < |ChunksOf(payload)|
    ensures var sentence := Parse(ToSentences(payload, fill, channel, seqNo)[i]);
            && sentence.Ok?
            && if |payload| <= 60 then sentence.value.seqId == ""
               else |sentence.value.seqId| == 1 && DigitsValue(sentence.value.seqId, 10) == Some(seqNo % 10)
  {
    hide Parse, ToSentences, Printable;
    PrintedGroupParses(payload, fill, channel, seqNo, i);
    DecimalDigits(seqNo % 10);
    hide DigitsValue;
    if |payload| > 60 { ChunksJoin(payload[60..]); }
  }

  /** No line is rejected exactly when the group is printable. */
  lemma AllLinesParseIffPrintable(payload: string, fill: nat, channel: string, seqNo: nat)
    ensures (forall i | 0 <= i < |ChunksOf(payload)| :: Parse(ToSentences(payload, fill, channel, seqNo)[i]).Ok?)
       <==> Printable(payload, fill, channel)
  {
    hide Parse, Line, Body, SeqField, AllArmor;
    var chunks := ChunksOf(payload);
    var lines := ToSentences(payload, fill, channel, seqNo);
    ChunksJoin(payload);
    FlattenArmor(chunks);
    SeqFieldPlain(|chunks|, seqNo);
    forall i | 0 <= i < |chunks|
      ensures Printable(payload, fill, channel) ==> Parse(lines[i]).Ok?
      ensures Parse(lines[i]).Ok? ==>
                AllArmor(chunks[i]) && |chunks| <= 255 && ',' !in channel && (i + 1 == |chunks| ==> fill <= 5)
    {
      if Printable(payload, fill, channel) { PrintedGroupParses(payload, fill, channel, seqNo, i); }
      PrintedLineParses(|chunks|, i + 1, SeqField(|chunks|, seqNo), channel, chunks[i],
                        if i + 1 == |chunks| then fill else 0);
    }
    if forall i | 0 <= i < |chunks| :: Parse(lines[i]).Ok? {
      assert Parse(lines[|chunks| - 1]).Ok?;
    }
  }
}
