/** How a line is judged, whatever its start character, talker, kind, numbering and checksum; and what
    whitespace and a TAG block around it change. */
module NmeaLines {
  import opened Prelude
  import opened Text
  import opened BitBuffer
  import opened Nmea

  // ------------------------------------------------------ around the sentence

  lemma TrimKeeps(s: string)
    requires s != "" && !IsSpace(s[0]) && !IsSpace(s[|s| - 1])
    ensures Trim(s) == s
  {}

  predicate AllSpace(s: string) {
    forall i | 0 <= i < |s| :: IsSpace(s[i])
  }

  /** The blank, and the tab, line feed, vertical tab, form feed and carriage return. */
  lemma SpaceCharacters(c: char)
    ensures IsSpace(c) <==> c in {' ', '\t', '\n', 11 as char, 12 as char, '\r'}
  {}

  lemma {:induction false} TrimLeftSkips(a: string, s: string)
    requires AllSpace(a)
    ensures TrimLeft(a + s) == TrimLeft(s)
  {
    if a == "" {
      assert a + s == s;
    } else {
      assert (a + s)[0] == a[0] && (a + s)[1..] == a[1..] + s;
      TrimLeftSkips(a[1..], s);
    }
  }

  lemma {:induction false} TrimRightSkips(s: string, b: string)
    requires AllSpace(b)
    ensures TrimRight(s + b) == TrimRight(s)
  {
    if b == "" {
      assert s + b == s;
    } else {
      assert (s + b)[|s + b| - 1] == b[|b| - 1] && (s + b)[..|s + b| - 1] == s + b[..|b| - 1];
      TrimRightSkips(s, b[..|b| - 1]);
    }
  }

  lemma TrimSkips(a: string, s: string, b: string)
    requires AllSpace(a) && AllSpace(b) && s != "" && !IsSpace(s[0]) && !IsSpace(s[|s| - 1])
    ensures Trim(a + s + b) == s
  {
    assert a + s + b == a + (s + b);
    TrimLeftSkips(a, s + b);
    assert (s + b)[0] == s[0];
    TrimRightSkips(s, b);
  }

  /** Whitespace around a line changes nothing. */
  lemma WhitespaceIsIgnored(a: string, s: string, b: string)
    requires AllSpace(a) && AllSpace(b) && s != "" && !IsSpace(s[0]) && !IsSpace(s[|s| - 1])
    ensures Parse(a + s + b) == Parse(s)
  {
    hide Trim, IsSpace, ParseBare, Find;
    TrimSkips(a, s, b);
    TrimKeeps(s);
  }

  lemma {:induction false} FindAt(s: string, c: char, i: nat)
    requires i < |s| && s[i] == c && c !in s[..i]
    ensures Find(s, c) == Some(i)
  {
    if i > 0 {
      assert s[..i][0] == s[0] && s[..i][1..] == s[1..][..i - 1];
      FindAt(s[1..], c, i - 1);
    }
  }

  lemma TagDoesNotMatter(line: string, tag: string)
    ensures ParseBare(line, Some(tag)) ==
            match ParseBare(line, None) case Ok(s) => Ok(s.(tagBlock := Some(tag))) case Err(e) => Err(e)
  {
    hide Split, FindLast, ParseU8, AllArmor, Checksum;
  }

  /** A TAG block before a line only labels the sentence; its content is not looked at. */
  lemma TagBlockOnlyLabels(tag: string, line: string)
    requires '\\' !in tag && line != ""
    requires line[0] != '\\' && !IsSpace(line[0]) && !IsSpace(line[|line| - 1])
    ensures Parse("\\" + tag + "\\" + line) ==
            match Parse(line) case Ok(s) => Ok(s.(tagBlock := Some(tag))) case Err(e) => Err(e)
  {
    hide ParseBare, Trim, Find, FindLast;
    var whole, rest := "\\" + tag + "\\" + line, tag + "\\" + line;
    TrimKeeps(whole);
    TrimKeeps(line);
    assert whole[1..] == rest && rest[..|tag|] == tag && rest[|tag| + 1..] == line;
    FindAt(rest, '\\', |tag|);
    TagDoesNotMatter(line, tag);
  }

  /** One that is never closed makes the line malformed. */
  lemma OpenTagBlockIsMalformed(rest: string)
    requires '\\' !in rest && (rest == "" || !IsSpace(rest[|rest| - 1]))
    ensures Parse("\\" + rest) == Err(Malformed)
  {
    TrimKeeps("\\" + rest);
    assert ("\\" + rest)[1..] == rest;
  }

  // ---------------------------------------------------- envelope and checksum

  lemma {:induction false} FindLastAt(s: string, c: char, i: nat)
    requires i < |s| && s[i] == c && c !in s[i + 1..]
    ensures FindLast(s, c) == Some(i)
  {
    if i < |s| - 1 {
      var init := s[..|s| - 1];
      assert s[i + 1..] == init[i + 1..] + [s[|s| - 1]];
      FindLastAt(init, c, i);
    }
  }

  lemma HexByteLength(n: nat)
    requires n < 256
    ensures |HexByte(n)| == 2
  {}

  lemma UntaggedIsBare(line: string)
    requires line != "" && line[0] != '\\' && !IsSpace(line[0]) && !IsSpace(line[|line| - 1])
    ensures Parse(line) == ParseBare(line, None)
  {
    hide ParseBare, Trim, Find;
    TrimKeeps(line);
  }

  lemma EnvelopeIsTaken(line: string, body: string, hex: string)
    requires |line| >= 10 && |hex| == 2 && |line| == |body| + 4 && line[|body| + 1] == '*'
    requires line[1..|body| + 1] == body && line[|body| + 2..] == hex && '*' !in hex
    ensures ParseBare(line, None) == Verdict(line, body, hex)
  {
    hide Checksum, Split, ParseFields, ParseU8, FindLast;
    FindLastAt(line, '*', |body| + 1);
    assert line[|body| + 2..|body| + 4] == hex;
  }

  /** What a line of these parts deserves: it must open with `!` or `$`, and its two digits must give the
      exclusive or of the body; then the fields decide. */
  function Verdict(line: string, body: string, hex: string): Result<Sentence, ParseError>
    requires line != ""
  {
    if line[0] != '!' && line[0] != '$' then Err(NotAis)
    else
      match ParseU8(hex, 16)
      case None => Err(Malformed)
      case Some(want) =>
        if want != Checksum(body) as int then Err(BadChecksum(Checksum(body) as int, want))
        else ParseFields(Split(body, ','), line, None)
  }

  lemma LineParts(start: char, body: string, hex: string)
    ensures var line := [start] + body + "*" + hex;
            && |line| == |body| + 2 + |hex| && line[0] == start && line[|body| + 1] == '*'
            && line[1..|body| + 1] == body && line[|body| + 2..] == hex
  {
    var line := [start] + body + "*" + hex;
    assert line[1..|body| + 1] == body;
    assert line[|body| + 2..] == hex;
  }

  /** So is every line of a body and two characters for its checksum judged. */
  lemma EnvelopeDecides(start: char, body: string, hex: string)
    requires start != '\\' && !IsSpace(start)
    requires |hex| == 2 && '*' !in hex && !IsSpace(hex[1]) && |body| >= 6
    ensures var line := [start] + body + "*" + hex;
            Parse(line) == Verdict(line, body, hex)
  {
    hide Parse, ParseBare, IsSpace, Verdict;
    var line := [start] + body + "*" + hex;
    LineParts(start, body, hex);
    assert line[|line| - 1] == line[|body| + 2..][1];
    UntaggedIsBare(line);
    EnvelopeIsTaken(line, body, hex);
  }

  /** No checksum but the true one is accepted, and the refusal names both. */
  lemma OnlyTheTrueChecksum(start: char, body: string, n: nat)
    requires (start == '!' || start == '$') && n < 256 && |body| >= 6
    ensures n != Checksum(body) as int ==>
              Parse([start] + body + "*" + HexByte(n)) == Err(BadChecksum(Checksum(body) as int, n))
  {
    hide Checksum, HexByte, Parse, ParseU8, Split, ParseFields;
    ParseHexByte(n);
    HexByteLength(n);
    EnvelopeDecides(start, body, HexByte(n));
  }

  // ---------------------------------------------------------- numbers in fields

  /** A digit sequence has a value exactly when every character is a digit of the radix. */
  lemma {:induction false} DigitsIff(s: string, radix: nat)
    ensures DigitsValue(s, radix).Some? <==> forall i | 0 <= i < |s| :: DigitValue(s[i], radix).Some?
  {
    if s != "" {
      var init := s[..|s| - 1];
      DigitsIff(init, radix);
      assert forall i | 0 <= i < |init| :: init[i] == s[i];
    }
  }

  /** Decimal digits are those; hexadecimal ones also the letters to F, in either case. */
  lemma DigitsOfTheRadix(c: char)
    ensures DigitValue(c, 10).Some? <==> '0' <= c <= '9'
    ensures DigitValue(c, 16).Some? <==> '0' <= c <= '9' || 'A' <= c <= 'F' || 'a' <= c <= 'f'
    ensures 'a' <= c <= 'f' ==> DigitValue(c, 16) == DigitValue((c as int - 32) as char, 16)
  {}

  /** One plus sign may precede the digits of a number, and no byte is without digits. */
  lemma PlusIsAllowed(s: string, radix: nat)
    requires radix <= 16
    ensures ParseU8("+" + s, radix) == if s != "" && s[0] == '+' then None else ParseU8(s, radix)
    ensures ParseU8("", radix) == None
  {
    assert ("+" + s)[1..] == s;
    if s != "" && s[0] == '+' { DigitsIff(s, radix); }
    assert s == "" ==> "+" + s == "+";
    DigitsIff("+", radix);
    assert DigitValue("+"[0], radix) == None;
  }

  // ---------------------------------------------------------------- the fields

  function FillField(fill: Option<nat>): string {
    match fill case None => "" case Some(n) => Decimal(n)
  }

  /** A body with any talker and kind, and the fill bits possibly left out. */
  function AnyBody(head: string, total: nat, number: nat, seqField: string, channel: string, chunk: string,
                   fill: Option<nat>): string
  {
    head + ("," + (Decimal(total) + ("," + (Decimal(number) + ("," + (seqField + ("," + (channel + ("," + (chunk +
    ("," + FillField(fill))))))))))))
  }

  lemma SplitFirst(a: string, b: string)
    requires ',' !in a
    ensures Split(a + ("," + b), ',') == [a] + Split(b, ',')
  {
    SplitCons(a, ',', b);
    assert a + ("," + b) == a + [','] + b;
  }

  lemma AnyBodySplits(head: string, total: nat, number: nat, seqField: string, channel: string, chunk: string,
                      fill: Option<nat>)
    requires ',' !in head && ',' !in seqField && ',' !in channel && ',' !in chunk
    ensures Split(AnyBody(head, total, number, seqField, channel, chunk, fill), ',') ==
            [head, Decimal(total), Decimal(number), seqField, channel, chunk, FillField(fill)]
  {
    hide Split, Decimal;
    ParseDecimal(total);
    ParseDecimal(number);
    if fill.Some? { ParseDecimal(fill.value); }
    var t6 := FillField(fill);
    var t5 := chunk + ("," + t6);
    var t4 := channel + ("," + t5);
    var t3 := seqField + ("," + t4);
    var t2 := Decimal(number) + ("," + t3);
    var t1 := Decimal(total) + ("," + t2);
    SplitOne(t6, ',');
    SplitFirst(chunk, t6);
    SplitFirst(channel, t5);
    SplitFirst(seqField, t4);
    SplitFirst(Decimal(number), t3);
    SplitFirst(Decimal(total), t2);
    SplitFirst(head, t1);
    assert AnyBody(head, total, number, seqField, channel, chunk, fill) == head + ("," + t1);
  }

  lemma DecimalNonempty(n: nat)
    ensures Decimal(n) != ""
  {}

  lemma AnyFieldsParse(talker: string, kind: string, total: nat, number: nat, seqField: string, channel: string,
                       chunk: string, fill: Option<nat>, raw: string)
    requires |talker| == 2 && |kind| == 3
    ensures ParseFields([talker + kind, Decimal(total), Decimal(number), seqField, channel, chunk, FillField(fill)],
                        raw, None) ==
            if kind != "VDM" && kind != "VDO" then Err(NotAis)
            else if !(1 <= number <= total <= 255) then Err(BadFragment)
            else if fill.Some? && fill.value > 5 then Err(Malformed)
            else if !AllArmor(chunk) then Err(PayloadChars)
            else Ok(Sentence(raw, None, talker, kind, total, number, seqField, channel, chunk,
                             match fill case None => 0 case Some(n) => n))
  {
    hide Decimal, ParseU8, AllArmor;
    ParseDecimal(total);
    ParseDecimal(number);
    if fill.Some? {
      ParseDecimal(fill.value);
      DecimalNonempty(fill.value);
    }
    assert (talker + kind)[..2] == talker && (talker + kind)[2..] == kind;
  }

  /** The verdict on every line of seven fields with a true checksum: the kind must be VDM or VDO, the
      fragment one of those announced, the fill at most 5 or left out, and the payload armored; then the
      sentence holds every field as sent. */
  lemma SentenceIsTakenAsSent(start: char, talker: string, kind: string, total: nat, number: nat, seqField: string,
                              channel: string, chunk: string, fill: Option<nat>)
    requires (start == '!' || start == '$') && |talker| == 2 && |kind| == 3
    requires ',' !in talker && ',' !in kind && ',' !in seqField && ',' !in channel && ',' !in chunk
    ensures var body := AnyBody(talker + kind, total, number, seqField, channel, chunk, fill);
            var line := [start] + body + "*" + HexByte(Checksum(body) as int);
            Parse(line) ==
            if kind != "VDM" && kind != "VDO" then Err(NotAis)
            else if !(1 <= number <= total <= 255) then Err(BadFragment)
            else if fill.Some? && fill.value > 5 then Err(Malformed)
            else if !AllArmor(chunk) then Err(PayloadChars)
            else Ok(Sentence(line, None, talker, kind, total, number, seqField, channel, chunk,
                             match fill case None => 0 case Some(n) => n))
  {
    hide Checksum, HexByte, Parse, ParseU8, Split, ParseFields, Decimal, AllArmor, AnyBody;
    var body := AnyBody(talker + kind, total, number, seqField, channel, chunk, fill);
    var hex := HexByte(Checksum(body) as int);
    ParseHexByte(Checksum(body) as int);
    HexByteLength(Checksum(body) as int);
    AnyBodyLong(talker + kind, total, number, seqField, channel, chunk, fill);
    EnvelopeDecides(start, body, hex);
    AnyBodySplits(talker + kind, total, number, seqField, channel, chunk, fill);
    AnyFieldsParse(talker, kind, total, number, seqField, channel, chunk, fill, [start] + body + "*" + hex);
  }

  lemma AnyBodyLong(head: string, total: nat, number: nat, seqField: string, channel: string, chunk: string,
                    fill: Option<nat>)
    ensures |AnyBody(head, total, number, seqField, channel, chunk, fill)| >= 6
  {}

  /** Every sentence that parses has a payload that de-armors, unless it is empty and announces fill bits. */
  lemma ParsedPayloadDearmors(line: string)
    ensures Parse(line).Ok? ==>
              var s := Parse(line).value;
              Dearmored(s.payload, s.fillBits).Ok? <==> s.payload != "" || s.fillBits == 0
  {
    hide Trim, Find, FindLast, Split, Checksum, ParseU8, Dearmored;
    if Parse(line).Ok? {
      DearmoredIff(Parse(line).value.payload, Parse(line).value.fillBits);
    }
  }
}
