/** AIVDM sentences: parsing one line, and printing a payload as a group of lines. */
module Nmea {
  import opened Prelude
  import opened Text
  import opened BitBuffer

  datatype ParseError = NotAis | BadChecksum(have: nat, want: nat) | Malformed | BadFragment | PayloadChars

  datatype Sentence = Sentence(
    raw: string, tagBlock: Option<string>, talker: string, kind: string, fragments: nat, fragment: nat,
    seqId: string, channel: string, payload: string, fillBits: nat)

  // ----------------------------------------------------------------- parsing

  predicate IsSpace(c: char) {
    c == ' ' || 9 <= c as int <= 13
  }

  function TrimLeft(s: string): string {
    if s != "" && IsSpace(s[0]) then TrimLeft(s[1..]) else s
  }

  function TrimRight(s: string): string {
    if s != "" && IsSpace(s[|s| - 1]) then TrimRight(s[..|s| - 1]) else s
  }

  function Trim(s: string): string {
    TrimRight(TrimLeft(s))
  }

  /** The first position of `c`. */
  function Find(s: string, c: char): (r: Option<nat>)
    ensures r.Some? ==> r.value < |s| && s[r.value] == c && c !in s[..r.value]
    ensures r == None <==> c !in s
  {
    if s == "" then None
    else if s[0] == c then Some(0)
    else match Find(s[1..], c) case Some(i) => Some(i + 1) case None => None
  }

  /** The last position of `c`. */
  function FindLast(s: string, c: char): (r: Option<nat>)
    ensures r.Some? ==> r.value < |s| && s[r.value] == c && c !in s[r.value + 1..]
    ensures r == None <==> c !in s
  {
    if s == "" then None
    else if s[|s| - 1] == c then Some(|s| - 1)
    else FindLast(s[..|s| - 1], c)
  }

  function DigitValue(c: char, radix: nat): Option<nat> {
    var v := if '0' <= c <= '9' then c as int - 48
             else if 'A' <= c <= 'F' then c as int - 55
             else if 'a' <= c <= 'f' then c as int - 87
             else radix;
    if v < radix then Some(v) else None
  }

  function DigitsValue(s: string, radix: nat): Option<nat> {
    if s == "" then Some(0) else
      match (DigitsValue(s[..|s| - 1], radix), DigitValue(s[|s| - 1], radix))
      case (Some(n), Some(d)) => Some(radix * n + d)
      case _ => None
  }

  /** A byte in digits of the given radix, with an optional plus sign. */
  function ParseU8(s: string, radix: nat): Option<nat> {
    var digits := if |s| > 1 && s[0] == '+' then s[1..] else s;
    if digits == "" then None else
      match DigitsValue(digits, radix)
      case Some(n) => if n <= 255 then Some(n) else None
      case None => None
  }

  /** The XOR of all bytes. */
  function Checksum(s: string): bv8 {
    if s == "" then 0 else Checksum(s[..|s| - 1]) ^ ((s[|s| - 1] as int % 256) as bv8)
  }

  function ParseFields(fields: seq<string>, raw: string, tag: Option<string>): Result<Sentence, ParseError> {
    if |fields| != 7 then Err(Malformed)
    else if |fields[0]| != 5 || (fields[0][2..] != "VDM" && fields[0][2..] != "VDO") then Err(NotAis)
    else
      var fragments, fragment := ParseU8(fields[1], 10), ParseU8(fields[2], 10);
      if fragments == None || fragment == None then Err(BadFragment)
      else if fragments.value < 1 || fragment.value < 1 || fragment.value > fragments.value then Err(BadFragment)
      else
        var fill := if fields[6] == "" then Some(0) else ParseU8(fields[6], 10);
        if fill == None || fill.value > 5 then Err(Malformed)
        else if !AllArmor(fields[5]) then Err(PayloadChars)
        else Ok(Sentence(raw, tag, fields[0][..2], fields[0][2..], fragments.value, fragment.value,
                         fields[3], fields[4], fields[5], fill.value))
  }

  /** A line without whitespace around it and without its TAG block. */
  function ParseBare(line: string, tag: Option<string>): Result<Sentence, ParseError> {
    if |line| < 10 || (line[0] != '!' && line[0] != '$') then Err(NotAis)
    else
      var last := FindLast(line, '*');
      if last == None || last.value + 3 > |line| then Err(Malformed)
      else
        var star := last.value;
        var want := ParseU8(line[star + 1..star + 3], 16);
        if want == None then Err(Malformed)
        else
          var have := Checksum(line[1..star]) as int;
          if have != want.value then Err(BadChecksum(have, want.value))
          else ParseFields(Split(line[1..star], ','), line, tag)
  }

  function Parse(line: string): Result<Sentence, ParseError> {
    var s := Trim(line);
    if s != "" && s[0] == '\\' then
      var end := Find(s[1..], '\\');
      if end == None then Err(Malformed)
      else ParseBare(s[1..][end.value + 1..], Some(s[1..][..end.value]))
    else ParseBare(s, None)
  }

  // ---------------------------------------------------------------- printing

  const MAX_PAYLOAD_CHARS := 60

  function DigitChar(d: nat): char
    requires d < 10
  {
    (d + 48) as char
  }

  function Decimal(n: nat): string {
    if n < 10 then [DigitChar(n)] else Decimal(n / 10) + [DigitChar(n % 10)]
  }

  function HexChar(d: nat): char
    requires d < 16
  {
    (d + if d < 10 then 48 else 55) as char
  }

  function HexByte(n: nat): string
    requires n < 256
  {
    [HexChar(n / 16), HexChar(n % 16)]
  }

  function ChunksOf(payload: string): seq<string> {
    if |payload| <= MAX_PAYLOAD_CHARS then [payload]
    else [payload[..MAX_PAYLOAD_CHARS]] + ChunksOf(payload[MAX_PAYLOAD_CHARS..])
  }

  function Body(total: nat, number: nat, seqField: string, channel: string, chunk: string, fill: nat): string {
    "AIVDM," + (Decimal(total) + ("," + (Decimal(number) + ("," + (seqField + ("," + (channel +
    ("," + (chunk + ("," + Decimal(fill)))))))))))
  }

  /** A body between its start character and its checksum. */
  function Line(body: string): string {
    "!" + body + "*" + HexByte(Checksum(body) as int)
  }

  function SeqField(total: nat, seqNo: nat): string {
    if total == 1 then "" else Decimal(seqNo % 10)
  }

  /** The sentence for chunk `i`. */
  function SentenceLine(chunks: seq<string>, i: nat, fill: nat, channel: string, seqNo: nat): string
    requires i < |chunks|
  {
    Line(Body(|chunks|, i + 1, SeqField(|chunks|, seqNo), channel, chunks[i], if i + 1 == |chunks| then fill else 0))
  }

  function ToSentences(payload: string, fill: nat, channel: string, seqNo: nat): (lines: seq<string>)
    ensures |lines| == |ChunksOf(payload)|
    ensures forall i | 0 <= i < |lines| :: lines[i] == SentenceLine(ChunksOf(payload), i, fill, channel, seqNo)
  {
    var chunks := ChunksOf(payload);
    seq(|chunks|, i requires 0 <= i < |chunks| => SentenceLine(chunks, i, fill, channel, seqNo))
  }

  // --------------------------------------------------- what printing produces

  lemma {:induction false} ChunksJoin(payload: string)
    ensures Flatten(ChunksOf(payload)) == payload
    ensures |ChunksOf(payload)| >= 1
    ensures forall i | 0 <= i < |ChunksOf(payload)| - 1 :: |ChunksOf(payload)[i]| == 60
    ensures |ChunksOf(payload)[|ChunksOf(payload)| - 1]| <= 60
  {
    if |payload| <= MAX_PAYLOAD_CHARS {
      assert [payload][1..] == [];
    } else {
      var rest := payload[MAX_PAYLOAD_CHARS..];
      ChunksJoin(rest);
      assert ChunksOf(payload)[1..] == ChunksOf(rest);
    }
  }

  lemma {:induction false} FlattenArmor(chunks: seq<string>)
    ensures AllArmor(Flatten(chunks)) <==> forall i | 0 <= i < |chunks| :: AllArmor(chunks[i])
  {
    if chunks != [] {
      FlattenArmor(chunks[1..]);
      var a, b := chunks[0], Flatten(chunks[1..]);
      assert AllArmor(a + b) <==> AllArmor(a) && AllArmor(b) by {
        if AllArmor(a + b) {
          assert forall i | 0 <= i < |a| :: a[i] == (a + b)[i];
          assert forall i | 0 <= i < |b| :: b[i] == (a + b)[|a| + i];
        }
      }
      assert forall i | 0 < i < |chunks| :: chunks[i] == chunks[1..][i - 1];
      assert forall i | 0 <= i < |chunks| - 1 :: chunks[1..][i] == chunks[i + 1];
    }
  }

  predicate IsDecimalDigit(c: char) { '0' <= c <= '9' }

  lemma {:induction false} DecimalDigits(n: nat)
    ensures Decimal(n) != "" && forall i | 0 <= i < |Decimal(n)| :: IsDecimalDigit(Decimal(n)[i])
    ensures DigitsValue(Decimal(n), 10) == Some(n)
  {
    if n < 10 {
      assert Decimal(n)[..0] == "";
    } else {
      DecimalDigits(n / 10);
      assert Decimal(n)[..|Decimal(n)| - 1] == Decimal(n / 10);
    }
  }

  /** A printed number is read back when it fits a byte, and refused otherwise. */
  lemma ParseDecimal(n: nat)
    ensures ParseU8(Decimal(n), 10) == if n <= 255 then Some(n) else None
    ensures ',' !in Decimal(n)
  {
    DecimalDigits(n);
    assert IsDecimalDigit(Decimal(n)[0]);
  }

  lemma ParseHexByte(n: nat)
    requires n < 256
    ensures ParseU8(HexByte(n), 16) == Some(n)
    ensures '*' !in HexByte(n) && !IsSpace(HexByte(n)[1])
  {
    var h := HexByte(n);
    assert h[..1] == [h[0]] && h[..1][..0] == "";
    assert DigitValue(h[0], 16) == Some(n / 16) && DigitValue(h[1], 16) == Some(n % 16);
    assert DigitsValue(h[..1], 16) == Some(n / 16);
  }

  // ----------------------------------------------------------- the checksum law

  /** The checksum of a text is the exclusive or of the checksums of its parts. */
  lemma {:induction false} ChecksumJoins(a: string, b: string)
    ensures Checksum(a + b) == Checksum(a) ^ Checksum(b)
    decreases |b|
  {
    if b == "" {
      assert a + b == a;
      XorZero(Checksum(a));
    } else {
      var init, last := b[..|b| - 1], b[|b| - 1];
      ChecksumJoins(a, init);
      assert (a + b)[..|a + b| - 1] == a + init;
      XorAssociates(Checksum(a), Checksum(init), (last as int % 256) as bv8);
    }
  }

  lemma XorZero(x: bv8)
    ensures x ^ 0 == x && 0 ^ x == x
  {}

  lemma XorAssociates(x: bv8, y: bv8, z: bv8)
    ensures (x ^ y) ^ z == x ^ (y ^ z)
  {}

  /** And that of one byte is the byte. */
  lemma ChecksumOfOne(c: char)
    requires c as int < 256
    ensures Checksum([c]) == (c as int) as bv8 && Checksum("") == 0
  {
    assert [c][..0] == "";
    XorZero((c as int) as bv8);
  }
}
