/** Six-bit ASCII string fields: writing, reading, and the normal form the pair computes. */
module SixBit {
  import opened BitSeq
  import opened BitBuffer

  function Upper(c: char): char {
    if 'a' <= c <= 'z' then (c as int - 32) as char else c
  }

  /** The six-bit code written for a character; what has no code is written as '@', code 0. */
  function Code(c: char): (v: nat)
    ensures v < 64
  {
    var u := Upper(c) as int;
    var w := if u >= 64 then u - 64 else u;
    if w > 63 then 0 else w
  }

  /** The character read for a nonzero code. */
  function CodeChar(v: nat): char
    requires v < 64
  {
    (if v < 32 then v + 64 else v) as char
  }

  /** Field `i` of a string padded with '@'. */
  function CodeAt(s: string, i: nat): (v: nat)
    ensures v < 64
  {
    if i < |s| then Code(s[i]) else 0
  }

  /** A string as `chars` six-bit codes. */
  function StrBits(s: string, chars: nat): (b: seq<bool>)
    ensures |b| == 6 * chars
  {
    if chars == 0 then [] else StrBits(s, chars - 1) + UintBits(CodeAt(s, chars - 1), 6)
  }

  method CodeOf(c: char) returns (v: nat)
    ensures v == Code(c)
  {
    v := Upper(c) as int;
    if v >= 64 { v := v - 64; }
    if v > 63 { v := 0; }
  }

  method PushStr(buf: BitsMut, s: string, len: nat)
    requires buf.Valid() && len % 6 == 0
    modifies buf
    ensures buf.Valid() && buf.Contents() == old(buf.Contents()) + StrBits(s, len / 6)
  {
    hide Code;
    hide UintBits;
    hide CleanTail;
    hide BitsOf;
    for i := 0 to len / 6
      invariant buf.Valid() && buf.Contents() == old(buf.Contents()) + StrBits(s, i)
    {
      var code := 0;
      if i < |s| {
        code := CodeOf(s[i]);
      }
      assert code == CodeAt(s, i);
      buf.PushUint(code, 6);
    }
  }

  // ----------------------------------------------------------------- reading

  /** The characters up to the first code 0 or the last whole code. */
  function Chars(b: seq<bool>): string {
    if |b| < 6 then "" else
      SixBitsFit(b[..6]);
      var v := FromBits(b[..6]);
      if v == 0 then "" else [CodeChar(v)] + Chars(b[6..])
  }

  function TrimEnd(s: string): (t: string)
    ensures t <= s && (t == "" || t[|t| - 1] != ' ')
  {
    if s != "" && s[|s| - 1] == ' ' then TrimEnd(s[..|s| - 1]) else s
  }

  /** A string field, clipped to the stream. */
  function Str(b: seq<bool>, start: nat, len: nat): string {
    if start >= |b| then ""
    else if start + len > |b| then TrimEnd(Chars(b[start..]))
    else TrimEnd(Chars(b[start..start + len]))
  }

  method TrimSpaces(s: string) returns (t: string)
    ensures t == TrimEnd(s)
  {
    t := s;
    while t != "" && t[|t| - 1] == ' '
      invariant TrimEnd(t) == TrimEnd(s)
      decreases |t|
    {
      t := t[..|t| - 1];
    }
  }

  lemma CharsStep(field: seq<bool>, at: nat)
    requires at + 6 <= |field|
    ensures var v := FromBits(field[at..at + 6]);
            && v < 64
            && Chars(field[at..]) == if v == 0 then "" else [CodeChar(v)] + Chars(field[at + 6..])
  {
    var rest := field[at..];
    assert rest[..6] == field[at..at + 6] && rest[6..] == field[at + 6..];
    SixBitsFit(rest[..6]);
  }

  /** The characters of a field up to code 0, not yet trimmed. */
  method ReadChars(bs: Bits, start: nat, len: nat) returns (s: string)
    requires bs.Valid() && start + len <= bs.n
    ensures s == Chars(bs.Contents()[start..start + len])
  {
    hide BitsOf;
    hide FromBits;
    ghost var field := bs.Contents()[start..start + len];
    s := "";
    var at := 0;
    assert field[0..] == field;
    while at + 6 <= len
      invariant 0 <= at <= len && s + Chars(field[at..]) == Chars(field)
    {
      var c := ReadUint(bs, start + at, 6);
      assert bs.Contents()[start + at..start + at + 6] == field[at..at + 6];
      CharsStep(field, at);
      if c == 0 {
        return;
      }
      s := s + [CodeChar(c)];
      at := at + 6;
    }
  }

  method ReadString(bs: Bits, start: nat, length: nat) returns (s: string)
    requires bs.Valid()
    ensures s == Str(bs.Contents(), start, length)
  {
    hide BitsOf;
    hide Chars;
    hide TrimEnd;
    if start >= bs.n {
      return "";
    }
    var len := if start + length > bs.n then bs.n - start else length;
    assert start + length > bs.n ==> bs.Contents()[start..start + len] == bs.Contents()[start..];
    s := ReadChars(bs, start, len);
    s := TrimSpaces(s);
  }

  // ------------------------------------------------------------- normal form

  /** Truncate to `chars`, cut at the first character without a nonzero code, and map the rest. */
  function Mapped(s: string, chars: nat): string {
    if s == "" || chars == 0 || Code(s[0]) == 0 then ""
    else [CodeChar(Code(s[0]))] + Mapped(s[1..], chars - 1)
  }

  /** What a field of `chars` characters makes of a string. */
  function Clean(s: string, chars: nat): string {
    TrimEnd(Mapped(s, chars))
  }

  /** The strings a field of `chars` characters reproduces exactly. */
  predicate Canonical(s: string, chars: nat) {
    && |s| <= chars
    && (forall i | 0 <= i < |s| :: ' ' <= s[i] <= '_' && s[i] != '@')
    && (s == "" || s[|s| - 1] != ' ')
  }

  lemma {:induction false} StrBitsFront(s: string, chars: nat)
    requires chars > 0
    ensures StrBits(s, chars) == UintBits(CodeAt(s, 0), 6) + StrBits(if s == "" then "" else s[1..], chars - 1)
  {
    if chars > 1 {
      StrBitsFront(s, chars - 1);
    }
  }

  lemma {:induction false} CharsOfStrBits(s: string, chars: nat)
    ensures Chars(StrBits(s, chars)) == Mapped(s, chars)
  {
    if chars > 0 {
      StrBitsFront(s, chars);
      var b := StrBits(s, chars);
      assert b[..6] == UintBits(CodeAt(s, 0), 6) && b[6..] == StrBits(if s == "" then "" else s[1..], chars - 1);
      SextetBits(CodeAt(s, 0));
      CharsOfStrBits(if s == "" then "" else s[1..], chars - 1);
    }
  }

  /** Writing a string and reading it back cleans it. */
  lemma StrRoundTrip(b: seq<bool>, start: nat, s: string, chars: nat)
    requires chars > 0 && start + 6 * chars <= |b| && b[start..start + 6 * chars] == StrBits(s, chars)
    ensures Str(b, start, 6 * chars) == Clean(s, chars)
  {
    CharsOfStrBits(s, chars);
  }

  lemma {:induction false} MappedIdentity(s: string, chars: nat)
    requires |s| <= chars && forall i | 0 <= i < |s| :: ' ' <= s[i] <= '_' && s[i] != '@'
    ensures Mapped(s, chars) == s
  {
    if s != "" {
      MappedIdentity(s[1..], chars - 1);
      assert s == [s[0]] + s[1..];
    }
  }

  lemma {:induction false} MappedShape(s: string, chars: nat)
    ensures |Mapped(s, chars)| <= chars
    ensures forall i | 0 <= i < |Mapped(s, chars)| :: ' ' <= Mapped(s, chars)[i] <= '_' && Mapped(s, chars)[i] != '@'
  {
    if s != "" && chars > 0 && Code(s[0]) != 0 {
      MappedShape(s[1..], chars - 1);
    }
  }

  lemma {:induction false} CharsShape(b: seq<bool>)
    ensures |Chars(b)| <= |b| / 6
    ensures forall i | 0 <= i < |Chars(b)| :: ' ' <= Chars(b)[i] <= '_' && Chars(b)[i] != '@'
  {
    if |b| >= 6 {
      SixBitsFit(b[..6]);
      CharsShape(b[6..]);
    }
  }

  /** The normal form is canonical, and the canonical strings are exactly its fixed points. */
  lemma CleanCanonical(s: string, chars: nat)
    ensures Canonical(Clean(s, chars), chars)
    ensures Clean(s, chars) == s <==> Canonical(s, chars)
  {
    MappedShape(s, chars);
    if Canonical(s, chars) { MappedIdentity(s, chars); }
  }

  /** Whatever a field reads is canonical. */
  lemma StrCanonical(b: seq<bool>, start: nat, chars: nat)
    ensures Canonical(Str(b, start, 6 * chars), chars)
  {
    if start < |b| {
      CharsShape(b[start..]);
      if start + 6 * chars <= |b| { CharsShape(b[start..start + 6 * chars]); }
    }
  }

  /** Letter case is lost: strings that differ only in it come out the same. */
  lemma {:induction false} CaseIsLost(s: string, t: string, chars: nat)
    requires |s| == |t|
    requires forall i | 0 <= i < |s| :: s[i] == t[i] || ('a' <= s[i] <= 'z' && t[i] as int == s[i] as int - 32)
    ensures Clean(s, chars) == Clean(t, chars)
  {
    MappedAlike(s, t, chars);
  }

  lemma {:induction false} MappedAlike(s: string, t: string, chars: nat)
    requires |s| == |t|
    requires forall i | 0 <= i < |s| :: s[i] == t[i] || ('a' <= s[i] <= 'z' && t[i] as int == s[i] as int - 32)
    ensures Mapped(s, chars) == Mapped(t, chars)
    decreases chars
  {
    if s != "" && chars > 0 {
      assert Code(s[0]) == Code(t[0]);
      MappedAlike(s[1..], t[1..], chars - 1);
    }
  }
}
