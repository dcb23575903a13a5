/** A message body as an ordered list of fields, and where each field lands in the bit stream. */
module Layout {
  import opened Prelude
  import opened BitSeq
  import opened BitBuffer
  import opened SixBit

  type FieldWidth = w: nat | 0 < w < 64 witness 1

  /** One push: an unsigned or signed number of `width` bits, a flag, or `chars` six-bit characters. */
  datatype Field =
    | U(v: nat, width: FieldWidth)
    | I(i: int, width: FieldWidth)
    | B(flag: bool)
    | S(text: string, chars: FieldWidth)
  {
    function Bits(): seq<bool> {
      match this
      case U(v, w) => UintBits(v, w)
      case I(i, w) => IntBits(i, w)
      case B(f) => [f]
      case S(t, n) => StrBits(t, n)
    }

    function Width(): (w: nat)
      ensures |Bits()| == w
    {
      match this
      case U(_, w) => w
      case I(_, w) => w
      case B(_) => 1
      case S(_, n) => 6 * n
    }
  }

  function FieldBits(fields: seq<Field>): seq<bool> {
    if fields == [] then [] else fields[0].Bits() + FieldBits(fields[1..])
  }

  lemma {:induction false} FieldBitsJoin(a: seq<Field>, f: Field)
    ensures FieldBits(a + [f]) == FieldBits(a) + f.Bits()
  {
    if a == [] {
      assert FieldBits([f]) == f.Bits() + [] by { assert [f][1..] == []; }
    } else {
      FieldBitsJoin(a[1..], f);
      assert (a + [f])[1..] == a[1..] + [f];
    }
  }

  method PushField(buf: BitsMut, f: Field)
    requires buf.Valid()
    modifies buf
    ensures buf.Valid() && buf.Contents() == old(buf.Contents()) + f.Bits()
  {
    hide UintBits, IntBits, StrBits, BitsOf, CleanTail;
    match f
    case U(v, w) => buf.PushUint(v, w);
    case I(i, w) => buf.PushInt(i, w);
    case B(flag) => buf.PushBool(flag);
    case S(t, n) => PushStr(buf, t, 6 * n);
  }

  /** Push every field in order and armor the result. */
  method EncodeFields(fields: seq<Field>) returns (payload: string, fill: nat)
    ensures (payload, fill) == Armored(FieldBits(fields))
  {
    hide *;
    var buf := new BitsMut();
    assert fields[..0] == [];
    EmptyFields();
    for i := 0 to |fields|
      invariant buf.Valid() && fresh(buf) && buf.Contents() == FieldBits(fields[..i])
    {
      assert fields[..i + 1] == fields[..i] + [fields[i]];
      FieldBitsJoin(fields[..i], fields[i]);
      PushField(buf, fields[i]);
    }
    assert fields[..|fields|] == fields;
    payload, fill := buf.ToPayload();
  }

  lemma EmptyFields()
    ensures FieldBits([]) == []
  {}

  /** From offset `at` on, the stream is the fields from `k` on. */
  ghost predicate At(b: seq<bool>, fields: seq<Field>, k: nat, at: nat) {
    k <= |fields| && at <= |b| && b[at..] == FieldBits(fields[k..])
  }

  lemma AtStart(fields: seq<Field>)
    ensures At(FieldBits(fields), fields, 0, 0)
  {
    assert fields[0..] == fields && FieldBits(fields)[0..] == FieldBits(fields);
  }

  lemma AtEnd(b: seq<bool>, fields: seq<Field>, at: nat)
    requires At(b, fields, |fields|, at)
    ensures |b| == at
  {
    assert fields[|fields|..] == [];
  }

  /** Once the leading fields are read, the cursor can count from the remaining ones. */
  lemma Rebase(b: seq<bool>, read: seq<Field>, rest: seq<Field>, at: nat)
    requires At(b, read + rest, |read|, at)
    ensures At(b, rest, 0, at)
  {
    assert (read + rest)[|read|..] == rest[0..];
  }

  lemma Advance(b: seq<bool>, fields: seq<Field>, k: nat, at: nat)
    requires k < |fields| && At(b, fields, k, at)
    ensures var w := fields[k].Width();
            at + w <= |b| && b[at..at + w] == fields[k].Bits() && At(b, fields, k + 1, at + w)
  {
    var f := fields[k];
    var w := f.Width();
    assert fields[k..][1..] == fields[k + 1..];
    assert b[at..][..w] == f.Bits() && b[at..][w..] == FieldBits(fields[k + 1..]);
    assert b[at..at + w] == f.Bits() && b[at + w..] == b[at..][w..];
  }

  // The field at the cursor reads back at its offset, and the cursor moves past it.

  lemma UintAt(b: seq<bool>, fields: seq<Field>, k: nat, at: nat, v: nat, w: FieldWidth)
    requires At(b, fields, k, at) && k < |fields| && fields[k] == U(v, w)
    ensures UInt(b, at, w) == Low(v, w) && At(b, fields, k + 1, at + w)
  {
    Advance(b, fields, k, at);
    FromUintBits(v, w);
  }

  lemma IntAt(b: seq<bool>, fields: seq<Field>, k: nat, at: nat, i: int, w: FieldWidth)
    requires At(b, fields, k, at) && k < |fields| && fields[k] == I(i, w)
    ensures Int(b, at, w) == WrapSigned(i, w) && At(b, fields, k + 1, at + w)
  {
    Advance(b, fields, k, at);
    FromUintBits(Low(i, w), w);
    LowTwice(i, w);
  }

  lemma FlagAt(b: seq<bool>, fields: seq<Field>, k: nat, at: nat, f: bool)
    requires At(b, fields, k, at) && k < |fields| && fields[k] == B(f)
    ensures Bit(b, at) == f && At(b, fields, k + 1, at + 1)
  {
    Advance(b, fields, k, at);
    FlagValue(f);
  }

  lemma TextAt(b: seq<bool>, fields: seq<Field>, k: nat, at: nat, t: string, n: FieldWidth)
    requires At(b, fields, k, at) && k < |fields| && fields[k] == S(t, n)
    ensures Str(b, at, 6 * n) == Clean(t, n) && At(b, fields, k + 1, at + 6 * n)
  {
    Advance(b, fields, k, at);
    StrRoundTrip(b, at, t, n);
  }

  lemma LowTwice(i: int, w: nat)
    ensures Low(Low(i, w), w) == Low(i, w)
  {
    ModUnique(Pow2(w), 0, Low(i, w));
  }

  lemma FlagValue(f: bool)
    ensures FromBits([f]) == if f then 1 else 0
  {
    assert [f][..0] == [];
  }
}
