/** The hand-written proto3 encoder for account messages, against a decoder of the wire format
    ("Base 128 Varints" and "Length-Delimited Records" of the Protocol Buffers encoding specification). */
module Protobuf {
  import opened Common

  /** Field numbers whose tag fits 64 bits after the shift by three. */
  const TWO61: nat := 0x2000_0000_0000_0000

  datatype Field = Field(number: nat, value: seq<Byte>)

  // ---------------------------------------------------------------- the wire format

  /** A varint at the front: its value and the number of bytes. At most ten bytes, below 2^64. */
  function ReadVarint(b: seq<Byte>, limit: nat): (r: Option<(nat, nat)>)
    ensures r.Some? ==> 1 <= r.value.1 <= |b| && r.value.1 <= limit
    decreases limit
  {
    if b == [] || limit == 0 then None
    else if b[0] < 128 then Some((b[0], 1))
    else
      match ReadVarint(b[1..], limit - 1)
      case None => None
      case Some((v, n)) => Some((b[0] - 128 + 128 * v, n + 1))
  }

  function ReadUint64(b: seq<Byte>): (r: Option<(nat, nat)>)
    ensures r.Some? ==> 1 <= r.value.1 <= |b|
  {
    match ReadVarint(b, 10)
    case None => None
    case Some((v, n)) => if v < TWO64 then Some((v, n)) else None
  }

  /** One length-delimited record, and what follows it. */
  function ReadRecord(b: seq<Byte>): (r: Option<(Field, seq<Byte>)>)
    ensures r.Some? ==> |r.value.1| < |b|
  {
    match ReadUint64(b)
    case None => None
    case Some((tag, n)) =>
      match ReadUint64(b[n..])
      case None => None
      case Some((len, m)) =>
        if tag % 8 != 2 || |b| < n + m + len then None
        else Some((Field(tag / 8, b[n + m..n + m + len]), b[n + m + len..]))
  }

  function Decode(b: seq<Byte>): (r: Option<seq<Field>>)
    decreases |b|
  {
    if b == [] then Some([])
    else
      match ReadRecord(b)
      case None => None
      case Some((f, rest)) =>
        match Decode(rest)
        case None => None
        case Some(fs) => Some([f] + fs)
  }

  /** What a message holds: the last value of each field, empty if there is none. */
  function Lookup(fs: seq<Field>, number: nat): (v: seq<Byte>) {
    if fs == [] then []
    else if fs[|fs| - 1].number == number then fs[|fs| - 1].value
    else Lookup(fs[..|fs| - 1], number)
  }

  // ---------------------------------------------------------------- the encoder

  function Varint(v: nat): (r: seq<Byte>)
    ensures r != []
  {
    if v >= 128 then [v % 128 + 128] + Varint(v / 128) else [v]
  }

  /** Number and wire type, shifted together in 64 bits. */
  function Tag(number: nat): (t: nat) {
    number * 8 % TWO64 + 2
  }

  function Record(f: Field): (r: seq<Byte>) {
    if f.value == [] then [] else Varint(Tag(f.number)) + Varint(|f.value|) + f.value
  }

  function Encode(fs: seq<Field>): (r: seq<Byte>) {
    if fs == [] then [] else Encode(fs[..|fs| - 1]) + Record(fs[|fs| - 1])
  }

  /** The byte `byte(v) | 0x80`. */
  function MoreByte(v: nat): (b: Byte) {
    var low := v % 256;
    if low >= 128 then low else low + 128
  }

  method AppendVarint(buf: seq<Byte>, v: nat) returns (r: seq<Byte>)
    requires v < TWO64
    ensures r == buf + Varint(v)
    ensures |r| <= |buf| + 10
  {
    var x := v;
    r := buf;
    while x >= 128
      invariant r + Varint(x) == buf + Varint(v)
    {
      r := r + [MoreByte(x)];
      x := x / 128;
    }
    r := r + [x];
    VarintLength(v, 10);
  }

  method AppendStringField(buf: seq<Byte>, f: Field) returns (r: seq<Byte>)
    requires |f.value| < TWO64
    ensures r == buf + Record(f)
  {
    if f.value == [] { return buf; }
    r := AppendVarint(buf, Tag(f.number));
    r := AppendVarint(r, |f.value|);
    r := r + f.value;
  }

  /** `forkAccount`: the fields in order, the empty ones skipped. Reading the bytes back gives
      exactly the others. */
  method ForkAccount(fs: seq<Field>) returns (r: seq<Byte>)
    requires forall i :: 0 <= i < |fs| ==> FieldOk(fs[i])
    ensures r == Encode(fs)
    ensures Decode(r) == Some(NonEmpty(fs))
  {
    r := [];
    var i := 0;
    while i < |fs|
      invariant 0 <= i <= |fs| && r == Encode(fs[..i])
    {
      r := AppendStringField(r, fs[i]);
      i := i + 1;
      assert fs[..i][..i - 1] == fs[..i - 1];
    }
    assert fs[..|fs|] == fs;
    RoundTrip(fs);
  }

  // ---------------------------------------------------------------- varints

  function Pow128(n: nat): (p: nat)
    ensures p > 0
  {
    if n == 0 then 1 else 128 * Pow128(n - 1)
  }

  lemma {:induction false} VarintShort(v: nat, n: nat)
    requires n > 0 && v < Pow128(n)
    ensures |Varint(v)| <= n
    decreases n
  {
    if v >= 128 { VarintShort(v / 128, n - 1); }
  }

  /** Ten bytes hold every 64-bit value. */
  lemma VarintLength(v: nat, n: nat)
    requires v < TWO64 && n == 10
    ensures |Varint(v)| <= n
  {
    assert Pow128(2) == 16384 && Pow128(4) == 268435456;
    assert Pow128(6) == 16384 * Pow128(4);
    assert Pow128(8) == 16384 * Pow128(6);
    assert Pow128(10) == 16384 * Pow128(8);
    VarintShort(v, 10);
  }

  lemma {:induction false} VarintRoundTrip(v: nat, rest: seq<Byte>, limit: nat)
    requires |Varint(v)| <= limit
    ensures ReadVarint(Varint(v) + rest, limit) == Some((v, |Varint(v)|))
    decreases limit
  {
    var b := Varint(v) + rest;
    if v >= 128 {
      VarintRoundTrip(v / 128, rest, limit - 1);
      assert b[1..] == Varint(v / 128) + rest;
    }
  }

  lemma Uint64RoundTrip(v: nat, rest: seq<Byte>)
    requires v < TWO64
    ensures ReadUint64(Varint(v) + rest) == Some((v, |Varint(v)|))
  {
    VarintLength(v, 10);
    VarintRoundTrip(v, rest, 10);
  }

  // ---------------------------------------------------------------- records and messages

  predicate FieldOk(f: Field) {
    f.number < TWO61 && |f.value| < TWO64
  }

  function NonEmpty(fs: seq<Field>): (r: seq<Field>) {
    if fs == [] then []
    else if fs[|fs| - 1].value == [] then NonEmpty(fs[..|fs| - 1])
    else NonEmpty(fs[..|fs| - 1]) + [fs[|fs| - 1]]
  }

  lemma RecordRoundTrip(f: Field, rest: seq<Byte>)
    requires |f.value| < TWO64 && f.value != []
    ensures ReadRecord(Record(f) + rest) == Some((Field(f.number % TWO61, f.value), rest))
  {
    TagValue(f.number);
    ReadPieces(Tag(f.number), f.number % TWO61, f.value, rest);
  }

  lemma ReadPieces(tag: nat, number: nat, v: seq<Byte>, rest: seq<Byte>)
    requires tag < TWO64 && |v| < TWO64 && tag % 8 == 2 && tag / 8 == number
    ensures ReadRecord(Varint(tag) + Varint(|v|) + v + rest) == Some((Field(number, v), rest))
  {
    Pieces(Varint(tag), Varint(|v|), v, rest);
    Uint64RoundTrip(tag, Varint(|v|) + (v + rest));
    Uint64RoundTrip(|v|, v + rest);
  }

  lemma Pieces(x: seq<Byte>, y: seq<Byte>, v: seq<Byte>, rest: seq<Byte>)
    ensures var b, n := x + y + v + rest, |x| + |y|;
            && b == x + (y + (v + rest)) && b[|x|..] == y + (v + rest)
            && b[n..n + |v|] == v && b[n + |v|..] == rest
  {
  }

  lemma TagValue(number: nat)
    ensures var tag := Tag(number); tag < TWO64 && tag % 8 == 2 && tag / 8 == number % TWO61
  {
    var q, r := number / TWO61, number % TWO61;
    assert number * 8 == q * TWO64 + r * 8;
    assert number * 8 % TWO64 == r * 8;
  }

  /** The numbers as 64-bit tags keep them. */
  function Tagged(fs: seq<Field>): (r: seq<Field>)
    ensures |r| == |fs| && forall i :: 0 <= i < |fs| ==> r[i] == Field(fs[i].number % TWO61, fs[i].value)
  {
    seq(|fs|, i requires 0 <= i < |fs| => Field(fs[i].number % TWO61, fs[i].value))
  }

  lemma DecodeRecord(f: Field, rest: seq<Byte>, tail: seq<Field>)
    requires |f.value| < TWO64 && f.value != [] && Decode(rest) == Some(tail)
    ensures Decode(Record(f) + rest) == Some([Field(f.number % TWO61, f.value)] + tail)
  {
    RecordRoundTrip(f, rest);
  }

  lemma TaggedSnoc(fs: seq<Field>, f: Field, tail: seq<Field>)
    ensures Tagged(fs + [f]) + tail == Tagged(fs) + ([Field(f.number % TWO61, f.value)] + tail)
  {
  }

  lemma {:induction false} EncodeSplit(fs: seq<Field>, rest: seq<Byte>)
    requires fs != []
    ensures Encode(fs) + rest == Encode(fs[..|fs| - 1]) + (Record(fs[|fs| - 1]) + rest)
  {
  }

  /** Decoding from the back: the records of `fs` are followed by bytes already understood. */
  lemma {:induction false} DecodeAppend(fs: seq<Field>, rest: seq<Byte>, tail: seq<Field>)
    requires forall i :: 0 <= i < |fs| ==> |fs[i].value| < TWO64
    requires Decode(rest) == Some(tail)
    ensures Decode(Encode(fs) + rest) == Some(Tagged(NonEmpty(fs)) + tail)
    decreases |fs|
  {
    if fs == [] {
      assert Encode(fs) + rest == rest && Tagged(NonEmpty(fs)) + tail == tail;
    } else {
      var init, f := fs[..|fs| - 1], fs[|fs| - 1];
      EncodeSplit(fs, rest);
      if f.value == [] {
        assert Record(f) + rest == rest;
        DecodeAppend(init, rest, tail);
      } else {
        DecodeRecord(f, rest, tail);
        DecodeAppend(init, Record(f) + rest, [Field(f.number % TWO61, f.value)] + tail);
        TaggedSnoc(NonEmpty(init), f, tail);
      }
    }
  }

  /** For every field list the bytes decode to the non-empty fields, numbers modulo 2^61. */
  lemma DecodeEncode(fs: seq<Field>)
    requires forall i :: 0 <= i < |fs| ==> |fs[i].value| < TWO64
    ensures Decode(Encode(fs)) == Some(Tagged(NonEmpty(fs)))
  {
    DecodeAppend(fs, [], []);
    assert Encode(fs) + [] == Encode(fs);
    assert Tagged(NonEmpty(fs)) + [] == Tagged(NonEmpty(fs));
  }

  lemma {:induction false} NonEmptyOk(fs: seq<Field>)
    requires forall i :: 0 <= i < |fs| ==> FieldOk(fs[i])
    ensures forall i :: 0 <= i < |NonEmpty(fs)| ==> FieldOk(NonEmpty(fs)[i])
  {
    if fs != [] { NonEmptyOk(fs[..|fs| - 1]); }
  }

  lemma RoundTrip(fs: seq<Field>)
    requires forall i :: 0 <= i < |fs| ==> FieldOk(fs[i])
    ensures Decode(Encode(fs)) == Some(NonEmpty(fs))
  {
    DecodeEncode(fs);
    NonEmptyOk(fs);
    TaggedSame(NonEmpty(fs));
  }

  lemma TaggedSame(fs: seq<Field>)
    requires forall i :: 0 <= i < |fs| ==> FieldOk(fs[i])
    ensures Tagged(fs) == fs
  {
  }

  /** The shift drops high bits: the fields come back unchanged if and only if no number that is
      sent has any. */
  lemma RoundTripIff(fs: seq<Field>)
    requires forall i :: 0 <= i < |fs| ==> |fs[i].value| < TWO64
    ensures Decode(Encode(fs)) == Some(NonEmpty(fs)) <==> forall i :: 0 <= i < |NonEmpty(fs)| ==> NonEmpty(fs)[i].number < TWO61
  {
    DecodeEncode(fs);
    TaggedIff(NonEmpty(fs));
  }

  lemma TaggedIff(fs: seq<Field>)
    ensures Tagged(fs) == fs <==> forall i :: 0 <= i < |fs| ==> fs[i].number < TWO61
  {
    forall i | 0 <= i < |fs| ensures Tagged(fs)[i] == fs[i] <==> fs[i].number < TWO61 { SmallMod(fs[i].number); }
  }

  lemma SmallMod(n: nat)
    ensures n % TWO61 == n <==> n < TWO61
  {
  }

  /** The bytes of a short record: field number and wire type 2 in one byte, the length, the value. */
  lemma ShortRecord(number: nat, v: seq<Byte>)
    requires 1 <= number < 16 && 1 <= |v| < 128
    ensures Encode([Field(number, v)]) == [8 * number + 2, |v|] + v
  {
    assert [Field(number, v)][..0] == [];
    assert Varint(Tag(number)) == [8 * number + 2] && Varint(|v|) == [|v|];
    assert [8 * number + 2] + [|v|] == [8 * number + 2, |v|];
  }

  /** A number that does not survive: 2^61 + 1 is sent as 1. */
  lemma HighNumberFolds(v: seq<Byte>)
    requires v != [] && |v| < TWO64
    ensures Encode([Field(TWO61 + 1, v)]) == Encode([Field(1, v)])
    ensures Decode(Encode([Field(TWO61 + 1, v)])) == Some([Field(1, v)])
  {
    assert [Field(1, v)][..0] == [] && [Field(TWO61 + 1, v)][..0] == [];
    assert Record(Field(TWO61 + 1, v)) == Record(Field(1, v));
    DecodeEncode([Field(1, v)]);
    assert NonEmpty([Field(1, v)]) == [Field(1, v)] && Tagged([Field(1, v)]) == [Field(1, v)];
  }

  /** Different non-empty fields give different bytes. */
  lemma Injective(fs: seq<Field>, gs: seq<Field>)
    requires forall i :: 0 <= i < |fs| ==> FieldOk(fs[i])
    requires forall i :: 0 <= i < |gs| ==> FieldOk(gs[i])
    ensures Encode(fs) == Encode(gs) <==> NonEmpty(fs) == NonEmpty(gs)
  {
    RoundTrip(fs);
    RoundTrip(gs);
    SameRecords(fs);
    SameRecords(gs);
  }

  lemma {:induction false} SameRecords(fs: seq<Field>)
    ensures Encode(fs) == Encode(NonEmpty(fs))
    decreases |fs|
  {
    if fs != [] {
      var init, f := fs[..|fs| - 1], fs[|fs| - 1];
      SameRecords(init);
      if f.value != [] {
        EncodeSnoc(NonEmpty(init), f);
      } else {
        assert Encode(init) + Record(f) == Encode(init);
      }
    }
  }

  lemma {:induction false} EncodeSnoc(fs: seq<Field>, f: Field)
    ensures Encode(fs + [f]) == Encode(fs) + Record(f)
  {
    assert (fs + [f])[..|fs|] == fs;
  }

  // ---------------------------------------------------------------- the account a reader sees

  predicate Increasing(fs: seq<Field>) {
    forall i, j :: 0 <= i < j < |fs| ==> fs[i].number < fs[j].number
  }

  lemma {:induction false} LookupField(fs: seq<Field>, i: nat)
    requires i < |fs| && Increasing(fs)
    ensures Lookup(NonEmpty(fs), fs[i].number) == fs[i].value
    decreases |fs|
  {
    var init, f := fs[..|fs| - 1], fs[|fs| - 1];
    var n := NonEmpty(fs);
    if i < |fs| - 1 {
      LookupField(init, i);
      if f.value != [] { assert n[..|n| - 1] == NonEmpty(init); }
    } else if f.value == [] {
      LookupAbsent(init, f.number);
      assert n == NonEmpty(init);
    }
  }

  lemma {:induction false} LookupAbsent(fs: seq<Field>, number: nat)
    requires forall i :: 0 <= i < |fs| ==> fs[i].number != number
    ensures Lookup(NonEmpty(fs), number) == []
    decreases |fs|
  {
    if fs != [] {
      var init, f := fs[..|fs| - 1], fs[|fs| - 1];
      LookupAbsent(init, number);
      if f.value != [] { assert NonEmpty(fs)[..|NonEmpty(fs)| - 1] == NonEmpty(init); }
    }
  }

  /** The core that unmarshals the account sees every field's value, the empty ones included,
      and nothing under any other number. */
  lemma AccountSeen(fs: seq<Field>, number: nat)
    requires Increasing(fs) && forall i :: 0 <= i < |fs| ==> FieldOk(fs[i])
    ensures Decode(Encode(fs)).Some?
    ensures var seen := Lookup(Decode(Encode(fs)).value, number);
            && (forall i :: 0 <= i < |fs| && fs[i].number == number ==> seen == fs[i].value)
            && ((forall i :: 0 <= i < |fs| ==> fs[i].number != number) ==> seen == [])
  {
    RoundTrip(fs);
    forall i | 0 <= i < |fs| && fs[i].number == number ensures Lookup(NonEmpty(fs), number) == fs[i].value {
      LookupField(fs, i);
    }
    if forall i :: 0 <= i < |fs| ==> fs[i].number != number { LookupAbsent(fs, number); }
  }
}
