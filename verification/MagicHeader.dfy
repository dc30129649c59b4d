/** Message-type headers: ranges of 32-bit values, their text form, and their bytes on the wire. */
module MagicHeader {
  import opened Common
  import opened Text

  datatype Header = Header(start: nat, end: nat)

  predicate HeaderOk(h: Header) {
    h.start < TWO32 && h.end < TWO32
  }

  predicate Validate(v: nat, h: Header) {
    h.start <= v <= h.end
  }

  /** The two ranges have no value in common, as the configuration test puts it. */
  predicate Apart(a: Header, b: Header) {
    b.end < a.start || a.end < b.start
  }

  lemma ApartMeansDisjoint(a: Header, b: Header)
    ensures Apart(a, b) ==> forall v :: !(Validate(v, a) && Validate(v, b))
    ensures a.start <= a.end && b.start <= b.end && !Apart(a, b) ==> exists v :: Validate(v, a) && Validate(v, b)
  {
    if a.start <= a.end && b.start <= b.end && !Apart(a, b) {
      var v := if a.start < b.start then b.start else a.start;
      assert Validate(v, a) && Validate(v, b);
    }
  }

  // ---------------------------------------------------------------- little-endian words

  function Power(i: nat): (p: nat)
    requires i < 4
    ensures p > 0
  {
    if i == 0 then 1 else if i == 1 then 0x100 else if i == 2 then 0x1_0000 else 0x100_0000
  }

  function ByteOf(v: nat, i: nat): (b: Byte)
    requires i < 4
  {
    v / Power(i) % 256
  }

  function Le32(b: seq<Byte>): (v: nat)
    requires |b| == 4
    ensures v < TWO32
  {
    var b0: nat, b1: nat, b2: nat, b3: nat := b[0], b[1], b[2], b[3];
    b0 + 0x100 * b1 + 0x1_0000 * b2 + 0x100_0000 * b3
  }

  /** Shifting by bytes, one byte at a time. */
  lemma Shifts(v: nat)
    ensures v / 0x1_0000 == v / 0x100 / 0x100 && v / 0x100_0000 == v / 0x100 / 0x100 / 0x100
  {
    var q1 := v / 0x100;
    var q2 := q1 / 0x100;
    var q3 := q2 / 0x100;
    assert v == 0x1_0000 * q2 + (0x100 * (q1 % 0x100) + v % 0x100);
    assert v == 0x100_0000 * q3 + (0x1_0000 * (q2 % 0x100) + 0x100 * (q1 % 0x100) + v % 0x100);
  }

  lemma WordOfBytes(v: nat, b: seq<Byte>)
    requires v < TWO32 && |b| == 4 && forall i :: 0 <= i < 4 ==> b[i] == ByteOf(v, i)
    ensures Le32(b) == v
  {
    Shifts(v);
    assert b[0] == ByteOf(v, 0) && b[1] == ByteOf(v, 1) && b[2] == ByteOf(v, 2) && b[3] == ByteOf(v, 3);
  }

  lemma BytesOfWord(b: seq<Byte>, i: nat)
    requires |b| == 4 && i < 4
    ensures ByteOf(Le32(b), i) == b[i]
  {
    var v := Le32(b);
    var b0: nat, b1: nat, b2: nat, b3: nat := b[0], b[1], b[2], b[3];
    Shifts(v);
    Peel(b0, b1 + 0x100 * (b2 + 0x100 * b3), v);
    Peel(b1, b2 + 0x100 * b3, v / 0x100);
    Peel(b2, b3, v / 0x100 / 0x100);
  }

  lemma Peel(low: nat, high: nat, v: nat)
    requires low < 0x100 && v == low + 0x100 * high
    ensures v / 0x100 == high && v % 0x100 == low
  {
  }

  // ---------------------------------------------------------------- text form

  /** Reading an unsigned 32-bit decimal: an optional plus sign, digits, an optional newline. */
  function ReadUint(s: string): (r: Option<nat>) {
    var a := if s != [] && s[0] == '+' then s[1..] else s;
    var b := Stripped(a);
    if !Digits(b) then None
    else if Value(b) >= TWO32 then None
    else Some(Value(b))
  }

  lemma ReadDecimal(v: nat)
    requires v < TWO32
    ensures ReadUint(Decimal(v)) == Some(v)
  {
    ValueOfDecimal(v);
    var s := Decimal(v);
    assert IsDigit(s[0]) && IsDigit(s[|s| - 1]);
  }

  /** Exactly the unsigned 32-bit decimals are read. */
  lemma ReadUintIff(s: string, v: nat)
    ensures ReadUint(s) == Some(v) <==> v < 0x1_0000_0000 && (Numeral(s, v) || (s != [] && s[0] == '+' && Numeral(s[1..], v)))
  {
    var a := if s != [] && s[0] == '+' then s[1..] else s;
    var b := Stripped(a);
    NumeralIff(a, v);
    NumeralIff(s, v);
  }

  /** `mh_parse`: success, and the header afterwards. Whatever has been read stays written when a
      later check fails. */
  function Parse(h: Header, s: string): (r: (bool, Header)) {
    var first := ReadUint(Split(s, '-').0);
    if first.None? then (false, h)
    else
      var h1 := h.(start := first.value);
      match Split(s, '-').1
      case None => (true, h1.(end := first.value))
      case Some(rest) =>
        var second := ReadUint(rest);
        if second.None? then (false, h1)
        else (first.value <= second.value, h1.(end := second.value))
  }

  /** `mh_genspec`. */
  function Genspec(h: Header): (s: string) {
    if h.start == h.end then Decimal(h.start) else Decimal(h.start) + ['-'] + Decimal(h.end)
  }

  /** Reading back a printed header restores it, and succeeds exactly for a proper range. */
  lemma ParseGenspec(h0: Header, h: Header)
    requires HeaderOk(h)
    ensures Parse(h0, Genspec(h)) == (h.start <= h.end, h)
  {
    ReadDecimal(h.start);
    ReadDecimal(h.end);
    if h.start == h.end {
      SplitNone(Decimal(h.start), '-');
    } else {
      SplitAt(Decimal(h.start), '-', Decimal(h.end));
    }
  }

  /** A successful parse yields a proper 32-bit range. */
  lemma ParseYieldsRange(h0: Header, s: string)
    ensures Parse(h0, s).0 ==> HeaderOk(Parse(h0, s).1) && Parse(h0, s).1.start <= Parse(h0, s).1.end
    ensures HeaderOk(h0) ==> HeaderOk(Parse(h0, s).1)
  {
  }

  /** A text is accepted exactly if it is one number, or two in order with a dash between them, and the
      header then holds these. */
  lemma ParseIff(h0: Header, s: string)
    ensures Parse(h0, s).0 <==>
              var (a, rest) := Split(s, '-');
              && ReadUint(a).Some?
              && (rest.Some? ==> ReadUint(rest.value).Some? && ReadUint(a).value <= ReadUint(rest.value).value)
    ensures Parse(h0, s).0 ==>
              var (a, rest) := Split(s, '-');
              Parse(h0, s).1 == Header(ReadUint(a).value, ReadUint(if rest.Some? then rest.value else a).value)
  {
  }

  /** The printed form: one number, or two with a dash between them. */
  lemma GenspecWritten(a: nat, b: nat)
    ensures Genspec(Header(a, a)) == Decimal(a) && (a != b ==> Genspec(Header(a, b)) == Decimal(a) + "-" + Decimal(b))
    ensures Genspec(Header(5, 305)) == "5-305"
  {
    DecimalWritten(5);
    assert "5" + "-" + "305" == "5-305";
  }
}
