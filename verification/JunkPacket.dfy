/** Special packets described by text: the packet is laid out once, and the generated parts are
    filled in before every send. All running totals are 32-bit integers. */
module JunkPacket {
  import opened Common
  import opened Messages
  import opened JunkText
  import opened Text

  // ---------------------------------------------------------------- where parts go

  /** The true sum of the lengths of the first `i` parts, in text order. */
  function Offset(ts: seq<Tag>, i: nat): (n: int)
    requires i <= |ts|
  {
    if i == 0 then 0 else Offset(ts, i - 1) + TagSize(ts[i - 1])
  }

  function Total(ts: seq<Tag>): (n: int) { Offset(ts, |ts|) }

  /** A sum kept in a 32-bit signed integer. */
  function Wrap(n: int): (r: int)
    ensures -TWO31 <= r < TWO31
  {
    (n + TWO31) % TWO32 - TWO31
  }

  lemma WrapAdd(a: int, b: int)
    ensures Wrap(Wrap(a) + b) == Wrap(a + b)
  {
    var q := (a + TWO31) / TWO32;
    assert Wrap(a) == a - q * TWO32;
    assert (a + b + TWO31 - q * TWO32) % TWO32 == (a + b + TWO31) % TWO32 by { ModShift(a + b + TWO31, q); }
  }

  lemma ModShift(x: int, q: int)
    ensures (x - q * TWO32) % TWO32 == x % TWO32
  {
    var d := x / TWO32;
    assert x - q * TWO32 == (d - q) * TWO32 + x % TWO32;
  }

  /** Where the code puts the `i`-th part, and how many bytes it allocates. */
  function Place(ts: seq<Tag>, i: nat): (n: int)
    requires i <= |ts|
  {
    Wrap(Offset(ts, i))
  }

  function Allocated(ts: seq<Tag>): (n: int) { Place(ts, |ts|) }

  /** How many bytes a part really writes: the copied literal, four bytes for a counter or a time,
      a length converted to `size_t` for random bytes, and the turns of a loop for letters and digits. */
  function WriteLen(t: Tag): (n: nat) {
    match t
    case Literal(bytes) => |bytes|
    case Generated(m, n) =>
      if m.PacketCounter? || m.UnixTime? then 4
      else if m.RandomBytes? then n % TWO64
      else if n < 0 then 0 else n
  }

  predicate NonNegative(ts: seq<Tag>) {
    forall i :: 0 <= i < |ts| ==> TagSize(ts[i]) >= 0
  }

  predicate AllDescribable(ts: seq<Tag>) {
    forall i :: 0 <= i < |ts| ==> Describable(ts[i])
  }

  /** No negative length, and a true total within the limit. */
  predicate Fits(ts: seq<Tag>) {
    NonNegative(ts) && Total(ts) <= MESSAGE_MAX_SIZE
  }

  /** The size test and a kernel allocator that refuses huge requests let the description through. */
  predicate Admitted(ts: seq<Tag>) {
    0 <= Allocated(ts) <= MESSAGE_MAX_SIZE
  }

  predicate PartInside(ts: seq<Tag>, i: nat)
    requires i < |ts|
  {
    WriteLen(ts[i]) > 0 ==> 0 <= Place(ts, i) && Place(ts, i) + WriteLen(ts[i]) <= Allocated(ts)
  }

  predicate WritesInside(ts: seq<Tag>) {
    forall i :: 0 <= i < |ts| ==> PartInside(ts, i)
  }

  lemma {:induction false} OffsetsGrow(ts: seq<Tag>, i: nat, j: nat)
    requires i <= j <= |ts| && forall k :: 0 <= k < |ts| ==> TagSize(ts[k]) >= 0
    ensures 0 <= Offset(ts, i) <= Offset(ts, j)
    decreases j
  {
    if i < j {
      OffsetsGrow(ts, i, j - 1);
    } else if i > 0 {
      OffsetsGrow(ts, i - 1, j - 1);
    }
  }

  // ---------------------------------------------------------------- when writes stay inside

  /** What follows the `i`-th part, as a 32-bit sum. */
  function Behind(ts: seq<Tag>, i: nat): (n: int)
    requires i < |ts|
  {
    Wrap(Total(ts) - Offset(ts, i + 1))
  }

  /** A part has room: it writes nothing, or it has a sane length and the parts before it and
      the parts behind it both add up to something that is not negative. */
  predicate Roomy(ts: seq<Tag>, i: nat)
    requires i < |ts|
  {
    WriteLen(ts[i]) == 0 ||
    (0 <= TagSize(ts[i]) <= MESSAGE_MAX_SIZE && 0 <= Place(ts, i) <= MESSAGE_MAX_SIZE && 0 <= Behind(ts, i))
  }

  lemma {:induction false} BehindIs(ts: seq<Tag>, i: nat)
    requires i < |ts|
    ensures Wrap(Place(ts, i) + TagSize(ts[i]) + Behind(ts, i)) == Allocated(ts)
    ensures Behind(ts, i) == Wrap(Allocated(ts) - Place(ts, i) - TagSize(ts[i]))
  {
    var p, t, b := Offset(ts, i), TagSize(ts[i]), Total(ts) - Offset(ts, i + 1);
    WrapAdd(p, t + Wrap(b));
    WrapAdd(b, p + t);
    WrapAdd(p + t + b, -Wrap(p) - t);
    WrapAdd(p, -(p + t + b) + t);
    NegatedSum(p, t + b, -t);
  }

  lemma NegatedSum(p: int, x: int, y: int)
    ensures Wrap(p + x - Wrap(p) + y) == Wrap(x + y)
  {
    var q := (p + TWO31) / TWO32;
    assert Wrap(p) == p - q * TWO32;
    ModShift(x + y + TWO31, -q);
  }

  lemma SmallWrap(n: int)
    requires -TWO31 <= n < TWO31
    ensures Wrap(n) == n
  {
  }

  lemma RegularLen(t: Tag)
    requires Describable(t)
    ensures TagSize(t) >= 0 ==> WriteLen(t) == TagSize(t)
    ensures TagSize(t) < 0 && WriteLen(t) > 0 ==> WriteLen(t) > MESSAGE_MAX_SIZE
    ensures t.Literal? || -TWO31 <= t.size < TWO31
  {
    if t.Generated? && t.size < 0 {
      assert t.size % TWO64 == t.size + TWO64;
    }
  }

  /** For an admitted description, every byte is written inside the packet if and only if every
      part that writes has room. */
  lemma {:induction false} WritesInsideIff(ts: seq<Tag>)
    requires AllDescribable(ts) && Admitted(ts)
    ensures WritesInside(ts) <==> forall i :: 0 <= i < |ts| ==> Roomy(ts, i)
  {
    forall i | 0 <= i < |ts| ensures PartInside(ts, i) <==> Roomy(ts, i) {
      RegularLen(ts[i]);
      BehindIs(ts, i);
      var p, t, b, n := Place(ts, i), TagSize(ts[i]), Behind(ts, i), Allocated(ts);
      if Roomy(ts, i) && WriteLen(ts[i]) > 0 { OneTurn(p + t + b, n); }
      if PartInside(ts, i) && WriteLen(ts[i]) > 0 { SmallWrap(n - p - t); }
    }
  }

  lemma OneTurn(x: int, n: int)
    requires 0 <= x < TWO32 && Wrap(x) == n && n >= 0
    ensures x == n
  {
  }

  lemma {:induction false} FirstPast(ts: seq<Tag>, n: nat, size: nat) returns (i: nat)
    requires n <= |ts| && NonNegative(ts) && Offset(ts, n) > size
    ensures i < n && Offset(ts, i) <= size < Offset(ts, i + 1)
  {
    if n > 0 && Offset(ts, n - 1) <= size { i := n - 1; } else { i := FirstPast(ts, n - 1, size); }
  }

  lemma {:induction false} FitsPlaces(ts: seq<Tag>, i: nat)
    requires Fits(ts) && i <= |ts|
    ensures 0 <= Place(ts, i) == Offset(ts, i) <= Total(ts) == Allocated(ts)
  {
    OffsetsGrow(ts, 0, i);
    OffsetsGrow(ts, i, |ts|);
  }

  /** Without negative lengths that is the case exactly if the true total is within the limit:
      a total that wrapped always ends in a write outside. */
  lemma {:induction false} InsideIffFits(ts: seq<Tag>)
    requires AllDescribable(ts) && NonNegative(ts) && Admitted(ts)
    ensures WritesInside(ts) <==> Fits(ts)
    ensures WritesInside(ts) <==> Total(ts) <= 65535
  {
    if Fits(ts) {
      forall i | 0 <= i < |ts| ensures PartInside(ts, i) {
        RegularLen(ts[i]);
        FitsPlaces(ts, i);
        FitsPlaces(ts, i + 1);
      }
    } else {
      var i := FirstPast(ts, |ts|, Allocated(ts));
      OffsetsGrow(ts, 0, i);
      RegularLen(ts[i]);
      SmallWrap(Offset(ts, i));
      assert !PartInside(ts, i);
    }
  }

  // ---------------------------------------------------------------- when parts stand end to end

  /** Bytes written by the first `i` parts. */
  function Written(ts: seq<Tag>, i: nat): (n: nat)
    requires i <= |ts|
  {
    if i == 0 then 0 else Written(ts, i - 1) + WriteLen(ts[i - 1])
  }

  /** Every part starts where the writes before it end, and the last one ends with the packet. */
  predicate EndToEnd(ts: seq<Tag>) {
    forall i :: 0 <= i <= |ts| ==> Place(ts, i) == Written(ts, i)
  }

  lemma {:induction false} WrittenGrows(ts: seq<Tag>, i: nat, j: nat)
    requires i <= j <= |ts|
    ensures Written(ts, i) <= Written(ts, j)
    decreases j
  {
    if i < j { WrittenGrows(ts, i, j - 1); }
  }

  lemma {:induction false} WrittenIsOffset(ts: seq<Tag>, i: nat)
    requires AllDescribable(ts) && NonNegative(ts) && i <= |ts|
    ensures Written(ts, i) == Offset(ts, i)
  {
    if i > 0 {
      WrittenIsOffset(ts, i - 1);
      RegularLen(ts[i - 1]);
    }
  }

  /** The packet is the concatenation of what its parts write, in text order, if and only if no
      length is negative and the true total is within the limit. */
  lemma {:induction false} EndToEndIff(ts: seq<Tag>)
    requires AllDescribable(ts) && Admitted(ts)
    ensures EndToEnd(ts) <==> Fits(ts)
  {
    if Fits(ts) {
      forall i | 0 <= i <= |ts| ensures Place(ts, i) == Written(ts, i) {
        FitsPlaces(ts, i);
        WrittenIsOffset(ts, i);
      }
    }
    if EndToEnd(ts) {
      assert Place(ts, |ts|) == Written(ts, |ts|);
      forall i | 0 <= i < |ts| ensures TagSize(ts[i]) >= 0 {
        RegularLen(ts[i]);
        WrittenGrows(ts, i, i + 1);
        WrittenGrows(ts, i + 1, |ts|);
        assert Place(ts, i) == Written(ts, i) && Place(ts, i + 1) == Written(ts, i + 1);
        WrapAdd(Offset(ts, i), TagSize(ts[i]));
        if TagSize(ts[i]) < 0 { SmallWrap(Place(ts, i) + TagSize(ts[i])); }
      }
      WrittenIsOffset(ts, |ts|);
    }
  }

  /** Slots of different tags do not overlap. */
  lemma {:induction false} SlotsDisjoint(ts: seq<Tag>, i: nat, j: nat)
    requires i < j < |ts| && NonNegative(ts)
    ensures Offset(ts, i) + TagSize(ts[i]) <= Offset(ts, j)
  {
    OffsetsGrow(ts, i + 1, j);
  }

  // ---------------------------------------------------------------- descriptions that go wrong

  /** The wrapped sum lets a description through whose parts do not fit. */
  lemma WrappedSumOverruns()
    ensures var ts := [Generated(RandomBytes, TWO31 - 1), Generated(RandomBytes, TWO31 - 1), Generated(RandomBytes, 2)];
            AllDescribable(ts) && Admitted(ts) && !WritesInside(ts)
  {
    var ts := [Generated(RandomBytes, TWO31 - 1), Generated(RandomBytes, TWO31 - 1), Generated(RandomBytes, 2)];
    assert Offset(ts, 1) == TWO31 - 1 && Offset(ts, 2) == 2 * TWO31 - 2 && Total(ts) == TWO32;
    assert !PartInside(ts, 0);
  }

  /** So does a negative length: five bytes are allocated and the first part writes ten. */
  lemma NegativeLengthOverruns()
    ensures var ts := [Generated(RandomBytes, 10), Generated(RandomLetters, -5)];
            AllDescribable(ts) && Admitted(ts) && !WritesInside(ts)
  {
    var ts := [Generated(RandomBytes, 10), Generated(RandomLetters, -5)];
    assert Offset(ts, 1) == 10 && Total(ts) == 5;
    assert !PartInside(ts, 0);
  }

  /** For random bytes a negative length is converted to a huge unsigned one. */
  lemma NegativeRandomOverruns()
    ensures var ts := [Generated(RandomBytes, -1), Generated(RandomDigits, 5)];
            && AllDescribable(ts) && Admitted(ts) && !WritesInside(ts)
            && WriteLen(ts[0]) == 0xFFFF_FFFF_FFFF_FFFF && Allocated(ts) == 4
  {
    var ts := [Generated(RandomBytes, -1), Generated(RandomDigits, 5)];
    assert Offset(ts, 1) == -1 && Total(ts) == 4;
    assert !PartInside(ts, 0);
  }

  /** A negative length may also leave all writes inside; then parts lie over each other, and here
      random bytes over the literal. */
  lemma NegativeLengthOverlaps(a: Byte, b: Byte)
    ensures var ts := [Literal([a, b]), Generated(RandomDigits, -2), Generated(RandomBytes, 2)];
            && AllDescribable(ts) && Admitted(ts) && WritesInside(ts) && !Fits(ts)
            && Place(ts, 0) == Place(ts, 2) == 0 && WriteLen(ts[0]) == WriteLen(ts[2]) == 2
  {
    var ts := [Literal([a, b]), Generated(RandomDigits, -2), Generated(RandomBytes, 2)];
    assert TagSize(ts[0]) == 2 && TagSize(ts[1]) == -2 && TagSize(ts[2]) == 2;
    assert Offset(ts, 1) == 2;
    assert Offset(ts, 2) == 0;
    assert Offset(ts, 3) == 2;
  }

  // ---------------------------------------------------------------- generated parts

  datatype Window = Window(modifier: Modifier, off: int, len: int)

  function Span(w: Window): (n: nat) { WriteLen(Generated(w.modifier, w.len)) }

  function Windows(ts: seq<Tag>): (r: seq<Window>) {
    if ts == [] then []
    else
      var n := |ts| - 1;
      if ts[n].Literal? then Windows(ts[..n])
      else Windows(ts[..n]) + [Window(ts[n].modifier, Place(ts, n), ts[n].size)]
  }

  predicate Inside(w: Window, size: int) {
    Span(w) > 0 ==> 0 <= w.off && w.off + Span(w) <= size
  }

  predicate AllInside(ws: seq<Window>, size: int) {
    forall i :: 0 <= i < |ws| ==> Inside(ws[i], size)
  }

  lemma {:induction false} OffsetPrefix(ts: seq<Tag>, n: nat, i: nat)
    requires i <= n <= |ts|
    ensures Offset(ts[..n], i) == Offset(ts, i)
    decreases i
  {
    if i > 0 { OffsetPrefix(ts, n, i - 1); }
  }

  /** What is known of the last part of a description that fits. */
  lemma {:induction false} FitsInit(ts: seq<Tag>)
    requires Fits(ts) && AllDescribable(ts) && ts != []
    ensures var n := |ts| - 1;
            && Fits(ts[..n]) && AllDescribable(ts[..n])
            && 0 <= Total(ts[..n]) == Offset(ts, n) == Place(ts, n) && Total(ts) == Total(ts[..n]) + TagSize(ts[n])
            && WriteLen(ts[n]) == TagSize(ts[n])
  {
    var n := |ts| - 1;
    OffsetPrefix(ts, n, n);
    FitsPlaces(ts, n);
    RegularLen(ts[n]);
  }

  /** Windows lie inside the packet, one after the other. */
  lemma {:induction false} WindowsOrdered(ts: seq<Tag>)
    requires Fits(ts) && AllDescribable(ts)
    ensures 0 <= Total(ts)
    ensures forall i :: 0 <= i < |Windows(ts)| ==>
              0 <= Windows(ts)[i].off && Windows(ts)[i].off + Span(Windows(ts)[i]) <= Total(ts)
    ensures forall i, j :: 0 <= i < j < |Windows(ts)| ==> Windows(ts)[i].off + Span(Windows(ts)[i]) <= Windows(ts)[j].off
    decreases |ts|
  {
    if ts != [] {
      FitsInit(ts);
      WindowsOrdered(ts[..|ts| - 1]);
    }
  }

  /** The bytes the generators produce, one sequence for each window. */
  predicate OutsFit(ws: seq<Window>, outs: seq<seq<Byte>>) {
    |outs| == |ws| && forall i :: 0 <= i < |ws| ==> |outs[i]| == Span(ws[i])
  }

  /** The packet as its description says: literals and generated bytes in text order. */
  function Concat(ts: seq<Tag>, outs: seq<seq<Byte>>): (r: seq<Byte>)
    requires OutsFit(Windows(ts), outs)
  {
    if ts == [] then []
    else
      var n, m := |ts| - 1, |outs| - 1;
      if ts[n].Literal? then Concat(ts[..n], outs) + ts[n].bytes
      else Concat(ts[..n], outs[..m]) + outs[m]
  }

  lemma {:induction false} ConcatLength(ts: seq<Tag>, outs: seq<seq<Byte>>)
    requires Fits(ts) && AllDescribable(ts) && OutsFit(Windows(ts), outs)
    ensures |Concat(ts, outs)| == Total(ts)
    decreases |ts|
  {
    if ts != [] {
      FitsInit(ts);
      var n := |ts| - 1;
      if ts[n].Literal? {
        ConcatLength(ts[..n], outs);
      } else {
        ConcatLength(ts[..n], outs[..|outs| - 1]);
      }
    }
  }

  function ZeroBytes(n: nat): (r: seq<Byte>)
    ensures |r| == n && forall i :: 0 <= i < n ==> r[i] == 0
  {
    seq(n, _ => 0)
  }

  function Zeros(ws: seq<Window>): (r: seq<seq<Byte>>)
    ensures OutsFit(ws, r)
  {
    if ws == [] then [] else Zeros(ws[..|ws| - 1]) + [ZeroBytes(Span(ws[|ws| - 1]))]
  }

  function Write(p: seq<Byte>, off: int, b: seq<Byte>): (r: seq<Byte>)
    requires b != [] ==> 0 <= off && off + |b| <= |p|
    ensures |r| == |p|
  {
    if b == [] then p else p[..off] + b + p[off + |b|..]
  }

  /** All windows filled, in order. */
  function Filled(p: seq<Byte>, ws: seq<Window>, outs: seq<seq<Byte>>): (r: seq<Byte>)
    requires AllInside(ws, |p|) && OutsFit(ws, outs)
    ensures |r| == |p|
    decreases |ws|
  {
    if ws == [] then p
    else
      var m := |ws| - 1;
      Write(Filled(p, ws[..m], outs[..m]), ws[m].off, outs[m])
  }

  lemma {:induction false} FilledPrefix(p: seq<Byte>, q: seq<Byte>, ws: seq<Window>, outs: seq<seq<Byte>>)
    requires AllInside(ws, |p|) && OutsFit(ws, outs)
    ensures AllInside(ws, |p + q|) && Filled(p + q, ws, outs) == Filled(p, ws, outs) + q
    decreases |ws|
  {
    if ws != [] {
      var m := |ws| - 1;
      FilledPrefix(p, q, ws[..m], outs[..m]);
      WritePrefix(Filled(p, ws[..m], outs[..m]), q, ws[m].off, outs[m]);
    }
  }

  lemma WritePrefix(p: seq<Byte>, q: seq<Byte>, off: int, b: seq<Byte>)
    requires b != [] ==> 0 <= off && off + |b| <= |p|
    ensures Write(p + q, off, b) == Write(p, off, b) + q
  {
  }

  lemma WriteEnd(p: seq<Byte>, q: seq<Byte>, b: seq<Byte>)
    requires |b| == |q|
    ensures Write(p + q, |p|, b) == p + b
  {
  }

  lemma {:induction false} FitsInside(ts: seq<Tag>)
    requires Fits(ts) && AllDescribable(ts)
    ensures AllInside(Windows(ts), Total(ts))
  {
    WindowsOrdered(ts);
  }

  /** Filling a packet that already is the concatenation of its literals with some generated bytes
      gives the concatenation with the new ones: no literal byte changes, at any send. */
  lemma {:induction false} RefillIsConcat(ts: seq<Tag>, was: seq<seq<Byte>>, outs: seq<seq<Byte>>)
    requires Fits(ts) && AllDescribable(ts) && OutsFit(Windows(ts), was) && OutsFit(Windows(ts), outs)
    ensures AllInside(Windows(ts), |Concat(ts, was)|)
    ensures Filled(Concat(ts, was), Windows(ts), outs) == Concat(ts, outs)
    decreases |ts|
  {
    FitsInside(ts);
    ConcatLength(ts, was);
    if ts != [] {
      FitsInit(ts);
      var n, m := |ts| - 1, |outs| - 1;
      var init := ts[..n];
      FitsInside(init);
      if ts[n].Literal? {
        RefillIsConcat(init, was, outs);
        FilledPrefix(Concat(init, was), ts[n].bytes, Windows(init), outs);
      } else {
        RefillIsConcat(init, was[..m], outs[..m]);
        FilledPrefix(Concat(init, was[..m]), was[m], Windows(init), outs[..m]);
        ConcatLength(init, outs[..m]);
        assert Windows(ts)[..m] == Windows(init);
        WriteEnd(Concat(init, outs[..m]), was[m], outs[m]);
      }
    }
  }

  /** In the finished packet each literal stands at its place. */
  lemma {:induction false} LiteralInPlace(ts: seq<Tag>, outs: seq<seq<Byte>>, i: nat)
    requires Fits(ts) && AllDescribable(ts) && OutsFit(Windows(ts), outs) && i < |ts| && ts[i].Literal?
    ensures 0 <= Place(ts, i) == Offset(ts, i) && Offset(ts, i) + |ts[i].bytes| <= |Concat(ts, outs)|
    ensures Concat(ts, outs)[Offset(ts, i)..Offset(ts, i) + |ts[i].bytes|] == ts[i].bytes
    decreases |ts|
  {
    var n := |ts| - 1;
    var outs' := if ts[n].Literal? then outs else outs[..|outs| - 1];
    FitsInit(ts);
    FitsPlaces(ts, i);
    OffsetPrefix(ts, n, i);
    ConcatLength(ts[..n], outs');
    var c := Concat(ts[..n], outs');
    if i < n {
      LiteralInPlace(ts[..n], outs', i);
      SliceBefore(c, if ts[n].Literal? then ts[n].bytes else outs[|outs| - 1], Offset(ts, i), Offset(ts, i) + |ts[i].bytes|);
    } else {
      SliceAfter(c, ts[n].bytes);
    }
  }

  /** Each generated part has its own window, of its kind and at its place. */
  lemma {:induction false} WindowOf(ts: seq<Tag>, i: nat)
    requires Fits(ts) && AllDescribable(ts) && i < |ts| && ts[i].Generated?
    ensures var k := |Windows(ts[..i])|;
            k < |Windows(ts)| && Windows(ts)[k] == Window(ts[i].modifier, Offset(ts, i), ts[i].size)
    decreases |ts|
  {
    var n := |ts| - 1;
    FitsInit(ts);
    FitsPlaces(ts, i);
    OffsetPrefix(ts, n, i);
    if i < n {
      WindowOf(ts[..n], i);
      assert ts[..n][..i] == ts[..i];
    }
  }

  /** The fresh bytes of a window stand at its part's place. */
  lemma {:induction false} GeneratedInPlace(ts: seq<Tag>, outs: seq<seq<Byte>>, i: nat)
    requires Fits(ts) && AllDescribable(ts) && OutsFit(Windows(ts), outs) && i < |ts| && ts[i].Generated?
    ensures |Windows(ts[..i])| < |outs| && StandsAt(outs[|Windows(ts[..i])|], Concat(ts, outs), Offset(ts, i))
    decreases |ts|
  {
    var n, k := |ts| - 1, |Windows(ts[..i])|;
    var outs' := if ts[n].Literal? then outs else outs[..|outs| - 1];
    var d := if ts[n].Literal? then ts[n].bytes else outs[|outs| - 1];
    WindowOf(ts, i);
    FitsInit(ts);
    OffsetPrefix(ts, n, i);
    ConcatLength(ts[..n], outs');
    assert Concat(ts, outs) == Concat(ts[..n], outs') + d;
    if i < n {
      assert ts[..n][..i] == ts[..i];
      GeneratedInPlace(ts[..n], outs', i);
      StillStands(outs[k], Concat(ts[..n], outs'), d, Offset(ts, i));
    } else {
      SliceAfter(Concat(ts[..n], outs'), d);
    }
  }

  predicate StandsAt(b: seq<Byte>, p: seq<Byte>, off: int) {
    0 <= off && off + |b| <= |p| && p[off..off + |b|] == b
  }

  lemma StillStands(b: seq<Byte>, p: seq<Byte>, q: seq<Byte>, off: int)
    requires StandsAt(b, p, off)
    ensures StandsAt(b, p + q, off)
  {
  }

  lemma SliceBefore(c: seq<Byte>, d: seq<Byte>, i: nat, j: nat)
    requires i <= j <= |c|
    ensures (c + d)[i..j] == c[i..j]
  {
  }

  lemma SliceAfter(c: seq<Byte>, d: seq<Byte>)
    ensures (c + d)[|c|..|c| + |d|] == d
  {
  }

  // ---------------------------------------------------------------- laying the packet out

  /** The packet after the first `n` parts, or nothing if a literal was copied outside it. */
  function Painted(ts: seq<Tag>, n: nat, size: nat): (r: Option<seq<Byte>>)
    requires n <= |ts|
    ensures r.Some? ==> |r.value| == size
  {
    if n == 0 then Some(ZeroBytes(size))
    else
      var p, t, off := Painted(ts, n - 1, size), ts[n - 1], Place(ts, n - 1);
      if p.None? || t.Generated? then p
      else if t.bytes != [] && (off < 0 || off + |t.bytes| > size) then None
      else Some(Write(p.value, off, t.bytes))
  }

  /** The blank packet of a description that fits: literals in place, zeros elsewhere. */
  function Blank(ts: seq<Tag>): (r: seq<Byte>) {
    Concat(ts, Zeros(Windows(ts)))
  }

  lemma {:induction false} WindowsStep(ts: seq<Tag>, n: nat)
    requires n < |ts|
    ensures Windows(ts[..n + 1]) ==
            if ts[n].Literal? then Windows(ts[..n]) else Windows(ts[..n]) + [Window(ts[n].modifier, Place(ts, n), ts[n].size)]
  {
    OffsetPrefix(ts, n + 1, n);
    assert ts[..n + 1][..n] == ts[..n];
  }

  lemma {:induction false} BlankStep(ts: seq<Tag>, n: nat)
    requires n < |ts|
    ensures Blank(ts[..n + 1]) == Blank(ts[..n]) + (if ts[n].Literal? then ts[n].bytes else ZeroBytes(WriteLen(ts[n])))
  {
    var t1 := ts[..n + 1];
    WindowsStep(ts, n);
    assert t1[..n] == ts[..n] && t1[n] == ts[n];
    if ts[n].Generated? {
      var ws := Windows(t1);
      assert ws[..|ws| - 1] == Windows(ts[..n]);
      var z := Zeros(ws);
      assert z[..|z| - 1] == Zeros(Windows(ts[..n]));
    }
  }

  lemma WriteNext(b: seq<Byte>, t: seq<Byte>, n: nat)
    requires |t| <= n
    ensures Write(b + ZeroBytes(n), |b|, t) == b + t + ZeroBytes(n - |t|)
    ensures b + ZeroBytes(n) == b + ZeroBytes(|t|) + ZeroBytes(n - |t|)
  {
  }

  predicate BlankSoFar(ts: seq<Tag>, n: nat)
    requires n <= |ts|
  {
    && 0 <= Place(ts, n) == Offset(ts, n) == |Blank(ts[..n])| <= Total(ts)
    && Painted(ts, n, Total(ts)) == Some(Blank(ts[..n]) + ZeroBytes(Total(ts) - Offset(ts, n)))
  }

  /** The layout loop of a description that fits produces the blank packet. */
  lemma {:induction false} PaintedIsBlank(ts: seq<Tag>, n: nat)
    requires Fits(ts) && AllDescribable(ts) && n <= |ts|
    ensures BlankSoFar(ts, n)
  {
    if n == 0 {
      PaintedNone(ts);
    } else {
      PaintedIsBlank(ts, n - 1);
      PaintedStep(ts, n - 1, Blank(ts[..n - 1]));
    }
  }

  lemma {:induction false} PaintedNone(ts: seq<Tag>)
    requires Fits(ts)
    ensures BlankSoFar(ts, 0)
  {
    FitsPlaces(ts, 0);
    assert ts[..0] == [] && Blank([]) + ZeroBytes(Total(ts)) == ZeroBytes(Total(ts));
  }

  lemma {:induction false} PaintedStep(ts: seq<Tag>, n: nat, b: seq<Byte>)
    requires Fits(ts) && AllDescribable(ts) && n < |ts| && BlankSoFar(ts, n) && b == Blank(ts[..n])
    ensures BlankSoFar(ts, n + 1)
  {
    FitsPlaces(ts, n + 1);
    BlankStep(ts, n);
    RegularLen(ts[n]);
    PaintedNext(ts, n, Total(ts), b);
  }

  lemma {:induction false} PaintedNext(ts: seq<Tag>, n: nat, size: nat, b: seq<Byte>)
    requires n < |ts| && Place(ts, n) == |b| && |b| + WriteLen(ts[n]) <= size
    requires Painted(ts, n, size) == Some(b + ZeroBytes(size - |b|))
    ensures var part := if ts[n].Literal? then ts[n].bytes else ZeroBytes(WriteLen(ts[n]));
            Painted(ts, n + 1, size) == Some(b + part + ZeroBytes(size - |b| - |part|))
  {
    var part := if ts[n].Literal? then ts[n].bytes else ZeroBytes(WriteLen(ts[n]));
    WriteNext(b, part, size - |b|);
  }

  // ---------------------------------------------------------------- the code

  /** `Overrun` stands for a copy that leaves the packet; what it then overwrites is not modelled. */
  datatype Outcome = Done | Invalid | NoMemory | Overrun

  /** What setting up a description comes to. */
  function Result(desc: Option<string>, alloc: bool): (r: Outcome) {
    if desc.None? then Done
    else
      match ReadTags(desc)
      case None => Invalid
      case Some(ts) =>
        if Allocated(ts) > MESSAGE_MAX_SIZE then Invalid
        else if Allocated(ts) < 0 || !alloc then NoMemory
        else if Painted(ts, |ts|, Allocated(ts)).Some? then Done
        else Overrun
  }

  /** A description of describable tags, and what setting it up comes to: with no negative length and
      fewer than 2^31 bytes it is done up to 65535 bytes and refused above. */
  lemma ResultIff(ts: seq<Tag>, alloc: bool)
    requires AllDescribable(ts) && NonNegative(ts) && Total(ts) < TWO31
    ensures Result(Some(Describe(ts)), alloc) == (if Total(ts) > 65535 then Invalid else if alloc then Done else NoMemory)
  {
    ReadDescribed(ts);
    OffsetsGrow(ts, 0, |ts|);
    SmallWrap(Total(ts));
    if Total(ts) <= 65535 { PaintedIsBlank(ts, |ts|); }
  }

  /** Whatever the text: one that cannot be read is refused, and one that reads as a fitting list is done. */
  lemma UnreadableIsInvalid(desc: string, alloc: bool)
    ensures ReadTags(Some(desc)).None? ==> Result(Some(desc), alloc) == Invalid
    ensures Result(None, alloc) == Done
    ensures ReadTags(Some(desc)).Some? && Fits(ReadTags(Some(desc)).value) ==>
              Result(Some(desc), alloc) == if alloc then Done else NoMemory
  {
    if ReadTags(Some(desc)).Some? && Fits(ReadTags(Some(desc)).value) {
      var ts := ReadTags(Some(desc)).value;
      ReadDescribable(Some(desc));
      FitsPlaces(ts, |ts|);
      PaintedIsBlank(ts, |ts|);
    }
  }

  lemma {:induction false} PaintedIff(ts: seq<Tag>, n: nat, size: nat)
    requires n <= |ts| && size == Allocated(ts)
    ensures Painted(ts, n, size).Some? <==> forall i :: 0 <= i < n && ts[i].Literal? ==> PartInside(ts, i)
  {
    if n > 0 {
      PaintedIff(ts, n - 1, size);
      assert ts[n - 1].Literal? ==> (WriteLen(ts[n - 1]) > 0 <==> ts[n - 1].bytes != []);
    }
  }

  lemma {:induction false} WindowsIff(ts: seq<Tag>, n: nat)
    requires n <= |ts|
    ensures AllInside(Windows(ts[..n]), Allocated(ts)) <==> forall i :: 0 <= i < n && ts[i].Generated? ==> PartInside(ts, i)
  {
    if n > 0 {
      WindowsIff(ts, n - 1);
      WindowsStep(ts, n - 1);
      var ws := Windows(ts[..n]);
      if ts[n - 1].Generated? {
        assert Inside(ws[|ws| - 1], Allocated(ts)) <==> PartInside(ts, n - 1);
        assert ws[..|ws| - 1] == Windows(ts[..n - 1]);
        assert AllInside(ws, Allocated(ts)) <==> AllInside(ws[..|ws| - 1], Allocated(ts)) && Inside(ws[|ws| - 1], Allocated(ts));
      }
    }
  }

  /** Setting up and filling in never leave the packet exactly if all writes are inside it. */
  lemma {:induction false} SetupAndFillIff(ts: seq<Tag>)
    requires Admitted(ts)
    ensures WritesInside(ts) <==> Painted(ts, |ts|, Allocated(ts)).Some? && AllInside(Windows(ts), Allocated(ts))
  {
    PaintedIff(ts, |ts|, Allocated(ts));
    WindowsIff(ts, |ts|);
    assert ts[..|ts|] == ts;
  }

  /** The first `n` parts are laid out. */
  ghost predicate LaidOut(p: seq<Byte>, ws: seq<Window>, ts: seq<Tag>, n: nat) {
    n <= |ts| && Painted(ts, n, |p|) == Some(p) && ws == Windows(ts[..n])
  }

  method CopyInto(a: array<Byte>, off: int, b: seq<Byte>)
    requires b != [] ==> 0 <= off && off + |b| <= a.Length
    modifies a
    ensures a[..] == Write(old(a[..]), off, b)
  {
    var i := 0;
    while i < |b|
      invariant 0 <= i <= |b|
      invariant forall k :: 0 <= k < a.Length ==> a[k] == if off <= k < off + i then b[k - off] else old(a[k])
    {
      a[off + i] := b[i];
      i := i + 1;
    }
    WriteAt(old(a[..]), off, b, a[..]);
  }

  lemma WriteAt(p: seq<Byte>, off: int, b: seq<Byte>, r: seq<Byte>)
    requires |p| == |r| && (b != [] ==> 0 <= off && off + |b| <= |p|)
    requires forall k :: 0 <= k < |p| ==> r[k] == if off <= k < off + |b| then b[k - off] else p[k]
    ensures r == Write(p, off, b)
  {
  }

  /** The sum of the sizes, over the reversed list, in 32-bit arithmetic. */
  method SumSizes(list: seq<Tag>) returns (size: int)
    ensures size == Allocated(Reversed(list))
  {
    size := 0;
    var i := 0;
    while i < |list|
      invariant 0 <= i <= |list|
      invariant size == Wrap(Total(Reversed(list)) - Offset(Reversed(list), |list| - i))
    {
      WrapAdd(Total(Reversed(list)) - Offset(Reversed(list), |list| - i), TagSize(list[i]));
      size := Wrap(size + TagSize(list[i]));
      i := i + 1;
    }
  }

  class JunkSpec {
    var pkt: array<Byte>
    var mods: seq<Window>

    constructor ()
      ensures fresh(pkt) && pkt.Length == 0 && mods == []
    {
      pkt := new Byte[0];
      mods := [];
    }

    /** `jp_spec_setup`: parse, add up, allocate, and lay the tags out in text order. A description
        that fits yields its literals in place and zeros elsewhere. */
    method Setup(desc: Option<string>, alloc: bool) returns (r: Outcome)
      modifies this
      ensures fresh(pkt) && r == Result(desc, alloc)
      ensures r == Done && desc.Some? ==>
                (var ts := ReadTags(desc).value;
                 && Painted(ts, |ts|, pkt.Length) == Some(pkt[..]) && pkt.Length == Allocated(ts) && mods == Windows(ts)
                 && (Fits(ts) ==> pkt[..] == Blank(ts)))
      ensures desc.None? || r == Invalid || r == NoMemory ==> pkt.Length == 0 && mods == []
    {
      pkt := new Byte[0];
      mods := [];
      if desc.None? { return Done; }
      var parsed := ParseTags(desc.value);
      if parsed.None? { return Invalid; }
      var list := parsed.value;
      ghost var ts := ReadTags(desc).value;
      TwiceReversed(ts);
      var size := SumSizes(list);
      if size > MESSAGE_MAX_SIZE { return Invalid; }
      if size < 0 || !alloc { return NoMemory; }
      var laid := LayOut(list, size, ts);
      if !laid { return Overrun; }
      FittingPacket(desc, pkt[..]);
      return Done;
    }

    method LayOut(list: seq<Tag>, size: nat, ghost ts: seq<Tag>) returns (ok: bool)
      requires list == Reversed(ts) && mods == []
      modifies this
      ensures fresh(pkt) && pkt.Length == size && ok == Painted(ts, |ts|, size).Some?
      ensures ok ==> Painted(ts, |ts|, size) == Some(pkt[..]) && mods == Windows(ts)
    {
      pkt := new Byte[size](_ => 0);
      var off, i := 0, |list|;
      assert pkt[..] == ZeroBytes(size) && ts[..0] == [];
      while i > 0
        invariant 0 <= i <= |list| && fresh(pkt) && pkt.Length == size
        invariant off == Place(ts, |ts| - i) && LaidOut(pkt[..], mods, ts, |ts| - i)
      {
        i := i - 1;
        ghost var n := |ts| - i - 1;
        WrapAdd(Offset(ts, n), TagSize(ts[n]));
        var placed := PlaceTag(list[i], off, ts, n);
        if !placed {
          StaysNone(ts, n + 1, |ts|, size);
          return false;
        }
        off := Wrap(off + TagSize(list[i]));
      }
      assert ts[..|ts|] == ts;
      return true;
    }

    method PlaceTag(t: Tag, off: int, ghost ts: seq<Tag>, ghost n: nat) returns (ok: bool)
      requires n < |ts| && t == ts[n] && off == Place(ts, n) && LaidOut(pkt[..], mods, ts, n)
      modifies this`mods, pkt
      ensures ok == Painted(ts, n + 1, pkt.Length).Some?
      ensures ok ==> LaidOut(pkt[..], mods, ts, n + 1)
    {
      WindowsStep(ts, n);
      if t.Generated? {
        mods := mods + [Window(t.modifier, off, t.size)];
        return true;
      }
      if t.bytes != [] && (off < 0 || off + |t.bytes| > pkt.Length) { return false; }
      CopyInto(pkt, off, t.bytes);
      return true;
    }

    /** `jp_spec_applymods`; `outs` are the bytes the generators produce. The result tells whether
        every write stayed inside the packet. */
    method ApplyMods(outs: seq<seq<Byte>>) returns (ok: bool)
      requires OutsFit(mods, outs)
      modifies pkt
      ensures ok <==> AllInside(mods, pkt.Length)
      ensures ok ==> pkt[..] == Filled(old(pkt[..]), mods, outs)
    {
      var i := 0;
      while i < |mods|
        invariant 0 <= i <= |mods| && AllInside(mods[..i], pkt.Length)
        invariant pkt[..] == Filled(old(pkt[..]), mods[..i], outs[..i])
      {
        if outs[i] != [] && (mods[i].off < 0 || mods[i].off + |outs[i]| > pkt.Length) {
          assert !Inside(mods[i], pkt.Length);
          return false;
        }
        CopyInto(pkt, mods[i].off, outs[i]);
        i := i + 1;
        assert mods[..i][..i - 1] == mods[..i - 1] && outs[..i][..i - 1] == outs[..i - 1];
      }
      assert mods[..|mods|] == mods && outs[..|mods|] == outs;
      return true;
    }
  }

  lemma {:induction false} StaysNone(ts: seq<Tag>, n: nat, m: nat, size: nat)
    requires n <= m <= |ts| && Painted(ts, n, size).None?
    ensures Painted(ts, m, size).None?
    decreases m
  {
    if n < m { StaysNone(ts, n, m - 1, size); }
  }

  lemma FittingPacket(desc: Option<string>, p: seq<Byte>)
    requires ReadTags(desc).Some? && Allocated(ReadTags(desc).value) >= 0
    ensures var ts := ReadTags(desc).value;
            Fits(ts) && Painted(ts, |ts|, Allocated(ts)) == Some(p) ==> p == Blank(ts)
  {
    var ts := ReadTags(desc).value;
    ReadDescribable(desc);
    if Fits(ts) {
      PaintedIsBlank(ts, |ts|);
      FitsPlaces(ts, |ts|);
      assert ts[..|ts|] == ts && Blank(ts) + ZeroBytes(0) == Blank(ts);
    }
  }

  /** Whatever the text, only describable tags are read. */
  lemma {:induction false} ReadDescribable(s: Option<string>)
    requires ReadTags(s).Some?
    ensures AllDescribable(ReadTags(s).value)
    decreases if s.None? then 0 else |s.value| + 1
  {
    if s.Some? && Split(s.value, '<').1.Some? {
      var (body, rest) := Split(Split(s.value, '<').1.value, '>');
      ReadTagDescribable(body);
      ReadDescribable(rest);
    }
  }

  lemma ReadTagDescribable(body: string)
    ensures ReadTag(body).Some? ==> Describable(ReadTag(body).value)
  {
  }
}
