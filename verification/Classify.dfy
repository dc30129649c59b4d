/** Recognising obfuscated messages. Each of the four kinds has its own junk prefix length and its
    own range of type values; a datagram is classified by its length and by the four bytes that
    follow the prefix of the kind under test. */
module Classify {
  import opened Common
  import opened Messages
  import opened MagicHeader

  /** The smallest transport message: header and authentication tag. */
  const MESSAGE_MINIMUM_LENGTH: nat := 32

  datatype Kind = Initiation | Response | Cookie | Transport

  /** The order in which the kinds are tried, and the sizes of their structures. */
  function Rank(k: Kind): (i: nat)
    ensures i < 4
  {
    match k case Initiation => 0 case Response => 1 case Cookie => 2 case Transport => 3
  }

  function Size(k: Kind): (n: nat) {
    match k
    case Initiation => 4 + 4 + 32 + (32 + 16) + (12 + 16) + 32
    case Response => 4 + 4 + 4 + 32 + 16 + 32
    case Cookie => 4 + 4 + 24 + (16 + 16)
    case Transport => 4 + 4 + 8
  }

  /** What `prepare_awg_message` returns: the structure's size, except that a cookie reply
      yields its type number. */
  function Code(k: Kind): (n: nat) {
    if k.Cookie? then 3 else Size(k)
  }

  datatype Config = Config(junk: seq<nat>, headers: seq<Header>)

  predicate ConfigOk(c: Config) {
    && |c.junk| == 4 && |c.headers| == 4
    && (forall i :: 0 <= i < 4 ==> c.junk[i] < TWO16)
    && (forall i :: 0 <= i < 4 ==> HeaderOk(c.headers[i]))
  }

  function Junk(c: Config, k: Kind): (n: nat)
    requires ConfigOk(c)
  {
    c.junk[Rank(k)]
  }

  function HeaderOf(c: Config, k: Kind): (h: Header)
    requires ConfigOk(c)
    ensures HeaderOk(h)
  {
    c.headers[Rank(k)]
  }

  predicate LengthFits(c: Config, k: Kind, len: nat)
    requires ConfigOk(c)
  {
    if k.Transport? then len >= Junk(c, k) + Size(k) else len == Junk(c, k) + Size(k)
  }

  function TypeAt(m: seq<Byte>, off: nat): (v: nat)
    requires off + 4 <= |m|
    ensures v < TWO32
  {
    Le32(m[off..off + 4])
  }

  predicate Matches(c: Config, m: seq<Byte>, k: Kind)
    requires ConfigOk(c)
  {
    LengthFits(c, k, |m|) && Validate(TypeAt(m, Junk(c, k)), HeaderOf(c, k))
  }

  /** Type values are little-endian, and stand right behind the kind's junk. */
  lemma TypeWritten(c: Config, m: seq<Byte>, k: Kind)
    requires ConfigOk(c) && LengthFits(c, k, |m|)
    ensures var j := c.junk[match k case Initiation => 0 case Response => 1 case Cookie => 2 case Transport => 3];
            && |m| >= j + 16
            && TypeAt(m, Junk(c, k)) == m[j] as nat + 0x100 * m[j + 1] as nat + 0x1_0000 * m[j + 2] as nat + 0x100_0000 * m[j + 3] as nat
  {
  }

  /** The first kind whose length and type value fit. */
  function Classified(c: Config, m: seq<Byte>): (r: Option<Kind>)
    requires ConfigOk(c)
  {
    if Matches(c, m, Initiation) then Some(Initiation)
    else if Matches(c, m, Response) then Some(Response)
    else if Matches(c, m, Cookie) then Some(Cookie)
    else if Matches(c, m, Transport) then Some(Transport)
    else None
  }

  lemma ClassifiedIff(c: Config, m: seq<Byte>, k: Kind)
    requires ConfigOk(c)
    ensures Classified(c, m) == Some(k) <==>
            Matches(c, m, k) && forall j :: Rank(j) < Rank(k) ==> !Matches(c, m, j)
  {
  }

  // ---------------------------------------------------------------- accepted configurations

  /** No two ranges overlap. */
  predicate Disjoint(c: Config)
    requires ConfigOk(c)
  {
    forall i, j :: 0 <= i < j < 4 ==> Apart(c.headers[i], c.headers[j])
  }

  predicate SizesOk(c: Config)
    requires ConfigOk(c)
  {
    forall k: Kind :: Junk(c, k) + Size(k) <= MESSAGE_MAX_SIZE
  }

  /** The junk-packet limits after equal bounds have been spread, in 16-bit arithmetic. */
  function SpreadMax(jc: nat, jmin: nat, jmax: nat): (r: nat) {
    if jc > 0 && jmin == jmax then (jmax + 1) % TWO16 else jmax
  }

  predicate JunkBoundsOk(jc: nat, jmin: nat, jmax: nat) {
    var top := SpreadMax(jc, jmin, jmax);
    top < MESSAGE_MAX_SIZE && (top == 0 || jmin <= top)
  }

  lemma SizesWritten(c: Config)
    requires ConfigOk(c)
    ensures SizesOk(c) <==> c.junk[0] + 148 <= 65535 && c.junk[1] + 92 <= 65535 && c.junk[2] + 64 <= 65535 && c.junk[3] + 16 <= 65535
  {
    if SizesOk(c) {
      assert Junk(c, Initiation) + Size(Initiation) <= MESSAGE_MAX_SIZE && Junk(c, Response) + Size(Response) <= MESSAGE_MAX_SIZE;
      assert Junk(c, Cookie) + Size(Cookie) <= MESSAGE_MAX_SIZE && Junk(c, Transport) + Size(Transport) <= MESSAGE_MAX_SIZE;
    }
  }

  predicate Accepted(c: Config)
    requires ConfigOk(c)
  {
    Disjoint(c) && SizesOk(c)
  }

  class Device {
    var config: Config
    var jc: nat
    var jmin: nat
    var jmax: nat
    var advanced: bool

    ghost predicate Valid() reads this {
      ConfigOk(config) && jc < TWO16 && jmin < TWO16 && jmax < TWO16
    }

    /** The defaults of `wg_setup`: no junk, the standard type values. */
    constructor ()
      ensures Valid() && !advanced && jc == jmin == jmax == 0 && Accepted(config)
      ensures forall k :: Junk(config, k) == 0 && HeaderOf(config, k) == Header(Rank(k) + 1, Rank(k) + 1)
    {
      config := Config([0, 0, 0, 0], [Header(1, 1), Header(2, 2), Header(3, 3), Header(4, 4)]);
      jc, jmin, jmax := 0, 0, 0;
      advanced := false;
    }

    /** `wg_device_handle_post_config`; `specsOk` holds the results of setting up the five
        special packets. The result is exactly the conjunction of the limits. */
    method PostConfig(specsOk: seq<bool>) returns (ok: bool)
      requires Valid() && |specsOk| == 5
      modifies this`jmax
      ensures Valid()
      ensures ok <==> !advanced || (JunkBoundsOk(jc, jmin, old(jmax)) && Accepted(config) && forall i :: 0 <= i < 5 ==> specsOk[i])
      ensures jmax == if advanced then SpreadMax(jc, jmin, old(jmax)) else old(jmax)
      ensures !advanced ==> ok && jmax == old(jmax)
      ensures advanced ==> jmax == if jc > 0 && jmin == old(jmax) then (if old(jmax) == 65535 then 0 else old(jmax) + 1) else old(jmax)
      ensures advanced ==>
        (ok <==> && jmax < 65535 && (jmax != 0 ==> jmin <= jmax)
                 && config.junk[0] + 148 <= 65535 && config.junk[1] + 92 <= 65535
                 && config.junk[2] + 64 <= 65535 && config.junk[3] + 16 <= 65535
                 && (forall i, j :: 0 <= i < j < 4 ==> Apart(config.headers[i], config.headers[j]))
                 && forall i :: 0 <= i < 5 ==> specsOk[i])
    {
      if !advanced { return true; }
      if jc > 0 && jmin == jmax { jmax := (jmax + 1) % TWO16; }
      if jmax >= MESSAGE_MAX_SIZE { return false; }
      if jmax != 0 && jmax < jmin { return false; }
      var sizes := SizesFit();
      SizesWritten(config);
      if !sizes { return false; }
      var apart := RangesApart();
      if !apart { return false; }
      var i := 0;
      while i < |specsOk|
        invariant 0 <= i <= |specsOk| && forall l :: 0 <= l < i ==> specsOk[l]
      {
        if !specsOk[i] { return false; }
        i := i + 1;
      }
      return true;
    }

    method SizesFit() returns (ok: bool)
      requires Valid()
      ensures ok <==> SizesOk(config)
    {
      if Junk(config, Initiation) + Size(Initiation) > MESSAGE_MAX_SIZE { return false; }
      if Junk(config, Response) + Size(Response) > MESSAGE_MAX_SIZE { return false; }
      if Junk(config, Cookie) + Size(Cookie) > MESSAGE_MAX_SIZE { return false; }
      if Junk(config, Transport) + Size(Transport) > MESSAGE_MAX_SIZE { return false; }
      return true;
    }

    /** The nested loops over pairs of ranges. */
    method RangesApart() returns (ok: bool)
      requires Valid()
      ensures ok <==> Disjoint(config)
    {
      var h := config.headers;
      var i := 0;
      while i < 4
        invariant 0 <= i <= 4
        invariant forall a, b :: 0 <= a < i && a < b < 4 ==> Apart(h[a], h[b])
      {
        var j := i + 1;
        while j < 4
          invariant i < j <= 4
          invariant forall b :: i < b < j ==> Apart(h[i], h[b])
        {
          if !(h[j].end < h[i].start || h[i].end < h[j].start) { return false; }
          j := j + 1;
        }
        i := i + 1;
      }
      return true;
    }
  }

  // ---------------------------------------------------------------- receiving

  /** A linear buffer whose payload starts at `off`. */
  class SkBuff {
    const buf: seq<Byte>
    var off: nat

    ghost predicate Valid() reads this { off <= |buf| }

    function Data(): (m: seq<Byte>)
      reads this
      requires Valid()
    {
      buf[off..]
    }

    constructor (buf: seq<Byte>, off: nat)
      requires off <= |buf|
      ensures Valid() && this.buf == buf && this.off == off
    {
      this.buf := buf;
      this.off := off;
    }

    /** `prepare_awg_message`: pull one kind's junk, test its type value, push it back if the test
        fails, and go on. */
    method Prepare(c: Config) returns (n: nat)
      requires Valid() && ConfigOk(c)
      modifies this`off
      ensures Valid()
      ensures var k := Classified(c, old(Data()));
              if k.None? then n == 0 && off == old(off)
              else n == Code(k.value) && off == old(off) + Junk(c, k.value)
      ensures match Classified(c, old(Data()))
              case None => n == 0
              case Some(Initiation) => n == 148
              case Some(Response) => n == 92
              case Some(Cookie) => n == 3
              case Some(Transport) => n == 16
    {
      if |buf| - off == Junk(c, Initiation) + Size(Initiation) {
        var ok := TryKind(c, Initiation);
        if ok { return Size(Initiation); }
      }
      if |buf| - off == Junk(c, Response) + Size(Response) {
        var ok := TryKind(c, Response);
        if ok { return Size(Response); }
      }
      if |buf| - off == Junk(c, Cookie) + Size(Cookie) {
        var ok := TryKind(c, Cookie);
        if ok { return 3; }
      }
      if |buf| - off >= Junk(c, Transport) + Size(Transport) {
        var ok := TryKind(c, Transport);
        if ok { return Size(Transport); }
      }
      return 0;
    }

    method TryKind(c: Config, k: Kind) returns (ok: bool)
      requires Valid() && ConfigOk(c) && LengthFits(c, k, |buf| - off)
      modifies this`off
      ensures Valid() && ok == Matches(c, old(Data()), k)
      ensures off == if ok then old(off) + Junk(c, k) else old(off)
    {
      off := off + Junk(c, k);
      assert buf[off..off + 4] == old(Data())[Junk(c, k)..Junk(c, k) + 4];
      ok := Validate(Le32(buf[off..off + 4]), HeaderOf(c, k));
      if !ok { off := off - Junk(c, k); }
    }
  }

  /** Where `wg_packet_receive` sends a prepared packet, from its type value alone. */
  datatype Route = HandshakeQueue | DataPath | UnknownType

  function Dispatch(c: Config, v: nat): (r: Route)
    requires ConfigOk(c)
  {
    if Validate(v, HeaderOf(c, Initiation)) || Validate(v, HeaderOf(c, Response)) || Validate(v, HeaderOf(c, Cookie))
    then HandshakeQueue
    else if Validate(v, HeaderOf(c, Transport)) then DataPath
    else UnknownType
  }

  datatype MacState = InvalidMac | NoCookie | RateLimited | WithCookie

  datatype Action = Consume(kind: Kind) | SendCookie(kind: Kind) | WrongTypeWarning

  /** What the handshake worker does with a packet: the cookie test comes first, then the message
      authentication, and the two remaining type tests are not exclusive in the code. `valid` says
      whether the consumed message proves genuine. */
  function HandshakeActions(c: Config, v: nat, underLoad: bool, mac: MacState, valid: Kind -> bool): (r: seq<Action>)
    requires ConfigOk(c)
  {
    if Validate(v, HeaderOf(c, Cookie)) then [Consume(Cookie)]
    else if (underLoad && mac.WithCookie?) || (!underLoad && mac.NoCookie?) then
      var isInit := Validate(v, HeaderOf(c, Initiation));
      var isResp := Validate(v, HeaderOf(c, Response));
      if isInit && !valid(Initiation) then [Consume(Initiation)]
      else
        (if isInit then [Consume(Initiation)] else []) +
        (if isResp then [Consume(Response)] else []) +
        (if !isInit && !isResp then [WrongTypeWarning] else [])
    else if underLoad && mac.NoCookie? then
      if Validate(v, HeaderOf(c, Initiation)) then [SendCookie(Initiation)]
      else if Validate(v, HeaderOf(c, Response)) then [SendCookie(Response)]
      else [WrongTypeWarning]
    else []
  }

  lemma OneRange(c: Config, j: Kind, k: Kind, v: nat)
    requires ConfigOk(c) && Disjoint(c) && j != k && Validate(v, HeaderOf(c, k))
    ensures !Validate(v, HeaderOf(c, j))
  {
    var a, b := Rank(j), Rank(k);
    assert Apart(c.headers[if a < b then a else b], c.headers[if a < b then b else a]);
  }

  /** A classified packet goes to the handler of its kind and no other, with exactly the length of
      its structure if it is a handshake message; the unknown-type branch and the worker's
      warning are never reached. */
  lemma DispatchedByKind(c: Config, m: seq<Byte>, k: Kind, underLoad: bool, mac: MacState, valid: Kind -> bool)
    requires ConfigOk(c) && Disjoint(c) && Classified(c, m) == Some(k)
    ensures var body := m[Junk(c, k)..];
            var v := TypeAt(body, 0);
            && Dispatch(c, v) == (if k.Transport? then DataPath else HandshakeQueue)
            && (match k case Initiation => |body| == 148 case Response => |body| == 92 case Cookie => |body| == 64 case Transport => |body| >= 16)
            && (!k.Transport? ==> HandshakeActions(c, v, underLoad, mac, valid) in {[], [Consume(k)], [SendCookie(k)]})
            && (k.Cookie? || (!k.Transport? && mac == (if underLoad then WithCookie else NoCookie)) ==>
                  HandshakeActions(c, v, underLoad, mac, valid) == [Consume(k)])
            && ((k.Initiation? || k.Response?) && underLoad && mac.NoCookie? ==> HandshakeActions(c, v, underLoad, mac, valid) == [SendCookie(k)])
            && ((k.Initiation? || k.Response?) && (mac.InvalidMac? || mac.RateLimited? || (!underLoad && mac.WithCookie?)) ==>
                  HandshakeActions(c, v, underLoad, mac, valid) == [])
  {
    var body := m[Junk(c, k)..];
    assert body[0..4] == m[Junk(c, k)..Junk(c, k) + 4];
    var v := TypeAt(body, 0);
    forall j: Kind | j != k ensures !Validate(v, HeaderOf(c, j)) { OneRange(c, j, k, v); }
    if !k.Transport? { WorkerActions(c, k, v, underLoad, mac, valid); }
  }

  lemma WorkerActions(c: Config, k: Kind, v: nat, underLoad: bool, mac: MacState, valid: Kind -> bool)
    requires ConfigOk(c) && !k.Transport? && Validate(v, HeaderOf(c, k))
    requires forall j: Kind :: j != k ==> !Validate(v, HeaderOf(c, j))
    ensures HandshakeActions(c, v, underLoad, mac, valid) in {[], [Consume(k)], [SendCookie(k)]}
    ensures k.Cookie? || mac == (if underLoad then WithCookie else NoCookie) ==>
              HandshakeActions(c, v, underLoad, mac, valid) == [Consume(k)]
    ensures !k.Cookie? && underLoad && mac.NoCookie? ==> HandshakeActions(c, v, underLoad, mac, valid) == [SendCookie(k)]
    ensures !k.Cookie? && (mac.InvalidMac? || mac.RateLimited? || (!underLoad && mac.WithCookie?)) ==>
              HandshakeActions(c, v, underLoad, mac, valid) == []
  {
    var none: seq<Action> := [];
    assert none + [Consume(k)] + none == [Consume(k)] == [Consume(k)] + none + none;
    match k
    case Initiation => assert !Validate(v, HeaderOf(c, Response)) && !Validate(v, HeaderOf(c, Cookie));
    case Response => assert !Validate(v, HeaderOf(c, Initiation)) && !Validate(v, HeaderOf(c, Cookie));
    case Cookie =>
  }

  // ---------------------------------------------------------------- sent and received kinds

  /** A datagram as the sender builds it: junk, then the message with a type value of its kind. */
  predicate SentAs(c: Config, k: Kind, m: seq<Byte>)
    requires ConfigOk(c)
  {
    && |m| >= Junk(c, k) + (if k.Transport? then MESSAGE_MINIMUM_LENGTH else Size(k))
    && (!k.Transport? ==> |m| == Junk(c, k) + Size(k))
    && Validate(TypeAt(m, Junk(c, k)), HeaderOf(c, k))
  }

  /** Two type values can stand in one datagram `d` bytes apart: where their bytes overlap, they agree. */
  predicate Overlay(h: nat, g: nat, d: int) {
    forall i: int :: 0 <= i < 4 && 0 <= d + i < 4 ==> ByteOf(g, i) == ByteOf(h, d + i)
  }

  /** The length of some message of kind `k` passes the test for the earlier kind `j`. */
  predicate LengthsMeet(c: Config, j: Kind, k: Kind)
    requires ConfigOk(c) && !j.Transport?
  {
    var len := Junk(c, j) + Size(j);
    if k.Transport? then len >= Junk(c, k) + MESSAGE_MINIMUM_LENGTH else len == Junk(c, k) + Size(k)
  }

  /** A message of kind `k` can pass every test for the earlier kind `j`. */
  ghost predicate Confusable(c: Config, j: Kind, k: Kind)
    requires ConfigOk(c) && !j.Transport?
  {
    && LengthsMeet(c, j, k)
    && Junk(c, j) != Junk(c, k)
    && exists h, g :: Validate(h, HeaderOf(c, k)) && Validate(g, HeaderOf(c, j)) && Overlay(h, g, Junk(c, j) - Junk(c, k))
  }

  function Patched(m: seq<Byte>, off: nat, v: nat, i: nat): (b: Byte)
    requires i < |m|
  {
    if off <= i < off + 4 then ByteOf(v, i - off) else m[i]
  }

  function WriteWord(m: seq<Byte>, off: nat, v: nat): (r: seq<Byte>)
    requires off + 4 <= |m|
    ensures |r| == |m|
    ensures forall i :: 0 <= i < |m| ==> r[i] == Patched(m, off, v, i)
  {
    seq(|m|, i requires 0 <= i < |m| => Patched(m, off, v, i))
  }

  lemma Written(m: seq<Byte>, off: nat, v: nat)
    requires off + 4 <= |m| && v < TWO32 && forall i :: 0 <= i < 4 ==> m[off + i] == ByteOf(v, i)
    ensures TypeAt(m, off) == v
  {
    var w := m[off..off + 4];
    forall i | 0 <= i < 4 ensures w[i] == ByteOf(v, i) { assert w[i] == m[off + i]; }
    WordOfBytes(v, w);
  }

  /** A datagram with `h` at one offset and `g` at another. */
  lemma Compose(len: nat, a: nat, h: nat, b: nat, g: nat) returns (m: seq<Byte>)
    requires a + 4 <= len && b + 4 <= len && h < TWO32 && g < TWO32 && Overlay(h, g, b - a)
    ensures |m| == len && TypeAt(m, a) == h && TypeAt(m, b) == g
  {
    var zero: seq<Byte> := seq(len, _ => 0);
    m := WriteWord(WriteWord(zero, a, h), b, g);
    forall i | 0 <= i < 4 ensures m[a + i] == ByteOf(h, i) {
      var d := b - a;
      if b <= a + i < b + 4 {
        var i' := i - d;
        assert 0 <= i' < 4 && 0 <= d + i' < 4;
        assert ByteOf(g, i') == ByteOf(h, d + i');
      }
    }
    Written(m, a, h);
    Written(m, b, g);
  }

  lemma OverlayRead(m: seq<Byte>, a: nat, b: nat)
    requires a + 4 <= |m| && b + 4 <= |m|
    ensures Overlay(TypeAt(m, a), TypeAt(m, b), b - a)
  {
    var d := b - a;
    forall i: int | 0 <= i < 4 && 0 <= d + i < 4 ensures ByteOf(TypeAt(m, b), i) == ByteOf(TypeAt(m, a), d + i) {
      BytesOfWord(m[b..b + 4], i);
      BytesOfWord(m[a..a + 4], d + i);
      assert m[b..b + 4][i] == m[b + i] == m[a..a + 4][d + i];
    }
  }

  lemma Misread(c: Config, j: Kind, k: Kind, m: seq<Byte>)
    requires ConfigOk(c) && Disjoint(c) && Rank(j) < Rank(k) && SentAs(c, k, m) && Matches(c, m, j)
    ensures Confusable(c, j, k)
  {
    var h, g := TypeAt(m, Junk(c, k)), TypeAt(m, Junk(c, j));
    OneRange(c, j, k, h);
    OverlayRead(m, Junk(c, k), Junk(c, j));
  }

  lemma Confused(c: Config, j: Kind, k: Kind) returns (m: seq<Byte>)
    requires ConfigOk(c) && Rank(j) < Rank(k) && Confusable(c, j, k)
    ensures SentAs(c, k, m) && Matches(c, m, j)
  {
    var h, g :| Validate(h, HeaderOf(c, k)) && Validate(g, HeaderOf(c, j)) && Overlay(h, g, Junk(c, j) - Junk(c, k));
    m := Compose(Junk(c, j) + Size(j), Junk(c, k), h, Junk(c, j), g);
  }

  /** Every message sent as kind `k` is received as kind `k` if and only if no earlier kind can be
      confused with it, which depends on the configuration alone. */
  lemma ReceivedAsSentIff(c: Config, k: Kind)
    requires ConfigOk(c) && Disjoint(c)
    ensures (forall m :: SentAs(c, k, m) ==> Classified(c, m) == Some(k))
            <==> (forall j :: Rank(j) < Rank(k) ==> !Confusable(c, j, k))
  {
    if forall j :: Rank(j) < Rank(k) ==> !Confusable(c, j, k) {
      forall m | SentAs(c, k, m) ensures Classified(c, m) == Some(k) {
        forall j | Rank(j) < Rank(k) ensures !Matches(c, m, j) {
          if Matches(c, m, j) { Misread(c, j, k, m); }
        }
        ClassifiedIff(c, m, k);
      }
    } else {
      var j :| Rank(j) < Rank(k) && Confusable(c, j, k);
      var m := Confused(c, j, k);
      ClassifiedIff(c, m, k);
      assert SentAs(c, k, m) && Classified(c, m) != Some(k);
    }
  }

  /** With one junk length for all kinds nothing is confused. */
  lemma EqualJunkReceivedAsSent(c: Config, k: Kind, m: seq<Byte>)
    requires ConfigOk(c) && Disjoint(c) && SentAs(c, k, m) && forall i :: 0 <= i < 4 ==> c.junk[i] == c.junk[0]
    ensures Classified(c, m) == Some(k)
  {
    ReceivedAsSentIff(c, k);
    forall j | Rank(j) < Rank(k) ensures !Confusable(c, j, k) {
      assert Junk(c, j) == c.junk[0] && Junk(c, k) == c.junk[0];
    }
  }

  /** An accepted configuration that confuses: S2 is 56 bytes longer than S1, which makes
      responses as long as initiations, so random junk can read as an initiation's type value. */
  lemma DifferentJunkConfuses() returns (c: Config, m: seq<Byte>)
    ensures ConfigOk(c) && Accepted(c) && SentAs(c, Response, m) && Classified(c, m) == Some(Initiation)
  {
    c := Config([0, 56, 0, 0], [Header(1, 1), Header(2, 2), Header(3, 3), Header(4, 4)]);
    var h, g := 2, 1;
    assert Validate(h, HeaderOf(c, Response)) && Validate(g, HeaderOf(c, Initiation)) && Overlay(h, g, 0 - 56);
    assert Confusable(c, Initiation, Response);
    m := Confused(c, Initiation, Response);
  }
}
