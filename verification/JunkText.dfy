/** The text of special packets: literal bytes and generated parts in angle brackets, read into
    a list of tags. */
module JunkText {
  import opened Common
  import opened Text

  datatype Modifier = PacketCounter | UnixTime | RandomBytes | RandomLetters | RandomDigits

  datatype Tag = Literal(bytes: seq<Byte>) | Generated(modifier: Modifier, size: int)

  function TagSize(t: Tag): (n: int) {
    if t.Literal? then |t.bytes| else t.size
  }

  // ---------------------------------------------------------------- text

  function HexValue(c: char): (r: Option<nat>)
    ensures r.Some? ==> r.value < 16
  {
    if '0' <= c <= '9' then Some((c - '0') as nat)
    else if 'a' <= c <= 'f' then Some((c - 'a') as nat + 10)
    else if 'A' <= c <= 'F' then Some((c - 'A') as nat + 10)
    else None
  }

  /** Either case of a letter is the digit it stands for. */
  lemma HexDigits(i: nat)
    ensures i < 10 ==> HexValue('0' + i as char) == Some(i)
    ensures i < 6 ==> HexValue('a' + i as char) == HexValue('A' + i as char) == Some(10 + i)
    ensures HexByte('f', 'F') == Some(255) && HexByte('1', '0') == Some(16) && HexByte('+', '7') == HexByte('7', '\n') == Some(7)
  {
  }

  /** The kernel's reading of a two-character hexadecimal number, which also takes a plus sign in
      front or a newline at the end of a single digit. */
  function HexByte(a: char, b: char): (r: Option<Byte>) {
    var x, y := HexValue(a), HexValue(b);
    if x.Some? && y.Some? then Some(16 * x.value + y.value)
    else if a == '+' && y.Some? then Some(y.value)
    else if x.Some? && b == '\n' then Some(x.value)
    else None
  }

  predicate HexText(s: string) {
    |s| % 2 == 0 && forall i :: 0 <= i < |s| / 2 ==> HexByte(s[2 * i], s[2 * i + 1]).Some?
  }

  function HexBytes(s: string): (r: seq<Byte>)
    requires HexText(s)
    ensures |r| == |s| / 2 && forall i :: 0 <= i < |r| ==> Some(r[i]) == HexByte(s[2 * i], s[2 * i + 1])
  {
    seq(|s| / 2, i requires 0 <= i < |s| / 2 => HexByte(s[2 * i], s[2 * i + 1]).value)
  }

  /** `parse_b_tag`: the digits are read from the last pair to the first. */
  method ReadLiteral(val: Option<string>) returns (r: Option<Tag>)
    ensures r == LiteralTag(val)
  {
    if val.None? || |val.value| < 2 || val.value[..2] != "0x" { return None; }
    var s := val.value[2..];
    if |s| == 0 || |s| % 2 != 0 { return None; }
    var i := |s| / 2;
    var bytes: seq<Byte> := [];
    while i > 0
      invariant 0 <= i <= |s| / 2 && |bytes| == |s| / 2 - i
      invariant forall k :: i <= k < |s| / 2 ==> HexByte(s[2 * k], s[2 * k + 1]) == Some(bytes[k - i])
    {
      i := i - 1;
      var b := HexByte(s[2 * i], s[2 * i + 1]);
      if b.None? { return None; }
      bytes := [b.value] + bytes;
    }
    assert HexText(s);
    assert bytes == HexBytes(s);
    return Some(Literal(bytes));
  }

  function LiteralTag(val: Option<string>): (r: Option<Tag>) {
    if val.None? || |val.value| < 2 || val.value[..2] != "0x" then None
    else
      var s := val.value[2..];
      if |s| == 0 || !HexText(s) then None else Some(Literal(HexBytes(s)))
  }

  /** Digits with an optional newline, as the kernel reads unsigned numbers. */
  function ReadDigits(s: string): (r: Option<nat>) {
    var b := Stripped(s);
    if !Digits(b) then None else Some(Value(b))
  }

  /** A 32-bit signed decimal. */
  function ReadInt(s: string): (r: Option<int>)
    ensures r.Some? ==> -TWO31 <= r.value < TWO31
  {
    if s != [] && s[0] == '-' then
      match ReadDigits(s[1..])
      case None => None
      case Some(v) => if v <= TWO31 then Some(0 - v) else None
    else
      match ReadDigits(if s != [] && s[0] == '+' then s[1..] else s)
      case None => None
      case Some(v) => if v < TWO31 then Some(v) else None
  }

  function SizedTag(m: Modifier, val: Option<string>): (r: Option<Tag>) {
    if val.None? || ReadInt(val.value).None? then None else Some(Generated(m, ReadInt(val.value).value))
  }

  function FixedTag(m: Modifier, val: Option<string>): (r: Option<Tag>) {
    if val.Some? then None else Some(Generated(m, 4))
  }

  /** One tag's text: a key, and a value after the first space. */
  function ReadTag(body: string): (r: Option<Tag>) {
    var (key, val) := Split(body, ' ');
    if key == "b" then LiteralTag(val)
    else if key == "c" then FixedTag(PacketCounter, val)
    else if key == "t" then FixedTag(UnixTime, val)
    else if key == "r" then SizedTag(RandomBytes, val)
    else if key == "rc" then SizedTag(RandomLetters, val)
    else if key == "rd" then SizedTag(RandomDigits, val)
    else None
  }

  /** All tags in text order; anything outside the angle brackets is skipped. */
  function ReadTags(s: Option<string>): (r: Option<seq<Tag>>)
    decreases if s.None? then 0 else |s.value| + 1
  {
    if s.None? then Some([])
    else
      var after := Split(s.value, '<').1;
      if after.None? then Some([])
      else
        var (body, rest) := Split(after.value, '>');
        match ReadTag(body)
        case None => None
        case Some(t) =>
          match ReadTags(rest)
          case None => None
          case Some(ts) => Some([t] + ts)
  }

  function Reversed(ts: seq<Tag>): (r: seq<Tag>)
    ensures |r| == |ts| && forall i :: 0 <= i < |ts| ==> r[i] == ts[|ts| - 1 - i]
  {
    seq(|ts|, i requires 0 <= i < |ts| => ts[|ts| - 1 - i])
  }

  /** `jp_parse_tags`: each tag is put in front of the list, so the list is in reverse text order. */
  method ParseTags(desc: string) returns (r: Option<seq<Tag>>)
    ensures var ts := ReadTags(Some(desc));
            if ts.None? then r.None? else r == Some(Reversed(ts.value))
  {
    var str: Option<string> := Some(desc);
    var list: seq<Tag> := [];
    Appended(list, ReadTags(str));
    while true
      invariant var rest := ReadTags(str); var all := ReadTags(Some(desc));
                if rest.None? then all.None? else all == Some(Reversed(list) + rest.value)
      decreases if str.None? then 0 else |str.value| + 1
    {
      if str.None? { break; }
      str := Split(str.value, '<').1;
      if str.None? { break; }
      var (body, rest) := Split(str.value, '>');
      var tag: Option<Tag>;
      if Split(body, ' ').0 == "b" {
        tag := ReadLiteral(Split(body, ' ').1);
      } else {
        tag := ReadTag(body);
      }
      if tag.None? { return None; }
      Prepended(tag.value, list, ReadTags(rest));
      str := rest;
      list := [tag.value] + list;
    }
    assert Reversed(list) + [] == Reversed(list);
    TwiceReversed(list);
    return Some(list);
  }

  lemma Prepended(t: Tag, list: seq<Tag>, rest: Option<seq<Tag>>)
    ensures rest.Some? ==> Reversed([t] + list) + rest.value == Reversed(list) + ([t] + rest.value)
  {
  }

  lemma Appended(list: seq<Tag>, rest: Option<seq<Tag>>)
    ensures list == [] && rest.Some? ==> Reversed(list) + rest.value == rest.value
  {
  }

  lemma TwiceReversed(ts: seq<Tag>)
    ensures Reversed(Reversed(ts)) == ts
  {
  }

  // ---------------------------------------------------------------- writing descriptions

  function HexChar(n: nat): (c: char)
    requires n < 16
    ensures HexValue(c) == Some(n)
  {
    if n < 10 then '0' + n as char else 'a' + (n - 10) as char
  }

  function HexPrint(b: seq<Byte>): (s: string)
    ensures |s| == 2 * |b|
    ensures forall i :: 0 <= i < |b| ==> HexByte(s[2 * i], s[2 * i + 1]) == Some(b[i])
    ensures forall i :: 0 <= i < |s| ==> HexValue(s[i]).Some?
  {
    if b == [] then [] else HexPrint(b[..|b| - 1]) + [HexChar(b[|b| - 1] / 16), HexChar(b[|b| - 1] % 16)]
  }

  function IntPrint(n: int): (s: string) {
    if n < 0 then "-" + Decimal(-n) else Decimal(n)
  }

  function Body(t: Tag): (s: string) {
    match t
    case Literal(bytes) => "b" + [' '] + ("0x" + HexPrint(bytes))
    case Generated(PacketCounter, _) => "c"
    case Generated(UnixTime, _) => "t"
    case Generated(RandomBytes, n) => "r" + [' '] + IntPrint(n)
    case Generated(RandomLetters, n) => "rc" + [' '] + IntPrint(n)
    case Generated(RandomDigits, n) => "rd" + [' '] + IntPrint(n)
  }

  function Describe(ts: seq<Tag>): (s: string) {
    if ts == [] then [] else ['<'] + (Body(ts[0]) + ['>'] + Describe(ts[1..]))
  }

  /** Tags that some text describes. */
  predicate Describable(t: Tag) {
    match t
    case Literal(bytes) => bytes != []
    case Generated(m, n) => if m.PacketCounter? || m.UnixTime? then n == 4 else -TWO31 <= n < TWO31
  }

  lemma ReadIntPrint(n: int)
    requires -TWO31 <= n < TWO31
    ensures ReadInt(IntPrint(n)) == Some(n)
    ensures Lacks(IntPrint(n), '>')
  {
    var d := Decimal(if n < 0 then -n else n);
    ValueOfDecimal(if n < 0 then -n else n);
    assert IsDigit(d[0]) && IsDigit(d[|d| - 1]);
    if n < 0 { assert IntPrint(n)[1..] == d; }
  }

  lemma HexRoundTrip(bytes: seq<Byte>)
    ensures HexText(HexPrint(bytes)) && HexBytes(HexPrint(bytes)) == bytes
  {
    var h := HexPrint(bytes);
    forall i | 0 <= i < |h| / 2 ensures HexByte(h[2 * i], h[2 * i + 1]) == Some(bytes[i]) {}
  }

  lemma LiteralPrint(bytes: seq<Byte>)
    requires bytes != []
    ensures LiteralTag(Some("0x" + HexPrint(bytes))) == Some(Literal(bytes))
    ensures Lacks("0x" + HexPrint(bytes), '>')
  {
    var h := HexPrint(bytes);
    var s := "0x" + h;
    HexRoundTrip(bytes);
    assert s[..2] == "0x" && s[2..] == h;
    forall i | 0 <= i < |s| ensures s[i] != '>' {
      if i >= 2 { assert HexValue(h[i - 2]).Some?; }
    }
  }

  lemma SizedPrint(key: string, n: int)
    requires Lacks(key, ' ') && Lacks(key, '>') && -TWO31 <= n < TWO31
    ensures Split(key + [' '] + IntPrint(n), ' ') == (key, Some(IntPrint(n)))
    ensures ReadInt(IntPrint(n)) == Some(n) && Lacks(key + [' '] + IntPrint(n), '>')
  {
    SplitAt(key, ' ', IntPrint(n));
    ReadIntPrint(n);
  }

  lemma ReadLiteralBody(t: Tag)
    requires Describable(t) && t.Literal?
    ensures ReadTag(Body(t)) == Some(t) && Lacks(Body(t), '>')
  {
    LiteralPrint(t.bytes);
    SplitAt("b", ' ', "0x" + HexPrint(t.bytes));
  }

  lemma ReadBody(t: Tag)
    requires Describable(t)
    ensures ReadTag(Body(t)) == Some(t) && Lacks(Body(t), '>')
  {
    match t
    case Literal(bytes) => ReadLiteralBody(t);
    case Generated(PacketCounter, _) => SplitNone("c", ' ');
    case Generated(UnixTime, _) => SplitNone("t", ' ');
    case Generated(RandomBytes, n) => SizedPrint("r", n);
    case Generated(RandomLetters, n) => SizedPrint("rc", n);
    case Generated(RandomDigits, n) => SizedPrint("rd", n);
  }

  /** Exactly the signed 32-bit decimals are read. */
  lemma ReadIntIff(s: string, n: int)
    ensures ReadInt(s) == Some(n) <==>
              && -0x8000_0000 <= n < 0x8000_0000
              && ((n >= 0 && (Numeral(s, n) || (s != [] && s[0] == '+' && Numeral(s[1..], n))))
                  || (n <= 0 && s != [] && s[0] == '-' && Numeral(s[1..], -n)))
  {
    if n >= 0 {
      NumeralIff(s, n);
      ReadDigitsIff(if s != [] && s[0] == '+' then s[1..] else s, n);
    }
    if n <= 0 && s != [] { ReadDigitsIff(s[1..], -n); }
  }

  lemma ReadDigitsIff(s: string, v: nat)
    ensures ReadDigits(s) == Some(v) <==> Numeral(s, v)
  {
    NumeralIff(s, v);
  }

  /** The keys of the tags, as texts. */
  lemma KeysRead(n: int)
    requires -0x8000_0000 <= n < 0x8000_0000
    ensures ReadTag("c") == Some(Generated(PacketCounter, 4)) && ReadTag("t") == Some(Generated(UnixTime, 4))
    ensures ReadTag("r " + IntPrint(n)) == Some(Generated(RandomBytes, n))
    ensures ReadTag("rc " + IntPrint(n)) == Some(Generated(RandomLetters, n))
    ensures ReadTag("rd " + IntPrint(n)) == Some(Generated(RandomDigits, n))
  {
    ReadBody(Generated(PacketCounter, 4));
    ReadBody(Generated(UnixTime, 4));
    ReadBody(Generated(RandomBytes, n));
    ReadBody(Generated(RandomLetters, n));
    ReadBody(Generated(RandomDigits, n));
    assert "r" + [' '] == "r " && "rc" + [' '] == "rc " && "rd" + [' '] == "rd ";
  }

  /** A tag stands between angle brackets, its value behind a space. */
  lemma OneTagRead(t: Tag)
    requires Describable(t)
    ensures ReadTags(Some("<" + Body(t) + ">")) == Some([t])
  {
    ReadDescribed([t]);
    assert Describe([t][1..]) == [];
    assert Describe([t]) == "<" + Body(t) + ">";
  }

  lemma LiteralRead()
    ensures ReadTag("b 0x0aF0") == Some(Literal([10, 240]))
  {
    LiteralValue();
    SplitAt("b", ' ', "0x0aF0");
    assert "b" + [' '] + "0x0aF0" == "b 0x0aF0";
  }

  lemma LiteralValue()
    ensures LiteralTag(Some("0x0aF0")) == Some(Literal([10, 240]))
  {
    var s := "0aF0";
    assert "0x0aF0"[..2] == "0x" && "0x0aF0"[2..] == s;
    assert HexByte(s[0], s[1]) == Some(10) && HexByte(s[2], s[3]) == Some(240);
    assert HexText(s) && HexBytes(s) == [10, 240];
  }

  /** Every list of describable tags is what its description is read as, in the same order. */
  lemma {:induction false} ReadDescribed(ts: seq<Tag>)
    requires forall i :: 0 <= i < |ts| ==> Describable(ts[i])
    ensures ReadTags(Some(Describe(ts))) == Some(ts)
    decreases |ts|
  {
    if ts != [] {
      var rest := Describe(ts[1..]);
      ReadDescribed(ts[1..]);
      ReadBody(ts[0]);
      ReadFirst(Body(ts[0]), rest, ts[0], ts[1..]);
      assert [ts[0]] + ts[1..] == ts;
    }
  }

  lemma ReadFirst(body: string, rest: string, t: Tag, ts: seq<Tag>)
    requires Lacks(body, '>') && ReadTag(body) == Some(t) && ReadTags(Some(rest)) == Some(ts)
    ensures ReadTags(Some(['<'] + (body + ['>'] + rest))) == Some([t] + ts)
  {
    var inner := body + ['>'] + rest;
    var s := ['<'] + inner;
    assert s[1..] == inner;
    assert Split(s, '<') == ([], Some(inner));
    SplitAt(body, '>', rest);
  }
}
