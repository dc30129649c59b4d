/** Text as the kernel's parsers handle it: tokens cut at a separator, and decimal numbers. */
module Text {
  import opened Common

  /** `strsep` for one separator: the token, and the text after it if the separator occurs. */
  function Split(s: string, c: char): (r: (string, Option<string>))
    ensures r.1.Some? ==> |r.1.value| < |s|
    ensures |r.0| <= |s|
  {
    if s == [] then ([], None)
    else if s[0] == c then ([], Some(s[1..]))
    else ([s[0]] + Split(s[1..], c).0, Split(s[1..], c).1)
  }

  predicate Lacks(s: string, c: char) {
    forall i :: 0 <= i < |s| ==> s[i] != c
  }

  lemma {:induction false} SplitAt(a: string, c: char, b: string)
    requires Lacks(a, c)
    ensures Split(a + [c] + b, c) == (a, Some(b))
    decreases |a|
  {
    var s := a + [c] + b;
    if a == [] {
      assert s[1..] == b;
    } else {
      SplitAt(a[1..], c, b);
      assert s[1..] == a[1..] + [c] + b && [a[0]] + a[1..] == a;
    }
  }

  lemma {:induction false} SplitNone(a: string, c: char)
    requires Lacks(a, c)
    ensures Split(a, c) == (a, None)
    decreases |a|
  {
    if a != [] {
      SplitNone(a[1..], c);
      assert [a[0]] + a[1..] == a;
    }
  }

  // ---------------------------------------------------------------- decimal numbers

  function Digit(d: nat): (c: char)
    requires d < 10
  {
    '0' + (d as char)
  }

  predicate IsDigit(c: char) { '0' <= c <= '9' }

  function Decimal(v: nat): (s: string)
    ensures s != [] && forall i :: 0 <= i < |s| ==> IsDigit(s[i])
  {
    if v < 10 then [Digit(v)] else Decimal(v / 10) + [Digit(v % 10)]
  }

  function Value(s: string): (v: nat)
    requires forall i :: 0 <= i < |s| ==> IsDigit(s[i])
  {
    if s == [] then 0 else assert IsDigit(s[|s| - 1]); Value(s[..|s| - 1]) * 10 + (s[|s| - 1] - '0') as nat
  }

  /** Digits, and possibly a newline at the end. */
  ghost predicate Numeral(s: string, v: nat) {
    exists d: string :: Digits(d) && Value(d) == v && (s == d || s == d + ['\n'])
  }

  predicate Digits(d: string) {
    d != [] && forall i :: 0 <= i < |d| ==> IsDigit(d[i])
  }

  function Stripped(s: string): (b: string) {
    if s != [] && s[|s| - 1] == '\n' then s[..|s| - 1] else s
  }

  lemma NumeralIff(s: string, v: nat)
    ensures Numeral(s, v) <==> Digits(Stripped(s)) && Value(Stripped(s)) == v
    ensures Numeral(s, v) ==> s != [] && IsDigit(s[0])
  {
    var b := Stripped(s);
    if Numeral(s, v) {
      var d :| Digits(d) && Value(d) == v && (s == d || s == d + ['\n']);
      assert IsDigit(d[|d| - 1]) && IsDigit(d[0]);
      assert b == d;
    }
    if Digits(b) && Value(b) == v {
      assert IsDigit(b[0]);
      assert s == b || s == b + ['\n'];
    }
  }

  lemma {:induction false} ValueOfDecimal(v: nat)
    ensures Value(Decimal(v)) == v
    decreases v
  {
    if v >= 10 {
      var s := Decimal(v);
      ValueOfDecimal(v / 10);
      assert s[..|s| - 1] == Decimal(v / 10);
    } else {
      assert [Digit(v)][..0] == [];
    }
  }

  /** Decimal digits, the highest first, without leading zeros. */
  lemma DecimalWritten(v: nat)
    ensures v < 10 ==> Decimal(v) == ['0' + v as char]
    ensures v >= 10 ==> Decimal(v) == Decimal(v / 10) + ['0' + (v % 10) as char]
    ensures Decimal(305) == "305"
  {
    assert Decimal(30) == Decimal(3) + ['0'] == "30";
    assert Decimal(305) == Decimal(30) + ['5'];
  }
}
